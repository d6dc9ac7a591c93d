/** The message repository, the cache, the token-bucket rate limiter, the
    bounded message queue and the manager that ties them together. Clock
    readings are passed in as `now`, in nanoseconds since the Unix epoch. */
module Integration {
  import opened Strings
  import opened Wrappers

  const NanosPerSecond: int := 1_000_000_000

  // Handlers

  datatype Booking = Booking(id: string, sender: string, receiver: string, transportMode: string, reference: string)

  datatype Invoice = Invoice(id: string, seller: string, buyer: string, amount: string, currency: string, reference: string)

  /** The fields the library's own IFTMIN and INVOIC readers deliver. */
  datatype ParsedBooking = ParsedBooking(reference: string, sender: string, receiver: string)

  datatype ParsedInvoice = ParsedInvoice(reference: string, seller: string, buyer: string)

  predicate BookingCanHandle(messageType: string)
  {
    messageType == "IFTMIN"
  }

  predicate InvoiceCanHandle(messageType: string)
  {
    messageType == "INVOIC"
  }

  /** The library reader's error passes through; otherwise the booking takes
      the reference as its identifier and road as its transport mode. */
  function HandleBooking(parsed: Result<ParsedBooking>): (r: Result<Booking>)
    ensures parsed.Failure? ==> r == Failure(parsed.error)
    ensures parsed.Success? ==>
      (r.Success? && r.value.id == r.value.reference == parsed.value.reference
       && r.value.sender == parsed.value.sender && r.value.receiver == parsed.value.receiver && r.value.transportMode == "ROAD")
  {
    match parsed
    case Failure(e) => Failure(e)
    case Success(m) => Success(Booking(m.reference, m.sender, m.receiver, "ROAD", m.reference))
  }

  function HandleInvoice(parsed: Result<ParsedInvoice>): (r: Result<Invoice>)
    ensures parsed.Failure? ==> r == Failure(parsed.error)
    ensures parsed.Success? ==>
      (r.Success? && r.value.id == r.value.reference == parsed.value.reference
       && r.value.seller == parsed.value.seller && r.value.buyer == parsed.value.buyer
       && r.value.amount == "0.00" && r.value.currency == "USD")
  {
    match parsed
    case Failure(e) => Failure(e)
    case Success(m) => Success(Invoice(m.reference, m.seller, m.buyer, "0.00", "USD", m.reference))
  }

  // Repository

  datatype EDIMessage = EDIMessage(id: string, messageType: string, sender: string, receiver: string, content: string, status: string)

  /** The lookup both message stores perform: the message stored under the
      identifier, or the "message ID not found" error. */
  function FindMessage<M>(messages: map<string, M>, id: string): (r: Result<M>)
    ensures r.Success? <==> id in messages
    ensures r.Success? ==> r.value == messages[id]
    ensures r.Failure? ==> r.error == "message " + id + " not found"
  {
    if id in messages then Success(messages[id]) else Failure("message " + id + " not found")
  }

  class EDIRepository {
    var messages: map<string, EDIMessage>

    constructor()
      ensures messages == map[]
    {
      messages := map[];
    }

    /** Inserts or overwrites by identifier; never fails. */
    method SaveMessage(message: EDIMessage) returns (err: Option<string>)
      modifies this
      ensures messages == old(messages)[message.id := message] && err == None
    {
      messages := messages[message.id := message];
      err := None;
    }

    method GetMessage(id: string) returns (r: Result<EDIMessage>)
      ensures r == FindMessage(messages, id)
    {
      if id in messages {
        r := Success(messages[id]);
      } else {
        r := Failure("message " + id + " not found");
      }
    }

    /** Changes the status of the stored message with this identifier and
      nothing else; fails when there is none. */
    method UpdateStatus(id: string, status: string) returns (err: Option<string>)
      modifies this
      ensures id in old(messages) ==> err == None && messages == old(messages)[id := old(messages)[id].(status := status)]
      ensures id !in old(messages) ==> err == Some("message " + id + " not found") && messages == old(messages)
    {
      if id in messages {
        var message := messages[id];
        messages := messages[id := message.(status := status)];
        err := None;
      } else {
        err := Some("message " + id + " not found");
      }
    }
  }

  /** Updating a status keeps the set of stored identifiers and every other
      message, and the updated one differs only in its status. */
  lemma StatusUpdateLocal(messages: map<string, EDIMessage>, id: string, status: string, other: string)
    requires id in messages
    ensures var updated := messages[id := messages[id].(status := status)];
      && updated.Keys == messages.Keys
      && (other != id && other in messages ==> updated[other] == messages[other])
      && updated[id].status == status
      && updated[id] == messages[id].(status := status)
  {
  }

  // Cache

  class Cache<V> {
    var data: map<string, V>

    constructor()
      ensures data == map[]
    {
      data := map[];
    }

    method Get(key: string) returns (value: Option<V>)
      ensures key in data <==> value.Some?
      ensures key in data ==> value == Some(data[key])
    {
      if key in data {
        value := Some(data[key]);
      } else {
        value := None;
      }
    }

    method Set(key: string, value: V)
      modifies this
      ensures data == old(data)[key := value]
    {
      data := data[key := value];
    }
  }

  /** A value set under a key is what a later read of that key sees. */
  method SetThenGet<V>(cache: Cache<V>, key: string, value: V) returns (seen: Option<V>)
    modifies cache
    ensures seen == Some(value)
  {
    cache.Set(key, value);
    seen := cache.Get(key);
  }

  // Rate limiter

  /** Whole seconds in a duration, truncated toward zero. */
  function WholeSeconds(nanos: int): int
  {
    if nanos >= 0 then nanos / NanosPerSecond else -((-nanos) / NanosPerSecond)
  }

  datatype Bucket = Bucket(tokens: int, lastRefill: int)

  /** Refills whole elapsed seconds times the rate, capped at the capacity,
      moving the refill time only when tokens were added; then takes one
      token if there is one. */
  function AllowOf(b: Bucket, capacity: int, rate: int, now: int): (bool, Bucket)
  {
    var tokensToAdd := WholeSeconds(now - b.lastRefill) * rate;
    var refilled := if tokensToAdd > 0 then Bucket(if capacity < b.tokens + tokensToAdd then capacity else b.tokens + tokensToAdd, now) else b;
    if refilled.tokens > 0 then (true, refilled.(tokens := refilled.tokens - 1)) else (false, refilled)
  }

  /** The bucket stays within 0..capacity; a call is allowed exactly when a
      token is left after the refill, and then takes exactly one. */
  lemma AllowKeepsBounds(b: Bucket, capacity: int, rate: int, now: int)
    requires 0 <= b.tokens <= capacity
    ensures var (allowed, b') := AllowOf(b, capacity, rate, now);
      var added := WholeSeconds(now - b.lastRefill) * rate;
      var refilled := if added > 0 then (if capacity < b.tokens + added then capacity else b.tokens + added) else b.tokens;
      && 0 <= b'.tokens <= capacity
      && (allowed <==> refilled > 0)
      && b'.tokens == (if allowed then refilled - 1 else refilled)
      && (b'.lastRefill != b.lastRefill ==> added > 0 && b'.lastRefill == now)
  {
  }

  /** The number of calls allowed among n calls at the same instant. */
  function Burst(b: Bucket, capacity: int, rate: int, now: int, n: nat): (nat, Bucket)
    decreases n
  {
    if n == 0 then (0, b)
    else
      var (allowed, b') := AllowOf(b, capacity, rate, now);
      var (count, b'') := Burst(b', capacity, rate, now, n - 1);
      (count + (if allowed then 1 else 0), b'')
  }

  /** Within a second of the last refill, calls can take no more than the
      tokens already in the bucket. */
  lemma {:induction false} BurstBounded(b: Bucket, capacity: int, rate: int, now: int, n: nat)
    requires 0 <= b.tokens && 0 <= now - b.lastRefill < NanosPerSecond
    ensures Burst(b, capacity, rate, now, n).0 <= b.tokens
    ensures Burst(b, capacity, rate, now, n).0 == (if n < b.tokens then n else b.tokens)
    decreases n
  {
    if n > 0 {
      var (allowed, b') := AllowOf(b, capacity, rate, now);
      assert b'.lastRefill == b.lastRefill;
      BurstBounded(b', capacity, rate, now, n - 1);
    }
  }

  class RateLimiter {
    var tokens: int
    const capacity: int
    const rate: int
    var lastRefill: int

    function Current(): Bucket
      reads this
    {
      Bucket(tokens, lastRefill)
    }

    constructor(capacity: int, rate: int, now: int)
      ensures this.capacity == capacity && this.rate == rate && Current() == Bucket(capacity, now)
    {
      tokens := capacity;
      this.capacity := capacity;
      this.rate := rate;
      lastRefill := now;
    }

    method Allow(now: int) returns (allowed: bool)
      modifies this
      ensures (allowed, Current()) == AllowOf(old(Current()), capacity, rate, now)
    {
      var elapsed := now - lastRefill;
      var tokensToAdd := WholeSeconds(elapsed) * rate;
      if tokensToAdd > 0 {
        tokens := if capacity < tokens + tokensToAdd then capacity else tokens + tokensToAdd;
        lastRefill := now;
      }
      if tokens > 0 {
        tokens := tokens - 1;
        return true;
      }
      return false;
    }
  }

  // Queue

  datatype QueueMessage = QueueMessage(id: string, messageType: string, payload: EDIMessage, retries: int)

  /** A buffered channel of fixed capacity: sending never waits. */
  class MessageQueue<T> {
    var queue: seq<T>
    const capacity: nat

    constructor(capacity: nat)
      ensures queue == [] && this.capacity == capacity
    {
      queue := [];
      this.capacity := capacity;
    }

    method Send(message: T) returns (err: Option<string>)
      modifies this
      ensures |old(queue)| < capacity ==> err == None && queue == old(queue) + [message]
      ensures |old(queue)| >= capacity ==> err == Some("queue is full") && queue == old(queue)
    {
      if |queue| < capacity {
        queue := queue + [message];
        err := None;
      } else {
        err := Some("queue is full");
      }
    }
  }

  // Manager

  /** The identifier of a message created at `now`: MSG_ and the Unix
      seconds. */
  function MessageId(now: int): string
  {
    "MSG_" + IntToString(now / NanosPerSecond)
  }

  function NewMessage(content: string, now: int): EDIMessage
  {
    EDIMessage(MessageId(now), "INVOIC", "SENDER001", "RECEIVER001", content, "RECEIVED")
  }

  class IntegrationManager {
    const repository: EDIRepository
    const cache: Cache<EDIMessage>
    const rateLimit: RateLimiter
    const queue: MessageQueue<QueueMessage>

    constructor(now: int)
      ensures fresh(repository) && fresh(cache) && fresh(rateLimit) && fresh(queue)
      ensures repository.messages == map[] && cache.data == map[]
      ensures rateLimit.capacity == 10 && rateLimit.rate == 1 && rateLimit.Current() == Bucket(10, now)
      ensures queue.queue == [] && queue.capacity == 100
    {
      repository := new EDIRepository();
      cache := new Cache<EDIMessage>();
      rateLimit := new RateLimiter(10, 1, now);
      queue := new MessageQueue<QueueMessage>(100);
    }

    /** Stores the new message first, then asks the rate limiter, then
      queues it; a rate-limited message stays stored and is not queued. */
    method ProcessMessage(content: string, now: int) returns (err: Option<string>)
      modifies repository, rateLimit, queue
      ensures var message := NewMessage(content, now);
        var (allowed, bucket) := AllowOf(old(rateLimit.Current()), rateLimit.capacity, rateLimit.rate, now);
        && repository.messages == old(repository.messages)[message.id := message]
        && rateLimit.Current() == bucket
        && (!allowed ==> err == Some("rate limit exceeded") && queue.queue == old(queue.queue))
        && (allowed && |old(queue.queue)| < queue.capacity ==>
              err == None && queue.queue == old(queue.queue) + [QueueMessage(message.id, "INVOIC", message, 0)])
        && (allowed && |old(queue.queue)| >= queue.capacity ==> err == Some("queue is full") && queue.queue == old(queue.queue))
    {
      var message := NewMessage(content, now);
      err := repository.SaveMessage(message);
      var allowed := rateLimit.Allow(now);
      if !allowed {
        return Some("rate limit exceeded");
      }
      err := queue.Send(QueueMessage(message.id, message.messageType, message, 0));
    }
  }

  /** A queued message is marked processed; processing fails when the
      message is not stored. The notification sent afterwards never fails. */
  method ProcessQueued(repository: EDIRepository, message: QueueMessage) returns (err: Option<string>)
    modifies repository
    ensures message.id in old(repository.messages) <==> err == None
    ensures message.id in old(repository.messages) ==>
      repository.messages == old(repository.messages)[message.id := old(repository.messages)[message.id].(status := "PROCESSED")]
    ensures message.id !in old(repository.messages) ==>
      err == Some("message " + message.id + " not found") && repository.messages == old(repository.messages)
  {
    err := repository.UpdateStatus(message.id, "PROCESSED");
  }

  /** Messages created in different seconds get different identifiers. */
  lemma MessageIdsBySecond(now1: int, now2: int)
    requires now1 >= 0 && now2 >= 0 && now1 / NanosPerSecond != now2 / NanosPerSecond
    ensures MessageId(now1) != MessageId(now2)
  {
    NumberedKeysDistinct("MSG_", now1 / NanosPerSecond, now2 / NanosPerSecond);
  }
}
