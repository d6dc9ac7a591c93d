/** The segment pool, counting segments, the expiring result cache and the
    processor that answers from the cache. Clock readings are passed in as
    `now`, in nanoseconds. */
module Performance {
  import opened Strings
  import opened Wrappers
  import FlatMessage

  class Segment {
    var tag: string
    var elements: seq<string>

    constructor()
      ensures tag == "" && elements == []
    {
      tag := "";
      elements := [];
    }
  }

  /** Segments kept for reuse, each cleared when it was returned. */
  class SegmentPool {
    var pooled: seq<Segment>

    ghost predicate Valid()
      reads this, pooled
    {
      forall i :: 0 <= i < |pooled| ==> pooled[i].tag == "" && pooled[i].elements == []
    }

    constructor()
      ensures pooled == [] && Valid()
    {
      pooled := [];
    }

    /** A pooled segment if there is one, else a new empty one; either way
      it comes out cleared. */
    method Get() returns (segment: Segment)
      requires Valid()
      modifies this
      ensures Valid()
      ensures segment.tag == "" && segment.elements == []
      ensures old(pooled) == [] ==> fresh(segment) && pooled == []
      ensures old(pooled) != [] ==> segment == old(pooled)[|old(pooled)| - 1] && pooled == old(pooled)[..|old(pooled)| - 1]
    {
      if |pooled| == 0 {
        segment := new Segment();
      } else {
        segment := pooled[|pooled| - 1];
        pooled := pooled[..|pooled| - 1];
      }
    }

    /** Clears the tag and the elements before keeping the segment. */
    method Put(segment: Segment)
      requires Valid()
      modifies this, segment
      ensures Valid()
      ensures segment.tag == "" && segment.elements == []
      ensures pooled == old(pooled) + [segment]
    {
      segment.tag := "";
      segment.elements := [];
      pooled := pooled + [segment];
    }
  }

  /** The number of segments in a message: its non-empty pieces. */
  function SegmentCount(message: string): nat
  {
    FlatMessage.CountNonEmpty(Split(message, '\''))
  }

  class ConcurrentProcessor {
    const workers: int

    constructor(workers: int)
      ensures this.workers == workers
    {
      this.workers := workers;
    }

    /** Counts the segments one by one; never fails. */
    method ProcessMessage(message: string) returns (segmentCount: int, err: Option<string>)
      ensures segmentCount == SegmentCount(message) && err == None
    {
      var segments := Split(message, '\'');
      segmentCount := 0;
      var i := 0;
      while i < |segments|
        invariant 0 <= i <= |segments|
        invariant segmentCount == FlatMessage.CountNonEmpty(segments[..i])
      {
        assert segments[..i + 1][..i] == segments[..i];
        if segments[i] != "" {
          segmentCount := segmentCount + 1;
        }
        i := i + 1;
      }
      assert segments[..i] == segments;
      err := None;
    }
  }

  /** The count agrees with the number of segments the shared reader
      produces. */
  lemma SegmentCountMatchesReader(message: string)
    ensures SegmentCount(message) == |FlatMessage.Parse(message).segments|
  {
    FlatMessage.SegmentCount(Split(message, '\''));
  }

  // Cache

  datatype CachedMessage = CachedMessage(segments: int, processed: int, expiration: int)

  predicate Expired(cm: CachedMessage, now: int)
  {
    now > cm.expiration
  }

  /** A stored entry that has not expired. */
  function Lookup(cache: map<string, CachedMessage>, key: string, now: int): Option<CachedMessage>
  {
    if key in cache && !Expired(cache[key], now) then Some(cache[key]) else None
  }

  const FiveMinutes: int := 5 * 60 * 1_000_000_000

  class MessageCache {
    var cache: map<string, CachedMessage>
    const ttl: int

    constructor(ttl: int)
      ensures cache == map[] && this.ttl == ttl
    {
      cache := map[];
      this.ttl := ttl;
    }

    method Get(key: string, now: int) returns (cached: Option<CachedMessage>)
      ensures cached == Lookup(cache, key, now)
    {
      if key in cache && !Expired(cache[key], now) {
        cached := Some(cache[key]);
      } else {
        cached := None;
      }
    }

    /** Overwrites the entry, to expire ttl after now. */
    method Set(key: string, segments: int, now: int)
      modifies this
      ensures cache == old(cache)[key := CachedMessage(segments, now, now + ttl)]
    {
      cache := cache[key := CachedMessage(segments, now, now + ttl)];
    }
  }

  /** An entry set at `t` is found exactly up to and including t + ttl. */
  lemma EntryLifetime(cache: map<string, CachedMessage>, key: string, segments: int, t: int, ttl: int, now: int)
    ensures var c := cache[key := CachedMessage(segments, t, t + ttl)];
      Lookup(c, key, now).Some? <==> now <= t + ttl
    ensures var c := cache[key := CachedMessage(segments, t, t + ttl)];
      now <= t + ttl ==> Lookup(c, key, now).value.segments == segments
  {
  }

  class OptimizedProcessor {
    const cache: MessageCache
    const concurrent: ConcurrentProcessor

    /** Every cached count is the true count of its message. */
    ghost predicate Valid()
      reads this, cache
    {
      forall k :: k in cache.cache ==> cache.cache[k].segments == SegmentCount(k)
    }

    constructor(workers: int)
      ensures fresh(cache) && cache.cache == map[] && cache.ttl == FiveMinutes && Valid()
    {
      cache := new MessageCache(FiveMinutes);
      concurrent := new ConcurrentProcessor(workers);
    }

    /** Answers from the cache when a live entry exists, otherwise counts
      and caches the count. */
    method ProcessMessage(message: string, now: int) returns (segments: int, err: Option<string>)
      requires Valid()
      modifies cache
      ensures Valid()
      ensures segments == SegmentCount(message) && err == None
      ensures Lookup(old(cache.cache), message, now).Some? ==> cache.cache == old(cache.cache)
      ensures Lookup(old(cache.cache), message, now).None? ==>
        cache.cache == old(cache.cache)[message := CachedMessage(segments, now, now + cache.ttl)]
    {
      var cached := cache.Get(message, now);
      if cached.Some? {
        return cached.value.segments, None;
      }
      segments, err := concurrent.ProcessMessage(message);
      if err.Some? {
        return 0, err;
      }
      cache.Set(message, segments, now);
    }
  }
}
