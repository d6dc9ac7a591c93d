/** Routing messages to handlers registered by message type, with a generic
    fallback, and running several handlers in sequence. */
module Dispatch {
  import opened Strings
  import opened Wrappers
  import FlatMessage
  import Transform

  type Segment = FlatMessage.Segment
  type Message = FlatMessage.Message

  datatype Invoice = Invoice(number: string, date: string, items: seq<string>)

  datatype Order = Order(number: string, date: string)

  /** Business number and date from BGM and DTM, and one product code per
      item line. */
  function InvoiceStep(invoice: Invoice, s: Segment): Invoice
  {
    if s.tag == "BGM" then
      if |s.elements| > 1 then invoice.(number := s.elements[1]) else invoice
    else if s.tag == "DTM" then
      if Transform.SecondComponent(s).Some? then invoice.(date := Transform.SecondComponent(s).value) else invoice
    else if s.tag == "LIN" then
      if |s.elements| > 2 then invoice.(items := invoice.items + [Split(s.elements[2], ':')[0]]) else invoice
    else invoice
  }

  function InvoiceOf(segments: seq<Segment>): Invoice
  {
    if |segments| == 0 then Invoice("", "", [])
    else InvoiceStep(InvoiceOf(segments[..|segments| - 1]), segments[|segments| - 1])
  }

  function OrderStep(order: Order, s: Segment): Order
  {
    if s.tag == "BGM" then
      if |s.elements| > 1 then order.(number := s.elements[1]) else order
    else if s.tag == "DTM" then
      if Transform.SecondComponent(s).Some? then order.(date := Transform.SecondComponent(s).value) else order
    else order
  }

  function OrderOf(segments: seq<Segment>): Order
  {
    if |segments| == 0 then Order("", "")
    else OrderStep(OrderOf(segments[..|segments| - 1]), segments[|segments| - 1])
  }

  method ExtractInvoice(message: Message) returns (invoice: Invoice)
    ensures invoice == InvoiceOf(message.segments)
  {
    var segments := message.segments;
    invoice := Invoice("", "", []);
    var i := 0;
    while i < |segments|
      invariant 0 <= i <= |segments|
      invariant invoice == InvoiceOf(segments[..i])
    {
      assert segments[..i + 1][..i] == segments[..i];
      var segment := segments[i];
      if segment.tag == "BGM" {
        if |segment.elements| > 1 {
          invoice := invoice.(number := segment.elements[1]);
        }
      } else if segment.tag == "DTM" {
        if |segment.elements| > 0 {
          var parts := Split(segment.elements[0], ':');
          if |parts| > 1 {
            invoice := invoice.(date := parts[1]);
          }
        }
      } else if segment.tag == "LIN" {
        if |segment.elements| > 2 {
          var parts := Split(segment.elements[2], ':');
          invoice := invoice.(items := invoice.items + [parts[0]]);
        }
      }
      i := i + 1;
    }
    assert segments[..i] == segments;
  }

  method ExtractOrder(message: Message) returns (order: Order)
    ensures order == OrderOf(message.segments)
  {
    var segments := message.segments;
    order := Order("", "");
    var i := 0;
    while i < |segments|
      invariant 0 <= i <= |segments|
      invariant order == OrderOf(segments[..i])
    {
      assert segments[..i + 1][..i] == segments[..i];
      var segment := segments[i];
      if segment.tag == "BGM" {
        if |segment.elements| > 1 {
          order := order.(number := segment.elements[1]);
        }
      } else if segment.tag == "DTM" {
        if |segment.elements| > 0 {
          var parts := Split(segment.elements[0], ':');
          if |parts| > 1 {
            order := order.(date := parts[1]);
          }
        }
      }
      i := i + 1;
    }
    assert segments[..i] == segments;
  }

  /** The invoice handler's extractor agrees with the transformer's on the
      number, the date and the product codes. */
  lemma {:induction false} InvoiceAgreesWithTransformer(segments: seq<Segment>)
    ensures InvoiceOf(segments).number == Transform.DocumentOf(segments).number
    ensures InvoiceOf(segments).date == Transform.DocumentOf(segments).date
    ensures InvoiceOf(segments).items == Transform.LineCodes(segments)
    ensures OrderOf(segments) == Order(InvoiceOf(segments).number, InvoiceOf(segments).date)
  {
    if |segments| > 0 {
      InvoiceAgreesWithTransformer(segments[..|segments| - 1]);
    }
  }

  // Handlers

  /** What processing did: the error returned, if any, and the business
      numbers stored in a repository, in order. */
  datatype Outcome = Outcome(error: Option<string>, saved: seq<string>)

  datatype Handler = InvoiceHandler | OrderHandler | GenericHandler

  function MessageTypeOf(h: Handler): string
  {
    match h
    case InvoiceHandler => "INVOIC"
    case OrderHandler => "ORDERS"
    case GenericHandler => "GENERIC"
  }

  function ProcessOf(h: Handler, message: Message): Outcome
  {
    match h
    case InvoiceHandler =>
      var invoice := InvoiceOf(message.segments);
      if invoice.number == "" then Outcome(Some("validation failed: invoice number is required"), [])
      else Outcome(None, [invoice.number])
    case OrderHandler =>
      var order := OrderOf(message.segments);
      if order.number == "" then Outcome(Some("validation failed: order number is required"), [])
      else Outcome(None, [order.number])
    case GenericHandler => Outcome(None, [])
  }

  /** Extracts, validates that the number is present, then stores and
      notifies; storing and notifying never fail. */
  method ProcessWith(h: Handler, message: Message) returns (outcome: Outcome)
    ensures outcome == ProcessOf(h, message)
  {
    match h
    case InvoiceHandler =>
      var invoice := ExtractInvoice(message);
      if invoice.number == "" {
        return Outcome(Some("validation failed: invoice number is required"), []);
      }
      outcome := Outcome(None, [invoice.number]);
    case OrderHandler =>
      var order := ExtractOrder(message);
      if order.number == "" {
        return Outcome(Some("validation failed: order number is required"), []);
      }
      outcome := Outcome(None, [order.number]);
    case GenericHandler =>
      outcome := Outcome(None, []);
  }

  /** A handler fails exactly when the business number is missing, and a
      failed handler has stored nothing. */
  lemma HandlerFailsIffNoNumber(h: Handler, message: Message)
    ensures var o := ProcessOf(h, message);
      && (o.error.Some? <==>
            (h == InvoiceHandler && InvoiceOf(message.segments).number == "")
            || (h == OrderHandler && OrderOf(message.segments).number == ""))
      && (o.error.Some? ==> o.saved == [])
      && (h == GenericHandler ==> o == Outcome(None, []))
  {
  }

  // Routing

  function RouteOf(handlers: map<string, Handler>, message: Message): Outcome
  {
    if message.messageType in handlers then ProcessOf(handlers[message.messageType], message)
    else ProcessOf(GenericHandler, message)
  }

  class MessageDetector {
    var handlers: map<string, Handler>
    const fallback: Handler := GenericHandler

    constructor()
      ensures handlers == map[]
    {
      handlers := map[];
    }

    /** A later registration for the same type replaces the earlier one. */
    method RegisterHandler(msgType: string, handler: Handler)
      modifies this
      ensures handlers == old(handlers)[msgType := handler]
    {
      handlers := handlers[msgType := handler];
    }

    method DetectAndRoute(message: Message) returns (outcome: Outcome)
      ensures outcome == RouteOf(handlers, message)
    {
      if message.messageType in handlers {
        outcome := ProcessWith(handlers[message.messageType], message);
      } else {
        outcome := ProcessWith(fallback, message);
      }
    }
  }

  /** The registered handler runs exactly when the type is a registered key;
      otherwise the fallback runs, which succeeds and stores nothing. */
  lemma RouteSelectsHandler(handlers: map<string, Handler>, message: Message)
    ensures message.messageType in handlers ==> RouteOf(handlers, message) == ProcessOf(handlers[message.messageType], message)
    ensures message.messageType !in handlers ==> RouteOf(handlers, message) == Outcome(None, [])
  {
  }

  // Composition

  /** Handlers in order, stopping at the first failure, which is reported
      with the failing handler's type. */
  function CompositeOf(handlers: seq<Handler>, message: Message): Outcome
  {
    if |handlers| == 0 then Outcome(None, [])
    else
      var first := ProcessOf(handlers[0], message);
      if first.error.Some? then
        Outcome(Some("handler " + MessageTypeOf(handlers[0]) + " failed: " + first.error.value), first.saved)
      else
        var rest := CompositeOf(handlers[1..], message);
        Outcome(rest.error, first.saved + rest.saved)
  }

  class CompositeHandler {
    const handlers: seq<Handler>

    constructor(handlers: seq<Handler>)
      ensures this.handlers == handlers
    {
      this.handlers := handlers;
    }

    method Process(message: Message) returns (outcome: Outcome)
      ensures outcome == CompositeOf(handlers, message)
    {
      var saved: seq<string> := [];
      var i := 0;
      while i < |handlers|
        invariant 0 <= i <= |handlers|
        invariant CompositeOf(handlers, message) ==
          var rest := CompositeOf(handlers[i..], message); Outcome(rest.error, saved + rest.saved)
      {
        var handler := handlers[i];
        var result := ProcessWith(handler, message);
        assert handlers[i..][1..] == handlers[i + 1..];
        if result.error.Some? {
          return Outcome(Some("handler " + MessageTypeOf(handler) + " failed: " + result.error.value), saved + result.saved);
        }
        saved := saved + result.saved;
        i := i + 1;
      }
      outcome := Outcome(None, saved);
    }
  }

  /** The composite succeeds exactly when every handler does; otherwise it
      reports the first handler that failed, and no later handler has run. */
  lemma {:induction false} CompositeStopsAtFirstFailure(handlers: seq<Handler>, message: Message)
    ensures CompositeOf(handlers, message).error.None? <==>
      forall k :: 0 <= k < |handlers| ==> ProcessOf(handlers[k], message).error.None?
    ensures CompositeOf(handlers, message).error.Some? ==>
      exists k :: 0 <= k < |handlers| && (forall j :: 0 <= j < k ==> ProcessOf(handlers[j], message).error.None?)
        && ProcessOf(handlers[k], message).error.Some?
        && CompositeOf(handlers, message).error.value ==
             "handler " + MessageTypeOf(handlers[k]) + " failed: " + ProcessOf(handlers[k], message).error.value
  {
    CompositeSucceedsIffAll(handlers, message);
    CompositeNamesFirstFailure(handlers, message);
  }

  lemma {:induction false} CompositeSucceedsIffAll(handlers: seq<Handler>, message: Message)
    ensures CompositeOf(handlers, message).error.None? <==>
      forall k :: 0 <= k < |handlers| ==> ProcessOf(handlers[k], message).error.None?
  {
    if |handlers| > 0 {
      var tail := handlers[1..];
      CompositeSucceedsIffAll(tail, message);
      assert forall k :: 1 <= k < |handlers| ==> handlers[k] == tail[k - 1];
      if ProcessOf(handlers[0], message).error.None? {
        assert CompositeOf(handlers, message).error == CompositeOf(tail, message).error;
        assert (forall k :: 0 <= k < |handlers| ==> ProcessOf(handlers[k], message).error.None?) <==>
          (forall k :: 0 <= k < |tail| ==> ProcessOf(tail[k], message).error.None?);
      }
    }
  }

  lemma {:induction false} CompositeNamesFirstFailure(handlers: seq<Handler>, message: Message)
    ensures CompositeOf(handlers, message).error.Some? ==>
      exists k :: 0 <= k < |handlers| && (forall j :: 0 <= j < k ==> ProcessOf(handlers[j], message).error.None?)
        && ProcessOf(handlers[k], message).error.Some?
        && CompositeOf(handlers, message).error.value ==
             "handler " + MessageTypeOf(handlers[k]) + " failed: " + ProcessOf(handlers[k], message).error.value
  {
    if |handlers| > 0 {
      var tail := handlers[1..];
      if ProcessOf(handlers[0], message).error.None? && CompositeOf(handlers, message).error.Some? {
        assert CompositeOf(handlers, message).error == CompositeOf(tail, message).error;
        CompositeNamesFirstFailure(tail, message);
        var k :| 0 <= k < |tail| && (forall j :: 0 <= j < k ==> ProcessOf(tail[j], message).error.None?)
          && ProcessOf(tail[k], message).error.Some?
          && CompositeOf(tail, message).error.value ==
               "handler " + MessageTypeOf(tail[k]) + " failed: " + ProcessOf(tail[k], message).error.value;
        assert handlers[k + 1] == tail[k];
        forall j | 0 <= j < k + 1
          ensures ProcessOf(handlers[j], message).error.None?
        {
          if j > 0 {
            assert handlers[j] == tail[j - 1];
          }
        }
      }
    }
  }
}
