/** The ORDERS handler: one scan over the segments collects the message
    reference, order number and date, the buyer and supplier, and one item
    per line, whose ordered quantity a later QTY fills in. */
module OrdersHandler {
  import GenericModel

  type Segment = GenericModel.Segment

  datatype OrderItem = OrderItem(lineNumber: string, productCode: string, quantity: string)

  datatype OrdersMessage = OrdersMessage(
    messageReference: string,
    orderNumber: string,
    orderDate: string,
    buyer: string,
    supplier: string,
    items: seq<OrderItem>)

  predicate CanHandle(messageType: string) { messageType == "ORDERS" }

  const Empty := OrdersMessage("", "", "", "", "", [])

  /** The item a LIN segment opens. */
  function ItemOf(s: Segment): OrderItem
  {
    var lineNumber := if |s.elements| > 0 then s.elements[0].value else "";
    var productCode := if |s.elements| > 2 && s.elements[2].isComposite then s.elements[2].components[0] else "";
    OrderItem(lineNumber, productCode, "")
  }

  /** A QTY with qualifier 21 and a second element: an ordered quantity. */
  predicate IsOrderedQuantity(s: Segment)
  {
    s.tag == "QTY" && |s.elements| > 1 && s.elements[0].value == "21"
  }

  /** What one segment does to the result. */
  function Step(r: OrdersMessage, s: Segment): OrdersMessage
  {
    match s.tag
    case "UNH" => if |s.elements| > 0 then r.(messageReference := s.elements[0].value) else r
    case "BGM" => if |s.elements| > 1 then r.(orderNumber := s.elements[1].value) else r
    case "DTM" =>
      if |s.elements| > 1 && s.elements[0].value == "4" then r.(orderDate := s.elements[1].value) else r
    case "NAD" =>
      if |s.elements| > 2 && s.elements[0].value == "BY" then r.(buyer := s.elements[2].value)
      else if |s.elements| > 2 && s.elements[0].value == "SU" then r.(supplier := s.elements[2].value)
      else r
    case "LIN" => r.(items := r.items + [ItemOf(s)])
    case "QTY" =>
      if IsOrderedQuantity(s) && |r.items| > 0 then
        var last := |r.items| - 1;
        r.(items := r.items[last := r.items[last].(quantity := s.elements[1].value)])
      else r
    case _ => r
  }

  function ResultOf(segments: seq<Segment>): OrdersMessage
  {
    if |segments| == 0 then Empty
    else Step(ResultOf(segments[..|segments| - 1]), segments[|segments| - 1])
  }

  /** The scan of one segment, as the handler performs it. */
  method Apply(result: OrdersMessage, segment: Segment) returns (result': OrdersMessage)
    ensures result' == Step(result, segment)
  {
    result' := result;
    if segment.tag == "UNH" {
      if |segment.elements| > 0 {
        result' := result'.(messageReference := segment.elements[0].value);
      }
    } else if segment.tag == "BGM" {
      if |segment.elements| > 1 {
        result' := result'.(orderNumber := segment.elements[1].value);
      }
    } else if segment.tag == "DTM" {
      if |segment.elements| > 0 {
        var dateType := segment.elements[0].value;
        if dateType == "4" && |segment.elements| > 1 {
          result' := result'.(orderDate := segment.elements[1].value);
        }
      }
    } else if segment.tag == "NAD" {
      if |segment.elements| > 0 {
        var partyType := segment.elements[0].value;
        if partyType == "BY" {
          if |segment.elements| > 2 {
            result' := result'.(buyer := segment.elements[2].value);
          }
        } else if partyType == "SU" {
          if |segment.elements| > 2 {
            result' := result'.(supplier := segment.elements[2].value);
          }
        }
      }
    } else if segment.tag == "LIN" {
      var item := OrderItem("", "", "");
      if |segment.elements| > 0 {
        item := item.(lineNumber := segment.elements[0].value);
      }
      if |segment.elements| > 2 && segment.elements[2].isComposite {
        item := item.(productCode := segment.elements[2].components[0]);
      }
      result' := result'.(items := result'.items + [item]);
    } else if segment.tag == "QTY" {
      if |segment.elements| > 0 {
        var quantityType := segment.elements[0].value;
        if quantityType == "21" && |segment.elements| > 1 && |result'.items| > 0 {
          var last := |result'.items| - 1;
          result' := result'.(items := result'.items[last := result'.items[last].(quantity := segment.elements[1].value)]);
        }
      }
    }
  }

  /** ORDERSHandler.Handle; it never fails. */
  method Handle(message: GenericModel.Message) returns (result: OrdersMessage)
    ensures result == ResultOf(message.segments)
  {
    result := Empty;
    for i := 0 to |message.segments|
      invariant result == ResultOf(message.segments[..i])
    {
      assert message.segments[..i + 1][..i] == message.segments[..i];
      result := Apply(result, message.segments[i]);
    }
    assert message.segments[..|message.segments|] == message.segments;
  }

  /** The LIN segments, in order. */
  function Lines(segments: seq<Segment>): (r: seq<Segment>)
    ensures forall k :: 0 <= k < |r| ==> r[k].tag == "LIN"
  {
    if |segments| == 0 then []
    else Lines(segments[..|segments| - 1]) + (if segments[|segments| - 1].tag == "LIN" then [segments[|segments| - 1]] else [])
  }

  /** A LIN adds its item, an ordered quantity rewrites the last item's
      quantity, and nothing else touches the items. */
  lemma StepItems(r: OrdersMessage, s: Segment)
    ensures var items := Step(r, s).items;
      && (s.tag == "LIN" ==> items == r.items + [ItemOf(s)])
      && (s.tag != "LIN" ==>
            && |items| == |r.items|
            && forall k :: 0 <= k < |items| ==> items[k].lineNumber == r.items[k].lineNumber && items[k].productCode == r.items[k].productCode)
  {
  }

  /** One item per LIN, in order: item k has the line number and product
      code of the k-th LIN. Quantities are the only thing other segments
      change in the items. */
  lemma {:induction false} ItemsFollowLines(segments: seq<Segment>)
    ensures var items := ResultOf(segments).items;
      && |items| == |Lines(segments)|
      && forall k :: 0 <= k < |items| ==>
           items[k].lineNumber == ItemOf(Lines(segments)[k]).lineNumber
           && items[k].productCode == ItemOf(Lines(segments)[k]).productCode
  {
    if |segments| > 0 {
      var n := |segments| - 1;
      var front := segments[..n];
      ItemsFollowLines(front);
      StepItems(ResultOf(front), segments[n]);
      assert Lines(segments) == Lines(front) + (if segments[n].tag == "LIN" then [segments[n]] else []);
    }
  }

  /** Before any LIN there are no items, so a QTY there changes nothing. */
  lemma {:induction false} NoLinesNoItems(segments: seq<Segment>)
    requires forall k :: 0 <= k < |segments| ==> segments[k].tag != "LIN"
    ensures ResultOf(segments).items == []
  {
    if |segments| > 0 {
      NoLinesNoItems(segments[..|segments| - 1]);
    }
  }

  /** An ordered quantity sets the quantity of the last item and leaves
      every other item and field as it was. */
  lemma QuantityTouchesLastItem(r: OrdersMessage, s: Segment)
    requires IsOrderedQuantity(s) && |r.items| > 0
    ensures var r' := Step(r, s);
      && |r'.items| == |r.items|
      && r'.items[|r.items| - 1] == r.items[|r.items| - 1].(quantity := s.elements[1].value)
      && (forall k :: 0 <= k < |r.items| - 1 ==> r'.items[k] == r.items[k])
      && r' == r.(items := r'.items)
  {
  }

  /** A DTM with qualifier 4 (order date) and a second element. */
  predicate IsOrderDate(s: Segment)
  {
    s.tag == "DTM" && |s.elements| > 1 && s.elements[0].value == "4"
  }

  /** The order date is set only from a DTM whose first element is 4. */
  lemma {:induction false} DateFromOrderDateOnly(segments: seq<Segment>)
    ensures ResultOf(segments).orderDate == "" ||
      exists k :: 0 <= k < |segments| && IsOrderDate(segments[k]) && ResultOf(segments).orderDate == segments[k].elements[1].value
  {
    if |segments| > 0 {
      var n := |segments| - 1;
      DateFromOrderDateOnly(segments[..n]);
      assert forall k :: 0 <= k < n ==> segments[..n][k] == segments[k];
    }
  }
}
