/** The simple adapter: any message becomes one flat list, each segment's
    tag followed by its element values (a composite element as its
    components joined by colons), addressed by 1-based position. An
    ORDERS-specific adapter reads the order number, date and parties. */
module SimpleAdapter {
  import opened Wrappers
  import opened Strings
  import GenericModel

  type Segment = GenericModel.Segment

  datatype SimpleAdapterResult = SimpleAdapterResult(messageType: string, messageRef: string, elements: seq<string>)

  /** SimpleAdapter.CanHandle accepts every type. */
  predicate CanHandle(messageType: string) { true }

  /** The text an element contributes to the flat list. */
  function ElementText(e: GenericModel.Element): string
  {
    if e.isComposite then Join(e.components, ':') else e.value
  }

  /** What one segment contributes: its tag, then its elements in order. */
  function SegmentEntries(s: Segment): (r: seq<string>)
    ensures |r| == 1 + |s.elements| && r[0] == s.tag
    ensures forall j :: 0 <= j < |s.elements| ==> r[1 + j] == ElementText(s.elements[j])
  {
    [s.tag] + seq(|s.elements|, j requires 0 <= j < |s.elements| => ElementText(s.elements[j]))
  }

  /** The flat list of a run of segments. */
  function Flatten(segments: seq<Segment>): seq<string>
  {
    if |segments| == 0 then []
    else Flatten(segments[..|segments| - 1]) + SegmentEntries(segments[|segments| - 1])
  }

  /** The number of entries: one per segment plus one per element. */
  function EntryCount(segments: seq<Segment>): nat
  {
    if |segments| == 0 then 0 else 1 + |segments[0].elements| + EntryCount(segments[1..])
  }

  /** Appends one segment's entries, element by element. */
  method AppendSegment(elements: seq<string>, segment: Segment) returns (elements': seq<string>)
    ensures elements' == elements + SegmentEntries(segment)
  {
    elements' := elements + [segment.tag];
    for j := 0 to |segment.elements|
      invariant elements' == elements + SegmentEntries(segment)[..j + 1]
    {
      var element := segment.elements[j];
      if element.isComposite {
        elements' := elements' + [Join(element.components, ':')];
      } else {
        elements' := elements' + [element.value];
      }
      assert SegmentEntries(segment)[..j + 2] == SegmentEntries(segment)[..j + 1] + [ElementText(element)];
    }
    assert SegmentEntries(segment)[..|segment.elements| + 1] == SegmentEntries(segment);
  }

  /** SimpleAdapter.Handle; it never fails. */
  method Handle(message: GenericModel.Message) returns (result: SimpleAdapterResult)
    ensures result == SimpleAdapterResult(message.messageType, GenericModel.MessageRef(message), Flatten(message.segments))
  {
    var messageRef := "";
    var unhSegment := GenericModel.GetSegmentByTag(message.segments, "UNH");
    if unhSegment.Some? {
      if |unhSegment.value.elements| > 0 {
        messageRef := unhSegment.value.elements[0].value;
      }
    }
    var elements: seq<string> := [];
    for i := 0 to |message.segments|
      invariant elements == Flatten(message.segments[..i])
    {
      assert message.segments[..i + 1][..i] == message.segments[..i];
      elements := AppendSegment(elements, message.segments[i]);
    }
    assert message.segments[..|message.segments|] == message.segments;
    result := SimpleAdapterResult(message.messageType, messageRef, elements);
  }

  lemma {:induction false} EntryCountSnoc(segments: seq<Segment>, s: Segment)
    ensures EntryCount(segments + [s]) == EntryCount(segments) + 1 + |s.elements|
  {
    if |segments| > 0 {
      assert (segments + [s])[1..] == segments[1..] + [s];
      EntryCountSnoc(segments[1..], s);
    }
  }

  /** The flat list has one entry per segment and one per element. */
  lemma {:induction false} FlattenLength(segments: seq<Segment>)
    ensures |Flatten(segments)| == EntryCount(segments)
  {
    if |segments| > 0 {
      var n := |segments| - 1;
      FlattenLength(segments[..n]);
      EntryCountSnoc(segments[..n], segments[n]);
      assert segments[..n] + [segments[n]] == segments;
    }
  }

  /** The entries of the first segments come first. */
  lemma {:induction false} FlattenPrefix(segments: seq<Segment>, i: nat)
    requires i <= |segments|
    ensures Flatten(segments[..i]) <= Flatten(segments)
  {
    if i < |segments| {
      var n := |segments| - 1;
      assert segments[..n][..i] == segments[..i];
      FlattenPrefix(segments[..n], i);
    } else {
      assert segments[..i] == segments;
    }
  }

  /** Where segment `i` starts in the flat list (0-based). */
  function Offset(segments: seq<Segment>, i: nat): nat
    requires i <= |segments|
  {
    |Flatten(segments[..i])|
  }

  /** An entry of a block inside a prefix of a list sits at the block's
      offset plus its index. */
  lemma PrefixEntry(front: seq<string>, block: seq<string>, all: seq<string>, k: nat)
    requires front + block <= all && k < |block|
    ensures |front| + |block| <= |all| && all[|front| + k] == block[k]
  {
    assert (front + block)[|front| + k] == block[k];
  }

  /** Segment `i`'s tag sits at its offset and its element `j` right after,
      each as the element's text. */
  lemma SegmentInFlatList(segments: seq<Segment>, i: nat, j: nat)
    requires i < |segments|
    ensures Offset(segments, i) + 1 + |segments[i].elements| <= |Flatten(segments)|
    ensures Flatten(segments)[Offset(segments, i)] == segments[i].tag
    ensures j < |segments[i].elements| ==>
      Flatten(segments)[Offset(segments, i) + 1 + j] == ElementText(segments[i].elements[j])
  {
    var front := Flatten(segments[..i]);
    var entries := SegmentEntries(segments[i]);
    SegmentBlock(segments, i);
    PrefixEntry(front, entries, Flatten(segments), 0);
    if j < |segments[i].elements| {
      PrefixEntry(front, entries, Flatten(segments), 1 + j);
    }
  }

  /** Segment `i`'s entries follow those of the segments before it. */
  lemma SegmentBlock(segments: seq<Segment>, i: nat)
    requires i < |segments|
    ensures Flatten(segments[..i]) + SegmentEntries(segments[i]) <= Flatten(segments)
  {
    FlattenPrefix(segments, i + 1);
    assert segments[..i + 1][..i] == segments[..i];
  }

  /** GetElement: the entry at a 1-based position, "" outside the list. */
  function GetElement(r: SimpleAdapterResult, position: int): string
  {
    if position <= 0 || position > |r.elements| then "" else r.elements[position - 1]
  }

  /** GetElementRange: the entries from `start` to `end`, both 1-based and
      included; nothing (Go's nil) unless 1 <= start <= end <= length. */
  function GetElementRange(r: SimpleAdapterResult, start: int, end: int): Option<seq<string>>
  {
    if start <= 0 || end > |r.elements| || start > end then None
    else Some(r.elements[start - 1..end])
  }

  /** A range exists iff its bounds are valid; it holds end - start + 1
      entries, each the one GetElement gives for its position. */
  lemma RangeAgreesWithGetElement(r: SimpleAdapterResult, start: int, end: int)
    ensures GetElementRange(r, start, end).Some? <==> 1 <= start <= end <= |r.elements|
    ensures GetElementRange(r, start, end).Some? ==>
      var range := GetElementRange(r, start, end).value;
      && |range| == end - start + 1
      && forall k :: 0 <= k < |range| ==> range[k] == GetElement(r, start + k)
  {
  }

  /** Reading the adapter's result by position: position Offset + 1 holds
      segment `i`'s tag and the next positions its elements. */
  lemma AddressingByPosition(message: GenericModel.Message, i: nat, j: nat)
    requires i < |message.segments| && j < |message.segments[i].elements|
    ensures var r := SimpleAdapterResult(message.messageType, GenericModel.MessageRef(message), Flatten(message.segments));
      && GetElement(r, Offset(message.segments, i) + 1) == message.segments[i].tag
      && GetElement(r, Offset(message.segments, i) + 2 + j) == ElementText(message.segments[i].elements[j])
  {
    SegmentInFlatList(message.segments, i, j);
  }

  // The ORDERS-specific adapter

  datatype OrdersResult = OrdersResult(orderNumber: string, orderDate: string, buyer: string, supplier: string)

  predicate OrdersCanHandle(messageType: string) { messageType == "ORDERS" }

  /** The parties step: a NAD with at least three elements names the buyer
      (BY) or the supplier (SU) in its third element. */
  function PartyStep(r: OrdersResult, s: Segment): OrdersResult
  {
    if s.tag == "NAD" && |s.elements| > 2 && s.elements[0].value == "BY" then r.(buyer := s.elements[2].value)
    else if s.tag == "NAD" && |s.elements| > 2 && s.elements[0].value == "SU" then r.(supplier := s.elements[2].value)
    else r
  }

  function PartiesOver(r: OrdersResult, segments: seq<Segment>): OrdersResult
  {
    if |segments| == 0 then r
    else PartyStep(PartiesOver(r, segments[..|segments| - 1]), segments[|segments| - 1])
  }

  /** The number and date come from the first BGM and the first DTM. */
  function HeaderOf(segments: seq<Segment>): OrdersResult
  {
    var bgm := GenericModel.GetSegmentByTag(segments, "BGM");
    var dtm := GenericModel.GetSegmentByTag(segments, "DTM");
    var number := if bgm.Some? && |bgm.value.elements| > 1 then bgm.value.elements[1].value else "";
    var date := if dtm.Some? && |dtm.value.elements| > 1 && dtm.value.elements[0].value == "4"
      then dtm.value.elements[1].value else "";
    OrdersResult(number, date, "", "")
  }

  /** The scan of one segment for the parties, as the adapter performs it. */
  method ApplyParty(result: OrdersResult, segment: Segment) returns (result': OrdersResult)
    ensures result' == PartyStep(result, segment)
  {
    result' := result;
    if segment.tag == "NAD" && |segment.elements| > 0 {
      var partyType := segment.elements[0].value;
      if partyType == "BY" {
        if |segment.elements| > 2 {
          result' := result'.(buyer := segment.elements[2].value);
        }
      } else if partyType == "SU" {
        if |segment.elements| > 2 {
          result' := result'.(supplier := segment.elements[2].value);
        }
      }
    }
  }

  /** The number and date, read as the adapter reads them before its scan. */
  method ReadHeader(message: GenericModel.Message) returns (result: OrdersResult)
    ensures result == HeaderOf(message.segments)
  {
    result := OrdersResult("", "", "", "");
    var bgmSegment := GenericModel.GetSegmentByTag(message.segments, "BGM");
    if bgmSegment.Some? && |bgmSegment.value.elements| > 1 {
      result := result.(orderNumber := bgmSegment.value.elements[1].value);
    }
    var dtmSegment := GenericModel.GetSegmentByTag(message.segments, "DTM");
    if dtmSegment.Some? && |dtmSegment.value.elements| > 0 {
      var dateType := dtmSegment.value.elements[0].value;
      if dateType == "4" && |dtmSegment.value.elements| > 1 {
        result := result.(orderDate := dtmSegment.value.elements[1].value);
      }
    }
  }

  /** OrdersSpecificAdapter.Handle; it never fails. */
  method OrdersHandle(message: GenericModel.Message) returns (result: OrdersResult)
    ensures result == PartiesOver(HeaderOf(message.segments), message.segments)
  {
    result := ReadHeader(message);
    for i := 0 to |message.segments|
      invariant result == PartiesOver(HeaderOf(message.segments), message.segments[..i])
    {
      assert message.segments[..i + 1][..i] == message.segments[..i];
      result := ApplyParty(result, message.segments[i]);
    }
    assert message.segments[..|message.segments|] == message.segments;
  }

  predicate NamesParty(s: Segment, party: string)
  {
    s.tag == "NAD" && |s.elements| > 2 && s.elements[0].value == party
  }

  /** Segment `k` is the last NAD naming this party. */
  predicate LastNamesParty(segments: seq<Segment>, k: int, party: string)
  {
    0 <= k < |segments| && NamesParty(segments[k], party)
    && forall j :: k < j < |segments| ==> !NamesParty(segments[j], party)
  }

  /** The party a result records for BY or SU. */
  function PartyOf(r: OrdersResult, party: string): string
  {
    if party == "BY" then r.buyer else r.supplier
  }

  /** The parties step leaves the number and date alone; the buyer is the
      third element of the last NAD+BY with at least three elements (the
      supplier likewise for SU), and stays as it was when there is none. */
  lemma {:induction false} LastPartyWins(r: OrdersResult, segments: seq<Segment>, party: string)
    requires party == "BY" || party == "SU"
    ensures var p := PartiesOver(r, segments);
      && p.orderNumber == r.orderNumber && p.orderDate == r.orderDate
      && (forall k :: LastNamesParty(segments, k, party) ==> PartyOf(p, party) == segments[k].elements[2].value)
      && ((forall k :: 0 <= k < |segments| ==> !NamesParty(segments[k], party)) ==> PartyOf(p, party) == PartyOf(r, party))
  {
    if |segments| > 0 {
      var n := |segments| - 1;
      var front := segments[..n];
      LastPartyWins(r, front, party);
      var before := PartiesOver(r, front);
      var p := PartiesOver(r, segments);
      assert p == PartyStep(before, segments[n]);
      if NamesParty(segments[n], party) {
        assert PartyOf(p, party) == segments[n].elements[2].value;
      } else {
        assert PartyOf(p, party) == PartyOf(before, party);
        forall k | LastNamesParty(segments, k, party)
          ensures PartyOf(p, party) == segments[k].elements[2].value
        {
          assert LastNamesParty(front, k, party);
        }
        if forall k :: 0 <= k < |segments| ==> !NamesParty(segments[k], party) {
          assert forall k :: 0 <= k < |front| ==> front[k] == segments[k];
        }
      }
    }
  }
}
