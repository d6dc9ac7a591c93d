/** A custom handler for one configured message type: every segment becomes
    a map of numbered element fields plus an element count, stored under the
    segment's tag. */
module CustomHandler {
  import opened Strings
  import GenericModel

  type Segment = GenericModel.Segment

  /** A field of a segment map: an element's components, an element's
      value, or the element count. */
  datatype FieldValue = Components(components: seq<string>) | Value(value: string) | Count(count: int)

  datatype CustomHandler = CustomHandler(messageType: string)

  datatype CustomMessage = CustomMessage(messageType: string, messageRef: string, data: map<string, map<string, FieldValue>>)

  /** CustomHandler.CanHandle: exactly the configured type. */
  predicate CanHandle(h: CustomHandler, messageType: string)
  {
    messageType == h.messageType
  }

  /** The key of the element at 0-based index `j`: element_1, element_2, ... */
  function ElementKey(j: nat): string
  {
    "element_" + NatToString(j + 1)
  }

  function FieldOf(e: GenericModel.Element): FieldValue
  {
    if e.isComposite then Components(e.components) else Value(e.value)
  }

  function ElementFields(elements: seq<GenericModel.Element>): map<string, FieldValue>
  {
    if |elements| == 0 then map[]
    else ElementFields(elements[..|elements| - 1])[ElementKey(|elements| - 1) := FieldOf(elements[|elements| - 1])]
  }

  function SegmentDataOf(s: Segment): map<string, FieldValue>
  {
    ElementFields(s.elements)["element_count" := Count(|s.elements|)]
  }

  /** The data map after a run of segments: each one overwrites its tag. */
  function DataOver(data: map<string, map<string, FieldValue>>, segments: seq<Segment>): map<string, map<string, FieldValue>>
  {
    if |segments| == 0 then data
    else DataOver(data, segments[..|segments| - 1])[segments[|segments| - 1].tag := SegmentDataOf(segments[|segments| - 1])]
  }

  /** The numbered fields and the count of one segment. */
  method BuildSegmentData(segment: Segment) returns (segmentData: map<string, FieldValue>)
    ensures segmentData == SegmentDataOf(segment)
  {
    segmentData := map[];
    for i := 0 to |segment.elements|
      invariant segmentData == ElementFields(segment.elements[..i])
    {
      assert segment.elements[..i + 1][..i] == segment.elements[..i];
      var element := segment.elements[i];
      var key := "element_" + NatToString(i + 1);
      if element.isComposite {
        segmentData := segmentData[key := Components(element.components)];
      } else {
        segmentData := segmentData[key := Value(element.value)];
      }
    }
    assert segment.elements[..|segment.elements|] == segment.elements;
    segmentData := segmentData["element_count" := Count(|segment.elements|)];
  }

  /** CustomHandler.Handle; it never fails. */
  method Handle(h: CustomHandler, message: GenericModel.Message) returns (result: CustomMessage)
    ensures result == CustomMessage(message.messageType, GenericModel.MessageRef(message), DataOver(map[], message.segments))
  {
    var messageRef := "";
    var unhSegment := GenericModel.GetSegmentByTag(message.segments, "UNH");
    if unhSegment.Some? && |unhSegment.value.elements| > 0 {
      messageRef := unhSegment.value.elements[0].value;
    }
    var data: map<string, map<string, FieldValue>> := map[];
    for i := 0 to |message.segments|
      invariant data == DataOver(map[], message.segments[..i])
    {
      assert message.segments[..i + 1][..i] == message.segments[..i];
      var segmentData := BuildSegmentData(message.segments[i]);
      data := data[message.segments[i].tag := segmentData];
    }
    assert message.segments[..|message.segments|] == message.segments;
    result := CustomMessage(message.messageType, messageRef, data);
  }

  /** The element-count key is never a numbered element key. */
  lemma CountKeyIsNotElementKey(j: nat)
    ensures ElementKey(j) != "element_count"
  {
    var digits := NatToString(j + 1);
    assert ElementKey(j)[8] == digits[0];
    assert IsDigit(digits[0]);
  }

  /** The numbered fields: element j sits under element_(j+1), and no other
      key is present. */
  lemma {:induction false} ElementFieldsHold(elements: seq<GenericModel.Element>)
    ensures var m := ElementFields(elements);
      && (forall j :: 0 <= j < |elements| ==> ElementKey(j) in m && m[ElementKey(j)] == FieldOf(elements[j]))
      && (forall key :: key in m ==> exists j :: 0 <= j < |elements| && key == ElementKey(j))
  {
    if |elements| > 0 {
      var n := |elements| - 1;
      var front := elements[..n];
      ElementFieldsHold(front);
      var m := ElementFields(elements);
      assert m == ElementFields(front)[ElementKey(n) := FieldOf(elements[n])];
      forall j | 0 <= j < |elements|
        ensures ElementKey(j) in m && m[ElementKey(j)] == FieldOf(elements[j])
      {
        if j < n {
          NumberedKeysDistinct("element_", j + 1, n + 1);
          assert front[j] == elements[j];
        }
      }
      forall key | key in m
        ensures exists j :: 0 <= j < |elements| && key == ElementKey(j)
      {
        if key != ElementKey(n) {
          var j :| 0 <= j < |front| && key == ElementKey(j);
          assert 0 <= j < |elements| && key == ElementKey(j);
        } else {
          assert 0 <= n < |elements| && key == ElementKey(n);
        }
      }
    }
  }

  /** A segment's map has element_1..element_n holding its elements in
      order, element_count = n, and nothing else. */
  lemma SegmentDataFields(s: Segment)
    ensures var m := SegmentDataOf(s);
      && "element_count" in m && m["element_count"] == Count(|s.elements|)
      && (forall j :: 0 <= j < |s.elements| ==> ElementKey(j) in m && m[ElementKey(j)] == FieldOf(s.elements[j]))
      && (forall key :: key in m ==> key == "element_count" || exists j :: 0 <= j < |s.elements| && key == ElementKey(j))
  {
    ElementFieldsHold(s.elements);
    forall j | 0 <= j < |s.elements|
      ensures ElementKey(j) != "element_count"
    {
      CountKeyIsNotElementKey(j);
    }
  }

  /** There is one entry per distinct tag, holding the map of that tag's
      last segment. */
  lemma {:induction false} LastSegmentPerTag(segments: seq<Segment>, tag: string)
    ensures tag in DataOver(map[], segments) <==> exists k :: 0 <= k < |segments| && segments[k].tag == tag
    ensures forall k :: 0 <= k < |segments| && segments[k].tag == tag && (forall j :: k < j < |segments| ==> segments[j].tag != tag) ==>
      DataOver(map[], segments)[tag] == SegmentDataOf(segments[k])
  {
    if |segments| > 0 {
      var n := |segments| - 1;
      LastSegmentPerTag(segments[..n], tag);
      assert forall k :: 0 <= k < n ==> segments[..n][k] == segments[k];
    }
  }
}
