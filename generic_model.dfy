/** The parsed message the adapters and the dynamic handler consume, as the
    message library hands it over: a type, and segments in message order,
    each with its tag, its elements and its position. An element is simple
    (its value) or composite (its components). The library's reader and type
    detector are not part of this model; only the shape and the lookup by
    tag are. */
module GenericModel {
  import opened Wrappers

  datatype RawElement = Element(value: string, isComposite: bool, components: seq<string>)

  /** The library only marks an element composite after splitting it at a
      component separator, so a composite element has a first component. */
  type Element = e: RawElement | !e.isComposite || |e.components| > 0
    witness Element("", false, [])

  datatype Segment = Segment(tag: string, elements: seq<Element>, position: int)

  datatype Message = Message(messageType: string, segments: seq<Segment>)

  /** Segment `k` is the first one with this tag. */
  predicate FirstWithTag(segments: seq<Segment>, k: int, tag: string)
  {
    0 <= k < |segments| && segments[k].tag == tag && forall j :: 0 <= j < k ==> segments[j].tag != tag
  }

  /** Message.GetSegmentByTag: the first segment with this tag, if any. */
  function GetSegmentByTag(segments: seq<Segment>, tag: string): (r: Option<Segment>)
    ensures r.None? <==> forall k :: 0 <= k < |segments| ==> segments[k].tag != tag
    ensures r.Some? ==> exists k :: FirstWithTag(segments, k, tag) && segments[k] == r.value
  {
    if |segments| == 0 then None
    else if segments[0].tag == tag then
      assert FirstWithTag(segments, 0, tag);
      Some(segments[0])
    else
      var r := GetSegmentByTag(segments[1..], tag);
      if r.Some? then
        var k :| FirstWithTag(segments[1..], k, tag) && segments[1..][k] == r.value;
        assert FirstWithTag(segments, k + 1, tag);
        r
      else r
  }

  /** The message reference: element 1 of the first UNH segment, "" when
      there is none or it has no elements. */
  function MessageRef(m: Message): (r: string)
    ensures forall k :: FirstWithTag(m.segments, k, "UNH") ==>
      r == (if |m.segments[k].elements| > 0 then m.segments[k].elements[0].value else "")
    ensures (forall k :: 0 <= k < |m.segments| ==> m.segments[k].tag != "UNH") ==> r == ""
  {
    match GetSegmentByTag(m.segments, "UNH")
    case Some(unh) => if |unh.elements| > 0 then unh.elements[0].value else ""
    case None => ""
  }
}
