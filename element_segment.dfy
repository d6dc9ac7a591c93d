/** A segment whose data elements carry their 1-based position, their raw
    value, and whether they are empty or composite. */
module ElementSegment {
  import opened Strings
  import opened Wrappers
  import BasicSegment

  type Delimiters = BasicSegment.Delimiters

  datatype Element = Element(
    position: int,
    value: string,
    isEmpty: bool,
    isComposite: bool,
    components: seq<string>)

  /** The element AddElement builds for a value at a position; a simple
      element has no components. */
  function MakeElement(position: int, value: string, componentSeparator: char): Element
  {
    var composite := Contains(value, [componentSeparator]);
    Element(position, value, value == "", composite,
            if composite then Split(value, componentSeparator) else [])
  }

  /** An element is composite exactly when its value holds a component
      separator; then its components join back into the value and there are
      at least two of them. */
  lemma MakeElementFacts(position: int, value: string, c: char)
    ensures var e := MakeElement(position, value, c);
      && e.position == position && e.value == value
      && (e.isEmpty <==> value == "")
      && (e.isComposite <==> c in value)
      && (e.isComposite ==> |e.components| >= 2 && Join(e.components, c) == value)
      && (!e.isComposite ==> e.components == [])
  {
    ContainsChar(value, c);
    JoinSplit(value, c);
    SplitCount(value, c);
    if c in value {
      CountPositive(value, c);
    }
  }

  lemma {:induction false} CountPositive(s: string, c: char)
    requires c in s
    ensures CountChar(s, c) > 0
  {
    if s[0] != c {
      CountPositive(s[1..], c);
    }
  }

  /** The elements built from a list of values, numbered from 1. */
  function ElementsOf(values: seq<string>, c: char): (r: seq<Element>)
    ensures |r| == |values|
  {
    seq(|values|, i requires 0 <= i < |values| => MakeElement(i + 1, values[i], c))
  }

  function ValuesOf(elements: seq<Element>): (r: seq<string>)
  {
    seq(|elements|, i requires 0 <= i < |elements| => elements[i].value)
  }

  /** The service segment tags, as listed by the source (UNZ twice). */
  const ServiceTagList := ["UNH", "UNT", "UNS", "UNZ", "UNB", "UNZ", "UNG", "UNE"]

  class Segment {
    var tag: string
    var elements: seq<Element>
    const delimiters: Delimiters

    /** Each element sits at its own 1-based position and was built from its
        value. */
    ghost predicate Valid()
      reads this
    {
      forall i :: 0 <= i < |elements| ==>
        elements[i] == MakeElement(i + 1, elements[i].value, delimiters.componentSeparator)
    }

    constructor (tag: string, delimiters: Delimiters)
      ensures Valid()
      ensures this.tag == tag && elements == [] && this.delimiters == delimiters
    {
      this.tag := tag;
      this.elements := [];
      this.delimiters := delimiters;
    }

    method AddElement(value: string)
      requires Valid()
      modifies this
      ensures Valid() && tag == old(tag)
      ensures elements == old(elements) + [MakeElement(|old(elements)| + 1, value, delimiters.componentSeparator)]
    {
      elements := elements + [MakeElement(|elements| + 1, value, delimiters.componentSeparator)];
    }

    /** The element at a 1-based position, or an error out of range. */
    function GetElement(position: int): (r: Result<Element>)
      reads this
      ensures r.Success? <==> 1 <= position <= |elements|
      ensures r.Success? ==> r.value == elements[position - 1]
      ensures r.Success? && Valid() ==> r.value.position == position
      ensures r.Failure? ==> r.error == "element position " + IntToString(position) + " out of range"
    {
      if position < 1 || position > |elements| then
        Failure("element position " + IntToString(position) + " out of range")
      else
        Success(elements[position - 1])
    }

    function GetElementCount(): int
      reads this
    {
      |elements|
    }

    /** Whether the tag is one of the service segment tags. */
    function IsServiceSegment(): (r: bool)
      reads this
      ensures r <==> tag in {"UNH", "UNT", "UNS", "UNZ", "UNB", "UNG", "UNE"}
    {
      tag in ServiceTagList
    }

    function ToString(): string
      reads this
    {
      BasicSegment.Render(tag, ValuesOf(elements), delimiters)
    }
  }

  /** Reads a segment text into a fresh segment, adding one analysed element
      per piece after the tag. */
  method ParseSegment(segmentStr: string, delimiters: Delimiters) returns (segment: Segment)
    ensures fresh(segment) && segment.Valid() && segment.delimiters == delimiters
    ensures var p := BasicSegment.Pieces(segmentStr, delimiters);
      segment.tag == p[0] && segment.elements == ElementsOf(p[1..], delimiters.componentSeparator)
    ensures segment.GetElementCount() ==
      CountChar(TrimSuffix(segmentStr, delimiters.segmentTerminator), delimiters.dataElementSeparator)
  {
    var parts := Split(TrimSuffix(segmentStr, delimiters.segmentTerminator), delimiters.dataElementSeparator);
    segment := new Segment(parts[0], delimiters);
    var i := 1;
    while i < |parts|
      invariant 1 <= i <= |parts|
      invariant segment.Valid() && segment.tag == parts[0] && segment.delimiters == delimiters
      invariant segment.elements == ElementsOf(parts[1..i], delimiters.componentSeparator)
    {
      segment.AddElement(parts[i]);
      assert parts[1..i + 1] == parts[1..i] + [parts[i]];
      i := i + 1;
    }
    BasicSegment.ElementCount(segmentStr, delimiters);
  }

  /** The values of the numbered elements are the values they were built from. */
  lemma ValuesOfElements(values: seq<string>, c: char)
    ensures ValuesOf(ElementsOf(values, c)) == values
  {
  }

  /** Rendering a parsed terminated segment text reproduces the text. */
  lemma RenderParse(segmentStr: string, d: Delimiters)
    requires HasSuffix(segmentStr, [d.segmentTerminator])
    ensures var p := BasicSegment.Pieces(segmentStr, d);
      BasicSegment.Render(p[0], ValuesOf(ElementsOf(p[1..], d.componentSeparator)), d) == segmentStr
  {
    var p := BasicSegment.Pieces(segmentStr, d);
    assert ValuesOf(ElementsOf(p[1..], d.componentSeparator)) == p[1..];
    BasicSegment.RenderParse(segmentStr, d);
  }
}
