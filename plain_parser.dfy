/** The plain parser of the introductory lessons: the text is cut at every
    apostrophe, empty pieces are dropped, and each piece is cut at every plus
    sign into a tag and its elements. A second version produces one map per
    segment, with a "tag" and an "elements" entry, ready for JSON. */
module PlainParser {
  import opened Strings
  import FlatMessage

  datatype Segment = Segment(tag: string, elements: seq<string>)

  /** A JSON-ready value: a string or a list of strings. */
  datatype JsonValue = Str(s: string) | StrList(items: seq<string>)

  /** The tag and elements of the reader's segments, in order. */
  function PlainSegments(segments: seq<FlatMessage.Segment>): (r: seq<Segment>)
    ensures |r| == |segments|
    ensures forall k :: 0 <= k < |segments| ==> r[k] == Segment(segments[k].tag, segments[k].elements)
  {
    seq(|segments|, k requires 0 <= k < |segments| => Segment(segments[k].tag, segments[k].elements))
  }

  /** parseEDIFACT. */
  method ParseEDIFACT(msg: string) returns (segments: seq<Segment>)
    ensures segments == PlainSegments(FlatMessage.Parse(msg).segments)
  {
    var pieces := Split(msg, '\'');
    segments := [];
    for i := 0 to |pieces|
      invariant segments == PlainSegments(FlatMessage.SegmentsOf(pieces[..i]))
    {
      assert pieces[..i + 1][..i] == pieces[..i];
      var seg := pieces[i];
      if seg == "" {
        continue;
      }
      var parts := Split(seg, '+');
      segments := segments + [Segment(parts[0], parts[1..])];
    }
    assert pieces[..|pieces|] == pieces;
  }

  /** One segment per non-empty piece, in order; joining a segment's tag and
      elements with plus signs gives back its piece, so empty elements are
      kept; the tag holds no plus sign. */
  lemma ParsedSegmentsRebuildPieces(msg: string)
    ensures var pieces := Split(msg, '\'');
      var segments := PlainSegments(FlatMessage.Parse(msg).segments);
      && |segments| == FlatMessage.CountNonEmpty(pieces)
      && forall k :: 0 <= k < |segments| ==>
           '+' !in segments[k].tag
           && exists i :: 0 <= i < |pieces| && pieces[i] != "" && Join([segments[k].tag] + segments[k].elements, '+') == pieces[i]
  {
    var pieces := Split(msg, '\'');
    var flat := FlatMessage.SegmentsOf(pieces);
    FlatMessage.SegmentCount(pieces);
    FlatMessage.SegmentsFromPieces(pieces);
    forall k | 0 <= k < |flat|
      ensures '+' !in flat[k].tag
      ensures Join([flat[k].tag] + flat[k].elements, '+') == pieces[flat[k].position]
    {
      var i := flat[k].position;
      FlatMessage.SegmentText(pieces[i], i);
      assert Join([flat[k].tag] + flat[k].elements, '+') + "'" == pieces[i] + "'";
      assert (Join([flat[k].tag] + flat[k].elements, '+') + "'")[..|pieces[i]|] == pieces[i];
    }
  }

  /** The segment list of ConvertEDIFACTToJSON: one map per segment. */
  method SegmentMaps(msg: string) returns (maps: seq<map<string, JsonValue>>)
    ensures |maps| == |FlatMessage.Parse(msg).segments|
    ensures forall k :: 0 <= k < |maps| ==>
      var s := FlatMessage.Parse(msg).segments[k];
      maps[k] == map["tag" := Str(s.tag), "elements" := StrList(s.elements)]
  {
    var pieces := Split(msg, '\'');
    maps := [];
    for i := 0 to |pieces|
      invariant |maps| == |FlatMessage.SegmentsOf(pieces[..i])|
      invariant forall k :: 0 <= k < |maps| ==>
        var s := FlatMessage.SegmentsOf(pieces[..i])[k];
        maps[k] == map["tag" := Str(s.tag), "elements" := StrList(s.elements)]
    {
      assert pieces[..i + 1][..i] == pieces[..i];
      var seg := pieces[i];
      if seg == "" {
        continue;
      }
      var parts := Split(seg, '+');
      var segMap := map["tag" := Str(parts[0]), "elements" := StrList(parts[1..])];
      maps := maps + [segMap];
    }
    assert pieces[..|pieces|] == pieces;
  }

  /** Text without a non-empty piece (empty, or only apostrophes) gives no
      segments. */
  lemma {:induction false} NoPiecesNoSegments(pieces: seq<string>)
    requires forall i :: 0 <= i < |pieces| ==> pieces[i] == ""
    ensures FlatMessage.SegmentsOf(pieces) == []
  {
    if |pieces| > 0 {
      NoPiecesNoSegments(pieces[..|pieces| - 1]);
    }
  }
}
