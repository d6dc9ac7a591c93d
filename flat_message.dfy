/** The message reader shared by the structure, syntax, service segment,
    transformation and routing lessons: the raw interchange text is cut at
    every apostrophe, empty pieces are skipped, each remaining piece is cut at
    every plus sign into a tag and its data elements, and the message type is
    taken from the header segment. Release characters are not honoured. */
module FlatMessage {
  import opened Strings

  /** A segment: tag, data element strings, the index of its piece in the
      raw text, and its text with the terminator put back. */
  datatype Segment = Segment(tag: string, elements: seq<string>, position: int, raw: string)

  datatype Message = Message(messageType: string, segments: seq<Segment>, rawContent: string)

  /** The segment read from the piece at index `index`. */
  function SegmentOf(piece: string, index: nat): Segment
  {
    var parts := Split(piece, '+');
    Segment(parts[0], parts[1..], index, piece + "'")
  }

  /** The segments read from a list of pieces, skipping empty pieces. */
  function SegmentsOf(pieces: seq<string>): seq<Segment>
  {
    if |pieces| == 0 then []
    else
      var n := |pieces| - 1;
      SegmentsOf(pieces[..n]) + (if pieces[n] == "" then [] else [SegmentOf(pieces[n], n)])
  }

  /** A header segment with at least two elements names the message type. */
  predicate CarriesType(s: Segment)
  {
    s.tag == "UNH" && |s.elements| > 1
  }

  /** The first component of the header's second element (INVOIC in
      INVOIC:D:97A:UN). */
  function TypeOf(s: Segment): string
    requires |s.elements| > 1
  {
    Split(s.elements[1], ':')[0]
  }

  /** The type named by the last header segment that names one; "" if none. */
  function MessageTypeOf(segments: seq<Segment>): string
  {
    if |segments| == 0 then ""
    else
      var last := segments[|segments| - 1];
      if CarriesType(last) then TypeOf(last) else MessageTypeOf(segments[..|segments| - 1])
  }

  function Parse(rawContent: string): Message
  {
    var segments := SegmentsOf(Split(rawContent, '\''));
    Message(MessageTypeOf(segments), segments, rawContent)
  }

  method ParseEDIFACTMessage(rawContent: string) returns (message: Message)
    ensures message == Parse(rawContent)
  {
    var pieces := Split(rawContent, '\'');
    var segments: seq<Segment> := [];
    var messageType := "";
    var i := 0;
    while i < |pieces|
      invariant 0 <= i <= |pieces|
      invariant segments == SegmentsOf(pieces[..i])
      invariant messageType == MessageTypeOf(segments)
    {
      SegmentsOfStep(pieces, i);
      if pieces[i] != "" {
        var parts := Split(pieces[i], '+');
        var segment := Segment(parts[0], parts[1..], i, pieces[i] + "'");
        assert segment == SegmentOf(pieces[i], i);
        TypeOfStep(segments, segment);
        segments := segments + [segment];
        if segment.tag == "UNH" && |segment.elements| > 1 {
          var msgTypeParts := Split(segment.elements[1], ':');
          messageType := msgTypeParts[0];
        }
      }
      i := i + 1;
    }
    assert pieces[..|pieces|] == pieces;
    message := Message(messageType, segments, rawContent);
  }

  lemma SegmentsOfStep(pieces: seq<string>, i: nat)
    requires i < |pieces|
    ensures SegmentsOf(pieces[..i + 1]) == SegmentsOf(pieces[..i]) + (if pieces[i] == "" then [] else [SegmentOf(pieces[i], i)])
  {
    assert pieces[..i + 1][..i] == pieces[..i];
  }

  lemma TypeOfStep(segments: seq<Segment>, s: Segment)
    ensures MessageTypeOf(segments + [s]) == if CarriesType(s) then TypeOf(s) else MessageTypeOf(segments)
  {
    assert (segments + [s])[..|segments|] == segments;
  }

  /** Every segment comes from a non-empty piece at its own position, and
      positions strictly increase. */
  lemma {:induction false} SegmentsFromPieces(pieces: seq<string>)
    ensures forall k :: 0 <= k < |SegmentsOf(pieces)| ==>
      var s := SegmentsOf(pieces)[k];
      0 <= s.position < |pieces| && pieces[s.position] != "" && s == SegmentOf(pieces[s.position], s.position)
    ensures forall j, k :: 0 <= j < k < |SegmentsOf(pieces)| ==>
      SegmentsOf(pieces)[j].position < SegmentsOf(pieces)[k].position
  {
    if |pieces| > 0 {
      var n := |pieces| - 1;
      SegmentsFromPieces(pieces[..n]);
      var front := SegmentsOf(pieces[..n]);
      assert forall k :: 0 <= k < |front| ==> front[k].position < n;
    }
  }

  /** Every non-empty piece gives a segment. */
  lemma {:induction false} PiecesBecomeSegments(pieces: seq<string>, i: nat)
    requires i < |pieces| && pieces[i] != ""
    ensures exists k :: 0 <= k < |SegmentsOf(pieces)| && SegmentsOf(pieces)[k] == SegmentOf(pieces[i], i)
  {
    var n := |pieces| - 1;
    var front := SegmentsOf(pieces[..n]);
    if i == n {
      assert SegmentsOf(pieces)[|front|] == SegmentOf(pieces[i], i);
    } else {
      PiecesBecomeSegments(pieces[..n], i);
      var k :| 0 <= k < |front| && front[k] == SegmentOf(pieces[i], i);
      assert SegmentsOf(pieces)[k] == front[k];
    }
  }

  /** A segment's tag and elements contain no separator, they join back into
      its piece, and its raw text is that piece with the terminator. */
  lemma SegmentText(piece: string, index: nat)
    ensures var s := SegmentOf(piece, index);
      && '+' !in s.tag
      && (forall i :: 0 <= i < |s.elements| ==> '+' !in s.elements[i])
      && Join([s.tag] + s.elements, '+') + "'" == s.raw
      && HasSuffix(s.raw, "'")
  {
    var parts := Split(piece, '+');
    JoinSplit(piece, '+');
    assert [parts[0]] + parts[1..] == parts;
  }

  /** The message type is the one named by the last header segment that
      names a type. */
  lemma {:induction false} TypeFromLastHeader(segments: seq<Segment>, k: nat)
    requires k < |segments| && CarriesType(segments[k])
    requires forall j :: k < j < |segments| ==> !CarriesType(segments[j])
    ensures MessageTypeOf(segments) == TypeOf(segments[k])
  {
    if k < |segments| - 1 {
      var front := segments[..|segments| - 1];
      TypeFromLastHeader(front, k);
    }
  }

  /** Without a header segment naming a type, the message type is "". */
  lemma {:induction false} NoHeaderNoType(segments: seq<Segment>)
    requires forall j :: 0 <= j < |segments| ==> !CarriesType(segments[j])
    ensures MessageTypeOf(segments) == ""
  {
    if |segments| > 0 {
      NoHeaderNoType(segments[..|segments| - 1]);
    }
  }

  // Writing segments out and reading them back

  /** A segment's tag and elements with no delimiter inside them and a
      non-empty tag. */
  predicate PlainSegment(parts: seq<string>)
  {
    && |parts| >= 1 && parts[0] != ""
    && forall i :: 0 <= i < |parts| ==> '+' !in parts[i] && '\'' !in parts[i]
  }

  /** The interchange text of a list of segments, each as tag and elements. */
  function Serialize(segments: seq<seq<string>>): string
  {
    if |segments| == 0 then "" else Join(segments[0], '+') + "'" + Serialize(segments[1..])
  }

  lemma {:induction false} JoinKeeps(parts: seq<string>, c: char, x: char)
    requires forall i :: 0 <= i < |parts| ==> x !in parts[i]
    requires x != c
    ensures x !in Join(parts, c)
  {
    if |parts| > 1 {
      JoinKeeps(parts[1..], c, x);
    }
  }

  lemma JoinNonEmpty(parts: seq<string>, c: char)
    requires |parts| >= 1 && parts[0] != ""
    ensures Join(parts, c) != ""
  {
  }

  lemma {:induction false} SplitSerialize(segments: seq<seq<string>>)
    requires forall k :: 0 <= k < |segments| ==> PlainSegment(segments[k])
    ensures var pieces := Split(Serialize(segments), '\'');
      && |pieces| == |segments| + 1 && pieces[|segments|] == ""
      && forall k :: 0 <= k < |segments| ==> pieces[k] == Join(segments[k], '+')
  {
    if |segments| > 0 {
      SplitSerialize(segments[1..]);
      JoinKeeps(segments[0], '+', '\'');
      SplitAfterPiece(Join(segments[0], '+'), '\'', Serialize(segments[1..]));
    }
  }

  lemma {:induction false} SegmentsOfFullPieces(pieces: seq<string>)
    requires forall i :: 0 <= i < |pieces| ==> pieces[i] != ""
    ensures |SegmentsOf(pieces)| == |pieces|
    ensures forall k :: 0 <= k < |pieces| ==> SegmentsOf(pieces)[k] == SegmentOf(pieces[k], k)
  {
    if |pieces| > 0 {
      SegmentsOfFullPieces(pieces[..|pieces| - 1]);
    }
  }

  /** Reading the text of a list of plain segments gives back each tag and
      its elements, positioned by their order. */
  lemma ParseSerialize(segments: seq<seq<string>>)
    requires forall k :: 0 <= k < |segments| ==> PlainSegment(segments[k])
    ensures var parsed := Parse(Serialize(segments)).segments;
      && |parsed| == |segments|
      && forall k :: 0 <= k < |segments| ==>
           [parsed[k].tag] + parsed[k].elements == segments[k] && parsed[k].position == k
  {
    var pieces := Split(Serialize(segments), '\'');
    SplitSerialize(segments);
    var n := |segments|;
    forall k | 0 <= k < n
      ensures pieces[k] != "" && Split(pieces[k], '+') == segments[k]
    {
      JoinNonEmpty(segments[k], '+');
      SplitJoin(segments[k], '+');
    }
    SegmentsOfFullPieces(pieces[..n]);
    assert pieces[..n + 1][..n] == pieces[..n];
    assert pieces[..n + 1] == pieces;
    forall k | 0 <= k < n
      ensures var p := Split(pieces[k], '+'); [p[0]] + p[1..] == segments[k]
    {
      var p := Split(pieces[k], '+');
      assert [p[0]] + p[1..] == p;
    }
  }

  /** The number of non-empty pieces. */
  function CountNonEmpty(pieces: seq<string>): nat
  {
    if |pieces| == 0 then 0
    else CountNonEmpty(pieces[..|pieces| - 1]) + (if pieces[|pieces| - 1] == "" then 0 else 1)
  }

  /** One segment per non-empty piece. */
  lemma {:induction false} SegmentCount(pieces: seq<string>)
    ensures |SegmentsOf(pieces)| == CountNonEmpty(pieces)
  {
    if |pieces| > 0 {
      SegmentCount(pieces[..|pieces| - 1]);
    }
  }
}
