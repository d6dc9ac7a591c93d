/** Segment-at-a-time processing of a large interchange, counting the
    segments processed and the segments in error. */
module Streaming {
  import opened Strings
  import opened Wrappers
  import FlatMessage

  /** The minimum number of elements a segment with this tag needs; 0 for
      tags that are not checked. */
  function MinimumElements(tag: string): nat
  {
    if tag == "UNH" || tag == "BGM" then 2
    else if tag == "DTM" || tag == "LIN" || tag == "UNT" then 1
    else 0
  }

  /** The error for one segment text: the segment's tag needs more elements
      than it has. */
  function SegmentError(segmentStr: string): Option<string>
  {
    var parts := Split(segmentStr, '+');
    var tag := parts[0];
    if |parts| - 1 < MinimumElements(tag) then Some("invalid " + tag + " segment") else None
  }

  function CountOk(pieces: seq<string>): nat
  {
    if |pieces| == 0 then 0
    else
      var p := pieces[|pieces| - 1];
      CountOk(pieces[..|pieces| - 1]) + (if p != "" && SegmentError(p).None? then 1 else 0)
  }

  function CountErrors(pieces: seq<string>): nat
  {
    if |pieces| == 0 then 0
    else
      var p := pieces[|pieces| - 1];
      CountErrors(pieces[..|pieces| - 1]) + (if p != "" && SegmentError(p).Some? then 1 else 0)
  }

  class StreamingProcessor {
    var processedCount: int
    var errorCount: int

    constructor()
      ensures processedCount == 0 && errorCount == 0
    {
      processedCount := 0;
      errorCount := 0;
    }

    /** Splits off the tag and checks the element count its tag demands. */
    method ProcessSegment(segmentStr: string) returns (err: Option<string>)
      ensures err == SegmentError(segmentStr)
    {
      var parts := Split(segmentStr, '+');
      var tag := parts[0];
      var elements := parts[1..];
      if tag == "UNH" {
        assert "invalid " + tag + " segment" == "invalid UNH segment";
        err := if |elements| < 2 then Some("invalid UNH segment") else None;
      } else if tag == "BGM" {
        assert "invalid " + tag + " segment" == "invalid BGM segment";
        err := if |elements| < 2 then Some("invalid BGM segment") else None;
      } else if tag == "DTM" {
        assert "invalid " + tag + " segment" == "invalid DTM segment";
        err := if |elements| == 0 then Some("invalid DTM segment") else None;
      } else if tag == "LIN" {
        assert "invalid " + tag + " segment" == "invalid LIN segment";
        err := if |elements| < 1 then Some("invalid LIN segment") else None;
      } else if tag == "UNT" {
        assert "invalid " + tag + " segment" == "invalid UNT segment";
        err := if |elements| < 1 then Some("invalid UNT segment") else None;
      } else {
        err := None;
      }
    }

    /** Processes every non-empty segment, counting each as processed or in
      error, and carries on after errors. */
    method ProcessLargeFile(content: string) returns (err: Option<string>)
      modifies this
      ensures processedCount == old(processedCount) + CountOk(Split(content, '\''))
      ensures errorCount == old(errorCount) + CountErrors(Split(content, '\''))
      ensures err == None
    {
      var segments := Split(content, '\'');
      var i := 0;
      while i < |segments|
        invariant 0 <= i <= |segments|
        invariant processedCount == old(processedCount) + CountOk(segments[..i])
        invariant errorCount == old(errorCount) + CountErrors(segments[..i])
      {
        assert segments[..i + 1][..i] == segments[..i];
        var segmentStr := segments[i];
        if segmentStr != "" {
          var e := ProcessSegment(segmentStr);
          if e.Some? {
            errorCount := errorCount + 1;
          } else {
            processedCount := processedCount + 1;
          }
        }
        i := i + 1;
      }
      assert segments[..i] == segments;
      err := None;
    }

    method GetStats() returns (processed: int, errors: int)
      ensures processed == processedCount && errors == errorCount
    {
      processed, errors := processedCount, errorCount;
    }
  }

  /** Every non-empty segment is counted exactly once, as processed or as in
      error. */
  lemma {:induction false} EachSegmentCountedOnce(pieces: seq<string>)
    ensures CountOk(pieces) + CountErrors(pieces) == FlatMessage.CountNonEmpty(pieces)
  {
    if |pieces| > 0 {
      EachSegmentCountedOnce(pieces[..|pieces| - 1]);
    }
  }

  /** A segment is in error exactly when its tag is UNH or BGM with fewer
      than two elements, or DTM, LIN or UNT with none; the tag is the text
      before the first separator. */
  lemma SegmentErrorIff(segmentStr: string)
    ensures var parts := Split(segmentStr, '+'); var tag := parts[0]; var n := |parts| - 1;
      && (SegmentError(segmentStr).Some? <==>
            ((tag == "UNH" || tag == "BGM") && n < 2) || ((tag == "DTM" || tag == "LIN" || tag == "UNT") && n < 1))
      && '+' !in tag
      && Join(parts, '+') == segmentStr
  {
    JoinSplit(segmentStr, '+');
  }
}
