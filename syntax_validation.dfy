/** Syntax validation of a message by six rules applied in turn; each finding
    is an error or a warning, and only errors make the message invalid. */
module SyntaxValidation {
  import opened Strings
  import FlatMessage

  type Segment = FlatMessage.Segment
  type Message = FlatMessage.Message

  datatype ValidationError = ValidationError(
    segment: string,
    element: string,
    position: int,
    rule: string,
    message: string,
    severity: string)

  datatype ValidationResult = ValidationResult(
    valid: bool,
    errors: seq<ValidationError>,
    warnings: seq<ValidationError>)

  datatype Check = SegmentTerminator | ElementDelimiter | DateFormat | NumericFormat | SegmentCount | ReferenceMatching

  datatype ValidationRule = ValidationRule(name: string, description: string, check: Check)

  /** The registered rules, in the order they are applied. */
  const StandardRules := [
    ValidationRule("segment_terminator", "Check for proper segment terminators", SegmentTerminator),
    ValidationRule("element_delimiter", "Check for proper element delimiters", ElementDelimiter),
    ValidationRule("date_format", "Validate date formats", DateFormat),
    ValidationRule("numeric_format", "Validate numeric formats", NumericFormat),
    ValidationRule("segment_count", "Validate segment count in UNT", SegmentCount),
    ValidationRule("reference_matching", "Validate reference number matching", ReferenceMatching)
  ]

  function Finding(segment: string, element: string, position: int, rule: string, message: string, severity: string): ValidationError
  {
    ValidationError(segment, element, position, rule, message, severity)
  }

  /** The findings of a per-segment check over every segment, with each
      segment's index in the message. */
  function PerSegment(segments: seq<Segment>, check: (Segment, int) -> seq<ValidationError>): seq<ValidationError>
  {
    if |segments| == 0 then []
    else
      var n := |segments| - 1;
      PerSegment(segments[..n], check) + check(segments[n], n)
  }

  method CollectPerSegment(segments: seq<Segment>, check: (Segment, int) -> seq<ValidationError>)
    returns (errors: seq<ValidationError>)
    ensures errors == PerSegment(segments, check)
  {
    errors := [];
    var i := 0;
    while i < |segments|
      invariant 0 <= i <= |segments|
      invariant errors == PerSegment(segments[..i], check)
    {
      assert segments[..i + 1][..i] == segments[..i];
      errors := errors + check(segments[i], i);
      i := i + 1;
    }
    assert segments[..i] == segments;
  }

  // segment_terminator

  function SegmentTerminatorCheck(segment: Segment, i: int): seq<ValidationError>
  {
    if !HasSuffix(segment.raw, "'") then
      [Finding(segment.tag, "Terminator", i, "segment_terminator",
               "Segment " + segment.tag + " must end with terminator (')", "ERROR")]
    else []
  }

  function TerminatorFindings(m: Message): seq<ValidationError>
  {
    (if !HasSuffix(m.rawContent, "'") then
       [Finding("END", "Terminator", |m.rawContent|, "segment_terminator",
                "Message must end with segment terminator (')", "ERROR")]
     else [])
    + PerSegment(m.segments, SegmentTerminatorCheck)
  }

  // element_delimiter

  function ElementDelimiterCheck(segment: Segment, i: int): seq<ValidationError>
  {
    var raw := segment.raw;
    (if Contains(raw, "++") then
       [Finding(segment.tag, "Delimiter", i, "element_delimiter",
                "Segment " + segment.tag + " contains consecutive delimiters (empty element)", "WARNING")]
     else [])
    + (if Contains(raw, "+") && !HasPrefix(raw, "+") then []
       else if !Contains(raw, "+") && segment.tag != "UNT" && |segment.elements| == 0 then
         [Finding(segment.tag, "Delimiter", i, "element_delimiter",
                  "Segment " + segment.tag + " should contain element delimiters", "WARNING")]
       else [])
  }

  // date_format

  function DateCheck(segment: Segment, i: int): seq<ValidationError>
  {
    if segment.tag == "DTM" && |segment.elements| > 0 then
      var composite := Split(segment.elements[0], ':');
      if |composite| >= 2 then
        var dateValue := composite[1];
        (if !IsEightDigits(dateValue) then
           [Finding(segment.tag, "Date", i, "date_format",
                    "Invalid date format in DTM segment: " + dateValue + " (expected YYYYMMDD)", "ERROR")]
         else [])
        + (if |dateValue| == 8 then
             var month := dateValue[4..6];
             var day := dateValue[6..8];
             (if Less(month, "01") || Less("12", month) then
                [Finding(segment.tag, "Month", i, "date_format", "Invalid month in date: " + dateValue, "ERROR")]
              else [])
             + (if Less(day, "01") || Less("31", day) then
                  [Finding(segment.tag, "Day", i, "date_format", "Invalid day in date: " + dateValue, "ERROR")]
                else [])
           else [])
      else []
    else []
  }

  // numeric_format

  function NumericCheck(segment: Segment, i: int): seq<ValidationError>
  {
    (if segment.tag == "QTY" && |segment.elements| > 0 then
       var composite := Split(segment.elements[0], ':');
       if |composite| >= 2 then
         var quantity := composite[1];
         (if !IsNumber(quantity) then
            [Finding(segment.tag, "Quantity", i, "numeric_format",
                     "Invalid numeric format in QTY segment: " + quantity, "ERROR")]
          else [])
         + (if HasPrefix(quantity, "-") then
              [Finding(segment.tag, "Quantity", i, "numeric_format",
                       "Negative quantity detected: " + quantity, "WARNING")]
            else [])
       else []
     else [])
    + (if segment.tag == "PRI" && |segment.elements| > 0 then
         var composite := Split(segment.elements[0], ':');
         if |composite| >= 2 && !IsNumber(composite[1]) then
           [Finding(segment.tag, "Price", i, "numeric_format",
                    "Invalid numeric format in PRI segment: " + composite[1], "ERROR")]
         else []
       else [])
  }

  // segment_count

  /** The index of the first segment with the tag, if any. */
  function FirstWithTag(segments: seq<Segment>, tag: string): (r: int)
    ensures -1 <= r < |segments|
    ensures r >= 0 ==> segments[r].tag == tag && forall j :: 0 <= j < r ==> segments[j].tag != tag
    ensures r == -1 ==> forall j :: 0 <= j < |segments| ==> segments[j].tag != tag
  {
    if |segments| == 0 then -1
    else if segments[0].tag == tag then 0
    else
      var r := FirstWithTag(segments[1..], tag);
      if r == -1 then -1 else r + 1
  }

  function SegmentCountFindings(m: Message): seq<ValidationError>
  {
    var k := FirstWithTag(m.segments, "UNT");
    if k >= 0 && |m.segments[k].elements| > 0 then
      var untSegment := m.segments[k];
      var expectedCount := |m.segments| - 2;
      var actualCount := |m.segments|;
      if expectedCount != actualCount - 2 then
        [Finding("UNT", "Segment Count", untSegment.position, "segment_count",
                 "Segment count mismatch: expected " + IntToString(expectedCount) + ", actual " + IntToString(actualCount - 2),
                 "ERROR")]
      else []
    else []
  }

  // reference_matching

  /** Element `index` of the first segment with the tag and more than
      `index` elements; "" if there is none. */
  function FirstReference(segments: seq<Segment>, tag: string, index: nat): string
  {
    if |segments| == 0 then ""
    else if segments[0].tag == tag && |segments[0].elements| > index then segments[0].elements[index]
    else FirstReference(segments[1..], tag, index)
  }

  function ReferenceFindings(m: Message): seq<ValidationError>
  {
    var unhRef := FirstReference(m.segments, "UNH", 0);
    var untRef := FirstReference(m.segments, "UNT", 1);
    if unhRef != "" && untRef != "" && unhRef != untRef then
      [Finding("UNT", "Reference", 0, "reference_matching",
               "Reference number mismatch: UNH=" + unhRef + ", UNT=" + untRef, "ERROR")]
    else []
  }

  /** What one rule reports about a message. */
  function RuleFindings(check: Check, m: Message): seq<ValidationError>
  {
    match check
    case SegmentTerminator => TerminatorFindings(m)
    case ElementDelimiter => PerSegment(m.segments, ElementDelimiterCheck)
    case DateFormat => PerSegment(m.segments, DateCheck)
    case NumericFormat => PerSegment(m.segments, NumericCheck)
    case SegmentCount => SegmentCountFindings(m)
    case ReferenceMatching => ReferenceFindings(m)
  }

  /** Everything the rules report, rule by rule. */
  function AllFindings(rules: seq<ValidationRule>, m: Message): seq<ValidationError>
  {
    if |rules| == 0 then []
    else
      var n := |rules| - 1;
      AllFindings(rules[..n], m) + RuleFindings(rules[n].check, m)
  }

  /** Findings of severity ERROR become errors and make the result invalid;
      all others become warnings. */
  function Sort(findings: seq<ValidationError>): ValidationResult
  {
    if |findings| == 0 then ValidationResult(true, [], [])
    else
      var n := |findings| - 1;
      var r := Sort(findings[..n]);
      if findings[n].severity == "ERROR" then
        ValidationResult(false, r.errors + [findings[n]], r.warnings)
      else
        ValidationResult(r.valid, r.errors, r.warnings + [findings[n]])
  }

  /** Finds the first segment with a tag and enough elements, and returns the
      wanted element or "". */
  method FindReference(segments: seq<Segment>, tag: string, index: nat) returns (ref: string)
    ensures ref == FirstReference(segments, tag, index)
  {
    ref := "";
    var i := 0;
    while i < |segments|
      invariant 0 <= i <= |segments|
      invariant FirstReference(segments, tag, index) == FirstReference(segments[i..], tag, index)
    {
      if segments[i].tag == tag && |segments[i].elements| > index {
        ref := segments[i].elements[index];
        return;
      }
      assert segments[i..][1..] == segments[i + 1..];
      i := i + 1;
    }
  }

  method ApplyRule(check: Check, message: Message) returns (errors: seq<ValidationError>)
    ensures errors == RuleFindings(check, message)
  {
    match check {
      case SegmentTerminator =>
        errors := [];
        if !HasSuffix(message.rawContent, "'") {
          errors := [Finding("END", "Terminator", |message.rawContent|, "segment_terminator",
                             "Message must end with segment terminator (')", "ERROR")];
        }
        var perSegment := CollectPerSegment(message.segments, SegmentTerminatorCheck);
        errors := errors + perSegment;
      case ElementDelimiter =>
        errors := CollectPerSegment(message.segments, ElementDelimiterCheck);
      case DateFormat =>
        errors := CollectPerSegment(message.segments, DateCheck);
      case NumericFormat =>
        errors := CollectPerSegment(message.segments, NumericCheck);
      case SegmentCount =>
        errors := [];
        var segments := message.segments;
        var k := 0;
        while k < |segments| && segments[k].tag != "UNT"
          invariant 0 <= k <= |segments|
          invariant forall j :: 0 <= j < k ==> segments[j].tag != "UNT"
        {
          k := k + 1;
        }
        if k < |segments| && |segments[k].elements| > 0 {
          var untSegment := segments[k];
          var expectedCount := |segments| - 2;
          var actualCount := |segments|;
          if expectedCount != actualCount - 2 {
            errors := [Finding("UNT", "Segment Count", untSegment.position, "segment_count",
                               "Segment count mismatch: expected " + IntToString(expectedCount) + ", actual " + IntToString(actualCount - 2),
                               "ERROR")];
          }
        }
      case ReferenceMatching =>
        var unhRef := FindReference(message.segments, "UNH", 0);
        var untRef := FindReference(message.segments, "UNT", 1);
        errors := [];
        if unhRef != "" && untRef != "" && unhRef != untRef {
          errors := [Finding("UNT", "Reference", 0, "reference_matching",
                             "Reference number mismatch: UNH=" + unhRef + ", UNT=" + untRef, "ERROR")];
        }
    }
  }

  class SyntaxValidator {
    const validationRules: seq<ValidationRule>

    constructor ()
      ensures validationRules == StandardRules
    {
      validationRules := StandardRules;
    }

    method Validate(message: Message) returns (result: ValidationResult)
      ensures result == Sort(AllFindings(validationRules, message))
    {
      result := ValidationResult(true, [], []);
      var r := 0;
      while r < |validationRules|
        invariant 0 <= r <= |validationRules|
        invariant result == Sort(AllFindings(validationRules[..r], message))
      {
        assert validationRules[..r + 1][..r] == validationRules[..r];
        var errors := ApplyRule(validationRules[r].check, message);
        result := AddFindings(result, AllFindings(validationRules[..r], message), errors);
        r := r + 1;
      }
      assert validationRules[..r] == validationRules;
    }
  }

  /** Files each finding as an error or a warning, in order. */
  method AddFindings(result: ValidationResult, ghost done: seq<ValidationError>, findings: seq<ValidationError>)
    returns (r: ValidationResult)
    requires result == Sort(done)
    ensures r == Sort(done + findings)
  {
    r := result;
    var e := 0;
    assert done + findings[..0] == done;
    while e < |findings|
      invariant 0 <= e <= |findings|
      invariant r == Sort(done + findings[..e])
    {
      assert done + findings[..e + 1] == (done + findings[..e]) + [findings[e]];
      SortSnoc(done + findings[..e], findings[e]);
      if findings[e].severity == "ERROR" {
        r := r.(valid := false, errors := r.errors + [findings[e]]);
      } else {
        r := r.(warnings := r.warnings + [findings[e]]);
      }
      e := e + 1;
    }
    assert findings[..e] == findings;
  }

  lemma SortSnoc(findings: seq<ValidationError>, f: ValidationError)
    ensures var r := Sort(findings);
      Sort(findings + [f]) == if f.severity == "ERROR" then ValidationResult(false, r.errors + [f], r.warnings)
                              else ValidationResult(r.valid, r.errors, r.warnings + [f])
  {
    assert (findings + [f])[..|findings|] == findings;
  }

  // Properties

  /** A result is valid exactly when it holds no error; every error has
      severity ERROR, no warning has, and nothing is lost or invented. */
  lemma {:induction false} SortPartitions(findings: seq<ValidationError>)
    ensures var r := Sort(findings);
      && (r.valid <==> r.errors == [])
      && (forall e :: e in r.errors ==> e.severity == "ERROR")
      && (forall w :: w in r.warnings ==> w.severity != "ERROR")
      && |r.errors| + |r.warnings| == |findings|
      && forall f :: f in findings <==> f in r.errors || f in r.warnings
  {
    if |findings| > 0 {
      var n := |findings| - 1;
      SortPartitions(findings[..n]);
      assert findings == findings[..n] + [findings[n]];
    }
  }

  /** The segment count rule compares the expected count with itself and so
      never reports anything. */
  lemma SegmentCountNeverFires(m: Message)
    ensures SegmentCountFindings(m) == []
  {
  }

  /** Every segment read by the message reader keeps its terminator, so the
      per-segment terminator check never fires: the rule reports at most the
      missing final terminator of the whole text. */
  lemma {:induction false} TerminatorOnlyAtEnd(raw: string)
    ensures var m := FlatMessage.Parse(raw);
      TerminatorFindings(m) == if HasSuffix(raw, "'") then [] else
        [Finding("END", "Terminator", |raw|, "segment_terminator", "Message must end with segment terminator (')", "ERROR")]
  {
    var pieces := Split(raw, '\'');
    var segments := FlatMessage.Parse(raw).segments;
    FlatMessage.SegmentsFromPieces(pieces);
    forall k | 0 <= k < |segments| ensures HasSuffix(segments[k].raw, "'") {
      FlatMessage.SegmentText(pieces[segments[k].position], segments[k].position);
    }
    TerminatedSegmentsPass(segments);
  }

  lemma {:induction false} TerminatedSegmentsPass(segments: seq<Segment>)
    requires forall k :: 0 <= k < |segments| ==> HasSuffix(segments[k].raw, "'")
    ensures PerSegment(segments, SegmentTerminatorCheck) == []
  {
    if |segments| > 0 {
      var n := |segments| - 1;
      TerminatedSegmentsPass(segments[..n]);
    }
  }

  /** For two ASCII digits, the byte-wise range check on a day is the numeric
      check 1 <= day <= 31. */
  lemma DayCheckNumeric(day: string)
    requires |day| == 2 && AllDigits(day)
    ensures !(Less(day, "01") || Less("31", day)) <==> 1 <= ParseDigits(day) <= 31
  {
    TwoDigitValue("01");
    TwoDigitValue("31");
    LessTwoDigits(day, "01");
    LessTwoDigits("31", day);
  }

  /** A quantity draws a warning exactly when it is negative, and an error
      exactly when it is not a number. */
  lemma QuantityFindings(segment: Segment, i: int)
    requires segment.tag == "QTY" && |segment.elements| > 0
    requires |Split(segment.elements[0], ':')| >= 2
    ensures var q := Split(segment.elements[0], ':')[1];
      var f := NumericCheck(segment, i);
      && (exists k :: 0 <= k < |f| && f[k].severity == "WARNING") == HasPrefix(q, "-")
      && (exists k :: 0 <= k < |f| && f[k].severity == "ERROR") == !IsNumber(q)
  {
    var f := NumericCheck(segment, i);
    var q := Split(segment.elements[0], ':')[1];
    if HasPrefix(q, "-") {
      assert f[|f| - 1].severity == "WARNING";
    }
    if !IsNumber(q) {
      assert f[0].severity == "ERROR";
    }
  }

  /** For a segment read by the message reader, the missing-delimiter
      warning is issued exactly when the segment has no element and is not a
      trailer. */
  lemma MissingDelimiterWarning(piece: string, index: nat)
    ensures var s := FlatMessage.SegmentOf(piece, index);
      ElementDelimiterCheck(s, index) ==
        (if Contains(s.raw, "++") then
           [Finding(s.tag, "Delimiter", index, "element_delimiter",
                    "Segment " + s.tag + " contains consecutive delimiters (empty element)", "WARNING")]
         else [])
        + (if s.elements == [] && s.tag != "UNT" then
             [Finding(s.tag, "Delimiter", index, "element_delimiter",
                      "Segment " + s.tag + " should contain element delimiters", "WARNING")]
           else [])
  {
    var s := FlatMessage.SegmentOf(piece, index);
    SplitCount(piece, '+');
    CountZero(piece, '+');
    ContainsChar(s.raw, '+');
    assert '+' in s.raw <==> '+' in piece by {
      assert s.raw == piece + "'";
      if '+' in s.raw {
        var k :| 0 <= k < |s.raw| && s.raw[k] == '+';
        assert k < |piece| && piece[k] == '+';
      }
      if '+' in piece {
        var k :| 0 <= k < |piece| && piece[k] == '+';
        assert s.raw[k] == '+';
      }
    }
    assert s.elements == [] <==> '+' !in piece;
  }

  lemma {:induction false} CountZero(s: string, c: char)
    ensures CountChar(s, c) == 0 <==> c !in s
  {
    if |s| > 0 {
      CountZero(s[1..], c);
      assert s == [s[0]] + s[1..];
    }
  }

  /** The reference rule reports exactly when the header and trailer
      references both exist and differ. */
  lemma ReferenceMismatch(m: Message)
    ensures |ReferenceFindings(m)| == 1 <==>
      var unhRef := FirstReference(m.segments, "UNH", 0);
      var untRef := FirstReference(m.segments, "UNT", 1);
      unhRef != "" && untRef != "" && unhRef != untRef
  {
  }
}
