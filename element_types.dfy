/** Classification of data elements into qualifiers, codes, measurements,
    dates, identifiers, free text and composites, with per-type warnings,
    descriptions and statistics over a message. */
module ElementTypes {
  import opened Strings
  import FlatMessage
  import Tally

  /** In declaration order, so that Qualifier is the zero value. */
  datatype ElementType = Qualifier | Code | Measurement | Date | Text | Identifier | Composite

  datatype DataElement = DataElement(
    value: string,
    elementType: ElementType,
    qualifier: string,
    components: seq<string>,
    position: int,
    description: string)

  datatype Segment = Segment(tag: string, elements: seq<DataElement>, position: int)

  datatype Message = Message(messageType: string, segments: seq<Segment>, rawContent: string)

  /** The element read from the element text at 0-based index `j`: composite
      with its components when it holds a colon, otherwise left at the zero
      type with no components. */
  function DataElementOf(text: string, j: nat): DataElement
  {
    if Contains(text, ":") then DataElement(text, Composite, "", Split(text, ':'), j, "")
    else DataElement(text, Qualifier, "", [], j, "")
  }

  function TypedSegment(s: FlatMessage.Segment): Segment
  {
    Segment(s.tag, seq(|s.elements|, j requires 0 <= j < |s.elements| => DataElementOf(s.elements[j], j)), s.position)
  }

  function TypedSegments(segments: seq<FlatMessage.Segment>): (r: seq<Segment>)
    ensures |r| == |segments|
  {
    seq(|segments|, k requires 0 <= k < |segments| => TypedSegment(segments[k]))
  }

  /** The typed message: the segments of the shared reader, with typed
      elements. */
  function Parse(rawContent: string): Message
  {
    var m := FlatMessage.Parse(rawContent);
    Message(m.messageType, TypedSegments(m.segments), rawContent)
  }

  /** Reads one non-empty segment text: tag, then typed elements numbered
      from 0. */
  method ReadSegment(piece: string, index: nat) returns (segment: Segment)
    ensures segment == TypedSegment(FlatMessage.SegmentOf(piece, index))
  {
    var parts := Split(piece, '+');
    var elements: seq<DataElement> := [];
    var j := 0;
    while j < |parts| - 1
      invariant 0 <= j <= |parts| - 1
      invariant elements == seq(j, k requires 0 <= k < j => DataElementOf(parts[k + 1], k))
    {
      var elementStr := parts[j + 1];
      var element := DataElement(elementStr, Qualifier, "", [], j, "");
      if Contains(elementStr, ":") {
        element := element.(elementType := Composite, components := Split(elementStr, ':'));
      }
      elements := elements + [element];
      j := j + 1;
    }
    segment := Segment(parts[0], elements, index);
  }

  lemma TypedSegmentsSnoc(segments: seq<FlatMessage.Segment>, s: FlatMessage.Segment)
    ensures TypedSegments(segments + [s]) == TypedSegments(segments) + [TypedSegment(s)]
  {
  }

  lemma MessageTypeSnoc(segments: seq<FlatMessage.Segment>, s: FlatMessage.Segment)
    ensures FlatMessage.MessageTypeOf(segments + [s]) ==
      if FlatMessage.CarriesType(s) then FlatMessage.TypeOf(s) else FlatMessage.MessageTypeOf(segments)
  {
    assert (segments + [s])[..|segments|] == segments;
  }

  method ParseEDIFACTMessage(rawContent: string) returns (message: Message)
    ensures message == Parse(rawContent)
  {
    var pieces := Split(rawContent, '\'');
    var segments: seq<Segment> := [];
    var messageType := "";
    ghost var flat: seq<FlatMessage.Segment> := [];
    var i := 0;
    while i < |pieces|
      invariant 0 <= i <= |pieces|
      invariant flat == FlatMessage.SegmentsOf(pieces[..i])
      invariant segments == TypedSegments(flat)
      invariant messageType == FlatMessage.MessageTypeOf(flat)
    {
      assert pieces[..i + 1][..i] == pieces[..i];
      if pieces[i] != "" {
        var segment := ReadSegment(pieces[i], i);
        ghost var fs := FlatMessage.SegmentOf(pieces[i], i);
        TypedSegmentsSnoc(flat, fs);
        MessageTypeSnoc(flat, fs);
        flat := flat + [fs];
        segments := segments + [segment];
        if segment.tag == "UNH" && |segment.elements| > 1 {
          var msgTypeParts := Split(segment.elements[1].value, ':');
          messageType := msgTypeParts[0];
        }
      }
      i := i + 1;
    }
    assert pieces[..|pieces|] == pieces;
    message := Message(messageType, segments, rawContent);
  }

  // Patterns

  /** The regular expression ^[A-Z0-9]{2,6}$. */
  predicate IsCode(s: string)
  {
    2 <= |s| <= 6 && forall i :: 0 <= i < |s| ==> IsUpperOrDigit(s[i])
  }

  /** The regular expression ^[A-Z0-9]{1,35}$. */
  predicate IsIdentifier(s: string)
  {
    1 <= |s| <= 35 && forall i :: 0 <= i < |s| ==> IsUpperOrDigit(s[i])
  }

  /** The first element of a name and address, date/time, quantity or
      reference segment is a qualifier. */
  predicate IsQualifierContext(segmentTag: string, position: int)
  {
    segmentTag in {"NAD", "DTM", "QTY", "RFF"} && position == 0
  }

  /** The first matching rule in the order composite, qualifier position,
      code, date, measurement, identifier; free text otherwise. */
  function DetermineElementType(element: DataElement, segmentTag: string, position: int): ElementType
  {
    var value := element.value;
    if Contains(value, ":") then Composite
    else if IsQualifierContext(segmentTag, position) then Qualifier
    else if IsCode(value) then Code
    else if IsEightDigits(value) then Date
    else if IsNumber(value) then Measurement
    else if IsIdentifier(value) then Identifier
    else Text
  }

  function ExtractQualifier(element: DataElement, segmentTag: string, position: int): string
  {
    if IsQualifierContext(segmentTag, position) then
      if |element.components| > 0 then element.components[0] else element.value
    else ""
  }

  function CheckWarnings(element: DataElement, elementType: ElementType): string
  {
    var value := element.value;
    match elementType
    case Measurement => if HasPrefix(value, "-") then "Negative value detected: " + value else ""
    case Text => if |value| > 35 then "Text element exceeds recommended length: " + IntToString(|value|) + " characters" else ""
    case _ => ""
  }

  const Qualifiers: map<string, string> := map[
    "BY" := "Buyer", "SE" := "Seller", "SU" := "Supplier", "CA" := "Carrier", "XX" := "Unknown",
    "137" := "Document/message date/time", "2" := "Delivery date/time", "35" := "Time",
    "12" := "Number of packages", "145" := "Gross weight", "146" := "Volume",
    "CT" := "Contract number", "IV" := "Invoice number", "PO" := "Purchase order number"]

  const MessageTypeCodes: map<string, string> := map[
    "INVOIC" := "Invoice", "ORDERS" := "Purchase Order", "DESADV" := "Despatch Advice", "INVRPT" := "Inventory Report"]

  const DocumentTypeCodes: map<string, string> := map[
    "380" := "Commercial Invoice", "325" := "Pro-forma Invoice", "384" := "Consignment Invoice", "220" := "Purchase Order"]

  function GetElementDescription(element: DataElement, elementType: ElementType, segmentTag: string): string
  {
    var value := element.value;
    match elementType
    case Qualifier => if value in Qualifiers then Qualifiers[value] else "Unknown qualifier"
    case Code =>
      if segmentTag == "BGM" && value in DocumentTypeCodes then DocumentTypeCodes[value]
      else if value in MessageTypeCodes then MessageTypeCodes[value]
      else "Code"
    case Date => "Date (YYYYMMDD format)"
    case Measurement => "Numeric measurement"
    case Identifier => "Identifier"
    case Composite => "Composite element"
    case Text => "Text element"
  }

  datatype ElementAnalysis = ElementAnalysis(
    segment: string,
    position: int,
    value: string,
    elementType: ElementType,
    qualifier: string,
    components: seq<string>,
    description: string,
    warning: string)

  function AnalyzeElement(element: DataElement, segmentTag: string, position: int): ElementAnalysis
  {
    var t := DetermineElementType(element, segmentTag, position);
    ElementAnalysis(segmentTag, position, element.value, t, ExtractQualifier(element, segmentTag, position),
                    element.components, GetElementDescription(element, t, segmentTag), CheckWarnings(element, t))
  }

  function SegmentAnalyses(s: Segment): seq<ElementAnalysis>
  {
    seq(|s.elements|, i requires 0 <= i < |s.elements| => AnalyzeElement(s.elements[i], s.tag, i))
  }

  /** The analyses of every element, segment by segment. */
  function AnalysesOf(segments: seq<Segment>): seq<ElementAnalysis>
  {
    if |segments| == 0 then []
    else AnalysesOf(segments[..|segments| - 1]) + SegmentAnalyses(segments[|segments| - 1])
  }

  function TypesOf(analyses: seq<ElementAnalysis>): (r: seq<ElementType>)
    ensures |r| == |analyses|
  {
    seq(|analyses|, i requires 0 <= i < |analyses| => analyses[i].elementType)
  }

  /** The non-empty warnings, in element order. */
  function WarningsOf(analyses: seq<ElementAnalysis>): seq<string>
  {
    if |analyses| == 0 then []
    else
      var a := analyses[|analyses| - 1];
      WarningsOf(analyses[..|analyses| - 1]) + (if a.warning != "" then [a.warning] else [])
  }

  datatype ElementAnalysisResult = ElementAnalysisResult(
    messageType: string,
    elements: seq<ElementAnalysis>,
    statistics: map<ElementType, int>,
    warnings: seq<string>)

  function AnalysisOf(message: Message): ElementAnalysisResult
  {
    var analyses := AnalysesOf(message.segments);
    ElementAnalysisResult(message.messageType, analyses, Tally.TallyOf(TypesOf(analyses)), WarningsOf(analyses))
  }

  /** Recording one analysis extends the statistics and the warnings the
      way recording the whole list would. */
  lemma AnalysisSnoc(analyses: seq<ElementAnalysis>, a: ElementAnalysis)
    ensures Tally.TallyOf(TypesOf(analyses + [a])) == Tally.Increment(Tally.TallyOf(TypesOf(analyses)), a.elementType)
    ensures WarningsOf(analyses + [a]) == WarningsOf(analyses) + (if a.warning != "" then [a.warning] else [])
  {
    assert (analyses + [a])[..|analyses|] == analyses;
    assert TypesOf(analyses + [a]) == TypesOf(analyses) + [a.elementType];
    assert (TypesOf(analyses) + [a.elementType])[..|analyses|] == TypesOf(analyses);
  }

  lemma AnalysesSnoc(segments: seq<Segment>, s: Segment)
    ensures AnalysesOf(segments + [s]) == AnalysesOf(segments) + SegmentAnalyses(s)
  {
    assert (segments + [s])[..|segments|] == segments;
  }

  lemma SegmentAnalysesStep(segment: Segment, i: nat, before: seq<ElementAnalysis>, done: seq<ElementAnalysis>)
    requires i < |segment.elements| && done == before + SegmentAnalyses(segment)[..i]
    ensures before + SegmentAnalyses(segment)[..i + 1] == done + [AnalyzeElement(segment.elements[i], segment.tag, i)]
  {
    assert SegmentAnalyses(segment)[..i + 1] == SegmentAnalyses(segment)[..i] + [AnalyzeElement(segment.elements[i], segment.tag, i)];
  }

  method AnalyzeSegment(segment: Segment, elements: seq<ElementAnalysis>, statistics: map<ElementType, int>, warnings: seq<string>)
    returns (elements': seq<ElementAnalysis>, statistics': map<ElementType, int>, warnings': seq<string>)
    requires statistics == Tally.TallyOf(TypesOf(elements)) && warnings == WarningsOf(elements)
    ensures elements' == elements + SegmentAnalyses(segment)
    ensures statistics' == Tally.TallyOf(TypesOf(elements')) && warnings' == WarningsOf(elements')
  {
    elements', statistics', warnings' := elements, statistics, warnings;
    var i := 0;
    while i < |segment.elements|
      invariant 0 <= i <= |segment.elements|
      invariant elements' == elements + SegmentAnalyses(segment)[..i]
      invariant statistics' == Tally.TallyOf(TypesOf(elements')) && warnings' == WarningsOf(elements')
    {
      var analysis := AnalyzeElement(segment.elements[i], segment.tag, i);
      AnalysisSnoc(elements', analysis);
      SegmentAnalysesStep(segment, i, elements, elements');
      elements' := elements' + [analysis];
      statistics' := Tally.Increment(statistics', analysis.elementType);
      if analysis.warning != "" {
        warnings' := warnings' + [analysis.warning];
      }
      i := i + 1;
    }
    assert SegmentAnalyses(segment)[..i] == SegmentAnalyses(segment);
  }

  method AnalyzeMessage(message: Message) returns (result: ElementAnalysisResult)
    ensures result == AnalysisOf(message)
  {
    var segments := message.segments;
    var elements: seq<ElementAnalysis> := [];
    var statistics: map<ElementType, int> := map[];
    var warnings: seq<string> := [];
    var k := 0;
    while k < |segments|
      invariant 0 <= k <= |segments|
      invariant elements == AnalysesOf(segments[..k])
      invariant statistics == Tally.TallyOf(TypesOf(elements)) && warnings == WarningsOf(elements)
    {
      assert segments[..k + 1] == segments[..k] + [segments[k]];
      AnalysesSnoc(segments[..k], segments[k]);
      elements, statistics, warnings := AnalyzeSegment(segments[k], elements, statistics, warnings);
      k := k + 1;
    }
    assert segments[..k] == segments;
    result := ElementAnalysisResult(message.messageType, elements, statistics, warnings);
  }

  // Properties

  /** The type of an element satisfies the pattern of that type and fails
      every pattern tried before it. */
  lemma TypeMatchesPattern(e: DataElement, tag: string, position: int)
    ensures var t := DetermineElementType(e, tag, position); var v := e.value;
      && (t == Composite <==> ':' in v)
      && (t == Qualifier <==> ':' !in v && IsQualifierContext(tag, position))
      && (t == Code <==> ':' !in v && !IsQualifierContext(tag, position) && IsCode(v))
      && (t == Date ==> IsEightDigits(v) && !IsCode(v))
      && (t == Measurement ==> IsNumber(v) && !IsCode(v) && !IsEightDigits(v))
      && (t == Identifier ==> IsIdentifier(v) && !IsNumber(v))
      && (t == Text ==> !IsIdentifier(v) && !IsNumber(v) && !IsQualifierContext(tag, position))
  {
    ContainsChar(e.value, ':');
  }

  /** Whole numbers of two to six digits outside a qualifier position are
      classified as codes, never as measurements; the quantity 100 is a code. */
  lemma ShortNumbersAreCodes(e: DataElement, tag: string, position: int)
    requires 2 <= |e.value| <= 6 && AllDigits(e.value)
    requires !IsQualifierContext(tag, position)
    ensures DetermineElementType(e, tag, position) == Code
  {
    ContainsChar(e.value, ':');
  }

  /** Measurement elements warn exactly when negative; text elements warn
      exactly when longer than 35 bytes; no other type warns. */
  lemma WarningsByType(e: DataElement, t: ElementType)
    ensures CheckWarnings(e, t) != "" <==>
      (t == Measurement && HasPrefix(e.value, "-")) || (t == Text && |e.value| > 35)
  {
  }

  /** In a qualifier position the qualifier is the first component or the
      whole value; elsewhere there is none. */
  lemma QualifierOfElement(text: string, j: nat, tag: string)
    ensures var e := DataElementOf(text, j);
      ExtractQualifier(e, tag, j) == if IsQualifierContext(tag, j) then Split(text, ':')[0] else ""
  {
    ContainsChar(text, ':');
    if ':' !in text {
      SplitWithoutSeparator(text, ':');
    }
  }

  /** A qualifier is described by its table entry, or as an unknown
      qualifier; a code in a BGM by its document type, otherwise by its
      message type, otherwise as a plain code; every other type by its fixed
      label. No description is empty. */
  lemma DescriptionByType(e: DataElement, t: ElementType, tag: string)
    ensures var d := GetElementDescription(e, t, tag); var v := e.value;
      && d != ""
      && (t == Qualifier && v in Qualifiers ==> d == Qualifiers[v])
      && (t == Qualifier ==> (d == "Unknown qualifier" <==> v !in Qualifiers))
      && (t == Code && tag == "BGM" && v in DocumentTypeCodes ==> d == DocumentTypeCodes[v])
      && (t == Code && (tag != "BGM" || v !in DocumentTypeCodes) && v in MessageTypeCodes ==> d == MessageTypeCodes[v])
      && (t == Code ==> (d == "Code" <==> (tag != "BGM" || v !in DocumentTypeCodes) && v !in MessageTypeCodes))
      && (t == Date ==> d == "Date (YYYYMMDD format)")
      && (t == Measurement ==> d == "Numeric measurement")
      && (t == Identifier ==> d == "Identifier")
      && (t == Composite ==> d == "Composite element")
      && (t == Text ==> d == "Text element")
  {
  }

  /** The analysis of an element carries its segment, position, value and
      components; it is composite iff the value holds a colon and a
      qualifier iff not and in a qualifier position; it warns iff a
      measurement is negative or a text exceeds 35 bytes; and it is
      described as its type and value say. */
  lemma AnalysisFields(e: DataElement, tag: string, position: int)
    ensures var a := AnalyzeElement(e, tag, position);
      && a.segment == tag && a.position == position && a.value == e.value && a.components == e.components
      && (a.elementType == Composite <==> ':' in e.value)
      && (a.elementType == Qualifier <==> ':' !in e.value && IsQualifierContext(tag, position))
      && (a.warning != "" <==> (a.elementType == Measurement && HasPrefix(e.value, "-")) || (a.elementType == Text && |e.value| > 35))
      && a.description == GetElementDescription(e, a.elementType, tag)
  {
    var t := DetermineElementType(e, tag, position);
    TypeMatchesPattern(e, tag, position);
    WarningsByType(e, t);
  }

  /** For an element read from its text, the analysis also carries the
      first component as qualifier in a qualifier position and none
      elsewhere, and the components split at the colons when there is one. */
  lemma AnalysisOfElement(text: string, j: nat, tag: string)
    ensures var a := AnalyzeElement(DataElementOf(text, j), tag, j);
      && a.value == text && a.position == j
      && a.qualifier == (if IsQualifierContext(tag, j) then Split(text, ':')[0] else "")
      && (a.elementType == Composite ==> a.components == Split(text, ':'))
      && (a.elementType != Composite ==> a.components == [])
  {
    var e := DataElementOf(text, j);
    AnalysisFields(e, tag, j);
    QualifierOfElement(text, j, tag);
    ContainsChar(text, ':');
  }

  lemma {:induction false} CountByType(ts: seq<ElementType>)
    ensures Tally.Occurrences(ts, Qualifier) + Tally.Occurrences(ts, Code) + Tally.Occurrences(ts, Measurement)
      + Tally.Occurrences(ts, Date) + Tally.Occurrences(ts, Text) + Tally.Occurrences(ts, Identifier)
      + Tally.Occurrences(ts, Composite) == |ts|
  {
    if |ts| > 0 {
      var front := ts[..|ts| - 1];
      CountByType(front);
      var last := ts[|ts| - 1];
      assert ts == front + [last];
      forall t: ElementType
        ensures Tally.Occurrences(ts, t) == Tally.Occurrences(front, t) + (if last == t then 1 else 0)
      {
        Tally.OccurrencesSnoc(front, last, t);
      }
    }
  }

  /** The statistics count each type's elements, and the counts of the seven
      types add up to the number of elements analysed. */
  lemma StatisticsCount(message: Message, t: ElementType)
    ensures var r := AnalysisOf(message);
      && (t in r.statistics <==> Tally.Occurrences(TypesOf(r.elements), t) > 0)
      && (t in r.statistics ==> r.statistics[t] == Tally.Occurrences(TypesOf(r.elements), t))
    ensures var ts := TypesOf(AnalysisOf(message).elements);
      Tally.Occurrences(ts, Qualifier) + Tally.Occurrences(ts, Code) + Tally.Occurrences(ts, Measurement)
      + Tally.Occurrences(ts, Date) + Tally.Occurrences(ts, Text) + Tally.Occurrences(ts, Identifier)
      + Tally.Occurrences(ts, Composite) == |AnalysisOf(message).elements|
  {
    var r := AnalysisOf(message);
    Tally.TallyCounts(TypesOf(r.elements), t);
    CountByType(TypesOf(r.elements));
  }

  /** One analysis per element of the message. */
  lemma {:induction false} OneAnalysisPerElement(segments: seq<Segment>)
    ensures |AnalysesOf(segments)| == ElementCount(segments)
  {
    if |segments| > 0 {
      OneAnalysisPerElement(segments[..|segments| - 1]);
    }
  }

  function ElementCount(segments: seq<Segment>): nat
  {
    if |segments| == 0 then 0 else ElementCount(segments[..|segments| - 1]) + |segments[|segments| - 1].elements|
  }

  /** The typed reader keeps the segments, tags, positions and element texts
      of the shared reader, and marks exactly the elements holding a colon as
      composite. */
  lemma ParseAgrees(rawContent: string, k: nat, j: nat)
    requires k < |FlatMessage.Parse(rawContent).segments|
    requires j < |FlatMessage.Parse(rawContent).segments[k].elements|
    ensures var flat := FlatMessage.Parse(rawContent).segments[k];
      var typed := Parse(rawContent).segments[k];
      && typed.tag == flat.tag && typed.position == flat.position && |typed.elements| == |flat.elements|
      && typed.elements[j].value == flat.elements[j]
      && (typed.elements[j].elementType == Composite <==> ':' in flat.elements[j])
  {
    ContainsChar(FlatMessage.Parse(rawContent).segments[k].elements[j], ':');
  }
}
