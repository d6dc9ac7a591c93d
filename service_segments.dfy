/** Service segment handling: per-tag validation of the header and trailer
    segments of messages, groups and interchanges, the information each
    carries, the check of the message envelope, and the interchange summary. */
module ServiceSegments {
  import opened Strings
  import opened Wrappers
  import FlatMessage

  type Segment = FlatMessage.Segment
  type Message = FlatMessage.Message

  datatype Validator = CheckUNH | CheckUNT | CheckUNB | CheckUNZ | CheckUNG | CheckUNE

  /** The registered validators, by segment tag. */
  const Registry: map<string, Validator> :=
    map["UNH" := CheckUNH, "UNT" := CheckUNT, "UNB" := CheckUNB,
        "UNZ" := CheckUNZ, "UNG" := CheckUNG, "UNE" := CheckUNE]

  function ValidateUNH(s: Segment): Option<string>
  {
    if |s.elements| < 2 then Some("UNH must have at least 2 elements")
    else
      var parts := Split(s.elements[1], ':');
      if |parts| < 4 then Some("invalid message type format in UNH")
      else if parts[2] == "" || parts[3] == "" then Some("invalid release/version in UNH")
      else None
  }

  /** The shape shared by the UNT, UNZ and UNE checks: two elements, both
      non-empty. */
  function CheckPair(s: Segment, tooShort: string, firstMissing: string, secondMissing: string): Option<string>
  {
    if |s.elements| < 2 then Some(tooShort)
    else if s.elements[0] == "" then Some(firstMissing)
    else if s.elements[1] == "" then Some(secondMissing)
    else None
  }

  function ValidateUNT(s: Segment): Option<string>
  {
    CheckPair(s, "UNT must have at least 2 elements", "segment count missing in UNT", "reference number missing in UNT")
  }

  function ValidateUNZ(s: Segment): Option<string>
  {
    CheckPair(s, "UNZ must have at least 2 elements", "message count missing in UNZ",
              "interchange control reference missing in UNZ")
  }

  function ValidateUNE(s: Segment): Option<string>
  {
    CheckPair(s, "UNE must have at least 2 elements", "message count missing in UNE",
              "functional group reference missing in UNE")
  }

  function ValidateUNB(s: Segment): Option<string>
  {
    var e := s.elements;
    if |e| < 5 then Some("UNB must have at least 5 elements")
    else if e[0] == "" then Some("syntax identifier missing in UNB")
    else if e[2] == "" || e[3] == "" then Some("sender or receiver ID missing in UNB")
    else if e[4] == "" then Some("date/time missing in UNB")
    else if |e| >= 6 && e[5] == "" then Some("interchange control reference missing in UNB")
    else None
  }

  function ValidateUNG(s: Segment): Option<string>
  {
    var e := s.elements;
    if |e| < 4 then Some("UNG must have at least 4 elements")
    else if e[0] == "" then Some("functional group ID missing in UNG")
    else if e[2] == "" || e[3] == "" then Some("sender or receiver ID missing in UNG")
    else None
  }

  function Run(v: Validator, s: Segment): Option<string>
  {
    match v
    case CheckUNH => ValidateUNH(s)
    case CheckUNT => ValidateUNT(s)
    case CheckUNB => ValidateUNB(s)
    case CheckUNZ => ValidateUNZ(s)
    case CheckUNG => ValidateUNG(s)
    case CheckUNE => ValidateUNE(s)
  }

  datatype ServiceSegmentInfo = ServiceSegmentInfo(
    tag: string,
    elements: seq<string>,
    position: int,
    timestamp: int,
    messageType: string,
    referenceNumber: string,
    segmentCount: string,
    syntaxIdentifier: string,
    senderID: string,
    receiverID: string,
    dateTime: string,
    controlReference: string,
    messageCount: string,
    release: string,
    version: string)

  function Element(s: Segment, i: nat): string
  {
    if |s.elements| > i then s.elements[i] else ""
  }

  /** What a service segment carries, read by its tag; `now` is the time of
      extraction. */
  function ExtractServiceSegmentInfo(s: Segment, now: int): ServiceSegmentInfo
  {
    var info := ServiceSegmentInfo(s.tag, s.elements, s.position, now, "", "", "", "", "", "", "", "", "", "", "");
    if s.tag == "UNH" then
      var typed :=
        if |s.elements| >= 2 then
          var parts := Split(s.elements[1], ':');
          info.(messageType := parts[0],
                release := if |parts| >= 4 then parts[2] else "",
                version := if |parts| >= 4 then parts[3] else "")
        else info;
      typed.(referenceNumber := Element(s, 0))
    else if s.tag == "UNT" then
      info.(segmentCount := Element(s, 0), referenceNumber := Element(s, 1))
    else if s.tag == "UNB" then
      info.(syntaxIdentifier := Element(s, 0), senderID := Element(s, 2), receiverID := Element(s, 3),
            dateTime := Element(s, 4), controlReference := Element(s, 5))
    else if s.tag == "UNZ" then
      info.(messageCount := Element(s, 0), controlReference := Element(s, 1))
    else info
  }

  /** The segment has a registered validator and fails it. */
  predicate Fails(validators: map<string, Validator>, s: Segment)
  {
    s.tag in validators && Run(validators[s.tag], s).Some?
  }

  /** The validation errors of the registered segments, in message order. */
  function ValidatorErrors(validators: map<string, Validator>, segments: seq<Segment>): seq<string>
  {
    if |segments| == 0 then []
    else
      var n := |segments| - 1;
      var s := segments[n];
      ValidatorErrors(validators, segments[..n])
      + (if Fails(validators, s) then [s.tag + ": " + Run(validators[s.tag], s).value] else [])
  }

  /** The information of the registered segments, keyed by tag; a later
      segment replaces an earlier one with the same tag. */
  function ServiceSegsOf(validators: map<string, Validator>, segments: seq<Segment>, now: int): map<string, ServiceSegmentInfo>
  {
    if |segments| == 0 then map[]
    else
      var n := |segments| - 1;
      var s := segments[n];
      var before := ServiceSegsOf(validators, segments[..n], now);
      if s.tag in validators then before[s.tag := ExtractServiceSegmentInfo(s, now)] else before
  }

  /** The reference of the last header and of the last trailer that have one. */
  function LastReference(segments: seq<Segment>, tag: string, index: nat): string
  {
    if |segments| == 0 then ""
    else
      var n := |segments| - 1;
      if segments[n].tag == tag && |segments[n].elements| > index then segments[n].elements[index]
      else LastReference(segments[..n], tag, index)
  }

  function EnvelopeErrors(m: Message): seq<string>
  {
    var unhRef := LastReference(m.segments, "UNH", 0);
    var untRef := LastReference(m.segments, "UNT", 1);
    if unhRef != "" && untRef != "" && unhRef != untRef then
      ["Reference number mismatch: UNH=" + unhRef + ", UNT=" + untRef]
    else []
  }

  /** A warning when the recorded trailer's count differs from the number of
      segments other than header and trailer. */
  function EnvelopeWarnings(m: Message, serviceSegs: map<string, ServiceSegmentInfo>): seq<string>
  {
    if "UNT" in serviceSegs then
      var expectedCount := |m.segments| - 2;
      if serviceSegs["UNT"].segmentCount != IntToString(expectedCount) then
        ["Segment count mismatch: expected " + IntToString(expectedCount) + ", found " + serviceSegs["UNT"].segmentCount]
      else []
    else []
  }

  datatype InterchangeInfo = InterchangeInfo(
    senderID: string,
    receiverID: string,
    date: string,
    time: string,
    refNumber: string,
    messageType: string)

  /** One segment's contribution to the interchange summary: each field is
      overwritten by every later segment that carries it. */
  function InterchangeStep(info: InterchangeInfo, s: Segment): InterchangeInfo
  {
    var e := s.elements;
    var afterUNB :=
      if s.tag == "UNB" then
        var i1 := if |e| >= 3 then info.(senderID := e[2]) else info;
        var i2 := if |e| >= 4 then i1.(receiverID := e[3]) else i1;
        var i3 :=
          if |e| >= 5 && |Split(e[4], ':')| >= 2 then
            i2.(date := Split(e[4], ':')[0], time := Split(e[4], ':')[1])
          else i2;
        if |e| >= 6 then i3.(refNumber := e[5]) else i3
      else info;
    if s.tag == "UNH" && |e| >= 2 then afterUNB.(messageType := Split(e[1], ':')[0]) else afterUNB
  }

  function InterchangeOf(segments: seq<Segment>): InterchangeInfo
  {
    if |segments| == 0 then InterchangeInfo("", "", "", "", "", "")
    else InterchangeStep(InterchangeOf(segments[..|segments| - 1]), segments[|segments| - 1])
  }

  class ServiceSegmentResult {
    var messageType: string
    var valid: bool
    var errors: seq<string>
    var warnings: seq<string>
    var serviceSegs: map<string, ServiceSegmentInfo>

    ghost predicate Valid()
      reads this
    {
      valid <==> errors == []
    }

    constructor (messageType: string)
      ensures Valid() && this.messageType == messageType
      ensures valid && errors == [] && warnings == [] && serviceSegs == map[]
    {
      this.messageType := messageType;
      valid := true;
      errors := [];
      warnings := [];
      serviceSegs := map[];
    }
  }

  class ServiceSegmentHandler {
    const validators: map<string, Validator>

    constructor ()
      ensures validators == Registry
    {
      validators := Registry;
    }

    /** Validates and records every registered segment, checks the envelope,
        and returns the interchange summary that the source stores into the
        message. */
    method ProcessMessage(message: Message, now: int) returns (result: ServiceSegmentResult, interchange: InterchangeInfo)
      ensures fresh(result) && result.Valid()
      ensures result.messageType == message.messageType
      ensures result.serviceSegs == ServiceSegsOf(validators, message.segments, now)
      ensures result.errors == ValidatorErrors(validators, message.segments) + EnvelopeErrors(message)
      ensures result.warnings == EnvelopeWarnings(message, result.serviceSegs)
      ensures interchange == InterchangeOf(message.segments)
    {
      result := new ServiceSegmentResult(message.messageType);
      var segments := message.segments;
      var i := 0;
      while i < |segments|
        invariant 0 <= i <= |segments|
        invariant result.Valid() && result.messageType == message.messageType && result.warnings == []
        invariant result.errors == ValidatorErrors(validators, segments[..i])
        invariant result.serviceSegs == ServiceSegsOf(validators, segments[..i], now)
      {
        RecordStep(validators, segments, i, now);
        var segment := segments[i];
        if segment.tag in validators {
          var err := Run(validators[segment.tag], segment);
          if err.Some? {
            result.valid := false;
            result.errors := result.errors + [segment.tag + ": " + err.value];
          }
          var info := ExtractServiceSegmentInfo(segment, now);
          result.serviceSegs := result.serviceSegs[segment.tag := info];
        }
        i := i + 1;
      }
      assert segments[..i] == segments;
      ValidateMessageEnvelope(message, result);
      interchange := ExtractInterchangeInfo(message);
    }

    method ValidateMessageEnvelope(message: Message, result: ServiceSegmentResult)
      requires result.Valid()
      modifies result
      ensures result.Valid() && result.messageType == old(result.messageType)
      ensures result.serviceSegs == old(result.serviceSegs)
      ensures result.errors == old(result.errors) + EnvelopeErrors(message)
      ensures result.warnings == old(result.warnings) + EnvelopeWarnings(message, result.serviceSegs)
    {
      var segments := message.segments;
      var unhRef, untRef := "", "";
      var i := 0;
      while i < |segments|
        invariant 0 <= i <= |segments|
        invariant unhRef == LastReference(segments[..i], "UNH", 0)
        invariant untRef == LastReference(segments[..i], "UNT", 1)
      {
        assert segments[..i + 1][..i] == segments[..i];
        if segments[i].tag == "UNH" && |segments[i].elements| > 0 {
          unhRef := segments[i].elements[0];
        }
        if segments[i].tag == "UNT" && |segments[i].elements| > 1 {
          untRef := segments[i].elements[1];
        }
        i := i + 1;
      }
      assert segments[..i] == segments;
      if unhRef != "" && untRef != "" && unhRef != untRef {
        result.valid := false;
        result.errors := result.errors + ["Reference number mismatch: UNH=" + unhRef + ", UNT=" + untRef];
      }
      if "UNT" in result.serviceSegs {
        var expectedCount := |segments| - 2;
        if result.serviceSegs["UNT"].segmentCount != IntToString(expectedCount) {
          result.warnings := result.warnings + ["Segment count mismatch: expected " + IntToString(expectedCount)
                                                + ", found " + result.serviceSegs["UNT"].segmentCount];
        }
      }
    }

    method ExtractInterchangeInfo(message: Message) returns (info: InterchangeInfo)
      ensures info == InterchangeOf(message.segments)
    {
      var segments := message.segments;
      info := InterchangeInfo("", "", "", "", "", "");
      var i := 0;
      while i < |segments|
        invariant 0 <= i <= |segments|
        invariant info == InterchangeOf(segments[..i])
      {
        assert segments[..i + 1][..i] == segments[..i];
        var e := segments[i].elements;
        if segments[i].tag == "UNB" {
          if |e| >= 3 {
            info := info.(senderID := e[2]);
          }
          if |e| >= 4 {
            info := info.(receiverID := e[3]);
          }
          if |e| >= 5 {
            var parts := Split(e[4], ':');
            if |parts| >= 2 {
              info := info.(date := parts[0], time := parts[1]);
            }
          }
          if |e| >= 6 {
            info := info.(refNumber := e[5]);
          }
        }
        if segments[i].tag == "UNH" && |e| >= 2 {
          var msgTypeParts := Split(e[1], ':');
          info := info.(messageType := msgTypeParts[0]);
        }
        i := i + 1;
      }
      assert segments[..i] == segments;
    }
  }

  lemma RecordStep(validators: map<string, Validator>, segments: seq<Segment>, i: nat, now: int)
    requires i < |segments|
    ensures var s := segments[i];
      && ValidatorErrors(validators, segments[..i + 1]) == ValidatorErrors(validators, segments[..i])
           + (if Fails(validators, s) then [s.tag + ": " + Run(validators[s.tag], s).value] else [])
      && ServiceSegsOf(validators, segments[..i + 1], now) ==
           if s.tag in validators then ServiceSegsOf(validators, segments[..i], now)[s.tag := ExtractServiceSegmentInfo(s, now)]
           else ServiceSegsOf(validators, segments[..i], now)
  {
    assert segments[..i + 1][..i] == segments[..i];
  }

  // Properties

  /** The header check accepts exactly a header whose message identifier has
      type, version, release and agency, with release and version present. */
  lemma HeaderAccepted(s: Segment)
    ensures ValidateUNH(s) == None <==>
      |s.elements| >= 2 && |Split(s.elements[1], ':')| >= 4
      && Split(s.elements[1], ':')[2] != "" && Split(s.elements[1], ':')[3] != ""
  {
  }

  /** The trailer-shaped checks accept exactly two or more elements whose first
      two are non-empty. */
  lemma PairAccepted(s: Segment)
    ensures ValidateUNT(s) == None <==> |s.elements| >= 2 && s.elements[0] != "" && s.elements[1] != ""
    ensures ValidateUNZ(s) == None <==> ValidateUNT(s) == None
    ensures ValidateUNE(s) == None <==> ValidateUNT(s) == None
  {
  }

  /** The interchange header check accepts exactly five or more elements with
      syntax identifier, sender, recipient and date/time present, and the
      control reference present when given. */
  lemma InterchangeHeaderAccepted(s: Segment)
    ensures ValidateUNB(s) == None <==>
      var e := s.elements;
      |e| >= 5 && e[0] != "" && e[2] != "" && e[3] != "" && e[4] != "" && (|e| >= 6 ==> e[5] != "")
  {
  }

  /** The group header check accepts exactly four or more elements with
      group ID, sender and recipient present. */
  lemma GroupHeaderAccepted(s: Segment)
    ensures ValidateUNG(s) == None <==>
      var e := s.elements;
      |e| >= 4 && e[0] != "" && e[2] != "" && e[3] != ""
  {
  }

  /** What a segment that passes its check carries: a header names its
      reference, release and version, a trailer its count and reference, an
      interchange header its sender, recipient, date/time and syntax. Every
      record keeps the segment's tag, elements and position. */
  lemma AcceptedInfoPresent(s: Segment, now: int)
    ensures var info := ExtractServiceSegmentInfo(s, now);
      && info.tag == s.tag && info.elements == s.elements && info.position == s.position
      && (s.tag == "UNH" && ValidateUNH(s) == None ==> info.release != "" && info.version != "")
      && (s.tag == "UNT" && ValidateUNT(s) == None ==> info.segmentCount != "" && info.referenceNumber != "")
      && (s.tag == "UNB" && ValidateUNB(s) == None ==>
            info.syntaxIdentifier != "" && info.senderID != "" && info.receiverID != "" && info.dateTime != "")
      && (s.tag == "UNZ" && ValidateUNZ(s) == None ==> info.messageCount != "" && info.controlReference != "")
  {
  }

  /** A tag is recorded exactly when it is registered and occurs, and its
      record comes from its last occurrence. */
  lemma {:induction false} ServiceSegsLastWins(validators: map<string, Validator>, segments: seq<Segment>, now: int, k: nat)
    requires k < |segments| && segments[k].tag in validators
    requires forall j :: k < j < |segments| ==> segments[j].tag != segments[k].tag
    ensures segments[k].tag in ServiceSegsOf(validators, segments, now)
    ensures ServiceSegsOf(validators, segments, now)[segments[k].tag] == ExtractServiceSegmentInfo(segments[k], now)
  {
    var n := |segments| - 1;
    if k < n {
      ServiceSegsLastWins(validators, segments[..n], now, k);
    }
  }

  /** Only registered tags that occur in the message are recorded. */
  lemma {:induction false} ServiceSegsKeys(validators: map<string, Validator>, segments: seq<Segment>, now: int)
    ensures forall t :: t in ServiceSegsOf(validators, segments, now) ==>
      t in validators && exists k :: 0 <= k < |segments| && segments[k].tag == t
  {
    if |segments| > 0 {
      var n := |segments| - 1;
      ServiceSegsKeys(validators, segments[..n], now);
      forall t | t in ServiceSegsOf(validators, segments, now)
        ensures exists k :: 0 <= k < |segments| && segments[k].tag == t
      {
        if t != segments[n].tag {
          var k :| 0 <= k < n && segments[..n][k].tag == t;
          assert segments[k].tag == t;
        }
      }
    }
  }

  /** One error per registered segment that fails its check. */
  lemma {:induction false} ValidatorErrorsCount(validators: map<string, Validator>, segments: seq<Segment>)
    ensures |ValidatorErrors(validators, segments)| == |set k | 0 <= k < |segments| && Fails(validators, segments[k])|
  {
    var failing := set k | 0 <= k < |segments| && Fails(validators, segments[k]);
    if |segments| > 0 {
      var n := |segments| - 1;
      var front := segments[..n];
      ValidatorErrorsCount(validators, front);
      var before := set k | 0 <= k < n && Fails(validators, front[k]);
      assert before == set k | 0 <= k < n && Fails(validators, segments[k]);
      var added := if Fails(validators, segments[n]) then {n} else {};
      forall k | k in failing
        ensures k in before + added
      {
        if k < n {
          assert front[k] == segments[k];
        }
      }
      assert failing == before + added;
    } else {
      assert failing == {};
    }
  }

  /** A trailer whose count is the number of segments other than header and
      trailer draws no warning. */
  lemma CountedTrailerNoWarning(m: Message, serviceSegs: map<string, ServiceSegmentInfo>)
    requires "UNT" in serviceSegs ==> serviceSegs["UNT"].segmentCount == IntToString(|m.segments| - 2)
    ensures EnvelopeWarnings(m, serviceSegs) == []
  {
  }

  /** The interchange summary names the same message type as the message
      reader. */
  lemma {:induction false} InterchangeTypeAgrees(segments: seq<Segment>)
    ensures InterchangeOf(segments).messageType == FlatMessage.MessageTypeOf(segments)
  {
    if |segments| > 0 {
      InterchangeTypeAgrees(segments[..|segments| - 1]);
    }
  }

  /** Segments that are not interchange headers leave sender, recipient,
      date, time and reference unchanged. */
  lemma {:induction false} InterchangeHeaderFieldsKept(prefix: seq<Segment>, rest: seq<Segment>)
    requires forall j :: 0 <= j < |rest| ==> rest[j].tag != "UNB"
    ensures var a := InterchangeOf(prefix); var b := InterchangeOf(prefix + rest);
      a.senderID == b.senderID && a.receiverID == b.receiverID && a.date == b.date
      && a.time == b.time && a.refNumber == b.refNumber
  {
    if |rest| > 0 {
      var n := |rest| - 1;
      InterchangeHeaderFieldsKept(prefix, rest[..n]);
      assert (prefix + rest)[..|prefix + rest| - 1] == prefix + rest[..n];
    } else {
      assert prefix + rest == prefix;
    }
  }

  /** With a complete interchange header and no later one, the summary's
      sender, recipient, date, time and reference come from that header. */
  lemma InterchangeFromLastHeader(segments: seq<Segment>, k: nat)
    requires k < |segments| && segments[k].tag == "UNB"
    requires |segments[k].elements| >= 6 && |Split(segments[k].elements[4], ':')| >= 2
    requires forall j :: k < j < |segments| ==> segments[j].tag != "UNB"
    ensures var info := InterchangeOf(segments); var e := segments[k].elements;
      && info.senderID == e[2] && info.receiverID == e[3]
      && info.date == Split(e[4], ':')[0] && info.time == Split(e[4], ':')[1]
      && info.refNumber == e[5]
  {
    var prefix := segments[..k + 1];
    var rest := segments[k + 1..];
    assert prefix + rest == segments;
    assert prefix[..k] == segments[..k];
    InterchangeHeaderFieldsKept(prefix, rest);
  }
}
