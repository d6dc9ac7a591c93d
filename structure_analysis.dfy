/** Structure analysis of a message against a message type definition:
    mandatory segments, header and trailer placement, and segment groups. */
module StructureAnalysis {
  import opened Strings
  import FlatMessage

  type Segment = FlatMessage.Segment
  type Message = FlatMessage.Message

  datatype GroupDefinition = GroupDefinition(
    name: string,
    triggerSegment: string,
    segments: seq<string>,
    repeatable: bool)

  datatype MessageTypeDefinition = MessageTypeDefinition(
    name: string,
    mandatorySegs: seq<string>,
    optionalSegs: seq<string>,
    segmentGroups: seq<GroupDefinition>,
    segmentOrder: seq<string>)

  /** The segments of one group, in message order, and how many times the
      group occurs. */
  datatype GroupAnalysis = GroupAnalysis(name: string, segments: seq<Segment>, count: int)

  const LineItemGroup := GroupDefinition("Line Item Group", "LIN", ["LIN", "QTY", "PRI"], true)

  function Definition(name: string): MessageTypeDefinition
  {
    MessageTypeDefinition(
      name,
      ["UNH", "BGM", "UNT"],
      ["DTM", "NAD", "LIN", "QTY", "PRI"],
      [LineItemGroup],
      ["UNH", "BGM", "DTM", "NAD", "LIN", "QTY", "PRI", "UNT"])
  }

  /** The registered message types: invoices and purchase orders. */
  function KnownTypes(): map<string, MessageTypeDefinition>
  {
    map["INVOIC" := Definition("INVOIC"), "ORDERS" := Definition("ORDERS")]
  }

  predicate HasTag(segments: seq<Segment>, tag: string)
  {
    exists k :: 0 <= k < |segments| && segments[k].tag == tag
  }

  function MissingMessage(tag: string): string
  {
    "Missing mandatory segment: " + tag
  }

  /** One error per mandatory tag absent from the message, in definition order. */
  function MissingErrors(segments: seq<Segment>, mandatory: seq<string>): seq<string>
  {
    if |mandatory| == 0 then []
    else
      var n := |mandatory| - 1;
      MissingErrors(segments, mandatory[..n]) + (if HasTag(segments, mandatory[n]) then [] else [MissingMessage(mandatory[n])])
  }

  /** "Message too short" alone for fewer than two segments; otherwise one
      error each for a misplaced header and a misplaced trailer. */
  function OrderErrors(segments: seq<Segment>): seq<string>
  {
    if |segments| < 2 then ["Message too short"]
    else
      (if segments[0].tag != "UNH" then ["UNH must be the first segment"] else [])
      + (if segments[|segments| - 1].tag != "UNT" then ["UNT must be the last segment"] else [])
  }

  /** The segments whose tag belongs to the group, in message order. */
  function Members(segments: seq<Segment>, tags: seq<string>): seq<Segment>
  {
    if |segments| == 0 then []
    else
      var n := |segments| - 1;
      Members(segments[..n], tags) + (if segments[n].tag in tags then [segments[n]] else [])
  }

  function CountTag(segments: seq<Segment>, tag: string): nat
  {
    if |segments| == 0 then 0
    else
      var n := |segments| - 1;
      CountTag(segments[..n], tag) + (if segments[n].tag == tag then 1 else 0)
  }

  function GroupOf(segments: seq<Segment>, g: GroupDefinition): GroupAnalysis
  {
    var members := Members(segments, g.segments);
    GroupAnalysis(g.name, members, CountTag(members, g.triggerSegment))
  }

  function GroupsOf(segments: seq<Segment>, groups: seq<GroupDefinition>): (r: seq<GroupAnalysis>)
    ensures |r| == |groups|
  {
    if |groups| == 0 then []
    else
      var n := |groups| - 1;
      GroupsOf(segments, groups[..n]) + [GroupOf(segments, groups[n])]
  }

  /** The errors the analysis reports for a message. */
  function ExpectedErrors(types: map<string, MessageTypeDefinition>, m: Message): seq<string>
  {
    if m.messageType !in types then ["Unknown message type: " + m.messageType]
    else MissingErrors(m.segments, types[m.messageType].mandatorySegs) + OrderErrors(m.segments)
  }

  function ExpectedGroups(types: map<string, MessageTypeDefinition>, m: Message): seq<GroupAnalysis>
  {
    if m.messageType !in types then [] else GroupsOf(m.segments, types[m.messageType].segmentGroups)
  }

  class MessageAnalysis {
    var messageType: string
    var valid: bool
    var errors: seq<string>
    var warnings: seq<string>
    var segmentCount: int
    var groups: seq<GroupAnalysis>

    /** An analysis is valid exactly when it has reported no error. */
    ghost predicate Valid()
      reads this
    {
      valid <==> errors == []
    }

    constructor (messageType: string)
      ensures Valid()
      ensures this.messageType == messageType && valid && errors == [] && warnings == []
      ensures segmentCount == 0 && groups == []
    {
      this.messageType := messageType;
      valid := true;
      errors := [];
      warnings := [];
      segmentCount := 0;
      groups := [];
    }

    method Report(error: string)
      requires Valid()
      modifies this
      ensures Valid() && !valid && errors == old(errors) + [error]
      ensures messageType == old(messageType) && warnings == old(warnings)
      ensures segmentCount == old(segmentCount) && groups == old(groups)
    {
      valid := false;
      errors := errors + [error];
    }
  }

  class MessageAnalyzer {
    const messageTypes: map<string, MessageTypeDefinition>

    constructor ()
      ensures messageTypes == KnownTypes()
    {
      messageTypes := KnownTypes();
    }

    method AnalyzeMessage(message: Message) returns (analysis: MessageAnalysis)
      ensures fresh(analysis) && analysis.Valid()
      ensures analysis.messageType == message.messageType
      ensures analysis.errors == ExpectedErrors(messageTypes, message)
      ensures analysis.warnings == []
      ensures analysis.groups == ExpectedGroups(messageTypes, message)
      ensures analysis.segmentCount == if message.messageType in messageTypes then |message.segments| else 0
    {
      analysis := new MessageAnalysis(message.messageType);
      if message.messageType !in messageTypes {
        analysis.Report("Unknown message type: " + message.messageType);
        return;
      }
      var definition := messageTypes[message.messageType];
      ValidateMandatorySegments(message, definition, analysis);
      ValidateSegmentOrder(message, definition, analysis);
      AnalyzeSegmentGroups(message, definition, analysis);
      analysis.segmentCount := |message.segments|;
    }

    method ValidateMandatorySegments(message: Message, definition: MessageTypeDefinition, analysis: MessageAnalysis)
      requires analysis.Valid()
      modifies analysis
      ensures analysis.Valid()
      ensures analysis.errors == old(analysis.errors) + MissingErrors(message.segments, definition.mandatorySegs)
      ensures analysis.messageType == old(analysis.messageType) && analysis.warnings == old(analysis.warnings)
      ensures analysis.segmentCount == old(analysis.segmentCount) && analysis.groups == old(analysis.groups)
    {
      var segments := message.segments;
      var found: map<string, bool> := map[];
      var i := 0;
      while i < |segments|
        invariant 0 <= i <= |segments|
        invariant forall t :: (t in found && found[t]) <==> HasTag(segments[..i], t)
      {
        found := found[segments[i].tag := true];
        assert forall t :: HasTag(segments[..i + 1], t) <==> HasTag(segments[..i], t) || segments[i].tag == t by {
          forall t ensures HasTag(segments[..i + 1], t) <==> HasTag(segments[..i], t) || segments[i].tag == t {
            if HasTag(segments[..i + 1], t) {
              var k :| 0 <= k < i + 1 && segments[..i + 1][k].tag == t;
              if k < i { assert segments[..i][k].tag == t; }
            }
            if HasTag(segments[..i], t) {
              var k :| 0 <= k < i && segments[..i][k].tag == t;
              assert segments[..i + 1][k].tag == t;
            }
            if segments[i].tag == t {
              assert segments[..i + 1][i].tag == t;
            }
          }
        }
        i := i + 1;
      }
      assert segments[..i] == segments;
      var mandatory := definition.mandatorySegs;
      var j := 0;
      while j < |mandatory|
        invariant 0 <= j <= |mandatory|
        invariant analysis.Valid()
        invariant analysis.errors == old(analysis.errors) + MissingErrors(segments, mandatory[..j])
        invariant analysis.messageType == old(analysis.messageType) && analysis.warnings == old(analysis.warnings)
        invariant analysis.segmentCount == old(analysis.segmentCount) && analysis.groups == old(analysis.groups)
      {
        assert mandatory[..j + 1][..j] == mandatory[..j];
        if !(mandatory[j] in found && found[mandatory[j]]) {
          analysis.Report(MissingMessage(mandatory[j]));
        }
        j := j + 1;
      }
      assert mandatory[..j] == mandatory;
    }

    method ValidateSegmentOrder(message: Message, definition: MessageTypeDefinition, analysis: MessageAnalysis)
      requires analysis.Valid()
      modifies analysis
      ensures analysis.Valid()
      ensures analysis.errors == old(analysis.errors) + OrderErrors(message.segments)
      ensures analysis.messageType == old(analysis.messageType) && analysis.warnings == old(analysis.warnings)
      ensures analysis.segmentCount == old(analysis.segmentCount) && analysis.groups == old(analysis.groups)
    {
      var segments := message.segments;
      if |segments| < 2 {
        analysis.Report("Message too short");
        return;
      }
      if segments[0].tag != "UNH" {
        analysis.Report("UNH must be the first segment");
      }
      if segments[|segments| - 1].tag != "UNT" {
        analysis.Report("UNT must be the last segment");
      }
    }

    method AnalyzeSegmentGroups(message: Message, definition: MessageTypeDefinition, analysis: MessageAnalysis)
      modifies analysis
      ensures analysis.groups == old(analysis.groups) + GroupsOf(message.segments, definition.segmentGroups)
      ensures analysis.messageType == old(analysis.messageType) && analysis.warnings == old(analysis.warnings)
      ensures analysis.segmentCount == old(analysis.segmentCount)
      ensures analysis.valid == old(analysis.valid) && analysis.errors == old(analysis.errors)
    {
      var segments := message.segments;
      var groupDefs := definition.segmentGroups;
      var g := 0;
      while g < |groupDefs|
        invariant 0 <= g <= |groupDefs|
        invariant analysis.groups == old(analysis.groups) + GroupsOf(segments, groupDefs[..g])
        invariant analysis.messageType == old(analysis.messageType) && analysis.warnings == old(analysis.warnings)
        invariant analysis.segmentCount == old(analysis.segmentCount)
        invariant analysis.valid == old(analysis.valid) && analysis.errors == old(analysis.errors)
      {
        var groupDef := groupDefs[g];
        var members := GroupMembers(segments, groupDef.segments);
        var triggerCount := CountTrigger(members, groupDef.triggerSegment);
        analysis.groups := analysis.groups + [GroupAnalysis(groupDef.name, members, triggerCount)];
        assert groupDefs[..g + 1][..g] == groupDefs[..g];
        g := g + 1;
      }
      assert groupDefs[..g] == groupDefs;
    }
  }

  /** The members of one group: the segments whose tag the group lists, in
      message order. */
  method GroupMembers(segments: seq<Segment>, tags: seq<string>) returns (members: seq<Segment>)
    ensures members == Members(segments, tags)
  {
    members := [];
    var i := 0;
    while i < |segments|
      invariant 0 <= i <= |segments|
      invariant members == Members(segments[..i], tags)
    {
      assert segments[..i + 1][..i] == segments[..i];
      var k := 0;
      while k < |tags|
        invariant 0 <= k <= |tags|
        invariant segments[i].tag !in tags[..k]
      {
        if segments[i].tag == tags[k] {
          break;
        }
        assert tags[..k + 1] == tags[..k] + [tags[k]];
        k := k + 1;
      }
      if k < |tags| {
        members := members + [segments[i]];
      } else {
        assert tags[..k] == tags;
      }
      i := i + 1;
    }
    assert segments[..i] == segments;
  }

  /** The number of members that carry the group's trigger tag. */
  method CountTrigger(members: seq<Segment>, trigger: string) returns (count: nat)
    ensures count == CountTag(members, trigger)
  {
    count := 0;
    var j := 0;
    while j < |members|
      invariant 0 <= j <= |members|
      invariant count == CountTag(members[..j], trigger)
    {
      assert members[..j + 1][..j] == members[..j];
      if members[j].tag == trigger {
        count := count + 1;
      }
      j := j + 1;
    }
    assert members[..j] == members;
  }

  /** A mandatory tag is reported missing exactly when it is absent. */
  lemma {:induction false} MissingErrorsExact(segments: seq<Segment>, mandatory: seq<string>, tag: string)
    ensures MissingMessage(tag) in MissingErrors(segments, mandatory) <==> tag in mandatory && !HasTag(segments, tag)
  {
    if |mandatory| > 0 {
      var n := |mandatory| - 1;
      MissingErrorsExact(segments, mandatory[..n], tag);
      assert mandatory == mandatory[..n] + [mandatory[n]];
      MissingMessageInjective(tag, mandatory[n]);
    }
  }

  lemma MissingMessageInjective(a: string, b: string)
    ensures MissingMessage(a) == MissingMessage(b) ==> a == b
  {
    var p := "Missing mandatory segment: ";
    assert (p + a)[|p|..] == a;
    assert (p + b)[|p|..] == b;
  }

  /** The order check reports nothing exactly when the message has at least
      two segments, opens with the header and closes with the trailer; it
      reports at most two errors. */
  lemma OrderErrorsExact(segments: seq<Segment>)
    ensures |OrderErrors(segments)| <= 2
    ensures OrderErrors(segments) == [] <==>
      |segments| >= 2 && segments[0].tag == "UNH" && segments[|segments| - 1].tag == "UNT"
  {
  }

  /** A segment belongs to a group exactly when its tag is one of the group's
      tags, and members keep message order. */
  lemma {:induction false} MembersExact(segments: seq<Segment>, tags: seq<string>)
    ensures forall s :: s in Members(segments, tags) <==> s in segments && s.tag in tags
  {
    if |segments| > 0 {
      var n := |segments| - 1;
      MembersExact(segments[..n], tags);
      assert segments == segments[..n] + [segments[n]];
    }
  }

  /** Filtering to a group does not change how often the trigger occurs. */
  lemma {:induction false} TriggerCountKept(segments: seq<Segment>, tags: seq<string>, trigger: string)
    requires trigger in tags
    ensures CountTag(Members(segments, tags), trigger) == CountTag(segments, trigger)
  {
    if |segments| > 0 {
      var n := |segments| - 1;
      TriggerCountKept(segments[..n], tags, trigger);
      CountTagAppend(Members(segments[..n], tags), if segments[n].tag in tags then [segments[n]] else [], trigger);
    }
  }

  lemma {:induction false} CountTagAppend(a: seq<Segment>, b: seq<Segment>, tag: string)
    requires |b| <= 1
    ensures CountTag(a + b, tag) == CountTag(a, tag) + CountTag(b, tag)
  {
    if |b| == 1 {
      assert (a + b)[..|a + b| - 1] == a;
      assert b[..0] == [];
    } else {
      assert a + b == a;
    }
  }

  /** For a registered type, the line item group occurs once per LIN segment. */
  lemma LineItemCount(m: Message)
    requires m.messageType in KnownTypes()
    ensures |ExpectedGroups(KnownTypes(), m)| == 1
    ensures ExpectedGroups(KnownTypes(), m)[0].count == CountTag(m.segments, "LIN")
  {
    var groups := [LineItemGroup];
    assert GroupsOf(m.segments, groups) == GroupsOf(m.segments, groups[..0]) + [GroupOf(m.segments, LineItemGroup)];
    TriggerCountKept(m.segments, LineItemGroup.segments, "LIN");
  }

  /** A message of an unregistered type gets exactly one error and no groups. */
  lemma UnknownTypeRejected(m: Message)
    requires m.messageType !in KnownTypes()
    ensures ExpectedErrors(KnownTypes(), m) == ["Unknown message type: " + m.messageType]
    ensures ExpectedGroups(KnownTypes(), m) == []
  {
  }

  /** A registered message with header, body and trailer is structurally valid. */
  lemma WellFormedMessageValid(m: Message)
    requires m.messageType in KnownTypes()
    requires |m.segments| >= 2 && m.segments[0].tag == "UNH" && m.segments[|m.segments| - 1].tag == "UNT"
    requires HasTag(m.segments, "BGM")
    ensures ExpectedErrors(KnownTypes(), m) == []
  {
    var mandatory := ["UNH", "BGM", "UNT"];
    assert KnownTypes()[m.messageType].mandatorySegs == mandatory;
    assert HasTag(m.segments, "UNH");
    assert HasTag(m.segments, "UNT");
    assert MissingErrors(m.segments, mandatory[..1]) == [] by {
      assert mandatory[..1][..0] == [];
    }
    assert MissingErrors(m.segments, mandatory[..2]) == [] by {
      assert mandatory[..2][..1] == mandatory[..1];
    }
    assert MissingErrors(m.segments, mandatory) == [] by {
      assert mandatory[..2] == mandatory[..|mandatory| - 1];
    }
  }
}
