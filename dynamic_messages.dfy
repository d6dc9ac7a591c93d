/** Generic and dynamic message handling: a parsed message is copied into a
    dynamic structure (segments and elements filled slot by slot), summary
    metadata is extracted from it, and a processor routes dynamic messages
    to handlers registered by type. The production application around it
    keeps messages in a database and hands work to workers through a
    bounded queue. */
module DynamicMessages {
  import opened Wrappers
  import opened Strings
  import GenericModel
  import Integration

  datatype DynamicElement = DynamicElement(value: string, components: seq<string>, isComposite: bool)

  datatype DynamicSegment = DynamicSegment(tag: string, elements: seq<DynamicElement>, position: int)

  /** A metadata value: a count or a text. */
  datatype MetaValue = Count(count: int) | Text(text: string)

  datatype DynamicMessage = DynamicMessage(
    messageType: string,
    segments: seq<DynamicSegment>,
    metadata: map<string, MetaValue>,
    rawData: string)

  // Conversion

  /** A composite element keeps only its components, a simple element only
      its value. */
  function DynamicElementOf(e: GenericModel.Element): (d: DynamicElement)
    ensures d.isComposite == e.isComposite
    ensures e.isComposite ==> d.value == "" && d.components == e.components
    ensures !e.isComposite ==> d.value == e.value && d.components == []
  {
    if e.isComposite then DynamicElement("", e.components, true)
    else DynamicElement(e.value, [], false)
  }

  /** The dynamic copy of a segment's elements, filled slot by slot. */
  method ConvertElements(elements: seq<GenericModel.Element>) returns (converted: seq<DynamicElement>)
    ensures |converted| == |elements|
    ensures forall j :: 0 <= j < |elements| ==> converted[j] == DynamicElementOf(elements[j])
  {
    var slots := new DynamicElement[|elements|];
    for j := 0 to |elements|
      invariant forall k :: 0 <= k < j ==> slots[k] == DynamicElementOf(elements[k])
    {
      var element := elements[j];
      var dynamicElement := DynamicElement("", [], element.isComposite);
      if element.isComposite {
        dynamicElement := dynamicElement.(components := element.components);
      } else {
        dynamicElement := dynamicElement.(value := element.value);
      }
      slots[j] := dynamicElement;
    }
    converted := slots[..];
  }

  /** The dynamic segments are the parsed ones in the same order, with the
      same tags, positions and element counts, each element converted. */
  predicate SegmentsConverted(segments: seq<GenericModel.Segment>, converted: seq<DynamicSegment>)
  {
    && |converted| == |segments|
    && forall i :: 0 <= i < |segments| ==>
      && converted[i].tag == segments[i].tag
      && converted[i].position == segments[i].position
      && |converted[i].elements| == |segments[i].elements|
      && forall j :: 0 <= j < |segments[i].elements| ==>
           converted[i].elements[j] == DynamicElementOf(segments[i].elements[j])
  }

  /** convertToDynamic: the same type, the segments converted in place; no
      metadata yet. */
  method ConvertToDynamic(m: GenericModel.Message) returns (d: DynamicMessage)
    ensures d.messageType == m.messageType && d.metadata == map[] && d.rawData == ""
    ensures SegmentsConverted(m.segments, d.segments)
  {
    var slots := new DynamicSegment[|m.segments|];
    for i := 0 to |m.segments|
      invariant forall k :: 0 <= k < i ==>
        && slots[k].tag == m.segments[k].tag
        && slots[k].position == m.segments[k].position
        && |slots[k].elements| == |m.segments[k].elements|
        && forall j :: 0 <= j < |m.segments[k].elements| ==>
             slots[k].elements[j] == DynamicElementOf(m.segments[k].elements[j])
    {
      var segment := m.segments[i];
      var elements := ConvertElements(segment.elements);
      slots[i] := DynamicSegment(segment.tag, elements, segment.position);
    }
    d := DynamicMessage(m.messageType, slots[..], map[], "");
  }

  // Metadata

  /** The metadata write for one segment: the reference of a UNH with
      elements, the document number of a BGM with at least two. */
  function MetadataStep(metadata: map<string, MetaValue>, s: GenericModel.Segment): map<string, MetaValue>
  {
    if s.tag == "UNH" && |s.elements| > 0 then metadata["message_reference" := Text(s.elements[0].value)]
    else if s.tag == "BGM" && |s.elements| > 1 then metadata["document_number" := Text(s.elements[1].value)]
    else metadata
  }

  function MetadataOver(base: map<string, MetaValue>, segments: seq<GenericModel.Segment>): map<string, MetaValue>
  {
    if |segments| == 0 then base
    else MetadataStep(MetadataOver(base, segments[..|segments| - 1]), segments[|segments| - 1])
  }

  function BaseMetadata(m: GenericModel.Message): map<string, MetaValue>
  {
    map["segment_count" := Count(|m.segments|), "message_type" := Text(m.messageType)]
  }

  function MetadataOf(m: GenericModel.Message): map<string, MetaValue>
  {
    MetadataOver(BaseMetadata(m), m.segments)
  }

  /** extractMetadata. */
  method ExtractMetadata(m: GenericModel.Message) returns (metadata: map<string, MetaValue>)
    ensures metadata == MetadataOf(m)
  {
    metadata := map[];
    metadata := metadata["segment_count" := Count(|m.segments|)];
    metadata := metadata["message_type" := Text(m.messageType)];
    for i := 0 to |m.segments|
      invariant metadata == MetadataOver(BaseMetadata(m), m.segments[..i])
    {
      assert m.segments[..i + 1][..i] == m.segments[..i];
      var segment := m.segments[i];
      if segment.tag == "UNH" {
        if |segment.elements| > 0 {
          metadata := metadata["message_reference" := Text(segment.elements[0].value)];
        }
      } else if segment.tag == "BGM" {
        if |segment.elements| > 1 {
          metadata := metadata["document_number" := Text(segment.elements[1].value)];
        }
      }
    }
    assert m.segments[..|m.segments|] == m.segments;
  }

  predicate IsReference(s: GenericModel.Segment) { s.tag == "UNH" && |s.elements| > 0 }

  predicate IsDocumentNumber(s: GenericModel.Segment) { s.tag == "BGM" && |s.elements| > 1 }

  /** One segment writes at most the reference or the document number. */
  lemma StepKeys(md: map<string, MetaValue>, s: GenericModel.Segment)
    ensures var md' := MetadataStep(md, s);
      && (forall key :: key != "message_reference" && key != "document_number" ==>
            (key in md' <==> key in md) && (key in md ==> md'[key] == md[key]))
      && ("message_reference" in md' <==> "message_reference" in md || IsReference(s))
      && ("document_number" in md' <==> "document_number" in md || IsDocumentNumber(s))
  {
  }

  /** The count and type entries are always present and never overwritten;
      a reference entry exists iff some UNH has elements, a document number
      entry iff some BGM has at least two elements; no other key is set. */
  lemma {:induction false} MetadataKeys(base: map<string, MetaValue>, segments: seq<GenericModel.Segment>)
    ensures var md := MetadataOver(base, segments);
      && (forall key :: key != "message_reference" && key != "document_number" ==>
            (key in md <==> key in base) && (key in base ==> md[key] == base[key]))
      && ("message_reference" in md <==>
            "message_reference" in base || exists k :: 0 <= k < |segments| && IsReference(segments[k]))
      && ("document_number" in md <==>
            "document_number" in base || exists k :: 0 <= k < |segments| && IsDocumentNumber(segments[k]))
  {
    if |segments| > 0 {
      var n := |segments| - 1;
      var front := segments[..n];
      MetadataKeys(base, front);
      StepKeys(MetadataOver(base, front), segments[n]);
      assert forall k :: 0 <= k < n ==> front[k] == segments[k];
      assert (exists k :: 0 <= k < |segments| && IsReference(segments[k])) <==>
        (exists k :: 0 <= k < n && IsReference(front[k])) || IsReference(segments[n]);
      assert (exists k :: 0 <= k < |segments| && IsDocumentNumber(segments[k])) <==>
        (exists k :: 0 <= k < n && IsDocumentNumber(front[k])) || IsDocumentNumber(segments[n]);
    }
  }

  /** The reference comes from the last UNH that has elements. */
  lemma {:induction false} ReferenceFromLastHeader(base: map<string, MetaValue>, segments: seq<GenericModel.Segment>, k: nat)
    requires k < |segments| && IsReference(segments[k])
    requires forall j :: k < j < |segments| ==> !IsReference(segments[j])
    ensures var md := MetadataOver(base, segments);
      "message_reference" in md && md["message_reference"] == Text(segments[k].elements[0].value)
  {
    var n := |segments| - 1;
    if k < n {
      ReferenceFromLastHeader(base, segments[..n], k);
    }
  }

  /** The document number comes from the last BGM with at least two
      elements. */
  lemma {:induction false} NumberFromLastBGM(base: map<string, MetaValue>, segments: seq<GenericModel.Segment>, k: nat)
    requires k < |segments| && IsDocumentNumber(segments[k])
    requires forall j :: k < j < |segments| ==> !IsDocumentNumber(segments[j])
    ensures var md := MetadataOver(base, segments);
      "document_number" in md && md["document_number"] == Text(segments[k].elements[1].value)
  {
    var n := |segments| - 1;
    if k < n {
      NumberFromLastBGM(base, segments[..n], k);
    }
  }

  /** The metadata of a message counts its segments and names its type. */
  lemma MetadataCountsAndType(m: GenericModel.Message)
    ensures "segment_count" in MetadataOf(m) && MetadataOf(m)["segment_count"] == Count(|m.segments|)
    ensures "message_type" in MetadataOf(m) && MetadataOf(m)["message_type"] == Text(m.messageType)
  {
    MetadataKeys(BaseMetadata(m), m.segments);
  }

  /** GenericHandler.Handle, given what the library's generic handler
      returned for the raw data: its error is passed through; otherwise the
      result is the converted message, with its type and every segment
      converted, carrying the metadata and the raw data. */
  method HandleGeneric(data: string, parsed: Result<GenericModel.Message>) returns (r: Result<DynamicMessage>)
    ensures parsed.Failure? ==> r == Failure(parsed.error)
    ensures parsed.Success? ==>
      && r.Success?
      && r.value.messageType == parsed.value.messageType
      && SegmentsConverted(parsed.value.segments, r.value.segments)
      && r.value.metadata == MetadataOf(parsed.value)
      && r.value.rawData == data
  {
    if parsed.Failure? {
      return Failure(parsed.error);
    }
    var dynamicMessage := ConvertToDynamic(parsed.value);
    var metadata := ExtractMetadata(parsed.value);
    dynamicMessage := dynamicMessage.(metadata := metadata, rawData := data);
    r := Success(dynamicMessage);
  }

  /** GenericHandler.CanHandle accepts every type. */
  predicate GenericCanHandle(messageType: string) { true }

  // Dynamic processor

  class DynamicProcessor {
    var handlers: map<string, DynamicMessage -> Option<string>>

    constructor()
      ensures handlers == map[]
    {
      handlers := map[];
    }

    /** Registers or replaces the handler for a type. */
    method RegisterHandler(messageType: string, handler: DynamicMessage -> Option<string>)
      modifies this
      ensures handlers == old(handlers)[messageType := handler]
    {
      handlers := handlers[messageType := handler];
    }

    /** The handler registered for exactly this type, else the default one,
        which only reports and succeeds. */
    method Process(message: DynamicMessage) returns (err: Option<string>)
      ensures message.messageType in handlers ==> err == handlers[message.messageType](message)
      ensures message.messageType !in handlers ==> err == None
    {
      if message.messageType in handlers {
        var handler := handlers[message.messageType];
        return handler(message);
      }
      return None;
    }
  }

  /** After registering a handler for a type, messages of that type go to it,
      whatever was registered for the type before. */
  method RegisterThenProcess(processor: DynamicProcessor, handler: DynamicMessage -> Option<string>, message: DynamicMessage)
    returns (err: Option<string>)
    modifies processor
    ensures err == handler(message)
  {
    processor.RegisterHandler(message.messageType, handler);
    err := processor.Process(message);
  }

  // Database and queue

  /** A stored message (the timestamp is left out). */
  datatype EDIMessage = EDIMessage(id: string, messageType: string, status: string)

  /** The store after a series of saves: each save inserts or overwrites by
      identifier. */
  function StoreOf(saves: seq<EDIMessage>): map<string, EDIMessage>
  {
    if |saves| == 0 then map[]
    else StoreOf(saves[..|saves| - 1])[saves[|saves| - 1].id := saves[|saves| - 1]]
  }

  class Database {
    var messages: map<string, EDIMessage>

    constructor()
      ensures messages == map[]
    {
      messages := map[];
    }

    method SaveMessage(message: EDIMessage) returns (err: Option<string>)
      modifies this
      ensures messages == old(messages)[message.id := message] && err == None
    {
      messages := messages[message.id := message];
      err := None;
    }

    method GetMessage(id: string) returns (r: Result<EDIMessage>)
      ensures r == Integration.FindMessage(messages, id)
    {
      if id in messages {
        r := Success(messages[id]);
      } else {
        r := Failure("message " + id + " not found");
      }
    }
  }

  /** After a series of saves, an identifier is found iff it was saved, and
      what is found is the last message saved under it. */
  lemma {:induction false} StoreHoldsLastSave(saves: seq<EDIMessage>, id: string)
    ensures id in StoreOf(saves) <==> exists k :: 0 <= k < |saves| && saves[k].id == id
    ensures forall k :: 0 <= k < |saves| && saves[k].id == id && (forall j :: k < j < |saves| ==> saves[j].id != id) ==>
      StoreOf(saves)[id] == saves[k]
  {
    if |saves| > 0 {
      var n := |saves| - 1;
      StoreHoldsLastSave(saves[..n], id);
      assert forall k :: 0 <= k < n ==> saves[..n][k] == saves[k];
    }
  }

  /** Saving a series of messages into an empty database leaves exactly the
      store those saves describe. */
  method SaveAll(db: Database, saves: seq<EDIMessage>)
    modifies db
    requires db.messages == map[]
    ensures db.messages == StoreOf(saves)
  {
    for i := 0 to |saves|
      invariant db.messages == StoreOf(saves[..i])
    {
      assert saves[..i + 1][..i] == saves[..i];
      var _ := db.SaveMessage(saves[i]);
    }
    assert saves[..|saves|] == saves;
  }

  /** A queued work item (the payload is left out). */
  datatype QueueMessage = QueueMessage(id: string, messageType: string)

  /** The queue is a buffered channel of the configured size, the same
      bounded, non-blocking send as the integration lesson's queue. */
  method NewQueue(size: nat) returns (queue: Integration.MessageQueue<QueueMessage>)
    ensures fresh(queue) && queue.queue == [] && queue.capacity == size
  {
    queue := new Integration.MessageQueue(size);
  }

  /** Worker.processMessage: the work item is stored as processed. */
  method ProcessQueued(db: Database, message: QueueMessage)
    modifies db
    ensures db.messages == old(db.messages)[message.id := EDIMessage(message.id, message.messageType, "PROCESSED")]
  {
    var ediMessage := EDIMessage(message.id, message.messageType, "PROCESSED");
    var _ := db.SaveMessage(ediMessage);
  }
}
