/** Invoice/order extraction, the transformer registry, the rule-based
    validator and the validate-then-transform pipeline. */
module Transform {
  import opened Strings
  import opened Wrappers
  import FlatMessage

  type Segment = FlatMessage.Segment
  type Message = FlatMessage.Message

  // Extraction

  datatype LineItem = LineItem(productCode: string, quantity: string, unitPrice: string)

  /** Invoice data and order data share this shape: a number, a date and
      line items. */
  datatype Document = Document(number: string, date: string, items: seq<LineItem>)

  /** The second component of a segment's first element, if it has one
      (the 100 of QTY+12:100:PCE). */
  function SecondComponent(s: Segment): Option<string>
  {
    if |s.elements| > 0 && |Split(s.elements[0], ':')| > 1 then Some(Split(s.elements[0], ':')[1]) else None
  }

  /** What one segment does to the document being extracted. */
  function ExtractStep(doc: Document, s: Segment): Document
  {
    var n := |doc.items|;
    if s.tag == "BGM" then
      if |s.elements| > 1 then doc.(number := s.elements[1]) else doc
    else if s.tag == "DTM" then
      if SecondComponent(s).Some? then doc.(date := SecondComponent(s).value) else doc
    else if s.tag == "LIN" then
      if |s.elements| > 2 then doc.(items := doc.items + [LineItem(Split(s.elements[2], ':')[0], "", "")]) else doc
    else if s.tag == "QTY" then
      if SecondComponent(s).Some? && n > 0 then
        doc.(items := doc.items[n - 1 := doc.items[n - 1].(quantity := SecondComponent(s).value)])
      else doc
    else if s.tag == "PRI" then
      if SecondComponent(s).Some? && n > 0 then
        doc.(items := doc.items[n - 1 := doc.items[n - 1].(unitPrice := SecondComponent(s).value)])
      else doc
    else doc
  }

  function DocumentOf(segments: seq<Segment>): Document
  {
    if |segments| == 0 then Document("", "", [])
    else ExtractStep(DocumentOf(segments[..|segments| - 1]), segments[|segments| - 1])
  }

  /** The invoice and order extractors are the same scan. */
  method ExtractData(message: Message) returns (doc: Document)
    ensures doc == DocumentOf(message.segments)
  {
    var segments := message.segments;
    doc := Document("", "", []);
    var i := 0;
    while i < |segments|
      invariant 0 <= i <= |segments|
      invariant doc == DocumentOf(segments[..i])
    {
      assert segments[..i + 1][..i] == segments[..i];
      var segment := segments[i];
      if segment.tag == "BGM" {
        if |segment.elements| > 1 {
          doc := doc.(number := segment.elements[1]);
        }
      } else if segment.tag == "DTM" {
        if |segment.elements| > 0 {
          var parts := Split(segment.elements[0], ':');
          if |parts| > 1 {
            doc := doc.(date := parts[1]);
          }
        }
      } else if segment.tag == "LIN" {
        if |segment.elements| > 2 {
          var parts := Split(segment.elements[2], ':');
          doc := doc.(items := doc.items + [LineItem(parts[0], "", "")]);
        }
      } else if segment.tag == "QTY" {
        if |segment.elements| > 0 {
          var parts := Split(segment.elements[0], ':');
          if |parts| > 1 && |doc.items| > 0 {
            var last := |doc.items| - 1;
            doc := doc.(items := doc.items[last := doc.items[last].(quantity := parts[1])]);
          }
        }
      } else if segment.tag == "PRI" {
        if |segment.elements| > 0 {
          var parts := Split(segment.elements[0], ':');
          if |parts| > 1 && |doc.items| > 0 {
            var last := |doc.items| - 1;
            doc := doc.(items := doc.items[last := doc.items[last].(unitPrice := parts[1])]);
          }
        }
      }
      i := i + 1;
    }
    assert segments[..i] == segments;
  }

  predicate IsItemLine(s: Segment)
  {
    s.tag == "LIN" && |s.elements| > 2
  }

  /** The product codes of the item lines, in message order. */
  function LineCodes(segments: seq<Segment>): seq<string>
  {
    if |segments| == 0 then []
    else
      var s := segments[|segments| - 1];
      LineCodes(segments[..|segments| - 1]) + (if IsItemLine(s) then [Split(s.elements[2], ':')[0]] else [])
  }

  /** One item per item line, in order, carrying that line's product code. */
  lemma {:induction false} ItemsFollowLines(segments: seq<Segment>)
    ensures |DocumentOf(segments).items| == |LineCodes(segments)|
    ensures forall i :: 0 <= i < |LineCodes(segments)| ==> DocumentOf(segments).items[i].productCode == LineCodes(segments)[i]
  {
    if |segments| > 0 {
      ItemsFollowLines(segments[..|segments| - 1]);
    }
  }

  /** A quantity or price only ever changes the last item, and only its own
      field; before the first item line it changes nothing. */
  lemma QuantityAndPriceTouchLastItem(doc: Document, s: Segment)
    requires s.tag == "QTY" || s.tag == "PRI"
    ensures var r := ExtractStep(doc, s);
      && r.number == doc.number && r.date == doc.date && |r.items| == |doc.items|
      && (|doc.items| > 0 ==>
            r.items[..|doc.items| - 1] == doc.items[..|doc.items| - 1]
            && r.items[|doc.items| - 1].productCode == doc.items[|doc.items| - 1].productCode)
      && (doc.items == [] ==> r == doc)
      && (|doc.items| > 0 && SecondComponent(s).Some? ==>
            if s.tag == "QTY" then r.items[|doc.items| - 1].quantity == SecondComponent(s).value
            else r.items[|doc.items| - 1].unitPrice == SecondComponent(s).value)
  {
  }

  // Transformation

  datatype Transformed = Transformed(originalType: string, newType: string, data: Document, originalNumber: string)

  function OrderFromInvoice(invoice: Document): Document
  {
    Document("PO-" + invoice.number, invoice.date, invoice.items)
  }

  function InvoiceFromOrder(order: Document): Document
  {
    Document("INV-" + order.number, order.date, order.items)
  }

  /** Copies the items one by one into a list of the same length. */
  method CopyItems(items: seq<LineItem>) returns (copied: seq<LineItem>)
    ensures copied == items
  {
    var buffer := new LineItem[|items|](i => LineItem("", "", ""));
    var i := 0;
    while i < |items|
      invariant 0 <= i <= |items|
      invariant buffer[..i] == items[..i]
    {
      buffer[i] := LineItem(items[i].productCode, items[i].quantity, items[i].unitPrice);
      i := i + 1;
    }
    copied := buffer[..];
  }

  method TransformInvoiceToOrder(message: Message) returns (r: Result<Transformed>)
    ensures var invoice := DocumentOf(message.segments);
      r == Success(Transformed("INVOIC", "ORDERS", OrderFromInvoice(invoice), invoice.number))
  {
    var invoice := ExtractData(message);
    var items := CopyItems(invoice.items);
    r := Success(Transformed("INVOIC", "ORDERS", Document("PO-" + invoice.number, invoice.date, items), invoice.number));
  }

  method TransformOrderToInvoice(message: Message) returns (r: Result<Transformed>)
    ensures var order := DocumentOf(message.segments);
      r == Success(Transformed("ORDERS", "INVOIC", InvoiceFromOrder(order), order.number))
  {
    var order := ExtractData(message);
    var items := CopyItems(order.items);
    r := Success(Transformed("ORDERS", "INVOIC", Document("INV-" + order.number, order.date, items), order.number));
  }

  /** The registered transformations: the two built-in ones or a caller's own. */
  datatype TransformFunc = InvoiceToOrder | OrderToInvoice | Custom(f: Message -> Result<Transformed>)

  function Apply(t: TransformFunc, message: Message): Result<Transformed>
  {
    match t
    case InvoiceToOrder =>
      var invoice := DocumentOf(message.segments);
      Success(Transformed("INVOIC", "ORDERS", OrderFromInvoice(invoice), invoice.number))
    case OrderToInvoice =>
      var order := DocumentOf(message.segments);
      Success(Transformed("ORDERS", "INVOIC", InvoiceFromOrder(order), order.number))
    case Custom(f) => f(message)
  }

  function TransformOf(transformers: map<string, TransformFunc>, message: Message): Result<Transformed>
  {
    if message.messageType in transformers then Apply(transformers[message.messageType], message)
    else Failure("no transformer found for message type: " + message.messageType)
  }

  const DefaultTransformers: map<string, TransformFunc> := map["INVOIC" := InvoiceToOrder, "ORDERS" := OrderToInvoice]

  class MessageTransformer {
    var transformers: map<string, TransformFunc>

    constructor()
      ensures transformers == DefaultTransformers
    {
      transformers := map[];
      new;
      transformers := transformers["INVOIC" := InvoiceToOrder];
      transformers := transformers["ORDERS" := OrderToInvoice];
    }

    /** A later registration for the same type replaces the earlier one. */
    method RegisterTransformer(msgType: string, transformer: TransformFunc)
      modifies this
      ensures transformers == old(transformers)[msgType := transformer]
    {
      transformers := transformers[msgType := transformer];
    }

    method Transform(message: Message) returns (r: Result<Transformed>)
      ensures r == TransformOf(transformers, message)
    {
      if message.messageType in transformers {
        var transformer := transformers[message.messageType];
        match transformer
        case InvoiceToOrder => r := TransformInvoiceToOrder(message);
        case OrderToInvoice => r := TransformOrderToInvoice(message);
        case Custom(f) => r := f(message);
      } else {
        r := Failure("no transformer found for message type: " + message.messageType);
      }
    }
  }

  /** An unregistered type fails with the lookup error; a type registered
      with a built-in transformation always succeeds. */
  lemma TransformOutcome(transformers: map<string, TransformFunc>, message: Message)
    ensures message.messageType !in transformers ==>
      TransformOf(transformers, message) == Failure("no transformer found for message type: " + message.messageType)
    ensures message.messageType in transformers && !transformers[message.messageType].Custom? ==>
      TransformOf(transformers, message).Success?
  {
  }

  /** Turning an invoice into an order and back gives the invoice with the
      number prefixed by INV-PO- and the same date and items. */
  lemma OrderInvoiceRoundTrip(invoice: Document)
    ensures InvoiceFromOrder(OrderFromInvoice(invoice)) == invoice.(number := "INV-PO-" + invoice.number)
  {
  }

  // Validation

  datatype RuleCheck = MandatorySegments | SegmentOrder | DataFormats | CustomCheck(f: Message -> Option<string>)

  datatype ValidationRule = ValidationRule(name: string, description: string, check: RuleCheck)

  datatype ValidationError = ValidationError(segment: string, element: string, rule: string, message: string, severity: string)

  datatype ValidationWarning = ValidationWarning(segment: string, element: string, rule: string, message: string)

  datatype ValidationResult = ValidationResult(valid: bool, errors: seq<ValidationError>, warnings: seq<ValidationWarning>)

  const StandardRules: seq<ValidationRule> := [
    ValidationRule("mandatory_segments", "Check for mandatory segments", MandatorySegments),
    ValidationRule("segment_order", "Validate segment order", SegmentOrder),
    ValidationRule("data_format", "Validate data formats", DataFormats)]

  const DefaultRules: map<string, seq<ValidationRule>> := map["INVOIC" := StandardRules, "ORDERS" := StandardRules]

  const RequiredTags: seq<string> := ["UNH", "BGM", "UNT"]

  function TagsOf(segments: seq<Segment>): set<string>
  {
    set k | 0 <= k < |segments| :: segments[k].tag
  }

  /** The first required tag, in the order UNH, BGM, UNT, that no segment
      carries. */
  function FirstMissing(required: seq<string>, found: set<string>): Option<string>
  {
    if |required| == 0 then None
    else if required[0] !in found then Some(required[0])
    else FirstMissing(required[1..], found)
  }

  function MandatoryFailure(segments: seq<Segment>): Option<string>
  {
    match FirstMissing(RequiredTags, TagsOf(segments))
    case None => None
    case Some(tag) => Some("missing mandatory segment: " + tag)
  }

  method ValidateMandatorySegments(message: Message) returns (err: Option<string>)
    ensures err == MandatoryFailure(message.segments)
  {
    var foundSegments: set<string> := {};
    var i := 0;
    while i < |message.segments|
      invariant 0 <= i <= |message.segments|
      invariant foundSegments == TagsOf(message.segments[..i])
    {
      assert message.segments[..i + 1] == message.segments[..i] + [message.segments[i]];
      foundSegments := foundSegments + {message.segments[i].tag};
      i := i + 1;
    }
    assert message.segments[..i] == message.segments;
    var j := 0;
    while j < |RequiredTags|
      invariant 0 <= j <= |RequiredTags|
      invariant FirstMissing(RequiredTags, foundSegments) == FirstMissing(RequiredTags[j..], foundSegments)
    {
      var required := RequiredTags[j];
      if required !in foundSegments {
        err := Some("missing mandatory segment: " + required);
        return;
      }
      assert RequiredTags[j..][1..] == RequiredTags[j + 1..];
      j := j + 1;
    }
    err := None;
  }

  lemma {:induction false} FirstMissingSound(required: seq<string>, found: set<string>)
    ensures FirstMissing(required, found).None? <==> forall k :: 0 <= k < |required| ==> required[k] in found
    ensures FirstMissing(required, found).Some? ==>
      FirstMissing(required, found).value in required && FirstMissing(required, found).value !in found
  {
    if |required| > 0 {
      FirstMissingSound(required[1..], found);
      if required[0] in found && FirstMissing(required, found).None? {
        forall k | 0 <= k < |required|
          ensures required[k] in found
        {
          if k > 0 {
            assert required[k] == required[1..][k - 1];
          }
        }
      }
    }
  }

  /** The check fails exactly when one of UNH, BGM and UNT is carried by no
      segment, and then names a tag that is missing. */
  lemma MandatoryFailsIffMissing(segments: seq<Segment>)
    ensures MandatoryFailure(segments).None? <==> "UNH" in TagsOf(segments) && "BGM" in TagsOf(segments) && "UNT" in TagsOf(segments)
    ensures MandatoryFailure(segments).Some? ==>
      exists tag :: (tag in RequiredTags && tag !in TagsOf(segments) &&
        MandatoryFailure(segments).value == "missing mandatory segment: " + tag)
  {
    FirstMissingSound(RequiredTags, TagsOf(segments));
    if MandatoryFailure(segments).None? {
      assert RequiredTags[0] == "UNH" && RequiredTags[1] == "BGM" && RequiredTags[2] == "UNT";
    }
  }

  /** The first failure among: too short, UNH not first, UNT not last. */
  function OrderFailure(segments: seq<Segment>): Option<string>
  {
    if |segments| < 2 then Some("message too short")
    else if segments[0].tag != "UNH" then Some("UNH must be the first segment")
    else if segments[|segments| - 1].tag != "UNT" then Some("UNT must be the last segment")
    else None
  }

  lemma OrderFailsIffMisplaced(segments: seq<Segment>)
    ensures OrderFailure(segments).None? <==> |segments| >= 2 && segments[0].tag == "UNH" && segments[|segments| - 1].tag == "UNT"
  {
  }

  /** The second component of a DTM segment's first element, when there is one. */
  function DateOf(s: Segment): Option<string>
  {
    if s.tag == "DTM" then SecondComponent(s) else None
  }

  predicate BadDate(s: Segment)
  {
    DateOf(s).Some? && !IsEightDigits(DateOf(s).value)
  }

  /** The first date that is not eight digits. */
  function DateFormatFailure(segments: seq<Segment>): Option<string>
  {
    if |segments| == 0 then None
    else if BadDate(segments[0]) then Some("invalid date format in DTM segment: " + DateOf(segments[0]).value)
    else DateFormatFailure(segments[1..])
  }

  method ValidateDataFormats(message: Message) returns (err: Option<string>)
    ensures err == DateFormatFailure(message.segments)
  {
    var segments := message.segments;
    var i := 0;
    while i < |segments|
      invariant 0 <= i <= |segments|
      invariant DateFormatFailure(segments) == DateFormatFailure(segments[i..])
    {
      var segment := segments[i];
      if segment.tag == "DTM" && |segment.elements| > 0 {
        var parts := Split(segment.elements[0], ':');
        if |parts| > 1 {
          if !IsEightDigits(parts[1]) {
            err := Some("invalid date format in DTM segment: " + parts[1]);
            return;
          }
        }
      }
      assert segments[i..][1..] == segments[i + 1..];
      i := i + 1;
    }
    err := None;
  }

  /** The data-format check passes exactly when every DTM date component is
      eight digits. */
  lemma {:induction false} DateFormatPassesIffAllDates(segments: seq<Segment>)
    ensures DateFormatFailure(segments).None? <==> forall k :: 0 <= k < |segments| ==> !BadDate(segments[k])
  {
    if |segments| > 0 {
      DateFormatPassesIffAllDates(segments[1..]);
      assert forall k :: 1 <= k < |segments| ==> segments[k] == segments[1..][k - 1];
    }
  }

  function RuleFailure(rule: ValidationRule, message: Message): Option<string>
  {
    match rule.check
    case MandatorySegments => MandatoryFailure(message.segments)
    case SegmentOrder => OrderFailure(message.segments)
    case DataFormats => DateFormatFailure(message.segments)
    case CustomCheck(f) => f(message)
  }

  /** One error per failing rule, in rule order. */
  function RuleErrors(rules: seq<ValidationRule>, message: Message): seq<ValidationError>
  {
    if |rules| == 0 then []
    else
      var rule := rules[|rules| - 1];
      RuleErrors(rules[..|rules| - 1], message)
        + match RuleFailure(rule, message)
          case None => []
          case Some(e) => [ValidationError("", "", rule.name, e, "ERROR")]
  }

  function ValidationOf(rules: map<string, seq<ValidationRule>>, message: Message): ValidationResult
  {
    if message.messageType in rules then
      var errors := RuleErrors(rules[message.messageType], message);
      ValidationResult(errors == [], errors, [])
    else ValidationResult(true, [], [])
  }

  method ApplyRule(rule: ValidationRule, message: Message) returns (err: Option<string>)
    ensures err == RuleFailure(rule, message)
  {
    match rule.check
    case MandatorySegments => err := ValidateMandatorySegments(message);
    case SegmentOrder => err := OrderFailure(message.segments);
    case DataFormats => err := ValidateDataFormats(message);
    case CustomCheck(f) => err := f(message);
  }

  class AdvancedValidator {
    var rules: map<string, seq<ValidationRule>>

    constructor()
      ensures rules == DefaultRules
    {
      rules := map[];
      new;
      rules := rules["INVOIC" := StandardRules];
      rules := rules["ORDERS" := StandardRules];
    }

    method Validate(message: Message) returns (result: ValidationResult)
      ensures result == ValidationOf(rules, message)
    {
      result := ValidationResult(true, [], []);
      if message.messageType in rules {
        var typeRules := rules[message.messageType];
        var i := 0;
        while i < |typeRules|
          invariant 0 <= i <= |typeRules|
          invariant result.errors == RuleErrors(typeRules[..i], message)
          invariant result.valid == (result.errors == []) && result.warnings == []
        {
          assert typeRules[..i + 1][..i] == typeRules[..i];
          var rule := typeRules[i];
          var err := ApplyRule(rule, message);
          if err.Some? {
            result := result.(valid := false, errors := result.errors + [ValidationError("", "", rule.name, err.value, "ERROR")]);
          }
          i := i + 1;
        }
        assert typeRules[..i] == typeRules;
      }
    }
  }

  /** Errors name failing rules in rule order, each at most once; a type with
      no rules validates. */
  lemma {:induction false} RuleErrorsFollowRules(rules: seq<ValidationRule>, message: Message)
    ensures |RuleErrors(rules, message)| <= |rules|
    ensures RuleErrors(rules, message) == [] <==> forall k :: 0 <= k < |rules| ==> RuleFailure(rules[k], message).None?
    ensures forall e :: e in RuleErrors(rules, message) ==>
      e.severity == "ERROR" && exists k :: 0 <= k < |rules| && rules[k].name == e.rule && RuleFailure(rules[k], message) == Some(e.message)
  {
    if |rules| > 0 {
      var front := rules[..|rules| - 1];
      RuleErrorsFollowRules(front, message);
      assert forall k :: 0 <= k < |front| ==> rules[k] == front[k];
    }
  }

  lemma UnruledTypeValid(rules: map<string, seq<ValidationRule>>, message: Message)
    requires message.messageType !in rules
    ensures ValidationOf(rules, message) == ValidationResult(true, [], [])
  {
  }

  /** fmt's %v rendering of one validation error: its fields in declaration
      order, separated by spaces, in braces. */
  function ErrorValueText(e: ValidationError): string
  {
    "{" + e.segment + " " + e.element + " " + e.rule + " " + e.message + " " + e.severity + "}"
  }

  function ErrorValueTexts(errors: seq<ValidationError>): (r: seq<string>)
    ensures |r| == |errors|
    ensures forall k :: 0 <= k < |errors| ==> r[k] == ErrorValueText(errors[k])
  {
    seq(|errors|, k requires 0 <= k < |errors| => ErrorValueText(errors[k]))
  }

  /** fmt's %v rendering of a slice of validation errors: the rendered
      errors separated by spaces, in brackets. */
  function ErrorsValueText(errors: seq<ValidationError>): string
  {
    "[" + Join(ErrorValueTexts(errors), ' ') + "]"
  }

  // Integration

  datatype ProcessedMessage = ProcessedMessage(original: Message, transformed: Transformed, validation: ValidationResult)

  function ProcessOf(message: Message): Result<ProcessedMessage>
  {
    var validation := ValidationOf(DefaultRules, message);
    if !validation.valid then Failure("validation failed: " + ErrorsValueText(validation.errors))
    else
      match TransformOf(DefaultTransformers, message)
      case Failure(e) => Failure("transformation failed: " + e)
      case Success(t) => Success(ProcessedMessage(message, t, validation))
  }

  /** Validates with the default rules, then transforms with the default
      transformers; a message failing validation is never transformed. */
  method ProcessMessage(message: Message) returns (r: Result<ProcessedMessage>)
    ensures r == ProcessOf(message)
  {
    var validator := new AdvancedValidator();
    var validationResult := validator.Validate(message);
    if !validationResult.valid {
      return Failure("validation failed: " + ErrorsValueText(validationResult.errors));
    }
    var transformer := new MessageTransformer();
    var transformed := transformer.Transform(message);
    if transformed.Failure? {
      return Failure("transformation failed: " + transformed.error);
    }
    r := Success(ProcessedMessage(message, transformed.value, validationResult));
  }

  /** Processing succeeds exactly for invoices and orders that pass every
      standard rule, and then carries the built-in transformation. */
  lemma ProcessOutcome(message: Message)
    ensures ProcessOf(message).Success? <==>
      (message.messageType == "INVOIC" || message.messageType == "ORDERS")
      && forall k :: 0 <= k < |StandardRules| ==> RuleFailure(StandardRules[k], message).None?
    ensures ProcessOf(message).Success? ==>
      Success(ProcessOf(message).value.transformed) == Apply(DefaultTransformers[message.messageType], message)
  {
    if message.messageType in DefaultRules {
      RuleErrorsFollowRules(StandardRules, message);
    }
  }

  /** A message failing validation is rejected with "validation failed: "
      followed by the rendered error list, which names every error. */
  lemma ValidationFailureText(message: Message)
    requires !ValidationOf(DefaultRules, message).valid
    ensures ProcessOf(message).Failure?
    ensures HasPrefix(ProcessOf(message).error, "validation failed: [")
    ensures forall e :: e in ValidationOf(DefaultRules, message).errors ==>
      Contains(ProcessOf(message).error, ErrorValueText(e))
  {
    var errors := ValidationOf(DefaultRules, message).errors;
    var head := "validation failed: [";
    assert ProcessOf(message).error == head + (Join(ErrorValueTexts(errors), ' ') + "]");
    forall e | e in errors
      ensures Contains(ProcessOf(message).error, ErrorValueText(e))
    {
      var k :| 0 <= k < |errors| && errors[k] == e;
      var texts := ErrorValueTexts(errors);
      JoinContainsEach(texts, ' ', k);
      ContainsBefore(Join(texts, ' '), "]", texts[k]);
      ContainsAfter(head, Join(texts, ' ') + "]", texts[k]);
    }
  }
}
