/** Input validation with typed errors: format checks on the raw text,
    required segments, the supported message types, a wrapper that turns
    the first validation failure into a processing error, and the value
    validators for currencies, tax codes and date ranges. */
module FormatValidation {
  import opened Wrappers
  import opened Strings

  datatype ValidationError = ValidationError(field: string, message: string, code: string)

  /** What a processing error wraps: a validation error, or the text of an
      error from the router that processed the message. */
  datatype Cause = ValidationCause(validation: ValidationError) | RouterCause(text: string)

  datatype ProcessingError = ProcessingError(message: string, cause: Option<Cause>)

  function ErrorText(e: ValidationError): string
  {
    "validation error [" + e.code + "]: " + e.field + " - " + e.message
  }

  function CauseText(c: Cause): string
  {
    match c
    case ValidationCause(v) => ErrorText(v)
    case RouterCause(t) => t
  }

  function ProcessingErrorText(e: ProcessingError): string
  {
    match e.cause
    case Some(c) => "processing error: " + e.message + " (caused by: " + CauseText(c) + ")"
    case None => "processing error: " + e.message
  }

  /** The text of a processing error starts with its message and, when it
      has a cause, carries the cause's own text. */
  lemma ProcessingErrorShowsCause(e: ProcessingError)
    ensures HasPrefix(ProcessingErrorText(e), "processing error: " + e.message)
    ensures e.cause.Some? ==> Contains(ProcessingErrorText(e), CauseText(e.cause.value))
    ensures e.cause.None? ==> ProcessingErrorText(e) == "processing error: " + e.message
  {
    var head := "processing error: " + e.message;
    var text := ProcessingErrorText(e);
    if e.cause.Some? {
      var c := CauseText(e.cause.value);
      var k := |head + " (caused by: "|;
      assert text == head + " (caused by: " + c + ")";
      assert text[..|head|] == head;
      assert text[k..k + |c|] == c;
      ContainsAt(text, c, k);
    }
  }

  // The format checks

  /** The white-space bytes that strings.TrimSpace strips. */
  predicate IsSpace(c: char)
  {
    c == ' ' || c == '\t' || c == '\n' || c == '\U{B}' || c == '\U{C}' || c == '\r'
  }

  /** strings.TrimSpace(data) == "". */
  predicate IsBlank(data: string)
  {
    forall i :: 0 <= i < |data| ==> IsSpace(data[i])
  }

  /** validateEDIFACTFormat. */
  function FormatError(data: string): Option<ValidationError>
  {
    if IsBlank(data) then Some(ValidationError("data", "EDIFACT data cannot be empty", "EMPTY_DATA"))
    else if !Contains(data, "'") then Some(ValidationError("format", "Missing segment terminator", "MISSING_TERMINATOR"))
    else if !Contains(data, "+") then Some(ValidationError("format", "Missing element separator", "MISSING_SEPARATOR"))
    else None
  }

  /** The format checks run in order: empty text, then the segment
      terminator, then the element separator; text passing all three has a
      non-space byte, an apostrophe and a plus sign. */
  lemma FormatErrorCases(data: string)
    ensures FormatError(data).None? <==> !IsBlank(data) && '\'' in data && '+' in data
    ensures FormatError(data).Some? && FormatError(data).value.code == "EMPTY_DATA" <==> IsBlank(data)
    ensures FormatError(data).Some? && FormatError(data).value.code == "MISSING_TERMINATOR"
      <==> !IsBlank(data) && '\'' !in data
    ensures FormatError(data).Some? && FormatError(data).value.code == "MISSING_SEPARATOR"
      <==> !IsBlank(data) && '\'' in data && '+' !in data
  {
    ContainsChar(data, '\'');
    ContainsChar(data, '+');
    assert "'" == ['\''];
    assert "+" == ['+'];
  }

  // The required segments

  const RequiredSegments: seq<string> := ["UNH", "UNT"]

  /** The first of `required` that does not occur in the text. */
  function FirstAbsent(data: string, required: seq<string>): Option<string>
  {
    if |required| == 0 then None
    else if !Contains(data, required[0]) then Some(required[0])
    else FirstAbsent(data, required[1..])
  }

  function SegmentsError(data: string): Option<ValidationError>
  {
    match FirstAbsent(data, RequiredSegments)
    case Some(segment) => Some(ValidationError("segments", "Missing required segment: " + segment, "MISSING_SEGMENT"))
    case None => None
  }

  /** validateRequiredSegments. */
  method ValidateRequiredSegments(data: string) returns (err: Option<ValidationError>)
    ensures err == SegmentsError(data)
  {
    var requiredSegments := RequiredSegments;
    var i := 0;
    while i < |requiredSegments|
      invariant 0 <= i <= |requiredSegments|
      invariant FirstAbsent(data, requiredSegments) == FirstAbsent(data, requiredSegments[i..])
    {
      assert requiredSegments[i..][1..] == requiredSegments[i + 1..];
      var segment := requiredSegments[i];
      if !Contains(data, segment) {
        return Some(ValidationError("segments", "Missing required segment: " + segment, "MISSING_SEGMENT"));
      }
      i := i + 1;
    }
    return None;
  }

  /** The segment check passes iff both UNH and UNT occur somewhere in the
      text, and a failure names UNH whenever UNH is absent. */
  lemma SegmentsErrorCases(data: string)
    ensures SegmentsError(data).None? <==> Contains(data, "UNH") && Contains(data, "UNT")
    ensures !Contains(data, "UNH") ==>
      SegmentsError(data) == Some(ValidationError("segments", "Missing required segment: UNH", "MISSING_SEGMENT"))
    ensures Contains(data, "UNH") && !Contains(data, "UNT") ==>
      SegmentsError(data) == Some(ValidationError("segments", "Missing required segment: UNT", "MISSING_SEGMENT"))
  {
    var required := RequiredSegments;
    assert required[0] == "UNH" && required[1..] == ["UNT"];
    assert ["UNT"][1..] == [];
    if Contains(data, "UNH") {
      assert FirstAbsent(data, required) == FirstAbsent(data, ["UNT"]);
      if Contains(data, "UNT") {
        assert FirstAbsent(data, ["UNT"]) == FirstAbsent(data, []);
      }
    }
    assert "Missing required segment: " + "UNH" == "Missing required segment: UNH";
    assert "Missing required segment: " + "UNT" == "Missing required segment: UNT";
  }

  /** Blank text contains no pattern that starts with a non-space byte. */
  lemma {:induction false} BlankContainsNothing(s: string, pattern: string)
    requires IsBlank(s) && |pattern| > 0 && !IsSpace(pattern[0])
    ensures !Contains(s, pattern)
  {
    if |s| > 0 {
      BlankContainsNothing(s[1..], pattern);
      if |pattern| <= |s| {
        assert s[..|pattern|][0] == s[0];
      }
    }
  }

  // The message type

  const SupportedTypes: seq<string> := ["IFTMIN", "INVOIC", "ORDERS"]

  /** validateMessageType, given what the type detector reported. */
  function TypeError(detected: Result<string>): Option<ValidationError>
  {
    match detected
    case Failure(_) => Some(ValidationError("message_type", "Cannot detect message type", "INVALID_MESSAGE_TYPE"))
    case Success(messageType) =>
      if messageType in SupportedTypes then None
      else Some(ValidationError("message_type", "Unsupported message type: " + messageType, "UNSUPPORTED_TYPE"))
  }

  /** The type check passes exactly for a detected IFTMIN, INVOIC or ORDERS,
      and names the detected type when it is not supported. */
  lemma TypeErrorCases(detected: Result<string>)
    ensures TypeError(detected).None? <==>
      detected.Success? && (detected.value == "IFTMIN" || detected.value == "INVOIC" || detected.value == "ORDERS")
    ensures detected.Failure? ==> TypeError(detected).value.code == "INVALID_MESSAGE_TYPE"
    ensures TypeError(detected).Some? && detected.Success? ==>
      TypeError(detected).value.message == "Unsupported message type: " + detected.value
  {
  }

  // All checks together

  function Present(e: Option<ValidationError>): seq<ValidationError>
  {
    if e.Some? then [e.value] else []
  }

  /** The errors of validateMessage: format, segments, type, in that order. */
  function ValidationErrors(data: string, detected: Result<string>): seq<ValidationError>
  {
    Present(FormatError(data)) + Present(SegmentsError(data)) + Present(TypeError(detected))
  }

  /** validateMessage. */
  method ValidateMessage(data: string, detected: Result<string>) returns (errors: seq<ValidationError>)
    ensures errors == ValidationErrors(data, detected)
  {
    errors := [];
    var err := FormatError(data);
    if err.Some? {
      errors := errors + [err.value];
    }
    err := ValidateRequiredSegments(data);
    if err.Some? {
      errors := errors + [err.value];
    }
    err := TypeError(detected);
    if err.Some? {
      errors := errors + [err.value];
    }
  }

  /** At most one error per check; none iff every check passes; the first
      error is the format error if there is one, else the segment error if
      there is one, else the type error. */
  lemma ValidationOrder(data: string, detected: Result<string>)
    ensures var errors := ValidationErrors(data, detected);
      && |errors| <= 3
      && (|errors| == 0 <==> FormatError(data).None? && SegmentsError(data).None? && TypeError(detected).None?)
      && (FormatError(data).Some? ==> errors[0] == FormatError(data).value)
      && (FormatError(data).None? && SegmentsError(data).Some? ==> errors[0] == SegmentsError(data).value)
      && (FormatError(data).None? && SegmentsError(data).None? && TypeError(detected).Some? ==>
            errors == [TypeError(detected).value])
  {
  }

  /** Blank text fails the format check and then also the segment check,
      which names UNH. */
  lemma BlankTextErrors(data: string, detected: Result<string>)
    requires IsBlank(data)
    ensures var errors := ValidationErrors(data, detected);
      && |errors| >= 2
      && errors[0].code == "EMPTY_DATA"
      && errors[1] == ValidationError("segments", "Missing required segment: UNH", "MISSING_SEGMENT")
  {
    BlankContainsNothing(data, "UNH");
    SegmentsErrorCases(data);
  }

  /** processWithErrorHandling, given what the type detector reported and
      what the router returned for the message. Only the first validation
      error is kept, as the cause; the router's result is used only when
      validation passes. */
  method ProcessWithErrorHandling<R>(data: string, detected: Result<string>, routed: Result<R>)
    returns (result: Option<R>, err: Option<ProcessingError>)
    ensures var errors := ValidationErrors(data, detected);
      && (|errors| > 0 ==> result.None? && err == Some(ProcessingError("Validation failed", Some(ValidationCause(errors[0])))))
      && (|errors| == 0 && routed.Failure? ==>
            result.None? && err == Some(ProcessingError("Message processing failed", Some(RouterCause(routed.error)))))
      && (|errors| == 0 && routed.Success? ==> result == Some(routed.value) && err.None?)
  {
    var validationErrors := ValidateMessage(data, detected);
    if |validationErrors| > 0 {
      return None, Some(ProcessingError("Validation failed", Some(ValidationCause(validationErrors[0]))));
    }
    match routed
    case Failure(e) =>
      return None, Some(ProcessingError("Message processing failed", Some(RouterCause(e))));
    case Success(v) =>
      return Some(v), None;
  }

  // Severities

  const SeverityError := 0
  const SeverityWarning := 1
  const SeverityInfo := 2

  /** ValidationSeverity.String. */
  function SeverityName(severity: int): string
  {
    if severity == SeverityError then "ERROR"
    else if severity == SeverityWarning then "WARNING"
    else if severity == SeverityInfo then "INFO"
    else "UNKNOWN"
  }

  /** The three severities have three distinct names, and every other value
      reads UNKNOWN. */
  lemma SeverityNames(a: int, b: int)
    ensures 0 <= a <= 2 && 0 <= b <= 2 && a != b ==> SeverityName(a) != SeverityName(b)
    ensures SeverityName(a) == "UNKNOWN" <==> !(0 <= a <= 2)
  {
  }

  // Value validators

  /** A dynamically typed value: a string, a point in time (nanoseconds),
      or anything else. */
  datatype Value = Text(text: string) | Time(nanos: int) | OtherValue

  /** The validators that check a single value. */
  datatype Validator = CurrencyValidator | TaxCodeValidator

  function Name(v: Validator): string
  {
    match v
    case CurrencyValidator => "CURRENCY_VALIDATOR"
    case TaxCodeValidator => "TAX_CODE_VALIDATOR"
  }

  const AllowedCurrencies: map<string, bool> := map["USD" := true, "EUR" := true, "GBP" := true, "JPY" := true]

  /** A missing key reads as false, as a Go map of booleans does. */
  function Allowed(currency: string): bool
  {
    if currency in AllowedCurrencies then AllowedCurrencies[currency] else false
  }

  function ValidateCurrency(data: Value): Option<string>
  {
    match data
    case Text(currency) =>
      if !Allowed(currency) then Some("currency " + currency + " is not supported") else None
    case _ => Some("currency must be a string")
  }

  /** Exactly the four currency strings pass; other strings are named in
      the error, and non-strings get their own error. */
  lemma CurrencyAccepted(data: Value)
    ensures ValidateCurrency(data).None? <==>
      data.Text? && (data.text == "USD" || data.text == "EUR" || data.text == "GBP" || data.text == "JPY")
    ensures !data.Text? ==> ValidateCurrency(data) == Some("currency must be a string")
  {
  }

  /** A tax code and whether it is still in use (the rate is left out). */
  datatype TaxCodeInfo = TaxCodeInfo(code: string, active: bool)

  const TaxCodes: map<string, TaxCodeInfo> :=
    map["VAT" := TaxCodeInfo("VAT", true), "GST" := TaxCodeInfo("GST", true), "OLD" := TaxCodeInfo("OLD", false)]

  function ValidateTaxCode(data: Value): Option<string>
  {
    match data
    case Text(taxCode) =>
      if taxCode !in TaxCodes then Some("invalid tax code: " + taxCode)
      else if !TaxCodes[taxCode].active then Some("tax code " + taxCode + " is inactive")
      else None
    case _ => Some("tax code must be a string")
  }

  /** VAT and GST pass; OLD is known but inactive and gets its own error;
      every other string is an invalid code. */
  lemma TaxCodeOutcomes(data: Value)
    ensures ValidateTaxCode(data).None? <==> data.Text? && (data.text == "VAT" || data.text == "GST")
    ensures data == Text("OLD") ==> ValidateTaxCode(data) == Some("tax code OLD is inactive")
    ensures data.Text? && data.text != "VAT" && data.text != "GST" && data.text != "OLD" ==>
      ValidateTaxCode(data) == Some("invalid tax code: " + data.text)
    ensures !data.Text? ==> ValidateTaxCode(data) == Some("tax code must be a string")
  {
    assert "tax code " + "OLD" + " is inactive" == "tax code OLD is inactive";
  }

  function Validate(v: Validator, data: Value): Option<string>
  {
    match v
    case CurrencyValidator => ValidateCurrency(data)
    case TaxCodeValidator => ValidateTaxCode(data)
  }

  /** A cross-field rule: the end date may not come before the start date. */
  datatype DateRangeValidator = DateRangeValidator(startDateField: string, endDateField: string)

  function Dependencies(v: DateRangeValidator): seq<string>
  {
    [v.startDateField, v.endDateField]
  }

  function ValidateDateRange(v: DateRangeValidator, fields: map<string, Value>): Option<string>
  {
    var start := if v.startDateField in fields then fields[v.startDateField] else OtherValue;
    var end := if v.endDateField in fields then fields[v.endDateField] else OtherValue;
    if !start.Time? || !end.Time? then Some("date fields not found or invalid")
    else if end.nanos < start.nanos then Some("end date cannot be before start date")
    else None
  }

  /** The rule passes iff both fields hold times and the end is not earlier
      than the start; equal times pass. */
  lemma DateRangeAccepted(v: DateRangeValidator, fields: map<string, Value>)
    ensures ValidateDateRange(v, fields).None? <==>
      && v.startDateField in fields && fields[v.startDateField].Time?
      && v.endDateField in fields && fields[v.endDateField].Time?
      && fields[v.startDateField].nanos <= fields[v.endDateField].nanos
  {
  }
}
