# EDIFACT tutorial lessons, modelled in Dafny

The repository teaches UN/EDIFACT through a series of small Go programs:
- the fundamental course builds segments, data elements and composite elements;
- it then analyses message structure, validates syntax and service segments (UNB/UNG/UNH/UNT/UNE/UNZ), and classifies element types;
- the advanced course streams segments, routes messages to handlers registered by type, caches and pools, and adds resilience (error classification, retry, circuit breaker);
- it then covers integration (repository, cache, rate limiter, bounded queue), typed validation errors, dynamic messages, and message transformation and validation;
- the adapters turn a parsed message into a flat numbered list, a per-tag map, an ORDERS record or an IFTMBF booking;
- the short Thai-language lessons parse, convert, extract and validate invoices.

This project models the logic these programs implement themselves and proves properties of it.

Modelling conventions:
- Text is a sequence of bytes (`string` in Dafny, ASCII).
- Go's `strings.Split` and `strings.Join` become `Strings.Split` and `Strings.Join`, proved mutually inverse.
- Every lesson parser splits naively at the delimiters. The model does the same: a release character inside data does not protect a delimiter.
- The message reader that several lessons share is modelled once, as `FlatMessage`.
- The external library's parsed message is modelled only as the shape the adapters consume (`GenericModel`). The library's reader, type detector and own handlers are not part of this model. Where a lesson calls them, their result is a parameter of the model.
- Go structs that methods update in place are classes with `modifies` clauses. Extractors that fill a record in a loop are methods proved equal to a fold over the segments, and the properties are lemmas about that fold.
- Clock readings are `now` parameters in nanoseconds since the Unix epoch.
- Go int enumerations are integer constants.

## Model

| member | source | states |
|---|---|---|
| BasicSegment.Segment.constructor | course_fundamental/lesson1/main.go:23-30 | a new segment holds its tag and delimiters and no elements |
| BasicSegment.Segment.AddElement | course_fundamental/lesson1/main.go:32-35 | the element is appended after the existing ones; the tag is unchanged |
| BasicSegment.Segment.AddEmptyElement | course_fundamental/lesson1/main.go:37-40 | an empty element is appended; the tag is unchanged |
| BasicSegment.ParseSegment | course_fundamental/lesson1/main.go:54-74 | the tag followed by the elements are exactly the pieces of the text, without one trailing terminator, cut at every data element separator; never an error |
| BasicSegment.ParseRender | course_fundamental/lesson1/main.go:42-74 | parsing the rendered text of a tag and elements that hold no data element separator gives them back |
| BasicSegment.RenderParse | course_fundamental/lesson1/main.go:42-74 | rendering what was parsed from a terminated segment text reproduces the text |
| BasicSegment.Segment.ToString | course_fundamental/lesson1/main.go:42-52 | the tag and elements joined by the data element separator, then the terminator; by BasicSegment.ParseRender and BasicSegment.RenderParse it is the inverse of parsing |
| BasicSegment.ElementCount | course_fundamental/lesson1/main.go:54-74 | the number of elements equals the number of data element separators in the text |
| BasicSegment.EmptyElementsKept | course_fundamental/lesson1/main.go:54-74 | consecutive separators give empty elements (NAD+BY+++ACME CORP') |
| BasicSegment.ReleaseCharacterIgnored | course_fundamental/lesson1/main.go:54-74 | the parser does not honour the release character: FTX+A?+B' gives the elements A? and B |
| BasicSegment.EscapeReleasesSpecials | course_fundamental/lesson1/main.go:76-84 | with distinct delimiters, the four replacement passes put one release character before every delimiter byte of the data and change nothing else |
| BasicSegment.UnescapeEscape | course_fundamental/lesson1/main.go:76-94 | with distinct delimiters, unescaping escaped data gives back the data |
| BasicSegment.EscapeSpecialCharacters | course_fundamental/lesson1/main.go:77-85 | the release character is doubled first, then each delimiter is prefixed with it; by BasicSegment.EscapeReleasesSpecials every special byte ends up released |
| BasicSegment.UnescapeSpecialCharacters | course_fundamental/lesson1/main.go:87-95 | the released delimiters and then the doubled release are collapsed; by BasicSegment.UnescapeEscape it undoes escaping |
| ElementSegment.MakeElementFacts | course_fundamental/lesson2/main.go:41-55 | an added element keeps its position and value, is empty iff the value is "", is composite iff the value holds a component separator, and then has at least two components that join back into the value; a simple element has no components |
| ElementSegment.Segment.constructor | course_fundamental/lesson2/main.go:32-39 | a new segment holds its tag and delimiters and no elements |
| ElementSegment.Segment.AddElement | course_fundamental/lesson2/main.go:41-55 | appends the element built for the value at position count+1; keeps every element at its own 1-based position |
| ElementSegment.Segment.GetElement | course_fundamental/lesson2/main.go:57-63 | succeeds iff 1 <= position <= count, then with the stored element `elements[position - 1]`, whose own position is `position`; otherwise the "element position N out of range" error |
| ElementSegment.Segment.GetElementCount | course_fundamental/lesson2/main.go:66-68 | the number of stored elements; by ElementSegment.ParseSegment a parsed segment has as many as its text has data element separators |
| ElementSegment.Segment.ToString | course_fundamental/lesson2/main.go:82-91 | the tag and element values joined by the segment's delimiters; by ElementSegment.RenderParse a parsed terminated text renders back to itself |
| ElementSegment.Segment.IsServiceSegment | course_fundamental/lesson2/main.go:70-79 | true iff the tag is UNH, UNT, UNS, UNZ, UNB, UNG or UNE |
| ElementSegment.ParseSegment | course_fundamental/lesson2/main.go:93-113 | the tag is the first piece and one analysed element is added per later piece, numbered from 1; the count equals the number of data element separators |
| ElementSegment.RenderParse | course_fundamental/lesson2/main.go:81-113 | rendering the element values of a parsed terminated segment text reproduces the text |
| CompositeElements.CompositeElement.GetComponent | course_fundamental/lesson3/main.go:46-52 | succeeds iff 1 <= position <= the number of components, with the component at that 1-based position; otherwise the "component position N out of range" error |
| CompositeElements.CompositeElement.GetComponentCount | course_fundamental/lesson3/main.go:55-57 | the number of components; by CompositeElements.ToStringParse a parsed element has one more than its text has component separators |
| CompositeElements.CompositeElement.ToString | course_fundamental/lesson3/main.go:68-70 | the components joined by the component separator; by CompositeElements.ToStringParse and CompositeElements.ParseToString it is the inverse of parsing |
| CompositeElements.CompositeElement.IsEmptyComponent | course_fundamental/lesson3/main.go:59-65 | true iff GetComponent fails at that position or gives "" |
| CompositeElements.ParseCompositeElement | course_fundamental/lesson3/main.go:24-44 | the result has at least one component, none holding a separator, and qualifier, value and format are the first three components or "" when absent |
| CompositeElements.ToStringParse | course_fundamental/lesson3/main.go:24-70 | writing a parsed element back gives the text it was parsed from; it has one component more than the text has component separators |
| CompositeElements.ParseToString | course_fundamental/lesson3/main.go:24-70 | parsing the text of a well-formed element gives back the element |
| CompositeElements.DateTimeExample | course_fundamental/lesson3/main.go:24-44 | 137:20231201:102 has qualifier 137, value 20231201 and format 102 |
| FlatMessage.ParseEDIFACTMessage | course_fundamental/lesson4/main.go:251-288 | the loop builds exactly the message the reader specification gives: one segment per non-empty piece, message type from the last typed UNH |
| FlatMessage.SegmentsFromPieces | course_fundamental/lesson4/main.go:259-276 | every segment comes from a non-empty piece at its own position, and positions strictly increase |
| FlatMessage.PiecesBecomeSegments | course_fundamental/lesson4/main.go:259-276 | every non-empty piece gives a segment |
| FlatMessage.SegmentText | course_fundamental/lesson4/main.go:265-272 | tag and elements hold no plus sign and join back into their piece |
| FlatMessage.TypeFromLastHeader | course_fundamental/lesson4/main.go:278-284 | the message type is the first component of the second element of the last UNH with at least two elements |
| FlatMessage.NoHeaderNoType | course_fundamental/lesson4/main.go:278-284 | without such a UNH the message type stays "" |
| FlatMessage.ParseSerialize | course_fundamental/lesson4/main.go:251-288 | reading the text of a list of segments without delimiters inside them gives back each tag and its elements, positioned by their order |
| FlatMessage.SegmentCount | course_fundamental/lesson4/main.go:259-263 | there is one segment per non-empty piece |
| StructureAnalysis.MessageAnalysis.constructor | course_fundamental/lesson4/main.go:104-110 | a fresh analysis is valid, with the message type, no errors, no warnings, no groups and a zero count |
| StructureAnalysis.MessageAnalysis.Report | course_fundamental/lesson4/main.go:114-116 | reporting an error appends it and marks the analysis invalid; it stays valid exactly when it has no error |
| StructureAnalysis.MessageAnalyzer.constructor | course_fundamental/lesson4/main.go:56-100 | the analyzer knows INVOIC and ORDERS, each with mandatory UNH, BGM, UNT and the LIN/QTY/PRI line item group |
| StructureAnalysis.MessageAnalyzer.AnalyzeMessage | course_fundamental/lesson4/main.go:102-133 | an unknown type gives the single "Unknown message type" error, no groups and count 0; a known type gives the missing-segment errors then the order errors, the groups, and the segment count |
| StructureAnalysis.MessageAnalyzer.ValidateMandatorySegments | course_fundamental/lesson4/main.go:135-148 | appends one "Missing mandatory segment" error per mandatory tag absent from the message, in definition order; nothing else changes |
| StructureAnalysis.MessageAnalyzer.ValidateSegmentOrder | course_fundamental/lesson4/main.go:150-169 | appends "Message too short" alone below two segments, else an error for a first segment other than UNH and one for a last segment other than UNT |
| StructureAnalysis.MessageAnalyzer.AnalyzeSegmentGroups | course_fundamental/lesson4/main.go:171-200 | appends one group analysis per group definition, holding the segments whose tag belongs to the group and the number of trigger segments; errors and validity are unchanged |
| StructureAnalysis.GroupMembers | course_fundamental/lesson4/main.go:179-187 | the members are the message's segments whose tag the group lists, kept in message order; MembersExact states which segments those are |
| StructureAnalysis.CountTrigger | course_fundamental/lesson4/main.go:189-196 | the group count is the number of members that carry the trigger tag |
| StructureAnalysis.MissingErrorsExact | course_fundamental/lesson4/main.go:135-148 | a tag is reported missing iff it is mandatory and absent from the message |
| StructureAnalysis.OrderErrorsExact | course_fundamental/lesson4/main.go:150-169 | the order check reports nothing iff there are at least two segments, the first UNH and the last UNT; at most two errors |
| StructureAnalysis.MembersExact | course_fundamental/lesson4/main.go:171-200 | a segment is in a group iff it is in the message and its tag is one of the group's tags |
| StructureAnalysis.TriggerCountKept | course_fundamental/lesson4/main.go:171-200 | the group's trigger count equals the number of trigger segments in the whole message |
| StructureAnalysis.LineItemCount | course_fundamental/lesson4/main.go:68-100 | for INVOIC and ORDERS there is one group, occurring once per LIN segment |
| StructureAnalysis.UnknownTypeRejected | course_fundamental/lesson4/main.go:111-118 | an unregistered type gets exactly one error and no groups |
| StructureAnalysis.WellFormedMessageValid | course_fundamental/lesson4/main.go:102-169 | a registered message that opens with UNH, closes with UNT and has a BGM gets no error |
| SyntaxValidation.CollectPerSegment | course_fundamental/lesson5/main.go:131-158 | the loop over the segments collects, in order, exactly the findings of the per-segment check for each segment at its index |
| SyntaxValidation.FirstWithTag | course_fundamental/lesson5/main.go:318-324 | gives the index of the first segment with the tag, or -1 when no segment has it |
| SyntaxValidation.FindReference | course_fundamental/lesson5/main.go:348-366 | the element of the first segment with the tag and enough elements, or "" when there is none |
| SyntaxValidation.ApplyRule | course_fundamental/lesson5/main.go:128-382 | each of the six rules reports exactly the findings its specification gives |
| SyntaxValidation.SyntaxValidator.constructor | course_fundamental/lesson5/main.go:57-102 | the validator holds the six rules in registration order |
| SyntaxValidation.SyntaxValidator.Validate | course_fundamental/lesson5/main.go:104-126 | the result is all findings of all rules, rule by rule, each ERROR filed as an error that makes the result invalid and every other finding as a warning |
| SyntaxValidation.AddFindings | course_fundamental/lesson5/main.go:112-123 | filing findings one by one extends the result by exactly those findings, in order |
| SyntaxValidation.SortPartitions | course_fundamental/lesson5/main.go:104-126 | a result is valid iff it has no error; errors all have severity ERROR, warnings none; every finding lands in exactly one list |
| SyntaxValidation.SegmentCountNeverFires | course_fundamental/lesson5/main.go:314-345 | the segment count rule compares the expected count with itself and never reports |
| SyntaxValidation.TerminatorOnlyAtEnd | course_fundamental/lesson5/main.go:128-159 | on a message read by the reader, the terminator rule reports only the missing final apostrophe of the whole text |
| SyntaxValidation.DayCheckNumeric | course_fundamental/lesson5/main.go:237-245 | for two digits the text comparison against "01" and "31" is the numeric check 1 <= day <= 31 |
| Strings.MonthCheckNumeric | course_fundamental/lesson5/main.go:227-235 | for two digits the text comparison against "01" and "12" is the numeric check 1 <= month <= 12 |
| SyntaxValidation.QuantityFindings | course_fundamental/lesson5/main.go:258-312 | a quantity draws a warning iff it starts with a minus sign and an error iff it is not a number |
| SyntaxValidation.MissingDelimiterWarning | course_fundamental/lesson5/main.go:161-198 | a read segment draws the empty-element warning iff its text holds "++" and the missing-delimiter warning iff it has no element and is not UNT |
| SyntaxValidation.ReferenceMismatch | course_fundamental/lesson5/main.go:347-382 | the reference rule reports iff the UNH and UNT references both exist and differ |
| ServiceSegments.ServiceSegmentResult.constructor | course_fundamental/lesson6/main.go:67-73 | a fresh result is valid, with the message type, no errors, no warnings and no recorded service segments |
| ServiceSegments.ServiceSegmentHandler.constructor | course_fundamental/lesson6/main.go:44-63 | the handler registers the UNH, UNT, UNB, UNZ, UNG and UNE validators |
| ServiceSegments.ServiceSegmentHandler.ProcessMessage | course_fundamental/lesson6/main.go:65-97 | records every registered segment by tag, collects "TAG: error" for each failing one in message order, then the envelope errors and warnings, and computes the interchange summary; the result is valid iff there is no error |
| ServiceSegments.ServiceSegmentHandler.ValidateMessageEnvelope | course_fundamental/lesson6/main.go:306-333 | appends the reference mismatch error when the last UNH and UNT references both exist and differ, and the count warning when the recorded UNT count differs from the number of segments minus two; nothing else changes |
| ServiceSegments.ServiceSegmentHandler.ExtractInterchangeInfo | course_fundamental/lesson6/main.go:335-368 | the loop computes exactly the interchange summary of the segments |
| ServiceSegments.RecordStep | course_fundamental/lesson6/main.go:76-88 | one registered segment adds its error, if any, and overwrites its tag's record; an unregistered segment changes nothing |
| ServiceSegments.HeaderAccepted | course_fundamental/lesson6/main.go:99-121 | UNH passes iff it has two elements and the message identifier has at least four components with version and release non-empty |
| ServiceSegments.ValidateUNH | course_fundamental/lesson6/main.go:100-121 | the UNH rule; ServiceSegments.HeaderAccepted states exactly which segments pass |
| ServiceSegments.ValidateUNT | course_fundamental/lesson6/main.go:124-142 | the UNT rule; ServiceSegments.PairAccepted states exactly which segments pass |
| ServiceSegments.ValidateUNZ | course_fundamental/lesson6/main.go:181-199 | the UNZ rule; ServiceSegments.PairAccepted shows it accepts what UNT accepts |
| ServiceSegments.ValidateUNE | course_fundamental/lesson6/main.go:224-243 | the UNE rule; ServiceSegments.PairAccepted shows it accepts what UNT accepts |
| ServiceSegments.ValidateUNB | course_fundamental/lesson6/main.go:145-178 | the UNB rule; ServiceSegments.InterchangeHeaderAccepted states exactly which segments pass |
| ServiceSegments.ValidateUNG | course_fundamental/lesson6/main.go:202-221 | the UNG rule; ServiceSegments.GroupHeaderAccepted states exactly which segments pass |
| ServiceSegments.PairAccepted | course_fundamental/lesson6/main.go:123-142 | UNT passes iff it has two elements, both non-empty; UNZ and UNE accept exactly the same segments |
| ServiceSegments.InterchangeHeaderAccepted | course_fundamental/lesson6/main.go:144-178 | UNB passes iff it has five elements with elements 1, 3, 4 and 5 non-empty, and element 6 non-empty when present; element 2 is never checked |
| ServiceSegments.ServiceSegsLastWins | course_fundamental/lesson6/main.go:76-88 | a registered tag is recorded and its record comes from its last occurrence |
| ServiceSegments.ServiceSegsKeys | course_fundamental/lesson6/main.go:76-88 | only registered tags that occur in the message are recorded |
| ServiceSegments.ValidatorErrorsCount | course_fundamental/lesson6/main.go:76-88 | there is one error per registered segment that fails its check |
| ServiceSegments.CountedTrailerNoWarning | course_fundamental/lesson6/main.go:324-332 | a UNT whose count is the number of segments minus two draws no warning |
| ServiceSegments.InterchangeTypeAgrees | course_fundamental/lesson6/main.go:359-364 | the summary's message type is the one the message reader finds |
| ServiceSegments.InterchangeHeaderFieldsKept | course_fundamental/lesson6/main.go:339-358 | segments other than UNB leave sender, recipient, date, time and reference unchanged |
| ServiceSegments.InterchangeFromLastHeader | course_fundamental/lesson6/main.go:339-358 | with a complete last UNB, sender, recipient, date, time and reference come from it |
| ServiceSegments.GroupHeaderAccepted | course_fundamental/lesson6/main.go:201-221 | UNG passes iff it has four elements with elements 1, 3 and 4 non-empty |
| ServiceSegments.AcceptedInfoPresent | course_fundamental/lesson6/main.go:244-304 | the record keeps tag, elements and position; a UNH, UNT, UNB or UNZ that passes its check yields non-empty release and version, count and reference, syntax, sender, recipient and date/time, or message count and control reference |
| ServiceSegments.ExtractServiceSegmentInfo | course_fundamental/lesson6/main.go:245-304 | the record of one service segment, read by its tag; ServiceSegments.AcceptedInfoPresent states what an accepted segment yields |
| ElementTypes.ReadSegment | course_fundamental/lesson7/main.go:445-469 | reading one segment text gives the tag and one element per piece, numbered from 0, composite with its components exactly when it holds a colon |
| ElementTypes.ParseEDIFACTMessage | course_fundamental/lesson7/main.go:431-485 | the loop builds exactly the typed message: the shared reader's segments with typed elements, and its message type |
| ElementTypes.AnalyzeSegment | course_fundamental/lesson7/main.go:140-153 | analysing a segment appends one analysis per element, increments the statistics entry of each element's type and appends each non-empty warning |
| ElementTypes.AnalyzeMessage | course_fundamental/lesson7/main.go:129-157 | the result holds the message type, one analysis per element in message order, the statistics as a count per type and the non-empty warnings in order |
| ElementTypes.TypeMatchesPattern | course_fundamental/lesson7/main.go:188-239 | an element is composite iff it holds a colon, a qualifier iff not and in a qualifier position, a code iff neither and it matches the code pattern; dates, measurements, identifiers and texts match their own pattern and fail the earlier ones |
| ElementTypes.DetermineElementType | course_fundamental/lesson7/main.go:189-224 | the type tests in the source's order; ElementTypes.TypeMatchesPattern states each type as a condition on the element |
| ElementTypes.IsQualifierContext | course_fundamental/lesson7/main.go:227-239 | whether the position is a qualifier position of the segment; used by ElementTypes.QualifierOfElement |
| ElementTypes.ExtractQualifier | course_fundamental/lesson7/main.go:242-251 | ElementTypes.QualifierOfElement states the qualifier: the first component or the whole value in a qualifier position, none elsewhere |
| ElementTypes.CheckWarnings | course_fundamental/lesson7/main.go:290-306 | ElementTypes.WarningsByType states when a warning is issued |
| ElementTypes.ShortNumbersAreCodes | course_fundamental/lesson7/main.go:188-224 | whole numbers of two to six digits outside a qualifier position are codes, never measurements |
| ElementTypes.WarningsByType | course_fundamental/lesson7/main.go:289-306 | a warning is issued iff a measurement is negative or a text is longer than 35 bytes |
| ElementTypes.QualifierOfElement | course_fundamental/lesson7/main.go:241-251 | in a qualifier position the qualifier is the first component or the whole value; elsewhere there is none |
| ElementTypes.GetElementDescription | course_fundamental/lesson7/main.go:309-345 | the description of an element by its type; ElementTypes.DescriptionByType states each case |
| ElementTypes.DescriptionByType | course_fundamental/lesson7/main.go:309-345 | a qualifier is described by its table entry, else "Unknown qualifier"; a code in a BGM by its document type if listed, else by its message type if listed, else "Code"; dates, measurements, identifiers, composites and texts by their fixed labels; no description is empty |
| ElementTypes.AnalyzeElement | course_fundamental/lesson7/main.go:160-185 | the analysis of one element; ElementTypes.AnalysisFields and ElementTypes.AnalysisOfElement state its fields |
| ElementTypes.AnalysisFields | course_fundamental/lesson7/main.go:160-185 | the analysis carries the segment, position, value and components; it is composite iff the value holds a colon and a qualifier iff not and in a qualifier position; it warns iff a measurement is negative or a text exceeds 35 bytes; its description is the one for its type |
| ElementTypes.AnalysisOfElement | course_fundamental/lesson7/main.go:160-185 | for an element read from its text, the qualifier is the first component in a qualifier position and none elsewhere, and the components are the colon-separated pieces of a composite and none otherwise |
| ElementTypes.StatisticsCount | course_fundamental/lesson7/main.go:129-157 | a type is in the statistics iff some element has it, with its number of elements; the seven counts add up to the number of elements |
| ElementTypes.OneAnalysisPerElement | course_fundamental/lesson7/main.go:139-144 | there is one analysis per element of the message |
| ElementTypes.ParseAgrees | course_fundamental/lesson7/main.go:431-485 | the typed reader keeps the shared reader's segments, tags, positions and element texts, and marks exactly the elements holding a colon as composite |
| Streaming.StreamingProcessor.constructor | course_advance/lesson1/main.go:28-33 | a new processor has counted nothing |
| Streaming.StreamingProcessor.ProcessSegment | course_advance/lesson1/main.go:36-115 | the error of one segment text: UNH and BGM need two elements, DTM, LIN and UNT one, other tags none |
| Streaming.StreamingProcessor.ProcessLargeFile | course_advance/lesson1/main.go:117-146 | adds to the processed count the non-empty pieces without error and to the error count those with one; always returns no error |
| Streaming.StreamingProcessor.GetStats | course_advance/lesson1/main.go:148-153 | returns the two counts |
| Streaming.EachSegmentCountedOnce | course_advance/lesson1/main.go:117-146 | every non-empty piece is counted exactly once, as processed or as in error |
| Streaming.SegmentErrorIff | course_advance/lesson1/main.go:36-115 | a segment is in error iff it is UNH or BGM with fewer than two elements or DTM, LIN or UNT with none; the tag is the text before the first plus sign |
| Dispatch.ExtractInvoice | course_advance/lesson2/main.go:116-145 | the scan gives exactly the invoice specification: number from the last BGM, date from the last DTM, one product code per LIN with a third element |
| Dispatch.ExtractOrder | course_advance/lesson2/main.go:194-214 | the scan gives exactly the order specification: number from the last BGM, date from the last DTM |
| Dispatch.InvoiceAgreesWithTransformer | course_advance/lesson2/main.go:116-145 | the invoice handler's number, date and product codes agree with those of the transformation lesson's extractor; the order is the invoice's number and date |
| Dispatch.ProcessWith | course_advance/lesson2/main.go:91-114 | extracting, validating, storing and notifying gives exactly the handler's outcome |
| Dispatch.HandlerFailsIffNoNumber | course_advance/lesson2/main.go:91-114 | an invoice or order handler fails iff the business number is missing, and then stores nothing; the generic handler always succeeds and stores nothing |
| Dispatch.MessageDetector.constructor | course_advance/lesson2/main.go:40-45 | a new detector has no handlers and the generic fallback |
| Dispatch.MessageDetector.RegisterHandler | course_advance/lesson2/main.go:47-52 | a registration replaces any earlier one for the type and changes nothing else |
| Dispatch.MessageDetector.DetectAndRoute | course_advance/lesson2/main.go:54-67 | the outcome is that of the handler registered for the message type, or of the fallback |
| Dispatch.RouteSelectsHandler | course_advance/lesson2/main.go:54-67 | a registered type runs its handler; any other type succeeds and stores nothing |
| Dispatch.CompositeHandler.constructor | course_advance/lesson2/main.go:234-237 | the composite holds the handlers in the given order |
| Dispatch.CompositeHandler.Process | course_advance/lesson2/main.go:239-250 | the loop runs the handlers in order and stops at the first failure, giving exactly `Dispatch.CompositeOf` of the handlers |
| Dispatch.CompositeStopsAtFirstFailure | course_advance/lesson2/main.go:239-250 | the composite succeeds iff every handler does; otherwise it reports "handler T failed: ..." for the first failing handler |
| Performance.Segment.constructor | course_advance/lesson3/main.go:26-36 | a new pooled segment is blank: no tag and no elements |
| Performance.SegmentPool.constructor | course_advance/lesson3/main.go:26-36 | a new pool holds no segments |
| Performance.SegmentPool.Get | course_advance/lesson3/main.go:39-41 | the segment handed out is blank: the most recently returned one, taken off the pool, or a new one when the pool is empty |
| Performance.SegmentPool.Put | course_advance/lesson3/main.go:44-49 | a returned segment is cleared and added to the pool |
| Performance.ConcurrentProcessor.constructor | course_advance/lesson3/main.go:74-81 | the processor holds its worker count |
| Performance.ConcurrentProcessor.ProcessMessage | course_advance/lesson3/main.go:103-131 | the count is the number of non-empty pieces between apostrophes and no error is returned |
| Performance.SegmentCountMatchesReader | course_advance/lesson3/main.go:103-131 | that count equals the number of segments the message reader produces |
| Performance.MessageCache.constructor | course_advance/lesson3/main.go:176-181 | a new cache is empty and holds its time to live |
| Performance.MessageCache.Get | course_advance/lesson3/main.go:184-192 | an entry is returned iff it is stored and not past its expiration |
| Performance.MessageCache.Set | course_advance/lesson3/main.go:195-205 | the key's entry is replaced by one processed now that expires one time-to-live later |
| Performance.EntryLifetime | course_advance/lesson3/main.go:184-210 | an entry set at t is found exactly up to and including t plus the time to live, with the count it was set with |
| Performance.OptimizedProcessor.constructor | course_advance/lesson3/main.go:220-226 | the processor starts with an empty cache whose entries live five minutes |
| Performance.OptimizedProcessor.ProcessMessage | course_advance/lesson3/main.go:229-246 | the answer is always the message's true segment count; a live cache entry leaves the cache as it was, otherwise the new count is cached; every cached count stays the true count of its message |
| Resilience.ClassifyBySegment | course_advance/lesson4/main.go:58-99 | UNH and UNT errors are syntax errors, BGM and DTM validation errors, any other segment a system error; only system errors among them are retryable; message and segment are kept and the position is 0 |
| Resilience.ErrorTypeNames | course_advance/lesson4/main.go:23-36 | the four error types have four different names and any other code is UNKNOWN |
| Resilience.ErrorText | course_advance/lesson4/main.go:48-51 | ProcessingError.Error: the bracketed type name, segment, position and message; Resilience.ErrorTextParts states its shape |
| Resilience.ErrorTextParts | course_advance/lesson4/main.go:48-51 | the text starts with the bracketed type name, the segment and " at position ", and ends with ": " and the message |
| Resilience.ErrorTypeName | course_advance/lesson4/main.go:23-36 | the name of an error type; Resilience.ErrorTypeNames states the names are distinct and UNKNOWN otherwise |
| Resilience.Classify | course_advance/lesson4/main.go:69-84 | the error type chosen by segment; Resilience.ClassifyBySegment states the classification and retryability |
| Resilience.IsRetryable | course_advance/lesson4/main.go:86-99 | transient and system errors are retryable; Resilience.ClassifyBySegment states that among classified errors exactly the system ones are |
| Resilience.StateName | course_advance/lesson4/main.go:170-181 | the name of a circuit state; Resilience.StateNames states the names are distinct and UNKNOWN otherwise |
| Resilience.StateNames | course_advance/lesson4/main.go:170-181 | CLOSED, OPEN and HALF_OPEN have three different names and any other value is UNKNOWN |
| Resilience.ExecuteWithRetry | course_advance/lesson4/main.go:118-141 | the loop calls the operation exactly as the retry specification says |
| Resilience.RetryBound | course_advance/lesson4/main.go:118-141 | at most maxRetries + 1 calls; success iff some call within the bound succeeds, stopping at the first success; a failure reports "operation failed after N attempts" with the last error |
| Resilience.ConsistencyKept | course_advance/lesson4/main.go:201-246 | admission and recording keep the breaker in a known state with a non-negative failure count |
| Resilience.AdmitIff | course_advance/lesson4/main.go:201-224 | closed and half-open admit; open admits iff the time since the last failure exceeds the timeout, then becoming half-open; nothing else changes |
| Resilience.OpensAtThreshold | course_advance/lesson4/main.go:226-246 | consecutive failures on a clear closed breaker count up, and it opens exactly once the count reaches the threshold |
| Resilience.CircuitBreaker.constructor | course_advance/lesson4/main.go:183-189 | a new breaker is closed with no failures and holds its threshold and timeout |
| Resilience.CircuitBreaker.CanExecute | course_advance/lesson4/main.go:201-224 | the answer and the new state are those of the admission specification |
| Resilience.CircuitBreaker.RecordResult | course_advance/lesson4/main.go:226-246 | the new state is that of the recording specification |
| Resilience.CircuitBreaker.Execute | course_advance/lesson4/main.go:191-199 | a rejected call returns "circuit breaker is STATE" without running or recording; an admitted call runs the operation, records its result and returns its error |
| Resilience.ErrorLogger.constructor | course_advance/lesson4/main.go:254-258 | a new logger holds no errors |
| Resilience.ErrorLogger.LogError | course_advance/lesson4/main.go:260-266 | the error is appended to the log |
| Resilience.ErrorLogger.GetErrorStats | course_advance/lesson4/main.go:268-277 | the statistics are the per-type counts of the logged errors |
| Resilience.StatsCount | course_advance/lesson4/main.go:268-277 | a type is in the statistics iff some error has it, with its count; for classified errors the four counts add up to the number logged |
| Integration.HandleBooking | course_advance/lesson5/main.go:40-58 | a reader error is returned as it is; otherwise the booking takes the reader's reference as identifier and reference, its sender and receiver, and ROAD as transport mode |
| Integration.HandleInvoice | course_advance/lesson5/main.go:66-85 | a reader error is returned as it is; otherwise the invoice takes the reader's reference as identifier and reference, its seller and buyer, amount 0.00 and currency USD |
| Integration.EDIRepository.constructor | course_advance/lesson5/main.go:108-112 | a new repository stores no messages |
| Integration.EDIRepository.SaveMessage | course_advance/lesson5/main.go:114-122 | the message is stored under its identifier, replacing any earlier one, and no error is returned |
| Integration.FindMessage | course_advance/lesson5/main.go:124-132 | the lookup shared by both message stores: it succeeds exactly when the identifier is stored, with the stored message, and otherwise fails with "message ID not found" |
| Integration.EDIRepository.GetMessage | course_advance/lesson5/main.go:124-132 | returns exactly `FindMessage` on the stored messages |
| Integration.EDIRepository.UpdateStatus | course_advance/lesson5/main.go:134-144 | a stored message gets the new status and nothing else changes; an unknown identifier gives "message ID not found" and the store is unchanged |
| Integration.StatusUpdateLocal | course_advance/lesson5/main.go:134-144 | a status update keeps the set of identifiers, every other message, and the updated message's identifier and content |
| Integration.Cache.constructor | course_advance/lesson5/main.go:152-156 | a new cache is empty |
| Integration.Cache.Get | course_advance/lesson5/main.go:158-164 | a value is found iff its key is present, and it is the stored value |
| Integration.Cache.Set | course_advance/lesson5/main.go:166-171 | the key now maps to the value and every other key is unchanged |
| Integration.SetThenGet | course_advance/lesson5/main.go:158-171 | a value set under a key is what the next read of that key returns |
| Integration.AllowKeepsBounds | course_advance/lesson5/main.go:224-251 | the bucket stays within 0 and the capacity; a call is allowed iff a token is there after the refill, and it takes exactly one |
| Integration.BurstBounded | course_advance/lesson5/main.go:224-251 | within one second of the last refill, n calls are allowed exactly min(n, tokens) times |
| Integration.RateLimiter.constructor | course_advance/lesson5/main.go:215-222 | a new limiter holds its capacity and rate and starts full, refilled now |
| Integration.RateLimiter.Allow | course_advance/lesson5/main.go:224-244 | the answer and the new bucket are those of the refill-and-take specification |
| Integration.MessageQueue.constructor | course_advance/lesson5/main.go:274-280 | a new queue is empty with the given capacity |
| Integration.MessageQueue.Send | course_advance/lesson5/main.go:282-290 | with room, the message is appended and no error returned; when full, "queue is full" is returned and the queue is unchanged |
| Integration.IntegrationManager.constructor | course_advance/lesson5/main.go:353-372 | the manager starts with an empty repository and cache, a full limiter of 10 tokens at 1 per second and an empty queue of 100 |
| Integration.IntegrationManager.ProcessMessage | course_advance/lesson5/main.go:374-405 | the new message is saved as pending first; a rate-limited call then fails with "rate limit exceeded"; otherwise the message is queued, or the queue's error is returned |
| Integration.ProcessQueued | course_advance/lesson5/main.go:327-344 | a queued message whose identifier is stored is marked processed and nothing else changes; otherwise the status update's "message ID not found" error is returned and the store is left unchanged |
| Integration.MessageIdsBySecond | course_advance/lesson5/main.go:374-383 | messages created in different seconds get different identifiers |
| Integration.MessageId | course_advance/lesson5/main.go:377 | "MSG_" followed by the time in seconds; Integration.MessageIdsBySecond states that different seconds give different identifiers |
| Integration.BookingCanHandle | course_advance/lesson5/main.go:36-38 | accepts exactly IFTMIN |
| Integration.InvoiceCanHandle | course_advance/lesson5/main.go:62-64 | accepts exactly INVOIC |
| FormatValidation.ProcessingErrorShowsCause | course_advance/lesson6/main.go:22-37 | a processing error's text starts with "processing error: " and its message, and carries its cause's own text when it has one |
| FormatValidation.ErrorText | course_advance/lesson6/main.go:22-24 | the text of a validation error, with its code, field and message; used by FormatValidation.ProcessingErrorShowsCause |
| FormatValidation.ProcessingErrorText | course_advance/lesson6/main.go:31-37 | the text of a processing error; FormatValidation.ProcessingErrorShowsCause states its prefix and the cause it carries |
| FormatValidation.FormatError | course_advance/lesson6/main.go:39-65 | the format check; FormatValidation.FormatErrorCases states when it passes and which error it reports |
| FormatValidation.FormatErrorCases | course_advance/lesson6/main.go:39-65 | the format check passes iff the text is not blank and holds an apostrophe and a plus sign; otherwise it reports EMPTY_DATA, MISSING_TERMINATOR or MISSING_SEPARATOR, checked in that order |
| FormatValidation.ValidateRequiredSegments | course_advance/lesson6/main.go:67-81 | the loop returns the error for the first required segment absent from the text, or none |
| FormatValidation.SegmentsErrorCases | course_advance/lesson6/main.go:67-81 | the segment check passes iff both UNH and UNT occur in the text; a failure names UNH when it is absent, else UNT |
| FormatValidation.TypeErrorCases | course_advance/lesson6/main.go:83-107 | the type check passes exactly for a detected IFTMIN, INVOIC or ORDERS; a detection failure is INVALID_MESSAGE_TYPE; an unsupported type is named in the message |
| FormatValidation.TypeError | course_advance/lesson6/main.go:83-107 | the type check on the detected type; FormatValidation.TypeErrorCases states its outcomes |
| FormatValidation.ValidateMessage | course_advance/lesson6/main.go:110-129 | the errors are those of the format, segment and type checks, in that order |
| FormatValidation.ValidationOrder | course_advance/lesson6/main.go:110-129 | at most three errors; none iff every check passes; the first error is the format error if any, else the segment error, else the type error |
| FormatValidation.BlankTextErrors | course_advance/lesson6/main.go:39-81 | blank text gives EMPTY_DATA first and then the missing-UNH segment error |
| FormatValidation.ProcessWithErrorHandling | course_advance/lesson6/main.go:132-153 | any validation error stops processing with "Validation failed" caused by the first error; otherwise a router failure gives "Message processing failed" caused by it, and a router success is returned |
| FormatValidation.SeverityNames | course_advance/lesson6/main.go:156-175 | the three severities have distinct names and every other value is UNKNOWN |
| FormatValidation.SeverityName | course_advance/lesson6/main.go:164-175 | the name of a severity; FormatValidation.SeverityNames states that the names are distinct and every other value is UNKNOWN |
| FormatValidation.CurrencyAccepted | course_advance/lesson6/main.go:444-470 | exactly USD, EUR, GBP and JPY pass; a value that is not a string gets its own error |
| FormatValidation.ValidateCurrency | course_advance/lesson6/main.go:459-470 | the currency rule; FormatValidation.CurrencyAccepted states exactly which values pass |
| FormatValidation.TaxCodeOutcomes | course_advance/lesson6/main.go:477-510 | VAT and GST pass; OLD is reported inactive; other strings are invalid codes; non-strings get their own error |
| FormatValidation.ValidateTaxCode | course_advance/lesson6/main.go:497-510 | the tax code rule; FormatValidation.TaxCodeOutcomes states each outcome |
| FormatValidation.Name | course_advance/lesson6/main.go:472-474 | GetName of the two single-value validators: CURRENCY_VALIDATOR and TAX_CODE_VALIDATOR |
| FormatValidation.Validate | course_advance/lesson6/main.go:412-415 | the Validator interface call: each single-value validator runs its own check, FormatValidation.CurrencyAccepted and FormatValidation.TaxCodeOutcomes state the outcomes |
| FormatValidation.DateRangeAccepted | course_advance/lesson6/main.go:376-405 | the rule passes iff both fields hold times and the end is not before the start |
| FormatValidation.ValidateDateRange | course_advance/lesson6/main.go:388-401 | the date range rule; FormatValidation.DateRangeAccepted states exactly when it passes |
| FormatValidation.Dependencies | course_advance/lesson6/main.go:403-405 | GetDependencies: the start and the end field, in that order |
| DynamicMessages.DynamicElementOf | course_advance/lesson7/main.go:72-89 | an element keeps its composite flag; a composite element keeps only its components, a simple one only its value |
| DynamicMessages.ConvertElements | course_advance/lesson7/main.go:72-89 | one converted element per element, in the same slots |
| DynamicMessages.ConvertToDynamic | course_advance/lesson7/main.go:63-95 | same type, and the same segments in order with the same tags, positions and converted elements; no metadata and no raw data yet |
| DynamicMessages.ExtractMetadata | course_advance/lesson7/main.go:97-118 | the loop builds the metadata the scan specification describes |
| DynamicMessages.MetadataKeys | course_advance/lesson7/main.go:97-118 | the count and type entries are never overwritten; a reference entry exists iff some UNH has elements, a document number iff some BGM has two or more; no other key is set |
| DynamicMessages.ReferenceFromLastHeader | course_advance/lesson7/main.go:104-108 | the reference is the first element of the last UNH that has elements |
| DynamicMessages.NumberFromLastBGM | course_advance/lesson7/main.go:109-113 | the document number is the second element of the last BGM that has two or more |
| DynamicMessages.MetadataCountsAndType | course_advance/lesson7/main.go:97-103 | the metadata always holds the segment count and the message type |
| DynamicMessages.HandleGeneric | course_advance/lesson7/main.go:45-61 | the library handler's error is passed through; otherwise the result is the converted message: the same type, the same segments in order with the same tags, positions and converted elements, the extracted metadata and the raw data |
| DynamicMessages.DynamicProcessor.constructor | course_advance/lesson7/main.go:125-129 | a new processor has no handlers |
| DynamicMessages.DynamicProcessor.RegisterHandler | course_advance/lesson7/main.go:131-133 | the handler is registered for its type, replacing any earlier one |
| DynamicMessages.DynamicProcessor.Process | course_advance/lesson7/main.go:135-154 | a message goes to the handler registered for its exact type and returns its error; without one the default handler succeeds |
| DynamicMessages.RegisterThenProcess | course_advance/lesson7/main.go:131-142 | after a registration, messages of that type go to the new handler |
| DynamicMessages.Database.constructor | course_advance/lesson7/main.go:335-340 | a new database is empty |
| DynamicMessages.Database.SaveMessage | course_advance/lesson7/main.go:342-348 | the message is stored under its identifier, replacing any earlier one, without error |
| DynamicMessages.Database.GetMessage | course_advance/lesson7/main.go:350-359 | returns exactly `Integration.FindMessage` on the stored messages: the stored message, or "message ID not found" |
| DynamicMessages.GenericCanHandle | course_advance/lesson7/main.go:41-43 | accepts every type |
| DynamicMessages.StoreHoldsLastSave | course_advance/lesson7/main.go:342-359 | after a series of saves, an identifier is found iff it was saved, and it gives the last message saved under it |
| DynamicMessages.SaveAll | course_advance/lesson7/main.go:342-348 | saving a series into an empty database leaves exactly the store the series describes |
| DynamicMessages.NewQueue | course_advance/lesson7/main.go:372-377 | a new queue is empty with the configured size |
| DynamicMessages.ProcessQueued | course_advance/lesson7/main.go:464-480 | the work item is saved as a PROCESSED message under its identifier |
| Transform.ExtractData | course_advance/lesson8/main.go:139-231 | the scan gives exactly the extracted document: number from BGM, date from DTM, one item per LIN with a product code, quantity and price of the last item from QTY and PRI |
| Transform.ItemsFollowLines | course_advance/lesson8/main.go:160-167 | there is one item per LIN with a third element, in order, carrying that line's product code |
| Transform.QuantityAndPriceTouchLastItem | course_advance/lesson8/main.go:168-181 | QTY and PRI change only the quantity or price of the last item, and nothing before the first item |
| Transform.CopyItems | course_advance/lesson8/main.go:83-92 | copying the items one by one into a list of the same length gives the same items |
| Transform.TransformInvoiceToOrder | course_advance/lesson8/main.go:71-103 | an invoice becomes an order numbered "PO-" + invoice number with the same date and items; it keeps the invoice number; never an error |
| Transform.TransformOrderToInvoice | course_advance/lesson8/main.go:105-137 | an order becomes an invoice numbered "INV-" + order number with the same date and items; never an error |
| Transform.MessageTransformer.constructor | course_advance/lesson8/main.go:45-56 | INVOIC and ORDERS are registered with the two built-in transformations |
| Transform.MessageTransformer.RegisterTransformer | course_advance/lesson8/main.go:58-61 | a registration replaces any earlier one for the type and changes nothing else |
| Transform.MessageTransformer.Transform | course_advance/lesson8/main.go:63-69 | the registered transformation of the message type, or the "no transformer found" error |
| Transform.TransformOutcome | course_advance/lesson8/main.go:63-69 | an unregistered type fails with the lookup error; a built-in transformation always succeeds |
| Transform.OrderInvoiceRoundTrip | course_advance/lesson8/main.go:71-137 | invoice to order and back gives the invoice numbered "INV-PO-" + its number, with the same date and items |
| Transform.ValidateMandatorySegments | course_advance/lesson8/main.go:346-366 | the check reports the first of UNH, BGM, UNT that no segment carries, or nothing |
| Transform.FirstMissingSound | course_advance/lesson8/main.go:359-363 | nothing is reported iff every required tag was found; a reported tag is required and missing |
| Transform.MandatoryFailsIffMissing | course_advance/lesson8/main.go:346-366 | the check fails iff one of UNH, BGM and UNT is carried by no segment, naming a missing one |
| Transform.OrderFailsIffMisplaced | course_advance/lesson8/main.go:368-385 | the order check passes iff there are at least two segments, the first UNH and the last UNT |
| Transform.ValidateDataFormats | course_advance/lesson8/main.go:387-403 | the check reports the first DTM date component that is not eight digits, or nothing |
| Transform.DateFormatPassesIffAllDates | course_advance/lesson8/main.go:387-403 | the check passes iff every DTM date component present is eight digits |
| Transform.ApplyRule | course_advance/lesson8/main.go:282-320 | each standard rule runs its own check |
| Transform.AdvancedValidator.constructor | course_advance/lesson8/main.go:269-320 | INVOIC and ORDERS get the three standard rules |
| Transform.AdvancedValidator.Validate | course_advance/lesson8/main.go:322-344 | one ERROR per failing rule of the message type, in rule order; valid iff none; a type without rules is valid |
| Transform.RuleErrorsFollowRules | course_advance/lesson8/main.go:330-341 | there are no errors iff every rule passes, at most one per rule, each naming a failing rule |
| Transform.UnruledTypeValid | course_advance/lesson8/main.go:330 | a message type without rules is valid with no errors |
| Transform.ProcessMessage | course_advance/lesson8/main.go:419-444 | validation first, then transformation: an invalid message fails with "validation failed: " and the `%v` rendering of the error list, an unregistered type with "transformation failed: ...", otherwise the result carries the transformation |
| Transform.ValidationFailureText | course_advance/lesson8/main.go:426-429 | a message failing validation is rejected with a text starting "validation failed: [" that names every validation error |
| Transform.ProcessOutcome | course_advance/lesson8/main.go:419-444 | processing succeeds iff the message is an INVOIC or ORDERS that passes every standard rule, and then carries the built-in transformation |
| GenericModel.GetSegmentByTag | simple_adapter/main.go:36-40 | nothing is found iff no segment has the tag; otherwise the result is the first segment with it |
| GenericModel.MessageRef | simple_adapter/main.go:35-40 | the reference is the first element of the first UNH, or "" when that has no elements or there is no UNH |
| SimpleAdapter.SegmentEntries | simple_adapter/main.go:43-56 | a segment contributes its tag and then one entry per element, in order: a simple element's value, a composite's components joined by colons |
| SimpleAdapter.AppendSegment | simple_adapter/main.go:43-56 | the loop appends exactly the segment's entries |
| SimpleAdapter.Handle | simple_adapter/main.go:28-60 | the result keeps the type, takes the first UNH's first element as reference, and flattens all segments in order |
| SimpleAdapter.EntryCountSnoc | simple_adapter/main.go:43-56 | one more segment adds one entry plus one per element |
| SimpleAdapter.FlattenLength | simple_adapter/main.go:43-56 | the flat list has one entry per segment plus one per element |
| SimpleAdapter.FlattenPrefix | simple_adapter/main.go:43-56 | the entries of the first segments are a prefix of the flat list |
| SimpleAdapter.SegmentInFlatList | simple_adapter/main.go:43-56 | segment i's tag sits at the total size of the segments before it, and its elements right after |
| SimpleAdapter.RangeAgreesWithGetElement | simple_adapter/main.go:94-107 | a range exists iff 1 <= start <= end <= length; it holds end - start + 1 entries, each what GetElement gives at its 1-based position |
| SimpleAdapter.AddressingByPosition | simple_adapter/main.go:28-107 | reading the adapter's result by 1-based position gives each segment's tag and then its element texts |
| SimpleAdapter.GetElement | simple_adapter/main.go:94-100 | the entry at a 1-based position, "" out of range; SimpleAdapter.AddressingByPosition states what each position holds |
| SimpleAdapter.GetElementRange | simple_adapter/main.go:102-107 | SimpleAdapter.RangeAgreesWithGetElement states when a range exists and that it agrees with GetElement |
| SimpleAdapter.CanHandle | simple_adapter/main.go:24-26 | accepts every type |
| SimpleAdapter.OrdersCanHandle | simple_adapter/main.go:233-235 | accepts exactly ORDERS |
| SimpleAdapter.OrdersHandle | simple_adapter/main.go:237-272 | number and date come from the first BGM and DTM (the date only for qualifier 4); buyer and supplier from the NAD scan |
| SimpleAdapter.ReadHeader | simple_adapter/main.go:238-256 | the order number is the second element of the first BGM and the date the second element of the first DTM when its qualifier is 4; buyer and supplier start empty |
| SimpleAdapter.ApplyParty | simple_adapter/main.go:258-272 | one segment of the NAD scan changes the buyer or supplier exactly as the parties step does |
| SimpleAdapter.LastPartyWins | simple_adapter/main.go:255-269 | the scan leaves number and date alone; the buyer (supplier) is the third element of the last NAD+BY (NAD+SU) with three or more elements, unchanged when there is none |
| CustomHandler.BuildSegmentData | sample_generic/main.go:44-61 | the loop builds the numbered fields and the element count of the segment |
| CustomHandler.Handle | sample_generic/main.go:29-65 | the result keeps the type, takes the first UNH's first element as reference, and maps every tag to the data of its segments in order, later ones overwriting |
| CustomHandler.CanHandle | sample_generic/main.go:25-27 | accepts exactly the configured type |
| CustomHandler.CountKeyIsNotElementKey | sample_generic/main.go:48-58 | element_count never collides with a numbered element key |
| CustomHandler.ElementFieldsHold | sample_generic/main.go:48-55 | element j sits under element_(j+1) and no other key is present |
| CustomHandler.SegmentDataFields | sample_generic/main.go:44-58 | a segment's map holds element_1..element_n with its elements, element_count = n, and nothing else |
| CustomHandler.LastSegmentPerTag | sample_generic/main.go:44-61 | there is an entry iff some segment has the tag, and it holds the data of the last such segment |
| OrdersHandler.Apply | sample_advanced/main.go:35-86 | the scan of one segment does what the step specification says |
| OrdersHandler.Handle | sample_advanced/main.go:23-90 | the result is the step specification folded over all segments from the empty order |
| OrdersHandler.CanHandle | sample_advanced/main.go:19-21 | accepts exactly ORDERS |
| OrdersHandler.Lines | sample_advanced/main.go:67-74 | the selected segments are all LIN segments |
| OrdersHandler.ItemsFollowLines | sample_advanced/main.go:67-74 | one item per LIN, in order, with that LIN's line number and product code |
| OrdersHandler.NoLinesNoItems | sample_advanced/main.go:67-86 | before any LIN there are no items, so a QTY there changes nothing |
| OrdersHandler.QuantityTouchesLastItem | sample_advanced/main.go:76-86 | an ordered quantity sets the quantity of the last item only and changes nothing else |
| OrdersHandler.DateFromOrderDateOnly | sample_advanced/main.go:44-52 | the order date is empty or the second element of some DTM with qualifier 4 |
| IftmbfAdapter.Apply | edifact_adapter/iftmbf.go:22-63 | the scan of one segment does what the step specification says |
| IftmbfAdapter.Handle | edifact_adapter/iftmbf.go:19-66 | the booking is the step specification folded over all segments from the empty booking |
| IftmbfAdapter.CanHandle | edifact_adapter/iftmbf.go:15-17 | accepts exactly IFTMBF |
| IftmbfAdapter.ContainersSnoc | edifact_adapter/iftmbf.go:58-62 | one more segment adds its container number only when it is an EQD with a second element |
| IftmbfAdapter.ContainersInOrder | edifact_adapter/iftmbf.go:58-62 | the booking lists one container per EQD with a second element, in message order |
| IftmbfAdapter.ReferenceFromLastBGM | edifact_adapter/iftmbf.go:23-26 | the reference number is the second element of the last BGM that has one, and "" without one |
| IftmbfAdapter.SimpleLocationIgnored | edifact_adapter/iftmbf.go:48-57 | a LOC whose second element is simple changes nothing |
| PlainParser.PlainSegments | course_th/lesson3_parse_message/main.go:13-29 | one segment per reader segment, with its tag and elements |
| PlainParser.ParseEDIFACT | course_th/lesson3_parse_message/main.go:13-29 | the loop yields the segments of the shared reader, in order |
| PlainParser.ParsedSegmentsRebuildPieces | course_th/lesson3_parse_message/main.go:13-29 | one segment per non-empty piece; joining a segment's tag and elements with plus signs gives back a piece, and no tag holds a plus sign |
| PlainParser.SegmentMaps | course_th/lesson4_detect_convert/main.go:10-28 | one map per segment, holding exactly its tag and its elements |
| PlainParser.NoPiecesNoSegments | course_th/lesson3_parse_message/main.go:15-18 | text without a non-empty piece gives no segments |
| InvoiceRecord.ApplyPiece | course_th/lesson5_custom_adapter/main.go:20-43 | reading one piece does what the step specification does to the segment the reader makes of it |
| InvoiceRecord.ParseInvoice | course_th/lesson5_custom_adapter/main.go:14-46 | the record is the step specification folded over the reader's segments |
| InvoiceRecord.NumberFromLastBGM | course_th/lesson5_custom_adapter/main.go:25-28 | the number is the second element of the last BGM that has one; without one it stays empty and the record is incomplete |
| InvoiceRecord.AmountFromLastQTY | course_th/lesson7_apply_realworld/main.go:36-64 | the amount is the second component of the last QTY that has one; without one the record is incomplete |
| InvoiceRecord.DateFromLastDTM | course_th/lesson7_apply_realworld/main.go:29-35 | the date is the second component of the last DTM that has one; without one it stays empty and the record is incomplete |
| InvoiceRecord.IsComplete | course_th/lesson7_apply_realworld/main.go:60-64 | complete iff number, date and amount are all non-empty; InvoiceRecord.NumberFromLastBGM, InvoiceRecord.DateFromLastDTM and InvoiceRecord.AmountFromLastQTY show a record missing the BGM, DTM or QTY is incomplete |
| InvoiceRecord.AgreesWithRoutedInvoice | course_th/lesson7_apply_realworld/main.go:14-46 | number and date agree with those the routing lesson's invoice extractor reads from the same segments |
| DateCheck.ValidDateMonth | course_th/lesson6_validation/main.go:9-20 | a date is valid iff it is eight digits and its month, read as a number, lies between 1 and 12 |
| DateCheck.DayNotChecked | course_th/lesson6_validation/main.go:9-20 | the day is not checked: 20231299 passes while month 13 and seven digits fail |
| DateCheck.IsValidDate | course_th/lesson6_validation/main.go:9-20 | eight digits with a month from 01 to 12, as DateCheck.ValidDateMonth and DateCheck.DayNotChecked state |

## Left out

- The escape-aware tokenizer described for the library: no lesson implements one, and the lessons' naive splitting is what is modelled.
- The external message library (converter, reader, detector, generic, IFTMIN and INVOIC handlers, router): its source is not part of this model, so its results are parameters.
- Printing, report formatting and JSON marshalling: only the structures that are printed or serialised are modelled.
- Goroutines, channels, worker pools, mutexes, `Start`/`Stop`, the dead-letter worker and the one-second `Receive` timeout: the model is sequential and locked state is plain fields.
- The HTTP server, monitoring and configuration wiring of the production application (`EDIApplication`): pure I/O.
- Floating point: the retry back-off delay (`calculateDelay`), benchmark rates, and the invoice amount and line-item total checks.
- `validateElement` of the element-type lesson, and the business-rule, cross-field and custom validator collections of the typed-error lesson: they do not compile as written. The single-value validators (currency, tax code, date range) they would call are modelled.
- The rate of a tax code: only whether the code is active is modelled.
- Timestamps stored on messages and metadata: dropped. Identifiers that embed the time take `now` as a parameter.
- Go map iteration order: where the source ranges over a map, the model fixes one order. Only properties that hold for every order are stated, such as that some missing segment is named.
- Pointer aliasing between the records a handler returns and the segments it read: records are values.
- `strings.TrimSpace` strips Unicode white space as well. The model's blank test covers the ASCII white-space bytes only.
- `unicode.IsDigit` accepts non-ASCII digits. The model accepts only '0' to '9'.
- `interface{}` payloads (handler results, cache values, queue payloads) are typed values in the model: the type the source stores there, or a small datatype of the cases it distinguishes.
- Performance.SegmentPool.Get: `sync.Pool` may drop pooled objects at any time. The model is a stack that returns the most recently put segment, and it promises a blank segment in either case.
- Performance.ConcurrentProcessor.ProcessMessage: the segments it takes from and returns to the pool only hold scratch data. The model counts without them.
- Transform.ValidateMandatorySegments: the source ranges over a map of the mandatory tags, so which missing tag it names is unspecified. The model checks UNH, BGM and UNT in that order; the lemmas about it promise only that some missing tag is named.
- GenericModel.GetSegmentByTag: the library's lookup is assumed to return the first segment with the tag.
- Composite elements handed over by the library are assumed to have at least one component, as the library produces them.
- BasicSegment.Delimiters: the source keeps each delimiter as a string. The model holds one character per delimiter, so multi-character or empty delimiters are not modelled.
- ServiceSegments.ServiceSegmentHandler.ProcessMessage: the source writes the interchange summary into the caller's message (course_fundamental/lesson6/main.go:94). The model returns it as a second result and leaves the message unchanged.
- Integration.IntegrationManager.ProcessMessage: the source stores one message object in the repository and queues the same object as the payload, so a later status update is visible through the queue too. The model stores and queues two separate values; Integration.ProcessQueued updates only the stored one.
