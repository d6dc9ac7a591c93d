/** The invoice record of the custom-adapter and real-world lessons: number,
    date and amount read from BGM, DTM and QTY, the last segment of each tag
    winning; the record is complete when all three are present. */
module InvoiceRecord {
  import opened Strings
  import FlatMessage
  import Transform
  import Dispatch

  type Segment = FlatMessage.Segment

  datatype Invoice = Invoice(number: string, date: string, amount: string)

  /** What one segment does to the record: BGM's second element is the
      number, the second component of DTM's and QTY's first element the date
      and the amount. */
  function Step(inv: Invoice, s: Segment): Invoice
  {
    if s.tag == "BGM" then
      if |s.elements| > 1 then inv.(number := s.elements[1]) else inv
    else if s.tag == "DTM" then
      if Transform.SecondComponent(s).Some? then inv.(date := Transform.SecondComponent(s).value) else inv
    else if s.tag == "QTY" then
      if Transform.SecondComponent(s).Some? then inv.(amount := Transform.SecondComponent(s).value) else inv
    else inv
  }

  function InvoiceOf(segments: seq<Segment>): Invoice
  {
    if |segments| == 0 then Invoice("", "", "")
    else Step(InvoiceOf(segments[..|segments| - 1]), segments[|segments| - 1])
  }

  /** One non-empty piece, read as ParseInvoice reads it. */
  method ApplyPiece(inv: Invoice, seg: string, ghost index: nat) returns (inv': Invoice)
    ensures inv' == Step(inv, FlatMessage.SegmentOf(seg, index))
  {
    var parts := Split(seg, '+');
    ghost var segment := FlatMessage.SegmentOf(seg, index);
    assert segment.tag == parts[0] && segment.elements == parts[1..];
    inv' := inv;
    if parts[0] == "BGM" {
      if |parts| > 2 {
        inv' := inv'.(number := parts[2]);
      }
    } else if parts[0] == "DTM" {
      if |parts| > 1 {
        var comps := Split(parts[1], ':');
        if |comps| > 1 {
          inv' := inv'.(date := comps[1]);
        }
      }
    } else if parts[0] == "QTY" {
      if |parts| > 1 {
        var comps := Split(parts[1], ':');
        if |comps| > 1 {
          inv' := inv'.(amount := comps[1]);
        }
      }
    }
  }

  /** ParseInvoice, which reads the pieces of the text directly. */
  method ParseInvoice(msg: string) returns (inv: Invoice)
    ensures inv == InvoiceOf(FlatMessage.Parse(msg).segments)
  {
    var pieces := Split(msg, '\'');
    inv := Invoice("", "", "");
    for i := 0 to |pieces|
      invariant inv == InvoiceOf(FlatMessage.SegmentsOf(pieces[..i]))
    {
      assert pieces[..i + 1][..i] == pieces[..i];
      var seg := pieces[i];
      if seg == "" {
        assert FlatMessage.SegmentsOf(pieces[..i + 1]) == FlatMessage.SegmentsOf(pieces[..i]);
        continue;
      }
      assert FlatMessage.SegmentsOf(pieces[..i + 1]) == FlatMessage.SegmentsOf(pieces[..i]) + [FlatMessage.SegmentOf(seg, i)];
      inv := ApplyPiece(inv, seg, i);
    }
    assert pieces[..|pieces|] == pieces;
  }

  /** The record is ready for the database only when all three fields are
      present. */
  predicate IsComplete(inv: Invoice)
  {
    inv.number != "" && inv.date != "" && inv.amount != ""
  }

  predicate GivesNumber(s: Segment) { s.tag == "BGM" && |s.elements| > 1 }

  predicate GivesDate(s: Segment) { s.tag == "DTM" && Transform.SecondComponent(s).Some? }

  predicate GivesAmount(s: Segment) { s.tag == "QTY" && Transform.SecondComponent(s).Some? }

  /** Segment `k` is the last BGM giving a number. */
  predicate LastNumber(segments: seq<Segment>, k: int)
  {
    0 <= k < |segments| && GivesNumber(segments[k]) && forall j :: k < j < |segments| ==> !GivesNumber(segments[j])
  }

  /** Segment `k` is the last DTM giving a date. */
  predicate LastDate(segments: seq<Segment>, k: int)
  {
    0 <= k < |segments| && GivesDate(segments[k]) && forall j :: k < j < |segments| ==> !GivesDate(segments[j])
  }

  /** Segment `k` is the last QTY giving an amount. */
  predicate LastAmount(segments: seq<Segment>, k: int)
  {
    0 <= k < |segments| && GivesAmount(segments[k]) && forall j :: k < j < |segments| ==> !GivesAmount(segments[j])
  }

  /** Only a BGM with a second element changes the number, only a DTM with
      a second component the date, and only a QTY with a second component
      the amount. */
  lemma StepFields(inv: Invoice, s: Segment)
    ensures Step(inv, s).number == if GivesNumber(s) then s.elements[1] else inv.number
    ensures Step(inv, s).date == if GivesDate(s) then Transform.SecondComponent(s).value else inv.date
    ensures Step(inv, s).amount == if GivesAmount(s) then Transform.SecondComponent(s).value else inv.amount
  {
  }

  /** The number is the second element of the last BGM that has one; without
      such a BGM it stays "", and so the record is incomplete. */
  lemma NumberFromLastBGM(segments: seq<Segment>)
    ensures forall k :: LastNumber(segments, k) ==> InvoiceOf(segments).number == segments[k].elements[1]
    ensures (forall k :: 0 <= k < |segments| ==> !GivesNumber(segments[k])) ==>
      InvoiceOf(segments).number == "" && !IsComplete(InvoiceOf(segments))
  {
    LastNumberWins(segments);
    if forall k :: 0 <= k < |segments| ==> !GivesNumber(segments[k]) {
      NoNumberStaysEmpty(segments);
    }
  }

  lemma {:induction false} LastNumberWins(segments: seq<Segment>)
    ensures forall k :: LastNumber(segments, k) ==> InvoiceOf(segments).number == segments[k].elements[1]
  {
    if |segments| > 0 {
      var n := |segments| - 1;
      var front := segments[..n];
      LastNumberWins(front);
      var inv := InvoiceOf(segments);
      StepFields(InvoiceOf(front), segments[n]);
      var last := segments[n];
      if GivesNumber(last) {
        forall k | LastNumber(segments, k)
          ensures k == n
        {
          assert k < n ==> !GivesNumber(last);
        }
      } else {
        forall k | LastNumber(segments, k)
          ensures inv.number == segments[k].elements[1]
        {
          assert LastNumber(front, k);
        }
      }
    }
  }

  lemma {:induction false} NoNumberStaysEmpty(segments: seq<Segment>)
    requires forall k :: 0 <= k < |segments| ==> !GivesNumber(segments[k])
    ensures InvoiceOf(segments).number == ""
  {
    if |segments| > 0 {
      var n := |segments| - 1;
      var front := segments[..n];
      assert forall k :: 0 <= k < |front| ==> front[k] == segments[k];
      NoNumberStaysEmpty(front);
      StepFields(InvoiceOf(front), segments[n]);
    }
  }

  /** The date is the second component of the last DTM that has one;
      without such a DTM it stays "", and so the record is incomplete. */
  lemma DateFromLastDTM(segments: seq<Segment>)
    ensures forall k :: LastDate(segments, k) ==> InvoiceOf(segments).date == Transform.SecondComponent(segments[k]).value
    ensures (forall k :: 0 <= k < |segments| ==> !GivesDate(segments[k])) ==>
      InvoiceOf(segments).date == "" && !IsComplete(InvoiceOf(segments))
  {
    LastDateWins(segments);
    if forall k :: 0 <= k < |segments| ==> !GivesDate(segments[k]) {
      NoDateStaysEmpty(segments);
    }
  }

  lemma {:induction false} LastDateWins(segments: seq<Segment>)
    ensures forall k :: LastDate(segments, k) ==> InvoiceOf(segments).date == Transform.SecondComponent(segments[k]).value
  {
    if |segments| > 0 {
      var n := |segments| - 1;
      var front := segments[..n];
      LastDateWins(front);
      var inv := InvoiceOf(segments);
      StepFields(InvoiceOf(front), segments[n]);
      var last := segments[n];
      if GivesDate(last) {
        forall k | LastDate(segments, k)
          ensures k == n
        {
          assert k < n ==> !GivesDate(last);
        }
      } else {
        forall k | LastDate(segments, k)
          ensures inv.date == Transform.SecondComponent(segments[k]).value
        {
          assert LastDate(front, k);
        }
      }
    }
  }

  lemma {:induction false} NoDateStaysEmpty(segments: seq<Segment>)
    requires forall k :: 0 <= k < |segments| ==> !GivesDate(segments[k])
    ensures InvoiceOf(segments).date == ""
  {
    if |segments| > 0 {
      var n := |segments| - 1;
      var front := segments[..n];
      assert forall k :: 0 <= k < |front| ==> front[k] == segments[k];
      NoDateStaysEmpty(front);
      StepFields(InvoiceOf(front), segments[n]);
    }
  }

  /** The amount is the second component of the last QTY that has one;
      without such a QTY the record is incomplete. */
  lemma AmountFromLastQTY(segments: seq<Segment>)
    ensures forall k :: LastAmount(segments, k) ==> InvoiceOf(segments).amount == Transform.SecondComponent(segments[k]).value
    ensures (forall k :: 0 <= k < |segments| ==> !GivesAmount(segments[k])) ==>
      InvoiceOf(segments).amount == "" && !IsComplete(InvoiceOf(segments))
  {
    LastAmountWins(segments);
    if forall k :: 0 <= k < |segments| ==> !GivesAmount(segments[k]) {
      NoAmountStaysEmpty(segments);
    }
  }

  lemma {:induction false} LastAmountWins(segments: seq<Segment>)
    ensures forall k :: LastAmount(segments, k) ==> InvoiceOf(segments).amount == Transform.SecondComponent(segments[k]).value
  {
    if |segments| > 0 {
      var n := |segments| - 1;
      var front := segments[..n];
      LastAmountWins(front);
      var inv := InvoiceOf(segments);
      StepFields(InvoiceOf(front), segments[n]);
      var last := segments[n];
      if GivesAmount(last) {
        forall k | LastAmount(segments, k)
          ensures k == n
        {
          assert k < n ==> !GivesAmount(last);
        }
      } else {
        forall k | LastAmount(segments, k)
          ensures inv.amount == Transform.SecondComponent(segments[k]).value
        {
          assert LastAmount(front, k);
        }
      }
    }
  }

  lemma {:induction false} NoAmountStaysEmpty(segments: seq<Segment>)
    requires forall k :: 0 <= k < |segments| ==> !GivesAmount(segments[k])
    ensures InvoiceOf(segments).amount == ""
  {
    if |segments| > 0 {
      var n := |segments| - 1;
      var front := segments[..n];
      assert forall k :: 0 <= k < |front| ==> front[k] == segments[k];
      NoAmountStaysEmpty(front);
      StepFields(InvoiceOf(front), segments[n]);
    }
  }

  /** The number and date agree with those the routing lesson's invoice
      extractor reads from the same segments. */
  lemma {:induction false} AgreesWithRoutedInvoice(segments: seq<Segment>)
    ensures InvoiceOf(segments).number == Dispatch.InvoiceOf(segments).number
    ensures InvoiceOf(segments).date == Dispatch.InvoiceOf(segments).date
  {
    if |segments| > 0 {
      AgreesWithRoutedInvoice(segments[..|segments| - 1]);
    }
  }
}
