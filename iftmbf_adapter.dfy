/** The IFTMBF booking adapter: one scan over the segments fills a booking
    record, later segments overwriting earlier fields, and every EQD adds a
    container. */
module IftmbfAdapter {
  import GenericModel

  type Segment = GenericModel.Segment

  /** A booking record as stored in the application's database. */
  datatype Booking = Booking(
    referenceNumber: string,
    bookingParty: string,
    consignee: string,
    vesselName: string,
    voyageNumber: string,
    portOfLoading: string,
    portOfDischarge: string,
    containers: seq<string>)

  const EmptyBooking := Booking("", "", "", "", "", "", "", [])

  predicate CanHandle(messageType: string) { messageType == "IFTMBF" }

  /** The first component of element `j` when it is composite. */
  predicate CompositeAt(s: Segment, j: nat)
  {
    |s.elements| > j && s.elements[j].isComposite
  }

  /** What one segment does to the booking. */
  function Step(b: Booking, s: Segment): Booking
  {
    match s.tag
    case "BGM" => if |s.elements| > 1 then b.(referenceNumber := s.elements[1].value) else b
    case "NAD" =>
      if |s.elements| > 2 && s.elements[0].value == "CA" then b.(bookingParty := s.elements[2].value)
      else if |s.elements| > 2 && s.elements[0].value == "CN" then b.(consignee := s.elements[2].value)
      else b
    case "TDT" =>
      var b1 := if CompositeAt(s, 1) then b.(vesselName := s.elements[1].components[0]) else b;
      if |s.elements| > 2 then b1.(voyageNumber := s.elements[2].value) else b1
    case "LOC" =>
      if CompositeAt(s, 1) && s.elements[0].value == "9" then b.(portOfLoading := s.elements[1].components[0])
      else if CompositeAt(s, 1) && s.elements[0].value == "11" then b.(portOfDischarge := s.elements[1].components[0])
      else b
    case "EQD" => if |s.elements| > 1 then b.(containers := b.containers + [s.elements[1].value]) else b
    case _ => b
  }

  function BookingOf(segments: seq<Segment>): Booking
  {
    if |segments| == 0 then EmptyBooking
    else Step(BookingOf(segments[..|segments| - 1]), segments[|segments| - 1])
  }

  /** The scan of one segment, as the adapter performs it. */
  method Apply(booking: Booking, segment: Segment) returns (booking': Booking)
    ensures booking' == Step(booking, segment)
  {
    booking' := booking;
    if segment.tag == "BGM" {
      if |segment.elements| > 1 {
        booking' := booking'.(referenceNumber := segment.elements[1].value);
      }
    } else if segment.tag == "NAD" {
      if |segment.elements| > 0 {
        var party := segment.elements[0].value;
        if party == "CA" {
          if |segment.elements| > 2 {
            booking' := booking'.(bookingParty := segment.elements[2].value);
          }
        } else if party == "CN" {
          if |segment.elements| > 2 {
            booking' := booking'.(consignee := segment.elements[2].value);
          }
        }
      }
    } else if segment.tag == "TDT" {
      if |segment.elements| > 1 && segment.elements[1].isComposite {
        booking' := booking'.(vesselName := segment.elements[1].components[0]);
      }
      if |segment.elements| > 2 {
        booking' := booking'.(voyageNumber := segment.elements[2].value);
      }
    } else if segment.tag == "LOC" {
      if |segment.elements| > 0 {
        var locType := segment.elements[0].value;
        if locType == "9" && |segment.elements| > 1 && segment.elements[1].isComposite {
          booking' := booking'.(portOfLoading := segment.elements[1].components[0]);
        }
        if locType == "11" && |segment.elements| > 1 && segment.elements[1].isComposite {
          booking' := booking'.(portOfDischarge := segment.elements[1].components[0]);
        }
      }
    } else if segment.tag == "EQD" {
      if |segment.elements| > 1 {
        var container := segment.elements[1].value;
        booking' := booking'.(containers := booking'.containers + [container]);
      }
    }
  }

  /** IFTMBFAdapter.Handle; it never fails. */
  method Handle(message: GenericModel.Message) returns (booking: Booking)
    ensures booking == BookingOf(message.segments)
  {
    booking := EmptyBooking;
    for i := 0 to |message.segments|
      invariant booking == BookingOf(message.segments[..i])
    {
      assert message.segments[..i + 1][..i] == message.segments[..i];
      booking := Apply(booking, message.segments[i]);
    }
    assert message.segments[..|message.segments|] == message.segments;
  }

  /** The container numbers of the EQD segments with a second element, in
      message order. */
  function Containers(segments: seq<Segment>): seq<string>
  {
    if |segments| == 0 then []
    else
      var s := segments[0];
      (if s.tag == "EQD" && |s.elements| > 1 then [s.elements[1].value] else []) + Containers(segments[1..])
  }

  lemma {:induction false} ContainersSnoc(segments: seq<Segment>, s: Segment)
    ensures Containers(segments + [s]) == Containers(segments) + (if s.tag == "EQD" && |s.elements| > 1 then [s.elements[1].value] else [])
  {
    if |segments| > 0 {
      assert (segments + [s])[1..] == segments[1..] + [s];
      ContainersSnoc(segments[1..], s);
    }
  }

  /** The booking lists one container per EQD with a second element, in
      message order. */
  lemma {:induction false} ContainersInOrder(segments: seq<Segment>)
    ensures BookingOf(segments).containers == Containers(segments)
  {
    if |segments| > 0 {
      var n := |segments| - 1;
      ContainersInOrder(segments[..n]);
      ContainersSnoc(segments[..n], segments[n]);
      assert segments[..n] + [segments[n]] == segments;
    }
  }

  predicate IsReference(s: Segment) { s.tag == "BGM" && |s.elements| > 1 }

  /** Segment `k` is the last BGM that has a second element. */
  predicate LastReference(segments: seq<Segment>, k: int)
  {
    0 <= k < |segments| && IsReference(segments[k]) && forall j :: k < j < |segments| ==> !IsReference(segments[j])
  }

  /** Only a BGM with a second element changes the reference number. */
  lemma StepReference(b: Booking, s: Segment)
    ensures Step(b, s).referenceNumber == if IsReference(s) then s.elements[1].value else b.referenceNumber
  {
  }

  /** The reference number is the second element of the last BGM that has
      one, and stays "" when there is none. */
  lemma {:induction false} ReferenceFromLastBGM(segments: seq<Segment>)
    ensures forall k :: LastReference(segments, k) ==> BookingOf(segments).referenceNumber == segments[k].elements[1].value
    ensures (forall k :: 0 <= k < |segments| ==> !IsReference(segments[k])) ==> BookingOf(segments).referenceNumber == ""
  {
    if |segments| > 0 {
      var n := |segments| - 1;
      var front := segments[..n];
      ReferenceFromLastBGM(front);
      var reference := BookingOf(segments).referenceNumber;
      StepReference(BookingOf(front), segments[n]);
      if !IsReference(segments[n]) {
        forall k | LastReference(segments, k)
          ensures reference == segments[k].elements[1].value
        {
          assert LastReference(front, k);
        }
        if forall k :: 0 <= k < |segments| ==> !IsReference(segments[k]) {
          assert forall k :: 0 <= k < |front| ==> front[k] == segments[k];
        }
      }
    }
  }

  /** Ports come from composite second elements only: a LOC with qualifier
      9 or 11 whose second element is simple changes nothing. */
  lemma SimpleLocationIgnored(b: Booking, s: Segment)
    requires s.tag == "LOC" && |s.elements| > 1 && !s.elements[1].isComposite
    ensures Step(b, s) == b
  {
  }
}
