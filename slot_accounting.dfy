/** How bookings and slots stay in step. A booking that is still live
    (pending or confirmed) on an exact `(provider, startTime, endTime)` triple
    should be backed by a booked slot with that triple. The handshake keeps
    "live bookings on a triple never outnumber its booked slots" through the
    client's booking, cancelling and paying, through slot creation and
    deletion, and through the provider's status changes on live bookings;
    the provider's slot edit and status changes on finished bookings break it,
    and their guarded counterparts keep it. */
module SlotAccounting {
  import opened Common
  import opened AvailabilityModel
  import opened BookingModel
  import opened Store
  import opened Sequences
  import CC = ClientController
  import PC = ProviderController
  import PaymentModel

  predicate Live(b: Booking, provider: Id, startTime: int, endTime: int) {
    b.provider == provider && b.startTime == startTime && b.endTime == endTime && !IsTerminal(b.status)
  }

  function LiveCount(bs: seq<Booking>, provider: Id, startTime: int, endTime: int): nat {
    if |bs| == 0 then 0
    else (if Live(bs[0], provider, startTime, endTime) then 1 else 0) + LiveCount(bs[1..], provider, startTime, endTime)
  }

  function BookedCount(ss: seq<Slot>, provider: Id, startTime: int, endTime: int): nat {
    if |ss| == 0 then 0
    else (if SlotMatches(ss[0], provider, startTime, endTime, Booked) then 1 else 0)
         + BookedCount(ss[1..], provider, startTime, endTime)
  }

  /** Live bookings on a triple never outnumber its booked slots. */
  ghost predicate Accounted(s: State) {
    forall p: Id, st: int, en: int :: LiveCount(s.bookings, p, st, en) <= BookedCount(s.slots, p, st, en)
  }

  lemma {:induction false} LiveCountAppend(bs: seq<Booking>, b: Booking, p: Id, st: int, en: int)
    ensures LiveCount(bs + [b], p, st, en) == LiveCount(bs, p, st, en) + (if Live(b, p, st, en) then 1 else 0)
  {
    if |bs| == 0 {
      assert bs + [b] == [b];
    } else {
      assert (bs + [b])[1..] == bs[1..] + [b];
      LiveCountAppend(bs[1..], b, p, st, en);
    }
  }

  lemma {:induction false} LiveCountUpdate(bs: seq<Booking>, i: nat, b: Booking, p: Id, st: int, en: int)
    requires i < |bs|
    ensures LiveCount(bs[i := b], p, st, en)
            == LiveCount(bs, p, st, en) - (if Live(bs[i], p, st, en) then 1 else 0) + (if Live(b, p, st, en) then 1 else 0)
  {
    if i == 0 {
      assert bs[i := b][1..] == bs[1..];
    } else {
      assert bs[i := b][1..] == bs[1..][i - 1 := b];
      LiveCountUpdate(bs[1..], i - 1, b, p, st, en);
    }
  }

  lemma {:induction false} BookedCountAppend(ss: seq<Slot>, x: Slot, p: Id, st: int, en: int)
    ensures BookedCount(ss + [x], p, st, en)
            == BookedCount(ss, p, st, en) + (if SlotMatches(x, p, st, en, Booked) then 1 else 0)
  {
    if |ss| == 0 {
      assert ss + [x] == [x];
    } else {
      assert (ss + [x])[1..] == ss[1..] + [x];
      BookedCountAppend(ss[1..], x, p, st, en);
    }
  }

  lemma {:induction false} BookedCountUpdate(ss: seq<Slot>, i: nat, x: Slot, p: Id, st: int, en: int)
    requires i < |ss|
    ensures BookedCount(ss[i := x], p, st, en)
            == BookedCount(ss, p, st, en) - (if SlotMatches(ss[i], p, st, en, Booked) then 1 else 0)
               + (if SlotMatches(x, p, st, en, Booked) then 1 else 0)
  {
    if i == 0 {
      assert ss[i := x][1..] == ss[1..];
    } else {
      assert ss[i := x][1..] == ss[1..][i - 1 := x];
      BookedCountUpdate(ss[1..], i - 1, x, p, st, en);
    }
  }

  lemma {:induction false} BookedCountRemove(ss: seq<Slot>, i: nat, p: Id, st: int, en: int)
    requires i < |ss|
    ensures BookedCount(RemoveAt(ss, i), p, st, en)
            == BookedCount(ss, p, st, en) - (if SlotMatches(ss[i], p, st, en, Booked) then 1 else 0)
  {
    if i == 0 {
      assert RemoveAt(ss, i) == ss[1..];
    } else {
      assert RemoveAt(ss, i) == [ss[0]] + RemoveAt(ss[1..], i - 1);
      assert RemoveAt(ss, i)[1..] == RemoveAt(ss[1..], i - 1);
      BookedCountRemove(ss[1..], i - 1, p, st, en);
    }
  }

  /** A positive count has a witness. */
  lemma {:induction false} BookedCountWitness(ss: seq<Slot>, p: Id, st: int, en: int)
    requires BookedCount(ss, p, st, en) > 0
    ensures HasMatch(ss, p, st, en, Booked)
  {
    if !SlotMatches(ss[0], p, st, en, Booked) {
      BookedCountWitness(ss[1..], p, st, en);
      var k :| 0 <= k < |ss[1..]| && SlotMatches(ss[1..][k], p, st, en, Booked);
      assert SlotMatches(ss[k + 1], p, st, en, Booked);
    }
  }

  lemma {:induction false} LiveCountWitness(bs: seq<Booking>, i: nat, p: Id, st: int, en: int)
    requires i < |bs| && Live(bs[i], p, st, en)
    ensures LiveCount(bs, p, st, en) > 0
  {
    if i > 0 {
      LiveCountWitness(bs[1..], i - 1, p, st, en);
    }
  }

  /** Releasing takes exactly one booked slot off the triple it names when it
      has one, and leaves every count alone otherwise. */
  lemma ReleaseCount(ss: seq<Slot>, p0: Id, st0: int, en0: int, p: Id, st: int, en: int)
    ensures BookedCount(ReleaseSlot(ss, p0, st0, en0), p, st, en)
            == BookedCount(ss, p, st, en)
               - (if (p, st, en) == (p0, st0, en0) && HasMatch(ss, p0, st0, en0, Booked) then 1 else 0)
  {
    match FindMatchingSlot(ss, p0, st0, en0, Booked)
    case None =>
    case Some(j) =>
      BookedCountUpdate(ss, j, ss[j].(status := Available), p, st, en);
  }

  lemma CreateBookingKeepsAccounting(s: State, clientId: Id, providerId: Id, service: string,
                                     startTime: int, endTime: int, notes: Option<string>)
    requires WellFormed(s) && Accounted(s)
    ensures Accounted(CC.CreateBookingStep(s, clientId, providerId, service, startTime, endTime, notes).state)
  {
    var t := CC.CreateBookingStep(s, clientId, providerId, service, startTime, endTime, notes);
    if t.response.Success? {
      var b := t.response.body;
      var i :| FirstMatchAt(s.slots, i, providerId, startTime, endTime, Available)
               && t.state.slots == s.slots[i := s.slots[i].(status := Booked)];
      forall p: Id, st: int, en: int
        ensures LiveCount(t.state.bookings, p, st, en) <= BookedCount(t.state.slots, p, st, en)
      {
        LiveCountAppend(s.bookings, b, p, st, en);
        BookedCountUpdate(s.slots, i, s.slots[i].(status := Booked), p, st, en);
      }
    }
  }

  lemma CancelBookingKeepsAccounting(s: State, clientId: Id, bookingId: Id, reason: Option<string>)
    requires WellFormed(s) && Accounted(s)
    ensures Accounted(CC.CancelBookingStep(s, clientId, bookingId, reason).state)
  {
    var t := CC.CancelBookingStep(s, clientId, bookingId, reason);
    if t.response.Success? {
      var i := FindBooking(s.bookings, bookingId).value;
      var b := s.bookings[i];
      forall p: Id, st: int, en: int
        ensures LiveCount(t.state.bookings, p, st, en) <= BookedCount(t.state.slots, p, st, en)
      {
        LiveCountUpdate(s.bookings, i, CC.CancelledBooking(b, reason), p, st, en);
        ReleaseCount(s.slots, b.provider, b.startTime, b.endTime, p, st, en);
        if (p, st, en) == (b.provider, b.startTime, b.endTime) {
          LiveCountWitness(s.bookings, i, p, st, en);
          BookedCountWitness(s.slots, p, st, en);
        }
      }
    }
  }

  lemma ProcessPaymentKeepsAccounting(s: State, clientId: Id, bookingId: Id, amount: real, currency: string,
                                      payMethod: PaymentModel.PaymentMethod, transactionId: string)
    requires WellFormed(s) && Accounted(s)
    ensures Accounted(CC.ProcessPaymentStep(s, clientId, bookingId, amount, currency, payMethod, transactionId).state)
  {
    var t := CC.ProcessPaymentStep(s, clientId, bookingId, amount, currency, payMethod, transactionId);
    if t.response.Success? {
      var i := FindBooking(s.bookings, bookingId).value;
      forall p: Id, st: int, en: int
        ensures LiveCount(t.state.bookings, p, st, en) <= BookedCount(t.state.slots, p, st, en)
      {
        LiveCountUpdate(s.bookings, i, CC.PaidBooking(s.bookings[i], s.nextId), p, st, en);
      }
    }
  }

  lemma CreateAvailabilityKeepsAccounting(s: State, providerId: Id, startTime: int, endTime: int,
                                          recurrence: Option<Recurrence>, recurrenceEndDate: Option<int>)
    requires WellFormed(s) && Accounted(s)
    ensures Accounted(PC.CreateAvailabilityStep(s, providerId, startTime, endTime, recurrence, recurrenceEndDate).state)
  {
    var t := PC.CreateAvailabilityStep(s, providerId, startTime, endTime, recurrence, recurrenceEndDate);
    if t.response.Success? {
      forall p: Id, st: int, en: int
        ensures LiveCount(t.state.bookings, p, st, en) <= BookedCount(t.state.slots, p, st, en)
      {
        BookedCountAppend(s.slots, t.response.body, p, st, en);
      }
    }
  }

  lemma DeleteAvailabilityKeepsAccounting(s: State, providerId: Id, slotId: Id)
    requires WellFormed(s) && Accounted(s)
    ensures Accounted(PC.DeleteAvailabilityStep(s, providerId, slotId).state)
  {
    var t := PC.DeleteAvailabilityStep(s, providerId, slotId);
    if t.response.Success? {
      var i := FindSlot(s.slots, slotId).value;
      forall p: Id, st: int, en: int
        ensures LiveCount(t.state.bookings, p, st, en) <= BookedCount(t.state.slots, p, st, en)
      {
        BookedCountRemove(s.slots, i, p, st, en);
      }
    }
  }

  /** Any of the provider's three statuses on a live booking keeps the
      accounting: 'confirmed' keeps it live, 'cancelled' releases its slot,
      'completed' lets the slot stay booked with one live booking fewer. */
  lemma UpdateLiveBookingStatusKeepsAccounting(s: State, providerId: Id, bookingId: Id, status: BookingStatus)
    requires WellFormed(s) && Accounted(s)
    requires status in {Confirmed, Cancelled, Completed}
    requires forall i :: 0 <= i < |s.bookings| && s.bookings[i].id == bookingId ==> !IsTerminal(s.bookings[i].status)
    ensures Accounted(PC.UpdateBookingStatusStep(s, providerId, bookingId, status).state)
  {
    var t := PC.UpdateBookingStatusStep(s, providerId, bookingId, status);
    if t.response.Success? {
      var i := FindBooking(s.bookings, bookingId).value;
      var b := s.bookings[i];
      forall p: Id, st: int, en: int
        ensures LiveCount(t.state.bookings, p, st, en) <= BookedCount(t.state.slots, p, st, en)
      {
        LiveCountUpdate(s.bookings, i, b.(status := status), p, st, en);
        if status == Cancelled {
          ReleaseCount(s.slots, providerId, b.startTime, b.endTime, p, st, en);
          if (p, st, en) == (b.provider, b.startTime, b.endTime) {
            LiveCountWitness(s.bookings, i, p, st, en);
            BookedCountWitness(s.slots, p, st, en);
          }
        }
      }
    }
  }

  /** The slot edit may set a booked slot back to 'available' (only blocking
      it is refused). When the slot was the only backing of a live booking,
      the booking is left without a booked slot, and its time can be booked a
      second time. */
  lemma ReopeningBookedSlotAllowsDoubleBooking(s: State, providerId: Id, slotId: Id, i: nat, j: nat,
                                               otherClient: Id, service: string)
    requires WellFormed(s)
    requires i < |s.slots| && s.slots[i].id == slotId && s.slots[i].provider == providerId
    requires s.slots[i].status == Booked
    requires j < |s.bookings| && Live(s.bookings[j], providerId, s.slots[i].startTime, s.slots[i].endTime)
    requires s.slots[i].startTime < s.slots[i].endTime
    requires IsProvider(s.users, providerId)
    requires BookedCount(s.slots, providerId, s.slots[i].startTime, s.slots[i].endTime) == 1
    ensures var st, en := s.slots[i].startTime, s.slots[i].endTime;
            var s1 := PC.UpdateAvailabilityStep(s, providerId, slotId, None, None, Some(Available)).state;
            var t2 := CC.CreateBookingStep(s1, otherClient, providerId, service, st, en, None);
            && !Accounted(s1)
            && t2.response.Success?
            && LiveCount(t2.state.bookings, providerId, st, en) >= 2
            && BookedCount(t2.state.slots, providerId, st, en) == 1
  {
    var st, en := s.slots[i].startTime, s.slots[i].endTime;
    var s1 := PC.UpdateAvailabilityStep(s, providerId, slotId, None, None, Some(Available)).state;
    var reopened := s.slots[i].(status := Available);
    assert s1.slots == s.slots[i := reopened];
    BookedCountUpdate(s.slots, i, reopened, providerId, st, en);
    LiveCountWitness(s.bookings, j, providerId, st, en);
    assert s1.bookings == s.bookings;
    assert SlotMatches(s1.slots[i], providerId, st, en, Available);
    var t2 := CC.CreateBookingStep(s1, otherClient, providerId, service, st, en, None);
    assert t2.response.Success?;
    var k :| FirstMatchAt(s1.slots, k, providerId, st, en, Available)
             && t2.state.slots == s1.slots[k := s1.slots[k].(status := Booked)];
    LiveCountAppend(s1.bookings, t2.response.body, providerId, st, en);
    BookedCountUpdate(s1.slots, k, s1.slots[k].(status := Booked), providerId, st, en);
  }

  /** The provider's status change has no transition check, so "cancelling"
      a booking that is already cancelled releases a slot again: when a later
      booking holds the only booked slot of that time, it loses its backing. */
  lemma RecancellingReleasesAnotherBookingsSlot(s: State, providerId: Id, bookingId: Id, j: nat, k: nat)
    requires WellFormed(s)
    requires j < |s.bookings| && s.bookings[j].id == bookingId && s.bookings[j].provider == providerId
    requires s.bookings[j].status == Cancelled
    requires var b := s.bookings[j];
             k < |s.bookings| && Live(s.bookings[k], providerId, b.startTime, b.endTime)
    requires var b := s.bookings[j];
             BookedCount(s.slots, providerId, b.startTime, b.endTime) == 1
    ensures var b := s.bookings[j];
            !Accounted(PC.UpdateBookingStatusStep(s, providerId, bookingId, Cancelled).state)
  {
    var b := s.bookings[j];
    var t := PC.UpdateBookingStatusStep(s, providerId, bookingId, Cancelled);
    assert t.state.bookings == s.bookings[j := b.(status := Cancelled)];
    BookedCountWitness(s.slots, providerId, b.startTime, b.endTime);
    ReleaseCount(s.slots, providerId, b.startTime, b.endTime, providerId, b.startTime, b.endTime);
    assert k != j;
    assert t.state.bookings[k] == s.bookings[k];
    LiveCountWitness(t.state.bookings, k, providerId, b.startTime, b.endTime);
  }

  /** A positive live count has a witness. */
  lemma {:induction false} LiveCountHasWitness(bs: seq<Booking>, p: Id, st: int, en: int)
    requires LiveCount(bs, p, st, en) > 0
    ensures exists k :: 0 <= k < |bs| && Live(bs[k], p, st, en)
  {
    if !Live(bs[0], p, st, en) {
      LiveCountHasWitness(bs[1..], p, st, en);
      var k :| 0 <= k < |bs[1..]| && Live(bs[1..][k], p, st, en);
      assert Live(bs[k + 1], p, st, en);
    }
  }

  /** With the guard against reopening or moving a booked slot that backs a
      live booking, the slot edit keeps the accounting. */
  lemma UpdateAvailabilityGuardedKeepsAccounting(s: State, providerId: Id, slotId: Id, startTime: Option<int>,
                                                 endTime: Option<int>, status: Option<SlotStatus>)
    requires WellFormed(s) && Accounted(s)
    requires status != Some(Booked)
    ensures Accounted(PC.UpdateAvailabilityGuardedStep(s, providerId, slotId, startTime, endTime, status).state)
  {
    var t := PC.UpdateAvailabilityGuardedStep(s, providerId, slotId, startTime, endTime, status);
    if t.response.Success? {
      var i := FindSlot(s.slots, slotId).value;
      var sl := s.slots[i];
      var sl' := PC.UpdatedSlot(sl, startTime, endTime, status);
      assert t.state == s.(slots := s.slots[i := sl']);
      forall p: Id, st: int, en: int
        ensures LiveCount(t.state.bookings, p, st, en) <= BookedCount(t.state.slots, p, st, en)
      {
        BookedCountUpdate(s.slots, i, sl', p, st, en);
        if SlotMatches(sl, p, st, en, Booked) && LiveCount(s.bookings, p, st, en) > 0 {
          LiveCountHasWitness(s.bookings, p, st, en);
          assert PC.BacksSlot(s.bookings, sl);
          assert false;
        }
      }
    }
  }

  /** With the refusal of finished bookings, the provider's status change
      keeps the accounting whatever status it sets. */
  lemma UpdateBookingStatusGuardedKeepsAccounting(s: State, providerId: Id, bookingId: Id, status: BookingStatus)
    requires WellFormed(s) && Accounted(s)
    requires status in {Confirmed, Cancelled, Completed}
    ensures Accounted(PC.UpdateBookingStatusGuardedStep(s, providerId, bookingId, status).state)
  {
    var t := PC.UpdateBookingStatusGuardedStep(s, providerId, bookingId, status);
    if t.response.Success? {
      var i := FindBooking(s.bookings, bookingId).value;
      var b := s.bookings[i];
      assert !IsTerminal(b.status);
      forall p: Id, st: int, en: int
        ensures LiveCount(t.state.bookings, p, st, en) <= BookedCount(t.state.slots, p, st, en)
      {
        LiveCountUpdate(s.bookings, i, b.(status := status), p, st, en);
        if status == Cancelled {
          ReleaseCount(s.slots, providerId, b.startTime, b.endTime, p, st, en);
          if (p, st, en) == (b.provider, b.startTime, b.endTime) {
            LiveCountWitness(s.bookings, i, p, st, en);
            BookedCountWitness(s.slots, p, st, en);
          }
        }
      }
    }
  }
}
