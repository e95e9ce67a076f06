/** The provider-side handlers: publishing, editing and removing slots,
    answering bookings, and the dashboard's upcoming-bookings list. */
module ProviderController {
  import opened Common
  import opened AvailabilityModel
  import opened BookingModel
  import opened Store
  import opened Sequences

  const SevenDaysMs: int := 7 * 24 * 60 * 60 * 1000
  const UpcomingLimit: nat := 10

  /** `createAvailability`: 400 when the end is not after the start; otherwise
      exactly one new available slot, whatever the recurrence (expanding a
      recurrence into further slots is not implemented in the source). */
  function CreateAvailabilityStep(s: State, providerId: Id, startTime: int, endTime: int,
                                  recurrence: Option<Recurrence>, recurrenceEndDate: Option<int>): (t: Step<Slot>)
    requires WellFormed(s)
    ensures WellFormed(t.state)
    ensures endTime <= startTime ==> t == Step(s, Failure(400, "End time must be after start time"))
    ensures startTime < endTime ==>
      && t.response.Success? && t.response.code == 201
      && var sl := t.response.body;
      && sl.id == s.nextId && sl.provider == providerId
      && sl.startTime == startTime && sl.endTime == endTime
      && sl.status == Available
      && sl.recurrence == (if recurrence.Some? then recurrence.value else NoRecurrence)
      && sl.recurrenceEndDate == recurrenceEndDate
      && t.state == s.(slots := s.slots + [sl], nextId := s.nextId + 1)
  {
    if endTime <= startTime then Step(s, Failure(400, "End time must be after start time"))
    else
      var sl := Slot(s.nextId, providerId, startTime, endTime,
                     if recurrence.Some? then recurrence.value else NoRecurrence,
                     recurrenceEndDate, Available);
      Step(s.(slots := s.slots + [sl], nextId := s.nextId + 1), Success(201, sl))
  }

  /** The `$set` of `updateAvailability`: only the supplied fields. */
  function UpdatedSlot(sl: Slot, startTime: Option<int>, endTime: Option<int>, status: Option<SlotStatus>): (r: Slot)
    ensures r.startTime == (if startTime.Some? then startTime.value else sl.startTime)
    ensures r.endTime == (if endTime.Some? then endTime.value else sl.endTime)
    ensures r.status == (if status.Some? then status.value else sl.status)
    ensures r.id == sl.id && r.provider == sl.provider
    ensures r.recurrence == sl.recurrence && r.recurrenceEndDate == sl.recurrenceEndDate
  {
    sl.(startTime := if startTime.Some? then startTime.value else sl.startTime,
        endTime := if endTime.Some? then endTime.value else sl.endTime,
        status := if status.Some? then status.value else sl.status)
  }

  /** `updateAvailability`: 404, then 401 for another provider's slot, then
      400 for blocking a booked slot. Only that slot changes, and only in the
      supplied fields. A booked slot may still be set to 'available', and the
      new times are not range-checked. */
  function UpdateAvailabilityStep(s: State, providerId: Id, slotId: Id, startTime: Option<int>,
                                  endTime: Option<int>, status: Option<SlotStatus>): (t: Step<Slot>)
    requires WellFormed(s)
    requires status != Some(Booked)   // the route accepts 'available' or 'blocked'
    ensures WellFormed(t.state)
    ensures t.response.Failure? ==> t.state == s
    ensures (forall k :: 0 <= k < |s.slots| ==> s.slots[k].id != slotId)
            ==> t.response == Failure(404, "Availability not found")
    ensures forall i :: 0 <= i < |s.slots| && s.slots[i].id == slotId ==>
      var sl := s.slots[i];
      && (sl.provider != providerId ==> t.response == Failure(401, "Not authorized to update this availability"))
      && (sl.provider == providerId && sl.status == Booked && status == Some(Blocked) ==>
            t.response == Failure(400, "Cannot block an already booked slot"))
      && (sl.provider == providerId && !(sl.status == Booked && status == Some(Blocked)) ==>
            && t.response == Success(200, UpdatedSlot(sl, startTime, endTime, status))
            && t.state == s.(slots := s.slots[i := UpdatedSlot(sl, startTime, endTime, status)]))
  {
    match FindSlot(s.slots, slotId)
    case None => Step(s, Failure(404, "Availability not found"))
    case Some(i) =>
      var sl := s.slots[i];
      SlotIdUnique(s.slots, s.nextId, i);
      if sl.provider != providerId then Step(s, Failure(401, "Not authorized to update this availability"))
      else if sl.status == Booked && status == Some(Blocked) then
        Step(s, Failure(400, "Cannot block an already booked slot"))
      else
        var sl' := UpdatedSlot(sl, startTime, endTime, status);
        SlotUpdateKeepsIds(s.slots, s.nextId, i, sl');
        Step(s.(slots := s.slots[i := sl']), Success(200, sl'))
  }

  /** Some booking that is still pending or confirmed sits on exactly this
      slot's provider and times. */
  predicate BacksSlot(bs: seq<Booking>, sl: Slot) {
    exists k :: 0 <= k < |bs| && bs[k].provider == sl.provider && bs[k].startTime == sl.startTime
                && bs[k].endTime == sl.endTime && !IsTerminal(bs[k].status)
  }

  /** The slot edit with the guard that `updateAvailability` lacks: besides
      blocking, a booked slot that still backs a live booking can be neither
      reopened nor moved, since either leaves that booking without its slot.
      Every other answer is the one of `UpdateAvailabilityStep`. */
  function UpdateAvailabilityGuardedStep(s: State, providerId: Id, slotId: Id, startTime: Option<int>,
                                         endTime: Option<int>, status: Option<SlotStatus>): (t: Step<Slot>)
    requires WellFormed(s)
    requires status != Some(Booked)
    ensures WellFormed(t.state)
    ensures t.response.Failure? ==> t.state == s
    ensures (forall k :: 0 <= k < |s.slots| ==> s.slots[k].id != slotId)
            ==> t.response == Failure(404, "Availability not found")
    ensures forall i :: 0 <= i < |s.slots| && s.slots[i].id == slotId ==>
      var sl := s.slots[i];
      && (sl.provider != providerId ==> t.response == Failure(401, "Not authorized to update this availability"))
      && (sl.provider == providerId && sl.status == Booked && status == Some(Blocked) ==>
            t.response == Failure(400, "Cannot block an already booked slot"))
      && (sl.provider == providerId && sl.status == Booked && status != Some(Blocked) && BacksSlot(s.bookings, sl) ==>
            t.response == Failure(400, "Cannot change a booked slot with a live booking"))
      && (sl.provider == providerId && !(sl.status == Booked && (status == Some(Blocked) || BacksSlot(s.bookings, sl))) ==>
            && t.response == Success(200, UpdatedSlot(sl, startTime, endTime, status))
            && t.state == s.(slots := s.slots[i := UpdatedSlot(sl, startTime, endTime, status)]))
  {
    match FindSlot(s.slots, slotId)
    case None => Step(s, Failure(404, "Availability not found"))
    case Some(i) =>
      var sl := s.slots[i];
      SlotIdUnique(s.slots, s.nextId, i);
      if sl.provider != providerId then Step(s, Failure(401, "Not authorized to update this availability"))
      else if sl.status == Booked && status == Some(Blocked) then
        Step(s, Failure(400, "Cannot block an already booked slot"))
      else if sl.status == Booked && BacksSlot(s.bookings, sl) then
        Step(s, Failure(400, "Cannot change a booked slot with a live booking"))
      else
        var sl' := UpdatedSlot(sl, startTime, endTime, status);
        SlotUpdateKeepsIds(s.slots, s.nextId, i, sl');
        Step(s.(slots := s.slots[i := sl']), Success(200, sl'))
  }

  /** `deleteAvailability`: 404, then 401, then 400 for a booked slot; otherwise
      exactly that slot is removed. */
  function DeleteAvailabilityStep(s: State, providerId: Id, slotId: Id): (t: Step<string>)
    requires WellFormed(s)
    ensures WellFormed(t.state)
    ensures t.response.Failure? ==> t.state == s
    ensures (forall k :: 0 <= k < |s.slots| ==> s.slots[k].id != slotId)
            ==> t.response == Failure(404, "Availability not found")
    ensures forall i :: 0 <= i < |s.slots| && s.slots[i].id == slotId ==>
      var sl := s.slots[i];
      && (sl.provider != providerId ==> t.response == Failure(401, "Not authorized to delete this availability"))
      && (sl.provider == providerId && sl.status == Booked ==>
            t.response == Failure(400, "Cannot delete an already booked slot"))
      && (sl.provider == providerId && sl.status != Booked ==>
            && t.response == Success(200, "Availability slot removed")
            && t.state == s.(slots := RemoveAt(s.slots, i)))
    ensures t.response.Success? ==>
              && |t.state.slots| == |s.slots| - 1
              && forall x :: x in t.state.slots ==> x in s.slots && x.id != slotId
  {
    match FindSlot(s.slots, slotId)
    case None => Step(s, Failure(404, "Availability not found"))
    case Some(i) =>
      SlotIdUnique(s.slots, s.nextId, i);
      var sl := s.slots[i];
      if sl.provider != providerId then Step(s, Failure(401, "Not authorized to delete this availability"))
      else if sl.status == Booked then Step(s, Failure(400, "Cannot delete an already booked slot"))
      else
        var rest := RemoveAt(s.slots, i);
        SlotRemoveKeepsIds(s.slots, s.nextId, i);
        Step(s.(slots := rest), Success(200, "Availability slot removed"))
  }

  /** `updateBookingStatus`: 404, then 401 for another provider's booking;
      then the requested status is written with no transition check. Setting
      'cancelled' releases the first booked slot with the booking's exact
      boundaries, if any. */
  function UpdateBookingStatusStep(s: State, providerId: Id, bookingId: Id, status: BookingStatus): (t: Step<Booking>)
    requires WellFormed(s)
    requires status in {Confirmed, Cancelled, Completed}   // the route's `status` check
    ensures WellFormed(t.state)
    ensures t.response.Failure? ==> t.state == s
    ensures (forall k :: 0 <= k < |s.bookings| ==> s.bookings[k].id != bookingId)
            ==> t.response == Failure(404, "Booking not found")
    ensures forall i :: 0 <= i < |s.bookings| && s.bookings[i].id == bookingId ==>
      var b := s.bookings[i];
      && (b.provider != providerId ==> t.response == Failure(401, "Not authorized to update this booking"))
      && (b.provider == providerId ==>
            && t.response == Success(200, b.(status := status))
            && t.state == s.(bookings := s.bookings[i := b.(status := status)],
                             slots := if status == Cancelled
                                      then ReleaseSlot(s.slots, providerId, b.startTime, b.endTime)
                                      else s.slots))
  {
    match FindBooking(s.bookings, bookingId)
    case None => Step(s, Failure(404, "Booking not found"))
    case Some(i) =>
      var b := s.bookings[i];
      BookingIdUnique(s.bookings, s.nextId, i);
      if b.provider != providerId then Step(s, Failure(401, "Not authorized to update this booking"))
      else
        var b' := b.(status := status);
        var slots := if status == Cancelled then ReleaseSlot(s.slots, providerId, b'.startTime, b'.endTime)
                     else s.slots;
        BookingUpdateKeepsIds(s.bookings, s.nextId, i, b');
        SlotIdsKept(s.slots, slots, s.nextId);
        Step(s.(bookings := s.bookings[i := b'], slots := slots), Success(200, b'))
  }

  /** The status change with the check that `updateBookingStatus` lacks: as
      the client's cancel does, a booking that is already cancelled,
      completed or a no-show is refused, so a slot is released only for a
      booking that was still pending or confirmed. Every other answer is the one of
      `UpdateBookingStatusStep`. */
  function UpdateBookingStatusGuardedStep(s: State, providerId: Id, bookingId: Id, status: BookingStatus): (t: Step<Booking>)
    requires WellFormed(s)
    requires status in {Confirmed, Cancelled, Completed}
    ensures WellFormed(t.state)
    ensures t.response.Failure? ==> t.state == s
    ensures (forall k :: 0 <= k < |s.bookings| ==> s.bookings[k].id != bookingId)
            ==> t.response == Failure(404, "Booking not found")
    ensures forall i :: 0 <= i < |s.bookings| && s.bookings[i].id == bookingId ==>
      var b := s.bookings[i];
      && (b.provider != providerId ==> t.response == Failure(401, "Not authorized to update this booking"))
      && (b.provider == providerId && IsTerminal(b.status) ==>
            t.response == Failure(400, "Cannot update a booking with status: " + BookingStatusName(b.status)))
      && (b.provider == providerId && !IsTerminal(b.status) ==>
            && t.response == Success(200, b.(status := status))
            && t.state == s.(bookings := s.bookings[i := b.(status := status)],
                             slots := if status == Cancelled
                                      then ReleaseSlot(s.slots, providerId, b.startTime, b.endTime)
                                      else s.slots))
  {
    match FindBooking(s.bookings, bookingId)
    case None => Step(s, Failure(404, "Booking not found"))
    case Some(i) =>
      var b := s.bookings[i];
      BookingIdUnique(s.bookings, s.nextId, i);
      if b.provider != providerId then Step(s, Failure(401, "Not authorized to update this booking"))
      else if IsTerminal(b.status) then
        Step(s, Failure(400, "Cannot update a booking with status: " + BookingStatusName(b.status)))
      else
        var b' := b.(status := status);
        var slots := if status == Cancelled then ReleaseSlot(s.slots, providerId, b'.startTime, b'.endTime)
                     else s.slots;
        BookingUpdateKeepsIds(s.bookings, s.nextId, i, b');
        SlotIdsKept(s.slots, slots, s.nextId);
        Step(s.(bookings := s.bookings[i := b'], slots := slots), Success(200, b'))
  }

  function BookingStart(b: Booking): int { b.startTime }

  /** The query `{ provider, startTime: { $gte: now, $lte: now + 7 days },
      status: { $in: ['pending', 'confirmed'] } }` in natural order. */
  function UpcomingCandidates(bookings: seq<Booking>, providerId: Id, now: int): (r: seq<Booking>)
    ensures forall b :: b in r <==> b in bookings && b.provider == providerId
                                    && now <= b.startTime <= now + SevenDaysMs
                                    && (b.status == Pending || b.status == Confirmed)
  {
    if |bookings| == 0 then []
    else
      var rest := UpcomingCandidates(bookings[1..], providerId, now);
      assert bookings == [bookings[0]] + bookings[1..];
      var b := bookings[0];
      if b.provider == providerId && now <= b.startTime <= now + SevenDaysMs
         && (b.status == Pending || b.status == Confirmed)
      then [b] + rest else rest
  }

  /** The upcoming-bookings part of the provider dashboard. */
  datatype Upcoming = Upcoming(upcomingBookings: seq<Booking>, totalBookings: nat)

  /** `getDashboardStats`' upcoming bookings: the provider's pending or
      confirmed bookings of the next seven days, ascending by start, at most
      ten, and those with the earliest starts; `totalBookings` is how many
      were listed. */
  function UpcomingBookings(s: State, providerId: Id, now: int): (r: Upcoming)
    ensures r.totalBookings == |r.upcomingBookings| <= UpcomingLimit
    ensures SortedBy(r.upcomingBookings, BookingStart)
    ensures forall b :: b in r.upcomingBookings ==>
              b in s.bookings && b.provider == providerId && now <= b.startTime <= now + SevenDaysMs
              && (b.status == Pending || b.status == Confirmed)
    ensures |r.upcomingBookings| == if |UpcomingCandidates(s.bookings, providerId, now)| < UpcomingLimit
                                    then |UpcomingCandidates(s.bookings, providerId, now)| else UpcomingLimit
    ensures multiset(r.upcomingBookings) <= multiset(UpcomingCandidates(s.bookings, providerId, now))
    ensures forall b, c :: b in r.upcomingBookings && c in UpcomingCandidates(s.bookings, providerId, now)
                           && multiset(r.upcomingBookings)[c] < multiset(UpcomingCandidates(s.bookings, providerId, now))[c]
                           ==> b.startTime <= c.startTime
  {
    var candidates := UpcomingCandidates(s.bookings, providerId, now);
    var sorted := SortBy(candidates, BookingStart);
    var list := Take(sorted, UpcomingLimit);
    TakeKeepsSmallest(sorted, UpcomingLimit, BookingStart);
    forall b | b in list
      ensures b in candidates
    {
      assert b in multiset(sorted);
    }
    forall b, c | b in list && c in candidates && multiset(list)[c] < multiset(candidates)[c]
      ensures b.startTime <= c.startTime
    {
      LeftOutHasLaterStart(sorted, list, b, c);
    }
    assert sorted == list + sorted[|list|..];
    assert multiset(sorted) == multiset(list) + multiset(sorted[|list|..]);
    Upcoming(list, |list|)
  }

  /** From sorted `sorted` with prefix `list`: an element kept fewer times than
      it occurs lies at some position beyond the prefix, so it starts no
      earlier than anything kept. */
  lemma LeftOutHasLaterStart(sorted: seq<Booking>, list: seq<Booking>, b: Booking, c: Booking)
    requires list <= sorted
    requires forall i, j :: 0 <= i < |list| <= j < |sorted| ==> BookingStart(sorted[i]) <= BookingStart(sorted[j])
    requires b in list
    requires multiset(list)[c] < multiset(sorted)[c]
    ensures b.startTime <= c.startTime
  {
    var tail := sorted[|list|..];
    assert sorted == list + tail;
    assert multiset(sorted) == multiset(list) + multiset(tail);
    assert c in multiset(tail);
    var j :| 0 <= j < |tail| && tail[j] == c;
    var i :| 0 <= i < |list| && list[i] == b;
    assert sorted[i] == b && sorted[|list| + j] == c;
  }

  /** The handler for `POST /api/providers/availability`. */
  method CreateAvailability(db: Db, providerId: Id, startTime: int, endTime: int,
                            recurrence: Option<Recurrence>, recurrenceEndDate: Option<int>) returns (r: Response<Slot>)
    requires db.Valid()
    modifies db
    ensures db.Valid()
    ensures Step(db.Snapshot(), r)
            == CreateAvailabilityStep(old(db.Snapshot()), providerId, startTime, endTime, recurrence, recurrenceEndDate)
  {
    if endTime <= startTime {
      return Failure(400, "End time must be after start time");
    }
    var slot := Slot(db.nextId, providerId, startTime, endTime,
                     if recurrence.Some? then recurrence.value else NoRecurrence,
                     recurrenceEndDate, Available);
    db.slots := db.slots + [slot];
    db.nextId := db.nextId + 1;
    r := Success(201, slot);
  }

  /** The handler for `PUT /api/providers/availability/:id`. The `$set`
      document is built one supplied field at a time. */
  method UpdateAvailability(db: Db, providerId: Id, slotId: Id, startTime: Option<int>,
                            endTime: Option<int>, status: Option<SlotStatus>) returns (r: Response<Slot>)
    requires db.Valid()
    requires status != Some(Booked)
    modifies db
    ensures db.Valid()
    ensures Step(db.Snapshot(), r)
            == UpdateAvailabilityStep(old(db.Snapshot()), providerId, slotId, startTime, endTime, status)
  {
    var found := FindSlot(db.slots, slotId);
    if found.None? {
      return Failure(404, "Availability not found");
    }
    var i := found.value;
    var slot := db.slots[i];
    if slot.provider != providerId {
      return Failure(401, "Not authorized to update this availability");
    }
    if slot.status == Booked && status == Some(Blocked) {
      return Failure(400, "Cannot block an already booked slot");
    }
    if startTime.Some? { slot := slot.(startTime := startTime.value); }
    if endTime.Some? { slot := slot.(endTime := endTime.value); }
    if status.Some? { slot := slot.(status := status.value); }
    assert slot == UpdatedSlot(db.slots[i], startTime, endTime, status);
    SlotUpdateKeepsIds(db.slots, db.nextId, i, slot);
    db.slots := db.slots[i := slot];
    r := Success(200, slot);
  }

  /** The handler for `DELETE /api/providers/availability/:id`. */
  method DeleteAvailability(db: Db, providerId: Id, slotId: Id) returns (r: Response<string>)
    requires db.Valid()
    modifies db
    ensures db.Valid()
    ensures Step(db.Snapshot(), r) == DeleteAvailabilityStep(old(db.Snapshot()), providerId, slotId)
  {
    var found := FindSlot(db.slots, slotId);
    if found.None? {
      return Failure(404, "Availability not found");
    }
    var i := found.value;
    if db.slots[i].provider != providerId {
      return Failure(401, "Not authorized to delete this availability");
    }
    if db.slots[i].status == Booked {
      return Failure(400, "Cannot delete an already booked slot");
    }
    db.slots := RemoveAt(db.slots, i);
    r := Success(200, "Availability slot removed");
  }

  /** The handler for `PUT /api/providers/bookings/:id/status`. */
  method UpdateBookingStatus(db: Db, providerId: Id, bookingId: Id, status: BookingStatus)
    returns (r: Response<Booking>)
    requires db.Valid()
    requires status in {Confirmed, Cancelled, Completed}
    modifies db
    ensures db.Valid()
    ensures Step(db.Snapshot(), r) == UpdateBookingStatusStep(old(db.Snapshot()), providerId, bookingId, status)
  {
    var found := FindBooking(db.bookings, bookingId);
    if found.None? {
      return Failure(404, "Booking not found");
    }
    var i := found.value;
    var booking := db.bookings[i];
    if booking.provider != providerId {
      return Failure(401, "Not authorized to update this booking");
    }
    booking := booking.(status := status);
    db.bookings := db.bookings[i := booking];
    if status == Cancelled {
      db.slots := ReleaseSlot(db.slots, providerId, booking.startTime, booking.endTime);
    }
    r := Success(200, booking);
  }
}
