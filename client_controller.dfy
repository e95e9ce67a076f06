/** The client-side handlers: browsing a provider's open slots, booking one,
    reading, cancelling and paying for one's own bookings. */
module ClientController {
  import opened Common
  import opened AvailabilityModel
  import opened BookingModel
  import P = PaymentModel
  import opened Store
  import opened Sequences

  const MsPerMinute: int := 60000
  const ThirtyDaysMs: int := 30 * 24 * 60 * MsPerMinute

  /** The booking's length in minutes, `(end - start) / (1000 * 60)`, kept
      exact (the source does not round it). */
  function DurationMinutes(startTime: int, endTime: int): (d: real)
    ensures d * 60000.0 == (endTime - startTime) as real
    ensures startTime < endTime ==> d > 0.0
  {
    (endTime - startTime) as real / 60000.0
  }

  function SlotStart(sl: Slot): int { sl.startTime }

  /** The `startTime` window of the availability query: the given dates when
      both are given, otherwise the 30 days from `now`. */
  function AvailabilityWindow(startDate: Option<int>, endDate: Option<int>, now: int): (w: (int, int))
    ensures startDate.Some? && endDate.Some? ==> w == (startDate.value, endDate.value)
    ensures !(startDate.Some? && endDate.Some?) ==> w == (now, now + ThirtyDaysMs)
  {
    if startDate.Some? && endDate.Some? then (startDate.value, endDate.value)
    else (now, now + ThirtyDaysMs)
  }

  /** The query `{ provider, status: 'available', startTime: { $gte, $lte } }`
      in natural order. */
  function OpenSlots(slots: seq<Slot>, provider: Id, from: int, to: int): (r: seq<Slot>)
    ensures forall x :: x in r <==> x in slots && x.provider == provider && x.status == Available
                                    && from <= x.startTime <= to
    ensures |r| <= |slots|
  {
    if |slots| == 0 then []
    else
      var rest := OpenSlots(slots[1..], provider, from, to);
      assert slots == [slots[0]] + slots[1..];
      var x := slots[0];
      if x.provider == provider && x.status == Available && from <= x.startTime <= to
      then [x] + rest else rest
  }

  /** `getProviderAvailability`: 404 unless the id names a provider;
      otherwise exactly that provider's available slots starting inside the
      window, ascending by start time. */
  function ProviderAvailability(s: State, providerId: Id, startDate: Option<int>, endDate: Option<int>,
                                now: int): (r: Response<seq<Slot>>)
    ensures !IsProvider(s.users, providerId) ==> r == Failure(404, "Provider not found")
    ensures IsProvider(s.users, providerId) ==>
      var (lo, hi) := AvailabilityWindow(startDate, endDate, now);
      && r.Success? && r.code == 200
      && SortedBy(r.body, SlotStart)
      && (forall x :: x in r.body <==> x in s.slots && x.provider == providerId && x.status == Available
                                         && lo <= x.startTime <= hi)
      && multiset(r.body) == multiset(OpenSlots(s.slots, providerId, lo, hi))
  {
    if !IsProvider(s.users, providerId) then Failure(404, "Provider not found")
    else
      var (lo, hi) := AvailabilityWindow(startDate, endDate, now);
      var open := OpenSlots(s.slots, providerId, lo, hi);
      var sorted := SortBy(open, SlotStart);
      assert forall x :: x in sorted <==> x in open by {
        forall x ensures x in sorted <==> x in open {
          assert x in sorted <==> x in multiset(sorted);
          assert x in open <==> x in multiset(open);
        }
      }
      Success(200, sorted)
  }

  /** `createBooking`. Guards in the source's order: the range, then the
      provider, then an exact-match available slot. On success the booking is
      appended and exactly the first matching slot becomes booked. */
  function CreateBookingStep(s: State, clientId: Id, providerId: Id, service: string,
                             startTime: int, endTime: int, notes: Option<string>): (t: Step<Booking>)
    requires WellFormed(s)
    ensures WellFormed(t.state)
    ensures t.response.Failure? ==> t.state == s
    ensures endTime <= startTime ==> t.response == Failure(400, "End time must be after start time")
    ensures startTime < endTime && !IsProvider(s.users, providerId)
            ==> t.response == Failure(404, "Provider not found")
    ensures startTime < endTime && IsProvider(s.users, providerId)
            && !HasMatch(s.slots, providerId, startTime, endTime, Available)
            ==> t.response == Failure(400, "Selected time slot is not available")
    ensures t.response.Success? <==>
            startTime < endTime && IsProvider(s.users, providerId)
            && HasMatch(s.slots, providerId, startTime, endTime, Available)
    ensures t.response.Success? ==>
      var b := t.response.body;
      && t.response.code == 201
      && b.id == s.nextId && b.client == clientId && b.provider == providerId && b.service == service
      && b.startTime == startTime && b.endTime == endTime && b.notes == notes
      && b.duration * 60000.0 == (endTime - startTime) as real
      && b.status == Pending && b.paymentStatus == NotPaid
      && b.cancellationReason.None? && b.paymentId.None?
      && t.state.bookings == s.bookings + [b]
      && t.state.users == s.users && t.state.payments == s.payments && t.state.nextId == s.nextId + 1
      && exists i :: FirstMatchAt(s.slots, i, providerId, startTime, endTime, Available)
                     && t.state.slots == s.slots[i := s.slots[i].(status := Booked)]
  {
    if endTime <= startTime then Step(s, Failure(400, "End time must be after start time"))
    else if !IsProvider(s.users, providerId) then Step(s, Failure(404, "Provider not found"))
    else match FindMatchingSlot(s.slots, providerId, startTime, endTime, Available)
      case None => Step(s, Failure(400, "Selected time slot is not available"))
      case Some(i) =>
        var b := Booking(s.nextId, clientId, providerId, service, startTime, endTime,
                         DurationMinutes(startTime, endTime), Pending, notes, None, NotPaid, None);
        var slots := s.slots[i := s.slots[i].(status := Booked)];
        Step(State(s.users, slots, s.bookings + [b], s.payments, s.nextId + 1), Success(201, b))
  }

  /** `getBookingById` on the client side: the booking, if it is the
      requester's. */
  function ClientBooking(s: State, clientId: Id, bookingId: Id): (r: Response<Booking>)
    requires WellFormed(s)
    ensures (forall k :: 0 <= k < |s.bookings| ==> s.bookings[k].id != bookingId)
            ==> r == Failure(404, "Booking not found")
    ensures forall i :: 0 <= i < |s.bookings| && s.bookings[i].id == bookingId ==>
      if s.bookings[i].client != clientId
      then r == Failure(401, "Not authorized to access this booking")
      else r == Success(200, s.bookings[i])
  {
    match FindBooking(s.bookings, bookingId)
    case None => Failure(404, "Booking not found")
    case Some(i) =>
      if s.bookings[i].client != clientId then Failure(401, "Not authorized to access this booking")
      else Success(200, s.bookings[i])
  }

  /** The booking as `cancelBooking` rewrites it. */
  function CancelledBooking(b: Booking, reason: Option<string>): Booking {
    b.(status := Cancelled, cancellationReason := Some(OrElse(reason, "Client cancelled")))
  }

  /** `cancelBooking`: 404, then 401 for someone else's booking, then 400 for
      a booking already cancelled, completed or no-show. On success the
      booking is cancelled with the given reason (or 'Client cancelled') and
      the first booked slot with its exact boundaries is released, if any. */
  function CancelBookingStep(s: State, clientId: Id, bookingId: Id, reason: Option<string>): (t: Step<Booking>)
    requires WellFormed(s)
    ensures WellFormed(t.state)
    ensures t.response.Failure? ==> t.state == s
    ensures (forall k :: 0 <= k < |s.bookings| ==> s.bookings[k].id != bookingId)
            ==> t.response == Failure(404, "Booking not found")
    ensures forall i :: 0 <= i < |s.bookings| && s.bookings[i].id == bookingId ==>
      var b := s.bookings[i];
      && (b.client != clientId ==> t.response == Failure(401, "Not authorized to cancel this booking"))
      && (b.client == clientId && IsTerminal(b.status) ==>
            t.response == Failure(400, "Cannot cancel a booking with status: " + BookingStatusName(b.status)))
      && (b.client == clientId && !IsTerminal(b.status) ==>
            && t.response == Success(200, CancelledBooking(b, reason))
            && t.response.body.status == Cancelled
            && t.response.body.cancellationReason == Some(if Truthy(reason) then reason.value else "Client cancelled")
            && t.state == s.(bookings := s.bookings[i := CancelledBooking(b, reason)],
                             slots := ReleaseSlot(s.slots, b.provider, b.startTime, b.endTime)))
  {
    match FindBooking(s.bookings, bookingId)
    case None => Step(s, Failure(404, "Booking not found"))
    case Some(i) =>
      var b := s.bookings[i];
      BookingIdUnique(s.bookings, s.nextId, i);
      if b.client != clientId then Step(s, Failure(401, "Not authorized to cancel this booking"))
      else if IsTerminal(b.status) then
        Step(s, Failure(400, "Cannot cancel a booking with status: " + BookingStatusName(b.status)))
      else
        var b' := CancelledBooking(b, reason);
        BookingUpdateKeepsIds(s.bookings, s.nextId, i, b');
        SlotIdsKept(s.slots, ReleaseSlot(s.slots, b'.provider, b'.startTime, b'.endTime), s.nextId);
        Step(s.(bookings := s.bookings[i := b'],
                slots := ReleaseSlot(s.slots, b'.provider, b'.startTime, b'.endTime)),
             Success(200, b'))
  }

  /** The booking as `processPayment` rewrites it: paid, linked to the
      payment, and a pending booking becomes confirmed. */
  function PaidBooking(b: Booking, paymentId: Id): Booking {
    b.(paymentStatus := Paid, paymentId := Some(paymentId),
       status := if b.status == Pending then Confirmed else b.status)
  }

  /** `processPayment`: 404, then 401 for someone else's booking, then 400 if
      it is already paid. On success a completed payment with a fresh id is
      appended and the booking is marked paid; pending becomes confirmed,
      every other status is kept. */
  function ProcessPaymentStep(s: State, clientId: Id, bookingId: Id, amount: real, currency: string,
                              payMethod: P.PaymentMethod, transactionId: string): (t: Step<(P.Payment, Booking)>)
    requires WellFormed(s)
    ensures WellFormed(t.state)
    ensures t.response.Failure? ==> t.state == s
    ensures (forall k :: 0 <= k < |s.bookings| ==> s.bookings[k].id != bookingId)
            ==> t.response == Failure(404, "Booking not found")
    ensures forall i :: 0 <= i < |s.bookings| && s.bookings[i].id == bookingId ==>
      var b := s.bookings[i];
      && (b.client != clientId ==> t.response == Failure(401, "Not authorized to pay for this booking"))
      && (b.client == clientId && b.paymentStatus == Paid ==>
            t.response == Failure(400, "Booking has already been paid for"))
      && (b.client == clientId && b.paymentStatus != Paid ==>
            var pay := P.Payment(s.nextId, bookingId, amount, currency, payMethod, P.Completed, Some(transactionId), None);
            && t.response == Success(201, (pay, PaidBooking(b, s.nextId)))
            && t.response.body.1.paymentStatus == Paid
            && t.response.body.1.paymentId == Some(t.response.body.0.id)
            && t.response.body.1.status == (if b.status == Pending then Confirmed else b.status)
            && t.state == s.(bookings := s.bookings[i := PaidBooking(b, s.nextId)],
                             payments := s.payments + [pay], nextId := s.nextId + 1))
  {
    match FindBooking(s.bookings, bookingId)
    case None => Step(s, Failure(404, "Booking not found"))
    case Some(i) =>
      var b := s.bookings[i];
      BookingIdUnique(s.bookings, s.nextId, i);
      if b.client != clientId then Step(s, Failure(401, "Not authorized to pay for this booking"))
      else if b.paymentStatus == Paid then Step(s, Failure(400, "Booking has already been paid for"))
      else
        var pay := P.Payment(s.nextId, bookingId, amount, currency, payMethod, P.Completed, Some(transactionId), None);
        var b' := PaidBooking(b, pay.id);
        BookingUpdateKeepsIds(s.bookings, s.nextId, i, b');
        PaymentAppendKeepsIds(s.payments, s.nextId, pay);
        Step(s.(bookings := s.bookings[i := b'], payments := s.payments + [pay], nextId := s.nextId + 1),
             Success(201, (pay, b')))
  }

  /** The handler for `POST /api/clients/bookings`. */
  method CreateBooking(db: Db, clientId: Id, providerId: Id, service: string,
                       startTime: int, endTime: int, notes: Option<string>) returns (r: Response<Booking>)
    requires db.Valid()
    requires service != ""   // the route's `service` check
    modifies db
    ensures db.Valid()
    ensures Step(db.Snapshot(), r)
            == CreateBookingStep(old(db.Snapshot()), clientId, providerId, service, startTime, endTime, notes)
  {
    var duration := DurationMinutes(startTime, endTime);
    if endTime <= startTime {
      return Failure(400, "End time must be after start time");
    }
    if !IsProvider(db.users, providerId) {
      return Failure(404, "Provider not found");
    }
    var found := FindMatchingSlot(db.slots, providerId, startTime, endTime, Available);
    if found.None? {
      return Failure(400, "Selected time slot is not available");
    }
    var booking := Booking(db.nextId, clientId, providerId, service, startTime, endTime, duration,
                           Pending, notes, None, NotPaid, None);
    var i := found.value;
    SlotUpdateKeepsIds(db.slots, db.nextId, i, db.slots[i].(status := Booked));
    BookingAppendKeepsIds(db.bookings, db.nextId, booking);
    db.bookings := db.bookings + [booking];
    db.nextId := db.nextId + 1;
    db.slots := db.slots[i := db.slots[i].(status := Booked)];
    r := Success(201, booking);
  }

  /** The handler for `PUT /api/clients/bookings/:id/cancel`. */
  method CancelBooking(db: Db, clientId: Id, bookingId: Id, reason: Option<string>) returns (r: Response<Booking>)
    requires db.Valid()
    modifies db
    ensures db.Valid()
    ensures Step(db.Snapshot(), r) == CancelBookingStep(old(db.Snapshot()), clientId, bookingId, reason)
  {
    var found := FindBooking(db.bookings, bookingId);
    if found.None? {
      return Failure(404, "Booking not found");
    }
    var i := found.value;
    var booking := db.bookings[i];
    if booking.client != clientId {
      return Failure(401, "Not authorized to cancel this booking");
    }
    if IsTerminal(booking.status) {
      return Failure(400, "Cannot cancel a booking with status: " + BookingStatusName(booking.status));
    }
    booking := CancelledBooking(booking, reason);
    db.bookings := db.bookings[i := booking];
    db.slots := ReleaseSlot(db.slots, booking.provider, booking.startTime, booking.endTime);
    r := Success(200, booking);
  }

  /** The handler for `POST /api/clients/payments`; the transaction id, made
      from the clock and a random number in the source, is a parameter. */
  method ProcessPayment(db: Db, clientId: Id, bookingId: Id, amount: real, currency: string,
                        payMethod: P.PaymentMethod, transactionId: string)
    returns (r: Response<(P.Payment, Booking)>)
    requires db.Valid()
    requires currency != ""   // the route's `currency` check
    modifies db
    ensures db.Valid()
    ensures Step(db.Snapshot(), r)
            == ProcessPaymentStep(old(db.Snapshot()), clientId, bookingId, amount, currency, payMethod, transactionId)
  {
    var found := FindBooking(db.bookings, bookingId);
    if found.None? {
      return Failure(404, "Booking not found");
    }
    var i := found.value;
    var booking := db.bookings[i];
    if booking.client != clientId {
      return Failure(401, "Not authorized to pay for this booking");
    }
    if booking.paymentStatus == Paid {
      return Failure(400, "Booking has already been paid for");
    }
    var payment := P.Payment(db.nextId, bookingId, amount, currency, payMethod, P.Completed,
                             Some(transactionId), None);
    PaymentAppendKeepsIds(db.payments, db.nextId, payment);
    BookingUpdateKeepsIds(db.bookings, db.nextId, i, PaidBooking(booking, payment.id));
    db.payments := db.payments + [payment];
    db.nextId := db.nextId + 1;
    booking := PaidBooking(booking, payment.id);
    db.bookings := db.bookings[i := booking];
    r := Success(201, (payment, booking));
  }
}
