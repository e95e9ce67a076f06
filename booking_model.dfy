/** The booking document: a client's claim on a provider's time. */
module BookingModel {
  import opened Common

  datatype BookingStatus = Pending | Confirmed | Completed | Cancelled | NoShow

  /** The booking's `paymentStatus`. */
  datatype PaymentState = NotPaid | PaymentPending | Paid | Refunded

  /** `client`, `provider`, `service`, `startTime`, `endTime` and `duration`
      are required, so they are plain components; `notes`,
      `cancellationReason` and `paymentId` are optional. Times are
      milliseconds and `duration` is in minutes, kept exact. The
      `createdAt`/`updatedAt` stamps come from the clock and are not modelled. */
  datatype Booking = Booking(
    id: Id,
    client: Id,
    provider: Id,
    service: string,
    startTime: int,
    endTime: int,
    duration: real,
    status: BookingStatus,
    notes: Option<string>,
    cancellationReason: Option<string>,
    paymentStatus: PaymentState,
    paymentId: Option<Id>)

  function BookingStatusName(st: BookingStatus): string {
    match st
    case Pending => "pending"
    case Confirmed => "confirmed"
    case Completed => "completed"
    case Cancelled => "cancelled"
    case NoShow => "no-show"
  }

  function PaymentStateName(ps: PaymentState): string {
    match ps
    case NotPaid => "not_paid"
    case PaymentPending => "pending"
    case Paid => "paid"
    case Refunded => "refunded"
  }

  /** The enum check on `status`. */
  function ParseBookingStatus(s: string): (r: Option<BookingStatus>)
    ensures r.Some? <==> s in {"pending", "confirmed", "completed", "cancelled", "no-show"}
    ensures r.Some? ==> BookingStatusName(r.value) == s
    ensures forall st :: s == BookingStatusName(st) ==> r == Some(st)
  {
    if s == "pending" then Some(Pending)
    else if s == "confirmed" then Some(Confirmed)
    else if s == "completed" then Some(Completed)
    else if s == "cancelled" then Some(Cancelled)
    else if s == "no-show" then Some(NoShow)
    else None
  }

  /** The enum check on `paymentStatus`. */
  function ParsePaymentState(s: string): (r: Option<PaymentState>)
    ensures r.Some? <==> s in {"not_paid", "pending", "paid", "refunded"}
    ensures r.Some? ==> PaymentStateName(r.value) == s
    ensures forall ps :: s == PaymentStateName(ps) ==> r == Some(ps)
  {
    if s == "not_paid" then Some(NotPaid)
    else if s == "pending" then Some(PaymentPending)
    else if s == "paid" then Some(Paid)
    else if s == "refunded" then Some(Refunded)
    else None
  }

  /** Casting a stored `status`: absent means 'pending'. */
  function CastBookingStatus(raw: Option<string>): (r: Option<BookingStatus>)
    ensures raw.None? ==> r == Some(Pending)
    ensures raw.Some? ==> (r.Some? <==> raw.value in {"pending", "confirmed", "completed", "cancelled", "no-show"})
    ensures raw.Some? && r.Some? ==> BookingStatusName(r.value) == raw.value
  {
    if raw.None? then Some(Pending) else ParseBookingStatus(raw.value)
  }

  /** Casting a stored `paymentStatus`: absent means 'not_paid'. */
  function CastPaymentState(raw: Option<string>): (r: Option<PaymentState>)
    ensures raw.None? ==> r == Some(NotPaid)
    ensures raw.Some? ==> (r.Some? <==> raw.value in {"not_paid", "pending", "paid", "refunded"})
    ensures raw.Some? && r.Some? ==> PaymentStateName(r.value) == raw.value
  {
    if raw.None? then Some(NotPaid) else ParsePaymentState(raw.value)
  }

  /** The statuses a client may no longer cancel from. */
  predicate IsTerminal(st: BookingStatus) {
    st == Cancelled || st == Completed || st == NoShow
  }
}
