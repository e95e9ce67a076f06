/** The payment document recorded against a booking. */
module PaymentModel {
  import opened Common

  datatype PaymentMethod = Stripe | Razorpay | PayPal | OtherMethod

  datatype PaymentStatus = Pending | Completed | Failed | Refunded

  /** `booking`, `amount` and `method` (here `payMethod`) are required; `currency` has a
      default; `transactionId` and `refundId` are optional. The amount is
      stored and never computed with here, so an exact `real` stands for the
      JavaScript number. `metadata` is free-form and always `{}` where a
      payment is created, so it is not a component. */
  datatype Payment = Payment(
    id: Id,
    booking: Id,
    amount: real,
    currency: string,
    payMethod: PaymentMethod,
    status: PaymentStatus,
    transactionId: Option<string>,
    refundId: Option<string>)

  const DefaultCurrency: string := "USD"

  function PaymentMethodName(m: PaymentMethod): string {
    match m
    case Stripe => "stripe"
    case Razorpay => "razorpay"
    case PayPal => "paypal"
    case OtherMethod => "other"
  }

  function PaymentStatusName(st: PaymentStatus): string {
    match st
    case Pending => "pending"
    case Completed => "completed"
    case Failed => "failed"
    case Refunded => "refunded"
  }

  /** The enum check on `method` (a required field, so there is no default). */
  function ParsePaymentMethod(s: string): (r: Option<PaymentMethod>)
    ensures r.Some? <==> s in {"stripe", "razorpay", "paypal", "other"}
    ensures r.Some? ==> PaymentMethodName(r.value) == s
    ensures forall m :: s == PaymentMethodName(m) ==> r == Some(m)
  {
    if s == "stripe" then Some(Stripe)
    else if s == "razorpay" then Some(Razorpay)
    else if s == "paypal" then Some(PayPal)
    else if s == "other" then Some(OtherMethod)
    else None
  }

  /** The enum check on `status`. */
  function ParsePaymentStatus(s: string): (r: Option<PaymentStatus>)
    ensures r.Some? <==> s in {"pending", "completed", "failed", "refunded"}
    ensures r.Some? ==> PaymentStatusName(r.value) == s
    ensures forall st :: s == PaymentStatusName(st) ==> r == Some(st)
  {
    if s == "pending" then Some(Pending)
    else if s == "completed" then Some(Completed)
    else if s == "failed" then Some(Failed)
    else if s == "refunded" then Some(Refunded)
    else None
  }

  /** Casting a stored `status`: absent means 'pending'. */
  function CastPaymentStatus(raw: Option<string>): (r: Option<PaymentStatus>)
    ensures raw.None? ==> r == Some(Pending)
    ensures raw.Some? ==> (r.Some? <==> raw.value in {"pending", "completed", "failed", "refunded"})
    ensures raw.Some? && r.Some? ==> PaymentStatusName(r.value) == raw.value
  {
    if raw.None? then Some(Pending) else ParsePaymentStatus(raw.value)
  }

  /** Casting a stored `currency`: absent means 'USD', anything else is kept. */
  function CastCurrency(raw: Option<string>): (r: string)
    ensures raw.None? ==> r == "USD"
    ensures raw.Some? ==> r == raw.value
  {
    if raw.None? then DefaultCurrency else raw.value
  }
}
