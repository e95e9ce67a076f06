/** The availability-slot document: a provider's bookable interval. */
module AvailabilityModel {
  import opened Common

  datatype SlotStatus = Available | Booked | Blocked

  /** `recurrence`; `NoRecurrence` is the stored value 'none'. */
  datatype Recurrence = NoRecurrence | Daily | Weekly | Monthly

  /** `provider`, `startTime` and `endTime` are required, so they are plain
      components; `recurrenceEndDate` is optional. Times are milliseconds. */
  datatype Slot = Slot(
    id: Id,
    provider: Id,
    startTime: int,
    endTime: int,
    recurrence: Recurrence,
    recurrenceEndDate: Option<int>,
    status: SlotStatus)

  function SlotStatusName(st: SlotStatus): string {
    match st
    case Available => "available"
    case Booked => "booked"
    case Blocked => "blocked"
  }

  function RecurrenceName(rc: Recurrence): string {
    match rc
    case NoRecurrence => "none"
    case Daily => "daily"
    case Weekly => "weekly"
    case Monthly => "monthly"
  }

  /** The enum check on `status`: only the three names are accepted, and each
      is read back as the status it names. */
  function ParseSlotStatus(s: string): (r: Option<SlotStatus>)
    ensures r.Some? <==> s in {"available", "booked", "blocked"}
    ensures r.Some? ==> SlotStatusName(r.value) == s
    ensures forall st :: s == SlotStatusName(st) ==> r == Some(st)
  {
    if s == "available" then Some(Available)
    else if s == "booked" then Some(Booked)
    else if s == "blocked" then Some(Blocked)
    else None
  }

  /** The enum check on `recurrence`. */
  function ParseRecurrence(s: string): (r: Option<Recurrence>)
    ensures r.Some? <==> s in {"none", "daily", "weekly", "monthly"}
    ensures r.Some? ==> RecurrenceName(r.value) == s
    ensures forall rc :: s == RecurrenceName(rc) ==> r == Some(rc)
  {
    if s == "none" then Some(NoRecurrence)
    else if s == "daily" then Some(Daily)
    else if s == "weekly" then Some(Weekly)
    else if s == "monthly" then Some(Monthly)
    else None
  }

  /** Casting a stored `status`: an absent value takes the default
      'available'; a present one must be one of the enum names. */
  function CastSlotStatus(raw: Option<string>): (r: Option<SlotStatus>)
    ensures raw.None? ==> r == Some(Available)
    ensures raw.Some? ==> (r.Some? <==> raw.value in {"available", "booked", "blocked"})
    ensures raw.Some? && r.Some? ==> SlotStatusName(r.value) == raw.value
  {
    if raw.None? then Some(Available) else ParseSlotStatus(raw.value)
  }

  /** Casting a stored `recurrence`: absent means 'none'. */
  function CastRecurrence(raw: Option<string>): (r: Option<Recurrence>)
    ensures raw.None? ==> r == Some(NoRecurrence)
    ensures raw.Some? ==> (r.Some? <==> raw.value in {"none", "daily", "weekly", "monthly"})
    ensures raw.Some? && r.Some? ==> RecurrenceName(r.value) == raw.value
  {
    if raw.None? then Some(NoRecurrence) else ParseRecurrence(raw.value)
  }
}
