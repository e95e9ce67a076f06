/** The document store the controllers share: the user, availability,
    booking and payment collections, each in natural (insertion) order, and
    the source of fresh document ids. */
module Store {
  import opened Common
  import opened AvailabilityModel
  import opened BookingModel
  import P = PaymentModel
  import opened Sequences

  /** A profile's postal address; each part is optional. */
  datatype Address = Address(
    street: Option<string>,
    city: Option<string>,
    state: Option<string>,
    zipCode: Option<string>,
    country: Option<string>)

  /** A user document of the user collection. */
  datatype User = User(
    id: Id,
    name: string,
    email: string,
    password: string,
    role: string,
    phone: string,
    bio: string,
    specialization: string,
    address: Option<Address>)

  datatype State = State(
    users: seq<User>,
    slots: seq<Slot>,
    bookings: seq<Booking>,
    payments: seq<P.Payment>,
    nextId: nat)

  /** Document ids are unique within each collection, and every slot, booking
      and payment id was handed out before `nextId`. */
  ghost predicate WellFormed(s: State) {
    && UserIdsDistinct(s.users)
    && SlotIdsFresh(s.slots, s.nextId)
    && BookingIdsFresh(s.bookings, s.nextId)
    && PaymentIdsFresh(s.payments, s.nextId)
  }

  ghost predicate UserIdsDistinct(users: seq<User>) {
    forall i, j :: 0 <= i < j < |users| ==> users[i].id != users[j].id
  }

  ghost predicate SlotIdsFresh(slots: seq<Slot>, nextId: nat) {
    && (forall i :: 0 <= i < |slots| ==> slots[i].id < nextId)
    && (forall i, j :: 0 <= i < j < |slots| ==> slots[i].id != slots[j].id)
  }

  ghost predicate BookingIdsFresh(bookings: seq<Booking>, nextId: nat) {
    && (forall i :: 0 <= i < |bookings| ==> bookings[i].id < nextId)
    && (forall i, j :: 0 <= i < j < |bookings| ==> bookings[i].id != bookings[j].id)
  }

  ghost predicate PaymentIdsFresh(payments: seq<P.Payment>, nextId: nat) {
    && (forall i :: 0 <= i < |payments| ==> payments[i].id < nextId)
    && (forall i, j :: 0 <= i < j < |payments| ==> payments[i].id != payments[j].id)
  }

  // One lookup per collection rather than one generic lookup over an id
  // projection: each step function's contract then mentions a first-order
  // search over its own element type, with no lambda to compare or unfold.

  /** `findById` on the user collection. */
  function FindUser(users: seq<User>, id: Id): (r: Option<nat>)
    ensures r.Some? ==> r.value < |users| && users[r.value].id == id
    ensures r.Some? ==> forall k :: 0 <= k < r.value ==> users[k].id != id
    ensures r.None? ==> forall k :: 0 <= k < |users| ==> users[k].id != id
  {
    if |users| == 0 then None
    else if users[0].id == id then Some(0)
    else match FindUser(users[1..], id)
      case None => None
      case Some(k) => Some(k + 1)
  }

  /** `findById` on the availability collection. */
  function FindSlot(slots: seq<Slot>, id: Id): (r: Option<nat>)
    ensures r.Some? ==> r.value < |slots| && slots[r.value].id == id
    ensures r.Some? ==> forall k :: 0 <= k < r.value ==> slots[k].id != id
    ensures r.None? ==> forall k :: 0 <= k < |slots| ==> slots[k].id != id
  {
    if |slots| == 0 then None
    else if slots[0].id == id then Some(0)
    else match FindSlot(slots[1..], id)
      case None => None
      case Some(k) => Some(k + 1)
  }

  /** `findById` on the booking collection. */
  function FindBooking(bookings: seq<Booking>, id: Id): (r: Option<nat>)
    ensures r.Some? ==> r.value < |bookings| && bookings[r.value].id == id
    ensures r.Some? ==> forall k :: 0 <= k < r.value ==> bookings[k].id != id
    ensures r.None? ==> forall k :: 0 <= k < |bookings| ==> bookings[k].id != id
  {
    if |bookings| == 0 then None
    else if bookings[0].id == id then Some(0)
    else match FindBooking(bookings[1..], id)
      case None => None
      case Some(k) => Some(k + 1)
  }

  /** The exact-match query `{ provider, startTime, endTime, status }` of the
      slot handshake: equal boundaries, not overlapping ones. */
  predicate SlotMatches(sl: Slot, provider: Id, startTime: int, endTime: int, status: SlotStatus) {
    sl.provider == provider && sl.startTime == startTime && sl.endTime == endTime && sl.status == status
  }

  /** `findOne` with that query: the first match in natural order. */
  function FindMatchingSlot(slots: seq<Slot>, provider: Id, startTime: int, endTime: int,
                            status: SlotStatus): (r: Option<nat>)
    ensures r.Some? ==> r.value < |slots| && SlotMatches(slots[r.value], provider, startTime, endTime, status)
    ensures r.Some? ==> forall k :: 0 <= k < r.value ==> !SlotMatches(slots[k], provider, startTime, endTime, status)
    ensures r.None? ==> forall k :: 0 <= k < |slots| ==> !SlotMatches(slots[k], provider, startTime, endTime, status)
  {
    if |slots| == 0 then None
    else if SlotMatches(slots[0], provider, startTime, endTime, status) then Some(0)
    else match FindMatchingSlot(slots[1..], provider, startTime, endTime, status)
      case None => None
      case Some(k) => Some(k + 1)
  }

  /** Some slot matches the query. */
  ghost predicate HasMatch(slots: seq<Slot>, provider: Id, startTime: int, endTime: int, status: SlotStatus) {
    exists k :: 0 <= k < |slots| && SlotMatches(slots[k], provider, startTime, endTime, status)
  }

  /** Slot `i` is the first match of the query in natural order. */
  ghost predicate FirstMatchAt(slots: seq<Slot>, i: int, provider: Id, startTime: int, endTime: int,
                               status: SlotStatus) {
    && 0 <= i < |slots|
    && SlotMatches(slots[i], provider, startTime, endTime, status)
    && forall k :: 0 <= k < i ==> !SlotMatches(slots[k], provider, startTime, endTime, status)
  }

  /** `User.findById(id)` found a document and its role is 'provider'. */
  predicate IsProvider(users: seq<User>, id: Id) {
    var u := FindUser(users, id);
    u.Some? && users[u.value].role == "provider"
  }

  /** `Availability.findOneAndUpdate({ provider, startTime, endTime,
      status: 'booked' }, { $set: { status: 'available' } })`: the first booked
      slot with exactly these boundaries becomes available; when there is none,
      nothing changes and nothing fails. */
  function ReleaseSlot(slots: seq<Slot>, provider: Id, startTime: int, endTime: int): (r: seq<Slot>)
    ensures |r| == |slots|
    ensures !HasMatch(slots, provider, startTime, endTime, Booked) ==> r == slots
    ensures HasMatch(slots, provider, startTime, endTime, Booked)
            ==> exists j :: FirstMatchAt(slots, j, provider, startTime, endTime, Booked)
                  && r == slots[j := slots[j].(status := Available)]
    ensures forall k :: 0 <= k < |r| ==> r[k].id == slots[k].id
  {
    match FindMatchingSlot(slots, provider, startTime, endTime, Booked)
    case None => slots
    case Some(j) => slots[j := slots[j].(status := Available)]
  }

  /** Distinct ids: the booking found by id is the only one with it. */
  lemma BookingIdUnique(bookings: seq<Booking>, nextId: nat, i: nat)
    requires BookingIdsFresh(bookings, nextId) && i < |bookings|
    ensures forall k :: 0 <= k < |bookings| && bookings[k].id == bookings[i].id ==> k == i
  {
  }

  /** Rewriting a booking in place under its own id keeps the ids fresh. */
  lemma BookingUpdateKeepsIds(bookings: seq<Booking>, nextId: nat, i: nat, b: Booking)
    requires BookingIdsFresh(bookings, nextId) && i < |bookings| && b.id == bookings[i].id
    ensures BookingIdsFresh(bookings[i := b], nextId)
  {
  }

  /** Slots that keep their ids position by position keep them fresh. */
  lemma SlotIdsKept(slots: seq<Slot>, r: seq<Slot>, nextId: nat)
    requires SlotIdsFresh(slots, nextId) && |r| == |slots|
    requires forall k :: 0 <= k < |r| ==> r[k].id == slots[k].id
    ensures SlotIdsFresh(r, nextId)
  {
  }

  /** A booking appended under the next id keeps the ids fresh past it. */
  lemma BookingAppendKeepsIds(bookings: seq<Booking>, nextId: nat, b: Booking)
    requires BookingIdsFresh(bookings, nextId) && b.id == nextId
    ensures BookingIdsFresh(bookings + [b], nextId + 1)
  {
  }

  /** A payment appended under the next id keeps the ids fresh past it. */
  lemma PaymentAppendKeepsIds(payments: seq<P.Payment>, nextId: nat, pay: P.Payment)
    requires PaymentIdsFresh(payments, nextId) && pay.id == nextId
    ensures PaymentIdsFresh(payments + [pay], nextId + 1)
  {
  }

  /** Distinct ids: the slot found by id is the only one with it. */
  lemma SlotIdUnique(slots: seq<Slot>, nextId: nat, i: nat)
    requires SlotIdsFresh(slots, nextId) && i < |slots|
    ensures forall k :: 0 <= k < |slots| && slots[k].id == slots[i].id ==> k == i
  {
  }

  /** Rewriting a slot in place under its own id keeps the ids fresh. */
  lemma SlotUpdateKeepsIds(slots: seq<Slot>, nextId: nat, i: nat, sl: Slot)
    requires SlotIdsFresh(slots, nextId) && i < |slots| && sl.id == slots[i].id
    ensures SlotIdsFresh(slots[i := sl], nextId)
  {
  }

  /** Removing a slot keeps the other ids fresh, and every slot left was
      there before under another id. */
  lemma SlotRemoveKeepsIds(slots: seq<Slot>, nextId: nat, i: nat)
    requires SlotIdsFresh(slots, nextId) && i < |slots|
    ensures SlotIdsFresh(RemoveAt(slots, i), nextId)
    ensures forall x :: x in RemoveAt(slots, i) ==> x in slots && x.id != slots[i].id
  {
    var rest := RemoveAt(slots, i);
    forall a, b | 0 <= a < b < |rest| ensures rest[a].id != rest[b].id {
      var a', b' := if a < i then a else a + 1, if b < i then b else b + 1;
      assert rest[a] == slots[a'] && rest[b] == slots[b'];
    }
    forall x | x in rest ensures x in slots && x.id != slots[i].id {
      var k :| 0 <= k < |rest| && rest[k] == x;
      if k < i { assert x == slots[k]; } else { assert x == slots[k + 1]; }
    }
  }

  /** Removing a booking keeps the other ids fresh, and every booking left
      was there before under another id. */
  lemma BookingRemoveKeepsIds(bookings: seq<Booking>, nextId: nat, i: nat)
    requires BookingIdsFresh(bookings, nextId) && i < |bookings|
    ensures BookingIdsFresh(RemoveAt(bookings, i), nextId)
    ensures forall x :: x in RemoveAt(bookings, i) ==> x in bookings && x.id != bookings[i].id
  {
    var rest := RemoveAt(bookings, i);
    forall a, b | 0 <= a < b < |rest| ensures rest[a].id != rest[b].id {
      var a', b' := if a < i then a else a + 1, if b < i then b else b + 1;
      assert rest[a] == bookings[a'] && rest[b] == bookings[b'];
    }
    forall x | x in rest ensures x in bookings && x.id != bookings[i].id {
      var k :| 0 <= k < |rest| && rest[k] == x;
      if k < i { assert x == bookings[k]; } else { assert x == bookings[k + 1]; }
    }
  }

  /** What a handler leaves behind: the new collections and its answer. */
  datatype Step<T> = Step(state: State, response: Response<T>)

  /** The collections as objects the handlers update in place. */
  class Db {
    var users: seq<User>
    var slots: seq<Slot>
    var bookings: seq<Booking>
    var payments: seq<P.Payment>
    var nextId: nat

    function Snapshot(): State
      reads this
    {
      State(users, slots, bookings, payments, nextId)
    }

    ghost predicate Valid()
      reads this
    {
      WellFormed(Snapshot())
    }

    /** An empty store. */
    constructor ()
      ensures Valid()
      ensures Snapshot() == State([], [], [], [], 0)
    {
      users, slots, bookings, payments, nextId := [], [], [], [], 0;
    }
  }
}
