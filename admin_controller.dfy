/** The admin handlers: paging arithmetic of the list endpoints, the
    field-filtered user and booking updates, the booking delete that takes the
    booking's payments with it, and the dashboard's count totals. */
module AdminController {
  import opened Common
  import opened BookingModel
  import opened Store
  import opened Sequences
  import opened Profile
  import P = PaymentModel

  const DefaultPage: int := 1
  const DefaultLimit: int := 10

  // ---------------------------------------------------------------- paging

  /** `parseInt(param, 10) || fallback`, where `None` is a parse that gave
      `NaN`: both `NaN` and `0` are falsy. */
  function ParsedOr(parsed: Option<int>, fallback: int): (r: int)
    ensures parsed.None? ==> r == fallback
    ensures parsed == Some(0) ==> r == fallback
    ensures parsed.Some? && parsed.value != 0 ==> r == parsed.value
    ensures fallback != 0 ==> r != 0
  {
    if parsed.None? || parsed.value == 0 then fallback else parsed.value
  }

  function StartIndex(page: int, limit: int): int {
    (page - 1) * limit
  }

  /** `Math.ceil(total / limit)` for a non-zero limit: the least count of
      `limit`-sized pages that holds `total` documents (for a negative limit,
      the mirror image). */
  function Pages(total: nat, limit: int): (r: int)
    requires limit != 0
    ensures limit > 0 ==> (r - 1) * limit < total <= r * limit
    ensures limit < 0 ==> r * limit <= total < (r - 1) * limit
    ensures limit > 0 ==> r >= 0 && (total > 0 <==> r > 0)
  {
    if limit > 0 then
      var q := (total + limit - 1) / limit;
      assert q * limit == total + limit - 1 - (total + limit - 1) % limit;
      q
    else
      var q := total / (-limit);
      assert q * (-limit) == total - total % (-limit);
      -q
  }

  /** The `pagination` object of `getAllUsers`, `getAllBookings` and
      `getAllPayments`. */
  datatype Pagination = Pagination(total: nat, page: int, limit: int, pages: int)

  function PaginationOf(total: nat, pageParam: Option<int>, limitParam: Option<int>): (p: Pagination)
    ensures p.total == total && p.limit != 0
    ensures p.page == ParsedOr(pageParam, DefaultPage) && p.limit == ParsedOr(limitParam, DefaultLimit)
    ensures p.limit > 0 ==> (p.pages - 1) * p.limit < total <= p.pages * p.limit
  {
    var limit := ParsedOr(limitParam, DefaultLimit);
    Pagination(total, ParsedOr(pageParam, DefaultPage), limit, Pages(total, limit))
  }

  /** `.skip(startIndex).limit(limit)` for a positive limit. */
  function Window<T>(items: seq<T>, startIndex: nat, limit: nat): (r: seq<T>)
    requires limit > 0
    ensures |r| == if startIndex >= |items| then 0
                   else if |items| - startIndex < limit then |items| - startIndex else limit
    ensures forall j :: 0 <= j < |r| ==> r[j] == items[startIndex + j]
  {
    if startIndex >= |items| then [] else Take(items[startIndex..], limit)
  }

  lemma MulLe(a: int, b: int, c: int)
    requires a <= b && c >= 0
    ensures a * c <= b * c
  {
  }

  /** The page number whose window starts at or before `k` and ends after it
      is `k / limit + 1`. */
  lemma PageOfIndexUnique(k: nat, limit: int, page: int)
    requires limit > 0
    requires StartIndex(page, limit) <= k < StartIndex(page, limit) + limit
    ensures page == k / limit + 1
  {
    var q := k / limit;
    assert k == q * limit + k % limit;
    if page - 1 < q {
      MulLe(page, q, limit);
    } else if page - 1 > q {
      MulLe(q + 1, page - 1, limit);
    }
  }

  /** With a positive limit every document is on exactly one of the pages
      `1 .. pages`: page `k / limit + 1`, at position `k % limit`. */
  lemma PageHoldsIndex<T>(items: seq<T>, limit: int, k: nat)
    requires limit > 0 && k < |items|
    ensures var page := k / limit + 1;
            && 1 <= page <= Pages(|items|, limit)
            && StartIndex(page, limit) >= 0
            && items[k] == Window(items, StartIndex(page, limit), limit)[k % limit]
    ensures forall page :: StartIndex(page, limit) <= k < StartIndex(page, limit) + limit ==> page == k / limit + 1
  {
    var q := k / limit;
    var start := StartIndex(q + 1, limit);
    DivParts(k, limit);
    PageInRange(|items|, limit, k);
    assert start == q * limit;
    var w := Window(items, start, limit);
    assert |w| > k % limit;
    assert w[k % limit] == items[start + k % limit];
    forall page | StartIndex(page, limit) <= k < StartIndex(page, limit) + limit
      ensures page == q + 1
    {
      PageOfIndexUnique(k, limit, page);
    }
  }

  lemma DivParts(k: nat, limit: int)
    requires limit > 0
    ensures k / limit >= 0 && 0 <= k % limit < limit
    ensures k == (k / limit) * limit + k % limit && (k / limit) * limit >= 0
  {
  }

  /** The page an index falls on is one of the pages `1 .. pages`. */
  lemma PageInRange(total: nat, limit: int, k: nat)
    requires limit > 0 && k < total
    ensures 1 <= k / limit + 1 <= Pages(total, limit)
  {
    var q := k / limit;
    var pages := Pages(total, limit);
    DivParts(k, limit);
    if pages <= q {
      MulLe(pages, q, limit);
    }
  }

  /** Page numbers past `pages` show nothing, and the pages up to it are
      never empty. */
  lemma PagesBeyondLastAreEmpty<T>(items: seq<T>, limit: int, page: int)
    requires limit > 0 && page >= 1
    ensures page > Pages(|items|, limit) ==> Window(items, StartIndex(page, limit), limit) == []
    ensures page <= Pages(|items|, limit) ==> |Window(items, StartIndex(page, limit), limit)| > 0
  {
    var pages := Pages(|items|, limit);
    if page > pages {
      MulLe(pages, page - 1, limit);
    } else {
      MulLe(page - 1, pages - 1, limit);
    }
  }

  // ---------------------------------------------------------- user update

  /** The route's `role` check: 'client', 'provider' or 'admin' when sent. */
  predicate RoleAccepted(role: Option<string>) {
    role.None? || role.value in {"client", "provider", "admin"}
  }

  /** The route's `name` check: not the empty string when sent. */
  predicate NameAccepted(name: Option<string>) {
    name != Some("")
  }

  /** `updateUser`: only the truthy request fields are written to the user
      document (an address replaces the stored one with its truthy parts);
      404 when the id names no user. */
  function UpdateUserStep(s: State, userId: Id, body: ProfileFields): (t: Step<User>)
    requires WellFormed(s)
    requires RoleAccepted(body.role) && NameAccepted(body.name)
    ensures WellFormed(t.state)
    ensures (forall k :: 0 <= k < |s.users| ==> s.users[k].id != userId)
            ==> t == Step(s, Failure(404, "User not found"))
    ensures forall i :: 0 <= i < |s.users| && s.users[i].id == userId ==>
              var u := SetFields(s.users[i], SuppliedFields(body));
              && t.response == Success(200, u)
              && t.state == s.(users := s.users[i := u])
  {
    match FindUser(s.users, userId)
    case None => Step(s, Failure(404, "User not found"))
    case Some(i) =>
      assert forall k :: 0 <= k < |s.users| && s.users[k].id == userId ==> k == i;
      var u := SetFields(s.users[i], SuppliedFields(body));
      Step(s.(users := s.users[i := u]), Success(200, u))
  }

  // ------------------------------------------------------- booking update

  /** `updateBooking`: 404 for a missing booking; otherwise the sent status and
      truthy notes are written, with no transition check and no slot release. */
  function UpdateBookingStep(s: State, bookingId: Id, status: Option<BookingStatus>,
                             notes: Option<string>): (t: Step<Booking>)
    requires WellFormed(s)
    ensures WellFormed(t.state)
    ensures (forall k :: 0 <= k < |s.bookings| ==> s.bookings[k].id != bookingId)
            ==> t == Step(s, Failure(404, "Booking not found"))
    ensures forall i :: 0 <= i < |s.bookings| && s.bookings[i].id == bookingId ==>
              var b := s.bookings[i];
              var b' := b.(status := if status.Some? then status.value else b.status,
                           notes := if Truthy(notes) then notes else b.notes);
              && t.response == Success(200, b')
              && t.state == s.(bookings := s.bookings[i := b'])
  {
    match FindBooking(s.bookings, bookingId)
    case None => Step(s, Failure(404, "Booking not found"))
    case Some(i) =>
      assert forall k :: 0 <= k < |s.bookings| && s.bookings[k].id == bookingId ==> k == i;
      var b := s.bookings[i];
      var b' := b.(status := if status.Some? then status.value else b.status,
                   notes := if Truthy(notes) then notes else b.notes);
      Step(s.(bookings := s.bookings[i := b']), Success(200, b'))
  }

  // ------------------------------------------------------- booking delete

  /** `Payment.deleteMany({ booking: id })`: every payment of other bookings,
      in their order. */
  function PaymentsNotFor(payments: seq<P.Payment>, bookingId: Id): (r: seq<P.Payment>)
    ensures forall x :: x in r <==> x in payments && x.booking != bookingId
    ensures |r| <= |payments|
  {
    if |payments| == 0 then []
    else
      var init := payments[..|payments| - 1];
      var x := payments[|payments| - 1];
      assert payments == init + [x];
      var rest := PaymentsNotFor(init, bookingId);
      if x.booking == bookingId then rest else rest + [x]
  }

  /** Dropping payments keeps the remaining ids distinct and below the next
      id. */
  lemma {:induction false} PaymentsNotForKeepsIds(payments: seq<P.Payment>, bookingId: Id, n: nat)
    requires PaymentIdsFresh(payments, n)
    ensures PaymentIdsFresh(PaymentsNotFor(payments, bookingId), n)
  {
    if |payments| > 0 {
      var init := payments[..|payments| - 1];
      var x := payments[|payments| - 1];
      assert payments == init + [x];
      PaymentsNotForKeepsIds(init, bookingId, n);
      var rest := PaymentsNotFor(init, bookingId);
      if x.booking != bookingId {
        forall a | 0 <= a < |rest| ensures rest[a].id != x.id {
          assert rest[a] in init;
          var k :| 0 <= k < |init| && init[k] == rest[a];
          assert payments[k] == rest[a];
        }
      }
    }
  }

  /** `deleteBooking`: 404 for a missing booking; otherwise the booking's
      payments go first and then the booking itself. Its slot stays as it is. */
  function DeleteBookingStep(s: State, bookingId: Id): (t: Step<string>)
    requires WellFormed(s)
    ensures WellFormed(t.state)
    ensures (forall k :: 0 <= k < |s.bookings| ==> s.bookings[k].id != bookingId)
            ==> t == Step(s, Failure(404, "Booking not found"))
    ensures forall i :: 0 <= i < |s.bookings| && s.bookings[i].id == bookingId ==>
              && t.response == Success(200, "Booking deleted successfully")
              && t.state == s.(bookings := RemoveAt(s.bookings, i),
                               payments := PaymentsNotFor(s.payments, bookingId))
    ensures t.response.Success? ==>
              && |t.state.bookings| == |s.bookings| - 1
              && (forall b :: b in t.state.bookings ==> b in s.bookings && b.id != bookingId)
              && (forall x :: x in t.state.payments <==> x in s.payments && x.booking != bookingId)
  {
    match FindBooking(s.bookings, bookingId)
    case None => Step(s, Failure(404, "Booking not found"))
    case Some(i) =>
      BookingIdUnique(s.bookings, s.nextId, i);
      var rest := RemoveAt(s.bookings, i);
      BookingRemoveKeepsIds(s.bookings, s.nextId, i);
      PaymentsNotForKeepsIds(s.payments, bookingId, s.nextId);
      Step(s.(bookings := rest, payments := PaymentsNotFor(s.payments, bookingId)),
           Success(200, "Booking deleted successfully"))
  }

  // ------------------------------------------------------ dashboard totals

  /** One `$group` result: a role or status and how many documents have it. */
  datatype Group = Group(key: string, count: nat)

  predicate DistinctKeys(obj: seq<Group>) {
    forall i, j :: 0 <= i < j < |obj| ==> obj[i].key != obj[j].key
  }

  /** The position of `key` in a plain object kept in insertion order. */
  function KeyIndex(obj: seq<Group>, key: string): (r: Option<nat>)
    ensures r.Some? ==> r.value < |obj| && obj[r.value].key == key
    ensures r.None? ==> forall k :: 0 <= k < |obj| ==> obj[k].key != key
  {
    if |obj| == 0 then None
    else if obj[0].key == key then Some(0)
    else match KeyIndex(obj[1..], key)
      case None => None
      case Some(k) => Some(k + 1)
  }

  /** `obj[key] = count`: an existing key keeps its place and takes the new
      count, a new key goes last. */
  function Assign(obj: seq<Group>, key: string, count: nat): (r: seq<Group>)
    ensures DistinctKeys(obj) ==> DistinctKeys(r)
    ensures (forall k :: 0 <= k < |obj| ==> obj[k].key != key) ==> r == obj + [Group(key, count)]
    ensures forall k :: 0 <= k < |obj| && obj[k].key == key ==> |r| == |obj| && Group(key, count) in r
    ensures forall g :: g in r ==> g == Group(key, count) || g in obj
  {
    match KeyIndex(obj, key)
    case None => obj + [Group(key, count)]
    case Some(i) =>
      var r := obj[i := Group(key, count)];
      assert r[i] == Group(key, count);
      r
  }

  /** `Object.values(obj).reduce((a, b) => a + b, 0)`. */
  function SumCounts(obj: seq<Group>): nat {
    if |obj| == 0 then 0 else SumCounts(obj[..|obj| - 1]) + obj[|obj| - 1].count
  }

  /** The dashboard's `forEach` into `userStatsByRole` (or
      `bookingStatsByStatus`) followed by its total. For the distinct keys a
      `$group` stage produces, the object lists the groups as they came and
      the total is the sum of their counts. */
  method FormatStats(stats: seq<Group>) returns (obj: seq<Group>, total: nat)
    ensures DistinctKeys(obj)
    ensures DistinctKeys(stats) ==> obj == stats
    ensures forall g :: g in obj ==> g in stats
    ensures total == SumCounts(obj)
  {
    obj := [];
    var i := 0;
    while i < |stats|
      invariant 0 <= i <= |stats|
      invariant DistinctKeys(obj)
      invariant DistinctKeys(stats) ==> obj == stats[..i]
      invariant forall g :: g in obj ==> g in stats
    {
      var stat := stats[i];
      if DistinctKeys(stats) {
        assert forall k :: 0 <= k < |obj| ==> obj[k].key != stat.key by {
          forall k | 0 <= k < |obj| ensures obj[k].key != stat.key {
            assert obj[k] == stats[k];
          }
        }
        assert stats[..i + 1] == stats[..i] + [stat];
      }
      obj := Assign(obj, stat.key, stat.count);
      i := i + 1;
    }
    total := 0;
    var j := 0;
    while j < |obj|
      invariant 0 <= j <= |obj|
      invariant total == SumCounts(obj[..j])
    {
      assert obj[..j + 1][..j] == obj[..j];
      total := total + obj[j].count;
      j := j + 1;
    }
    assert obj[..j] == obj;
  }

  /** How many entries of `keys` equal `key`. */
  function Occurrences(keys: seq<string>, key: string): nat {
    if |keys| == 0 then 0
    else (if keys[0] == key then 1 else 0) + Occurrences(keys[1..], key)
  }

  function Without(keys: seq<string>, key: string): (r: seq<string>)
    ensures |keys| == |r| + Occurrences(keys, key)
    ensures forall k :: k != key ==> Occurrences(r, k) == Occurrences(keys, k)
    ensures forall k :: k in r <==> k in keys && k != key
  {
    if |keys| == 0 then []
    else
      assert keys == [keys[0]] + keys[1..];
      var rest := Without(keys[1..], key);
      if keys[0] == key then rest
      else
        assert ([keys[0]] + rest)[1..] == rest;
        [keys[0]] + rest
  }

  /** `stats` is what `$group: { _id: key, count: { $sum: 1 } }` yields on
      documents whose keys are `keys`: one group per distinct key, counting
      its documents. */
  ghost predicate GroupsOf(stats: seq<Group>, keys: seq<string>) {
    && DistinctKeys(stats)
    && (forall i :: 0 <= i < |stats| ==> stats[i].count == Occurrences(keys, stats[i].key))
    && (forall k :: k in keys ==> exists i :: 0 <= i < |stats| && stats[i].key == k)
  }

  lemma FirstKeyIsKey(keys: seq<string>)
    ensures |keys| > 0 ==> keys[0] in keys
  {
  }

  /** The dashboard total equals the number of documents grouped. */
  lemma {:induction false} GroupTotalIsDocumentCount(stats: seq<Group>, keys: seq<string>)
    requires GroupsOf(stats, keys)
    ensures SumCounts(stats) == |keys|
  {
    if |stats| == 0 {
      FirstKeyIsKey(keys);
    } else {
      var init := stats[..|stats| - 1];
      var g := stats[|stats| - 1];
      var rest := Without(keys, g.key);
      forall k | k in rest
        ensures exists i :: 0 <= i < |init| && init[i].key == k
      {
        var i :| 0 <= i < |stats| && stats[i].key == k;
        assert i < |init| && init[i].key == k;
      }
      forall i | 0 <= i < |init| ensures init[i].count == Occurrences(rest, init[i].key) {
        assert init[i] == stats[i];
      }
      GroupTotalIsDocumentCount(init, rest);
    }
  }

  function Roles(users: seq<User>): (r: seq<string>)
    ensures |r| == |users|
    ensures forall i :: 0 <= i < |users| ==> r[i] == users[i].role
  {
    if |users| == 0 then [] else [users[0].role] + Roles(users[1..])
  }

  function StatusNames(bookings: seq<Booking>): (r: seq<string>)
    ensures |r| == |bookings|
    ensures forall i :: 0 <= i < |bookings| ==> r[i] == BookingStatusName(bookings[i].status)
  {
    if |bookings| == 0 then [] else [BookingStatusName(bookings[0].status)] + StatusNames(bookings[1..])
  }

  /** `userStats.total` and `bookingStats.total`: with groups that are the
      `$group` result of the user roles and of the booking statuses, the two
      totals are the numbers of users and of bookings. */
  method DashboardTotals(s: State, userGroups: seq<Group>, bookingGroups: seq<Group>)
    returns (userTotal: nat, bookingTotal: nat)
    requires GroupsOf(userGroups, Roles(s.users))
    requires GroupsOf(bookingGroups, StatusNames(s.bookings))
    ensures userTotal == |s.users|
    ensures bookingTotal == |s.bookings|
  {
    var byRole, byStatus;
    byRole, userTotal := FormatStats(userGroups);
    byStatus, bookingTotal := FormatStats(bookingGroups);
    GroupTotalIsDocumentCount(userGroups, Roles(s.users));
    GroupTotalIsDocumentCount(bookingGroups, StatusNames(s.bookings));
  }

  // ------------------------------------------------------------- handlers

  /** `profileFields.address`, built one truthy part at a time. */
  method BuildAddress(a: Address) returns (address: Address)
    ensures address == SuppliedAddress(a)
  {
    address := Address(None, None, None, None, None);
    if Truthy(a.street) { address := address.(street := a.street); }
    if Truthy(a.city) { address := address.(city := a.city); }
    if Truthy(a.state) { address := address.(state := a.state); }
    if Truthy(a.zipCode) { address := address.(zipCode := a.zipCode); }
    if Truthy(a.country) { address := address.(country := a.country); }
  }

  /** `profileFields`, built one truthy field at a time. */
  method BuildProfileFields(body: ProfileFields) returns (fields: ProfileFields)
    ensures fields == SuppliedFields(body)
  {
    fields := ProfileFields(None, None, None, None, None, None, None);
    if Truthy(body.name) { fields := fields.(name := body.name); }
    if Truthy(body.email) { fields := fields.(email := body.email); }
    if Truthy(body.role) { fields := fields.(role := body.role); }
    if Truthy(body.phone) { fields := fields.(phone := body.phone); }
    if Truthy(body.bio) { fields := fields.(bio := body.bio); }
    if Truthy(body.specialization) { fields := fields.(specialization := body.specialization); }
    if body.address.Some? {
      var address := BuildAddress(body.address.value);
      fields := fields.(address := Some(address));
    }
  }

  /** The handler for `PUT /api/admin/users/:id`; `profileFields` is built one
      truthy field at a time. */
  method UpdateUser(db: Db, userId: Id, body: ProfileFields) returns (r: Response<User>)
    requires db.Valid()
    requires RoleAccepted(body.role) && NameAccepted(body.name)
    modifies db
    ensures db.Valid()
    ensures Step(db.Snapshot(), r) == UpdateUserStep(old(db.Snapshot()), userId, body)
  {
    var fields := BuildProfileFields(body);
    var found := FindUser(db.users, userId);
    if found.None? {
      return Failure(404, "User not found");
    }
    var i := found.value;
    var user := SetFields(db.users[i], fields);
    db.users := db.users[i := user];
    r := Success(200, user);
  }

  /** The handler for `PUT /api/admin/bookings/:id`. */
  method UpdateBooking(db: Db, bookingId: Id, status: Option<BookingStatus>, notes: Option<string>)
    returns (r: Response<Booking>)
    requires db.Valid()
    modifies db
    ensures db.Valid()
    ensures Step(db.Snapshot(), r) == UpdateBookingStep(old(db.Snapshot()), bookingId, status, notes)
  {
    var found := FindBooking(db.bookings, bookingId);
    if found.None? {
      return Failure(404, "Booking not found");
    }
    var i := found.value;
    var booking := db.bookings[i];
    if status.Some? { booking := booking.(status := status.value); }
    if Truthy(notes) { booking := booking.(notes := notes); }
    db.bookings := db.bookings[i := booking];
    r := Success(200, booking);
  }

  /** The handler for `DELETE /api/admin/bookings/:id`: the payments are
      deleted one pass over the collection, then the booking. */
  method DeleteBooking(db: Db, bookingId: Id) returns (r: Response<string>)
    requires db.Valid()
    modifies db
    ensures db.Valid()
    ensures Step(db.Snapshot(), r) == DeleteBookingStep(old(db.Snapshot()), bookingId)
  {
    var found := FindBooking(db.bookings, bookingId);
    if found.None? {
      return Failure(404, "Booking not found");
    }
    var kept: seq<P.Payment> := [];
    var j := 0;
    while j < |db.payments|
      invariant 0 <= j <= |db.payments|
      invariant kept == PaymentsNotFor(db.payments[..j], bookingId)
    {
      assert db.payments[..j + 1][..j] == db.payments[..j];
      if db.payments[j].booking != bookingId {
        kept := kept + [db.payments[j]];
      }
      j := j + 1;
    }
    assert db.payments[..j] == db.payments;
    BookingRemoveKeepsIds(db.bookings, db.nextId, found.value);
    PaymentsNotForKeepsIds(db.payments, bookingId, db.nextId);
    db.payments := kept;
    db.bookings := RemoveAt(db.bookings, found.value);
    r := Success(200, "Booking deleted successfully");
  }
}
