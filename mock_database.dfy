/** The in-memory user store that stands in for the database in development:
    an array of user records searched front to back, and a user model whose
    `save` refuses an email that is already stored. */
module MockDatabase {
  import opened Common

  /** A record of `mockDB.users`. The `_id` is random in the source and is
      therefore supplied by the caller; `createdAt` (the clock) is not kept. */
  datatype StoredUser = StoredUser(
    id: string,
    name: string,
    email: string,
    password: string,
    role: string,
    phone: string,
    bio: string)

  /** `s || fallback` on a string that is always present. */
  function StrOr(s: string, fallback: string): (r: string)
    ensures s != "" ==> r == s
    ensures s == "" ==> r == fallback
  {
    if s != "" then s else fallback
  }

  /** `users.find(u => u.email === email)`: the position of the first record
      with that email. */
  function FindUser(users: seq<StoredUser>, email: string): (r: Option<nat>)
    ensures r.Some? ==> r.value < |users| && users[r.value].email == email
    ensures r.Some? ==> forall k :: 0 <= k < r.value ==> users[k].email != email
    ensures r.None? <==> forall k :: 0 <= k < |users| ==> users[k].email != email
  {
    if |users| == 0 then None
    else if users[0].email == email then Some(0)
    else match FindUser(users[1..], email)
      case None => None
      case Some(k) => Some(k + 1)
  }

  predicate EmailsDistinct(users: seq<StoredUser>) {
    forall i, j :: 0 <= i < j < |users| ==> users[i].email != users[j].email
  }

  /** `save` on the array: `None` where it throws 'User already exists',
      otherwise the array with the record appended. */
  function Insert(users: seq<StoredUser>, record: StoredUser): (r: Option<seq<StoredUser>>)
    ensures r.None? <==> exists k :: 0 <= k < |users| && users[k].email == record.email
    ensures r.Some? ==> r.value == users + [record]
    ensures r.Some? && EmailsDistinct(users) ==> EmailsDistinct(r.value)
  {
    if FindUser(users, record.email).Some? then None else Some(users + [record])
  }

  /** Any run of saves, each one given the record it tries to store, with the
      ones that throw leaving the array as it was. */
  function InsertAll(users: seq<StoredUser>, records: seq<StoredUser>): seq<StoredUser>
    decreases |records|
  {
    if |records| == 0 then users
    else
      var next := Insert(users, records[0]);
      InsertAll(if next.Some? then next.value else users, records[1..])
  }

  /** When every record enters through `save`, no two stored users share an
      email; no record already stored is lost or changed. */
  lemma {:induction false} SavesKeepEmailsDistinct(users: seq<StoredUser>, records: seq<StoredUser>)
    requires EmailsDistinct(users)
    ensures EmailsDistinct(InsertAll(users, records))
    ensures users <= InsertAll(users, records)
    decreases |records|
  {
    if |records| > 0 {
      var next := Insert(users, records[0]);
      var users' := if next.Some? then next.value else users;
      SavesKeepEmailsDistinct(users', records[1..]);
    }
  }

  /** `UserModel.findOne(query)`: nothing unless the query carries a truthy
      email that is stored; then the first record with it. */
  function FindOneRecord(users: seq<StoredUser>, email: Option<string>): (r: Option<StoredUser>)
    ensures r.Some? <==> Truthy(email) && exists k :: 0 <= k < |users| && users[k].email == email.value
    ensures r.Some? ==> r.value in users && r.value.email == email.value
    ensures r.Some? ==> exists k :: 0 <= k < |users| && users[k] == r.value
                          && forall j :: 0 <= j < k ==> users[j].email != email.value
  {
    if !Truthy(email) then None
    else match FindUser(users, email.value)
      case None => None
      case Some(k) => Some(users[k])
  }

  /** The fields passed to `new UserModel(userData)`; `None` is a field that
      is absent or `undefined`. */
  datatype UserData = UserData(
    name: Option<string>,
    email: Option<string>,
    password: Option<string>,
    role: Option<string>,
    phone: Option<string>,
    bio: Option<string>)

  /** What `save` says: it stored the user, or it threw with a message. */
  datatype SaveOutcome = Saved | Thrown(message: string)

  /** `mockDB`: the user array. */
  class MockDb {
    var users: seq<StoredUser>

    constructor ()
      ensures users == []
    {
      users := [];
    }

    /** `saveUser`: appends one record built from the model instance, with
        role, phone and bio defaults, and returns it. */
    method SaveUser(user: UserModel, id: string) returns (saved: StoredUser)
      modifies this
      ensures saved == StoredUser(id, user.name, user.email, user.password, StrOr(user.role, "client"),
                                  StrOr(user.phone, ""), StrOr(user.bio, ""))
      ensures users == old(users) + [saved]
    {
      saved := StoredUser(id, user.name, user.email, user.password, StrOr(user.role, "client"),
                          StrOr(user.phone, ""), StrOr(user.bio, ""));
      users := users + [saved];
    }
  }

  /** `UserModel`: a user instance with the store's defaults. */
  class UserModel {
    var id: string
    var name: string
    var email: string
    var password: string
    var role: string
    var phone: string
    var bio: string

    /** `new UserModel(userData)`: every string field defaults to '' except
        the role, which defaults to 'client'. The random `_id` is `id`. */
    constructor (data: UserData, id: string)
      ensures this.id == id
      ensures name == OrElse(data.name, "") && email == OrElse(data.email, "")
      ensures password == OrElse(data.password, "") && role == OrElse(data.role, "client")
      ensures phone == OrElse(data.phone, "") && bio == OrElse(data.bio, "")
    {
      this.id := id;
      name := OrElse(data.name, "");
      email := OrElse(data.email, "");
      password := OrElse(data.password, "");
      role := OrElse(data.role, "client");
      phone := OrElse(data.phone, "");
      bio := OrElse(data.bio, "");
    }

    /** The record `saveUser` would make of this instance. */
    function Record(storedId: string): (r: StoredUser)
      reads this
      ensures r.id == storedId && r.email == email && r.password == password
    {
      StoredUser(storedId, name, email, password, StrOr(role, "client"), StrOr(phone, ""), StrOr(bio, ""))
    }

    /** `save`: throws 'User already exists' and changes nothing when the
        email is stored; otherwise stores the record under the id `saveUser`
        draws (`storedId`) and takes that id. */
    method Save(db: MockDb, storedId: string) returns (r: SaveOutcome)
      modifies this, db
      ensures Insert(old(db.users), old(Record(storedId))).None? ==>
                && r == Thrown("User already exists")
                && db.users == old(db.users) && id == old(id)
      ensures Insert(old(db.users), old(Record(storedId))).Some? ==>
                && r == Saved
                && db.users == Insert(old(db.users), old(Record(storedId))).value
                && id == storedId
      ensures name == old(name) && email == old(email) && password == old(password)
      ensures role == old(role) && phone == old(phone) && bio == old(bio)
    {
      if FindUser(db.users, email).Some? {
        return Thrown("User already exists");
      }
      var saved := db.SaveUser(this, storedId);
      id := saved.id;
      r := Saved;
    }

    /** `matchPassword`: plain equality with the stored password. */
    function MatchPassword(entered: string): (r: bool)
      reads this
      ensures r <==> entered == password
    {
      password == entered
    }
  }

  /** `UserModel.findOne(query)`: a new instance made from the first stored
      record with the query's email (its phone and bio are not copied, so they
      take the constructor's ''), or null. */
  method FindOne(db: MockDb, email: Option<string>) returns (u: UserModel?)
    ensures FindOneRecord(db.users, email).None? ==> u == null
    ensures FindOneRecord(db.users, email).Some? ==>
              var rec := FindOneRecord(db.users, email).value;
              && u != null && fresh(u)
              && u.id == rec.id && u.name == rec.name && u.email == rec.email
              && u.password == rec.password && u.role == StrOr(rec.role, "client")
              && u.phone == "" && u.bio == ""
  {
    var found := FindOneRecord(db.users, email);
    if found.None? {
      return null;
    }
    var rec := found.value;
    u := new UserModel(UserData(Some(rec.name), Some(rec.email), Some(rec.password), Some(rec.role), None, None), "");
    u.id := rec.id;
  }
}
