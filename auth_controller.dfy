/** The account handlers: registering and logging in against the in-memory
    user store, and changing one's own profile and password in the user
    collection. Token creation is not part of this model; a successful
    answer carries the user summary the handlers put beside the token. */
module AuthController {
  import opened Common
  import opened MockDatabase
  import Store
  import opened Profile

  /** The `user` object of the register and login answers. */
  datatype UserView = UserView(id: string, name: string, email: string, role: string)

  /** The register request body. */
  datatype RegisterBody = RegisterBody(
    name: Option<string>,
    email: Option<string>,
    password: Option<string>,
    role: Option<string>,
    phone: Option<string>,
    bio: Option<string>)

  /** `user._id || 'mock-id'`. */
  function IdOrMock(id: string): string {
    StrOr(id, "mock-id")
  }

  /** The record `register` stores: the model instance's defaults with the
      role defaulting to 'client'. */
  function RegisteredRecord(body: RegisterBody, storedId: string): (rec: StoredUser)
    requires Truthy(body.email) && Truthy(body.password)
    ensures rec.id == storedId && rec.email == body.email.value && rec.password == body.password.value
    ensures rec.name == OrElse(body.name, "") && rec.role == OrElse(body.role, "client")
    ensures rec.phone == OrElse(body.phone, "") && rec.bio == OrElse(body.bio, "")
  {
    StoredUser(storedId, OrElse(body.name, ""), body.email.value, body.password.value,
               OrElse(body.role, "client"), OrElse(body.phone, ""), OrElse(body.bio, ""))
  }

  datatype RegisterStep = RegisterStep(users: seq<StoredUser>, response: Response<UserView>)

  /** `register`: 400 without an email and a password, 400 for an email that
      is already stored; otherwise one record is appended and 201 answers with
      its summary. The model's own duplicate check in `save` never fires
      after the handler's. */
  function Register(users: seq<StoredUser>, body: RegisterBody, storedId: string): (t: RegisterStep)
    ensures !Truthy(body.email) || !Truthy(body.password) ==>
              t == RegisterStep(users, Failure(400, "Email and password are required"))
    ensures Truthy(body.email) && Truthy(body.password) && (exists k :: 0 <= k < |users| && users[k].email == body.email.value)
            ==> t == RegisterStep(users, Failure(400, "User already exists"))
    ensures Truthy(body.email) && Truthy(body.password) && (forall k :: 0 <= k < |users| ==> users[k].email != body.email.value)
            ==> var rec := RegisteredRecord(body, storedId);
                && t.users == users + [rec]
                && t.response == Success(201, UserView(IdOrMock(storedId), rec.name, rec.email, rec.role))
    ensures EmailsDistinct(users) ==> EmailsDistinct(t.users)
  {
    if !Truthy(body.email) || !Truthy(body.password) then
      RegisterStep(users, Failure(400, "Email and password are required"))
    else if FindOneRecord(users, body.email).Some? then
      RegisterStep(users, Failure(400, "User already exists"))
    else
      var rec := RegisteredRecord(body, storedId);
      match Insert(users, rec)
      case None => RegisterStep(users, Failure(500, "Server Error"))
      case Some(users') => RegisterStep(users', Success(201, UserView(IdOrMock(storedId), rec.name, rec.email, rec.role)))
  }

  /** `login`: 400 without an email and a password; an unknown email and a
      wrong password draw the same 400 'Invalid credentials'; otherwise 200
      with the summary of the first record holding that email. */
  function Login(users: seq<StoredUser>, email: Option<string>, password: Option<string>): (r: Response<UserView>)
    ensures !Truthy(email) || !Truthy(password) ==> r == Failure(400, "Email and password are required")
    ensures Truthy(email) && Truthy(password) ==>
              && (r.Failure? ==> r == Failure(400, "Invalid credentials"))
              && (r.Success? <==> exists k :: && 0 <= k < |users| && users[k].email == email.value
                                              && (forall j :: 0 <= j < k ==> users[j].email != email.value)
                                              && users[k].password == password.value)
    ensures r.Success? ==> exists k :: && 0 <= k < |users| && users[k].email == email.value
                                       && r == Success(200, UserView(IdOrMock(users[k].id), users[k].name,
                                                                     users[k].email, StrOr(users[k].role, "client")))
  {
    if !Truthy(email) || !Truthy(password) then Failure(400, "Email and password are required")
    else match FindOneRecord(users, email)
      case None => Failure(400, "Invalid credentials")
      case Some(u) =>
        var k := FindUser(users, email.value).value;
        assert users[k] == u;
        if u.password != password.value then Failure(400, "Invalid credentials")
        else Success(200, UserView(IdOrMock(u.id), u.name, u.email, StrOr(u.role, "client")))
  }

  /** A fresh registration can log in straight away with the same email and
      password, and is answered with the same summary. */
  lemma LoginAfterRegister(users: seq<StoredUser>, body: RegisterBody, storedId: string)
    requires Truthy(body.email) && Truthy(body.password)
    requires Register(users, body, storedId).response.Success?
    ensures var t := Register(users, body, storedId);
            Login(t.users, body.email, body.password) == Success(200, t.response.body)
  {
    var t := Register(users, body, storedId);
    var rec := RegisteredRecord(body, storedId);
    assert forall k :: 0 <= k < |users| ==> users[k].email != body.email.value;
    assert t.users == users + [rec];
    var found := FindUser(t.users, body.email.value);
    assert t.users[|users|] == rec;
    assert found.Some?;
    assert found.value == |users|;
    assert rec.role != "";
  }

  /** The same email cannot be registered twice. */
  lemma RegisterTwiceFails(users: seq<StoredUser>, body: RegisterBody, storedId: string, body2: RegisterBody,
                           storedId2: string)
    requires Register(users, body, storedId).response.Success?
    requires body2.email == body.email && Truthy(body2.password)
    ensures var t := Register(users, body, storedId);
            Register(t.users, body2, storedId2) == RegisterStep(t.users, Failure(400, "User already exists"))
  {
    var t := Register(users, body, storedId);
    assert t.users[|users|].email == body.email.value;
  }

  /** The handler for `POST /api/auth/register`: a model instance is made
      (its random `_id` is `instanceId`) and saved (`saveUser` draws
      `storedId`). */
  method RegisterUser(db: MockDb, body: RegisterBody, instanceId: string, storedId: string)
    returns (r: Response<UserView>)
    modifies db
    ensures RegisterStep(db.users, r) == Register(old(db.users), body, storedId)
  {
    if !Truthy(body.email) || !Truthy(body.password) {
      return Failure(400, "Email and password are required");
    }
    var existing := FindOne(db, body.email);
    if existing != null {
      return Failure(400, "User already exists");
    }
    var user := new UserModel(UserData(body.name, body.email, body.password,
                                       Some(OrElse(body.role, "client")), body.phone, body.bio), instanceId);
    assert user.Record(storedId) == RegisteredRecord(body, storedId);
    var outcome := user.Save(db, storedId);
    if outcome.Thrown? {
      return Failure(500, "Server Error");
    }
    r := Success(201, UserView(IdOrMock(user.id), user.name, user.email, user.role));
  }

  /** The handler for `POST /api/auth/login`. */
  method LoginUser(db: MockDb, email: Option<string>, password: Option<string>) returns (r: Response<UserView>)
    ensures r == Login(db.users, email, password)
  {
    if !Truthy(email) || !Truthy(password) {
      return Failure(400, "Email and password are required");
    }
    var user := FindOne(db, email);
    if user == null {
      return Failure(400, "Invalid credentials");
    }
    if !user.MatchPassword(password.value) {
      return Failure(400, "Invalid credentials");
    }
    r := Success(200, UserView(IdOrMock(user.id), user.name, user.email, user.role));
  }

  // ------------------------------------------- profile and password changes

  /** `updateProfile`: the signed-in user's truthy name, email, phone, bio,
      specialization and address are written (the role cannot be changed
      here). A missing user is not an error: the answer carries no user. */
  function UpdateProfileStep(s: Store.State, userId: Common.Id, body: ProfileFields): (t: Store.Step<Option<Store.User>>)
    requires Store.WellFormed(s)
    ensures Store.WellFormed(t.state)
    ensures (forall k :: 0 <= k < |s.users| ==> s.users[k].id != userId) ==> t == Store.Step(s, Success(200, None))
    ensures forall i :: 0 <= i < |s.users| && s.users[i].id == userId ==>
              var u := SetFields(s.users[i], SuppliedFields(body.(role := None)));
              && u.role == s.users[i].role
              && t.response == Success(200, Some(u))
              && t.state == s.(users := s.users[i := u])
  {
    match Store.FindUser(s.users, userId)
    case None => Store.Step(s, Success(200, None))
    case Some(i) =>
      assert forall k :: 0 <= k < |s.users| && s.users[k].id == userId ==> k == i;
      var u := SetFields(s.users[i], SuppliedFields(body.(role := None)));
      Store.Step(s.(users := s.users[i := u]), Success(200, Some(u)))
  }

  /** `changePassword`: a wrong current password answers 400 and keeps the
      password; otherwise the new one replaces it. When the signed-in id
      names no user, the null dereference is reported as a server error. */
  function ChangePasswordStep(s: Store.State, userId: Common.Id, currentPassword: string, newPassword: string)
    : (t: Store.Step<string>)
    requires Store.WellFormed(s)
    ensures Store.WellFormed(t.state)
    ensures t.response.Failure? ==> t.state == s
    ensures (forall k :: 0 <= k < |s.users| ==> s.users[k].id != userId) ==> t.response == Failure(500, "Server Error")
    ensures forall i :: 0 <= i < |s.users| && s.users[i].id == userId ==>
              && (s.users[i].password != currentPassword ==> t.response == Failure(400, "Current password is incorrect"))
              && (s.users[i].password == currentPassword ==>
                    && t.response == Success(200, "Password updated successfully")
                    && t.state == s.(users := s.users[i := s.users[i].(password := newPassword)]))
  {
    match Store.FindUser(s.users, userId)
    case None => Store.Step(s, Failure(500, "Server Error"))
    case Some(i) =>
      assert forall k :: 0 <= k < |s.users| && s.users[k].id == userId ==> k == i;
      var u := s.users[i];
      if u.password != currentPassword then Store.Step(s, Failure(400, "Current password is incorrect"))
      else Store.Step(s.(users := s.users[i := u.(password := newPassword)]), Success(200, "Password updated successfully"))
  }

  /** After a successful change the new password is the one that matches,
      and the old one no longer does unless the two are equal. */
  lemma ChangePasswordThenMatch(s: Store.State, userId: Common.Id, currentPassword: string, newPassword: string)
    requires Store.WellFormed(s)
    requires ChangePasswordStep(s, userId, currentPassword, newPassword).response.Success?
    ensures var t := ChangePasswordStep(s, userId, currentPassword, newPassword);
            && ChangePasswordStep(t.state, userId, newPassword, currentPassword).response.Success?
            && (newPassword != currentPassword ==>
                  ChangePasswordStep(t.state, userId, currentPassword, newPassword).response
                  == Failure(400, "Current password is incorrect"))
  {
    var i := Store.FindUser(s.users, userId).value;
    var t := ChangePasswordStep(s, userId, currentPassword, newPassword);
    assert t.state.users[i].id == userId;
  }

  /** The handler for `PUT /api/auth/update-profile`. */
  method UpdateProfile(db: Store.Db, userId: Common.Id, body: ProfileFields) returns (r: Response<Option<Store.User>>)
    requires db.Valid()
    modifies db
    ensures db.Valid()
    ensures Store.Step(db.Snapshot(), r) == UpdateProfileStep(old(db.Snapshot()), userId, body)
  {
    var found := Store.FindUser(db.users, userId);
    if found.None? {
      return Success(200, None);
    }
    var i := found.value;
    var user := SetFields(db.users[i], SuppliedFields(body.(role := None)));
    db.users := db.users[i := user];
    r := Success(200, Some(user));
  }

  /** The handler for `PUT /api/auth/change-password`. */
  method ChangePassword(db: Store.Db, userId: Common.Id, currentPassword: string, newPassword: string)
    returns (r: Response<string>)
    requires db.Valid()
    modifies db
    ensures db.Valid()
    ensures Store.Step(db.Snapshot(), r) == ChangePasswordStep(old(db.Snapshot()), userId, currentPassword, newPassword)
  {
    var found := Store.FindUser(db.users, userId);
    if found.None? {
      return Failure(500, "Server Error");
    }
    var i := found.value;
    var user := db.users[i];
    if user.password != currentPassword {
      return Failure(400, "Current password is incorrect");
    }
    user := user.(password := newPassword);
    db.users := db.users[i := user];
    r := Success(200, "Password updated successfully");
  }
}
