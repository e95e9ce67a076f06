/** The profile update shared by `updateProfile` and the admin's `updateUser`:
    a `$set` document that holds only the request fields that are truthy,
    applied to one user document. */
module Profile {
  import opened Common
  import opened Store

  /** A profile request body, and equally a `$set` document: `None` is a key
      that is absent. */
  datatype ProfileFields = ProfileFields(
    name: Option<string>,
    email: Option<string>,
    role: Option<string>,
    phone: Option<string>,
    bio: Option<string>,
    specialization: Option<string>,
    address: Option<Address>)

  /** An optional value kept only when it is truthy. */
  function KeepTruthy(o: Option<string>): (r: Option<string>)
    ensures Truthy(o) ==> r == o
    ensures !Truthy(o) ==> r == None
    ensures r.Some? ==> r.value != ""
  {
    if Truthy(o) then o else None
  }

  /** The address part: a sent address object is always truthy and becomes a
      fresh sub-document holding its truthy parts only. */
  function SuppliedAddress(a: Address): (r: Address)
    ensures r.street == KeepTruthy(a.street) && r.city == KeepTruthy(a.city)
    ensures r.state == KeepTruthy(a.state) && r.zipCode == KeepTruthy(a.zipCode)
    ensures r.country == KeepTruthy(a.country)
  {
    Address(KeepTruthy(a.street), KeepTruthy(a.city), KeepTruthy(a.state),
            KeepTruthy(a.zipCode), KeepTruthy(a.country))
  }

  /** `profileFields`: the request's truthy fields and nothing else. */
  function SuppliedFields(body: ProfileFields): (f: ProfileFields)
    ensures f.name == KeepTruthy(body.name) && f.email == KeepTruthy(body.email)
    ensures f.role == KeepTruthy(body.role) && f.phone == KeepTruthy(body.phone)
    ensures f.bio == KeepTruthy(body.bio) && f.specialization == KeepTruthy(body.specialization)
    ensures f.address == if body.address.Some? then Some(SuppliedAddress(body.address.value)) else None
  {
    ProfileFields(KeepTruthy(body.name), KeepTruthy(body.email), KeepTruthy(body.role),
                  KeepTruthy(body.phone), KeepTruthy(body.bio), KeepTruthy(body.specialization),
                  if body.address.Some? then Some(SuppliedAddress(body.address.value)) else None)
  }

  function SetOr(o: Option<string>, current: string): string {
    if o.Some? then o.value else current
  }

  /** `{ $set: f }` on one user document: each present key overwrites its
      field (the address as a whole sub-document); id and password stay. */
  function SetFields(u: User, f: ProfileFields): (r: User)
    ensures r.id == u.id && r.password == u.password
    ensures f == ProfileFields(None, None, None, None, None, None, None) ==> r == u
  {
    u.(name := SetOr(f.name, u.name),
       email := SetOr(f.email, u.email),
       role := SetOr(f.role, u.role),
       phone := SetOr(f.phone, u.phone),
       bio := SetOr(f.bio, u.bio),
       specialization := SetOr(f.specialization, u.specialization),
       address := if f.address.Some? then f.address else u.address)
  }

  /** What an update leaves in the document: a truthy request field wins, an
      absent or empty one leaves the stored value; the identity and the
      password are never touched. */
  lemma UpdateKeepsUnsuppliedFields(u: User, body: ProfileFields)
    ensures var r := SetFields(u, SuppliedFields(body));
            && r.id == u.id && r.password == u.password
            && r.name == OrElse(body.name, u.name) && r.email == OrElse(body.email, u.email)
            && r.role == OrElse(body.role, u.role) && r.phone == OrElse(body.phone, u.phone)
            && r.bio == OrElse(body.bio, u.bio)
            && r.specialization == OrElse(body.specialization, u.specialization)
            && r.address == (if body.address.Some? then Some(SuppliedAddress(body.address.value))
                             else u.address)
  {
  }

  /** Sending the same update twice leaves what sending it once left. */
  lemma UpdateIdempotent(u: User, body: ProfileFields)
    ensures var f := SuppliedFields(body);
            SetFields(SetFields(u, f), f) == SetFields(u, f)
  {
  }
}
