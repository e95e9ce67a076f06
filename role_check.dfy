/** The role guard placed in front of the client, provider and admin routes. */
module RoleCheck {
  import opened Common

  /** The guard's argument: one role, or an array of roles. */
  datatype Required = OneRole(role: string) | AnyOf(roles: seq<string>)

  /** The signed-in user the authentication step attached to the request. */
  datatype RequestUser = RequestUser(role: string)

  /** The guard either hands the request on (`next()`) or answers it. */
  datatype Outcome = Next | Reject(code: int, message: string)

  predicate Allows(required: Required, role: string) {
    match required
    case OneRole(r) => role == r
    case AnyOf(rs) => role in rs
  }

  function Forbidden(role: string): string {
    "User role " + role + " is not authorized to access this resource"
  }

  /** `roleCheck(required)` on a request: 401 without a user whatever is
      required; otherwise the request goes on exactly when the role is
      allowed, and is answered 403 naming the role when it is not. */
  function Check(required: Required, user: Option<RequestUser>): (r: Outcome)
    ensures user.None? ==> r == Reject(401, "Authentication required")
    ensures user.Some? ==> (r == Next <==> Allows(required, user.value.role))
    ensures user.Some? && r != Next ==> r == Reject(403, Forbidden(user.value.role))
    ensures r == Next ==> user.Some?
  {
    if user.None? then Reject(401, "Authentication required")
    else match required
      case AnyOf(roles) =>
        if user.value.role !in roles then Reject(403, Forbidden(user.value.role)) else Next
      case OneRole(role) =>
        if user.value.role != role then Reject(403, Forbidden(user.value.role)) else Next
  }

  /** A one-element array guards exactly like the plain string. */
  lemma SingletonArrayIsString(role: string, user: Option<RequestUser>)
    ensures Check(AnyOf([role]), user) == Check(OneRole(role), user)
  {
  }

  /** Allowing more roles never turns away a request that fewer let through. */
  lemma MoreRolesAllowMore(roles: seq<string>, more: seq<string>, user: Option<RequestUser>)
    requires forall r :: r in roles ==> r in more
    ensures Check(AnyOf(roles), user) == Next ==> Check(AnyOf(more), user) == Next
  {
  }
}
