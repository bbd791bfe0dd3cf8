/** The request dependencies every protected endpoint runs first: resolving
    the bearer token to an active account, and the role guard. */
module Deps {
  import opened Common
  import opened UserModel

  /** What `jwt.decode` yields: a token it rejects (bad signature, malformed,
      expired), or the claims with their optional `sub`. */
  datatype TokenClaims = Undecodable | Claims(sub: Option<string>)

  /** `get_current_user` after decoding: 401 for an undecodable token, a
      missing or empty `sub`, or a `sub` naming no account; 403 for an
      inactive account; otherwise that account. */
  function GetCurrentUser(users: map<Id, User>, token: TokenClaims): (r: Outcome<User>)
    ensures token.Undecodable? ==> r == Fail(Unauthorized)
    ensures token.Claims? && !Truthy(token.sub) ==> r == Fail(Unauthorized)
    ensures token.Claims? && Truthy(token.sub) && token.sub.value !in users ==> r == Fail(Unauthorized)
    ensures token.Claims? && Truthy(token.sub) && token.sub.value in users && !users[token.sub.value].isActive
            ==> r == Fail(Forbidden)
    ensures r.Ok? <==> token.Claims? && Truthy(token.sub) && token.sub.value in users && users[token.sub.value].isActive
    ensures r.Ok? ==> r.value == users[token.sub.value] && r.value.isActive
  {
    match token
    case Undecodable => Fail(Unauthorized)
    case Claims(sub) =>
      if !Truthy(sub) then Fail(Unauthorized)
      else if sub.value !in users then Fail(Unauthorized)
      else if !users[sub.value].isActive then Fail(Forbidden)
      else Ok(users[sub.value])
  }

  /** `require_roles(*roles)`: 403 unless the account has one of the roles,
      and otherwise the same account, unchanged. */
  function RequireRoles(roles: set<Role>, u: User): (r: Outcome<User>)
    ensures r.Fail? <==> u.role !in roles
    ensures r.Fail? ==> r.error == Forbidden
    ensures r.Ok? ==> r.value == u
  {
    if u.role in roles then Ok(u) else Fail(Forbidden)
  }

  /** A guarded endpoint runs only for a decodable token naming an active
      account with an allowed role; every refusal is 401 or 403. */
  lemma GuardedEndpointAdmits(users: map<Id, User>, token: TokenClaims, roles: set<Role>)
    ensures var u := GetCurrentUser(users, token);
      && ((u.Ok? && RequireRoles(roles, u.value).Ok?)
           <==> token.Claims? && Truthy(token.sub) && token.sub.value in users
                && users[token.sub.value].isActive && users[token.sub.value].role in roles)
      && (u.Fail? ==> u.error in {Unauthorized, Forbidden})
  {
  }
}
