/**
  Bearer-token gatekeeping (shared/keycloak-middleware.js): the
  `Authorization` header is parsed, the token is handed to the signature and
  expiry check, the issuer is compared with the two accepted realm URLs, and
  the claims become the request's user record.

  The RS256 signature and expiry check (`jwt.verify` with keys from the JWKS
  endpoint) is an oracle: `verify(token)` is `Some(claims)` when the token
  verifies and `None` when `jwt.verify` reports an error.
*/
module Bearer {
  import opened Wrappers
  import opened Builtins

  /** The decoded payload of a verified token; `None` marks an absent claim. */
  datatype Claims = Claims(
    iss: Option<string>,
    sub: Option<string>,
    email: Option<string>,
    name: Option<string>,
    preferredUsername: Option<string>,
    groups: Option<seq<string>>,
    /** `realm_access.roles`; `None` when `realm_access` or its `roles` is absent. */
    realmRoles: Option<seq<string>>)

  /** The record stored as `req.user` for the rest of the request. */
  datatype AuthUser = AuthUser(
    id: Option<string>,
    email: Option<string>,
    name: Option<string>,
    preferredUsername: Option<string>,
    groups: seq<string>,
    roles: seq<string>,
    token: string)

  /** The environment variables the middleware reads; `None` when unset. */
  datatype Env = Env(keycloakUrl: Option<string>, externalUrl: Option<string>, realm: Option<string>)

  /** What the middleware answers: the request goes on with a user, or it is refused. */
  datatype Outcome = Accepted(user: AuthUser) | Rejected(status: nat, error: string)

  const Scheme: string := "Bearer "

  /** `v || d` for an optional string: unset and empty both fall back to `d`. */
  function OrDefault(v: Option<string>, d: string): (r: string)
    ensures r == d || (v.Some? && r == v.value && r != "")
    ensures v.Some? && v.value != "" ==> r == v.value
  {
    if v.Some? && v.value != "" then v.value else d
  }

  function Realm(env: Env): string {
    OrDefault(env.realm, "marketplace")
  }

  /** The issuer as the services reach Keycloak on the internal network. */
  function InternalIssuer(env: Env): string {
    OrDefault(env.keycloakUrl, "http://keycloak:8080") + "/realms/" + Realm(env)
  }

  /** The issuer as browsers reach Keycloak from outside. */
  function ExternalIssuer(env: Env): string {
    OrDefault(env.externalUrl, "http://192.168.226.128:8081") + "/realms/" + Realm(env)
  }

  /** `decoded.iss` strictly equals one of the two accepted issuers; an absent `iss` never does. */
  predicate IssuerAccepted(env: Env, iss: Option<string>) {
    iss == Some(InternalIssuer(env)) || iss == Some(ExternalIssuer(env))
  }

  /** The header is present and starts with exactly "Bearer " (case-sensitive, one space). */
  predicate HasBearer(header: Option<string>) {
    header.Some? && StartsWith(header.value, Scheme)
  }

  /** The token: the header with its first seven characters removed. */
  function TokenOf(header: Option<string>): (t: string)
    requires HasBearer(header)
    ensures header.value == Scheme + t
  {
    header.value[|Scheme|..]
  }

  /** The claims-to-user mapping both middlewares share. */
  function UserOf(c: Claims, token: string): AuthUser {
    AuthUser(c.sub, c.email, c.name, c.preferredUsername,
             c.groups.GetOr([]), c.realmRoles.GetOr([]), token)
  }

  /** `authenticateKeycloak` */
  function Authenticate(env: Env, header: Option<string>, verify: string -> Option<Claims>): (r: Outcome)
    ensures r.Rejected? ==> r.status == 401
    ensures !HasBearer(header) <==> r == Rejected(401, "No token provided")
    ensures r == Rejected(401, "Invalid token") <==>
              HasBearer(header) && verify(TokenOf(header)).None?
    ensures r == Rejected(401, "Invalid token issuer") <==>
              && HasBearer(header) && verify(TokenOf(header)).Some?
              && !IssuerAccepted(env, verify(TokenOf(header)).value.iss)
    ensures r.Accepted? ==>
              && HasBearer(header)
              && var c := verify(TokenOf(header));
              && c.Some? && IssuerAccepted(env, c.value.iss)
              && r.user.token == TokenOf(header)
              && r.user.id == c.value.sub
              && r.user.email == c.value.email
              && r.user.name == c.value.name
              && r.user.preferredUsername == c.value.preferredUsername
              && (c.value.groups.None? ==> r.user.groups == [])
              && (c.value.groups.Some? ==> r.user.groups == c.value.groups.value)
              && (c.value.realmRoles.None? ==> r.user.roles == [])
              && (c.value.realmRoles.Some? ==> r.user.roles == c.value.realmRoles.value)
  {
    if !HasBearer(header) then Rejected(401, "No token provided")
    else
      var token := TokenOf(header);
      match verify(token)
      case None => Rejected(401, "Invalid token")
      case Some(decoded) =>
        if decoded.iss != Some(InternalIssuer(env)) && decoded.iss != Some(ExternalIssuer(env)) then
          Rejected(401, "Invalid token issuer")
        else
          Accepted(UserOf(decoded, token))
  }

  /** `optionalAuth`: never refuses; every failure leaves the request anonymous. */
  function OptionalAuth(env: Env, header: Option<string>, verify: string -> Option<Claims>): (u: Option<AuthUser>)
    ensures u.Some? <==> Authenticate(env, header, verify).Accepted?
    ensures u.Some? ==> u.value == Authenticate(env, header, verify).user
  {
    if !HasBearer(header) then None
    else
      var token := TokenOf(header);
      match verify(token)
      case None => None
      case Some(decoded) =>
        if decoded.iss != Some(InternalIssuer(env)) && decoded.iss != Some(ExternalIssuer(env)) then None
        else Some(UserOf(decoded, token))
  }

  /**
    A header built as "Bearer " + t is judged on `verify(t)` alone: two
    verifiers that agree on `t` give the same answer, and a verified token
    from either accepted issuer is accepted carrying `t` itself.
  */
  lemma BearerRoundTrip(env: Env, t: string, verify: string -> Option<Claims>, verify': string -> Option<Claims>)
    requires verify(t) == verify'(t)
    ensures Authenticate(env, Some(Scheme + t), verify) == Authenticate(env, Some(Scheme + t), verify')
    ensures verify(t).Some? && IssuerAccepted(env, verify(t).value.iss) ==>
              Authenticate(env, Some(Scheme + t), verify) == Accepted(UserOf(verify(t).value, t))
  {
    assert HasBearer(Some(Scheme + t));
    assert TokenOf(Some(Scheme + t)) == t;
  }
}
