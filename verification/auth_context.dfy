/**
  The browser-side authentication state (frontend/src/contexts/AuthContext.tsx):
  the claims-to-user mapping, the group test `hasGroup` with its derived
  flags, and the password login that decodes the access token's payload by
  hand. `fetch`, `atob`/`JSON.parse` and React state are abstracted: the
  token endpoint's answer is a parameter and the payload decoder is an oracle.
*/
module AuthContext {
  import opened Wrappers
  import opened Builtins
  import opened Bearer
  import Authorization

  /** The `User` interface: every field is a plain string or list, never absent. */
  datatype User = User(id: string, email: string, name: string, username: string, groups: seq<string>)

  /** The provider's state: `isAuthenticated`, `user` and `token`. */
  datatype AuthState = AuthState(isAuthenticated: bool, user: Option<User>, token: Option<string>)

  /** The derived flags `isOwner`, `isMerchant`, `isClient`. */
  datatype Flags = Flags(isOwner: bool, isMerchant: bool, isClient: bool)

  datatype LoginError = InvalidCredentials | MalformedToken

  /** The state after `loginWithPassword`, and the error it throws, if any. */
  datatype Login = Login(state: AuthState, error: Option<LoginError>)

  /** `v || ''` */
  function OrEmpty(v: Option<string>): string {
    if v.Some? then v.value else ""
  }

  /** The `userData` literal built from the parsed token in both sign-in paths. */
  function UserFromClaims(c: Claims): (u: User)
    ensures c.sub.Some? ==> u.id == c.sub.value
    ensures c.sub.None? ==> u.id == ""
    ensures c.email.Some? ==> u.email == c.email.value
    ensures c.email.None? ==> u.email == ""
    ensures c.name.Some? ==> u.name == c.name.value
    ensures c.name.None? ==> u.name == ""
    ensures c.preferredUsername.Some? ==> u.username == c.preferredUsername.value
    ensures c.preferredUsername.None? ==> u.username == ""
    ensures c.groups.Some? ==> u.groups == c.groups.value
    ensures c.groups.None? ==> u.groups == []
  {
    User(OrEmpty(c.sub), OrEmpty(c.email), OrEmpty(c.name), OrEmpty(c.preferredUsername),
         if c.groups.Some? then c.groups.value else [])
  }

  /** `hasGroup(group)` */
  function HasGroup(user: Option<User>, group: string): (r: bool)
    ensures user.None? ==> !r
    ensures user.Some? ==>
              (r <==> group in user.value.groups
                      || (!StartsWith(group, "/") && "/" + group in user.value.groups))
  {
    if user.None? then false
    else
      var normalized := if StartsWith(group, "/") then group else "/" + group;
      var matches := (g: string) => g == normalized || g == group;
      AnyIff(user.value.groups, matches);
      Any(user.value.groups, matches)
  }

  /** `isOwner`, `isMerchant` and `isClient`, computed from the current user. */
  function FlagsOf(user: Option<User>): (f: Flags)
    ensures f.isOwner <==> user.Some? && ("owner" in user.value.groups || "/owner" in user.value.groups)
    ensures f.isMerchant <==> user.Some? && ("merchant" in user.value.groups || "/merchant" in user.value.groups)
    ensures f.isClient <==> user.Some? && ("client" in user.value.groups || "/client" in user.value.groups)
  {
    Authorization.SlashPrefix("owner");
    Authorization.SlashPrefix("merchant");
    Authorization.SlashPrefix("client");
    assert "/" + "owner" == "/owner" && "/" + "merchant" == "/merchant" && "/" + "client" == "/client";
    Flags(HasGroup(user, "owner"), HasGroup(user, "merchant"), HasGroup(user, "client"))
  }

  /**
    The browser and the services decide group membership alike: for the same
    token claims, `hasGroup(g)` holds exactly when `requireGroup(g)` lets the
    request through, and with no user both refuse.
  */
  lemma HasGroupAgreesWithRequireGroup(c: Claims, token: string, group: string)
    ensures HasGroup(Some(UserFromClaims(c)), group) <==>
              Authorization.RequireGroup(group, Some(UserOf(c, token))).Allow?
    ensures !HasGroup(None, group) && Authorization.RequireGroup(group, None).Deny?
  {
  }

  /** `s.replace(/a/g, b)`: every `a` becomes `b`. */
  function ReplaceAll(s: string, a: char, b: char): (r: string)
    ensures |r| == |s|
    ensures forall k | 0 <= k < |s| :: r[k] == (if s[k] == a then b else s[k])
  {
    if |s| == 0 then s
    else [if s[0] == a then b else s[0]] + ReplaceAll(s[1..], a, b)
  }

  /** The base64url-to-base64 substitution: "-" becomes "+", "_" becomes "/", nothing else moves. */
  function UrlToBase64(s: string): (r: string)
    ensures |r| == |s|
    ensures forall k | 0 <= k < |s| ::
              r[k] == (if s[k] == '-' then '+' else if s[k] == '_' then '/' else s[k])
  {
    ReplaceAll(ReplaceAll(s, '-', '+'), '_', '/')
  }

  /** The encoder's direction: base64 to base64url. */
  function Base64ToUrl(s: string): (r: string)
    ensures |r| == |s|
    ensures forall k | 0 <= k < |s| ::
              r[k] == (if s[k] == '+' then '-' else if s[k] == '/' then '_' else s[k])
  {
    ReplaceAll(ReplaceAll(s, '+', '-'), '/', '_')
  }

  /** A base64url text (no "+" and no "/") survives the substitution and its inverse. */
  lemma UrlToBase64RoundTrip(s: string)
    requires '+' !in s && '/' !in s
    ensures Base64ToUrl(UrlToBase64(s)) == s
    ensures '-' !in UrlToBase64(s) && '_' !in UrlToBase64(s)
  {
    var t := UrlToBase64(s);
    assert forall k | 0 <= k < |s| :: Base64ToUrl(t)[k] == s[k];
    assert forall k | 0 <= k < |t| :: t[k] != '-' && t[k] != '_';
  }

  /**
    `accessToken.split('.')[1]`: the text between the first "." and the next
    one (or the end); `None` when there is no "." and the index is undefined.
  */
  function PayloadSegment(token: string): (r: Option<string>)
    ensures r.Some? <==> '.' in token
    ensures r.Some? ==>
              var rest := token[FirstIndex(token, '.') + 1..];
              && '.' !in r.value
              && StartsWith(rest, r.value)
              && (|r.value| == |rest| || rest[|r.value|] == '.')
  {
    var pieces := Split(token, '.');
    SplitHead(token, '.');
    if |pieces| < 2 then None
    else
      var rest := token[FirstIndex(token, '.') + 1..];
      SplitTail(token, '.');
      SplitHead(rest, '.');
      assert pieces[1] == Split(rest, '.')[0];
      Some(pieces[1])
  }

  /**
    `loginWithPassword` once the token endpoint has answered: `ok` is
    `response.ok`, `accessToken` is `data.access_token`, and `decode` stands
    for `atob`, `decodeURIComponent` and `JSON.parse` of the payload. Any
    failure leaves the modelled state as it was; the client library's
    `token` and `refreshToken` fields, which are not modelled, are already
    overwritten when the payload fails to parse.
  */
  function LoginWithPassword(s: AuthState, ok: bool, accessToken: string, decode: string -> Option<Claims>): (r: Login)
    ensures !ok ==> r == Login(s, Some(InvalidCredentials))
    ensures r.error.Some? ==> r.state == s
    ensures r.error.None? <==>
              ok && PayloadSegment(accessToken).Some?
              && decode(UrlToBase64(PayloadSegment(accessToken).value)).Some?
    ensures r.error.None? ==>
              && r.state.isAuthenticated
              && r.state.token == Some(accessToken)
              && r.state.user == Some(UserFromClaims(decode(UrlToBase64(PayloadSegment(accessToken).value)).value))
  {
    if !ok then Login(s, Some(InvalidCredentials))
    else
      match PayloadSegment(accessToken)
      case None => Login(s, Some(MalformedToken))
      case Some(payload) =>
        match decode(UrlToBase64(payload))
        case None => Login(s, Some(MalformedToken))
        case Some(claims) => Login(AuthState(true, Some(UserFromClaims(claims)), Some(accessToken)), None)
  }
}
