/**
  The identity-provider admin session (user-service/src/lib/keycloakAdmin.ts).

  The module-level `authenticated` flag and the admin client are a small
  state machine: `ensureAuthenticated` logs in only when the flag is down,
  and `withRetry` re-authenticates once and runs the operation once more when
  the provider reports an expired session (HTTP 401).

  Keycloak itself is a `Realm` value (users and groups). Whether a call gets
  through is a script: each admin-API call and each admin login consumes the
  next `Link` of its script, and an exhausted script means every further call
  gets through. Admin-API calls that get through act on the realm as Keycloak
  would.
*/
module KeycloakAdmin {
  import opened Wrappers
  import opened Builtins

  /** A thrown error: `error.response?.status` and `error.message`. */
  datatype Failure = Failure(status: Option<int>, message: string)

  /** The settled promise of an async call. */
  datatype Attempt<T> = Ok(value: T) | Err(failure: Failure)

  /** What happens to one call on its way to Keycloak. */
  datatype Link = Up | Broken(failure: Failure)

  /** The `authenticated` flag, and the fate of the successive admin logins. */
  datatype Session = Session(authenticated: bool, authLinks: seq<Link>)

  /** Keycloak's user ids (UUIDs) are modelled as naturals handed out in order. */
  type ProviderId = nat

  datatype Credential = Credential(kind: string, value: string, temporary: bool)

  datatype ProviderUser = ProviderUser(
    id: ProviderId,
    username: string,
    email: string,
    firstName: string,
    lastName: string,
    enabled: bool,
    emailVerified: bool,
    credentials: seq<Credential>,
    groupIds: set<nat>)

  datatype Group = Group(id: nat, name: string)

  /** The marketplace realm, and the fate of the successive admin-API calls. */
  datatype Realm = Realm(users: seq<ProviderUser>, groups: seq<Group>, nextId: nat, callLinks: seq<Link>)

  /** What `createKeycloakUser` is given. */
  datatype NewUser = NewUser(email: string, password: string, firstName: string, lastName: string, enabled: Option<bool>)

  /** One `withRetry` call: its result, the state it leaves, and how often it logged in and ran the operation. */
  datatype Run<T> = Run(result: Attempt<T>, session: Session, realm: Realm, logins: nat, attempts: nat)

  const Conflict: Failure := Failure(Some(409), "Request failed with status code 409")
  const NotFound: Failure := Failure(Some(404), "Request failed with status code 404")
  const AlreadyExists: Failure := Failure(None, "User with this email already exists")

  /** The next link of a script; an exhausted script lets everything through. */
  function Next(links: seq<Link>): (r: (Link, seq<Link>))
    ensures links == [] ==> r == (Up, [])
    ensures links != [] ==> r == (links[0], links[1..])
  {
    if links == [] then (Up, []) else (links[0], links[1..])
  }

  /** Every call from now on gets through. */
  predicate Reliable(s: Session, r: Realm) {
    s.authLinks == [] && r.callLinks == []
  }

  // ---------------------------------------------------------------------------
  // The admin session

  /** `authenticateAdmin`: the flag goes up on success; on failure it goes down and the error is rethrown. */
  function AuthenticateAdmin(s: Session): (r: (Session, Option<Failure>))
    ensures r.1.None? <==> r.0.authenticated
    ensures r.0.authLinks == Next(s.authLinks).1
    ensures Next(s.authLinks).0.Broken? ==> r.1 == Some(Next(s.authLinks).0.failure)
  {
    var (link, rest) := Next(s.authLinks);
    match link
    case Up => (Session(true, rest), None)
    case Broken(f) => (Session(false, rest), Some(f))
  }

  /** `ensureAuthenticated`: log in only when the flag is down. */
  function EnsureAuthenticated(s: Session): (r: (Session, Option<Failure>, nat))
    ensures s.authenticated ==> r == (s, None, 0)
    ensures !s.authenticated ==> r.2 == 1 && (r.0, r.1) == AuthenticateAdmin(s)
    ensures r.1.None? <==> r.0.authenticated
  {
    if s.authenticated then (s, None, 0)
    else
      var (s', e) := AuthenticateAdmin(s);
      (s', e, 1)
  }

  /** The test in `withRetry`'s catch block: status 401, or a message mentioning "401". */
  predicate IsExpiredSession(f: Failure) {
    f.status == Some(401) || (f.message != "" && Includes(f.message, "401"))
  }

  /** The catch block of `withRetry`: one re-login and one more run for an expired session, else rethrow. */
  function Recover<T>(f: Failure, s: Session, r: Realm, op: Realm -> (Attempt<T>, Realm), logins: nat, attempts: nat): (run: Run<T>)
    ensures !IsExpiredSession(f) ==> run == Run(Err(f), s, r, logins, attempts)
    ensures IsExpiredSession(f) ==> run.logins == logins + 1
    ensures IsExpiredSession(f) && run.attempts == attempts + 1 ==>
              run.session.authenticated && (run.result, run.realm) == op(r)
    ensures IsExpiredSession(f) && run.attempts != attempts + 1 ==>
              run.attempts == attempts && run.realm == r && !run.session.authenticated && run.result.Err?
    ensures IsExpiredSession(f) && Next(s.authLinks).0.Up? ==>
              && run.attempts == attempts + 1
              && run.session == Session(true, Next(s.authLinks).1)
              && (run.result, run.realm) == op(r)
    ensures IsExpiredSession(f) && Next(s.authLinks).0.Broken? ==>
              run == Run(Err(Next(s.authLinks).0.failure), Session(false, Next(s.authLinks).1), r, logins + 1, attempts)
  {
    if !IsExpiredSession(f) then Run(Err(f), s, r, logins, attempts)
    else
      var (s', e) := AuthenticateAdmin(Session(false, s.authLinks));
      if e.Some? then Run(Err(e.value), s', r, logins + 1, attempts)
      else
        var (result, r') := op(r);
        Run(result, s', r', logins + 1, attempts + 1)
  }

  /**
    `withRetry(operation)`. The operation runs at most twice; only an
    expired-session error is retried; a success is always one the operation
    itself returned; a second attempt's outcome is passed on unchanged; and
    the realm changes only through the operation's own runs.
  */
  function WithRetry<T>(s: Session, r: Realm, op: Realm -> (Attempt<T>, Realm)): (run: Run<T>)
    ensures run.attempts <= 2 && run.logins <= 2
    ensures run.result.Ok? ==> run.session.authenticated
    ensures run.result.Ok? ==>
              (run.result, run.realm) == op(r) || (op(r).0.Err? && (run.result, run.realm) == op(op(r).1))
    ensures run.result.Err? ==>
              run.realm == r || (op(r).0.Err? && (run.realm == op(r).1 || (run.result, run.realm) == op(op(r).1)))
    ensures s.authLinks == [] ==> run.session.authLinks == []
    ensures s.authenticated && op(r).0.Ok? ==> run == Run(op(r).0, s, op(r).1, 0, 1)
    ensures s.authenticated && op(r).0.Err? && !IsExpiredSession(op(r).0.failure) ==>
              run == Run(op(r).0, s, op(r).1, 0, 1)
    ensures run.attempts == 2 ==>
              && op(r).0.Err? && IsExpiredSession(op(r).0.failure)
              && (run.result, run.realm) == op(op(r).1)
    // An expired session on the first run forces one re-login and a second run.
    ensures s.authenticated && op(r).0.Err? && IsExpiredSession(op(r).0.failure) && Next(s.authLinks).0.Up? ==>
              && run.attempts == 2 && run.logins == 1 && run.session == Session(true, Next(s.authLinks).1)
              && (run.result, run.realm) == op(op(r).1)
    ensures s.authenticated && op(r).0.Err? && IsExpiredSession(op(r).0.failure) && Next(s.authLinks).0.Broken? ==>
              run == Run(Err(Next(s.authLinks).0.failure), Session(false, Next(s.authLinks).1), op(r).1, 1, 1)
    // With the flag down, the login comes first.
    ensures !s.authenticated && Next(s.authLinks).0.Up? && op(r).0.Ok? ==>
              run == Run(op(r).0, Session(true, Next(s.authLinks).1), op(r).1, 1, 1)
    ensures !s.authenticated && Next(s.authLinks).0.Up? && op(r).0.Err? && !IsExpiredSession(op(r).0.failure) ==>
              run == Run(op(r).0, Session(true, Next(s.authLinks).1), op(r).1, 1, 1)
    ensures && !s.authenticated && Next(s.authLinks).0.Up? && op(r).0.Err? && IsExpiredSession(op(r).0.failure)
            && Next(Next(s.authLinks).1).0.Up? ==>
              && run.attempts == 2 && run.logins == 2 && run.session == Session(true, Next(Next(s.authLinks).1).1)
              && (run.result, run.realm) == op(op(r).1)
    // A failed first login is itself caught: retried once when it looks like a 401, rethrown otherwise.
    ensures !s.authenticated && Next(s.authLinks).0.Broken? && !IsExpiredSession(Next(s.authLinks).0.failure) ==>
              run == Run(Err(Next(s.authLinks).0.failure), Session(false, Next(s.authLinks).1), r, 1, 0)
    ensures && !s.authenticated && Next(s.authLinks).0.Broken? && IsExpiredSession(Next(s.authLinks).0.failure)
            && Next(Next(s.authLinks).1).0.Up? ==>
              && run.attempts == 1 && run.logins == 2 && run.session == Session(true, Next(Next(s.authLinks).1).1)
              && (run.result, run.realm) == op(r)
    // A re-login that fails after a 401 rethrows the re-login's own error.
    ensures && !s.authenticated && Next(s.authLinks).0.Up? && op(r).0.Err? && IsExpiredSession(op(r).0.failure)
            && Next(Next(s.authLinks).1).0.Broken? ==>
              run == Run(Err(Next(Next(s.authLinks).1).0.failure), Session(false, Next(Next(s.authLinks).1).1), op(r).1, 2, 1)
    ensures && !s.authenticated && Next(s.authLinks).0.Broken? && IsExpiredSession(Next(s.authLinks).0.failure)
            && Next(Next(s.authLinks).1).0.Broken? ==>
              run == Run(Err(Next(Next(s.authLinks).1).0.failure), Session(false, Next(Next(s.authLinks).1).1), r, 2, 0)
  {
    var (s1, authError, logins) := EnsureAuthenticated(s);
    if authError.Some? then Recover(authError.value, s1, r, op, logins, 0)
    else
      var (result, r1) := op(r);
      if result.Ok? then Run(result, s1, r1, logins, 1)
      else Recover(result.failure, s1, r1, op, logins, 1)
  }

  // ---------------------------------------------------------------------------
  // The admin API, one link per call

  /**
    Keycloak's uniqueness rules for a realm: ids, and usernames and emails up
    to case; ids below the counter.
  */
  predicate RealmValid(r: Realm) {
    && (forall i, j | 0 <= i < j < |r.users| ::
          r.users[i].id != r.users[j].id
          && Lower(r.users[i].username) != Lower(r.users[j].username)
          && Lower(r.users[i].email) != Lower(r.users[j].email))
    && (forall i | 0 <= i < |r.users| :: r.users[i].id < r.nextId)
  }

  /** Someone in the realm already holds this username or email, ignoring case. */
  predicate Taken(r: Realm, username: string, email: string) {
    exists i :: 0 <= i < |r.users| && (Lower(r.users[i].username) == Lower(username) || Lower(r.users[i].email) == Lower(email))
  }

  /** What Keycloak keeps of a user it is sent: username and email lower-cased. */
  function Stored(u: ProviderUser): ProviderUser {
    u.(username := Lower(u.username), email := Lower(u.email))
  }

  /** Emails that differ only in case are taken together. */
  lemma TakenIgnoresCase(r: Realm, a: string, b: string)
    requires Lower(a) == Lower(b)
    ensures Taken(r, a, a) <==> Taken(r, b, b)
  {
  }

  /**
    `users.create`: the user is stored lower-cased under the next id, or the
    answer is 409 when the username or email is taken in any case.
  */
  function UsersCreate(r: Realm, u: ProviderUser): (res: (Attempt<ProviderId>, Realm))
    ensures res.1.callLinks == Next(r.callLinks).1
    ensures res.0.Ok? <==> Next(r.callLinks).0.Up? && !Taken(r, u.username, u.email)
    ensures res.0.Ok? ==>
              && res.0.value == r.nextId
              && res.1 == r.(users := r.users + [Stored(u).(id := r.nextId)], nextId := r.nextId + 1,
                             callLinks := res.1.callLinks)
    ensures res.0.Err? ==> res.1 == r.(callLinks := res.1.callLinks)
    ensures Next(r.callLinks).0.Up? && Taken(r, u.username, u.email) ==> res.0 == Err(Conflict)
    ensures RealmValid(r) ==> RealmValid(res.1)
  {
    var (link, rest) := Next(r.callLinks);
    match link
    case Broken(f) => (Err(f), r.(callLinks := rest))
    case Up =>
      if Taken(r, u.username, u.email) then (Err(Conflict), r.(callLinks := rest))
      else
        LowerIdempotent(u.username);
        LowerIdempotent(u.email);
        var created := Stored(u).(id := r.nextId);
        (Ok(r.nextId), r.(users := r.users + [created], nextId := r.nextId + 1, callLinks := rest))
  }

  /** The group-search criterion: the name contains the search text. */
  function NameContains(search: string): Group -> bool {
    (g: Group) => Includes(g.name, search)
  }

  /** The exact-name criterion `g.name === groupName`. */
  function Named(name: string): Group -> bool {
    (g: Group) => g.name == name
  }

  /** The criterion of `users.find({ email, exact: true })`: the whole email, ignoring case. */
  function HasEmail(email: string): ProviderUser -> bool {
    (u: ProviderUser) => Lower(u.email) == Lower(email)
  }

  /** `groups.find({ search })`: the groups whose name contains the search text. */
  function GroupsFind(r: Realm, search: string): (res: (Attempt<seq<Group>>, Realm))
    ensures res.1 == r.(callLinks := Next(r.callLinks).1)
    ensures res.0.Ok? <==> Next(r.callLinks).0.Up?
    ensures res.0.Ok? ==>
              && (forall k | 0 <= k < |res.0.value| :: res.0.value[k] in r.groups && Includes(res.0.value[k].name, search))
              && (forall k | 0 <= k < |r.groups| && Includes(r.groups[k].name, search) :: r.groups[k] in res.0.value)
  {
    var (link, rest) := Next(r.callLinks);
    match link
    case Broken(f) => (Err(f), r.(callLinks := rest))
    case Up => (Ok(Filter(r.groups, NameContains(search))), r.(callLinks := rest))
  }

  /** Add group `gid` to user `uid`'s memberships. */
  function AddMembership(users: seq<ProviderUser>, uid: ProviderId, gid: nat): (r: seq<ProviderUser>)
    ensures |r| == |users|
    ensures forall k | 0 <= k < |users| ::
              r[k] == (if users[k].id == uid then users[k].(groupIds := users[k].groupIds + {gid}) else users[k])
  {
    if |users| == 0 then []
    else
      [if users[0].id == uid then users[0].(groupIds := users[0].groupIds + {gid}) else users[0]]
      + AddMembership(users[1..], uid, gid)
  }

  predicate HasUser(r: Realm, uid: ProviderId) {
    exists k :: 0 <= k < |r.users| && r.users[k].id == uid
  }

  /** `users.addToGroup`: 404 for an unknown user; adding an existing membership changes nothing. */
  function UsersAddToGroup(r: Realm, uid: ProviderId, gid: nat): (res: (Attempt<()>, Realm))
    ensures res.1.callLinks == Next(r.callLinks).1
    ensures res.0.Ok? <==> Next(r.callLinks).0.Up? && HasUser(r, uid)
    ensures res.0.Ok? ==> res.1 == r.(users := AddMembership(r.users, uid, gid), callLinks := res.1.callLinks)
    ensures res.0.Err? ==> res.1 == r.(callLinks := res.1.callLinks)
    ensures RealmValid(r) ==> RealmValid(res.1)
  {
    var (link, rest) := Next(r.callLinks);
    match link
    case Broken(f) => (Err(f), r.(callLinks := rest))
    case Up =>
      if HasUser(r, uid) then (Ok(()), r.(users := AddMembership(r.users, uid, gid), callLinks := rest))
      else (Err(NotFound), r.(callLinks := rest))
  }

  /** `users.find({ email, exact: true })` */
  function UsersFind(r: Realm, email: string): (res: (Attempt<seq<ProviderUser>>, Realm))
    ensures res.1 == r.(callLinks := Next(r.callLinks).1)
    ensures res.0.Ok? <==> Next(r.callLinks).0.Up?
    ensures res.0.Ok? ==> res.0.value == Filter(r.users, HasEmail(email))
  {
    var (link, rest) := Next(r.callLinks);
    match link
    case Broken(f) => (Err(f), r.(callLinks := rest))
    case Up => (Ok(Filter(r.users, HasEmail(email))), r.(callLinks := rest))
  }

  // ---------------------------------------------------------------------------
  // The exported operations

  /** The representation `createKeycloakUser` sends: username is the email, verified, non-temporary password. */
  function Representation(data: NewUser): (u: ProviderUser)
    ensures u.username == u.email == data.email
    ensures u.enabled <==> data.enabled != Some(false)
    ensures u.emailVerified
    ensures u.credentials == [Credential("password", data.password, false)]
    ensures u.groupIds == {}
  {
    ProviderUser(0, data.email, data.email, data.firstName, data.lastName,
                 data.enabled != Some(false), true, [Credential("password", data.password, false)], {})
  }

  /** The body of `createKeycloakUser`'s operation: a 409 becomes "already exists". */
  function CreateOp(r: Realm, data: NewUser): (res: (Attempt<ProviderId>, Realm))
    ensures res.1.callLinks == Next(r.callLinks).1
    ensures res.0.Ok? ==>
              && res.0.value == r.nextId
              && res.1 == r.(users := r.users + [Stored(Representation(data)).(id := r.nextId)],
                             nextId := r.nextId + 1, callLinks := res.1.callLinks)
    ensures res.0.Err? ==> res.1 == r.(callLinks := res.1.callLinks)
    ensures Next(r.callLinks).0.Up? ==>
              (res.0.Ok? <==> !Taken(r, data.email, data.email))
    ensures Next(r.callLinks).0.Up? && Taken(r, data.email, data.email) ==> res.0 == Err(AlreadyExists)
    ensures RealmValid(r) ==> RealmValid(res.1)
  {
    var (result, r') := UsersCreate(r, Representation(data));
    if result.Err? && result.failure.status == Some(409) then (Err(AlreadyExists), r')
    else (result, r')
  }

  /** The message a 409 turns into does say "already exists". */
  lemma AlreadyExistsMentioned()
    ensures Includes(AlreadyExists.message, "already exists")
  {
    IncludesSuffix("User with this email ", "already exists");
    assert "User with this email " + "already exists" == AlreadyExists.message;
  }

  /** `createKeycloakUser` */
  function CreateKeycloakUser(s: Session, r: Realm, data: NewUser): (run: Run<ProviderId>)
    ensures run.result.Ok? ==>
              && run.result.value == r.nextId
              && run.realm.users == r.users + [Stored(Representation(data)).(id := r.nextId)]
              && run.realm.nextId == r.nextId + 1
              && run.realm.groups == r.groups
    ensures run.result.Err? ==> run.realm.users == r.users && run.realm.groups == r.groups && run.realm.nextId == r.nextId
    ensures RealmValid(r) ==> RealmValid(run.realm)
    ensures Reliable(s, r) ==> Reliable(run.session, run.realm)
    ensures Reliable(s, r) ==> (run.result.Ok? <==> !Taken(r, data.email, data.email))
    ensures Reliable(s, r) && Taken(r, data.email, data.email) ==>
              run.result == Err(AlreadyExists) && Includes(run.result.failure.message, "already exists")
  {
    AlreadyExistsMentioned();
    WithRetry(s, r, (rl: Realm) => CreateOp(rl, data))
  }

  /** The body of `addUserToGroup`'s operation: search, pick the exact name, add the membership. */
  function AddToGroupOp(r: Realm, uid: ProviderId, groupName: string): (res: (Attempt<()>, Realm))
    ensures res.1.groups == r.groups && res.1.nextId == r.nextId
    ensures res.0.Ok? ==>
              Find(r.groups, Named(groupName)).Some?
              && res.1.users == AddMembership(r.users, uid, Find(r.groups, Named(groupName)).value.id)
    ensures res.0.Err? ==> res.1.users == r.users
    ensures r.callLinks == [] ==>
              && res.1.callLinks == []
              && (res.0.Ok? <==> Find(r.groups, Named(groupName)).Some? && HasUser(r, uid))
    ensures RealmValid(r) ==> RealmValid(res.1)
  {
    var (found, r1) := GroupsFind(r, groupName);
    assert r1.users == r.users && r1.groups == r.groups && r1.nextId == r.nextId;
    assert RealmValid(r) ==> RealmValid(r1);
    if found.Err? then (Err(found.failure), r1)
    else
      assert found.value == Filter(r.groups, NameContains(groupName));
      FindInFilter(r.groups, NameContains(groupName), Named(groupName));
      assert HasUser(r1, uid) == HasUser(r, uid);
      match Find(found.value, Named(groupName))
      case None => (Err(Failure(None, "Group '" + groupName + "' not found in Keycloak")), r1)
      case Some(g) => UsersAddToGroup(r1, uid, g.id)
  }

  /** Searching by name and then picking the exact name finds the first group with that exact name. */
  lemma FindInFilter(groups: seq<Group>, search: Group -> bool, exact: Group -> bool)
    requires forall g :: exact(g) ==> search(g)
    ensures Find(Filter(groups, search), exact) == Find(groups, exact)
  {
    if |groups| > 0 {
      FindInFilter(groups[1..], search, exact);
    }
  }

  /** `addUserToGroup` */
  function AddUserToGroup(s: Session, r: Realm, uid: ProviderId, groupName: string): (run: Run<()>)
    ensures run.realm.groups == r.groups && run.realm.nextId == r.nextId
    ensures run.result.Ok? ==>
              Find(r.groups, Named(groupName)).Some?
              && run.realm.users == AddMembership(r.users, uid, Find(r.groups, Named(groupName)).value.id)
    ensures run.result.Err? ==> run.realm.users == r.users
    ensures Reliable(s, r) ==>
              && Reliable(run.session, run.realm)
              && (run.result.Ok? <==> Find(r.groups, Named(groupName)).Some? && HasUser(r, uid))
    ensures RealmValid(r) ==> RealmValid(run.realm)
  {
    WithRetry(s, r, (rl: Realm) => AddToGroupOp(rl, uid, groupName))
  }

  /** The body of `getUserByEmail`'s operation: the first exact match, or null. */
  function FindByEmailOp(r: Realm, email: string): (res: (Attempt<Option<ProviderUser>>, Realm))
    ensures res.1 == r.(callLinks := Next(r.callLinks).1)
    ensures res.0.Ok? <==> Next(r.callLinks).0.Up?
    ensures res.0.Ok? ==> res.0.value == Find(r.users, HasEmail(email))
  {
    var (found, r1) := UsersFind(r, email);
    if found.Err? then (Err(found.failure), r1)
    else (Ok(if |found.value| > 0 then Some(found.value[0]) else None), r1)
  }

  /** `getUserByEmail` */
  function GetUserByEmail(s: Session, r: Realm, email: string): (run: Run<Option<ProviderUser>>)
    ensures run.realm == r.(callLinks := run.realm.callLinks)
    ensures run.result.Ok? ==> run.result.value == Find(r.users, HasEmail(email))
    ensures Reliable(s, r) ==> Reliable(run.session, run.realm) && run.result.Ok?
  {
    WithRetry(s, r, (rl: Realm) => FindByEmailOp(rl, email))
  }
}
