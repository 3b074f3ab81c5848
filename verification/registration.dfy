/**
  Self-service sign-up (user-service/src/controllers/registrationController.ts):
  `registerMerchant` and `registerClient` validate the form, split the display
  name, create the identity-provider user first, and only then write the local
  store. Their whole effect is a transition of the user service's `System`.
*/
module Registration {
  import opened Wrappers
  import opened Builtins
  import opened LocalStore
  import opened KeycloakAdmin

  /** The user service's state: its own store, the admin session, and the realm. */
  datatype System = System(store: Store, session: Session, realm: Realm)

  /** The JSON body of a merchant sign-up; `None` is an absent or null field. */
  datatype MerchantForm = MerchantForm(
    email: Option<string>,
    password: Option<string>,
    name: Option<string>,
    shopName: Option<string>,
    logo: Option<string>,
    address: Option<string>,
    mvolaNumber: Option<string>)

  /** The JSON body of a client sign-up. */
  datatype ClientForm = ClientForm(email: Option<string>, password: Option<string>, name: Option<string>)

  /** 201 with the new local user and the provider id, or an error status with its message. */
  datatype Reply = Created(user: LocalUser, keycloakId: ProviderId) | Failed(status: nat, error: string)

  const MinPasswordLength: nat := 8
  const MissingFields: string := "Email, password, and name are required"
  const ShortPassword: string := "Password must be at least 8 characters"
  const DuplicateEmail: string := "User with this email already exists"

  /** A truthy string field: present and not empty. */
  predicate Present(v: Option<string>) {
    v.Some? && v.value != ""
  }

  /** The form passes both checks, so the handler goes on to the provider. */
  predicate Acceptable(email: Option<string>, password: Option<string>, name: Option<string>) {
    Present(email) && Present(password) && Present(name) && Utf16Length(password.value) >= MinPasswordLength
  }

  /** The two 400 checks, in order; `None` when the form is acceptable. */
  function Validate(email: Option<string>, password: Option<string>, name: Option<string>): (r: Option<Reply>)
    ensures r.None? <==> Acceptable(email, password, name)
    ensures !Present(email) || !Present(password) || !Present(name) ==> r == Some(Failed(400, MissingFields))
    ensures Present(email) && Present(password) && Present(name) && Utf16Length(password.value) < MinPasswordLength ==>
              r == Some(Failed(400, ShortPassword))
  {
    if !Present(email) || !Present(password) || !Present(name) then Some(Failed(400, MissingFields))
    else if Utf16Length(password.value) < MinPasswordLength then Some(Failed(400, ShortPassword))
    else None
  }

  /**
    `name.trim().split(' ')`, then the first piece, and the other pieces
    rejoined or, when there are none, the first piece again.
  */
  function SplitName(name: string): (r: (string, string))
    ensures ' ' !in r.0
    ensures r.0 == Trim(name)[..FirstIndex(Trim(name), ' ')]
    ensures ' ' !in Trim(name) ==> r.1 == r.0
    ensures ' ' in Trim(name) ==> r.0 + " " + r.1 == Trim(name) && r.1 != ""
  {
    var t := Trim(name);
    var parts := Split(t, ' ');
    SplitHead(t, ' ');
    var rest := Join(parts[1..], " ");
    if ' ' in t then
      NameRest(t);
      (parts[0], rest)
    else (parts[0], parts[0])
  }

  /** In trimmed text with a space, the pieces after the first rejoin to the non-empty text after it. */
  lemma NameRest(t: string)
    requires IsTrimmed(t) && ' ' in t
    ensures var i := FirstIndex(t, ' ');
            && Join(Split(t, ' ')[1..], " ") == t[i + 1..]
            && t[..i] + " " + t[i + 1..] == t
            && t[i + 1..] != ""
  {
    var i := FirstIndex(t, ' ');
    var after := t[i + 1..];
    SplitTail(t, ' ');
    SplitJoin(after, ' ');
    assert " " == [' '];
    assert Join(Split(t, ' ')[1..], " ") == after;
    assert IsWhiteSpace(' ');
    assert i < |t| - 1;
  }

  /** What both handlers ask the provider to create. */
  function ProviderRequest(email: string, password: string, name: string): (d: NewUser)
    ensures d.email == email && d.password == password && d.enabled == Some(true)
    ensures (d.firstName, d.lastName) == SplitName(name)
  {
    var (first, last) := SplitName(name);
    NewUser(email, password, first, last, Some(true))
  }

  /** The catch block: a message mentioning "already exists" is a 409, anything else a 500. */
  function ErrorReply(f: Failure, fallback: string): (r: Reply)
    ensures r.Failed?
    ensures r.status == 409 <==> Includes(f.message, "already exists")
    ensures r.status == 409 ==> r.error == DuplicateEmail
    ensures r.status != 409 ==> r == Failed(500, fallback)
  {
    if Includes(f.message, "already exists") then Failed(409, DuplicateEmail) else Failed(500, fallback)
  }

  /** The profile `registerMerchant` writes for a new user: PENDING, 5% commission, zero balance. */
  function NewMerchantProfile(st: Store, userId: nat, f: MerchantForm): (p: Profile)
    ensures p.id == st.nextProfileId && p.userId == userId && p.status == Pending
    ensures p.shopName == f.shopName && p.logo == f.logo && p.address == f.address
    ensures p.mvolaNumber == (if Present(f.mvolaNumber) then f.mvolaNumber else None)
    ensures p.commissionRate == Some(5.0) && p.balance == Some(0.0)
  {
    Profile(st.nextProfileId, userId, f.shopName, f.logo, f.address,
            if Present(f.mvolaNumber) then f.mvolaNumber else None, Some(5.0), Some(0.0), Pending)
  }

  /**
    The two local writes of `registerMerchant`, once the provider user exists:
    a BUYER user without a password, then its profile. `None` is a store error;
    in a valid store that only happens for an email already in use, and then
    nothing is written.
  */
  function MerchantLocalWrites(st: Store, email: string, name: string, f: MerchantForm): (r: (Option<LocalUser>, Store))
    ensures r.0.Some? ==>
              && r.0.value == LocalUser(st.nextUserId, email, name, "", Buyer)
              && r.1 == Store(st.users[st.nextUserId := r.0.value],
                              st.profiles[st.nextUserId := NewMerchantProfile(st, st.nextUserId, f)],
                              st.nextUserId + 1, st.nextProfileId + 1)
    ensures Valid(st) ==> Valid(r.1)
    ensures Valid(st) ==> (r.0.Some? <==> !EmailTaken(st, email))
    ensures Valid(st) && r.0.None? ==> r.1 == st
  {
    match CreateUser(st, email, name, "", Buyer)
    case None => (None, st)
    case Some((user, st1)) =>
      var p := NewMerchantProfile(st, user.id, f);
      match CreateProfile(st1, user.id, p.shopName, p.logo, p.address, p.mvolaNumber, p.commissionRate, p.balance, p.status)
      case None => (None, st1)
      case Some((_, st2)) => (Some(user), st2)
  }

  /**
    `registerMerchant`. The local user is a BUYER until an administrator
    approves the PENDING profile, and no provider group is assigned. The
    store's own unique-email error does not mention "already exists", so it is
    a 500 that leaves the provider user behind.
  */
  function RegisterMerchant(sys: System, f: MerchantForm): (r: (Reply, System))
    ensures !Present(f.email) || !Present(f.password) || !Present(f.name) ==> r == (Failed(400, MissingFields), sys)
    ensures Present(f.email) && Present(f.password) && Present(f.name) && Utf16Length(f.password.value) < MinPasswordLength ==>
              r == (Failed(400, ShortPassword), sys)
    ensures r.0.Failed? && Valid(sys.store) ==> r.1.store == sys.store
    ensures r.0.Created? ==>
              && Acceptable(f.email, f.password, f.name)
              && r.0.user == LocalUser(sys.store.nextUserId, f.email.value, f.name.value, "", Buyer)
              && r.1.store.users == sys.store.users[sys.store.nextUserId := r.0.user]
              && r.1.store.profiles == sys.store.profiles[sys.store.nextUserId := NewMerchantProfile(sys.store, sys.store.nextUserId, f)]
              && r.0.keycloakId == sys.realm.nextId
    ensures r.1.realm.groups == sys.realm.groups
    ensures r.1.realm.users == sys.realm.users
            || (Acceptable(f.email, f.password, f.name)
                && r.1.realm.users ==
                     sys.realm.users + [Stored(Representation(ProviderRequest(f.email.value, f.password.value, f.name.value))).(id := sys.realm.nextId)])
    ensures r.0.Created? ==> r.1.realm.users != sys.realm.users
    ensures Valid(sys.store) ==> Valid(r.1.store)
    ensures RealmValid(sys.realm) ==> RealmValid(r.1.realm)
    ensures Reliable(sys.session, sys.realm) ==> Reliable(r.1.session, r.1.realm)
    ensures Reliable(sys.session, sys.realm) && Acceptable(f.email, f.password, f.name) && Taken(sys.realm, f.email.value, f.email.value) ==>
              r.0 == Failed(409, DuplicateEmail) && r.1.store == sys.store && r.1.realm == sys.realm
    ensures Reliable(sys.session, sys.realm) && Acceptable(f.email, f.password, f.name) && Valid(sys.store)
            && !Taken(sys.realm, f.email.value, f.email.value) ==>
              (r.0.Created? <==> !EmailTaken(sys.store, f.email.value))
  {
    match Validate(f.email, f.password, f.name)
    case Some(reply) => (reply, sys)
    case None =>
      var run := CreateKeycloakUser(sys.session, sys.realm, ProviderRequest(f.email.value, f.password.value, f.name.value));
      var sys1 := sys.(session := run.session, realm := run.realm);
      match run.result
      case Err(e) => (ErrorReply(e, "Failed to register merchant"), sys1)
      case Ok(keycloakId) =>
        var (user, st) := MerchantLocalWrites(sys.store, f.email.value, f.name.value, f);
        if user.None? then (Failed(500, "Failed to register merchant"), sys1.(store := st))
        else (Created(user.value, keycloakId), sys1.(store := st))
  }

  /** Adding a membership for the newest user touches only that user. */
  lemma AddMembershipToNewest(users: seq<ProviderUser>, u: ProviderUser, gid: nat)
    requires forall k | 0 <= k < |users| :: users[k].id < u.id
    ensures AddMembership(users + [u], u.id, gid) == users + [u.(groupIds := u.groupIds + {gid})]
  {
    var r := AddMembership(users + [u], u.id, gid);
    assert forall k | 0 <= k < |users| :: r[k] == users[k];
  }

  /** Adding the "client" group to the user just appended changes only that user. */
  lemma NewestJoinsClient(r: Realm, request: NewUser, created: seq<ProviderUser>, joined: seq<ProviderUser>)
    requires RealmValid(r) && ClientGroupId(r).Some?
    requires created == r.users + [Stored(Representation(request)).(id := r.nextId)]
    requires joined == AddMembership(created, r.nextId, ClientGroupId(r).value)
    ensures joined == r.users + [Stored(Representation(request)).(id := r.nextId, groupIds := {ClientGroupId(r).value})]
  {
    var u := Stored(Representation(request)).(id := r.nextId);
    var gid := ClientGroupId(r).value;
    AddMembershipToNewest(r.users, u, gid);
    assert u.(groupIds := u.groupIds + {gid}) == Stored(Representation(request)).(id := r.nextId, groupIds := {gid});
  }

  /** The id of the realm's first group named "client". */
  function ClientGroupId(r: Realm): (id: Option<nat>)
    ensures id.Some? <==> exists k :: 0 <= k < |r.groups| && r.groups[k].name == "client"
    ensures id.Some? ==> exists k :: 0 <= k < |r.groups| && r.groups[k] == Group(id.value, "client")
  {
    match Find(r.groups, Named("client"))
    case None => None
    case Some(g) => Some(g.id)
  }

  /**
    The provider side of `registerClient`: create the user, then add it to
    the "client" group. Either step failing ends the sign-up.
  */
  function ProvisionClient(s: Session, r: Realm, request: NewUser): (run: Run<ProviderId>)
    ensures run.realm.groups == r.groups
    ensures run.result.Ok? ==>
              && run.result.value == r.nextId
              && ClientGroupId(r).Some?
              && (RealmValid(r) ==>
                    run.realm.users == r.users + [Stored(Representation(request)).(id := r.nextId, groupIds := {ClientGroupId(r).value})])
    ensures RealmValid(r) ==> RealmValid(run.realm)
    ensures Reliable(s, r) ==> Reliable(run.session, run.realm)
    ensures Reliable(s, r) && Taken(r, request.email, request.email) ==>
              run.result == Err(AlreadyExists) && run.realm == r
    ensures Reliable(s, r) && !Taken(r, request.email, request.email) ==>
              (run.result.Ok? <==> ClientGroupId(r).Some?)
  {
    var created := CreateKeycloakUser(s, r, request);
    match created.result
    case Err(e) => created
    case Ok(keycloakId) =>
      var joined := AddUserToGroup(created.session, created.realm, keycloakId, "client");
      assert HasUser(created.realm, keycloakId) by {
        assert created.realm.users[|r.users|].id == keycloakId;
      }
      assert RealmValid(r) && joined.result.Ok? ==>
               joined.realm.users == r.users + [Stored(Representation(request)).(id := r.nextId, groupIds := {ClientGroupId(r).value})] by {
        if RealmValid(r) && joined.result.Ok? {
          NewestJoinsClient(r, request, created.realm.users, joined.realm.users);
        }
      }
      var result: Attempt<ProviderId> := if joined.result.Ok? then Ok(keycloakId) else Err(joined.result.failure);
      Run(result, joined.session, joined.realm, created.logins + joined.logins, created.attempts + joined.attempts)
  }

  /**
    `registerClient`: the provider user joins the "client" group before the
    local user is written, so a missing group means no local user.
  */
  function RegisterClient(sys: System, f: ClientForm): (r: (Reply, System))
    ensures !Present(f.email) || !Present(f.password) || !Present(f.name) ==> r == (Failed(400, MissingFields), sys)
    ensures Present(f.email) && Present(f.password) && Present(f.name) && Utf16Length(f.password.value) < MinPasswordLength ==>
              r == (Failed(400, ShortPassword), sys)
    ensures r.0.Failed? ==> r.1.store == sys.store
    ensures r.0.Created? ==>
              && Acceptable(f.email, f.password, f.name)
              && r.0.user == LocalUser(sys.store.nextUserId, f.email.value, f.name.value, "", Buyer)
              && r.1.store == sys.store.(users := sys.store.users[r.0.user.id := r.0.user], nextUserId := r.0.user.id + 1)
              && r.0.keycloakId == sys.realm.nextId
              && ClientGroupId(sys.realm).Some?
              && (RealmValid(sys.realm) ==>
                    r.1.realm.users ==
                      sys.realm.users + [Stored(Representation(ProviderRequest(f.email.value, f.password.value, f.name.value)))
                                           .(id := sys.realm.nextId, groupIds := {ClientGroupId(sys.realm).value})])
    ensures r.1.realm.groups == sys.realm.groups
    ensures Valid(sys.store) ==> Valid(r.1.store)
    ensures RealmValid(sys.realm) ==> RealmValid(r.1.realm)
    ensures Reliable(sys.session, sys.realm) ==> Reliable(r.1.session, r.1.realm)
    ensures Reliable(sys.session, sys.realm) && Acceptable(f.email, f.password, f.name) && Taken(sys.realm, f.email.value, f.email.value) ==>
              r.0 == Failed(409, DuplicateEmail) && r.1.store == sys.store && r.1.realm == sys.realm
    ensures Reliable(sys.session, sys.realm) && Acceptable(f.email, f.password, f.name)
            && !Taken(sys.realm, f.email.value, f.email.value) ==>
              (r.0.Created? <==> ClientGroupId(sys.realm).Some? && !EmailTaken(sys.store, f.email.value))
  {
    match Validate(f.email, f.password, f.name)
    case Some(reply) => (reply, sys)
    case None =>
      var run := ProvisionClient(sys.session, sys.realm, ProviderRequest(f.email.value, f.password.value, f.name.value));
      var sys1 := sys.(session := run.session, realm := run.realm);
      match run.result
      case Err(e) => (ErrorReply(e, "Failed to register client"), sys1)
      case Ok(keycloakId) =>
        match CreateUser(sys.store, f.email.value, f.name.value, "", Buyer)
        case None => (Failed(500, "Failed to register client"), sys1)
        case Some((user, st1)) => (Created(user, keycloakId), sys1.(store := st1))
  }

  /**
    Signing up twice with the same email, while the provider answers every
    call, ends in a 409 the second time, and the second attempt writes
    nothing, locally or at the provider.
  */
  lemma RegisterMerchantTwice(sys: System, f: MerchantForm)
    requires Reliable(sys.session, sys.realm) && Valid(sys.store)
    requires Acceptable(f.email, f.password, f.name)
    requires !Taken(sys.realm, f.email.value, f.email.value) && !EmailTaken(sys.store, f.email.value)
    ensures RegisterMerchant(sys, f).0.Created?
    ensures var after := RegisterMerchant(sys, f).1;
            var again := RegisterMerchant(after, f);
            again.0 == Failed(409, DuplicateEmail) && again.1.store == after.store && again.1.realm == after.realm
  {
    var after := RegisterMerchant(sys, f).1;
    assert after.realm.users[|sys.realm.users|].email == Lower(f.email.value);
    LowerIdempotent(f.email.value);
    assert Taken(after.realm, f.email.value, f.email.value);
  }

  /** The same for client sign-up. */
  lemma RegisterClientTwice(sys: System, f: ClientForm)
    requires Reliable(sys.session, sys.realm) && RealmValid(sys.realm)
    requires Acceptable(f.email, f.password, f.name) && ClientGroupId(sys.realm).Some?
    requires !Taken(sys.realm, f.email.value, f.email.value) && !EmailTaken(sys.store, f.email.value)
    ensures RegisterClient(sys, f).0.Created?
    ensures var after := RegisterClient(sys, f).1;
            var again := RegisterClient(after, f);
            again.0 == Failed(409, DuplicateEmail) && again.1.store == after.store && again.1.realm == after.realm
  {
    var after := RegisterClient(sys, f).1;
    assert after.realm.users[|sys.realm.users|].email == Lower(f.email.value);
    LowerIdempotent(f.email.value);
    assert Taken(after.realm, f.email.value, f.email.value);
  }

  /**
    A local unique-email error after the provider user was created is a 500,
    and the provider user stays behind: nothing rolls it back.
  */
  lemma MerchantLocalFailureKeepsProviderUser(sys: System, f: MerchantForm)
    requires Reliable(sys.session, sys.realm) && Valid(sys.store)
    requires Acceptable(f.email, f.password, f.name)
    requires !Taken(sys.realm, f.email.value, f.email.value) && EmailTaken(sys.store, f.email.value)
    ensures var r := RegisterMerchant(sys, f);
            && r.0 == Failed(500, "Failed to register merchant")
            && r.1.store == sys.store
            && r.1.realm.users ==
                 sys.realm.users + [Stored(Representation(ProviderRequest(f.email.value, f.password.value, f.name.value))).(id := sys.realm.nextId)]
  {
  }

  /** The same for client sign-up: the provider user stays behind, already in the "client" group. */
  lemma ClientLocalFailureKeepsProviderUser(sys: System, f: ClientForm)
    requires Reliable(sys.session, sys.realm) && RealmValid(sys.realm)
    requires Acceptable(f.email, f.password, f.name) && ClientGroupId(sys.realm).Some?
    requires !Taken(sys.realm, f.email.value, f.email.value) && EmailTaken(sys.store, f.email.value)
    ensures var r := RegisterClient(sys, f);
            && r.0 == Failed(500, "Failed to register client")
            && r.1.store == sys.store
            && r.1.realm.users ==
                 sys.realm.users + [Stored(Representation(ProviderRequest(f.email.value, f.password.value, f.name.value)))
                                      .(id := sys.realm.nextId, groupIds := {ClientGroupId(sys.realm).value})]
  {
  }
}
