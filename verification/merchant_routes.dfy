/**
  The merchant routes of the user service (user-service/src/routes/merchantRoutes.ts):
  the profile upsert `POST /`, the read `GET /:id`, the administrator's
  decision `PUT /:id/status`, and the list `GET /admin/pending`. Profiles
  are addressed by the id of the user they belong to.
*/
module MerchantRoutes {
  import opened Wrappers
  import opened LocalStore
  import opened KeycloakAdmin
  import opened Registration
  import opened Builtins
  import Bearer

  /**
    The body's `userId`, as the handler's test sees it: falsy (absent, null,
    0 or ""), a value whose `Number(...)` is an integer, one whose number is
    not an integer (the store rejects it), or one that is not a number.
  */
  datatype UserIdField = Falsy | Integer(n: int) | Fractional | NotANumber

  /** A column in an update: an absent field keeps it, null or a text sets it. */
  datatype Patch = Keep | Put(value: Option<string>)

  /** The JSON body of `POST /`. */
  datatype ProfileForm = ProfileForm(
    userId: UserIdField,
    email: Option<string>,
    name: Option<string>,
    shopName: Patch,
    logo: Patch,
    address: Patch,
    mvolaNumber: Patch)

  /** A profile as JSON (status 200), or an error status with its message. */
  datatype Response = Json(profile: Profile) | Refused(status: nat, error: string)

  const UpsertFailed: string := "Failed to create/update merchant profile"
  const NoUserNoEmail: string := "User not found and email not provided for creation"
  const FetchFailed: string := "Failed to fetch merchant profile"
  const NotFoundMessage: string := "Merchant not found"
  const StatusFailed: string := "Failed to update merchant status"
  const ManagedPassword: string := "managed-by-keycloak"

  /** The column after an update with patch `p`. */
  function Apply(prev: Option<string>, p: Patch): (r: Option<string>)
    ensures p.Keep? ==> r == prev
    ensures p.Put? ==> r == p.value
  {
    if p.Keep? then prev else p.value
  }

  /** The column a create writes: an absent field leaves it null. */
  function Initial(p: Patch): (r: Option<string>)
    ensures r == Apply(None, p)
  {
    if p.Keep? then None else p.value
  }

  // ---------------------------------------------------------------------------
  // POST /

  /**
    The existing user the request designates: by id when `userId` is numeric,
    else by email. A fractional id designates nobody (the store refuses it).
  */
  function LookupUser(st: Store, f: ProfileForm): (r: Option<LocalUser>)
    requires Valid(st)
    ensures r.Some? ==> r.value.id in st.users && st.users[r.value.id] == r.value
    ensures f.userId.Integer? ==> (r.Some? <==> f.userId.n in st.users) && (r.Some? ==> r.value.id == f.userId.n)
    ensures f.userId.Fractional? || (!f.userId.Integer? && !Present(f.email)) ==> r.None?
    ensures (f.userId.Falsy? || f.userId.NotANumber?) && Present(f.email) ==>
              && (r.Some? ==> r.value.email == f.email.value)
              && (r.Some? <==> EmailTaken(st, f.email.value))
  {
    match f.userId
    case Integer(n) => UserById(st, n)
    case Fractional => None
    case Falsy => if Present(f.email) then UserByEmail(st, f.email.value) else None
    case NotANumber => if Present(f.email) then UserByEmail(st, f.email.value) else None
  }

  /** The profile after the upsert's update branch: only the four patched columns move. */
  function Updated(p: Profile, f: ProfileForm): (q: Profile)
    ensures q.id == p.id && q.userId == p.userId && q.status == p.status
    ensures q.commissionRate == p.commissionRate && q.balance == p.balance
    ensures q.shopName == Apply(p.shopName, f.shopName) && q.logo == Apply(p.logo, f.logo)
    ensures q.address == Apply(p.address, f.address) && q.mvolaNumber == Apply(p.mvolaNumber, f.mvolaNumber)
  {
    p.(shopName := Apply(p.shopName, f.shopName), logo := Apply(p.logo, f.logo),
       address := Apply(p.address, f.address), mvolaNumber := Apply(p.mvolaNumber, f.mvolaNumber))
  }

  /** `merchantProfile.upsert` for a user that exists. */
  function Upsert(st: Store, user: LocalUser, f: ProfileForm): (r: (Profile, Store))
    requires Valid(st) && user.id in st.users
    ensures r.0.userId == user.id
    ensures r.1 == st.(profiles := st.profiles[user.id := r.0], nextProfileId := r.1.nextProfileId)
    ensures user.id in st.profiles ==> r.0 == Updated(st.profiles[user.id], f) && r.1.nextProfileId == st.nextProfileId
    ensures user.id !in st.profiles ==>
              && r.0 == Profile(st.nextProfileId, user.id, Initial(f.shopName), Initial(f.logo), Initial(f.address),
                                Initial(f.mvolaNumber), None, None, Pending)
              && r.1.nextProfileId == st.nextProfileId + 1
    ensures Valid(r.1)
  {
    if user.id in st.profiles then
      var q := Updated(st.profiles[user.id], f);
      assert Valid(st.(profiles := st.profiles[user.id := q]));
      (q, st.(profiles := st.profiles[user.id := q]))
    else
      var created := CreateProfile(st, user.id, Initial(f.shopName), Initial(f.logo), Initial(f.address),
                                   Initial(f.mvolaNumber), None, None, Pending);
      created.value
  }

  /**
    `POST /`: find the user (or create it, as a MERCHANT, when an email is
    given), then create or update its profile. An update never changes the
    status; a new profile is PENDING. Only the designated user's profile moves.
  */
  function UpsertProfile(st: Store, f: ProfileForm): (r: (Response, Store))
    requires Valid(st)
    ensures f.userId.Fractional? ==> r == (Refused(500, UpsertFailed), st)
    ensures r.0.Refused? ==> r.1 == st && (r.0.status == 400 || r.0.status == 500)
    ensures r.0 == Refused(400, NoUserNoEmail) <==>
              !f.userId.Fractional? && LookupUser(st, f).None? && !Present(f.email)
    ensures r.0.Json? ==>
              var uid := r.0.profile.userId;
              && uid in r.1.users
              && r.1.profiles == st.profiles[uid := r.0.profile]
              && (uid in st.profiles ==> r.0.profile == Updated(st.profiles[uid], f))
              && (uid !in st.profiles ==> r.0.profile.status == Pending && r.0.profile.id == st.nextProfileId)
    ensures !f.userId.Fractional? && LookupUser(st, f).Some? ==>
              r.0.Json? && r.0.profile.userId == LookupUser(st, f).value.id && r.1.users == st.users
    ensures !f.userId.Fractional? && LookupUser(st, f).None? && Present(f.email) ==>
              && (r.0.Json? <==> !EmailTaken(st, f.email.value))
              && (r.0.Json? ==>
                    && r.0.profile.userId == st.nextUserId
                    && r.1.users == st.users[st.nextUserId := LocalUser(st.nextUserId, f.email.value,
                                                                      Bearer.OrDefault(f.name, "Unknown"), ManagedPassword, Merchant)])
    ensures Valid(r.1)
  {
    if f.userId.Fractional? then (Refused(500, UpsertFailed), st)
    else
      match LookupUser(st, f)
      case Some(user) =>
        var (p, st1) := Upsert(st, user, f);
        (Json(p), st1)
      case None =>
        if !Present(f.email) then (Refused(400, NoUserNoEmail), st)
        else
          match CreateUser(st, f.email.value, Bearer.OrDefault(f.name, "Unknown"), ManagedPassword, Merchant)
          case None => (Refused(500, UpsertFailed), st)
          case Some((user, st1)) =>
            var (p, st2) := Upsert(st1, user, f);
            (Json(p), st2)
  }

  /** Sending the same form again by email (no numeric `userId`) changes nothing more. */
  lemma UpsertByEmailIdempotent(st: Store, f: ProfileForm)
    requires Valid(st)
    requires !f.userId.Integer? && !f.userId.Fractional? && Present(f.email)
    requires UpsertProfile(st, f).0.Json?
    ensures var once := UpsertProfile(st, f);
            UpsertProfile(once.1, f) == once
  {
    var once := UpsertProfile(st, f);
    var uid := once.0.profile.userId;
    assert once.1.users[uid].email == f.email.value;
    assert EmailTaken(once.1, f.email.value);
    assert LookupUser(once.1, f) == Some(once.1.users[uid]);
    var p := once.0.profile;
    assert Updated(p, f) == p;
    assert once.1.profiles[uid := p] == once.1.profiles;
  }

  /**
    A numeric `userId` that names nobody, with an email: the first request
    creates a user under a fresh id, so the same request again finds no user
    by that id, tries to create the email a second time, and fails with 500.
  */
  lemma UpsertByStaleIdFailsOnRetry(st: Store, f: ProfileForm)
    requires Valid(st)
    requires f.userId.Integer? && f.userId.n !in st.users && f.userId.n != st.nextUserId
    requires Present(f.email) && !EmailTaken(st, f.email.value)
    ensures UpsertProfile(st, f).0.Json?
    ensures UpsertProfile(UpsertProfile(st, f).1, f) == (Refused(500, UpsertFailed), UpsertProfile(st, f).1)
  {
    var once := UpsertProfile(st, f);
    assert once.1.users[st.nextUserId].email == f.email.value;
  }

  // ---------------------------------------------------------------------------
  // GET /:id and GET /admin/pending

  /** `GET /:id`: `id` is `Number(req.params.id)` when that is an integer. */
  function GetProfile(st: Store, id: Option<int>): (r: Response)
    ensures id.None? ==> r == Refused(500, FetchFailed)
    ensures id.Some? ==> (r.Json? <==> id.value in st.profiles)
    ensures id.Some? && id.value !in st.profiles ==> r == Refused(404, NotFoundMessage)
    ensures r.Json? ==> r.profile.userId == id.value || !Valid(st)
  {
    if id.None? then Refused(500, FetchFailed)
    else if id.value in st.profiles then Json(st.profiles[id.value])
    else Refused(404, NotFoundMessage)
  }

  /** A successful upsert is what the read route then answers for that user. */
  lemma UpsertThenGet(st: Store, f: ProfileForm)
    requires Valid(st) && UpsertProfile(st, f).0.Json?
    ensures var r := UpsertProfile(st, f);
            GetProfile(r.1, Some(r.0.profile.userId)) == r.0
  {
  }

  /** `GET /admin/pending`: the profiles whose status is PENDING. */
  function PendingMerchants(st: Store): (ps: set<Profile>)
    ensures forall u | u in st.profiles && st.profiles[u].status == Pending :: st.profiles[u] in ps
    ensures forall p | p in ps :: p.status == Pending && p in st.profiles.Values
  {
    set u | u in st.profiles && st.profiles[u].status == Pending :: st.profiles[u]
  }

  // ---------------------------------------------------------------------------
  // PUT /:id/status

  /** The three values of the status enumeration, by name. */
  function ParseStatus(s: string): (r: Option<Status>)
    ensures r == Some(Pending) <==> s == "PENDING"
    ensures r == Some(Approved) <==> s == "APPROVED"
    ensures r == Some(Rejected) <==> s == "REJECTED"
  {
    if s == "PENDING" then Some(Pending)
    else if s == "APPROVED" then Some(Approved)
    else if s == "REJECTED" then Some(Rejected)
    else None
  }

  /**
    The best-effort provider sync after an approval: look the user up by
    email and, if found, add it to the "merchant" group. Every failure is
    swallowed; only the session and the realm can change.
  */
  function SyncMerchantGroup(s: Session, r: Realm, email: string): (res: (Session, Realm))
    ensures res.1.groups == r.groups && res.1.nextId == r.nextId
    ensures res.1.users == r.users
            || (Find(r.users, HasEmail(email)).Some? && Find(r.groups, Named("merchant")).Some?
                && res.1.users == AddMembership(r.users, Find(r.users, HasEmail(email)).value.id,
                                                Find(r.groups, Named("merchant")).value.id))
    ensures Reliable(s, r) ==>
              && Reliable(res.0, res.1)
              && (Find(r.users, HasEmail(email)).Some? && Find(r.groups, Named("merchant")).Some? ==>
                    res.1.users == AddMembership(r.users, Find(r.users, HasEmail(email)).value.id,
                                                 Find(r.groups, Named("merchant")).value.id))
              && (Find(r.users, HasEmail(email)).None? ==> res.1 == r)
    ensures RealmValid(r) ==> RealmValid(res.1)
  {
    var found := GetUserByEmail(s, r, email);
    match found.result
    case Ok(Some(kcUser)) =>
      assert HasUser(found.realm, kcUser.id) by {
        var k :| 0 <= k < |r.users| && r.users[k] == kcUser;
        assert found.realm.users[k].id == kcUser.id;
      }
      var joined := AddUserToGroup(found.session, found.realm, kcUser.id, "merchant");
      (joined.session, joined.realm)
    case _ => (found.session, found.realm)
  }

  /**
    `PUT /:id/status`. The supplied status is written whatever the current one
    is; an absent status writes nothing. APPROVED then makes the user a
    MERCHANT and syncs the provider, and the answer is the profile as written,
    whatever the provider does.
  */
  function UpdateStatus(sys: System, id: Option<int>, status: Option<string>): (r: (Response, System))
    ensures id.None? || id.value !in sys.store.profiles ==> r == (Refused(500, StatusFailed), sys)
    ensures status.Some? && ParseStatus(status.value).None? ==> r == (Refused(500, StatusFailed), sys)
    ensures r.1.store.nextUserId == sys.store.nextUserId && r.1.store.nextProfileId == sys.store.nextProfileId
    ensures id.Some? && id.value in sys.store.profiles && (status.None? || ParseStatus(status.value).Some?) ==>
              var prev := sys.store.profiles[id.value];
              var written := if status.None? then prev else prev.(status := ParseStatus(status.value).value);
              && r.1.store.profiles == sys.store.profiles[id.value := written]
              && (r.0.Json? <==> status != Some("APPROVED") || id.value in sys.store.users)
              && (r.0.Json? ==> r.0.profile == written)
    ensures status != Some("APPROVED") ==>
              r.1.store.users == sys.store.users && r.1.session == sys.session && r.1.realm == sys.realm
    ensures status == Some("APPROVED") && r.0.Json? ==>
              r.1.store.users == sys.store.users[id.value := sys.store.users[id.value].(role := Merchant)]
    ensures Valid(sys.store) ==> Valid(r.1.store)
    ensures RealmValid(sys.realm) ==> RealmValid(r.1.realm)
  {
    if id.None? || id.value !in sys.store.profiles then (Refused(500, StatusFailed), sys)
    else if status.Some? && ParseStatus(status.value).None? then (Refused(500, StatusFailed), sys)
    else
      var uid := id.value;
      var prev := sys.store.profiles[uid];
      var written := if status.None? then prev else prev.(status := ParseStatus(status.value).value);
      var st1 := sys.store.(profiles := sys.store.profiles[uid := written]);
      assert Valid(sys.store) ==> Valid(st1) by {
        if Valid(sys.store) { ProfileRewriteValid(sys.store, uid, written); }
      }
      if status != Some("APPROVED") then (Json(written), sys.(store := st1))
      else if uid !in st1.users then (Refused(500, StatusFailed), sys.(store := st1))
      else
        var user := st1.users[uid].(role := Merchant);
        var st2 := st1.(users := st1.users[uid := user]);
        assert Valid(st1) ==> Valid(st2) by {
          if Valid(st1) { UserRewriteValid(st1, uid, user); }
        }
        var (session, realm) := SyncMerchantGroup(sys.session, sys.realm, user.email);
        (Json(written), System(st2, session, realm))
  }

  /**
    The reply and the local store after a decision do not depend on the
    provider: any session and realm, working or not, give the same.
  */
  lemma DecisionIgnoresProvider(sys: System, s: Session, realm: Realm, id: Option<int>, status: Option<string>)
    ensures var a := UpdateStatus(sys, id, status);
            var b := UpdateStatus(sys.(session := s, realm := realm), id, status);
            a.0 == b.0 && a.1.store == b.1.store
  {
  }

  /**
    There is no guard on the current status: a rejection after an approval is
    accepted, the profile ends REJECTED, and the user keeps the MERCHANT role.
  */
  lemma RejectAfterApprove(sys: System, uid: nat)
    requires Valid(sys.store) && uid in sys.store.profiles
    ensures var approved := UpdateStatus(sys, Some(uid), Some("APPROVED"));
            var rejected := UpdateStatus(approved.1, Some(uid), Some("REJECTED"));
            && approved.0.Json? && approved.0.profile.status == Approved
            && rejected.0.Json? && rejected.0.profile.status == Rejected
            && rejected.1.store.profiles[uid].status == Rejected
            && rejected.1.store.users[uid].role == Merchant
  {
    assert ParseStatus("APPROVED") == Some(Approved);
    assert ParseStatus("REJECTED") == Some(Rejected);
  }

  /** A decision on a PENDING profile takes exactly that profile off the pending list. */
  lemma DecisionLeavesPending(sys: System, uid: nat, status: string)
    requires Valid(sys.store) && uid in sys.store.profiles && sys.store.profiles[uid].status == Pending
    requires status == "APPROVED" || status == "REJECTED"
    ensures PendingMerchants(UpdateStatus(sys, Some(uid), Some(status)).1.store) ==
              PendingMerchants(sys.store) - {sys.store.profiles[uid]}
  {
    var p := sys.store.profiles[uid];
    assert ParseStatus(status).Some? && ParseStatus(status).value != Pending;
    var after := UpdateStatus(sys, Some(uid), Some(status)).1.store;
    assert after.profiles == sys.store.profiles[uid := p.(status := ParseStatus(status).value)];
    PendingAfterWrite(sys.store, after, uid, p.(status := ParseStatus(status).value));
  }

  /** Writing a non-pending profile at a pending one's place removes exactly it from the list. */
  lemma PendingAfterWrite(st: Store, st': Store, uid: nat, w: Profile)
    requires Valid(st) && uid in st.profiles && st.profiles[uid].status == Pending
    requires w.status != Pending && st'.profiles == st.profiles[uid := w]
    ensures PendingMerchants(st') == PendingMerchants(st) - {st.profiles[uid]}
  {
    var p := st.profiles[uid];
    forall q | q in PendingMerchants(st')
      ensures q in PendingMerchants(st) - {p}
    {
      var u :| u in st'.profiles && st'.profiles[u] == q;
      assert u != uid;
      assert st.profiles[u] == q;
      assert q.id != p.id;
    }
    forall q | q in PendingMerchants(st) - {p}
      ensures q in PendingMerchants(st')
    {
      var u :| u in st.profiles && st.profiles[u] == q;
      assert u != uid;
      assert st'.profiles[u] == q;
    }
  }

  /** A merchant who has just signed up is on the pending list. */
  lemma RegisteredMerchantIsPending(sys: System, f: MerchantForm)
    requires RegisterMerchant(sys, f).0.Created?
    ensures var after := RegisterMerchant(sys, f).1.store;
            NewMerchantProfile(sys.store, sys.store.nextUserId, f) in PendingMerchants(after)
  {
    var after := RegisterMerchant(sys, f).1.store;
    assert after.profiles[sys.store.nextUserId] == NewMerchantProfile(sys.store, sys.store.nextUserId, f);
  }

  /**
    Under a working provider, approving a user the realm knows by email, when
    the realm has a "merchant" group, adds that group to the provider user.
  */
  lemma ApprovalJoinsMerchantGroup(sys: System, uid: nat)
    requires Reliable(sys.session, sys.realm) && Valid(sys.store) && uid in sys.store.profiles
    requires Find(sys.realm.users, HasEmail(sys.store.users[uid].email)).Some?
    requires Find(sys.realm.groups, Named("merchant")).Some?
    ensures var after := UpdateStatus(sys, Some(uid), Some("APPROVED")).1;
            after.realm.users ==
              AddMembership(sys.realm.users, Find(sys.realm.users, HasEmail(sys.store.users[uid].email)).value.id,
                            Find(sys.realm.groups, Named("merchant")).value.id)
  {
    assert ParseStatus("APPROVED") == Some(Approved);
    var user := sys.store.users[uid].(role := Merchant);
    assert user.email == sys.store.users[uid].email;
  }

  // ---------------------------------------------------------------------------
  // The administrator dashboard's decision buttons

  /**
    The dashboard's Approve and Reject buttons as written: they put the
    profile's own `id` in the path, where the route expects the user's id.
    So the decision lands on whatever profile belongs to the user whose id
    equals that profile id.
  */
  function DashboardDecideAsWritten(sys: System, p: Profile, decision: string): (r: (Response, System))
    requires decision == "APPROVED" || decision == "REJECTED"
    ensures p.id !in sys.store.profiles ==> r == (Refused(500, StatusFailed), sys)
    ensures p.id in sys.store.profiles ==>
              r.1.store.profiles == sys.store.profiles[p.id := sys.store.profiles[p.id].(status := ParseStatus(decision).value)]
  {
    UpdateStatus(sys, Some(p.id), Some(decision))
  }

  /**
    Two pending merchants whose ids are crossed (the first one's profile id is
    the second one's user id): approving the first one's row approves the
    second merchant, who becomes a MERCHANT, and the first stays PENDING.
  */
  lemma DashboardApprovesWrongMerchant(sys: System, pa: Profile, pb: Profile)
    requires Valid(sys.store) && pa in PendingMerchants(sys.store) && pb in PendingMerchants(sys.store)
    requires pa.id == pb.userId && pa.userId != pb.userId
    ensures var after := DashboardDecideAsWritten(sys, pa, "APPROVED").1.store;
            && after.profiles[pa.userId] == pa
            && after.profiles[pb.userId] == pb.(status := Approved)
            && after.users[pb.userId].role == Merchant
            && after.users[pa.userId] == sys.store.users[pa.userId]
  {
    var st := sys.store;
    assert st.profiles[pa.userId] == pa && st.profiles[pb.userId] == pb;
    assert ParseStatus("APPROVED") == Some(Approved);
    var after := UpdateStatus(sys, Some(pb.userId), Some("APPROVED")).1.store;
    assert after.profiles == st.profiles[pb.userId := pb.(status := Approved)];
    assert after.users == st.users[pb.userId := st.users[pb.userId].(role := Merchant)];
  }

  /** Such crossed ids occur as soon as profiles are not created in user-id order. */
  lemma CrossedIdsOccur()
    ensures var pa := Profile(2, 1, Some("A"), None, None, None, Some(5.0), Some(0.0), Pending);
            var pb := Profile(1, 2, Some("B"), None, None, None, Some(5.0), Some(0.0), Pending);
            var st := Store(map[1 := LocalUser(1, "a@shop.mg", "A", "", Buyer), 2 := LocalUser(2, "b@shop.mg", "B", "", Buyer)],
                            map[1 := pa, 2 := pb], 3, 3);
            && Valid(st) && pa in PendingMerchants(st) && pb in PendingMerchants(st)
            && pa.id == pb.userId && pa.userId != pb.userId
  {
    var pa := Profile(2, 1, Some("A"), None, None, None, Some(5.0), Some(0.0), Pending);
    var pb := Profile(1, 2, Some("B"), None, None, None, Some(5.0), Some(0.0), Pending);
    var st := Store(map[1 := LocalUser(1, "a@shop.mg", "A", "", Buyer), 2 := LocalUser(2, "b@shop.mg", "B", "", Buyer)],
                    map[1 := pa, 2 := pb], 3, 3);
    assert st.profiles[1] == pa && st.profiles[2] == pb;
  }

  /**
    The buttons as intended: the path carries the profile's `userId`. A
    decision on a listed profile then changes exactly that profile's status.
  */
  function DashboardDecide(sys: System, p: Profile, decision: string): (r: (Response, System))
    requires decision == "APPROVED" || decision == "REJECTED"
    ensures Valid(sys.store) && p in sys.store.profiles.Values ==>
              && r.0 == Json(p.(status := ParseStatus(decision).value))
              && r.1.store.profiles == sys.store.profiles[p.userId := p.(status := ParseStatus(decision).value)]
  {
    UpdateStatus(sys, Some(p.userId), Some(decision))
  }

  /** With the intended buttons, deciding on a pending row takes exactly that row off the list. */
  lemma DashboardDecisionClearsRow(sys: System, p: Profile, decision: string)
    requires decision == "APPROVED" || decision == "REJECTED"
    requires Valid(sys.store) && p in PendingMerchants(sys.store)
    ensures PendingMerchants(DashboardDecide(sys, p, decision).1.store) == PendingMerchants(sys.store) - {p}
  {
    assert sys.store.profiles[p.userId] == p;
    DecisionLeavesPending(sys, p.userId, decision);
  }
}
