/**
  The user service's local relational store, as the Prisma calls of the
  registration controller and the merchant routes use it: `User` rows with a
  unique email and `MerchantProfile` rows with a unique `userId` referencing
  a user. Ids are auto-incremented.
*/
module LocalStore {
  import opened Wrappers

  datatype Role = Buyer | Merchant

  datatype Status = Pending | Approved | Rejected

  datatype LocalUser = LocalUser(id: nat, email: string, name: string, password: string, role: Role)

  /**
    A merchant profile. `commissionRate` and `balance` are `None` when the
    creating handler left them to the schema's defaults, which are not part of
    this model.
  */
  datatype Profile = Profile(
    id: nat,
    userId: nat,
    shopName: Option<string>,
    logo: Option<string>,
    address: Option<string>,
    mvolaNumber: Option<string>,
    commissionRate: Option<real>,
    balance: Option<real>,
    status: Status)

  /** Users by id, profiles by the `userId` they belong to, and the two id counters. */
  datatype Store = Store(users: map<nat, LocalUser>, profiles: map<nat, Profile>, nextUserId: nat, nextProfileId: nat)

  /** The schema's constraints: keys match ids, unique emails, unique profile ids, profiles reference users. */
  predicate Valid(st: Store) {
    && (forall id | id in st.users :: st.users[id].id == id && id < st.nextUserId)
    && (forall a, b | a in st.users && b in st.users && a != b :: st.users[a].email != st.users[b].email)
    && (forall u | u in st.profiles :: st.profiles[u].userId == u && u in st.users && st.profiles[u].id < st.nextProfileId)
    && (forall a, b | a in st.profiles && b in st.profiles && a != b :: st.profiles[a].id != st.profiles[b].id)
  }

  predicate EmailTaken(st: Store, email: string) {
    exists id | id in st.users :: st.users[id].email == email
  }

  /** The first id below `bound`, from `from` upwards, of a user with this email. */
  function ScanEmail(st: Store, email: string, from: nat, bound: nat): (r: Option<nat>)
    ensures r.Some? ==> from <= r.value < bound && r.value in st.users && st.users[r.value].email == email
    ensures r.None? ==> forall id | from <= id < bound && id in st.users :: st.users[id].email != email
    decreases bound - from
  {
    if from >= bound then None
    else if from in st.users && st.users[from].email == email then Some(from)
    else ScanEmail(st, email, from + 1, bound)
  }

  /** `user.findUnique({ where: { email } })` */
  function UserByEmail(st: Store, email: string): (r: Option<LocalUser>)
    ensures Valid(st) ==> (r.Some? <==> EmailTaken(st, email))
    ensures r.Some? ==> r.value.email == email && r.value in st.users.Values
    ensures r.Some? && Valid(st) ==> r.value.id in st.users && st.users[r.value.id] == r.value
  {
    match ScanEmail(st, email, 0, st.nextUserId)
    case None => None
    case Some(id) => Some(st.users[id])
  }

  /** `user.findUnique({ where: { id } })` */
  function UserById(st: Store, id: int): (r: Option<LocalUser>)
    ensures r.Some? <==> id in st.users
    ensures r.Some? ==> r == Some(st.users[id])
  {
    if id in st.users then Some(st.users[id]) else None
  }

  /** `user.create`: refused (`None`) when the email is taken; otherwise the next id. */
  function CreateUser(st: Store, email: string, name: string, password: string, role: Role): (r: Option<(LocalUser, Store)>)
    ensures r.None? <==> EmailTaken(st, email)
    ensures r.Some? ==>
              var u := r.value.0;
              && u == LocalUser(st.nextUserId, email, name, password, role)
              && r.value.1 == st.(users := st.users[u.id := u], nextUserId := st.nextUserId + 1)
    ensures r.Some? && Valid(st) ==> Valid(r.value.1)
  {
    if EmailTaken(st, email) then None
    else
      var u := LocalUser(st.nextUserId, email, name, password, role);
      Some((u, st.(users := st.users[u.id := u], nextUserId := st.nextUserId + 1)))
  }

  /** `merchantProfile.create`: refused when the user already has a profile or does not exist. */
  function CreateProfile(st: Store, userId: nat, shopName: Option<string>, logo: Option<string>, address: Option<string>,
                         mvolaNumber: Option<string>, commissionRate: Option<real>, balance: Option<real>,
                         status: Status): (r: Option<(Profile, Store)>)
    ensures r.None? <==> userId in st.profiles || userId !in st.users
    ensures r.Some? ==>
              var p := r.value.0;
              && p == Profile(st.nextProfileId, userId, shopName, logo, address, mvolaNumber, commissionRate, balance, status)
              && r.value.1 == st.(profiles := st.profiles[userId := p], nextProfileId := st.nextProfileId + 1)
    ensures r.Some? && Valid(st) ==> Valid(r.value.1)
  {
    if userId in st.profiles || userId !in st.users then None
    else
      var p := Profile(st.nextProfileId, userId, shopName, logo, address, mvolaNumber, commissionRate, balance, status);
      Some((p, st.(profiles := st.profiles[userId := p], nextProfileId := st.nextProfileId + 1)))
  }

  /** Rewriting a profile in place, same id and owner, keeps the constraints. */
  lemma ProfileRewriteValid(st: Store, uid: nat, w: Profile)
    requires Valid(st) && uid in st.profiles && w.id == st.profiles[uid].id && w.userId == uid
    ensures Valid(st.(profiles := st.profiles[uid := w]))
  {
  }

  /** Rewriting a user in place, same id and email, keeps the constraints. */
  lemma UserRewriteValid(st: Store, uid: nat, u: LocalUser)
    requires Valid(st) && uid in st.users && u.id == uid && u.email == st.users[uid].email
    ensures Valid(st.(users := st.users[uid := u]))
  {
  }
}
