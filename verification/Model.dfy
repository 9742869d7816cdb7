/** The relational data HomeGate keeps: users, services, policies, subscriptions and linked accounts.

    A subscription row is stored under its unique (userId, serviceId) key. Its primary key is an
    opaque id; here an id names the key it was created for and how many rows that key had before,
    so ids are unique and never reused. Only equality of ids is meaningful to the code. */
module Model {
  type UserId = string
  type ServiceId = nat
  type AccountId = nat
  type Time = int

  datatype Option<+T> = None | Some(value: T)

  datatype Key = Key(user: UserId, service: ServiceId)
  datatype SubId = SubId(key: Key, nth: nat)

  datatype Status =
    | Provisioning | Active | Failed | Cancelling | Cancelled | Expired | Disabling | Disabled | Enabling
  datatype FailedOperation = FailedProvisioning | FailedCancellation | FailedExpiration | FailedSync
  datatype AccountType = Managed | Referenced | NoAccount
  datatype Effect = Allow | Deny

  datatype Subscription = Subscription(
    id: SubId,
    status: Status,
    expiresAt: Option<Time>,
    autoRenew: bool,
    derivedFrom: Option<SubId>,
    provisionedAt: Option<Time>,
    failedAt: Option<Time>,
    cancelledAt: Option<Time>,
    failedOperation: Option<FailedOperation>,
    lastError: Option<string>)

  datatype Service = Service(
    enabled: bool,
    accountType: AccountType,
    accountSource: Option<ServiceId>,
    defaultAllowed: bool)

  datatype Account = Account(subscription: SubId, user: UserId, service: ServiceId, externalId: Option<string>)
  datatype Policy = Policy(effect: Effect, accountsPerService: int)

  /** `users` maps a user id to whether that user is an admin; `born` counts the subscription rows
      ever created under a key. */
  datatype Db = Db(
    users: map<UserId, bool>,
    services: map<ServiceId, Service>,
    policies: map<Key, Policy>,
    subs: map<Key, Subscription>,
    born: map<Key, nat>,
    accounts: map<AccountId, Account>,
    nextAccount: AccountId)

  datatype Error = BadRequest | Forbidden | NotFound | Conflict | Unavailable | Internal
  datatype Result<+T> = Ok(value: T) | Err(error: Error)

  /** The renewal period: 30 days in milliseconds. */
  const PERIOD: int := 30 * 24 * 60 * 60 * 1000

  // ---------- Reading ----------

  /** How many rows were created under `k` so far. */
  function Born(born: map<Key, nat>, k: Key): nat {
    if k in born then born[k] else 0
  }

  /** The id the next row created under `k` receives. */
  function FreshId(db: Db, k: Key): SubId {
    SubId(k, Born(db.born, k))
  }

  /** Is there a row with this id? */
  predicate Live(subs: map<Key, Subscription>, id: SubId) {
    id.key in subs && subs[id.key].id == id
  }

  predicate IsDerivedFrom(row: Subscription, id: SubId) {
    row.derivedFrom == Some(id)
  }

  /** The accounts linked to the subscription with this id. */
  function LinkedAccounts(db: Db, id: SubId): set<AccountId> {
    set a | a in db.accounts && db.accounts[a].subscription == id
  }

  /** Does some account other than `except` already hold this external id on this service? */
  predicate ExternalIdTaken(accounts: map<AccountId, Account>, service: ServiceId, ext: string,
                            except: Option<AccountId>) {
    exists a :: a in accounts && Some(a) != except
      && accounts[a].service == service && accounts[a].externalId == Some(ext)
  }

  // ---------- Dates ----------

  predicate Unexpired(expiresAt: Option<Time>, now: Time) {
    expiresAt.None? || expiresAt.value > now
  }

  /** The earlier of two expiries, `None` meaning never. */
  function Earliest(a: Option<Time>, b: Option<Time>): Option<Time> {
    if a.None? then b
    else if b.None? then a
    else if a.value <= b.value then a else b
  }

  /** `a` is no later than `b`, `None` meaning never. */
  predicate NoLater(a: Option<Time>, b: Option<Time>) {
    b.None? || (a.Some? && a.value <= b.value)
  }

  /** Strict reading of an active row: a missing expiry does not count. */
  predicate IsCurrentlyActive(row: Subscription, now: Time) {
    row.status == Active && row.expiresAt.Some? && row.expiresAt.value > now
  }

  // ---------- Integrity ----------

  /** Only a REFERENCED service names an account source, and that source is MANAGED. */
  ghost predicate ServicesOk(services: map<ServiceId, Service>) {
    forall s :: s in services ==>
      if services[s].accountType == Referenced
      then services[s].accountSource.Some?
           && services[s].accountSource.value in services
           && services[services[s].accountSource.value].accountType == Managed
      else services[s].accountSource == None
  }

  /** The row that a row on a REFERENCED service must derive from. */
  function SourceKey(services: map<ServiceId, Service>, k: Key): Key
    requires k.service in services && services[k.service].accountSource.Some?
  {
    Key(k.user, services[k.service].accountSource.value)
  }

  /** The shape of one subscription row: a row on a REFERENCED service hangs off the row of the same
      user on its account source; every other row is a root. */
  ghost predicate RowOk(db: Db, k: Key)
    requires k in db.subs
  {
    var row := db.subs[k];
    && k.user in db.users
    && k.service in db.services
    && row.id.key == k && row.id.nth < Born(db.born, k)
    && (if db.services[k.service].accountType == Referenced
        then db.services[k.service].accountSource.Some?
             && SourceKey(db.services, k) in db.subs
             && row.derivedFrom == Some(db.subs[SourceKey(db.services, k)].id)
        else row.derivedFrom == None)
  }

  /** An account row agrees with the subscription it belongs to. */
  ghost predicate AccountOk(db: Db, a: AccountId)
    requires a in db.accounts
  {
    var account := db.accounts[a];
    && a < db.nextAccount
    && Live(db.subs, account.subscription)
    && account.subscription.key == Key(account.user, account.service)
  }

  ghost predicate ExternalIdsUnique(accounts: map<AccountId, Account>) {
    forall a, b :: a in accounts && b in accounts && a != b
      && accounts[a].service == accounts[b].service && accounts[a].externalId.Some?
      ==> accounts[a].externalId != accounts[b].externalId
  }

  /** The derivation forest: the integrity every reachable store has. */
  ghost predicate Forest(db: Db) {
    && ServicesOk(db.services)
    && (forall k :: k in db.subs ==> RowOk(db, k))
    && (forall a :: a in db.accounts ==> AccountOk(db, a))
    && ExternalIdsUnique(db.accounts)
  }

  /** A transient status is only ever written in the middle of an operation. */
  predicate Transient(status: Status) {
    status in {Provisioning, Cancelling, Disabling, Enabling}
  }

  predicate RowAtRest(row: Subscription) {
    !Transient(row.status)
    && (row.status == Failed ==> row.failedAt.Some? && row.failedOperation.Some?)
  }

  ghost predicate AtRest(db: Db) {
    forall k :: k in db.subs ==> RowAtRest(db.subs[k])
  }

  // ---------- Consequences of the forest ----------

  /** In a forest a root derives from nothing and a derived row has no rows of its own below it. */
  lemma DerivedRowsAreLeaves(db: Db, k: Key, q: Key)
    requires Forest(db) && k in db.subs && q in db.subs && IsDerivedFrom(db.subs[q], db.subs[k].id)
    ensures db.subs[k].derivedFrom == None
    ensures db.services[k.service].accountType == Managed
    ensures db.services[q.service].accountType == Referenced
    ensures k == SourceKey(db.services, q) && q != k && q.user == k.user
  {
  }

  lemma EarliestIsNoLater(a: Option<Time>, b: Option<Time>)
    ensures NoLater(Earliest(a, b), a) && NoLater(Earliest(a, b), b)
    ensures Earliest(a, b) == a || Earliest(a, b) == b
  {
  }
}
