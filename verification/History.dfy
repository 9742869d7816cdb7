/** Whole histories: any sequence of operations, by users, admins and the scheduler, with any external
    outcomes and any clock. */
module History {
  import opened Model
  import opened Store
  import opened Cascade
  import opened Expiration
  import opened Subscriptions
  import opened Changes
  import opened Lifecycle
  import opened Services
  import opened Reconciliation
  import opened StaleAccounts

  // ---------- A run of the scheduler between other operations ----------

  /** A row in the middle of a run: at rest, and failed only if it was or had its turn. */
  predicate RestsInRun(was: Subscription, row: Subscription, visited: bool) {
    RowAtRest(row) && (!visited && was.status == Active ==> row.status != Failed)
  }

  lemma StepRests(was: Subscription, row: Subscription, visited: bool, self: bool, below: bool, seen: Subscription,
                  now: Time, out: bool)
    requires RestsInRun(was, row, visited) && (self ==> !visited && was.status == Active)
    ensures RestsInRun(was, RowAfter(row, self, below, seen, now, out), visited || self)
  {
  }

  lemma {:induction false} RunRests(before: Db, order: seq<Key>, now: Time, outages: set<Key>, q: Key)
    requires AtRest(before) && q in before.subs
    requires forall k :: k in order ==> k in before.subs && before.subs[k].status == Active
    requires forall i, j :: 0 <= i < j < |order| ==> order[i] != order[j]
    ensures RestsInRun(before.subs[q], ProcessRows(before, order, now, outages).subs[q], q in order)
  {
    if order == [] {
      assert RowAtRest(before.subs[q]);
    } else {
      hide ProcessRow, ProcessRows, RestsInRun, RowAfter;
      var rest, k := order[..|order| - 1], order[|order| - 1];
      var mid := ProcessRows(before, rest, now, outages);
      RunRests(before, rest, now, outages, q);
      RowNext(before, order, now, outages, q);
      assert order == rest + [k] && k !in rest;
      assert q in order <==> q in rest || q == k;
      StepRests(before.subs[q], mid.subs[q], q in rest, q == k, IsDerivedFrom(mid.subs[q], mid.subs[k].id),
          before.subs[k], now, k in outages);
    }
  }

  lemma RunKeepsInv(db: Db, order: seq<Key>, now: Time, outages: set<Key>)
    requires Inv(db) && IsRunOrder(db, order)
    ensures Inv(ProcessRows(db, order, now, outages))
  {
    var out := ProcessRows(db, order, now, outages);
    ProcessKeepsShape(db, order, now, outages);
    ShapeKeepsForest(db, out);
    forall q | q in out.subs ensures RowAtRest(out.subs[q]) {
      RunRests(db, order, now, outages, q);
    }
  }

  // ---------- Operations ----------

  datatype Operation =
    | DoSubscribe(now: Time, user: UserId, request: SubscribeRequest, provision: Provision, first: Option<AccountId>)
    | DoDelete(now: Time, id: SubId, caller: UserId, reached: bool)
    | DoSetStatus(now: Time, k: Key, enable: bool, missing: set<AccountId>, reached: bool)
    | DoSetAutoRenew(id: SubId, caller: UserId, autoRenew: bool)
    | DoPatch(now: Time, id: SubId, edit: Edit, missing: set<AccountId>, reached: bool)
    | DoRenew(now: Time, id: SubId)
    | DoAddAccount(now: Time, id: SubId, caller: UserId, provision: Provision)
    | DoDeleteAccount(id: SubId, account: AccountId, caller: UserId, reached: bool)
    | DoActivateFromPolicy(now: Time, user: UserId, service: ServiceId)
    | DoSetPolicy(k: Key, policy: Option<Policy>)
    | DoLinkAccount(now: Time, k: Key, found: Option<string>, days: nat)
    | DoDisableAll(user: UserId)
    | DoRetry(now: Time, k: Key, caller: UserId, answer: Answer)
    | DoProcess(now: Time, order: seq<Key>, outages: set<Key>)
    | DoSync(now: Time, ups: map<ServiceId, Upstream>, ready: set<ServiceId>)
    | DoCleanup(removed: set<Key>)
    | DoCreateService(now: Time, service: ServiceId, serviceRequest: ServiceRequest)
    | DoDeleteService(service: ServiceId, invited: bool)
    | DoSetEnabled(service: ServiceId, enabled: bool)
    | DoAddUser(user: UserId, admin: bool)
    | DoDeleteUser(user: UserId)

  /** The choices an operation carries are ones this store can make: a row order, a first account, a fresh
      id. An invite account must not name a REFERENCED service (see Services.LinkKeepsForest). */
  ghost predicate Possible(db: Db, op: Operation) {
    match op
    case DoSubscribe(_, user, request, _, first) =>
      IsFirstAccount(db, Key(user, request.service), first)
    case DoProcess(_, order, _) => IsRunOrder(db, order)
    case DoCreateService(_, service, _) => service !in db.services
    case DoActivateFromPolicy(_, _, service) => service in db.services
    case DoLinkAccount(_, k, found, _) => !(Links(db, k, found) && db.services[k.service].accountType == Referenced)
    case _ => true
  }

  ghost function Apply(db: Db, op: Operation): Db
    requires Possible(db, op)
  {
    match op
    case DoSubscribe(now, user, request, provision, first) =>
      SubscribeOutcome(db, now, user, request, provision, first).db
    case DoDelete(now, id, caller, reached) => DeleteOutcome(db, now, id, caller, reached).db
    case DoSetStatus(now, k, enable, missing, reached) => SetStatusOutcome(db, now, k, enable, missing, reached).db
    case DoSetAutoRenew(id, caller, autoRenew) => SetAutoRenewOutcome(db, id, caller, autoRenew).db
    case DoPatch(now, id, edit, missing, reached) => PatchOutcome(db, now, id, edit, missing, reached).db
    case DoRenew(now, id) => RenewOutcome(db, now, id).db
    case DoAddAccount(now, id, caller, provision) => AddAccountOutcome(db, now, id, caller, provision).db
    case DoDeleteAccount(id, account, caller, reached) => DeleteAccountOutcome(db, id, account, caller, reached).db
    case DoActivateFromPolicy(now, user, service) => ActivateFromPolicyOutcome(db, now, user, service)
    case DoSetPolicy(k, policy) => SetPolicyOutcome(db, k, policy).db
    case DoLinkAccount(now, k, found, days) => LinkAccountOutcome(db, now, k, found, days).db
    case DoDisableAll(user) => DisableAllOutcome(db, user)
    case DoRetry(now, k, caller, answer) => RetryOutcome(db, now, k, caller, answer).db
    case DoProcess(now, order, outages) => ProcessRows(db, order, now, outages)
    case DoSync(now, ups, ready) => FailAll(db, Vanished(db, ups, ready), now)
    case DoCleanup(removed) => RemoveAll(db, removed)
    case DoCreateService(now, service, request) => CreateServiceOutcome(db, now, service, request).db
    case DoDeleteService(service, invited) => DeleteServiceOutcome(db, service, invited).db
    case DoSetEnabled(service, enabled) => SetEnabled(db, service, enabled)
    case DoAddUser(user, admin) => AddUser(db, user, admin)
    case DoDeleteUser(user) => DeleteUser(db, user)
  }

  /** Every operation keeps the derivation forest and leaves every row at rest. */
  lemma StepKeepsInv(db: Db, op: Operation)
    requires Inv(db) && Possible(db, op)
    ensures Inv(Apply(db, op))
  {
    hide Inv, SubscribeOutcome, DeleteOutcome, SetStatusOutcome, SetAutoRenewOutcome, PatchOutcome, RenewOutcome;
    hide AddAccountOutcome, DeleteAccountOutcome, ActivateFromPolicyOutcome, SetPolicyOutcome, LinkAccountOutcome;
    hide DisableAllOutcome, RetryOutcome, ProcessRows, FailAll, Vanished, RemoveAll, CreateServiceOutcome;
    hide DeleteServiceOutcome, SetEnabled, AddUser, DeleteUser, Links;
    match op
    case DoSubscribe(now, user, request, provision, first) =>
      SubscribeKeepsInv(db, now, user, request, provision, first);
    case DoDelete(now, id, caller, reached) => DeleteKeepsInv(db, now, id, caller, reached);
    case DoSetStatus(now, k, enable, missing, reached) => SetStatusKeepsInv(db, now, k, enable, missing, reached);
    case DoSetAutoRenew(id, caller, autoRenew) =>
      SettingsKeepInv(db, 0, id, caller, autoRenew, Edit(None, None), {}, true);
    case DoPatch(now, id, edit, missing, reached) =>
      SettingsKeepInv(db, now, id, id.key.user, true, edit, missing, reached);
    case DoRenew(now, id) => RenewKeepsInv(db, now, id);
    case DoAddAccount(now, id, caller, provision) => AccountChangesKeepInv(db, now, id, 0, caller, provision, true);
    case DoDeleteAccount(id, account, caller, reached) =>
      AccountChangesKeepInv(db, 0, id, account, caller, Broken(""), reached);
    case DoActivateFromPolicy(now, user, service) => ActivateFromPolicyKeepsInv(db, now, user, service);
    case DoSetPolicy(k, policy) => SetPolicyKeepsInv(db, k, policy);
    case DoLinkAccount(now, k, found, days) => LinkKeepsForest(db, now, k, found, days);
    case DoDisableAll(user) => DisableAllKeepsInv(db, user, 0);
    case DoRetry(now, k, caller, answer) => RetryKeepsInv(db, now, k, caller, answer);
    case DoProcess(now, order, outages) => RunKeepsInv(db, order, now, outages);
    case DoSync(now, ups, ready) => FailAllKeepsInv(db, Vanished(db, ups, ready), now);
    case DoCleanup(removed) => RemoveAllKeepsInv(db, removed);
    case DoCreateService(now, service, request) => CreateServiceKeepsInv(db, now, service, request);
    case DoDeleteService(service, invited) => DeleteServiceKeepsInv(db, service, invited);
    case DoSetEnabled(service, enabled) => SetEnabledKeepsInv(db, service, enabled);
    case DoAddUser(user, admin) => AddUserKeepsInv(db, user, admin);
    case DoDeleteUser(user) => DeleteUserKeepsInv(db, user);
  }

  // ---------- Reachable stores ----------

  /** The store an installation starts from: some users, some services, no subscription. */
  function Initial(users: map<UserId, bool>, services: map<ServiceId, Service>): Db {
    Db(users, services, map[], map[], map[], map[], 0)
  }

  /** `states` is what a history of operations passes through. */
  ghost predicate IsExecution(states: seq<Db>, ops: seq<Operation>) {
    && |states| == |ops| + 1
    && (exists users, services :: ServicesOk(services) && states[0] == Initial(users, services))
    && forall i :: 0 <= i < |ops| ==> Possible(states[i], ops[i]) && states[i + 1] == Apply(states[i], ops[i])
  }

  /** Every reachable store is a depth-one derivation forest with every row at rest. */
  lemma {:induction false} ReachableStoresAreForests(states: seq<Db>, ops: seq<Operation>, i: nat)
    requires IsExecution(states, ops) && i <= |ops|
    ensures Inv(states[i])
  {
    if 0 < i {
      ReachableStoresAreForests(states, ops, i - 1);
      assert Possible(states[i - 1], ops[i - 1]);
      StepKeepsInv(states[i - 1], ops[i - 1]);
    }
  }

  /** In every reachable store a standing entitlement on a REFERENCED service rests on a live subscription
      of the same user on its MANAGED account source and ends no later than it; and every failed row can
      be recovered in exactly one way. */
  lemma ReachableEntitlementsHaveSources(states: seq<Db>, ops: seq<Operation>, i: nat, k: Key, now: Time)
    requires IsExecution(states, ops) && i <= |ops| && k in states[i].subs
    ensures var db := states[i];
      && k.service in db.services
      && (db.subs[k].status == Failed ==> (IsResubscribeAllowed(db.subs[k]) <==> !IsRetryAllowed(db.subs[k])))
      && (db.services[k.service].accountType == Referenced ==>
            && db.services[k.service].accountSource.Some?
            && var s := SourceKey(db.services, k);
               var e := ResolveEffectiveEntitlement(db, db.subs[k], now);
               && s in db.subs && s.service in db.services && db.services[s.service].accountType == Managed
               && NoLater(e.expiresAt, db.subs[s].expiresAt)
               && (e.active ==> db.subs[s].status == Active && Unexpired(db.subs[s].expiresAt, now)))
  {
    ReachableStoresAreForests(states, ops, i);
    var db := states[i];
    assert RowOk(db, k) && RowAtRest(db.subs[k]);
    if db.services[k.service].accountType == Referenced {
      assert RowOk(db, SourceKey(db.services, k));
      EntitlementNeedsSource(db, k, now);
    }
  }
}
