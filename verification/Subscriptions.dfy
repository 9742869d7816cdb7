/** The user-facing operations on subscriptions (subscriptions.service.ts).

    Each operation is given twice: as a function from the store to the store it leaves and the result it
    returns, and as a method that writes step by step, transient statuses included, the way the service
    does. Calls into a provisioner are inputs: what `validate` and `provision` answered, whether
    `deprovision`, `disable` or `enable` went through, which linked accounts were found missing. */
module Subscriptions {
  import opened Model
  import opened Store
  import opened Cascade
  import opened Access
  import opened Expiration

  /** What an operation leaves behind and returns. */
  datatype Outcome = Outcome(db: Db, result: Result<()>)

  /** The integrity of the store between operations. */
  ghost predicate Inv(db: Db) {
    Forest(db) && AtRest(db)
  }

  function Refuse(db: Db, error: Error): Outcome {
    Outcome(db, Err(error))
  }

  function Fail(db: Db, k: Key, operation: FailedOperation, message: string, now: Time): Db
    requires k in db.subs
  {
    Put(db, k, Failing(db.subs[k], operation, message, now))
  }

  /** May `subscribe` reuse this row? */
  predicate IsResubscribeAllowed(row: Subscription) {
    if row.status == Failed then row.failedOperation == Some(FailedProvisioning)
    else row.status in {Cancelled, Expired}
  }

  /** Does `retryFailedOperation` accept this row? */
  predicate IsRetryAllowed(row: Subscription) {
    row.status == Failed && row.failedOperation.Some? && row.failedOperation != Some(FailedProvisioning)
  }

  /** Every failed row at rest has exactly one way forward. */
  lemma FailedRowsAreRecoverable(db: Db, k: Key)
    requires AtRest(db) && k in db.subs && db.subs[k].status == Failed
    ensures IsResubscribeAllowed(db.subs[k]) <==> !IsRetryAllowed(db.subs[k])
  {
  }

  // ---------- Subscribing ----------

  /** How the provisioner fares: validation refuses before any side effect, provisioning throws, or it provides
      an account with its external id, or none for account types without accounts. */
  datatype Provision =
    | Rejected(error: Error)
    | Broken(message: string)
    | Provided(account: Option<Option<string>>)

  datatype SubscribeRequest = SubscribeRequest(service: ServiceId, autoRenew: Option<bool>, credentials: bool)

  function SubscribeGuard(db: Db, user: UserId, request: SubscribeRequest): Option<Error> {
    var k := Key(user, request.service);
    if user !in db.users then Some(BadRequest)
    else if request.service !in db.services || !db.services[request.service].enabled then Some(BadRequest)
    else if db.services[request.service].accountType == Referenced then Some(BadRequest)
    else if db.services[request.service].accountType == Managed && !request.credentials then Some(BadRequest)
    else if !CanSubscribe(db.policies, user, request.service, db.services[request.service].defaultAllowed)
        then Some(Forbidden)
    else if k in db.subs && !IsResubscribeAllowed(db.subs[k]) then Some(Conflict)
    else None
  }

  /** The row an attempt works on, before its outcome is known. */
  function RequestedRow(db: Db, k: Key, autoRenew: Option<bool>, now: Time): Subscription {
    var row := if k in db.subs then db.subs[k]
               else Subscription(FreshId(db, k), Provisioning, None, false, None, None, None, None, None, None);
    row.(expiresAt := Some(now + PERIOD), autoRenew := if autoRenew.Some? then autoRenew.value else row.autoRenew,
         cancelledAt := None, lastError := None, failedAt := None)
  }

  function SubscribedRow(db: Db, k: Key, autoRenew: Option<bool>, now: Time): Subscription {
    RequestedRow(db, k, autoRenew, now).(status := Active, provisionedAt := Some(now), failedOperation := None)
  }

  function SetRow(db: Db, k: Key, row: Subscription): Db {
    if k in db.subs then Put(db, k, row) else Insert(db, k, row)
  }

  /** Storing the provisioned account: it replaces the first linked one, or is added. `None` when its
      external id belongs to another account of the service. */
  function UpsertAccount(db: Db, k: Key, ext: Option<string>, first: Option<AccountId>): Option<Db>
    requires k in db.subs && (first.Some? ==> first.value in db.accounts)
  {
    if first.Some? then
      var account := db.accounts[first.value].(externalId := ext);
      if IdClash(db.accounts, account, first) then None
      else Some(db.(accounts := db.accounts[first.value := account]))
    else
      var account := Account(db.subs[k].id, k.user, k.service, ext);
      if IdClash(db.accounts, account, None) then None else Some(AddAccountRow(db, account))
  }

  /** The account the database lists first for a subscription. */
  ghost predicate IsFirstAccount(db: Db, k: Key, first: Option<AccountId>) {
    if k in db.subs && LinkedAccounts(db, db.subs[k].id) != {}
    then first.Some? && first.value in LinkedAccounts(db, db.subs[k].id)
    else first.None?
  }

  const ID_TAKEN: string := "External account is already linked"

  /** An attempt whose provisioning broke leaves a failed row. */
  function ProvisioningFailed(db: Db, now: Time, k: Key, autoRenew: Option<bool>, message: string): Db {
    SetRow(db, k, Failing(RequestedRow(db, k, autoRenew, now), FailedProvisioning, message, now))
  }

  /** The row is active and its account stored; `None` when the account cannot be. */
  function Linked(db: Db, now: Time, k: Key, autoRenew: Option<bool>, account: Option<Option<string>>,
                  first: Option<AccountId>): Option<Db>
    requires first.Some? ==> first.value in db.accounts
  {
    var done := SetRow(db, k, SubscribedRow(db, k, autoRenew, now));
    if account.Some? then UpsertAccount(done, k, account.value, first) else Some(done)
  }

  function Granted(db: Db, now: Time, k: Key, autoRenew: Option<bool>, account: Option<Option<string>>,
                   first: Option<AccountId>): Outcome
    requires k.service in db.services && (first.Some? ==> first.value in db.accounts)
  {
    match Linked(db, now, k, autoRenew, account, first)
    case None => Outcome(ProvisioningFailed(db, now, k, autoRenew, ID_TAKEN), Err(Conflict))
    case Some(done) =>
      Outcome(if db.services[k.service].accountType == Managed then Activated(done, k, now) else done, Ok(()))
  }

  ghost function SubscribeOutcome(db: Db, now: Time, user: UserId, request: SubscribeRequest, provision: Provision,
                                  first: Option<AccountId>): Outcome
    requires IsFirstAccount(db, Key(user, request.service), first)
  {
    var k := Key(user, request.service);
    var guard := SubscribeGuard(db, user, request);
    if guard.Some? then Refuse(db, guard.value)
    else match provision
      case Rejected(error) => Refuse(db, error)
      case Broken(message) => Outcome(ProvisioningFailed(db, now, k, request.autoRenew, message), Err(Unavailable))
      case Provided(account) => Granted(db, now, k, request.autoRenew, account, first)
  }

  method MarkFailed(store: Database, k: Key, message: string, operation: FailedOperation, now: Time)
    requires k in store.subs
    modifies store
    ensures store.View() == Fail(old(store.View()), k, operation, message, now)
  {
    var _ := store.Update(k, (row: Subscription) => Failing(row, operation, message, now));
  }

  /** Marks the row of an attempt failed. */
  method FailAttempt(store: Database, k: Key, message: string, now: Time, ghost db: Db, ghost autoRenew: Option<bool>)
    requires store.View() == SetRow(db, k, RequestedRow(db, k, autoRenew, now).(status := Provisioning))
    modifies store
    ensures store.View() == ProvisioningFailed(db, now, k, autoRenew, message)
  {
    ghost var trying := RequestedRow(db, k, autoRenew, now).(status := Provisioning);
    MarkFailed(store, k, message, FailedProvisioning, now);
    SetRowTwice(db, k, trying, Failing(trying, FailedProvisioning, message, now));
  }

  method FirstAccount(store: Database, k: Key) returns (first: Option<AccountId>)
    ensures IsFirstAccount(store.View(), k, first)
  {
    first := None;
    if k in store.subs {
      var rows := ListSet(LinkedAccounts(store.View(), store.subs[k].id));
      if rows != [] {
        first := Some(rows[0]);
      }
    }
  }

  /** Writes the row in its provisioning state. */
  method UpsertProvisioning(store: Database, k: Key, autoRenew: Option<bool>, now: Time)
    requires k.user in store.users && k.service in store.services
    modifies store
    ensures var db := old(store.View());
            store.View() == SetRow(db, k, RequestedRow(db, k, autoRenew, now).(status := Provisioning))
  {
    if k in store.subs {
      var patch := (row: Subscription) =>
        row.(status := Provisioning, autoRenew := if autoRenew.Some? then autoRenew.value else row.autoRenew,
             expiresAt := Some(now + PERIOD), lastError := None, failedAt := None, cancelledAt := None);
      var _ := store.Update(k, patch);
    } else {
      var fill := (id: SubId) =>
        Subscription(id, Provisioning, Some(now + PERIOD), if autoRenew.Some? then autoRenew.value else false,
                     None, None, None, None, None, None);
      var _ := store.Create(k, fill);
    }
  }

  method UpsertExternalAccount(store: Database, k: Key, ext: Option<string>, first: Option<AccountId>)
    returns (r: Result<()>)
    requires k in store.subs && (first.Some? ==> first.value in store.accounts)
    requires k.user in store.users && k.service in store.services
    modifies store
    ensures var linked := UpsertAccount(old(store.View()), k, ext, first);
            if linked.Some? then store.View() == linked.value && r == Ok(())
            else store.View() == old(store.View()) && r == Err(Conflict)
  {
    if first.Some? {
      r := store.UpdateAccount(first.value, ext);
    } else {
      r := store.CreateAccount(Account(store.subs[k].id, k.user, k.service, ext));
    }
  }

  method Subscribe(store: Database, now: Time, user: UserId, request: SubscribeRequest, provision: Provision)
    returns (r: Result<()>, ghost first: Option<AccountId>)
    modifies store
    ensures IsFirstAccount(old(store.View()), Key(user, request.service), first)
    ensures Outcome(store.View(), r) == SubscribeOutcome(old(store.View()), now, user, request, provision, first)
  {
    ghost var db := store.View();
    var k := Key(user, request.service);
    var slot := FirstAccount(store, k);
    first := slot;
    var guard := SubscribeGuard(store.View(), user, request);
    if guard.Some? {
      return Err(guard.value), first;
    }
    if provision.Rejected? {
      return Err(provision.error), first;
    }
    UpsertProvisioning(store, k, request.autoRenew, now);
    if provision.Broken? {
      FailAttempt(store, k, provision.message, now, db, request.autoRenew);
      return Err(Unavailable), first;
    }
    r := LinkAndActivate(store, k, provision.account, slot, now, db, request.autoRenew);
  }

  /** The second half of `subscribe`, from the provisioning state on. */
  method LinkAndActivate(store: Database, k: Key, account: Option<Option<string>>, slot: Option<AccountId>, now: Time,
                         ghost db: Db, ghost autoRenew: Option<bool>)
    returns (r: Result<()>)
    requires k.user in db.users && k.service in db.services && (slot.Some? ==> slot.value in db.accounts)
    requires store.View() == SetRow(db, k, RequestedRow(db, k, autoRenew, now).(status := Provisioning))
    modifies store
    ensures Outcome(store.View(), r) == Granted(db, now, k, autoRenew, account, slot)
  {
    r := Link(store, k, account, slot, now, db, autoRenew);
    hide Linked, Activated, ProvisioningFailed;
    if r.Ok? && store.services[k.service].accountType == Managed {
      OnActivated(store, k, now);
    }
  }

  /** Stores the account and activates the row, or marks the row failed. */
  method Link(store: Database, k: Key, account: Option<Option<string>>, slot: Option<AccountId>, now: Time,
              ghost db: Db, ghost autoRenew: Option<bool>)
    returns (r: Result<()>)
    requires k.user in db.users && k.service in db.services && (slot.Some? ==> slot.value in db.accounts)
    requires store.View() == SetRow(db, k, RequestedRow(db, k, autoRenew, now).(status := Provisioning))
    modifies store
    ensures var linked := Linked(db, now, k, autoRenew, account, slot);
            if linked.Some? then r == Ok(()) && store.View() == linked.value && k in store.subs
                && store.services == db.services
                                 && store.users == db.users
            else r == Err(Conflict) && store.View() == ProvisioningFailed(db, now, k, autoRenew, ID_TAKEN)
  {
    hide UpsertAccount, ProvisioningFailed;
    ghost var trying, granted := RequestedRow(db, k, autoRenew, now).(status := Provisioning),
        SubscribedRow(db, k, autoRenew, now);
    if account.Some? {
      UpsertIgnoresRow(db, k, trying, granted, account.value, slot);
      var linked := UpsertExternalAccount(store, k, account.value, slot);
      if linked.Err? {
        FailAttempt(store, k, ID_TAKEN, now, db, autoRenew);
        return Err(Conflict);
      }
    }
    ActivateRow(store, k, now, db, trying, granted);
    return Ok(());
  }

  method ActivateRow(store: Database, k: Key, now: Time, ghost db: Db, ghost trying: Subscription,
                     ghost granted: Subscription)
    requires store.subs == SetRow(db, k, trying).subs
    requires granted == trying.(status := Active, provisionedAt := Some(now), lastError := None, failedAt := None,
        failedOperation := None)
    modifies store
    ensures store.View() == old(store.View()).(subs := SetRow(db, k, granted).subs)
  {
    var patch := (row: Subscription) =>
      row.(status := Active, provisionedAt := Some(now), lastError := None, failedAt := None, failedOperation := None);
    var _ := store.Update(k, patch);
    SetRowTwice(db, k, trying, granted);
  }

  lemma SetRowTwice(db: Db, k: Key, first: Subscription, second: Subscription)
    ensures Put(SetRow(db, k, first), k, second) == SetRow(db, k, second)
  {
    UpdateTwice(db.subs, k, first, second);
  }

  lemma UpdateTwice<K, V>(m: map<K, V>, k: K, a: V, b: V)
    ensures m[k := a][k := b] == m[k := b]
  {
  }

  lemma UpsertReadsId(db: Db, k: Key, subs: map<Key, Subscription>, ext: Option<string>, first: Option<AccountId>)
    requires k in db.subs && k in subs && db.subs[k].id == subs[k].id && (first.Some? ==> first.value in db.accounts)
    ensures var a, b := UpsertAccount(db, k, ext, first), UpsertAccount(db.(subs := subs), k, ext, first);
      && (a.Some? <==> b.Some?)
      && (a.Some? ==> b.value == a.value.(subs := subs) && a.value.subs == db.subs
                      && a.value.services == db.services && a.value.users == db.users)
  {
    hide IdClash;
  }

  lemma SetRowDiffers(db: Db, k: Key, row: Subscription, other: Subscription)
    ensures var d, e := SetRow(db, k, row), SetRow(db, k, other);
      && e == d.(subs := e.subs) && d.services == db.services && d.users == db.users && d.accounts == db.accounts
      && k in d.subs && d.subs[k] == row && k in e.subs && e.subs[k] == other
  {
    if k in db.subs {
    } else {
    }
  }

  /** Storing the account does not look at the row beyond its id. */
  lemma UpsertIgnoresRow(db: Db, k: Key, row: Subscription, other: Subscription, ext: Option<string>,
                         first: Option<AccountId>)
    requires row.id == other.id && (first.Some? ==> first.value in db.accounts)
    ensures var a, b := UpsertAccount(SetRow(db, k, row), k, ext, first),
        UpsertAccount(SetRow(db, k, other), k, ext, first);
      && (a.Some? <==> b.Some?)
      && (a.Some? ==> b.value == a.value.(subs := SetRow(db, k, other).subs) && a.value.subs == SetRow(db, k, row).subs
                      && a.value.services == db.services && a.value.users == db.users)
  {
    SetRowDiffers(db, k, row, other);
    hide SetRow, UpsertAccount;
    UpsertReadsId(SetRow(db, k, row), k, SetRow(db, k, other).subs, ext, first);
  }

  // ---------- What subscribing keeps and grants ----------

  /** A root row may be written or rewritten without disturbing the forest. */
  lemma RootRowKeepsForest(db: Db, k: Key, row: Subscription)
    requires Forest(db) && k.user in db.users && k.service in db.services
    requires db.services[k.service].accountType != Referenced && row.derivedFrom == None
    requires row.id == if k in db.subs then db.subs[k].id else FreshId(db, k)
    ensures Forest(SetRow(db, k, row))
  {
    var out := SetRow(db, k, row);
    forall q | q in out.subs ensures RowOk(out, q) {
      assert q in db.subs ==> RowOk(db, q);
      if q != k && db.services[q.service].accountType == Referenced {
        assert RowOk(db, SourceKey(db.services, q));
      }
    }
    forall a | a in out.accounts ensures AccountOk(out, a) {
      assert AccountOk(db, a);
    }
  }

  lemma UpsertKeepsForest(db: Db, k: Key, ext: Option<string>, first: Option<AccountId>)
    requires Forest(db) && k in db.subs
    requires first.Some? ==> first.value in LinkedAccounts(db, db.subs[k].id)
    ensures var linked := UpsertAccount(db, k, ext, first);
            linked.Some? ==> Forest(linked.value) && linked.value.subs == db.subs
  {
    var linked := UpsertAccount(db, k, ext, first);
    assert RowOk(db, k);
    if linked.Some? {
      var out := linked.value;
      forall q | q in out.subs ensures RowOk(out, q) {
        assert RowOk(db, q);
      }
      forall a | a in out.accounts ensures AccountOk(out, a) {
        assert a in db.accounts ==> AccountOk(db, a);
      }
      NoClashKeepsUnique(db, if first.Some? then first.value else db.nextAccount,
                         out.accounts[if first.Some? then first.value else db.nextAccount]);
    }
  }

  lemma NoClashKeepsUnique(db: Db, a: AccountId, account: Account)
    requires ExternalIdsUnique(db.accounts)
    requires !IdClash(db.accounts, account, if a in db.accounts then Some(a) else None)
    ensures ExternalIdsUnique(db.accounts[a := account])
  {
  }

  lemma ProvisioningFailedKeepsInv(db: Db, now: Time, k: Key, autoRenew: Option<bool>, message: string)
    requires Inv(db) && k.user in db.users && k.service in db.services
        && db.services[k.service].accountType != Referenced
    ensures var out := ProvisioningFailed(db, now, k, autoRenew, message);
      && Inv(out) && out.accounts == db.accounts
      && k in out.subs && IsResubscribeAllowed(out.subs[k])
      && (forall q :: q in out.subs && q != k ==> q in db.subs && out.subs[q] == db.subs[q])
  {
    assert k in db.subs ==> RowOk(db, k);
    var row := Failing(RequestedRow(db, k, autoRenew, now), FailedProvisioning, message, now);
    RootRowKeepsForest(db, k, row);
  }

  lemma LinkedKeepsInv(db: Db, now: Time, k: Key, autoRenew: Option<bool>, account: Option<Option<string>>,
                       first: Option<AccountId>)
    requires Inv(db) && k.user in db.users && k.service in db.services
        && db.services[k.service].accountType != Referenced
    requires IsFirstAccount(db, k, first)
    ensures var linked := Linked(db, now, k, autoRenew, account, first);
      linked.Some? ==>
        && Inv(linked.value)
        && linked.value.subs == SetRow(db, k, SubscribedRow(db, k, autoRenew, now)).subs
        && linked.value.services == db.services && linked.value.users == db.users
  {
    var row := SubscribedRow(db, k, autoRenew, now);
    SubscribedRowKeepsInv(db, now, k, autoRenew);
    hide Inv, SubscribedRow, UpsertAccount;
    var done := SetRow(db, k, row);
    if account.Some? {
      UpsertKeepsInv(done, k, account.value, first);
      UpsertIgnoresRow(db, k, row, row, account.value, first);
    }
  }

  lemma SubscribedRowKeepsInv(db: Db, now: Time, k: Key, autoRenew: Option<bool>)
    requires Inv(db) && k.user in db.users && k.service in db.services
        && db.services[k.service].accountType != Referenced
    ensures var row := SubscribedRow(db, k, autoRenew, now);
            Inv(SetRow(db, k, row)) && row.id == if k in db.subs then db.subs[k].id else FreshId(db, k)
    ensures k !in db.subs ==> LinkedAccounts(db, FreshId(db, k)) == {}
  {
    assert k in db.subs ==> RowOk(db, k);
    RootRowKeepsForest(db, k, SubscribedRow(db, k, autoRenew, now));
    assert RowAtRest(SubscribedRow(db, k, autoRenew, now));
    assert k !in db.subs ==> forall a :: a in db.accounts ==> AccountOk(db, a);
  }

  lemma UpsertKeepsInv(db: Db, k: Key, ext: Option<string>, first: Option<AccountId>)
    requires Inv(db) && k in db.subs
    requires first.Some? ==> first.value in LinkedAccounts(db, db.subs[k].id)
    ensures var linked := UpsertAccount(db, k, ext, first);
            linked.Some? ==> Inv(linked.value) && linked.value.subs == db.subs
  {
    InvIsForest(db);
    hide Forest, UpsertAccount;
    UpsertKeepsForest(db, k, ext, first);
  }

  /** An activation adds only active rows. */
  lemma ActivationKeepsInv(db: Db, k: Key, now: Time)
    requires Inv(db) && k in db.subs && db.services[k.service].accountType == Managed
    ensures Inv(Activated(db, k, now))
    ensures k in Activated(db, k, now).subs && Activated(db, k, now).subs[k] == db.subs[k]
  {
    hide Activated, Forest;
    ActivationMirrors(db, k, now);
    assert k !in Referencing(db.services, k);
    var out := Activated(db, k, now);
    forall q | q in out.subs ensures RowAtRest(out.subs[q]) {
      assert q in db.subs ==> RowAtRest(db.subs[q]);
    }
  }

  lemma SubscribeKeepsInv(db: Db, now: Time, user: UserId, request: SubscribeRequest, provision: Provision,
                          first: Option<AccountId>)
    requires Inv(db) && IsFirstAccount(db, Key(user, request.service), first)
    ensures Inv(SubscribeOutcome(db, now, user, request, provision, first).db)
  {
    hide Inv, Activated, Linked, ProvisioningFailed;
    var k := Key(user, request.service);
    if SubscribeGuard(db, user, request).None? {
      match provision
      case Rejected(_) =>
      case Broken(message) => ProvisioningFailedKeepsInv(db, now, k, request.autoRenew, message);
      case Provided(account) =>
        ProvisioningFailedKeepsInv(db, now, k, request.autoRenew, ID_TAKEN);
        LinkedKeepsInv(db, now, k, request.autoRenew, account, first);
        var linked := Linked(db, now, k, request.autoRenew, account, first);
        if linked.Some? && db.services[k.service].accountType == Managed {
          ActivationKeepsInv(linked.value, k, now);
        }
    }
  }

  /** A mirrored row of a live source carries the source's full entitlement. */
  lemma MirrorIsEntitled(db: Db, k: Key, s: ServiceId, now: Time)
    requires Forest(db) && k in db.subs && db.services[k.service].accountType == Managed
    requires db.subs[k].status == Active && Unexpired(db.subs[k].expiresAt, now)
    requires s in db.services && DrawsOn(db.services[s], k.service)
    ensures var out := Activated(db, k, now);
            Key(k.user, s) in out.subs
            && ResolveEffectiveEntitlement(out, out.subs[Key(k.user, s)], now) ==
                Entitlement(true, db.subs[k].expiresAt)
  {
    ActivationMirrors(db, k, now);
    assert k !in Referencing(db.services, k);
    EntitlementNeedsSource(Activated(db, k, now), Key(k.user, s), now);
  }

  /** A successful subscription is active for one period, and so is everything that draws on it; a failed
      one changed no other row and can be tried again. */
  lemma SubscribeGrants(db: Db, now: Time, user: UserId, request: SubscribeRequest, provision: Provision,
                        first: Option<AccountId>)
    requires Inv(db) && IsFirstAccount(db, Key(user, request.service), first)
    ensures var o, k := SubscribeOutcome(db, now, user, request, provision, first), Key(user, request.service);
      && (o.result.Ok? ==>
            && k in o.db.subs && o.db.subs[k].status == Active && o.db.subs[k].expiresAt == Some(now + PERIOD)
            && (db.services[k.service].accountType == Managed ==>
                  forall s :: s in db.services && DrawsOn(db.services[s], k.service) ==>
                    && Key(user, s) in o.db.subs
                    && ResolveEffectiveEntitlement(o.db, o.db.subs[Key(user, s)], now) ==
                        Entitlement(true, Some(now + PERIOD))))
      && (o.result.Err? ==>
            && o.db.accounts == db.accounts
            && (forall q :: q in o.db.subs && q != k ==> q in db.subs && o.db.subs[q] == db.subs[q])
            && (o.db != db ==> k in o.db.subs && IsResubscribeAllowed(o.db.subs[k])))
  {
    hide Inv, Activated, Linked, ProvisioningFailed, ResolveEffectiveEntitlement, IsResubscribeAllowed;
    var k := Key(user, request.service);
    if SubscribeGuard(db, user, request).None? {
      match provision
      case Rejected(_) =>
      case Broken(message) => ProvisioningFailedKeepsInv(db, now, k, request.autoRenew, message);
      case Provided(account) =>
        ProvisioningFailedKeepsInv(db, now, k, request.autoRenew, ID_TAKEN);
        LinkedKeepsInv(db, now, k, request.autoRenew, account, first);
        var linked := Linked(db, now, k, request.autoRenew, account, first);
        if linked.Some? && db.services[k.service].accountType == Managed {
          ActivationKeepsInv(linked.value, k, now);
          InvIsForest(linked.value);
          forall s | s in db.services && DrawsOn(db.services[s], k.service)
            ensures var out := Activated(linked.value, k, now);
              Key(user, s) in out.subs
              && ResolveEffectiveEntitlement(out, out.subs[Key(user, s)], now) == Entitlement(true, Some(now + PERIOD))
          {
            MirrorIsEntitled(linked.value, k, s, now);
          }
        }
    }
  }

  lemma InvIsForest(db: Db)
    requires Inv(db)
    ensures Forest(db) && AtRest(db)
  {
  }

  // ---------- When subscribing is allowed, and what it writes ----------

  /** The user exists, and the service takes subscriptions of its own and has the credentials it needs. */
  ghost predicate IsAdmitted(db: Db, user: UserId, request: SubscribeRequest) {
    && user in db.users
    && request.service in db.services && db.services[request.service].enabled
    && db.services[request.service].accountType != Referenced
    && (db.services[request.service].accountType == Managed ==> request.credentials)
  }

  /** There is no row in the way: none, or a cancelled, an expired or a never provisioned one. */
  ghost predicate IsOpen(db: Db, k: Key) {
    k in db.subs ==>
      db.subs[k].status == Cancelled || db.subs[k].status == Expired
      || (db.subs[k].status == Failed && db.subs[k].failedOperation == Some(FailedProvisioning))
  }

  /** Another account of the service has this external id. */
  ghost predicate IsHeld(db: Db, service: ServiceId, account: Option<Option<string>>, first: Option<AccountId>) {
    account.Some? && account.value.Some?
    && exists a :: a in db.accounts && Some(a) != first
                   && db.accounts[a].service == service && db.accounts[a].externalId == account.value
  }

  /** The subscribed row, column by column; `was` is the row there was. */
  ghost predicate IsSubscribed(was: Option<Subscription>, row: Subscription, autoRenew: Option<bool>, now: Time) {
    && row.status == Active && row.expiresAt == Some(now + 2_592_000_000) && row.provisionedAt == Some(now)
    && row.autoRenew == (if autoRenew.Some? then autoRenew.value else was.Some? && was.value.autoRenew)
    && row.cancelledAt == None && row.lastError == None && row.failedAt == None && row.failedOperation == None
    && row.derivedFrom == (if was.Some? then was.value.derivedFrom else None)
    && (was.Some? ==> row.id == was.value.id)
  }

  /** The row of an attempt that failed. */
  ghost predicate IsFailedAttempt(was: Option<Subscription>, row: Subscription, autoRenew: Option<bool>, now: Time) {
    && row.status == Failed && row.failedOperation == Some(FailedProvisioning) && row.failedAt == Some(now)
    && row.lastError.Some? && row.expiresAt == Some(now + 2_592_000_000) && row.cancelledAt == None
    && row.autoRenew == (if autoRenew.Some? then autoRenew.value else was.Some? && was.value.autoRenew)
    && row.derivedFrom == (if was.Some? then was.value.derivedFrom else None)
    && row.provisionedAt == (if was.Some? then was.value.provisionedAt else None)
    && (was.Some? ==> row.id == was.value.id)
  }

  ghost function RowAt(db: Db, k: Key): Option<Subscription> {
    if k in db.subs then Some(db.subs[k]) else None
  }

  /** Only the row under `k` differs, and it is that of a failed attempt. */
  ghost predicate OnlyAttemptFailed(db: Db, out: Db, k: Key, autoRenew: Option<bool>, now: Time) {
    && k in out.subs && IsFailedAttempt(RowAt(db, k), out.subs[k], autoRenew, now)
    && out == db.(subs := db.subs[k := out.subs[k]], born := out.born)
  }

  /** The exact answer: each refusal has its own error, in this order, and changes nothing; a provisioner that
      breaks, and an external id that is held, leave a failed attempt; everything else succeeds. */
  lemma SubscribeDecides(db: Db, now: Time, user: UserId, request: SubscribeRequest, provision: Provision,
                         first: Option<AccountId>)
    requires Forest(db) && IsFirstAccount(db, Key(user, request.service), first)
    ensures var o, k := SubscribeOutcome(db, now, user, request, provision, first), Key(user, request.service);
      if !IsAdmitted(db, user, request) then o == Outcome(db, Err(BadRequest))
      else if !IsPermitted(db.policies, user, request.service, db.services[request.service].defaultAllowed)
      then o == Outcome(db, Err(Forbidden))
      else if !IsOpen(db, k) then o == Outcome(db, Err(Conflict))
      else match provision
        case Rejected(error) => o == Outcome(db, Err(error))
        case Broken(message) =>
          o.result == Err(Unavailable) && OnlyAttemptFailed(db, o.db, k, request.autoRenew, now)
          && o.db.subs[k].lastError == Some(message)
        case Provided(account) =>
          if IsHeld(db, request.service, account, first)
          then o.result == Err(Conflict) && OnlyAttemptFailed(db, o.db, k, request.autoRenew, now)
          else o.result == Ok(())
  {
    hide Activated, SubscribeGuard, IsAdmitted, IsPermitted, IsOpen, IsHeld, ProvisioningFailed, OnlyAttemptFailed;
    hide Forest, IsFirstAccount, UpsertAccount, SetRow, SubscribedRow;
    var k := Key(user, request.service);
    GuardDecides(db, user, request);
    if provision.Provided? {
      AttemptFails(db, now, k, request.autoRenew, ID_TAKEN);
      if provision.account.Some? {
        HeldIsClash(db, now, k, request.autoRenew, provision.account.value, first);
      } else {
        NothingIsHeld(db, request.service, first);
      }
    } else if provision.Broken? {
      AttemptFails(db, now, k, request.autoRenew, provision.message);
    }
  }

  lemma GuardDecides(db: Db, user: UserId, request: SubscribeRequest)
    ensures SubscribeGuard(db, user, request) ==
      if !IsAdmitted(db, user, request) then Some(BadRequest)
      else if !IsPermitted(db.policies, user, request.service, db.services[request.service].defaultAllowed)
          then Some(Forbidden)
      else if !IsOpen(db, Key(user, request.service)) then Some(Conflict) else None
    ensures IsAdmitted(db, user, request) ==>
              request.service in db.services && db.services[request.service].accountType != Referenced
  {
  }

  lemma AttemptFails(db: Db, now: Time, k: Key, autoRenew: Option<bool>, message: string)
    ensures var out := ProvisioningFailed(db, now, k, autoRenew, message);
      OnlyAttemptFailed(db, out, k, autoRenew, now) && out.subs[k].lastError == Some(message)
  {
  }

  lemma NothingIsHeld(db: Db, service: ServiceId, first: Option<AccountId>)
    ensures !IsHeld(db, service, None, first)
  {
  }

  lemma HeldIsClash(db: Db, now: Time, k: Key, autoRenew: Option<bool>, ext: Option<string>, first: Option<AccountId>)
    requires Forest(db) && IsFirstAccount(db, k, first)
    ensures var linked := UpsertAccount(SetRow(db, k, SubscribedRow(db, k, autoRenew, now)), k, ext, first);
      linked.None? <==> IsHeld(db, k.service, Some(ext), first)
  {
    if first.Some? {
      assert AccountOk(db, first.value) && RowOk(db, k);
    }
  }

  /** What a success writes: the row, the account if one was provided, and, from a MANAGED service, a mirror on
      every enabled REFERENCED service drawing on it. Every other row and account is as it was. */
  lemma SubscribeWrites(db: Db, now: Time, user: UserId, request: SubscribeRequest, provision: Provision,
                        first: Option<AccountId>, q: Key)
    requires Forest(db) && IsFirstAccount(db, Key(user, request.service), first)
    requires SubscribeOutcome(db, now, user, request, provision, first).result.Ok?
    ensures provision.Provided?
    ensures var out, k := SubscribeOutcome(db, now, user, request, provision, first).db, Key(user, request.service);
      var mirrors := q.user == user && q.service in db.services && db.services[q.service].enabled
                     && db.services[q.service].accountType == Referenced
                     && db.services[q.service].accountSource == Some(request.service);
      && k in out.subs && IsSubscribed(RowAt(db, k), out.subs[k], request.autoRenew, now)
      && (q != k ==> (q in out.subs <==> q in db.subs || mirrors))
      && (q != k && mirrors ==> IsMirror(RowAt(db, q), out.subs[q], out.subs[k], now))
      && (q != k && q in db.subs && !mirrors ==> out.subs[q] == db.subs[q])
      && out.accounts == Inserted(db, k, out.subs[k].id, provision.account, first)
      && out.users == db.users && out.services == db.services && out.policies == db.policies
  {
    assert first.Some? ==> first.value in db.accounts;
    hide Activated, SubscribeGuard, IsAdmitted, IsPermitted, IsOpen, Linked, ProvisioningFailed, IsFirstAccount;
    hide Forest, IsSubscribed, IsMirror, Inserted;
    var k := Key(user, request.service);
    GuardDecides(db, user, request);
    var linked := Linked(db, now, k, request.autoRenew, provision.account, first).value;
    LinkedWrites(db, now, k, request.autoRenew, provision.account, first);
    if db.services[k.service].accountType == Managed {
      ActivationDecides(linked, k, now, q);
      ActivationDecides(linked, k, now, k);
    } else {
      NothingMirrors(db, k.service);
    }
  }

  /** The store with the accounts this subscription was given. */
  ghost function Inserted(db: Db, k: Key, id: SubId, account: Option<Option<string>>, first: Option<AccountId>)
    : map<AccountId, Account>
    requires first.Some? ==> first.value in db.accounts
  {
    match account
    case None => db.accounts
    case Some(ext) =>
      if first.Some? then db.accounts[first.value := db.accounts[first.value].(externalId := ext)]
      else db.accounts[db.nextAccount := Account(id, k.user, k.service, ext)]
  }

  lemma LinkedWrites(db: Db, now: Time, k: Key, autoRenew: Option<bool>, account: Option<Option<string>>,
                     first: Option<AccountId>)
    requires IsFirstAccount(db, k, first)
    ensures var linked := Linked(db, now, k, autoRenew, account, first);
      linked.Some? ==>
        && k in linked.value.subs && IsSubscribed(RowAt(db, k), linked.value.subs[k], autoRenew, now)
        && linked.value.subs == db.subs[k := linked.value.subs[k]]
        && linked.value.accounts == Inserted(db, k, linked.value.subs[k].id, account, first)
        && linked.value.users == db.users && linked.value.services == db.services
        && linked.value.policies == db.policies
  {
    SubscribedRowIsRight(db, now, k, autoRenew);
    var row := SubscribedRow(db, k, autoRenew, now);
    assert SetRow(db, k, row) == db.(subs := db.subs[k := row], born := SetRow(db, k, row).born);
    hide IdClash, LinkedAccounts, IsSubscribed, SubscribedRow, SetRow;
  }

  lemma SubscribedRowIsRight(db: Db, now: Time, k: Key, autoRenew: Option<bool>)
    ensures IsSubscribed(RowAt(db, k), SubscribedRow(db, k, autoRenew, now), autoRenew, now)
  {
  }

  lemma NothingMirrors(db: Db, s: ServiceId)
    requires Forest(db) && s in db.services && db.services[s].accountType != Managed
    ensures forall t :: t in db.services && db.services[t].accountType == Referenced ==>
              db.services[t].accountSource != Some(s)
  {
  }

  /** A row that a run has expired can be subscribed again, by whoever may subscribe. */
  lemma ExpiredCanReturn(db: Db, order: seq<Key>, now: Time, outages: set<Key>, k: Key, request: SubscribeRequest,
                         first: Option<AccountId>)
    requires Forest(db) && VisitsActive(db, order) && k in db.subs && db.subs[k].status == Active
    requires db.subs[k].derivedFrom == None && db.subs[k].expiresAt.Some? && db.subs[k].expiresAt.value <= now
    requires !db.subs[k].autoRenew && k !in outages && request.service == k.service
    requires IsAdmitted(db, k.user, request)
        && IsPermitted(db.policies, k.user, k.service, db.services[k.service].defaultAllowed)
    requires IsFirstAccount(ProcessRows(db, order, now, outages), k, first)
    ensures SubscribeOutcome(ProcessRows(db, order, now, outages), now, k.user, request, Provided(None), first).result
         == Ok(())
  {
    RunTakesTurns(db, order, now, outages, k);
    ProcessKeepsShape(db, order, now, outages);
    ShapeKeepsForest(db, ProcessRows(db, order, now, outages));
    ProcessKeepsPolicies(db, order, now, outages);
    hide ProcessRows, SubscribeOutcome, Forest, IsFirstAccount;
    SubscribeDecides(ProcessRows(db, order, now, outages), now, k.user, request, Provided(None), first);
  }

  lemma {:induction false} ProcessKeepsPolicies(db: Db, order: seq<Key>, now: Time, outages: set<Key>)
    requires forall p :: p in order ==> p in db.subs
    ensures ProcessRows(db, order, now, outages).policies == db.policies
  {
    if order != [] {
      ProcessKeepsPolicies(db, order[..|order| - 1], now, outages);
    }
  }
}
