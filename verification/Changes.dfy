/** Operations on an existing subscription (subscriptions.service.ts): cancelling, disabling and
    enabling, renewing, and managing its linked accounts. Written like module Subscriptions. */
module Changes {
  import opened Model
  import opened Store
  import opened Access
  import opened Cascade
  import opened Expiration
  import opened Subscriptions

  // ---------- Rewriting rows between operations ----------

  lemma RewriteKeepsInv(db: Db, k: Key, row: Subscription)
    requires Inv(db) && k in db.subs && RowAtRest(row)
    requires row.id == db.subs[k].id && row.derivedFrom == db.subs[k].derivedFrom
    ensures Inv(Put(db, k, row))
  {
    ShapeKeepsForest(db, Put(db, k, row));
  }

  lemma MapDerivedKeepsInv(db: Db, id: SubId, f: Subscription -> Subscription)
    requires Inv(db)
    requires forall row: Subscription :: f(row).id == row.id && f(row).derivedFrom == row.derivedFrom
    requires forall row: Subscription :: RowAtRest(row) ==> RowAtRest(f(row))
    ensures Inv(MapDerived(db, id, f))
  {
    ShapeKeepsForest(db, MapDerived(db, id, f));
  }

  lemma FailKeepsInv(db: Db, k: Key, operation: FailedOperation, message: string, now: Time)
    requires Inv(db) && k in db.subs
    ensures Inv(Fail(db, k, operation, message, now))
  {
    RewriteKeepsInv(db, k, Failing(db.subs[k], operation, message, now));
  }

  lemma RemoveKeepsInv(db: Db, k: Key)
    requires Inv(db) && k in db.subs
    ensures Inv(Remove(db, k))
  {
    RemoveKeepsForest(db, k);
  }

  lemma DropAccountsKeepsInv(db: Db, gone: set<AccountId>)
    requires Inv(db)
    ensures Inv(db.(accounts := db.accounts - gone))
  {
  }

  // ---------- Cancelling ----------

  function DeleteGuard(db: Db, id: SubId, caller: UserId, now: Time): Option<Error> {
    if !Live(db.subs, id) then Some(NotFound)
    else if id.key.user !in db.users || caller !in db.users then Some(BadRequest)
    else if !db.users[caller] && caller != id.key.user then Some(BadRequest)
    else if id.key.service !in db.services then Some(BadRequest)
    else if db.services[id.key.service].accountType == Referenced then Some(BadRequest)
    else if !IsCurrentlyActive(db.subs[id.key], now) then Some(Conflict)
    else None
  }

  const UPSTREAM: string := "The external service did not answer"

  function DeleteOutcome(db: Db, now: Time, id: SubId, caller: UserId, deprovisioned: bool): Outcome {
    var guard := DeleteGuard(db, id, caller, now);
    if guard.Some? then Refuse(db, guard.value)
    else if deprovisioned then Outcome(Remove(db, id.key), Ok(()))
    else Outcome(Fail(db, id.key, FailedCancellation, UPSTREAM, now), Err(Unavailable))
  }

  method Delete(store: Database, now: Time, id: SubId, caller: UserId, deprovisioned: bool) returns (r: Result<()>)
    modifies store
    ensures Outcome(store.View(), r) == DeleteOutcome(old(store.View()), now, id, caller, deprovisioned)
  {
    ghost var db := store.View();
    var guard := DeleteGuard(store.View(), id, caller, now);
    if guard.Some? {
      return Err(guard.value);
    }
    var k := id.key;
    ghost var row := store.subs[k];
    var _ := store.Update(k, (row: Subscription) => row.(status := Cancelling));
    ghost var cancelling := row.(status := Cancelling);
    UpdateTwice(db.subs, k, cancelling, Failing(row, FailedCancellation, UPSTREAM, now));
    if !deprovisioned {
      MarkFailed(store, k, UPSTREAM, FailedCancellation, now);
      return Err(Unavailable);
    }
    RemoveIgnoresStatus(db, k, cancelling);
    r := store.Delete(k);
  }

  lemma RemoveIgnoresStatus(db: Db, k: Key, row: Subscription)
    requires k in db.subs && row.id == db.subs[k].id
    ensures Remove(Put(db, k, row), k) == Remove(db, k)
  {
  }

  lemma DeleteKeepsInv(db: Db, now: Time, id: SubId, caller: UserId, deprovisioned: bool)
    requires Inv(db)
    ensures Inv(DeleteOutcome(db, now, id, caller, deprovisioned).db)
  {
    if DeleteGuard(db, id, caller, now).None? {
      RemoveKeepsInv(db, id.key);
      FailKeepsInv(db, id.key, FailedCancellation, UPSTREAM, now);
    }
  }

  /** Everything in `out` beyond `db` is one new root and what hangs off it. */
  ghost predicate GrewBy(db: Db, out: Db, k: Key, id: SubId) {
    && k !in db.subs && k in out.subs && out.subs[k].id == id && id.key == k
    && (forall q :: q in db.subs ==> q in out.subs && out.subs[q] == db.subs[q])
    && (forall q :: q in out.subs && q !in db.subs && q != k ==> IsDerivedFrom(out.subs[q], id))
    && (forall a :: a in db.accounts ==> a in out.accounts && out.accounts[a] == db.accounts[a])
    && (forall a :: a in out.accounts && a !in db.accounts ==> out.accounts[a].subscription == id)
  }

  lemma RemoveUndoesGrowth(db: Db, out: Db, k: Key, id: SubId)
    requires Forest(db) && GrewBy(db, out, k, id)
    ensures Remove(out, k).subs == db.subs && Remove(out, k).accounts == db.accounts
  {
    var undone := Remove(out, k);
    forall q | q in db.subs ensures !IsDerivedFrom(out.subs[q], id) {
      SourceIsLive(db, q);
    }
    assert undone.subs == db.subs;
    forall a | a in out.accounts ensures Live(undone.subs, out.accounts[a].subscription) <==> a in db.accounts {
      if a in db.accounts {
        assert AccountOk(db, a);
      }
    }
    assert undone.accounts == db.accounts;
  }

  lemma SourceIsLive(db: Db, q: Key)
    requires Forest(db) && q in db.subs
    ensures db.subs[q].derivedFrom.Some? ==> Live(db.subs, db.subs[q].derivedFrom.value)
  {
  }

  lemma NothingDrawsOnNothing(db: Db, k: Key, q: Key)
    requires Forest(db) && k !in db.subs && q in Referencing(db.services, k)
    ensures q !in db.subs
  {
  }

  lemma LinkedGrows(db: Db, now: Time, k: Key, autoRenew: Option<bool>, account: Option<Option<string>>)
    requires Inv(db) && k !in db.subs
    ensures var linked := Linked(db, now, k, autoRenew, account, None);
            linked.Some? ==> GrewBy(db, linked.value, k, FreshId(db, k))
                             && linked.value.users == db.users && linked.value.services == db.services
                             && IsCurrentlyActive(linked.value.subs[k], now)
  {
  }

  lemma ActivationGrows(db: Db, mid: Db, k: Key, id: SubId, now: Time)
    requires Forest(db) && Forest(mid) && GrewBy(db, mid, k, id) && mid.services == db.services
    requires mid.services[k.service].accountType == Managed
    ensures GrewBy(db, Activated(mid, k, now), k, id) && Activated(mid, k, now).subs[k] == mid.subs[k]
    ensures Activated(mid, k, now).users == mid.users && Activated(mid, k, now).services == mid.services
  {
    hide Activated, Forest;
    ActivationMirrors(mid, k, now);
    ActivatedAccounts(mid, k, now);
    assert k !in Referencing(mid.services, k);
    forall q | q in Referencing(mid.services, k) ensures q !in db.subs {
      NothingDrawsOnNothing(db, k, q);
    }
    var out := Activated(mid, k, now);
    forall q | q in out.subs && q !in mid.subs ensures IsDerivedFrom(out.subs[q], id) {
      assert q in Referencing(mid.services, k);
      assert q == Key(k.user, q.service) && DrawsOn(mid.services[q.service], k.service);
    }
  }

  /** Cancelling right after a first subscription takes back every row and account it added, on the
      service itself and on everything drawing on it, and nothing else. */
  lemma DeleteUndoesSubscribe(db: Db, now: Time, user: UserId, request: SubscribeRequest, provision: Provision,
                              caller: UserId)
    requires Inv(db) && Key(user, request.service) !in db.subs
    requires caller in db.users && (db.users[caller] || caller == user)
    requires SubscribeOutcome(db, now, user, request, provision, None).result.Ok?
    ensures var o := SubscribeOutcome(db, now, user, request, provision, None);
            var undone := DeleteOutcome(o.db, now, FreshId(db, Key(user, request.service)), caller, true);
            undone.result.Ok? && undone.db.subs == db.subs && undone.db.accounts == db.accounts
  {
    hide Activated, Linked, GrewBy, Inv, Remove, SubscribedRow;
    var k, id := Key(user, request.service), FreshId(db, Key(user, request.service));
    var linked := Linked(db, now, k, request.autoRenew, provision.account, None).value;
    InvIsForest(db);
    LinkedGrows(db, now, k, request.autoRenew, provision.account);
    LinkedKeepsInv(db, now, k, request.autoRenew, provision.account, None);
    InvIsForest(linked);
    var o := SubscribeOutcome(db, now, user, request, provision, None).db;
    GrownRoot(db, linked, k, id);
    if db.services[k.service].accountType == Managed {
      ActivationGrows(db, linked, k, id, now);
      GrownRoot(db, o, k, id);
    }
    RemoveUndoesGrowth(db, o, k, id);
    assert DeleteGuard(o, id, caller, now).None?;
  }

  lemma GrownRoot(db: Db, out: Db, k: Key, id: SubId)
    requires GrewBy(db, out, k, id)
    ensures k in out.subs && Live(out.subs, id) && id.key == k
  {
  }

  lemma ActivatedAccounts(db: Db, k: Key, now: Time)
    requires k in db.subs
    ensures var out := Activated(db, k, now);
            out.accounts == db.accounts && out.users == db.users && out.services == db.services
  {
  }

  // ---------- Disabling and enabling ----------

  function StatusGuard(db: Db, k: Key, enable: bool, now: Time): Option<Error> {
    if k.user !in db.users then Some(BadRequest)
    else if k.service !in db.services then Some(BadRequest)
    else if k !in db.subs then Some(Conflict)
    else if !enable && !IsCurrentlyActive(db.subs[k], now) then Some(Conflict)
    else if enable && db.subs[k].status != Disabled then Some(Conflict)
    else None
  }

  /** The accounts a provisioner is handed: none unless the service is MANAGED. */
  function ContextAccounts(db: Db, k: Key): set<AccountId>
    requires k in db.subs && k.service in db.services
  {
    if db.services[k.service].accountType == Managed then LinkedAccounts(db, db.subs[k].id) else {}
  }

  function Disable(db: Db, k: Key, now: Time): Db
    requires k in db.subs
  {
    MapDerived(Put(db, k, db.subs[k].(status := Disabled, lastError := None)), db.subs[k].id, SetStatus(Disabled, now))
  }

  function Enable(db: Db, k: Key): Db
    requires k in db.subs
  {
    MapDerived(Put(db, k, db.subs[k].(status := Active, lastError := None)), db.subs[k].id,
        Revive(db.subs[k].expiresAt))
  }

  /** `missing` are the linked accounts found gone upstream before the call ended or broke. */
  function SetStatusOutcome(db: Db, now: Time, k: Key, enable: bool, missing: set<AccountId>,
                            reached: bool): (o: Outcome)
    ensures o.db.subs.Keys == db.subs.Keys
  {
    var guard := StatusGuard(db, k, enable, now);
    if guard.Some? then Refuse(db, guard.value)
    else
      var swept := if enable then db.(accounts := db.accounts - (missing * ContextAccounts(db, k))) else db;
      if !reached then Outcome(Fail(swept, k, FailedCancellation, UPSTREAM, now), Err(Unavailable))
      else Outcome(if enable then Enable(swept, k) else Disable(swept, k, now), Ok(()))
  }

  /** Drops the local rows of vanished accounts, one at a time. */
  method DropMissing(store: Database, k: Key, missing: set<AccountId>)
    requires k in store.subs && k.service in store.services
    modifies store
    ensures store.View() ==
            old(store.View()).(accounts := old(store.accounts) - (missing * ContextAccounts(old(store.View()), k)))
  {
    ghost var db := store.View();
    var linked := ListSet(ContextAccounts(store.View(), k));
    assert db.accounts - {} == db.accounts;
    ghost var gone: set<AccountId> := {};
    for i := 0 to |linked|
      invariant gone == set a | a in missing && a in linked[..i]
      invariant store.View() == db.(accounts := db.accounts - gone)
    {
      ghost var next := set a | a in missing && a in linked[..i + 1];
      if linked[i] in missing {
        assert next == gone + {linked[i]};
        assert db.accounts - gone - {linked[i]} == db.accounts - next;
        store.DeleteAccount(linked[i]);
      } else {
        assert next == gone;
      }
      gone := next;
    }
    assert linked[..|linked|] == linked;
    assert gone == missing * ContextAccounts(db, k);
  }

  method SetDisabledStatus(store: Database, now: Time, k: Key, enable: bool, missing: set<AccountId>, reached: bool)
    returns (r: Result<()>)
    modifies store
    ensures Outcome(store.View(), r) == SetStatusOutcome(old(store.View()), now, k, enable, missing, reached)
  {
    hide ContextAccounts;
    ghost var db := store.View();
    var guard := StatusGuard(store.View(), k, enable, now);
    if guard.Some? {
      return Err(guard.value);
    }
    ghost var row := store.subs[k];
    ghost var status := if enable then Enabling else Disabling;
    var _ := store.Update(k, (row: Subscription) => row.(status := if enable then Enabling else Disabling));
    if enable {
      assert ContextAccounts(store.View(), k) == ContextAccounts(db, k) by {
        ContextIgnoresStatus(db, k, row.(status := status));
      }
      DropMissing(store, k, missing);
    }
    ghost var swept := if enable then db.(accounts := db.accounts - (missing * ContextAccounts(db, k))) else db;
    assert store.View() == Put(swept, k, row.(status := status));
    if !reached {
      UpdateTwice(db.subs, k, row.(status := status), Failing(row, FailedCancellation, UPSTREAM, now));
      MarkFailed(store, k, UPSTREAM, FailedCancellation, now);
      return Err(Unavailable);
    }
    var updated := store.Update(k,
        (row: Subscription) => row.(status := if enable then Active else Disabled, lastError := None));
    UpdateTwice(db.subs, k, row.(status := status),
        row.(status := if enable then Active else Disabled, lastError := None));
    if enable {
      OnReactivated(store, updated.value);
    } else {
      OnDeactivated(store, updated.value, Disabled, now);
    }
    return Ok(());
  }

  lemma ContextIgnoresStatus(db: Db, k: Key, row: Subscription)
    requires k in db.subs && k.service in db.services && row.id == db.subs[k].id
    ensures ContextAccounts(Put(db, k, row), k) == ContextAccounts(db, k)
  {
  }

  lemma SetStatusKeepsInv(db: Db, now: Time, k: Key, enable: bool, missing: set<AccountId>, reached: bool)
    requires Inv(db)
    ensures Inv(SetStatusOutcome(db, now, k, enable, missing, reached).db)
  {
    hide Inv, ContextAccounts, MapDerived, Put, Forest;
    if StatusGuard(db, k, enable, now).None? {
      DropAccountsKeepsInv(db, missing * ContextAccounts(db, k));
      var swept := if enable then db.(accounts := db.accounts - (missing * ContextAccounts(db, k))) else db;
      FailKeepsInv(swept, k, FailedCancellation, UPSTREAM, now);
      var row := db.subs[k].(status := if enable then Active else Disabled, lastError := None);
      RewriteKeepsInv(swept, k, row);
      MapDerivedKeepsInv(Put(swept, k, row), row.id,
                         if enable then Revive(row.expiresAt) else SetStatus(Disabled, now));
    }
  }

  /** The row and what hangs off it are undisturbed: active, without leftovers of a past failure or
      cancellation, and (below) no later than the source. */
  ghost predicate Undisturbed(db: Db, k: Key)
    requires k in db.subs
  {
    && db.subs[k].status == Active && db.subs[k].lastError.None?
    && forall q :: q in db.subs && IsDerivedFrom(db.subs[q], db.subs[k].id) ==>
         && db.subs[q].status == Active && NoLater(db.subs[q].expiresAt, db.subs[k].expiresAt)
         && db.subs[q].cancelledAt.None? && db.subs[q].lastError.None? && db.subs[q].failedAt.None?
  }

  /** Enabling takes back a disabling exactly when the subscription and its derived rows were undisturbed:
      otherwise enabling also revives, shortens or cleans rows the disabling had found that way. */
  lemma EnableUndoesDisable(db: Db, now: Time, k: Key)
    requires Forest(db) && k in db.subs && IsCurrentlyActive(db.subs[k], now)
    ensures Enable(Disable(db, k, now), k) == db <==> Undisturbed(db, k)
  {
    hide Enable, Disable, Forest;
    NoRowDerivesFromItself(db, k);
    RoundTripKeys(db, now, k);
    var back := Enable(Disable(db, k, now), k);
    forall q | q in db.subs ensures back.subs[q] == RoundTrip(db, k, q) {
      RoundTripRow(db, now, k, q);
    }
    if Undisturbed(db, k) {
      forall q | q in db.subs ensures RoundTrip(db, k, q) == db.subs[q] {
      }
      assert back.subs == db.subs;
    }
    if back == db {
      forall q | q in db.subs ensures RoundTrip(db, k, q) == db.subs[q] {
      }
      assert RoundTrip(db, k, k) == db.subs[k];
      forall q | q in db.subs && IsDerivedFrom(db.subs[q], db.subs[k].id)
        ensures db.subs[q].status == Active && NoLater(db.subs[q].expiresAt, db.subs[k].expiresAt)
        ensures db.subs[q].cancelledAt.None? && db.subs[q].lastError.None? && db.subs[q].failedAt.None?
      {
        assert RoundTrip(db, k, q) == db.subs[q];
        EarliestIsNoLater(db.subs[q].expiresAt, db.subs[k].expiresAt);
      }
    }
  }

  /** The row under `q` after its source was disabled and enabled again. */
  function RoundTrip(db: Db, k: Key, q: Key): Subscription
    requires k in db.subs && q in db.subs
  {
    if q == k then db.subs[k].(status := Active, lastError := None)
    else if IsDerivedFrom(db.subs[q], db.subs[k].id) then
      db.subs[q].(status := Active, expiresAt := Earliest(db.subs[q].expiresAt, db.subs[k].expiresAt),
                  cancelledAt := None, lastError := None, failedAt := None)
    else db.subs[q]
  }

  lemma RoundTripRow(db: Db, now: Time, k: Key, q: Key)
    requires Forest(db) && k in db.subs && q in db.subs
    ensures k in Disable(db, k, now).subs && q in Enable(Disable(db, k, now), k).subs
    ensures Enable(Disable(db, k, now), k).subs[q] == RoundTrip(db, k, q)
  {
  }

  lemma RoundTripKeys(db: Db, now: Time, k: Key)
    requires k in db.subs
    ensures k in Disable(db, k, now).subs
    ensures var back := Enable(Disable(db, k, now), k);
            back.subs.Keys == db.subs.Keys && back == db.(subs := back.subs)
  {
  }

  // ---------- Renewing ----------

  function RenewalBase(row: Subscription, now: Time): Time {
    if row.expiresAt.Some? && row.expiresAt.value > now then row.expiresAt.value else now
  }

  function RenewOutcome(db: Db, now: Time, id: SubId): Outcome {
    if !Live(db.subs, id) then Refuse(db, NotFound)
    else
      var expiresAt := Some(RenewalBase(db.subs[id.key], now) + PERIOD);
      Outcome(MapDerived(Put(db, id.key, db.subs[id.key].(expiresAt := expiresAt, lastError := None)), id,
          Clamp(expiresAt)),
              Ok(()))
  }

  method Renew(store: Database, now: Time, id: SubId) returns (r: Result<()>)
    modifies store
    ensures Outcome(store.View(), r) == RenewOutcome(old(store.View()), now, id)
  {
    if !Live(store.subs, id) {
      return Err(NotFound);
    }
    hide MapDerived, Clamp;
    ghost var db := store.View();
    var row := store.subs[id.key];
    var base := if row.expiresAt.Some? && row.expiresAt.value > now then row.expiresAt.value else now;
    var patch := (row: Subscription) => row.(expiresAt := Some(base + PERIOD), lastError := None);
    var updated := store.Update(id.key, patch);
    assert store.View() ==
        Put(db, id.key, db.subs[id.key].(expiresAt := Some(RenewalBase(row, now) + PERIOD), lastError := None));
    hide Put;
    OnExpiryChanged(store, updated.value);
    return Ok(());
  }

  lemma RenewKeepsInv(db: Db, now: Time, id: SubId)
    requires Inv(db)
    ensures Inv(RenewOutcome(db, now, id).db)
  {
    hide Inv, MapDerived, Put;
    if Live(db.subs, id) {
      InvIsForest(db);
      var expiresAt := Some(RenewalBase(db.subs[id.key], now) + PERIOD);
      var row := db.subs[id.key].(expiresAt := expiresAt, lastError := None);
      RewriteKeepsInv(db, id.key, row);
      MapDerivedKeepsInv(Put(db, id.key, row), id, Clamp(expiresAt));
    }
  }

  /** Renewing a source never lengthens what is drawn from it: the row under `q` keeps the effective expiry
      it had whenever it was within its source's, so a derived entitlement outlasts its own expiry never. */
  lemma RenewalDoesNotSpread(db: Db, now: Time, k: Key, q: Key, at: Time)
    requires Forest(db) && k in db.subs && q in db.subs && IsDerivedFrom(db.subs[q], db.subs[k].id)
    ensures var out := RenewOutcome(db, now, db.subs[k].id).db;
      && k in out.subs && q in out.subs
      && NoLater(out.subs[q].expiresAt, db.subs[q].expiresAt)
      && (NoLater(db.subs[q].expiresAt, db.subs[k].expiresAt) && db.subs[k].expiresAt.Some? ==>
            out.subs[q] == db.subs[q]
            && ResolveEffectiveEntitlement(out, out.subs[q], at).expiresAt ==
                ResolveEffectiveEntitlement(db, db.subs[q], at).expiresAt)
  {
  }

  // ---------- Settings of a subscription ----------

  function AutoRenewGuard(db: Db, id: SubId, caller: UserId): Option<Error> {
    if !Live(db.subs, id) then Some(NotFound)
    else if caller != id.key.user then Some(Forbidden)
    else if id.key.service !in db.services then Some(BadRequest)
    else if db.services[id.key.service].accountType == Referenced then Some(BadRequest)
    else None
  }

  /** The owner's own switch; derived subscriptions follow their source. */
  function SetAutoRenewOutcome(db: Db, id: SubId, caller: UserId, autoRenew: bool): Outcome {
    var guard := AutoRenewGuard(db, id, caller);
    if guard.Some? then Refuse(db, guard.value)
    else Outcome(Put(db, id.key, db.subs[id.key].(autoRenew := autoRenew)), Ok(()))
  }

  method SetAutoRenew(store: Database, id: SubId, caller: UserId, autoRenew: bool) returns (r: Result<()>)
    modifies store
    ensures Outcome(store.View(), r) == SetAutoRenewOutcome(old(store.View()), id, caller, autoRenew)
  {
    if !Live(store.subs, id) {
      return Err(NotFound);
    }
    if caller != id.key.user {
      return Err(Forbidden);
    }
    if id.key.service !in store.services || store.services[id.key.service].accountType == Referenced {
      return Err(BadRequest);
    }
    var _ := store.Update(id.key, (row: Subscription) => row.(autoRenew := autoRenew));
    return Ok(());
  }

  /** What an admin may change at once: the status, and the renewal of any subscription. */
  datatype Edit = Edit(enabled: Option<bool>, autoRenew: Option<bool>)

  function PatchOutcome(db: Db, now: Time, id: SubId, edit: Edit, missing: set<AccountId>, reached: bool): Outcome {
    if edit.enabled.None? && edit.autoRenew.None? then Refuse(db, BadRequest)
    else if !Live(db.subs, id) then Refuse(db, NotFound)
    else
      var first := if edit.enabled.Some? then SetStatusOutcome(db, now, id.key, edit.enabled.value, missing, reached)
                   else Outcome(db, Ok(()));
      if first.result.Err? || edit.autoRenew.None? then first
      else Outcome(Put(first.db, id.key, first.db.subs[id.key].(autoRenew := edit.autoRenew.value)), Ok(()))
  }

  method Patch(store: Database, now: Time, id: SubId, edit: Edit, missing: set<AccountId>, reached: bool)
    returns (r: Result<()>)
    modifies store
    ensures Outcome(store.View(), r) == PatchOutcome(old(store.View()), now, id, edit, missing, reached)
  {
    hide SetStatusOutcome;
    if edit.enabled.None? && edit.autoRenew.None? {
      return Err(BadRequest);
    }
    if !Live(store.subs, id) {
      return Err(NotFound);
    }
    if edit.enabled.Some? {
      r := SetDisabledStatus(store, now, id.key, edit.enabled.value, missing, reached);
      if r.Err? {
        return r;
      }
      assert r.value == ();
    }
    if edit.autoRenew.Some? {
      var autoRenew := edit.autoRenew.value;
      var _ := store.Update(id.key, (row: Subscription) => row.(autoRenew := autoRenew));
    }
    return Ok(());
  }

  lemma SwitchKeepsInv(db: Db, k: Key, autoRenew: bool)
    requires Inv(db) && k in db.subs
    ensures Inv(Put(db, k, db.subs[k].(autoRenew := autoRenew)))
  {
    assert RowAtRest(db.subs[k]);
    RewriteKeepsInv(db, k, db.subs[k].(autoRenew := autoRenew));
  }

  lemma SettingsKeepInv(db: Db, now: Time, id: SubId, caller: UserId, autoRenew: bool, edit: Edit,
                        missing: set<AccountId>, reached: bool)
    requires Inv(db)
    ensures Inv(SetAutoRenewOutcome(db, id, caller, autoRenew).db)
    ensures Inv(PatchOutcome(db, now, id, edit, missing, reached).db)
  {
    hide Inv, SetStatusOutcome;
    if Live(db.subs, id) {
      SwitchKeepsInv(db, id.key, autoRenew);
      var first := if edit.enabled.Some?
                   then SetStatusOutcome(db, now, id.key, edit.enabled.value, missing, reached).db else db;
      if edit.enabled.Some? {
        SetStatusKeepsInv(db, now, id.key, edit.enabled.value, missing, reached);
      }
      if edit.autoRenew.Some? {
        SwitchKeepsInv(first, id.key, edit.autoRenew.value);
      }
    }
  }

  // ---------- Linked accounts ----------

  /** The admin or the owner may act on a subscription. */
  predicate MayManage(db: Db, caller: UserId, owner: UserId) {
    caller == owner || (caller in db.users && db.users[caller])
  }

  function AddAccountGuard(db: Db, now: Time, id: SubId, caller: UserId): Option<Error> {
    if !Live(db.subs, id) then Some(NotFound)
    else if !MayManage(db, caller, id.key.user) then Some(Forbidden)
    else if !IsCurrentlyActive(db.subs[id.key], now) then Some(Conflict)
    else if id.key.service !in db.services then Some(BadRequest)
    else if db.services[id.key.service].accountType != Managed then Some(BadRequest)
    else if |LinkedAccounts(db, id)| >= AccountCap(db, id.key) then Some(Conflict)
    else if id.key.user !in db.users then Some(BadRequest)
    else None
  }

  function AddAccountOutcome(db: Db, now: Time, id: SubId, caller: UserId, provision: Provision): Outcome {
    var guard := AddAccountGuard(db, now, id, caller);
    if guard.Some? then Refuse(db, guard.value)
    else match provision
      case Rejected(error) => Refuse(db, error)
      case Broken(_) => Refuse(db, Unavailable)
      case Provided(account) =>
        if account.None? then Refuse(db, Internal)
        else
          var row := Account(id, id.key.user, id.key.service, account.value);
          if IdClash(db.accounts, row, None) then Refuse(db, Conflict) else Outcome(AddAccountRow(db, row), Ok(()))
  }

  method AddAccount(store: Database, now: Time, id: SubId, caller: UserId, provision: Provision) returns (r: Result<()>)
    modifies store
    ensures Outcome(store.View(), r) == AddAccountOutcome(old(store.View()), now, id, caller, provision)
  {
    var guard := AddAccountGuard(store.View(), now, id, caller);
    if guard.Some? {
      return Err(guard.value);
    }
    match provision
    case Rejected(error) => return Err(error);
    case Broken(_) => return Err(Unavailable);
    case Provided(account) =>
      if account.None? {
        return Err(Internal);
      }
      assert store.subs[id.key].id == id;
      r := store.CreateAccount(Account(id, id.key.user, id.key.service, account.value));
  }

  function DeleteAccountGuard(db: Db, id: SubId, a: AccountId, caller: UserId): Option<Error> {
    if !Live(db.subs, id) then Some(NotFound)
    else if !MayManage(db, caller, id.key.user) then Some(Forbidden)
    else if id.key.service !in db.services then Some(BadRequest)
    else if db.services[id.key.service].accountType != Managed then Some(BadRequest)
    else if a !in db.accounts || db.accounts[a].subscription != id then Some(NotFound)
    else if |LinkedAccounts(db, id)| <= 1 then Some(Conflict)
    else if id.key.user !in db.users then Some(BadRequest)
    else None
  }

  /** `deprovisioned` is false when removing the account upstream was asked for and failed. */
  function DeleteAccountOutcome(db: Db, id: SubId, a: AccountId, caller: UserId, deprovisioned: bool): Outcome {
    var guard := DeleteAccountGuard(db, id, a, caller);
    if guard.Some? then Refuse(db, guard.value)
    else if !deprovisioned then Refuse(db, Unavailable)
    else Outcome(db.(accounts := db.accounts - {a}), Ok(()))
  }

  method DeleteAccount(store: Database, id: SubId, a: AccountId, caller: UserId, deprovisioned: bool)
    returns (r: Result<()>)
    modifies store
    ensures Outcome(store.View(), r) == DeleteAccountOutcome(old(store.View()), id, a, caller, deprovisioned)
  {
    var guard := DeleteAccountGuard(store.View(), id, a, caller);
    if guard.Some? {
      return Err(guard.value);
    }
    if !deprovisioned {
      return Err(Unavailable);
    }
    store.DeleteAccount(a);
    return Ok(());
  }

  lemma AddRowKeepsInv(db: Db, account: Account)
    requires Inv(db) && Live(db.subs, account.subscription)
        && account.subscription.key == Key(account.user, account.service)
    requires !IdClash(db.accounts, account, None)
    ensures Inv(AddAccountRow(db, account))
  {
    var out := AddAccountRow(db, account);
    forall q | q in out.subs ensures RowOk(out, q) {
      assert RowOk(db, q);
    }
    forall a | a in out.accounts ensures AccountOk(out, a) {
      assert a in db.accounts ==> AccountOk(db, a);
    }
    assert db.nextAccount !in db.accounts by {
      assert db.nextAccount in db.accounts ==> AccountOk(db, db.nextAccount);
    }
    NoClashKeepsUnique(db, db.nextAccount, account);
  }

  lemma AccountChangesKeepInv(db: Db, now: Time, id: SubId, a: AccountId, caller: UserId, provision: Provision,
                              deprovisioned: bool)
    requires Inv(db)
    ensures Inv(AddAccountOutcome(db, now, id, caller, provision).db)
    ensures Inv(DeleteAccountOutcome(db, id, a, caller, deprovisioned).db)
  {
    if AddAccountGuard(db, now, id, caller).None? && provision.Provided? && provision.account.Some? {
      var row := Account(id, id.key.user, id.key.service, provision.account.value);
      if !IdClash(db.accounts, row, None) {
        AddRowKeepsInv(db, row);
      }
    }
    DropAccountsKeepsInv(db, {a});
  }

  /** An added account stays within the cap in force, and deleting the account just added restores the
      accounts exactly. */
  lemma AccountsStayWithinCap(db: Db, now: Time, id: SubId, caller: UserId, provision: Provision)
    requires Inv(db) && Live(db.subs, id)
    ensures var added := AddAccountOutcome(db, now, id, caller, provision);
      added.result.Ok? ==>
        && |LinkedAccounts(added.db, id)| == |LinkedAccounts(db, id)| + 1 <= AccountCap(db, id.key)
        && (0 < |LinkedAccounts(db, id)| ==>
              DeleteAccountOutcome(added.db, id, db.nextAccount, caller, true) ==
                  Outcome(added.db.(accounts := db.accounts), Ok(())))
  {
    assert db.nextAccount !in db.accounts by {
      assert db.nextAccount in db.accounts ==> AccountOk(db, db.nextAccount);
    }
    hide Inv, IdClash;
    var ext := if provision.Provided? && provision.account.Some? then provision.account.value else None;
    var row := Account(id, id.key.user, id.key.service, ext);
    AddingIsOneMore(db, row);
  }

  lemma AddingIsOneMore(db: Db, row: Account)
    requires db.nextAccount !in db.accounts
    ensures var out := AddAccountRow(db, row);
      && |LinkedAccounts(out, row.subscription)| == |LinkedAccounts(db, row.subscription)| + 1
      && db.nextAccount in LinkedAccounts(out, row.subscription)
      && out.accounts - {db.nextAccount} == db.accounts
  {
    var out := AddAccountRow(db, row);
    assert LinkedAccounts(out, row.subscription) == LinkedAccounts(db, row.subscription) + {db.nextAccount};
    assert out.accounts - {db.nextAccount} == db.accounts;
  }

  lemma LastAccountStays(db: Db, id: SubId, a: AccountId, caller: UserId)
    requires 0 < |LinkedAccounts(db, id)|
    ensures 0 < |LinkedAccounts(DeleteAccountOutcome(db, id, a, caller, true).db, id)|
  {
    var out := DeleteAccountOutcome(db, id, a, caller, true);
    if out.result.Ok? {
      assert LinkedAccounts(out.db, id) == LinkedAccounts(db, id) - {a};
    }
  }

  // ---------- Access granted by policy ----------

  predicate PolicyActivates(db: Db, now: Time, user: UserId, service: ServiceId)
    requires service in db.services
  {
    && db.services[service].accountType == Referenced
    && db.services[service].accountSource.Some?
    && Key(user, db.services[service].accountSource.value) in db.subs
    && IsCurrentlyActive(db.subs[Key(user, db.services[service].accountSource.value)], now)
  }

  function ActivateFromPolicyOutcome(db: Db, now: Time, user: UserId, service: ServiceId): Db
    requires service in db.services
  {
    if PolicyActivates(db, now, user, service)
    then MirrorAll(db, db.services[service].accountSource.value, {Key(user, service)}, now)
    else db
  }

  method ActivateFromPolicy(store: Database, now: Time, user: UserId, service: ServiceId)
    requires service in store.services && user in store.users
    modifies store
    ensures store.View() == ActivateFromPolicyOutcome(old(store.View()), now, user, service)
  {
    ghost var db := store.View();
    if store.services[service].accountType != Referenced || store.services[service].accountSource.None? {
      return;
    }
    var src := store.services[service].accountSource.value;
    var s := Key(user, src);
    if s !in store.subs || !IsCurrentlyActive(store.subs[s], now) {
      return;
    }
    MirrorNone(db, src, now);
    MirrorNext(store, store.subs[s], Key(user, service), now, db, src, {});
    assert {} + {Key(user, service)} == {Key(user, service)};
  }

  lemma ActivateFromPolicyKeepsInv(db: Db, now: Time, user: UserId, service: ServiceId)
    requires Inv(db) && service in db.services
    ensures Inv(ActivateFromPolicyOutcome(db, now, user, service))
  {
    if PolicyActivates(db, now, user, service) {
      MirrorKeepsInv(db, db.services[service].accountSource.value, {Key(user, service)}, now);
    }
  }

  lemma MirrorKeepsInv(db: Db, src: ServiceId, targets: set<Key>, now: Time)
    requires Inv(db) && src in db.services
    requires forall q :: q in targets ==>
      && Key(q.user, src) in db.subs && q.service in db.services
      && db.services[q.service].accountType == Referenced && db.services[q.service].accountSource == Some(src)
    ensures Inv(MirrorAll(db, src, targets, now))
  {
    hide Forest, RowAtRest, MirrorRow;
    MirrorKeepsForest(db, src, targets, now);
    var out := MirrorAll(db, src, targets, now);
    forall q | q in out.subs ensures RowAtRest(out.subs[q]) {
      if q in targets {
        ActiveRests(out.subs[q]);
      } else {
        assert RowAtRest(db.subs[q]);
      }
    }
  }

  lemma ActiveRests(row: Subscription)
    requires row.status == Active
    ensures RowAtRest(row)
  {
  }

  // ---------- What each operation decides and writes, column by column ----------

  /** Is there a row with this id? */
  ghost predicate Exists(db: Db, id: SubId) {
    id.key in db.subs && db.subs[id.key].id == id
  }

  ghost predicate IsAdmin(db: Db, user: UserId) {
    user in db.users && db.users[user]
  }

  /** Active, with an expiry that is still to come. */
  ghost predicate IsRunning(row: Subscription, now: Time) {
    row.status == Active && row.expiresAt.Some? && row.expiresAt.value > now
  }

  /** `out` is `db` but for the row under `k`, which failed. */
  ghost predicate OnlyFailed(db: Db, out: Db, k: Key, operation: FailedOperation, now: Time) {
    && k in db.subs && k in out.subs && out == db.(subs := db.subs[k := out.subs[k]])
    && out.subs[k] == db.subs[k].(status := Failed, failedOperation := Some(operation), failedAt := Some(now),
                                  lastError := out.subs[k].lastError)
    && out.subs[k].lastError.Some?
  }

  /** `out` is `db` without the row, the rows deriving from it, and the accounts of all these. */
  ghost predicate OnlyRemoved(db: Db, out: Db, k: Key) {
    && k in db.subs
    && (forall q :: q in out.subs <==> q in db.subs && q != k && db.subs[q].derivedFrom != Some(db.subs[k].id))
    && (forall q :: q in out.subs ==> out.subs[q] == db.subs[q])
    && (forall a :: a in out.accounts <==> a in db.accounts && Exists(out, db.accounts[a].subscription))
    && (forall a :: a in out.accounts ==> out.accounts[a] == db.accounts[a])
    && out == db.(subs := out.subs, accounts := out.accounts)
  }

  lemma RemovesOnly(db: Db, k: Key)
    requires k in db.subs
    ensures OnlyRemoved(db, Remove(db, k), k)
  {
  }

  /** Cancelling: each refusal has its own condition and changes nothing; the row and what derives from it go if
      the external side went through, and otherwise the row alone fails. */
  lemma DeleteDecides(db: Db, now: Time, id: SubId, caller: UserId, deprovisioned: bool)
    ensures var o, k := DeleteOutcome(db, now, id, caller, deprovisioned), id.key;
      if !Exists(db, id) then o == Outcome(db, Err(NotFound))
      else if k.user !in db.users || caller !in db.users || (caller != k.user && !db.users[caller])
              || k.service !in db.services || db.services[k.service].accountType == Referenced
      then o == Outcome(db, Err(BadRequest))
      else if !IsRunning(db.subs[k], now) then o == Outcome(db, Err(Conflict))
      else if deprovisioned then o.result == Ok(()) && OnlyRemoved(db, o.db, k)
      else o.result == Err(Unavailable) && OnlyFailed(db, o.db, k, FailedCancellation, now)
  {
    if id.key in db.subs {
      RemovesOnly(db, id.key);
    }
    hide Remove, OnlyRemoved;
  }

  /** Disabling needs a running subscription and enabling a disabled one; otherwise nothing changes. */
  lemma SetStatusRefuses(db: Db, now: Time, k: Key, enable: bool, missing: set<AccountId>, reached: bool)
    ensures var o := SetStatusOutcome(db, now, k, enable, missing, reached);
      if k.user !in db.users || k.service !in db.services then o == Outcome(db, Err(BadRequest))
      else if k !in db.subs then o == Outcome(db, Err(Conflict))
      else if enable && db.subs[k].status != Disabled then o == Outcome(db, Err(Conflict))
      else if !enable && !IsRunning(db.subs[k], now) then o == Outcome(db, Err(Conflict))
      else o.result == if reached then Ok(()) else Err(Unavailable)
  {
    hide Disable, Enable, ContextAccounts;
  }

  /** The accounts found gone upstream, when the service is MANAGED and they are linked here. */
  ghost predicate IsSwept(db: Db, k: Key, missing: set<AccountId>, a: AccountId) {
    && k in db.subs && k.service in db.services && db.services[k.service].accountType == Managed
    && a in missing && a in db.accounts && db.accounts[a].subscription == db.subs[k].id
  }

  /** What disabling and enabling write when they go through: the row, and everything derived from it. A derived
      row is enabled clean and ends no later than its source. Nothing else moves, but that enabling drops the
      accounts found gone. */
  lemma SetStatusWrites(db: Db, now: Time, k: Key, enable: bool, missing: set<AccountId>, q: Key)
    requires Forest(db) && SetStatusOutcome(db, now, k, enable, missing, true).result.Ok? && q in db.subs
    ensures k in db.subs
    ensures var out, was, source := SetStatusOutcome(db, now, k, enable, missing, true).db, db.subs[q], db.subs[k];
      && q in out.subs && out.subs.Keys == db.subs.Keys
      && (q == k ==> out.subs[q] == was.(status := if enable then Active else Disabled, lastError := None))
      && (was.derivedFrom == Some(source.id) ==>
            if enable
            then out.subs[q] == was.(status := Active, expiresAt := out.subs[q].expiresAt, cancelledAt := None,
                                     lastError := None, failedAt := None)
                 && out.subs[q].expiresAt == (if source.expiresAt == None then was.expiresAt
                                              else if was.expiresAt != None
                                                      && was.expiresAt.value < source.expiresAt.value
                                              then was.expiresAt else source.expiresAt)
            else out.subs[q] == was.(status := Disabled))
      && (q != k && was.derivedFrom != Some(source.id) ==> out.subs[q] == was)
      && (forall a :: a in out.accounts <==> a in db.accounts && !(enable && IsSwept(db, k, missing, a)))
      && (forall a :: a in out.accounts ==> out.accounts[a] == db.accounts[a])
      && out == db.(subs := out.subs, accounts := out.accounts)
  {
    hide Forest, MapDerived, ContextAccounts, IsSwept;
    NoRowDerivesFromItself(db, k);
    var row := db.subs[k].(status := if enable then Active else Disabled, lastError := None);
    var swept := if enable then db.(accounts := db.accounts - (missing * ContextAccounts(db, k))) else db;
    CascadeDecides(Put(swept, k, row), row.id, row.expiresAt, Disabled, now, q);
    CascadeDecides(Put(swept, k, row), row.id, row.expiresAt, Disabled, now, k);
    forall a ensures a in missing * ContextAccounts(db, k) <==> IsSwept(db, k, missing, a) {
      SweptAreContext(db, k, missing, a);
    }
    MapsOnlyRows(Put(swept, k, row), row.id, row.expiresAt, now);
  }

  lemma SweptAreContext(db: Db, k: Key, missing: set<AccountId>, a: AccountId)
    requires k in db.subs && k.service in db.services
    ensures a in missing * ContextAccounts(db, k) <==> IsSwept(db, k, missing, a)
  {
  }

  lemma MapsOnlyRows(db: Db, id: SubId, expiresAt: Option<Time>, now: Time)
    ensures var disabled, revived :=
        MapDerived(db, id, SetStatus(Disabled, now)), MapDerived(db, id, Revive(expiresAt));
      && disabled == db.(subs := disabled.subs) && disabled.subs.Keys == db.subs.Keys
      && revived == db.(subs := revived.subs) && revived.subs.Keys == db.subs.Keys
  {
  }

  /** One that does not go through fails the row alone; enabling has dropped the missing accounts by then. */
  lemma SetStatusFails(db: Db, now: Time, k: Key, enable: bool, missing: set<AccountId>)
    requires SetStatusOutcome(db, now, k, enable, missing, false).result == Err(Unavailable)
    ensures var out := SetStatusOutcome(db, now, k, enable, missing, false).db;
      && k in db.subs && OnlyFailed(db.(accounts := out.accounts), out, k, FailedCancellation, now)
      && (forall a :: a in out.accounts <==> a in db.accounts && !(enable && IsSwept(db, k, missing, a)))
      && (forall a :: a in out.accounts ==> out.accounts[a] == db.accounts[a])
  {
    hide IsSwept, ContextAccounts;
    forall a ensures a in missing * ContextAccounts(db, k) <==> IsSwept(db, k, missing, a) {
      SweptAreContext(db, k, missing, a);
    }
  }

  /** Renewing adds thirty days to the later of now and the expiry, clears the last error, and clamps what derives
      from the row; nothing else moves. */
  lemma RenewDecides(db: Db, now: Time, id: SubId, q: Key)
    requires Forest(db) && q in db.subs
    ensures var o, was, k := RenewOutcome(db, now, id), db.subs[q], id.key;
      if !Exists(db, id) then o == Outcome(db, Err(NotFound))
      else
        var expiry := db.subs[k].expiresAt;
        var end := (if expiry.Some? && expiry.value > now then expiry.value else now) + 2_592_000_000;
        && o.result == Ok(()) && o.db == db.(subs := o.db.subs) && o.db.subs.Keys == db.subs.Keys
        && o.db.subs[q] == if q == k then was.(expiresAt := Some(end), lastError := None)
                           else if was.derivedFrom != Some(id) then was
                           else if was.expiresAt.Some? && was.expiresAt.value < end then was
                           else was.(expiresAt := Some(end))
  {
    if Exists(db, id) {
      NoRowDerivesFromItself(db, id.key);
      RenewFrame(db, now, id);
      RenewRow(db, now, id, q);
      hide RenewOutcome, Forest;
    }
  }

  lemma RenewFrame(db: Db, now: Time, id: SubId)
    requires Exists(db, id)
    ensures var o := RenewOutcome(db, now, id);
            o.result == Ok(()) && o.db == db.(subs := o.db.subs) && o.db.subs.Keys == db.subs.Keys
  {
    hide RenewalBase, Clamp;
  }

  lemma RenewRow(db: Db, now: Time, id: SubId, q: Key)
    requires Exists(db, id) && q in db.subs && db.subs[id.key].derivedFrom != Some(id)
    ensures var row, was, expiry := RenewOutcome(db, now, id).db.subs[q], db.subs[q], db.subs[id.key].expiresAt;
      var end := (if expiry.Some? && expiry.value > now then expiry.value else now) + 2_592_000_000;
      row == if q == id.key then was.(expiresAt := Some(end), lastError := None)
             else if was.derivedFrom != Some(id) then was
             else if was.expiresAt.Some? && was.expiresAt.value < end then was
             else was.(expiresAt := Some(end))
  {
    var end := Some(RenewalBase(db.subs[id.key], now) + PERIOD);
    assert end.value == (if db.subs[id.key].expiresAt.Some? && db.subs[id.key].expiresAt.value > now
                         then db.subs[id.key].expiresAt.value else now) + 2_592_000_000;
    assert RenewOutcome(db, now, id).db.subs[q] ==
        if q == id.key then db.subs[q].(expiresAt := end, lastError := None)
        else if db.subs[q].derivedFrom == Some(id) then db.subs[q].(expiresAt := Earliest(db.subs[q].expiresAt, end))
        else db.subs[q];
    ClampedRow(db.subs[q], end.value);
    hide RenewOutcome, RenewalBase, Earliest;
  }

  lemma ClampedRow(was: Subscription, end: Time)
    ensures was.(expiresAt := Earliest(was.expiresAt, Some(end))) ==
            if was.expiresAt.Some? && was.expiresAt.value < end then was else was.(expiresAt := Some(end))
  {
  }

  /** Only the owner, and only off REFERENCED services, switches auto-renewal, and only that. */
  lemma SetAutoRenewDecides(db: Db, id: SubId, caller: UserId, autoRenew: bool)
    ensures var o, k := SetAutoRenewOutcome(db, id, caller, autoRenew), id.key;
      if !Exists(db, id) then o == Outcome(db, Err(NotFound))
      else if caller != k.user then o == Outcome(db, Err(Forbidden))
      else if k.service !in db.services || db.services[k.service].accountType == Referenced
      then o == Outcome(db, Err(BadRequest))
      else o == Outcome(db.(subs := db.subs[k := db.subs[k].(autoRenew := autoRenew)]), Ok(()))
  {
  }

  /** How many accounts a subscription has, and how many it may have. */
  ghost predicate IsFull(db: Db, id: SubId) {
    |set a | a in db.accounts && db.accounts[a].subscription == id|
    >= if id.key in db.policies then db.policies[id.key].accountsPerService else 1
  }

  /** Adding an account: the refusals in order, and otherwise exactly one account more. */
  lemma AddAccountDecides(db: Db, now: Time, id: SubId, caller: UserId, provision: Provision)
    ensures var o, k := AddAccountOutcome(db, now, id, caller, provision), id.key;
      if !Exists(db, id) then o == Outcome(db, Err(NotFound))
      else if caller != k.user && !IsAdmin(db, caller) then o == Outcome(db, Err(Forbidden))
      else if !IsRunning(db.subs[k], now) then o == Outcome(db, Err(Conflict))
      else if k.service !in db.services || db.services[k.service].accountType != Managed
      then o == Outcome(db, Err(BadRequest))
      else if IsFull(db, id) then o == Outcome(db, Err(Conflict))
      else if k.user !in db.users then o == Outcome(db, Err(BadRequest))
      else match provision
        case Rejected(error) => o == Outcome(db, Err(error))
        case Broken(_) => o == Outcome(db, Err(Unavailable))
        case Provided(account) =>
          if account.None? then o == Outcome(db, Err(Internal))
          else if account.value.Some? && exists a :: a in db.accounts && db.accounts[a].service == k.service
                                                     && db.accounts[a].externalId == account.value
          then o == Outcome(db, Err(Conflict))
          else o == Outcome(db.(accounts :=
              db.accounts[db.nextAccount := Account(id, k.user, k.service, account.value)],
                                nextAccount := db.nextAccount + 1), Ok(()))
  {
    FullMeansCap(db, id);
    hide IsFull, AccountCap, LinkedAccounts;
    if provision.Provided? && provision.account.Some? {
      ClashMeansHeld(db, Account(id, id.key.user, id.key.service, provision.account.value));
    }
    hide IdClash;
  }

  lemma FullMeansCap(db: Db, id: SubId)
    ensures IsFull(db, id) <==> |LinkedAccounts(db, id)| >= AccountCap(db, id.key)
  {
    assert (set a | a in db.accounts && db.accounts[a].subscription == id) == LinkedAccounts(db, id);
  }

  lemma ClashMeansHeld(db: Db, account: Account)
    ensures IdClash(db.accounts, account, None) <==>
            account.externalId.Some? && exists a :: a in db.accounts && db.accounts[a].service == account.service
                                                    && db.accounts[a].externalId == account.externalId
  {
  }

  /** Deleting an account: the refusals in order, and otherwise exactly that account less. */
  lemma DeleteAccountDecides(db: Db, id: SubId, a: AccountId, caller: UserId, deprovisioned: bool)
    ensures var o, k := DeleteAccountOutcome(db, id, a, caller, deprovisioned), id.key;
      if !Exists(db, id) then o == Outcome(db, Err(NotFound))
      else if caller != k.user && !IsAdmin(db, caller) then o == Outcome(db, Err(Forbidden))
      else if k.service !in db.services || db.services[k.service].accountType != Managed
      then o == Outcome(db, Err(BadRequest))
      else if a !in db.accounts || db.accounts[a].subscription != id then o == Outcome(db, Err(NotFound))
      else if !exists b :: b in db.accounts && b != a && db.accounts[b].subscription == id
      then o == Outcome(db, Err(Conflict))
      else if k.user !in db.users then o == Outcome(db, Err(BadRequest))
      else if !deprovisioned then o == Outcome(db, Err(Unavailable))
      else o == Outcome(db.(accounts := db.accounts - {a}), Ok(()))
  {
    if a in db.accounts && db.accounts[a].subscription == id {
      OnlyOneLinked(db, id, a);
    }
  }

  lemma OnlyOneLinked(db: Db, id: SubId, a: AccountId)
    requires a in db.accounts && db.accounts[a].subscription == id
    ensures |LinkedAccounts(db, id)| <= 1
        <==> !exists b :: b in db.accounts && b != a && db.accounts[b].subscription == id
  {
    var linked := LinkedAccounts(db, id);
    if b :| b in db.accounts && b != a && db.accounts[b].subscription == id {
      assert {a, b} <= linked;
      assert |linked - {a, b}| == |linked| - 2;
    } else {
      assert linked == {a};
    }
  }

  /** An admin's edit: nothing to do and a missing row are refused, the status goes first, and auto-renewal is
      written only after it went through. */
  lemma PatchDecides(db: Db, now: Time, id: SubId, edit: Edit, missing: set<AccountId>, reached: bool)
    ensures var o, k := PatchOutcome(db, now, id, edit, missing, reached), id.key;
      if edit == Edit(None, None) then o == Outcome(db, Err(BadRequest))
      else if !Exists(db, id) then o == Outcome(db, Err(NotFound))
      else
        var first := if edit.enabled == None then Outcome(db, Ok(()))
                     else SetStatusOutcome(db, now, k, edit.enabled.value, missing, reached);
        if first.result.Err? || edit.autoRenew == None then o == first
        else k in first.db.subs
             && o == Outcome(first.db.(subs :=
                 first.db.subs[k := first.db.subs[k].(autoRenew := edit.autoRenew.value)]),
                             Ok(()))
  {
    hide SetStatusOutcome;
  }

  /** Access granted by policy: exactly a REFERENCED service whose source the user holds running is mirrored. */
  lemma ActivateFromPolicyDecides(db: Db, now: Time, user: UserId, service: ServiceId)
    requires service in db.services
    ensures var out, k, source := ActivateFromPolicyOutcome(db, now, user, service), Key(user, service),
        db.services[service].accountSource;
      if db.services[service].accountType == Referenced && source.Some? && Key(user, source.value) in db.subs
         && IsRunning(db.subs[Key(user, source.value)], now)
      then k in out.subs && IsMirror(RowAt(db, k), out.subs[k], db.subs[Key(user, source.value)], now)
           && out == db.(subs := db.subs[k := out.subs[k]], born := out.born)
      else out == db
  {
    if PolicyActivates(db, now, user, service) {
      var out, k := ActivateFromPolicyOutcome(db, now, user, service), Key(user, service);
      assert out.subs == db.subs[k := out.subs[k]];
    }
  }
}
