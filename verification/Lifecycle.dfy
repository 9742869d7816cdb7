/** Bulk and recovery operations (subscriptionLifecycle.service.ts): disabling everything a user has and
    retrying a failed operation on behalf of an admin. */
module Lifecycle {
  import opened Model
  import opened Store
  import opened Cascade
  import opened Subscriptions
  import opened Changes

  // ---------- Disabling everything a user has ----------

  function DisabledForUser(row: Subscription): Subscription {
    row.(status := Disabled, autoRenew := false)
  }

  function DisableAllOutcome(db: Db, user: UserId): Db {
    if user in db.users
    then db.(subs := map q | q in db.subs ::
                       if q.user == user && db.subs[q].status == Active
                       then DisabledForUser(db.subs[q]) else db.subs[q])
    else db
  }

  /** External failures are logged and ignored: every active row of the user is disabled all the same. */
  method DisableAllForUser(store: Database, user: UserId)
    modifies store
    ensures store.View() == DisableAllOutcome(old(store.View()), user)
  {
    ghost var db := store.View();
    if user !in store.users {
      return;
    }
    var rows := store.FindMany((k: Key, row: Subscription) => k.user == user && row.status == Active);
    hide DisabledForUser;
    for i := 0 to |rows|
      invariant store.View() == MapDone(db, rows[..i], DisabledForUser)
    {
      MapDoneNext(db, rows, i, DisabledForUser);
      var _ := store.Update(rows[i], DisabledForUser);
    }
    assert rows[..|rows|] == rows;
    assert MapDone(db, rows, DisabledForUser).subs == DisableAllOutcome(db, user).subs;
  }

  lemma DisableAllKeepsForest(db: Db, user: UserId)
    requires Inv(db)
    ensures Forest(DisableAllOutcome(db, user))
  {
    InvIsForest(db);
    hide Forest, AtRest;
    ShapeKeepsForest(db, DisableAllOutcome(db, user));
  }

  lemma DisableAllRests(db: Db, user: UserId)
    requires Inv(db)
    ensures AtRest(DisableAllOutcome(db, user))
  {
    hide Forest;
  }

  lemma DisableAllKeepsInv(db: Db, user: UserId, now: Time)
    requires Inv(db)
    ensures var out := DisableAllOutcome(db, user);
      && Inv(out)
      && (user in db.users ==> forall q :: q in out.subs && q.user == user ==>
            out.subs[q].status != Active && !ResolveEffectiveEntitlement(out, out.subs[q], now).active)
      && (forall q :: q in out.subs && q.user != user ==> out.subs[q] == db.subs[q])
  {
    DisableAllKeepsForest(db, user);
    DisableAllRests(db, user);
    hide Forest, AtRest;
  }

  // ---------- Retrying a failed operation ----------

  /** How the external side answered: whether it was reached, which linked accounts it still has, and
      whether re-enabling them went through. */
  datatype Answer = Answer(reached: bool, present: set<AccountId>, enabled: bool)

  function RetryGuard(db: Db, k: Key, caller: UserId): Option<Error> {
    if caller !in db.users || !db.users[caller] then Some(BadRequest)
    else if k !in db.subs || db.subs[k].status != Failed then Some(Conflict)
    else if !IsRetryAllowed(db.subs[k]) then Some(BadRequest)
    else if k.user !in db.users || k.service !in db.services then Some(BadRequest)
    else None
  }

  function Cleared(row: Subscription, status: Status, cancelledAt: Option<Time>): Subscription {
    row.(status := status, lastError := None, failedAt := None, failedOperation := None, cancelledAt := cancelledAt)
  }

  function RetryOutcome(db: Db, now: Time, k: Key, caller: UserId, answer: Answer): Outcome {
    var guard := RetryGuard(db, k, caller);
    if guard.Some? then Refuse(db, guard.value)
    else if !answer.reached then Refuse(db, Unavailable)
    else match db.subs[k].failedOperation.value
      case FailedCancellation => Outcome(Remove(db, k), Ok(()))
      case FailedExpiration => Outcome(Put(db, k, Cleared(db.subs[k], Expired, db.subs[k].cancelledAt)), Ok(()))
      case _ =>
        if answer.present * ContextAccounts(db, k) == {} then
          Outcome(Put(db, k, Cleared(db.subs[k], Cancelled, Some(now))), Ok(()))
        else
          Outcome(Put(db, k, Cleared(db.subs[k], Active, db.subs[k].cancelledAt)),
                  if answer.enabled then Ok(()) else Err(Unavailable))
  }

  method RetryFailedOperation(store: Database, now: Time, k: Key, caller: UserId, answer: Answer)
    returns (r: Result<()>)
    modifies store
    ensures Outcome(store.View(), r) == RetryOutcome(old(store.View()), now, k, caller, answer)
  {
    ghost var db := store.View();
    var guard := RetryGuard(store.View(), k, caller);
    if guard.Some? {
      return Err(guard.value);
    }
    if !answer.reached {
      return Err(Unavailable);
    }
    var operation := store.subs[k].failedOperation.value;
    if operation == FailedCancellation {
      r := store.Delete(k);
      return r;
    }
    if operation == FailedExpiration {
      var _ := store.Update(k, (row: Subscription) => Cleared(row, Expired, row.cancelledAt));
      return Ok(());
    }
    var linked := ListSet(ContextAccounts(store.View(), k));
    var present: set<AccountId> := {};
    for i := 0 to |linked|
      invariant present == set a | a in answer.present && a in linked[..i]
    {
      if linked[i] in answer.present {
        present := present + {linked[i]};
      }
    }
    assert linked[..|linked|] == linked;
    assert present == answer.present * ContextAccounts(db, k);
    if present == {} {
      var _ := store.Update(k, (row: Subscription) => Cleared(row, Cancelled, Some(now)));
      return Ok(());
    }
    var _ := store.Update(k, (row: Subscription) => Cleared(row, Active, row.cancelledAt));
    return if answer.enabled then Ok(()) else Err(Unavailable);
  }

  lemma RetryKeepsInv(db: Db, now: Time, k: Key, caller: UserId, answer: Answer)
    requires Inv(db)
    ensures Inv(RetryOutcome(db, now, k, caller, answer).db)
  {
    hide Inv, ContextAccounts;
    if RetryGuard(db, k, caller).None? {
      RemoveKeepsInv(db, k);
      RewriteKeepsInv(db, k, Cleared(db.subs[k], Expired, db.subs[k].cancelledAt));
      RewriteKeepsInv(db, k, Cleared(db.subs[k], Cancelled, Some(now)));
      RewriteKeepsInv(db, k, Cleared(db.subs[k], Active, db.subs[k].cancelledAt));
    }
  }

  /** A retry that succeeds takes the row out of `failed`; one that is refused or does not reach the
      external service changes nothing; and whatever happens, a row still failed can be retried again. */
  lemma RetryResolves(db: Db, now: Time, k: Key, caller: UserId, answer: Answer)
    requires Inv(db)
    ensures var o := RetryOutcome(db, now, k, caller, answer);
      && (o.result.Ok? ==> k !in o.db.subs || (o.db.subs[k].status != Failed && o.db.subs[k].failedOperation.None?))
      && (o.db != db ==> RetryGuard(db, k, caller).None? && answer.reached)
      && (k in o.db.subs && o.db.subs[k].status == Failed ==> o.db == db)
  {
    hide Inv, ContextAccounts, AccountsOf;
  }

  /** Retrying a failed expiration ends the source and nothing else: rows drawn from it stay active in the
      store, and their entitlement is as inactive as it was while the source was failed. */
  lemma RetriedExpirationDoesNotCascade(db: Db, now: Time, k: Key, q: Key, caller: UserId, answer: Answer, at: Time)
    requires Inv(db) && k in db.subs && q in db.subs && IsDerivedFrom(db.subs[q], db.subs[k].id)
    requires db.subs[k].status == Failed && db.subs[k].failedOperation == Some(FailedExpiration)
    requires caller in db.users && db.users[caller] && answer.reached
    ensures var o := RetryOutcome(db, now, k, caller, answer);
      && o.result == Ok(()) && o.db.subs.Keys == db.subs.Keys && o.db.subs[k].status == Expired
      && (forall p :: p in db.subs && p != k ==> o.db.subs[p] == db.subs[p])
      && !ResolveEffectiveEntitlement(db, db.subs[q], at).active
      && !ResolveEffectiveEntitlement(o.db, o.db.subs[q], at).active
  {
    assert RowOk(db, k) && RowOk(db, q);
    DerivedRowsAreLeaves(db, k, q);
  }

  lemma FailedStatusChange(db: Db, now: Time, k: Key, enable: bool, missing: set<AccountId>)
    requires StatusGuard(db, k, enable, now).None?
    ensures var failed := SetStatusOutcome(db, now, k, enable, missing, false).db;
      && failed.users == db.users && failed.services == db.services
      && failed.subs == db.subs[k := failed.subs[k]] && failed.subs[k].id == db.subs[k].id
      && failed.subs[k].status == Failed && failed.subs[k].failedOperation == Some(FailedCancellation)
  {
  }

  /** A failed disabling or enabling is recorded as a failed cancellation, so retrying it cancels: the
      subscription goes, with its accounts and everything derived from it. */
  lemma RetriedStatusChangeCancels(db: Db, now: Time, k: Key, enable: bool, missing: set<AccountId>, later: Time,
                                   caller: UserId, answer: Answer)
    requires Inv(db) && StatusGuard(db, k, enable, now).None?
    requires caller in db.users && db.users[caller] && answer.reached
    ensures var failed := SetStatusOutcome(db, now, k, enable, missing, false).db;
      var o := RetryOutcome(failed, later, k, caller, answer);
      && k in failed.subs && failed.subs[k].status == Failed
      && o.result == Ok(()) && LinkedAccounts(o.db, db.subs[k].id) == {}
      && (forall q :: q in o.db.subs <==> q in db.subs && q != k && !IsDerivedFrom(db.subs[q], db.subs[k].id))
      && (forall q :: q in o.db.subs ==> o.db.subs[q] == db.subs[q])
  {
    FailedStatusChange(db, now, k, enable, missing);
    assert RowOk(db, k);
    hide SetStatusOutcome, Inv, Forest;
  }

  // ---------- What each operation decides and writes, column by column ----------

  /** Exactly the active rows of the user are disabled, and will not renew. */
  lemma DisableAllDecides(db: Db, user: UserId, q: Key)
    requires q in db.subs
    ensures var out, was := DisableAllOutcome(db, user), db.subs[q];
      && out.subs.Keys == db.subs.Keys && out == db.(subs := out.subs)
      && out.subs[q] == if user in db.users && q.user == user && was.status == Active
                        then was.(status := Disabled, autoRenew := false) else was
  {
  }

  /** Some account of a MANAGED subscription is still there. */
  ghost predicate SomePresent(db: Db, k: Key, present: set<AccountId>) {
    && k in db.subs && k.service in db.services && db.services[k.service].accountType == Managed
    && exists a :: a in present && a in db.accounts && db.accounts[a].subscription == db.subs[k].id
  }

  /** The retried row: out of failed, in the given status, every other column kept. */
  ghost predicate IsRetried(was: Subscription, row: Subscription, status: Status, cancelledAt: Option<Time>) {
    row == was.(status := status, cancelledAt := cancelledAt, lastError := None, failedAt := None,
                failedOperation := None)
  }

  /** Retrying: each refusal has its own condition and changes nothing; a cancellation is completed; an expiration
      ends the row; a synchronisation cancels it if no account is left, and revives it otherwise. */
  lemma RetryDecides(db: Db, now: Time, k: Key, caller: UserId, answer: Answer)
    ensures var o := RetryOutcome(db, now, k, caller, answer);
      if !IsAdmin(db, caller) then o == Outcome(db, Err(BadRequest))
      else if k !in db.subs || db.subs[k].status != Failed then o == Outcome(db, Err(Conflict))
      else if db.subs[k].failedOperation == None || db.subs[k].failedOperation == Some(FailedProvisioning)
              || k.user !in db.users || k.service !in db.services
      then o == Outcome(db, Err(BadRequest))
      else if !answer.reached then o == Outcome(db, Err(Unavailable))
      else if db.subs[k].failedOperation == Some(FailedCancellation) then o.result == Ok(()) && OnlyRemoved(db, o.db, k)
      else
        var was := db.subs[k];
        && k in o.db.subs && o.db == db.(subs := db.subs[k := o.db.subs[k]])
        && if was.failedOperation == Some(FailedExpiration)
           then o.result == Ok(()) && IsRetried(was, o.db.subs[k], Expired, was.cancelledAt)
           else if !SomePresent(db, k, answer.present)
           then o.result == Ok(()) && IsRetried(was, o.db.subs[k], Cancelled, Some(now))
           else o.result == (if answer.enabled then Ok(()) else Err(Unavailable))
                && IsRetried(was, o.db.subs[k], Active, was.cancelledAt)
  {
    if k in db.subs {
      RemovesOnly(db, k);
      if k.service in db.services {
        PresentInContext(db, k, answer.present);
      }
    }
    hide Remove, OnlyRemoved, ContextAccounts, SomePresent;
  }

  lemma PresentInContext(db: Db, k: Key, present: set<AccountId>)
    requires k in db.subs && k.service in db.services
    ensures SomePresent(db, k, present) <==> present * ContextAccounts(db, k) != {}
  {
    if a :| a in present && a in ContextAccounts(db, k) {
      assert a in present * ContextAccounts(db, k);
    }
  }
}
