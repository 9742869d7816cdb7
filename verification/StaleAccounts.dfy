/** Deleting stale local records (subscriptionLifecycle.service.ts, cleanupStaleLocalAccounts).

    The sweep of a service walks (subscription, account) pairs loaded beforehand and deletes the
    subscription of every vanished account. A subscription with two vanished accounts is deleted twice;
    the second delete fails and ends the sweep of that service. */
module StaleAccounts {
  import opened Model
  import opened Store
  import opened Cascade
  import opened Subscriptions
  import opened Reconciliation

  // ---------- What a sweep is after ----------

  function StaleOn(db: Db, s: ServiceId, up: Upstream): (stale: set<AccountId>)
    requires Forest(db)
    ensures forall a :: a in stale ==> a in db.accounts
  {
    assert forall a :: a in AccountsOn(db, s) ==> AccountOk(db, a);
    set a | a in AccountsOn(db, s) && db.subs[db.accounts[a].subscription.key].status != Active
            && db.accounts[a].externalId.value !in up.users
  }

  /** Two vanished accounts of one subscription. */
  ghost predicate HasTwins(db: Db, s: ServiceId, up: Upstream)
    requires Forest(db)
  {
    exists a, b :: a in StaleOn(db, s, up) && b in StaleOn(db, s, up) && a != b
      && db.accounts[a].subscription == db.accounts[b].subscription
  }

  /** The rows that go when all of `keys` are deleted, with what hangs off them. */
  predicate Goes(subs: map<Key, Subscription>, keys: set<Key>, q: Key)
    requires q in subs
  {
    q in keys || (subs[q].derivedFrom.Some? && subs[q].derivedFrom.value.key in keys
        && Live(subs, subs[q].derivedFrom.value))
  }

  function RemoveAll(db: Db, keys: set<Key>): Db {
    var subs := map q | q in db.subs && !Goes(db.subs, keys, q) :: db.subs[q];
    db.(subs := subs, accounts := AccountsOf(db.accounts, subs))
  }

  lemma RemoveNone(db: Db)
    requires Forest(db)
    ensures RemoveAll(db, {}) == db
  {
  }

  /** Deleting one more row of a MANAGED service, one level of cascading included. */
  lemma RemoveOneMore(db: Db, keys: set<Key>, k: Key)
    requires Forest(db) && k in db.subs && k !in keys && db.services[k.service].accountType == Managed
    ensures k in RemoveAll(db, keys).subs
    ensures Remove(RemoveAll(db, keys), k) == RemoveAll(db, keys + {k})
  {
    var mid := RemoveAll(db, keys);
    assert RowOk(db, k);
    hide Forest;
    forall q | q in db.subs
      ensures Goes(db.subs, keys + {k}, q)
          <==> Goes(db.subs, keys, q) || q == k || IsDerivedFrom(db.subs[q], db.subs[k].id)
    {
    }
    assert k in mid.subs;
    assert SubsWithout(mid.subs, k) == RemoveAll(db, keys + {k}).subs;
    StillLive(db.accounts, mid.subs, SubsWithout(mid.subs, k));
  }

  /** Accounts go with their subscriptions: pruning in two steps is pruning once. */
  lemma StillLive(accounts: map<AccountId, Account>, more: map<Key, Subscription>, fewer: map<Key, Subscription>)
    requires forall q :: q in fewer ==> q in more && more[q] == fewer[q]
    ensures AccountsOf(AccountsOf(accounts, more), fewer) == AccountsOf(accounts, fewer)
  {
  }

  // ---------- The loop ----------

  function KeysOf(db: Db, accounts: set<AccountId>): set<Key>
    requires forall a :: a in accounts ==> a in db.accounts
  {
    set a | a in accounts :: db.accounts[a].subscription.key
  }

  /** The turn of one pair. */
  method SweepOne(store: Database, before: Db, s: ServiceId, up: Upstream, a: AccountId, ghost removed: set<Key>,
                  ghost seen: set<AccountId>)
    returns (ok: bool)
    requires Forest(before) && s in before.services && before.services[s].accountType == Managed
    requires a in AccountsOn(before, s) && a !in seen && seen <= StaleOn(before, s, up) && SeparateKeys(before, seen)
    requires store.View() == RemoveAll(before, removed + KeysOf(before, seen))
    requires forall k :: k in removed ==> k.service != s
    modifies store
    ensures ok ==> var next := if a in StaleOn(before, s, up) then seen + {a} else seen;
              store.View() == RemoveAll(before, removed + KeysOf(before, next)) && SeparateKeys(before, next)
    ensures !ok ==> HasTwins(before, s, up) && store.View() == old(store.View())
  {
    hide Forest, RemoveAll, Remove, HasTwins;
    LocalHas(before, s, a);
    var account := before.accounts[a];
    var k := account.subscription.key;
    assert a in StaleOn(before, s, up) <==> !(before.subs[k].status == Active || account.externalId.value in up.users);
    if before.subs[k].status == Active || account.externalId.value in up.users {
      return true;
    }
    ghost var gone := removed + KeysOf(before, seen);
    if k in gone {
      SecondDeleteFails(before, gone, k);
      assert k in KeysOf(before, seen);
      var b :| b in seen && before.accounts[b].subscription.key == k;
      TwinsFound(before, s, up, a, b);
    } else {
      RemoveOneMore(before, gone, k);
      assert gone + {k} == removed + KeysOf(before, seen + {a});
    }
    var deleted := store.Delete(k);
    return deleted.Ok?;
  }

  /** The sweep of one service, on top of rows already removed for other services. */
  method SweepService(store: Database, before: Db, s: ServiceId, up: Upstream, ghost removed: set<Key>)
    returns (ok: bool, ghost seen: set<AccountId>)
    requires Forest(before) && s in before.services && before.services[s].accountType == Managed
    requires store.View() == RemoveAll(before, removed) && forall k :: k in removed ==> k.service != s
    modifies store
    ensures seen <= StaleOn(before, s, up) && store.View() == RemoveAll(before, removed + KeysOf(before, seen))
    ensures ok <==> !HasTwins(before, s, up)
    ensures ok ==> seen == StaleOn(before, s, up)
  {
    hide Forest, RemoveAll, StaleOn, HasTwins;
    var rows := ListSet(AccountsOn(before, s));
    seen := {};
    assert removed + KeysOf(before, {}) == removed;
    for i := 0 to |rows|
      invariant seen <= StaleOn(before, s, up) && (forall a :: a in seen ==> a in rows[..i])
      invariant forall a :: a in rows[..i] && a in StaleOn(before, s, up) ==> a in seen
      invariant store.View() == RemoveAll(before, removed + KeysOf(before, seen)) && SeparateKeys(before, seen)
    {
      assert rows[i] !in rows[..i];
      ok := SweepOne(store, before, s, up, rows[i], removed, seen);
      if !ok {
        return;
      }
      seen := if rows[i] in StaleOn(before, s, up) then seen + {rows[i]} else seen;
    }
    ok := true;
    assert rows[..|rows|] == rows;
    StaleIsOn(before, s, up);
    assert seen == StaleOn(before, s, up);
    SeparateMeansNoTwins(before, s, up);
  }

  lemma StaleKeysAreLocal(db: Db, s: ServiceId, up: Upstream, k: Key)
    requires Forest(db) && k in KeysOf(db, StaleOn(db, s, up))
    ensures k.service == s && k in db.subs && db.subs[k].status != Active
  {
  }

  /** The sweep over all services, from one set of loaded pairs. A service whose listing is null is skipped. It
      fails exactly when some listing throws or some service has a subscription with two vanished accounts;
      every other service is swept completely. */
  method CleanupStaleLocalAccounts(store: Database, ups: map<ServiceId, Upstream>, silent: set<ServiceId>,
                                   broken: set<ServiceId>)
    returns (success: bool, ghost removed: set<Key>)
    requires Forest(store.View())
    modifies store
    ensures var db, visited := old(store.View()), Visited(old(store.services), ups.Keys) - silent;
      && store.View() == RemoveAll(db, removed)
      && (success <==> forall s :: s in visited ==> s !in broken && !HasTwins(db, s, ups[s]))
      && (forall k :: k in removed ==>
            k.service in visited - broken && k in KeysOf(db, StaleOn(db, k.service, ups[k.service])))
      && (forall s :: s in visited - broken && !HasTwins(db, s, ups[s]) ==>
          KeysOf(db, StaleOn(db, s, ups[s])) <= removed)
    ensures RootsAreRight(old(store.View()), ups, store.View(), silent, broken)
    ensures RestFollows(old(store.View()), store.View())
    ensures success <==> NoTrouble(old(store.View()), ups, silent, broken)
  {
    hide Forest, RemoveAll, StaleOn, HasTwins;
    var before := store.View();
    var rows := ListSet(Visited(store.services, ups.Keys));
    success, removed := true, {};
    RemoveNone(before);
    for i := 0 to |rows|
      invariant store.View() == RemoveAll(before, removed)
      invariant success <==> forall s :: s in rows[..i] && s !in silent ==> s !in broken && !HasTwins(before, s, ups[s])
      invariant forall k :: k in removed ==>
                  && k.service in rows[..i] && k.service !in silent + broken
                  && k in KeysOf(before, StaleOn(before, k.service, ups[k.service]))
      invariant forall s :: s in rows[..i] && s !in silent + broken && !HasTwins(before, s, ups[s]) ==>
                  KeysOf(before, StaleOn(before, s, ups[s])) <= removed
    {
      var s := rows[i];
      assert s !in rows[..i];
      assert rows[..i + 1] == rows[..i] + [s];
      if s in silent {
        continue;
      }
      if s in broken {
        success := false;
        continue;
      }
      ghost var seen: set<AccountId>;
      var ok: bool;
      ok, seen := SweepService(store, before, s, ups[s], removed);
      forall k | k in KeysOf(before, seen) ensures k.service == s && k in KeysOf(before, StaleOn(before, s, ups[s])) {
        StaleKeysAreLocal(before, s, ups[s], k);
      }
      removed := removed + KeysOf(before, seen);
      success := success && ok;
    }
    assert rows[..|rows|] == rows;
    SweepDecides(before, ups, silent, broken, success, removed);
    hide RootsAreRight, RestFollows, NoTrouble;
  }

  /** No two of these accounts belong to one subscription. */
  ghost predicate SeparateKeys(db: Db, accounts: set<AccountId>)
    requires forall a :: a in accounts ==> a in db.accounts
  {
    forall a, b :: a in accounts && b in accounts && a != b ==>
        db.accounts[a].subscription.key != db.accounts[b].subscription.key
  }

  lemma StaleIsOn(db: Db, s: ServiceId, up: Upstream)
    requires Forest(db)
    ensures StaleOn(db, s, up) <= AccountsOn(db, s)
  {
  }

  lemma SeparateMeansNoTwins(db: Db, s: ServiceId, up: Upstream)
    requires Forest(db) && SeparateKeys(db, StaleOn(db, s, up))
    ensures !HasTwins(db, s, up)
  {
  }

  lemma SecondDeleteFails(db: Db, keys: set<Key>, k: Key)
    requires k in keys
    ensures k !in RemoveAll(db, keys).subs
  {
  }

  lemma TwinsFound(db: Db, s: ServiceId, up: Upstream, a: AccountId, b: AccountId)
    requires Forest(db) && a in StaleOn(db, s, up) && b in StaleOn(db, s, up) && a != b
    requires db.accounts[a].subscription.key == db.accounts[b].subscription.key
    ensures HasTwins(db, s, up)
  {
  }

  // ---------- What a sweep keeps ----------

  lemma RemoveAllKeepsInv(db: Db, keys: set<Key>)
    requires Inv(db)
    ensures Inv(RemoveAll(db, keys))
  {
    var out := RemoveAll(db, keys);
    forall q | q in out.subs ensures RowOk(out, q) {
      assert RowOk(db, q);
      if db.services[q.service].accountType == Referenced {
        var s := SourceKey(db.services, q);
        assert RowOk(db, s);
        assert db.subs[q].derivedFrom.value.key == s;
        assert !Goes(db.subs, keys, s);
      }
    }
    forall a | a in out.accounts ensures AccountOk(out, a) {
      assert AccountOk(db, a);
    }
  }

  /** A sweep takes no standing entitlement away, although it may delete rows that read active: what it
      deletes was not active, or hung off something that was not; all other entitlements are as before. */
  lemma SweepLosesNoEntitlement(db: Db, keys: set<Key>, q: Key, now: Time)
    requires Inv(db) && q in db.subs && forall k :: k in keys ==> k in db.subs && db.subs[k].status != Active
    ensures var out := RemoveAll(db, keys);
      && (q !in out.subs ==> !ResolveEffectiveEntitlement(db, db.subs[q], now).active)
      && (q in out.subs ==>
          ResolveEffectiveEntitlement(out, out.subs[q], now) == ResolveEffectiveEntitlement(db, db.subs[q], now))
  {
  }

  // ---------- What a sweep comes to, column by column ----------

  /** The account of a subscription that is not active, and the service no longer lists it. */
  ghost predicate HasVanished(db: Db, s: ServiceId, up: Upstream, a: AccountId) {
    && a in db.accounts && db.accounts[a].service == s
    && db.accounts[a].externalId.Some? && db.accounts[a].externalId.value !in up.users
    && db.accounts[a].subscription.key in db.subs && db.subs[db.accounts[a].subscription.key].status != Active
  }

  ghost predicate MustGo(db: Db, k: Key, up: Upstream)
    requires k in db.subs
  {
    exists a :: HasVanished(db, k.service, up, a) && db.accounts[a].subscription == db.subs[k].id
  }

  ghost predicate TwoVanished(db: Db, s: ServiceId, up: Upstream) {
    exists a, b :: HasVanished(db, s, up, a) && HasVanished(db, s, up, b) && a != b
                   && db.accounts[a].subscription == db.accounts[b].subscription
  }

  ghost predicate IsListed(services: map<ServiceId, Service>, ups: map<ServiceId, Upstream>, silent: set<ServiceId>,
                           broken: set<ServiceId>, s: ServiceId) {
    IsSynced(services, ups, s) && s !in silent && s !in broken
  }

  /** What a sweep leaves of the subscriptions off REFERENCED services. On an enabled MANAGED service that was listed
      exactly those with a vanished account go, or some of them if one has two; elsewhere none does. */
  ghost predicate RootsAreRight(db: Db, ups: map<ServiceId, Upstream>, out: Db, silent: set<ServiceId>,
                                broken: set<ServiceId>) {
    forall k :: k in db.subs && k.service in db.services && db.services[k.service].accountType != Referenced ==>
      if IsListed(db.services, ups, silent, broken, k.service)
      then (!MustGo(db, k, ups[k.service]) ==> k in out.subs)
           && (MustGo(db, k, ups[k.service]) && !TwoVanished(db, k.service, ups[k.service]) ==> k !in out.subs)
      else k in out.subs
  }

  /** A derived subscription goes with the one it derives from, an account with its subscription, and whatever is
      left is as it was. */
  ghost predicate RestFollows(db: Db, out: Db) {
    && (forall k :: k in out.subs ==> k in db.subs && out.subs[k] == db.subs[k])
    && (forall k :: k in db.subs && db.subs[k].derivedFrom.Some? ==>
          (k in out.subs <==> db.subs[k].derivedFrom.value.key in out.subs))
    && (forall a :: a in out.accounts <==> a in db.accounts && db.accounts[a].subscription.key in out.subs)
    && (forall a :: a in out.accounts ==> out.accounts[a] == db.accounts[a])
    && out == db.(subs := out.subs, accounts := out.accounts)
  }

  ghost predicate NoTrouble(db: Db, ups: map<ServiceId, Upstream>, silent: set<ServiceId>, broken: set<ServiceId>) {
    forall s :: IsSynced(db.services, ups, s) && s !in silent ==> s !in broken && !TwoVanished(db, s, ups[s])
  }

  lemma VanishedDecides(db: Db, s: ServiceId, up: Upstream, a: AccountId)
    requires Forest(db)
    ensures a in StaleOn(db, s, up) <==> HasVanished(db, s, up, a)
  {
    assert a in db.accounts ==> AccountOk(db, a);
  }

  lemma TwinsDecide(db: Db, s: ServiceId, up: Upstream)
    requires Forest(db)
    ensures HasTwins(db, s, up) <==> TwoVanished(db, s, up)
  {
    forall a ensures a in StaleOn(db, s, up) <==> HasVanished(db, s, up, a) {
      VanishedDecides(db, s, up, a);
    }
    hide Forest, StaleOn, HasVanished;
  }

  lemma GoingDecides(db: Db, k: Key, up: Upstream)
    requires Forest(db) && k in db.subs
    ensures k in KeysOf(db, StaleOn(db, k.service, up)) <==> MustGo(db, k, up)
  {
    assert RowOk(db, k);
    forall a | a in db.accounts
      ensures a in StaleOn(db, k.service, up) <==> HasVanished(db, k.service, up, a)
      ensures db.accounts[a].subscription.key == k <==> db.accounts[a].subscription == db.subs[k].id
    {
      VanishedDecides(db, k.service, up, a);
      assert AccountOk(db, a);
    }
    hide Forest, StaleOn, HasVanished;
  }

  /** Roots go when they are removed, and derived rows with the row they derive from. */
  lemma RemovalDecides(db: Db, removed: set<Key>, k: Key)
    requires Forest(db) && k in db.subs
    requires forall q :: q in removed ==> q.service in db.services && db.services[q.service].accountType == Managed
    ensures k.service in db.services
        && (db.services[k.service].accountType != Referenced <==> db.subs[k].derivedFrom.None?)
    ensures db.subs[k].derivedFrom.None? ==> (k in RemoveAll(db, removed).subs <==> k !in removed)
    ensures db.subs[k].derivedFrom.Some? ==>
              db.subs[k].derivedFrom.value.key in db.subs
              && (k in RemoveAll(db, removed).subs <==> db.subs[k].derivedFrom.value.key !in removed)
              && (db.subs[k].derivedFrom.value.key in RemoveAll(db, removed).subs
                  <==> db.subs[k].derivedFrom.value.key !in removed)
  {
    assert RowOk(db, k);
    if db.services[k.service].accountType == Referenced {
      assert RowOk(db, SourceKey(db.services, k));
    }
  }

  lemma AccountsFollow(db: Db, removed: set<Key>)
    requires Forest(db)
    ensures var out := RemoveAll(db, removed);
      && (forall k :: k in out.subs ==> k in db.subs && out.subs[k] == db.subs[k])
      && (forall a :: a in out.accounts <==> a in db.accounts && db.accounts[a].subscription.key in out.subs)
      && (forall a :: a in out.accounts ==> out.accounts[a] == db.accounts[a])
      && out == db.(subs := out.subs, accounts := out.accounts)
  {
    var out := RemoveAll(db, removed);
    forall a | a in db.accounts
      ensures a in out.accounts <==> db.accounts[a].subscription.key in out.subs
    {
      assert AccountOk(db, a);
    }
  }

  /** Which rows a sweep over the services in `listed` removes. */
  ghost predicate RemovesFrom(db: Db, ups: map<ServiceId, Upstream>, listed: set<ServiceId>, removed: set<Key>)
    requires Forest(db)
  {
    && (forall s :: s in listed ==> s in ups && s in db.services && db.services[s].accountType == Managed)
    && (forall k :: k in removed ==>
          k.service in listed && k in KeysOf(db, StaleOn(db, k.service, ups[k.service])))
    && (forall s :: s in listed && !HasTwins(db, s, ups[s]) ==> KeysOf(db, StaleOn(db, s, ups[s])) <= removed)
  }

  lemma RootDecides(db: Db, ups: map<ServiceId, Upstream>, listed: set<ServiceId>, removed: set<Key>, k: Key)
    requires Forest(db) && RemovesFrom(db, ups, listed, removed)
    requires k in db.subs && k.service in db.services && db.services[k.service].accountType != Referenced
    ensures k.service !in listed ==> k in RemoveAll(db, removed).subs
    ensures k.service in listed ==>
              && (!MustGo(db, k, ups[k.service]) ==> k in RemoveAll(db, removed).subs)
              && (MustGo(db, k, ups[k.service]) && !TwoVanished(db, k.service, ups[k.service]) ==>
                    k !in RemoveAll(db, removed).subs)
  {
    hide Forest, RemoveAll, StaleOn, KeysOf, HasTwins, TwoVanished, MustGo;
    RemovalDecides(db, removed, k);
    if k.service in listed {
      GoingDecides(db, k, ups[k.service]);
      TwinsDecide(db, k.service, ups[k.service]);
    }
  }

  lemma SweepDecides(db: Db, ups: map<ServiceId, Upstream>, silent: set<ServiceId>, broken: set<ServiceId>,
                     success: bool, removed: set<Key>)
    requires Forest(db)
    requires var visited := Visited(db.services, ups.Keys) - silent;
      && (success <==> forall s :: s in visited ==> s !in broken && !HasTwins(db, s, ups[s]))
      && (forall k :: k in removed ==>
            k.service in visited - broken && k in KeysOf(db, StaleOn(db, k.service, ups[k.service])))
      && (forall s :: s in visited - broken && !HasTwins(db, s, ups[s]) ==>
          KeysOf(db, StaleOn(db, s, ups[s])) <= removed)
    ensures RootsAreRight(db, ups, RemoveAll(db, removed), silent, broken)
    ensures RestFollows(db, RemoveAll(db, removed))
    ensures success <==> NoTrouble(db, ups, silent, broken)
  {
    var visited := Visited(db.services, ups.Keys) - silent;
    var listed := visited - broken;
    assert forall s :: s in Visited(db.services, ups.Keys) <==> IsSynced(db.services, ups, s);
    assert RemovesFrom(db, ups, listed, removed) by {
      hide Forest, StaleOn, KeysOf, HasTwins;
    }
    hide Visited, RemovesFrom, StaleOn, KeysOf, Forest;
    TroubleDecides(db, ups, silent, broken, visited);
    RootsComeRight(db, ups, silent, broken, listed, removed);
    DerivedFollow(db, ups, listed, removed);
    hide RemoveAll, RootsAreRight, RestFollows;
  }

  lemma TroubleDecides(db: Db, ups: map<ServiceId, Upstream>, silent: set<ServiceId>, broken: set<ServiceId>,
                       visited: set<ServiceId>)
    requires Forest(db) && visited <= ups.Keys
    requires forall s :: s in visited <==> IsSynced(db.services, ups, s) && s !in silent
    ensures (forall s :: s in visited ==> s !in broken && !HasTwins(db, s, ups[s]))
        <==> NoTrouble(db, ups, silent, broken)
  {
    forall s | s in visited ensures s in ups && (HasTwins(db, s, ups[s]) <==> TwoVanished(db, s, ups[s])) {
      TwinsDecide(db, s, ups[s]);
    }
    hide Forest, HasTwins, TwoVanished;
  }

  lemma RootsComeRight(db: Db, ups: map<ServiceId, Upstream>, silent: set<ServiceId>, broken: set<ServiceId>,
                       listed: set<ServiceId>, removed: set<Key>)
    requires Forest(db) && RemovesFrom(db, ups, listed, removed)
    requires forall s :: s in listed <==> IsSynced(db.services, ups, s) && s !in silent && s !in broken
    ensures RootsAreRight(db, ups, RemoveAll(db, removed), silent, broken)
  {
    var out := RemoveAll(db, removed);
    hide Forest, RemoveAll, RemovesFrom, TwoVanished, MustGo;
    forall k | k in db.subs && k.service in db.services && db.services[k.service].accountType != Referenced
      ensures if IsListed(db.services, ups, silent, broken, k.service)
              then (!MustGo(db, k, ups[k.service]) ==> k in out.subs)
                   && (MustGo(db, k, ups[k.service]) && !TwoVanished(db, k.service, ups[k.service]) ==> k !in out.subs)
              else k in out.subs
    {
      RootDecides(db, ups, listed, removed, k);
    }
  }

  lemma DerivedFollow(db: Db, ups: map<ServiceId, Upstream>, listed: set<ServiceId>, removed: set<Key>)
    requires Forest(db) && RemovesFrom(db, ups, listed, removed)
    ensures RestFollows(db, RemoveAll(db, removed))
  {
    assert forall q :: q in removed ==> q.service in db.services && db.services[q.service].accountType == Managed;
    hide Forest, RemoveAll, RemovesFrom;
    forall k | k in db.subs && db.subs[k].derivedFrom.Some?
      ensures k in RemoveAll(db, removed).subs <==> db.subs[k].derivedFrom.value.key in RemoveAll(db, removed).subs
    {
      RemovalDecides(db, removed, k);
    }
    AccountsFollow(db, removed);
  }
}
