/** Reconciling local records with the external services (subscriptionLifecycle.service.ts,
    syncIntegrationAccounts).

    An external service is what `getAllUsers` reports: a map from account id to status. A run corrects the
    external side from local state, then flags local records whose external account has vanished. Both passes
    work from what was loaded before either began. A call may throw, which ends the turn of its service, or
    answer that it failed, which nobody looks at. */
module Reconciliation {
  import opened Model
  import opened Store
  import opened Expiration
  import opened Subscriptions

  datatype ExternalUser = ExternalUser(isActive: bool, isAdmin: bool)

  /** `keepsDeleted` says that the service goes on listing a deleted account, as an inactive one. */
  datatype Upstream = Upstream(users: map<string, ExternalUser>, keepsDeleted: bool)

  const NOT_FOUND: string := "External account not found during sync"

  // ---------- One run as functions ----------

  /** The accounts HomeGate knows on a service. */
  function AccountsOn(db: Db, s: ServiceId): set<AccountId> {
    set a | a in db.accounts && db.accounts[a].service == s && db.accounts[a].externalId.Some?
  }

  /** Each known external id of a service, with whether the subscription owning it is active. */
  function Local(db: Db, s: ServiceId): map<string, bool>
    requires Forest(db)
  {
    assert forall a :: a in AccountsOn(db, s) ==> AccountOk(db, a);
    map a | a in AccountsOn(db, s) ::
        db.accounts[a].externalId.value := db.subs[db.accounts[a].subscription.key].status == Active
  }

  /** Does this external account have to be deleted, enabled or disabled? */
  predicate NeedsCall(local: map<string, bool>, id: string, user: ExternalUser) {
    if id in local then local[id] != user.isActive else !user.isAdmin
  }

  /** The ids a run calls the external service about: none at all if nothing is linked. */
  function Touched(local: map<string, bool>, up: Upstream): set<string> {
    if local == map[] then {} else set id | id in up.users && NeedsCall(local, id, up.users[id])
  }

  /** Deleted before, and still listed. */
  predicate IsGhost(local: map<string, bool>, up: Upstream, id: string)
    requires id in up.users
  {
    up.keepsDeleted && id !in local && !up.users[id].isAdmin && !up.users[id].isActive
  }

  /** The ids among them whose call changes something: deleting a ghost again does not. */
  function Moved(local: map<string, bool>, up: Upstream): set<string> {
    set id | id in Touched(local, up) && !IsGhost(local, up, id)
  }

  /** An account as a run wants it, if it is to be listed at all. */
  function Fixed(local: map<string, bool>, id: string, user: ExternalUser): ExternalUser {
    if id in local then user.(isActive := local[id]) else if user.isAdmin then user else user.(isActive := false)
  }

  predicate StaysListed(local: map<string, bool>, up: Upstream, id: string)
    requires id in up.users
  {
    up.keepsDeleted || id in local || up.users[id].isAdmin
  }

  /** The external side after correcting the accounts in `done`. */
  function CorrectedOn(local: map<string, bool>, up: Upstream, done: set<string>): Upstream {
    up.(users := map id | id in up.users && (id in done ==> StaysListed(local, up, id)) ::
                   if id in done then Fixed(local, id, up.users[id]) else up.users[id])
  }

  function Corrected(local: map<string, bool>, up: Upstream): Upstream {
    if local == map[] then up else CorrectedOn(local, up, up.users.Keys)
  }

  /** As a run leaves it when the calls about `refused` answer that they failed. */
  function CorrectedBut(local: map<string, bool>, up: Upstream, refused: set<string>): Upstream {
    if local == map[] then up else CorrectedOn(local, up, up.users.Keys - refused)
  }

  /** The subscription has a linked account that the external service no longer has. */
  predicate LostAccount(db: Db, k: Key, up: Upstream)
    requires k in db.subs
  {
    exists a :: a in AccountsOn(db, k.service) && db.accounts[a].subscription == db.subs[k].id
      && db.accounts[a].externalId.value !in up.users
  }

  predicate KeptAccount(db: Db, k: Key, up: Upstream)
    requires k in db.subs
  {
    exists a :: a in AccountsOn(db, k.service) && db.accounts[a].subscription == db.subs[k].id
      && db.accounts[a].externalId.value in up.users
  }

  /** The active subscriptions a run marks as failed. */
  function Vanished(db: Db, ups: map<ServiceId, Upstream>, ready: set<ServiceId>): (keys: set<Key>)
    ensures forall k :: k in keys <==>
      k in db.subs && db.subs[k].status == Active && k.service in ready && k.service in ups
          && LostAccount(db, k, ups[k.service])
  {
    set k | k in db.subs && db.subs[k].status == Active && k.service in ready && k.service in ups
        && LostAccount(db, k, ups[k.service])
  }

  function FailAll(db: Db, keys: set<Key>, now: Time): Db {
    db.(subs := map q | q in db.subs :: if q in keys then Failing(db.subs[q], FailedSync, NOT_FOUND, now)
        else db.subs[q])
  }

  function CorrectedAll(db: Db, ups: map<ServiceId, Upstream>, ready: set<ServiceId>): map<ServiceId, Upstream>
    requires Forest(db)
  {
    map s | s in ups :: if s in ready then Corrected(Local(db, s), ups[s]) else ups[s]
  }

  datatype World = World(db: Db, ups: map<ServiceId, Upstream>)

  /** One run in which every call to the services in `ready` succeeds and the others are skipped. */
  function Sync(w: World, ready: set<ServiceId>, now: Time): World
    requires Forest(w.db)
  {
    World(FailAll(w.db, Vanished(w.db, w.ups, ready), now), CorrectedAll(w.db, w.ups, ready))
  }

  /** The run calls no provider and writes no row. */
  ghost predicate Quiet(w: World, ready: set<ServiceId>)
    requires Forest(w.db)
  {
    && Vanished(w.db, w.ups, ready) == {}
    && forall s :: s in ready && s in w.ups ==> Touched(Local(w.db, s), w.ups[s]) == {}
  }

  /** The run writes no row, and no call it makes changes anything. */
  ghost predicate Settled(w: World, ready: set<ServiceId>)
    requires Forest(w.db)
  {
    && Vanished(w.db, w.ups, ready) == {}
    && forall s :: s in ready && s in w.ups ==> Moved(Local(w.db, s), w.ups[s]) == {}
  }

  /** Deleted accounts that some ready service goes on listing. */
  ghost predicate HasGhosts(w: World, ready: set<ServiceId>)
    requires Forest(w.db)
  {
    exists s :: s in ready && s in w.ups && Local(w.db, s) != map[] && ListsGhost(Local(w.db, s), w.ups[s])
  }

  ghost predicate ListsGhost(local: map<string, bool>, up: Upstream) {
    exists id :: id in up.users && IsGhost(local, up, id)
  }

  // ---------- What one run achieves ----------

  lemma FailAllKeepsInv(db: Db, keys: set<Key>, now: Time)
    requires Inv(db)
    ensures Inv(FailAll(db, keys, now))
  {
    ShapeKeepsForest(db, FailAll(db, keys, now));
  }

  lemma LocalHas(db: Db, s: ServiceId, a: AccountId)
    requires Forest(db) && a in AccountsOn(db, s)
    ensures a in db.accounts && db.accounts[a].externalId.Some?
    ensures db.accounts[a].subscription.key in db.subs && db.accounts[a].subscription.key.service == s
    ensures db.subs[db.accounts[a].subscription.key].id == db.accounts[a].subscription
    ensures db.accounts[a].externalId.value in Local(db, s)
    ensures Local(db, s)[db.accounts[a].externalId.value] == (db.subs[db.accounts[a].subscription.key].status == Active)
  {
  }

  lemma LocalComesFrom(db: Db, s: ServiceId, id: string) returns (a: AccountId)
    requires Forest(db) && id in Local(db, s)
    ensures a in AccountsOn(db, s) && db.accounts[a].externalId == Some(id)
  {
    a :| a in AccountsOn(db, s) && db.accounts[a].externalId.value == id;
  }

  /** After a run, every external account of a ready service that is not an admin is linked, every linked
      one mirrors the status loaded for it, and every active subscription still has all its accounts. */
  lemma SyncAligns(w: World, ready: set<ServiceId>, now: Time, s: ServiceId)
    requires Inv(w.db) && s in ready && s in w.ups && Local(w.db, s) != map[]
    ensures var after := Sync(w, ready, now);
      && Inv(after.db)
      && (forall id :: id in after.ups[s].users ==>
            id in w.ups[s].users
            && (id in Local(w.db, s) || after.ups[s].users[id].isAdmin || IsGhost(Local(w.db, s), after.ups[s], id)))
      && (forall id :: id in Local(w.db, s) && id in w.ups[s].users ==>
            id in after.ups[s].users && after.ups[s].users[id].isActive == Local(w.db, s)[id])
      && (forall k :: k in after.db.subs && k.service == s && after.db.subs[k].status == Active ==>
            !LostAccount(after.db, k, after.ups[s]))
  {
    var after := Sync(w, ready, now);
    FailAllKeepsInv(w.db, Vanished(w.db, w.ups, ready), now);
    forall k | k in after.db.subs && k.service == s && after.db.subs[k].status == Active
      ensures !LostAccount(after.db, k, after.ups[s])
    {
      ActiveKeepsAccounts(w, ready, now, k);
    }
  }

  /** A row still active after a run kept every account it had. */
  lemma ActiveKeepsAccounts(w: World, ready: set<ServiceId>, now: Time, k: Key)
    requires Forest(w.db) && k in w.db.subs && k.service in ready && k.service in w.ups
    requires Sync(w, ready, now).db.subs[k].status == Active
    ensures w.db.subs[k].status == Active && k !in Vanished(w.db, w.ups, ready)
    ensures !LostAccount(Sync(w, ready, now).db, k, Sync(w, ready, now).ups[k.service])
  {
    var after := Sync(w, ready, now);
    assert !LostAccount(w.db, k, w.ups[k.service]);
    assert AccountsOn(after.db, k.service) == AccountsOn(w.db, k.service);
    forall a | a in AccountsOn(w.db, k.service) && w.db.accounts[a].subscription == w.db.subs[k].id
      ensures w.db.accounts[a].externalId.value in after.ups[k.service].users
    {
      LocalHas(w.db, k.service, a);
    }
  }

  // ---------- Convergence ----------

  /** Marking rows failed changes what is active, not what is linked. */
  lemma LocalAfter(w: World, ready: set<ServiceId>, now: Time, s: ServiceId, a: AccountId)
    requires Forest(w.db) && Forest(Sync(w, ready, now).db) && a in AccountsOn(w.db, s)
    ensures var before, after, id := Local(w.db, s), Local(Sync(w, ready, now).db, s),
        w.db.accounts[a].externalId.value;
      && id in before && id in after
      && after[id] == (before[id] && w.db.accounts[a].subscription.key !in Vanished(w.db, w.ups, ready))
  {
    var db1 := Sync(w, ready, now).db;
    SyncKeepsAccounts(w, ready, now, s);
    hide Forest, Local, Vanished;
    LocalHas(w.db, s, a);
    LocalHas(db1, s, a);
  }

  lemma SyncKeepsAccounts(w: World, ready: set<ServiceId>, now: Time, s: ServiceId)
    requires Forest(w.db)
    ensures AccountsOn(Sync(w, ready, now).db, s) == AccountsOn(w.db, s)
  {
  }

  lemma LocalKeysAfter(w: World, ready: set<ServiceId>, now: Time, s: ServiceId)
    requires Forest(w.db) && Forest(Sync(w, ready, now).db)
    ensures Local(Sync(w, ready, now).db, s).Keys == Local(w.db, s).Keys
  {
  }

  /** The second run writes no local row: what is still active kept its accounts. */
  lemma SecondRunWritesNothing(w: World, ready: set<ServiceId>, now: Time)
    requires Inv(w.db)
    ensures var one := Sync(w, ready, now);
            Inv(one.db) && Vanished(one.db, one.ups, ready) == {}
  {
    var one := Sync(w, ready, now);
    FailAllKeepsInv(w.db, Vanished(w.db, w.ups, ready), now);
    forall k | k in one.db.subs && one.db.subs[k].status == Active && k.service in ready && k.service in one.ups
      ensures !LostAccount(one.db, k, one.ups[k.service])
    {
      ActiveKeepsAccounts(w, ready, now, k);
    }
  }

  lemma FailNone(db: Db, now: Time)
    ensures FailAll(db, {}, now) == db
  {
  }

  lemma CorrectingIsIdempotent(local: map<string, bool>, up: Upstream)
    ensures Moved(local, Corrected(local, up)) == {}
    ensures Moved(local, up) == {} <==> Corrected(local, up) == up
  {
    if local != map[] {
      CorrectedWhereMoved(local, up, up.users.Keys);
      assert CorrectedOn(local, up, {}).users == up.users;
      forall id | id in Corrected(local, up).users
        ensures NeedsCall(local, id, Corrected(local, up).users[id]) ==> IsGhost(local, Corrected(local, up), id)
      {
      }
    }
  }

  /** Correcting some accounts differs from leaving them exactly at those whose call changes something. */
  lemma CorrectedWhereMoved(local: map<string, bool>, up: Upstream, done: set<string>)
    requires local != map[]
    ensures CorrectedOn(local, up, done) == up <==> Moved(local, up) !! done
  {
    var out := CorrectedOn(local, up, done);
    forall id | id in up.users && id in done
      ensures id in Moved(local, up) <==> !(id in out.users && out.users[id] == up.users[id])
    {
      MovedMeans(local, up, id);
    }
    if Moved(local, up) !! done {
      assert out.users == up.users;
    }
    if out == up {
      forall id | id in Moved(local, up) ensures id !in done {
        assert id in up.users;
      }
    }
  }

  lemma MovedMeans(local: map<string, bool>, up: Upstream, id: string)
    requires local != map[] && id in up.users
    ensures id in Moved(local, up) <==> !(StaysListed(local, up, id) && Fixed(local, id, up.users[id]) == up.users[id])
  {
  }

  /** Calls that answer that they failed leave the run short of its goal exactly when one of them would have
      changed something. */
  lemma RefusalsCount(local: map<string, bool>, up: Upstream, refused: set<string>)
    ensures CorrectedBut(local, up, refused) == Corrected(local, up) <==> Moved(local, up) !! refused
  {
    if local != map[] {
      hide Fixed, StaysListed;
      var all, but := Corrected(local, up), CorrectedBut(local, up, refused);
      forall id | id in up.users ensures At(all, id) == At(but, id) <==> !(id in Moved(local, up) && id in refused) {
        MovedMeans(local, up, id);
      }
      if Moved(local, up) !! refused {
        SameEverywhere(all, but, up);
      }
      if all == but {
        forall id | id in Moved(local, up) ensures id !in refused {
          assert id in up.users;
        }
      }
    }
  }

  /** What a service lists under this id. */
  function At(up: Upstream, id: string): Option<ExternalUser> {
    if id in up.users then Some(up.users[id]) else None
  }

  lemma SameEverywhere(a: Upstream, b: Upstream, up: Upstream)
    requires a.users.Keys <= up.users.Keys && b.users.Keys <= up.users.Keys && a.keepsDeleted == b.keepsDeleted
    requires forall id :: id in up.users ==> At(a, id) == At(b, id)
    ensures a == b
  {
    forall id ensures id in a.users <==> id in b.users {
      assert id in up.users ==> At(a, id) == At(b, id);
    }
    forall id | id in a.users ensures a.users[id] == b.users[id] {
      assert At(a, id) == At(b, id);
    }
    assert a.users == b.users;
  }

  /** A settled run leaves the world as it is. */
  lemma SettledRunChangesNothing(w: World, ready: set<ServiceId>, now: Time)
    requires Forest(w.db) && Settled(w, ready)
    ensures Sync(w, ready, now) == w
  {
    FailNone(w.db, now);
    forall s | s in ready && s in w.ups ensures Corrected(Local(w.db, s), w.ups[s]) == w.ups[s] {
      CorrectingIsIdempotent(Local(w.db, s), w.ups[s]);
    }
    assert CorrectedAll(w.db, w.ups, ready) == w.ups;
  }

  /** A settled run still calls about ghosts, and about nothing else. */
  lemma QuietIffNoGhosts(w: World, ready: set<ServiceId>)
    requires Forest(w.db) && Settled(w, ready)
    ensures Quiet(w, ready) <==> !HasGhosts(w, ready)
  {
    hide Forest, Local, Vanished;
    forall s | s in ready && s in w.ups
      ensures Touched(Local(w.db, s), w.ups[s]) == {}
          <==> !(Local(w.db, s) != map[] && ListsGhost(Local(w.db, s), w.ups[s]))
    {
      OnlyGhostsTouched(Local(w.db, s), w.ups[s]);
    }
  }

  lemma OnlyGhostsTouched(local: map<string, bool>, up: Upstream)
    requires Moved(local, up) == {}
    ensures Touched(local, up) == {} <==> !(local != map[] && ListsGhost(local, up))
  {
    if local != map[] {
      forall id | id in up.users ensures id in Touched(local, up) <==> IsGhost(local, up, id) {
        assert id !in Moved(local, up);
      }
    }
  }

  /** Two runs are enough: a third changes nothing on either side, whatever the two began with. It calls about
      deleted accounts that are still listed and no others, so where services drop deleted accounts from
      their lists it makes no call at all. */
  lemma TwoRunsConverge(w: World, ready: set<ServiceId>, t1: Time, t2: Time, t3: Time)
    requires Inv(w.db)
    ensures Inv(Sync(w, ready, t1).db)
    ensures var two := Sync(Sync(w, ready, t1), ready, t2);
      && Inv(two.db) && Settled(two, ready) && Sync(two, ready, t3) == two
      && (Quiet(two, ready) <==> !HasGhosts(two, ready))
      && ((forall s :: s in ready && s in w.ups ==> !w.ups[s].keepsDeleted) ==> Quiet(two, ready))
  {
    var one := Sync(w, ready, t1);
    SecondRunWritesNothing(w, ready, t1);
    var two := Sync(one, ready, t2);
    FailNone(one.db, t2);
    SecondRunWritesNothing(one, ready, t2);
    forall s | s in ready && s in two.ups ensures Moved(Local(two.db, s), two.ups[s]) == {} {
      CorrectingIsIdempotent(Local(one.db, s), one.ups[s]);
    }
    SettledRunChangesNothing(two, ready, t3);
    QuietIffNoGhosts(two, ready);
    SyncKeepsServices(w, ready, t1);
    SyncKeepsServices(one, ready, t2);
    if forall s :: s in ready && s in w.ups ==> !w.ups[s].keepsDeleted {
      forall s | s in ready && s in two.ups ensures !ListsGhost(Local(two.db, s), two.ups[s]) {
        assert two.ups[s].keepsDeleted == w.ups[s].keepsDeleted;
      }
    }
  }

  /** Some active subscription lost one of its accounts upstream while another is still there. */
  ghost predicate Torn(w: World, ready: set<ServiceId>) {
    exists k :: k in Vanished(w.db, w.ups, ready) && KeptAccount(w.db, k, w.ups[k.service])
  }

  /** One run is enough exactly when no subscription is torn: the surviving account of a torn one is enabled
      by the run that fails the subscription, and has to be disabled by the next. */
  lemma OneRunConvergesUnlessTorn(w: World, ready: set<ServiceId>, now: Time)
    requires Inv(w.db)
    ensures Inv(Sync(w, ready, now).db)
    ensures Settled(Sync(w, ready, now), ready) <==> !Torn(w, ready)
  {
    hide Inv, Forest, Local, Vanished, Sync, Moved, KeptAccount;
    SecondRunWritesNothing(w, ready, now);
    InvIsForest(w.db);
    InvIsForest(Sync(w, ready, now).db);
    SyncKeepsServices(w, ready, now);
    if Torn(w, ready) {
      var k :| k in Vanished(w.db, w.ups, ready) && KeptAccount(w.db, k, w.ups[k.service]);
      TornIsNotSettled(w, ready, now, k);
    } else {
      forall s | s in ready && s in w.ups
        ensures Moved(Local(Sync(w, ready, now).db, s), Sync(w, ready, now).ups[s]) == {}
      {
        UntornIsCorrected(w, ready, now, s);
      }
    }
  }

  lemma SyncKeepsServices(w: World, ready: set<ServiceId>, now: Time)
    requires Forest(w.db)
    ensures Sync(w, ready, now).ups.Keys == w.ups.Keys
    ensures forall s :: s in w.ups && s in ready ==> Sync(w, ready, now).ups[s] == Corrected(Local(w.db, s), w.ups[s])
    ensures forall s :: s in w.ups ==> Sync(w, ready, now).ups[s].keepsDeleted == w.ups[s].keepsDeleted
  {
  }

  lemma TornIsNotSettled(w: World, ready: set<ServiceId>, now: Time, k: Key)
    requires Forest(w.db) && Forest(Sync(w, ready, now).db)
    requires k in Vanished(w.db, w.ups, ready) && KeptAccount(w.db, k, w.ups[k.service])
    ensures Moved(Local(Sync(w, ready, now).db, k.service), Sync(w, ready, now).ups[k.service]) != {}
  {
    hide Forest, Local, Vanished, Sync, AccountsOn, KeptAccount, LostAccount;
    var s := k.service;
    var a := KeptWitness(w.db, k, w.ups[s]);
    SyncKeepsServices(w, ready, now);
    LocalAfter(w, ready, now, s, a);
    LocalHas(w.db, s, a);
    assert w.db.accounts[a].externalId.value in Moved(Local(Sync(w, ready, now).db, s), Sync(w, ready, now).ups[s]);
  }

  lemma KeptWitness(db: Db, k: Key, up: Upstream) returns (a: AccountId)
    requires Forest(db) && k in db.subs && KeptAccount(db, k, up)
    ensures a in AccountsOn(db, k.service) && db.accounts[a].subscription.key == k
        && db.accounts[a].externalId.value in up.users
  {
    RowKey(db, k);
    a :| a in AccountsOn(db, k.service) && db.accounts[a].subscription == db.subs[k].id
        && db.accounts[a].externalId.value in up.users;
  }

  lemma RowKey(db: Db, k: Key)
    requires Forest(db) && k in db.subs
    ensures db.subs[k].id.key == k
  {
  }

  lemma UntornIsCorrected(w: World, ready: set<ServiceId>, now: Time, s: ServiceId)
    requires Forest(w.db) && Forest(Sync(w, ready, now).db) && s in ready && s in w.ups && !Torn(w, ready)
    ensures Moved(Local(Sync(w, ready, now).db, s), Sync(w, ready, now).ups[s]) == {}
  {
    hide Forest, Local, Vanished, Sync, AccountsOn;
    var before, after := Local(w.db, s), Local(Sync(w, ready, now).db, s);
    LocalKeysAfter(w, ready, now, s);
    SyncKeepsServices(w, ready, now);
    if before != map[] {
      forall id | id in w.ups[s].users && id in before ensures after[id] == before[id] {
        var a := LocalComesFrom(w.db, s, id);
        LocalHas(w.db, s, a);
        LocalAfter(w, ready, now, s, a);
        var k := w.db.accounts[a].subscription.key;
        assert KeptAccount(w.db, k, w.ups[s]);
      }
    } else {
      assert after == map[];
    }
  }

  /** With no linked record on a service, a run changes nothing there, however many accounts it has. */
  lemma NothingLinkedNothingChanged(w: World, ready: set<ServiceId>, now: Time, s: ServiceId)
    requires Forest(w.db) && s in w.ups && Local(w.db, s) == map[]
    ensures Sync(w, ready, now).ups[s] == w.ups[s]
    ensures forall k :: k in w.db.subs && k.service == s ==> Sync(w, ready, now).db.subs[k] == w.db.subs[k]
  {
    hide Forest, Local, Vanished, LostAccount;
    forall k | k in w.db.subs && k.service == s ensures k !in Vanished(w.db, w.ups, ready) {
      UnlinkedIsNotLost(w.db, k, w.ups[s]);
    }
  }

  lemma UnlinkedIsNotLost(db: Db, k: Key, up: Upstream)
    requires Forest(db) && k in db.subs && Local(db, k.service) == map[]
    ensures !LostAccount(db, k, up)
  {
    hide Forest, Local;
    forall a | a in AccountsOn(db, k.service) ensures false {
      LocalHas(db, k.service, a);
    }
  }

  // ---------- The loops ----------

  /** How the calls to a service fare, by account: some answer that they failed, some throw. */
  datatype Trouble = Trouble(refused: set<string>, thrown: set<string>)

  function TroubleOf(troubles: map<ServiceId, Trouble>, s: ServiceId): Trouble {
    if s in troubles then troubles[s] else Trouble({}, {})
  }

  /** The external services. */
  class External {
    var ups: map<ServiceId, Upstream>

    constructor (ups: map<ServiceId, Upstream>)
      ensures this.ups == ups
    {
      this.ups := ups;
    }

    /** Sends a deleteUser, enableUser or disableUser. It may throw, or answer false; either changes nothing. */
    method Call(s: ServiceId, id: string, after: Upstream, trouble: Trouble) returns (threw: bool, answer: bool)
      requires s in ups
      modifies this
      ensures threw <==> id in trouble.thrown
      ensures answer <==> id !in trouble.thrown + trouble.refused
      ensures ups == if answer then old(ups)[s := after] else old(ups)
    {
      if id in trouble.thrown {
        return true, false;
      }
      if id in trouble.refused {
        return false, false;
      }
      ups := ups[s := after];
      return false, true;
    }

    method DeleteUser(s: ServiceId, id: string, trouble: Trouble) returns (threw: bool, answer: bool)
      requires s in ups && id in ups[s].users
      modifies this
      ensures threw <==> id in trouble.thrown
      ensures answer <==> id !in trouble.thrown + trouble.refused
      ensures ups == if !answer then old(ups) else
                     old(ups)[s := if old(ups)[s].keepsDeleted
                                   then old(ups)[s].(users :=
                                       old(ups)[s].users[id := old(ups)[s].users[id].(isActive := false)])
                                   else old(ups)[s].(users := old(ups)[s].users - {id})]
    {
      var up := ups[s];
      var after := if up.keepsDeleted then up.(users := up.users[id := up.users[id].(isActive := false)])
                   else up.(users := up.users - {id});
      threw, answer := Call(s, id, after, trouble);
    }

    /** enableUser and disableUser. */
    method SetUserActive(s: ServiceId, id: string, isActive: bool, trouble: Trouble) returns (threw: bool, answer: bool)
      requires s in ups && id in ups[s].users
      modifies this
      ensures threw <==> id in trouble.thrown
      ensures answer <==> id !in trouble.thrown + trouble.refused
      ensures ups == if !answer then old(ups) else
                     old(ups)[s := old(ups)[s].(users :=
                         old(ups)[s].users[id := old(ups)[s].users[id].(isActive := isActive)])]
    {
      var up := ups[s];
      threw, answer := Call(s, id, up.(users := up.users[id := up.users[id].(isActive := isActive)]), trouble);
    }
  }

  /** Each external account is as it was or as the run wants it. */
  ghost predicate Between(local: map<string, bool>, before: Upstream, current: Upstream) {
    current.keepsDeleted == before.keepsDeleted
    && forall id :: At(current, id) == At(before, id) || At(current, id) == At(Corrected(local, before), id)
  }

  lemma CorrectedOnIsBetween(local: map<string, bool>, up: Upstream, done: set<string>)
    requires local != map[] && done <= up.users.Keys
    ensures Between(local, up, CorrectedOn(local, up, done))
  {
    hide Fixed, StaysListed;
    forall id ensures At(CorrectedOn(local, up, done), id) == At(if id in done then Corrected(local, up) else up, id) {
    }
  }

  /** One account more: nothing to call, a call that did nothing, or one that set it right. */
  lemma CorrectedNext(local: map<string, bool>, up: Upstream, done: set<string>, id: string)
    requires id in up.users && id !in done
    ensures var current, next := CorrectedOn(local, up, done), CorrectedOn(local, up, done + {id});
      && id in current.users && current.users[id] == up.users[id] && current.keepsDeleted == up.keepsDeleted
      && (!NeedsCall(local, id, up.users[id]) ==> next == current)
      && (StaysListed(local, up, id) ==> next == current.(users := current.users[id := Fixed(local, id, up.users[id])]))
      && (!StaysListed(local, up, id) ==> next == current.(users := current.users - {id}))
  {
    hide Fixed;
    var current, next := CorrectedOn(local, up, done), CorrectedOn(local, up, done + {id});
    if StaysListed(local, up, id) {
      assert next.users == current.users[id := Fixed(local, id, up.users[id])];
      if !NeedsCall(local, id, up.users[id]) {
        NoCallNoChange(local, id, up.users[id]);
        assert next.users == current.users;
      }
    } else {
      assert next.users == current.users - {id};
    }
  }

  lemma NoCallNoChange(local: map<string, bool>, id: string, user: ExternalUser)
    requires !NeedsCall(local, id, user)
    ensures Fixed(local, id, user) == user
  {
  }

  /** The turn of one external account. */
  method CorrectOne(external: External, s: ServiceId, local: map<string, bool>, id: string, trouble: Trouble,
                    ghost up: Upstream, ghost done: set<string>)
    returns (ok: bool)
    requires s in external.ups && id in up.users && id !in done
    requires external.ups[s] == CorrectedOn(local, up, done)
    modifies external
    ensures ok <==> !(id in trouble.thrown && NeedsCall(local, id, up.users[id]))
    ensures s in external.ups && external.ups == old(external.ups)[s := external.ups[s]]
    ensures external.ups[s] ==
            CorrectedOn(local, up,
                        if !ok || (id in trouble.refused && NeedsCall(local, id, up.users[id]))
                        then done else done + {id})
  {
    hide CorrectedOn;
    CorrectedNext(local, up, done, id);
    var user := external.ups[s].users[id];
    ok := true;
    if id !in local {
      if !user.isAdmin {
        var threw, answer := external.DeleteUser(s, id, trouble);
        ok := !threw;
      }
    } else if local[id] && !user.isActive {
      var threw, answer := external.SetUserActive(s, id, true, trouble);
      ok := !threw;
    } else if !local[id] && user.isActive {
      var threw, answer := external.SetUserActive(s, id, false, trouble);
      ok := !threw;
    }
  }

  /** The accounts seen to among those visited: all but those whose call answered that it failed. */
  ghost function SeenTo(local: map<string, bool>, up: Upstream, visited: set<string>,
                        refused: set<string>): set<string> {
    set id | id in visited && id in up.users && !(id in refused && NeedsCall(local, id, up.users[id]))
  }

  lemma SeenToNext(local: map<string, bool>, up: Upstream, visited: set<string>, id: string, refused: set<string>)
    requires id in up.users && id !in visited
    ensures id !in SeenTo(local, up, visited, refused) && SeenTo(local, up, visited, refused) <= up.users.Keys
    ensures SeenTo(local, up, visited + {id}, refused) ==
            SeenTo(local, up, visited, refused)
            + (if id in refused && NeedsCall(local, id, up.users[id]) then {} else {id})
    ensures SeenTo(local, up, visited + {id}, refused) <= up.users.Keys
  {
  }

  /** The loop of pass one. When a call throws, the account it was about is left over. */
  method CorrectEach(external: External, s: ServiceId, local: map<string, bool>, trouble: Trouble, ghost up: Upstream)
    returns (ok: bool, ghost done: set<string>, ghost left: string)
    requires s in external.ups && external.ups[s] == up
    modifies external
    ensures external.ups == old(external.ups)[s := CorrectedOn(local, up, done)] && done <= up.users.Keys
    ensures ok ==> done == SeenTo(local, up, up.users.Keys, trouble.refused)
    ensures ok ==> forall id :: id in up.users ==> !(id in trouble.thrown && NeedsCall(local, id, up.users[id]))
    ensures !ok ==>
              && left in up.users && left !in done
              && left in trouble.thrown && NeedsCall(local, left, up.users[left])
  {
    var rows := ListSet(external.ups[s].users.Keys);
    ok, done, left := true, {}, "";
    assert CorrectedOn(local, up, {}).users == up.users;
    assert external.ups == external.ups[s := up];
    ghost var visited: set<string> := {};
    assert SeenTo(local, up, {}, trouble.refused) == {};
    hide CorrectedOn, NeedsCall, SeenTo;
    for i := 0 to |rows|
      invariant external.ups == old(external.ups)[s := CorrectedOn(local, up, done)]
      invariant forall id :: id in visited <==> id in rows[..i]
      invariant done == SeenTo(local, up, visited, trouble.refused)
      invariant forall j :: 0 <= j < i ==> !(rows[j] in trouble.thrown && NeedsCall(local, rows[j], up.users[rows[j]]))
    {
      var id := rows[i];
      assert rows[..i + 1] == rows[..i] + [id] && id !in rows[..i];
      SeenToNext(local, up, visited, id, trouble.refused);
      ghost var before := external.ups[s];
      ok := CorrectOne(external, s, local, id, trouble, up, done);
      UpdateTwice(old(external.ups), s, before, external.ups[s]);
      if !ok {
        left := id;
        return;
      }
      visited := visited + {id};
      done := if id in trouble.refused && NeedsCall(local, id, up.users[id]) then done else done + {id};
    }
    assert rows[..|rows|] == rows && visited == up.users.Keys;
  }

  /** Pass one: corrects the external accounts from the local records. A call that throws ends the pass. A call
      that answers that it failed leaves its own account as it was and nothing else: the answer is not read. */
  method SyncExternalToLocal(external: External, s: ServiceId, local: map<string, bool>, trouble: Trouble)
    returns (ok: bool)
    requires s in external.ups
    modifies external
    ensures ok <==> Touched(local, old(external.ups)[s]) !! trouble.thrown
    ensures s in external.ups && external.ups == old(external.ups)[s := external.ups[s]]
    ensures ok ==> external.ups[s] == CorrectedBut(local, old(external.ups)[s], trouble.refused)
    ensures ok ==> (external.ups[s] == Corrected(local, old(external.ups)[s])
                    <==> Moved(local, old(external.ups)[s]) !! trouble.refused)
    ensures !old(external.ups)[s].keepsDeleted ==>
              (external.ups[s] == Corrected(local, old(external.ups)[s])
               <==> Touched(local, old(external.ups)[s]) !! trouble.refused + trouble.thrown)
    ensures Between(local, old(external.ups)[s], external.ups[s])
  {
    ghost var up := external.ups[s];
    RefusalsCount(local, up, trouble.refused);
    DroppedAreMoved(local, up);
    if local == map[] {
      return true;
    }
    hide CorrectedOn, Corrected, CorrectedBut, Between, Touched, Moved, NeedsCall, SeenTo;
    ghost var done, left;
    ok, done, left := CorrectEach(external, s, local, trouble, up);
    CorrectedOnIsBetween(local, up, done);
    if ok {
      AllSeenTo(local, up, trouble);
    } else {
      ThrownIsMissed(local, up, done, left);
    }
  }

  lemma AllSeenTo(local: map<string, bool>, up: Upstream, trouble: Trouble)
    requires local != map[]
    requires forall id :: id in up.users ==> !(id in trouble.thrown && NeedsCall(local, id, up.users[id]))
    ensures CorrectedOn(local, up, SeenTo(local, up, up.users.Keys, trouble.refused)) ==
        CorrectedBut(local, up, trouble.refused)
    ensures Touched(local, up) !! trouble.thrown
  {
    var seen, but := SeenTo(local, up, up.users.Keys, trouble.refused), up.users.Keys - trouble.refused;
    forall id | id in up.users && id in seen && id !in but
      ensures StaysListed(local, up, id) && Fixed(local, id, up.users[id]) == up.users[id]
    {
      NoCallNoChange(local, id, up.users[id]);
    }
    assert but <= seen;
    assert CorrectedOn(local, up, seen).users == CorrectedOn(local, up, but).users;
  }

  lemma ThrownIsMissed(local: map<string, bool>, up: Upstream, done: set<string>, id: string)
    requires local != map[] && id in up.users && id !in done && NeedsCall(local, id, up.users[id])
    ensures id in Touched(local, up)
    ensures !up.keepsDeleted ==> CorrectedOn(local, up, done) != Corrected(local, up)
  {
    assert At(CorrectedOn(local, up, done), id) == Some(up.users[id]);
    if !up.keepsDeleted {
      MovedMeans(local, up, id);
      assert At(Corrected(local, up), id) != Some(up.users[id]);
    }
  }

  lemma DroppedAreMoved(local: map<string, bool>, up: Upstream)
    ensures !up.keepsDeleted ==> Moved(local, up) == Touched(local, up)
    ensures Between(local, up, up)
  {
  }

  /** The rows of `s` marked once the accounts in `done` were looked at. */
  ghost function MarkedBy(db: Db, up: Upstream, done: seq<AccountId>): set<Key> {
    set k | k in db.subs && db.subs[k].status == Active
            && exists a :: a in done && a in db.accounts && db.accounts[a].externalId.Some?
                 && db.accounts[a].subscription == db.subs[k].id && db.accounts[a].externalId.value !in up.users
  }

  /** Pass two: flags the active records whose external account was not among those loaded. */
  method SyncLocalToExternal(store: Database, before: Db, s: ServiceId, up: Upstream, now: Time, ghost marked: set<Key>)
    requires Forest(before) && store.View() == FailAll(before, marked, now)
    modifies store
    ensures store.View() == FailAll(before, marked + Vanished(before, map[s := up], {s}), now)
  {
    var rows := ListSet(AccountsOn(before, s));
    assert MarkedBy(before, up, []) == {};
    assert marked + {} == marked;
    for i := 0 to |rows|
      invariant store.View() == FailAll(before, marked + MarkedBy(before, up, rows[..i]), now)
    {
      LocalHas(before, s, rows[i]);
      MarkNext(before, up, rows, i, now, marked);
      var account := before.accounts[rows[i]];
      var k := account.subscription.key;
      if before.subs[k].status == Active && account.externalId.value !in up.users {
        MarkFailed(store, k, NOT_FOUND, FailedSync, now);
      }
    }
    assert rows[..|rows|] == rows;
    MarkedAll(before, s, up, rows);
  }

  lemma MarkedNext(db: Db, up: Upstream, rows: seq<AccountId>, i: nat, q: Key)
    requires Forest(db) && i < |rows| && q in db.subs && rows[i] in db.accounts && db.accounts[rows[i]].externalId.Some?
    ensures var account := db.accounts[rows[i]];
      q in MarkedBy(db, up, rows[..i + 1]) <==>
        || q in MarkedBy(db, up, rows[..i])
        || (q == account.subscription.key && db.subs[q].id == account.subscription
            && db.subs[q].status == Active && account.externalId.value !in up.users)
  {
  }

  lemma MarkNext(db: Db, up: Upstream, rows: seq<AccountId>, i: nat, now: Time, marked: set<Key>)
    requires Forest(db) && i < |rows| && rows[i] in db.accounts && db.accounts[rows[i]].externalId.Some?
    requires Live(db.subs, db.accounts[rows[i]].subscription)
    ensures var account := db.accounts[rows[i]];
      var k := account.subscription.key;
      var state, next := FailAll(db, marked + MarkedBy(db, up, rows[..i]), now),
          FailAll(db, marked + MarkedBy(db, up, rows[..i + 1]), now);
      && k in state.subs
      && (next == if db.subs[k].status == Active && account.externalId.value !in up.users
                  then Fail(state, k, FailedSync, NOT_FOUND, now) else state)
  {
    hide MarkedBy, Forest;
    var account := db.accounts[rows[i]];
    var k := account.subscription.key;
    var done, more := MarkedBy(db, up, rows[..i]), MarkedBy(db, up, rows[..i + 1]);
    forall q | q in db.subs
      ensures q in more <==>
              || q in done
              || (q == k && db.subs[k].status == Active && account.externalId.value !in up.users)
    {
      MarkedNext(db, up, rows, i, q);
    }
    var state, next := FailAll(db, marked + done, now), FailAll(db, marked + more, now);
    assert next.subs == if db.subs[k].status == Active && account.externalId.value !in up.users
                        then Fail(state, k, FailedSync, NOT_FOUND, now).subs else state.subs;
  }

  lemma MarkedAll(db: Db, s: ServiceId, up: Upstream, rows: seq<AccountId>)
    requires Forest(db) && Enumerates(rows, AccountsOn(db, s))
    ensures MarkedBy(db, up, rows) == Vanished(db, map[s := up], {s})
  {
  }

  /** The services a run visits: enabled, MANAGED, with a registered provider. */
  function Visited(services: map<ServiceId, Service>, registered: set<ServiceId>): set<ServiceId> {
    set s | s in services && services[s].enabled && services[s].accountType == Managed && s in registered
  }

  function RefusedOf(troubles: map<ServiceId, Trouble>, s: ServiceId): set<string> {
    TroubleOf(troubles, s).refused
  }

  /** No call about this service's accounts throws. */
  predicate Completes(db: Db, ups: map<ServiceId, Upstream>, troubles: map<ServiceId, Trouble>, s: ServiceId)
    requires Forest(db) && s in ups
  {
    Touched(Local(db, s), ups[s]) !! TroubleOf(troubles, s).thrown
  }

  /** What the run made of each external service: `done` were visited, `ready` completed. */
  ghost predicate UpstreamAfter(db: Db, before: map<ServiceId, Upstream>, after: map<ServiceId, Upstream>,
                                done: set<ServiceId>, ready: set<ServiceId>, troubles: map<ServiceId, Trouble>)
    requires Forest(db)
  {
    && after.Keys == before.Keys
    && forall s :: s in before ==>
         if s in ready then after[s] == CorrectedBut(Local(db, s), before[s], RefusedOf(troubles, s))
         else if s in done then Between(Local(db, s), before[s], after[s])
         else after[s] == before[s]
  }

  lemma VanishedGrows(db: Db, ups: map<ServiceId, Upstream>, ready: set<ServiceId>, s: ServiceId)
    requires s in ups
    ensures Vanished(db, ups, ready) + Vanished(db, map[s := ups[s]], {s}) == Vanished(db, ups, ready + {s})
  {
  }

  lemma UpstreamNext(db: Db, before: map<ServiceId, Upstream>, mid: map<ServiceId, Upstream>,
                     after: map<ServiceId, Upstream>, done: set<ServiceId>, ready: set<ServiceId>,
                     troubles: map<ServiceId, Trouble>, s: ServiceId, ok: bool)
    requires Forest(db) && s in before && s !in done && ready <= done
    requires UpstreamAfter(db, before, mid, done, ready, troubles)
    requires s in after && after == mid[s := after[s]] && Between(Local(db, s), before[s], after[s])
    requires ok ==> after[s] == CorrectedBut(Local(db, s), before[s], RefusedOf(troubles, s))
    ensures UpstreamAfter(db, before, after, done + {s}, if ok then ready + {s} else ready, troubles)
  {
    hide Forest, Local, CorrectedBut, Between;
  }

  lemma NotYetVisited(db: Db, before: map<ServiceId, Upstream>, mid: map<ServiceId, Upstream>, done: set<ServiceId>,
                      ready: set<ServiceId>, troubles: map<ServiceId, Trouble>, s: ServiceId)
    requires Forest(db) && s in before && s !in done && ready <= done
    requires UpstreamAfter(db, before, mid, done, ready, troubles)
    ensures s in mid && mid[s] == before[s]
  {
  }

  /** The turn of one service. */
  method SyncService(store: Database, external: External, before: Db, s: ServiceId, troubles: map<ServiceId, Trouble>,
                     now: Time,
                     ghost ups0: map<ServiceId, Upstream>, ghost done: set<ServiceId>, ghost ready: set<ServiceId>)
    returns (ok: bool)
    requires Forest(before) && s in ups0 && s !in done && ready <= done
    requires store.View() == FailAll(before, Vanished(before, ups0, ready), now)
    requires UpstreamAfter(before, ups0, external.ups, done, ready, troubles)
    modifies store, external
    ensures ok <==> Completes(before, ups0, troubles, s)
    ensures store.View() == FailAll(before, Vanished(before, ups0, if ok then ready + {s} else ready), now)
    ensures UpstreamAfter(before, ups0, external.ups, done + {s}, if ok then ready + {s} else ready, troubles)
  {
    hide Forest, Local, Vanished, FailAll, Corrected, CorrectedBut, Between, Touched, Moved, UpstreamAfter;
    ghost var mid := external.ups;
    NotYetVisited(before, ups0, mid, done, ready, troubles, s);
    var listed := external.ups[s];
    ok := SyncExternalToLocal(external, s, Local(before, s), TroubleOf(troubles, s));
    UpstreamNext(before, ups0, mid, external.ups, done, ready, troubles, s, ok);
    if ok {
      VanishedGrows(before, ups0, ready, s);
      SyncLocalToExternal(store, before, s, listed, now, Vanished(before, ups0, ready));
    }
  }

  /** The run over all services. A service whose listing is null is skipped; one whose listing throws, or one of
      whose calls does, is reported and leaves the others alone; a call that answers that it failed is not
      even reported. Where nothing goes wrong the run is `Sync`. */
  method SyncIntegrationAccounts(store: Database, external: External, silent: set<ServiceId>, broken: set<ServiceId>,
                                 troubles: map<ServiceId, Trouble>, now: Time)
    returns (success: bool, ghost ready: set<ServiceId>)
    requires Forest(store.View())
    modifies store, external
    ensures var db, ups, visited := old(store.View()), old(external.ups),
        Visited(old(store.services), old(external.ups).Keys);
      && (forall s :: s in ready <==> s in visited - silent - broken && Completes(db, ups, troubles, s))
      && (success <==> ready == visited - silent)
      && store.View() == FailAll(db, Vanished(db, ups, ready), now)
      && UpstreamAfter(db, ups, external.ups, visited - silent - broken, ready, troubles)
      && (ready == visited && (forall s :: s in visited ==> Moved(Local(db, s), ups[s]) !! RefusedOf(troubles, s)) ==>
            World(store.View(), external.ups) == Sync(World(db, ups), visited, now))
    ensures UpstreamIsRight(old(store.View()), old(external.ups), external.ups, silent, broken, troubles)
    ensures RowsAreRight(old(store.View()), old(external.ups), store.View(), silent, broken, troubles, now)
    ensures success <==> AllGotThrough(old(store.View()), old(external.ups), silent, broken, troubles)
  {
    hide Forest, Local, Vanished, FailAll, UpstreamAfter, Completes, Moved;
    ghost var ups0 := external.ups;
    var before := store.View();
    var rows := ListSet(Visited(store.services, external.ups.Keys));
    success, ready := true, {};
    ghost var done: set<ServiceId> := {};
    NothingYet(before, ups0, now, troubles);
    for i := 0 to |rows|
      invariant forall s :: s in done <==> s in rows[..i] && s !in silent && s !in broken
      invariant forall s :: s in ready <==> s in done && s in ups0 && Completes(before, ups0, troubles, s)
      invariant success <==> forall s :: s in rows[..i] && s !in silent ==> s in ready
      invariant store.View() == FailAll(before, Vanished(before, ups0, ready), now)
      invariant UpstreamAfter(before, ups0, external.ups, done, ready, troubles)
    {
      var s := rows[i];
      assert s !in rows[..i];
      if s in silent {
        continue;
      }
      if s in broken {
        success := false;
        continue;
      }
      var ok := SyncService(store, external, before, s, troubles, now, ups0, done, ready);
      done := done + {s};
      if ok {
        ready := ready + {s};
      } else {
        success := false;
      }
    }
    assert rows[..|rows|] == rows;
    ghost var visited := Visited(before.services, ups0.Keys);
    assert done == visited - silent - broken;
    assert ready <= visited - silent;
    RunDecides(before, ups0, store.View(), external.ups, silent, broken, troubles, now, success, ready);
    hide UpstreamIsRight, RowsAreRight, AllGotThrough;
    if ready == visited && forall s :: s in visited ==> Moved(Local(before, s), ups0[s]) !! RefusedOf(troubles, s) {
      assert done == visited;
      SmoothRunIsSync(before, ups0, external.ups, visited, troubles);
    }
  }

  lemma SmoothRunIsSync(db: Db, before: map<ServiceId, Upstream>, after: map<ServiceId, Upstream>,
                        visited: set<ServiceId>,
                        troubles: map<ServiceId, Trouble>)
    requires Forest(db) && visited <= before.Keys && UpstreamAfter(db, before, after, visited, visited, troubles)
    requires forall s :: s in visited ==> Moved(Local(db, s), before[s]) !! RefusedOf(troubles, s)
    ensures after == CorrectedAll(db, before, visited)
  {
    hide Forest, Local;
    forall s | s in before ensures after[s] == CorrectedAll(db, before, visited)[s] {
      RefusalsCount(Local(db, s), before[s], RefusedOf(troubles, s));
    }
    assert after == CorrectedAll(db, before, visited);
  }

  lemma NothingYet(db: Db, ups: map<ServiceId, Upstream>, now: Time, troubles: map<ServiceId, Trouble>)
    requires Forest(db)
    ensures FailAll(db, Vanished(db, ups, {}), now) == db && UpstreamAfter(db, ups, ups, {}, {}, troubles)
  {
    assert FailAll(db, Vanished(db, ups, {}), now).subs == db.subs;
  }

  // ---------- What a run comes to, column by column ----------

  /** The enabled MANAGED services with a provider. */
  ghost predicate IsSynced(services: map<ServiceId, Service>, ups: map<ServiceId, Upstream>, s: ServiceId) {
    s in services && services[s].enabled && services[s].accountType == Managed && s in ups
  }

  /** Some account of the service is linked to this external one. */
  ghost predicate IsLinked(db: Db, s: ServiceId, id: string) {
    exists a :: a in db.accounts && db.accounts[a].service == s && db.accounts[a].externalId == Some(id)
  }

  /** And its subscription is active. */
  ghost predicate IsLinkedActive(db: Db, s: ServiceId, id: string) {
    exists a :: a in db.accounts && db.accounts[a].service == s && db.accounts[a].externalId == Some(id)
                && db.accounts[a].subscription.key in db.subs
                && db.subs[db.accounts[a].subscription.key].status == Active
  }

  ghost predicate NothingLinked(db: Db, s: ServiceId) {
    forall a :: a in db.accounts && db.accounts[a].service == s ==> db.accounts[a].externalId == None
  }

  /** An external account of the service after a run that got through: linked ones mirror the status of their
      subscription, admins are left alone, and all others are deleted. */
  ghost predicate IsAligned(db: Db, s: ServiceId, before: Upstream, after: Upstream, id: string) {
    if id !in before.users then id !in after.users
    else if IsLinked(db, s, id) then
      id in after.users && after.users[id] == before.users[id].(isActive := IsLinkedActive(db, s, id))
    else if before.users[id].isAdmin then id in after.users && after.users[id] == before.users[id]
    else if before.keepsDeleted then id in after.users && after.users[id] == before.users[id].(isActive := false)
    else id !in after.users
  }

  /** An account linked to the row is not listed. */
  ghost predicate MissesAccount(db: Db, k: Key, up: Upstream)
    requires k in db.subs
  {
    exists a :: a in db.accounts && db.accounts[a].service == k.service && db.accounts[a].subscription == db.subs[k].id
                && db.accounts[a].externalId.Some? && db.accounts[a].externalId.value !in up.users
  }

  ghost function NotFoundRow(was: Subscription, now: Time): Subscription {
    was.(status := Failed, failedOperation := Some(FailedSync), failedAt := Some(now),
         lastError := Some("External account not found during sync"))
  }

  /** The run has to call the service about this account. */
  ghost predicate IsCalledAbout(db: Db, s: ServiceId, up: Upstream, id: string) {
    && id in up.users
    && if IsLinked(db, s, id) then up.users[id].isActive != IsLinkedActive(db, s, id) else !up.users[id].isAdmin
  }

  /** Some call the run has to make to the service throws. */
  ghost predicate SomeCallThrows(db: Db, s: ServiceId, up: Upstream, thrown: set<string>) {
    !NothingLinked(db, s) && exists id :: id in thrown && IsCalledAbout(db, s, up, id)
  }

  /** The service's listing and calls went through without a throw. */
  ghost predicate GotThrough(db: Db, ups: map<ServiceId, Upstream>, silent: set<ServiceId>, broken: set<ServiceId>,
                             troubles: map<ServiceId, Trouble>, s: ServiceId) {
    && IsSynced(db.services, ups, s) && s !in silent && s !in broken
    && (s in troubles ==> !SomeCallThrows(db, s, ups[s], troubles[s].thrown))
  }

  /** The service lists this account as before. */
  ghost predicate IsAsBefore(before: Upstream, after: Upstream, id: string) {
    && (id in before.users <==> id in after.users)
    && (id in before.users ==> after.users[id] == before.users[id])
  }

  ghost predicate IsRefused(troubles: map<ServiceId, Trouble>, s: ServiceId, id: string) {
    s in troubles && id in troubles[s].refused
  }

  /** The external side after a run: services that are not synchronised, or were not listed, or have nothing linked
      are as before. The accounts of those that got through are aligned, but for those whose call answered false,
      which are as before; where a call threw each account is one or the other. */
  ghost predicate UpstreamIsRight(db: Db, ups: map<ServiceId, Upstream>, after: map<ServiceId, Upstream>,
                                  silent: set<ServiceId>, broken: set<ServiceId>, troubles: map<ServiceId, Trouble>) {
    && after.Keys == ups.Keys
    && (forall s :: s in ups && (!IsSynced(db.services, ups, s) || s in silent + broken || NothingLinked(db, s)) ==>
          after[s] == ups[s])
    && (forall s, id :: s in ups && GotThrough(db, ups, silent, broken, troubles, s) && !NothingLinked(db, s) ==>
          if IsRefused(troubles, s, id) then IsAsBefore(ups[s], after[s], id)
          else IsAligned(db, s, ups[s], after[s], id))
    && (forall s, id :: s in ups && IsSynced(db.services, ups, s) && s !in silent + broken && !NothingLinked(db, s) ==>
          IsAsBefore(ups[s], after[s], id) || IsAligned(db, s, ups[s], after[s], id))
  }

  /** The rows after a run: exactly the active ones that miss an account, on services that got through, failed. */
  ghost predicate RowsAreRight(db: Db, ups: map<ServiceId, Upstream>, out: Db, silent: set<ServiceId>,
                               broken: set<ServiceId>, troubles: map<ServiceId, Trouble>, now: Time) {
    && out.subs.Keys == db.subs.Keys && out == db.(subs := out.subs)
    && (forall k :: k in db.subs ==>
          out.subs[k] == if db.subs[k].status == Active && GotThrough(db, ups, silent, broken, troubles, k.service)
                            && MissesAccount(db, k, ups[k.service])
                         then NotFoundRow(db.subs[k], now) else db.subs[k])
  }

  /** A run reports success exactly when every service it heard of got through. */
  ghost predicate AllGotThrough(db: Db, ups: map<ServiceId, Upstream>, silent: set<ServiceId>, broken: set<ServiceId>,
                                troubles: map<ServiceId, Trouble>) {
    forall s :: IsSynced(db.services, ups, s) && s !in silent ==> GotThrough(db, ups, silent, broken, troubles, s)
  }

  lemma LocalDecides(db: Db, s: ServiceId, id: string)
    requires Forest(db)
    ensures id in Local(db, s) <==> IsLinked(db, s, id)
    ensures id in Local(db, s) ==> (Local(db, s)[id] <==> IsLinkedActive(db, s, id))
  {
    if id in Local(db, s) {
      var a := LocalComesFrom(db, s, id);
      assert AccountOk(db, a);
    }
    if a :| a in db.accounts && db.accounts[a].service == s && db.accounts[a].externalId == Some(id) {
      assert a in AccountsOn(db, s);
      LocalHas(db, s, a);
    }
  }

  lemma NothingLinkedDecides(db: Db, s: ServiceId)
    requires Forest(db)
    ensures Local(db, s) == map[] <==> NothingLinked(db, s)
  {
    if Local(db, s) == map[] {
      forall a | a in db.accounts && db.accounts[a].service == s ensures db.accounts[a].externalId == None {
        if db.accounts[a].externalId.Some? {
          LocalHas(db, s, a);
        }
      }
    }
    if NothingLinked(db, s) && Local(db, s) != map[] {
      var id :| id in Local(db, s);
      var a := LocalComesFrom(db, s, id);
    }
  }

  lemma AlignedDecides(db: Db, s: ServiceId, up: Upstream, after: Upstream, refused: set<string>, id: string)
    requires Forest(db) && !NothingLinked(db, s)
    ensures At(after, id) == At(up, id) <==> IsAsBefore(up, after, id)
    ensures At(after, id) == At(Corrected(Local(db, s), up), id) ==> IsAligned(db, s, up, after, id)
    ensures At(after, id) == At(CorrectedBut(Local(db, s), up, refused), id) ==>
              if id in refused then IsAsBefore(up, after, id) else IsAligned(db, s, up, after, id)
  {
    NothingLinkedDecides(db, s);
    LocalDecides(db, s, id);
    CorrectedAt(Local(db, s), up, refused, id);
    hide Forest, Local, IsLinked, IsLinkedActive, NothingLinked, Corrected, CorrectedBut;
  }

  lemma CorrectedAt(local: map<string, bool>, up: Upstream, refused: set<string>, id: string)
    requires local != map[]
    ensures At(CorrectedBut(local, up, refused), id) ==
            if id in refused then At(up, id) else At(Corrected(local, up), id)
    ensures At(Corrected(local, up), id) ==
            if id !in up.users then None
            else if id in local then Some(up.users[id].(isActive := local[id]))
            else if up.users[id].isAdmin then Some(up.users[id])
            else if up.keepsDeleted then Some(up.users[id].(isActive := false))
            else None
  {
  }

  lemma CallDecides(db: Db, s: ServiceId, up: Upstream, id: string)
    requires Forest(db) && !NothingLinked(db, s)
    ensures id in Touched(Local(db, s), up) <==> IsCalledAbout(db, s, up, id)
  {
    NothingLinkedDecides(db, s);
    LocalDecides(db, s, id);
    hide Forest, Local, IsLinked, IsLinkedActive, NothingLinked;
  }

  lemma ThrowsDecide(db: Db, ups: map<ServiceId, Upstream>, troubles: map<ServiceId, Trouble>, s: ServiceId)
    requires Forest(db) && s in ups
    ensures Completes(db, ups, troubles, s)
        <==> (s in troubles ==> !SomeCallThrows(db, s, ups[s], troubles[s].thrown))
  {
    if NothingLinked(db, s) {
      NothingLinkedDecides(db, s);
      hide Forest, Local, NothingLinked;
    } else {
      forall id ensures id in Touched(Local(db, s), ups[s]) <==> IsCalledAbout(db, s, ups[s], id) {
        CallDecides(db, s, ups[s], id);
      }
      hide Forest, Local, Touched, IsCalledAbout, NothingLinked;
    }
  }

  lemma LossDecides(db: Db, k: Key, up: Upstream)
    requires k in db.subs
    ensures LostAccount(db, k, up) <==> MissesAccount(db, k, up)
  {
  }

  lemma GettingThroughDecides(db: Db, ups: map<ServiceId, Upstream>, silent: set<ServiceId>, broken: set<ServiceId>,
                              troubles: map<ServiceId, Trouble>, s: ServiceId)
    requires Forest(db)
    ensures s in Visited(db.services, ups.Keys) <==> IsSynced(db.services, ups, s)
    ensures GotThrough(db, ups, silent, broken, troubles, s) <==>
            s in Visited(db.services, ups.Keys) - silent - broken && Completes(db, ups, troubles, s)
  {
    if s in ups {
      ThrowsDecide(db, ups, troubles, s);
    }
    hide Forest, Completes, SomeCallThrows;
  }

  /** The upstream of a service, from how far its turn came. */
  lemma UpstreamDecides(db: Db, ups: map<ServiceId, Upstream>, after: map<ServiceId, Upstream>, done: set<ServiceId>,
                        ready: set<ServiceId>, troubles: map<ServiceId, Trouble>, s: ServiceId)
    requires Forest(db) && UpstreamAfter(db, ups, after, done, ready, troubles) && s in ups && ready <= done
    ensures s in after
    ensures s !in done || NothingLinked(db, s) ==> after[s] == ups[s]
    ensures s in ready ==> after[s] == CorrectedBut(Local(db, s), ups[s], RefusedOf(troubles, s))
    ensures s in done && s !in ready ==> Between(Local(db, s), ups[s], after[s])
  {
    NothingLinkedDecides(db, s);
    hide Forest, Local, NothingLinked, CorrectedOn, Moved;
    if NothingLinked(db, s) && s in done && s !in ready {
      forall id ensures At(after[s], id) == At(ups[s], id) {
      }
      SameLists(after[s], ups[s]);
    }
  }

  /** The same, account by account. */
  lemma AccountDecides(db: Db, ups: map<ServiceId, Upstream>, after: map<ServiceId, Upstream>, done: set<ServiceId>,
                       ready: set<ServiceId>, troubles: map<ServiceId, Trouble>, s: ServiceId, id: string)
    requires Forest(db) && UpstreamAfter(db, ups, after, done, ready, troubles) && s in ups && ready <= done
    requires s in done && !NothingLinked(db, s)
    ensures s in after
    ensures s in ready ==> if IsRefused(troubles, s, id) then IsAsBefore(ups[s], after[s], id)
                           else IsAligned(db, s, ups[s], after[s], id)
    ensures IsAsBefore(ups[s], after[s], id) || IsAligned(db, s, ups[s], after[s], id)
  {
    UpstreamDecides(db, ups, after, done, ready, troubles, s);
    AlignedDecides(db, s, ups[s], after[s], RefusedOf(troubles, s), id);
    hide Forest, Local, NothingLinked, UpstreamAfter, IsAsBefore, IsAligned, Corrected, CorrectedBut;
  }

  lemma SameLists(a: Upstream, b: Upstream)
    requires a.keepsDeleted == b.keepsDeleted && forall id :: At(a, id) == At(b, id)
    ensures a == b
  {
    forall id ensures id in a.users <==> id in b.users {
      assert At(a, id) == At(b, id);
    }
    SameEverywhere(a, b, a);
  }

  lemma MarkedRow(db: Db, ups: map<ServiceId, Upstream>, ready: set<ServiceId>, now: Time, k: Key)
    requires k in db.subs
    ensures FailAll(db, Vanished(db, ups, ready), now).subs[k] ==
            if db.subs[k].status == Active && k.service in ready && k.service in ups
               && MissesAccount(db, k, ups[k.service])
            then NotFoundRow(db.subs[k], now) else db.subs[k]
  {
    if k.service in ups {
      LossDecides(db, k, ups[k.service]);
    }
    hide LostAccount, MissesAccount;
  }

  lemma RunDecides(db: Db, ups: map<ServiceId, Upstream>, out: Db, after: map<ServiceId, Upstream>,
                   silent: set<ServiceId>, broken: set<ServiceId>, troubles: map<ServiceId, Trouble>, now: Time,
                   success: bool, ready: set<ServiceId>)
    requires Forest(db)
    requires var visited := Visited(db.services, ups.Keys);
      && (forall s :: s in ready <==> s in visited - silent - broken && Completes(db, ups, troubles, s))
      && (success <==> ready == visited - silent)
      && out == FailAll(db, Vanished(db, ups, ready), now)
      && UpstreamAfter(db, ups, after, visited - silent - broken, ready, troubles)
    ensures UpstreamIsRight(db, ups, after, silent, broken, troubles)
    ensures RowsAreRight(db, ups, out, silent, broken, troubles, now)
    ensures success <==> AllGotThrough(db, ups, silent, broken, troubles)
  {
    var visited := Visited(db.services, ups.Keys);
    ReadyDecides(db, ups, silent, broken, troubles, ready);
    hide Forest, Visited, Completes, FailAll, Vanished, UpstreamAfter, GotThrough, IsSynced;
    hide UpstreamIsRight, RowsAreRight;
    UpstreamComesRight(db, ups, after, silent, broken, troubles, visited, ready);
    RowsComeRight(db, ups, silent, broken, troubles, ready, now);
    assert success <==> forall s :: s in visited && s !in silent ==> s in ready;
  }

  ghost predicate IsReady(db: Db, ups: map<ServiceId, Upstream>, silent: set<ServiceId>, broken: set<ServiceId>,
                          troubles: map<ServiceId, Trouble>, ready: set<ServiceId>) {
    forall s :: s in ready <==> GotThrough(db, ups, silent, broken, troubles, s)
  }

  lemma ReadyDecides(db: Db, ups: map<ServiceId, Upstream>, silent: set<ServiceId>, broken: set<ServiceId>,
                     troubles: map<ServiceId, Trouble>, ready: set<ServiceId>)
    requires Forest(db)
    requires forall s :: s in ready <==>
               s in Visited(db.services, ups.Keys) - silent - broken && Completes(db, ups, troubles, s)
    ensures IsReady(db, ups, silent, broken, troubles, ready)
    ensures forall s :: s in Visited(db.services, ups.Keys) <==> IsSynced(db.services, ups, s)
  {
    hide Forest, Completes, GotThrough, IsSynced, Visited;
    forall s
      ensures s in ready <==> GotThrough(db, ups, silent, broken, troubles, s)
      ensures s in Visited(db.services, ups.Keys) <==> IsSynced(db.services, ups, s)
    {
      GettingThroughDecides(db, ups, silent, broken, troubles, s);
    }
  }

  lemma UpstreamComesRight(db: Db, ups: map<ServiceId, Upstream>, after: map<ServiceId, Upstream>,
                           silent: set<ServiceId>, broken: set<ServiceId>, troubles: map<ServiceId, Trouble>,
                           visited: set<ServiceId>, ready: set<ServiceId>)
    requires Forest(db) && IsReady(db, ups, silent, broken, troubles, ready) && ready <= visited - silent - broken
    requires forall s :: s in visited <==> IsSynced(db.services, ups, s)
    requires UpstreamAfter(db, ups, after, visited - silent - broken, ready, troubles)
    ensures UpstreamIsRight(db, ups, after, silent, broken, troubles)
  {
    assert after.Keys == ups.Keys;
    hide Forest, UpstreamAfter, GotThrough, IsSynced, NothingLinked, IsAligned, IsAsBefore, IsRefused;
    var done := visited - silent - broken;
    forall s | s in ups && (!IsSynced(db.services, ups, s) || s in silent + broken || NothingLinked(db, s))
      ensures after[s] == ups[s]
    {
      UpstreamDecides(db, ups, after, done, ready, troubles, s);
    }
    forall s, id | s in ups && s in done && !NothingLinked(db, s)
      ensures s in ready ==> if IsRefused(troubles, s, id) then IsAsBefore(ups[s], after[s], id)
                             else IsAligned(db, s, ups[s], after[s], id)
      ensures IsAsBefore(ups[s], after[s], id) || IsAligned(db, s, ups[s], after[s], id)
    {
      AccountDecides(db, ups, after, done, ready, troubles, s, id);
    }
  }

  lemma RowsComeRight(db: Db, ups: map<ServiceId, Upstream>, silent: set<ServiceId>, broken: set<ServiceId>,
                      troubles: map<ServiceId, Trouble>, ready: set<ServiceId>, now: Time)
    requires IsReady(db, ups, silent, broken, troubles, ready)
    ensures RowsAreRight(db, ups, FailAll(db, Vanished(db, ups, ready), now), silent, broken, troubles, now)
  {
    var out := FailAll(db, Vanished(db, ups, ready), now);
    assert out.subs.Keys == db.subs.Keys && out == db.(subs := out.subs);
    assert forall s :: GotThrough(db, ups, silent, broken, troubles, s) ==> s in ups;
    hide FailAll, Vanished, GotThrough, MissesAccount, NotFoundRow;
    forall k | k in db.subs
      ensures out.subs[k] == if db.subs[k].status == Active && GotThrough(db, ups, silent, broken, troubles, k.service)
                                && MissesAccount(db, k, ups[k.service])
                             then NotFoundRow(db.subs[k], now) else db.subs[k]
    {
      MarkedRow(db, ups, ready, now, k);
    }
  }
}
