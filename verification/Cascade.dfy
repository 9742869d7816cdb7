/** Propagation from a MANAGED subscription to the REFERENCED subscriptions drawn from it, and the
    entitlement clamp (subscriptionCascade.service.ts).

    Every cascade is a loop of single-row writes in an unspecified order. Each loop is proved equal to
    one pointwise map on the store, so the order never shows. */
module Cascade {
  import opened Model
  import opened Store

  // ---------- The entitlement clamp ----------

  datatype Entitlement = Entitlement(active: bool, expiresAt: Option<Time>)

  function FindById(db: Db, id: SubId): Option<Subscription> {
    if Live(db.subs, id) then Some(db.subs[id.key]) else None
  }

  function ResolveEffectiveEntitlement(db: Db, row: Subscription, now: Time): Entitlement {
    var ownActive := row.status == Active;
    var notExpired := Unexpired(row.expiresAt, now);
    if row.derivedFrom.None? then
      Entitlement(ownActive && notExpired, row.expiresAt)
    else
      match FindById(db, row.derivedFrom.value)
      case None => Entitlement(false, row.expiresAt)
      case Some(source) =>
        var sourceActive := source.status == Active && Unexpired(source.expiresAt, now);
        Entitlement(ownActive && notExpired && sourceActive, Earliest(row.expiresAt, source.expiresAt))
  }

  /** In any store that is a forest, a standing entitlement on a REFERENCED service rests on a live
      subscription of the same user on the account source, and ends no later than it. */
  lemma EntitlementNeedsSource(db: Db, k: Key, now: Time)
    requires Forest(db) && k in db.subs && db.services[k.service].accountType == Referenced
    ensures var e := ResolveEffectiveEntitlement(db, db.subs[k], now);
            && SourceKey(db.services, k) in db.subs
            && var source := db.subs[SourceKey(db.services, k)];
            && NoLater(e.expiresAt, source.expiresAt) && NoLater(e.expiresAt, db.subs[k].expiresAt)
            && (e.active <==>
                 && db.subs[k].status == Active && Unexpired(db.subs[k].expiresAt, now)
                 && source.status == Active && Unexpired(source.expiresAt, now)
                 && db.services[SourceKey(db.services, k).service].accountType == Managed)
  {
  }

  // ---------- The cascades as pointwise maps ----------

  function MapDerived(db: Db, id: SubId, f: Subscription -> Subscription): Db {
    db.(subs := map q | q in db.subs :: if IsDerivedFrom(db.subs[q], id) then f(db.subs[q]) else db.subs[q])
  }

  function Clamp(expiresAt: Option<Time>): Subscription -> Subscription {
    (row: Subscription) => row.(expiresAt := Earliest(row.expiresAt, expiresAt))
  }

  function SetStatus(status: Status, now: Time): Subscription -> Subscription {
    (row: Subscription) =>
      row.(status := status, cancelledAt := if status == Cancelled then Some(now) else row.cancelledAt)
  }

  function Revive(expiresAt: Option<Time>): Subscription -> Subscription {
    (row: Subscription) =>
      row.(status := Active, expiresAt := Earliest(row.expiresAt, expiresAt),
           cancelledAt := None, lastError := None, failedAt := None)
  }

  /** The row under `q` once it mirrors `source`: brought up to date if there is one, else created. */
  function MirrorRow(db: Db, source: Subscription, q: Key, now: Time): Subscription {
    if q in db.subs then
      db.subs[q].(status := Active, expiresAt := source.expiresAt, autoRenew := source.autoRenew,
                  derivedFrom := Some(source.id), cancelledAt := None, lastError := None, failedAt := None)
    else
      Subscription(FreshId(db, q), Active, source.expiresAt, source.autoRenew, Some(source.id),
                   Some(now), None, None, None, None)
  }

  /** Each target mirrors the row its user has on the service `src`. */
  function MirrorAll(db: Db, src: ServiceId, targets: set<Key>, now: Time): Db
    requires forall q :: q in targets ==> Key(q.user, src) in db.subs
  {
    db.(subs := map q | q in db.subs.Keys + targets ::
                  if q in targets then MirrorRow(db, db.subs[Key(q.user, src)], q, now) else db.subs[q],
        born := map q | q in db.born.Keys + (targets - db.subs.Keys) ::
                  if q in targets && q !in db.subs then Born(db.born, q) + 1 else Born(db.born, q))
  }

  /** An enabled REFERENCED service that takes its accounts from `src`. */
  predicate DrawsOn(service: Service, src: ServiceId) {
    service.enabled && service.accountType == Referenced && service.accountSource == Some(src)
  }

  /** The rows that must mirror the subscription under `k` once it is active. */
  function Referencing(services: map<ServiceId, Service>, k: Key): (targets: set<Key>)
    ensures forall q :: q in targets <==>
              q.user == k.user && q.service in services && DrawsOn(services[q.service], k.service)
  {
    set s | s in services && DrawsOn(services[s], k.service) :: Key(k.user, s)
  }

  function Activated(db: Db, k: Key, now: Time): Db
    requires k in db.subs
  {
    MirrorAll(db, k.service, Referencing(db.services, k), now)
  }

  /** The users' rows on a new REFERENCED service: one for each live subscription on its source. */
  function Subscribers(db: Db, src: ServiceId, service: ServiceId, now: Time): (targets: set<Key>)
    ensures forall q :: q in targets <==>
              && q.service == service && Key(q.user, src) in db.subs
              && db.subs[Key(q.user, src)].status == Active && Unexpired(db.subs[Key(q.user, src)].expiresAt, now)
  {
    set k | k in db.subs && k.service == src && db.subs[k].status == Active && Unexpired(db.subs[k].expiresAt, now)
      :: Key(k.user, service)
  }

  // ---------- What the maps keep ----------

  /** Mirroring hangs the targets off their source, creates the missing ones, and leaves the rest alone. */
  lemma MirrorKeepsForest(db: Db, src: ServiceId, targets: set<Key>, now: Time)
    requires Forest(db) && src in db.services
    requires forall q :: q in targets ==>
      && Key(q.user, src) in db.subs && q.service in db.services
      && db.services[q.service].accountType == Referenced && db.services[q.service].accountSource == Some(src)
    ensures Forest(MirrorAll(db, src, targets, now))
    ensures forall q :: q in targets ==>
      && q in MirrorAll(db, src, targets, now).subs
      && var row := MirrorAll(db, src, targets, now).subs[q];
      && var source := db.subs[Key(q.user, src)];
      && row.status == Active && row.expiresAt == source.expiresAt && row.autoRenew == source.autoRenew
      && row.derivedFrom == Some(source.id)
    ensures forall q :: q in db.subs && q !in targets ==> MirrorAll(db, src, targets, now).subs[q] == db.subs[q]
  {
    var out := MirrorAll(db, src, targets, now);
    forall q | q in out.subs ensures RowOk(out, q) {
      if q in targets {
        MirroredRowOk(db, src, targets, q, now);
      } else {
        OtherRowOk(db, src, targets, q, now);
      }
    }
    forall a | a in out.accounts ensures AccountOk(out, a) {
      assert AccountOk(db, a);
      var p := db.accounts[a].subscription.key;
      assert RowOk(db, p);
    }
  }

  lemma MirroredRowOk(db: Db, src: ServiceId, targets: set<Key>, q: Key, now: Time)
    requires Forest(db) && q in targets
    requires forall p :: p in targets ==>
      && Key(p.user, src) in db.subs && p.service in db.services
      && db.services[p.service].accountType == Referenced && db.services[p.service].accountSource == Some(src)
    ensures RowOk(MirrorAll(db, src, targets, now), q)
  {
    hide AccountOk, ExternalIdsUnique;
    var s := Key(q.user, src);
    assert RowOk(db, s);
    assert s !in targets;
    assert q in db.subs ==> RowOk(db, q);
  }

  lemma OtherRowOk(db: Db, src: ServiceId, targets: set<Key>, q: Key, now: Time)
    requires Forest(db) && q in db.subs && q !in targets
    requires forall p :: p in targets ==>
      && Key(p.user, src) in db.subs && p.service in db.services && db.services[p.service].accountType == Referenced
    ensures RowOk(MirrorAll(db, src, targets, now), q)
  {
    hide AccountOk, ExternalIdsUnique;
    assert RowOk(db, q);
    if db.services[q.service].accountType == Referenced {
      var s := SourceKey(db.services, q);
      assert RowOk(db, s) && s !in targets;
    }
  }

  /** After an activation the user has exactly one row per enabled REFERENCED service drawing on the
      source, active and mirroring it; no other row moved and none vanished. */
  lemma ActivationMirrors(db: Db, k: Key, now: Time)
    requires Forest(db) && k in db.subs && db.services[k.service].accountType == Managed
    ensures Forest(Activated(db, k, now))
    ensures forall s :: s in db.services && DrawsOn(db.services[s], k.service) ==>
              && Key(k.user, s) in Activated(db, k, now).subs
              && var row := Activated(db, k, now).subs[Key(k.user, s)];
              row.status == Active && row.expiresAt == db.subs[k].expiresAt && row.derivedFrom == Some(db.subs[k].id)
    ensures forall q :: q in db.subs && q !in Referencing(db.services, k) ==>
        Activated(db, k, now).subs[q] == db.subs[q]
    ensures Activated(db, k, now).subs.Keys == db.subs.Keys + Referencing(db.services, k)
    ensures forall q :: q in Referencing(db.services, k) ==> Activated(db, k, now).subs[q].status == Active
  {
    assert RowOk(db, k);
    MirrorKeepsForest(db, k.service, Referencing(db.services, k), now);
    forall s | s in db.services && DrawsOn(db.services[s], k.service)
      ensures Key(k.user, s) in Referencing(db.services, k)
    {
    }
  }

  /** When an entitlement stands, and until when, in the columns of the row and of the row it derives from. */
  lemma EntitlementDecides(db: Db, row: Subscription, now: Time)
    ensures var e := ResolveEffectiveEntitlement(db, row, now);
      match row.derivedFrom
      case None =>
        e.expiresAt == row.expiresAt
        && (e.active <==> row.status == Active && (row.expiresAt == None || row.expiresAt.value > now))
      case Some(id) =>
        if id.key in db.subs && db.subs[id.key].id == id then
          var source := db.subs[id.key];
          && (e.active <==>
               && row.status == Active && (row.expiresAt == None || row.expiresAt.value > now)
               && source.status == Active && (source.expiresAt == None || source.expiresAt.value > now))
          && e.expiresAt == (if source.expiresAt == None then row.expiresAt
                             else if row.expiresAt != None && row.expiresAt.value < source.expiresAt.value
                             then row.expiresAt else source.expiresAt)
        else !e.active
  {
  }

  /** `row` mirrors `source`, column by column, having been `was` if there was a row. */
  ghost predicate IsMirror(was: Option<Subscription>, row: Subscription, source: Subscription, now: Time) {
    && row.status == Active && row.expiresAt == source.expiresAt && row.autoRenew == source.autoRenew
    && row.derivedFrom == Some(source.id)
    && row.cancelledAt == None && row.lastError == None && row.failedAt == None
    && (was.Some? ==> row.id == was.value.id && row.provisionedAt == was.value.provisionedAt
                      && row.failedOperation == was.value.failedOperation)
    && (was.None? ==> row.provisionedAt == Some(now) && row.failedOperation == None)
  }

  /** Exactly the user's rows on enabled REFERENCED services of this source become mirrors of it. */
  lemma ActivationDecides(db: Db, k: Key, now: Time, q: Key)
    requires k in db.subs
    ensures var out := Activated(db, k, now);
      var mirrors := q.user == k.user && q.service in db.services && db.services[q.service].enabled
                     && db.services[q.service].accountType == Referenced
                     && db.services[q.service].accountSource == Some(k.service);
      && (q in out.subs <==> q in db.subs || mirrors)
      && (mirrors ==> IsMirror(if q in db.subs then Some(db.subs[q]) else None, out.subs[q], db.subs[k], now))
      && (q in db.subs && !mirrors ==> out.subs[q] == db.subs[q])
      && out == db.(subs := out.subs, born := out.born)
  {
  }

  /** What a cascade leaves of any row: those deriving from `id`, and no others, are changed. */
  lemma CascadeDecides(db: Db, id: SubId, expiresAt: Option<Time>, status: Status, now: Time, q: Key)
    requires q in db.subs
    ensures var row := db.subs[q];
      var earlier := if expiresAt == None || (row.expiresAt != None && row.expiresAt.value <= expiresAt.value)
                     then row.expiresAt else expiresAt;
      && MapDerived(db, id, SetStatus(status, now)).subs[q] ==
           (if row.derivedFrom != Some(id) then row
            else if status == Cancelled then row.(status := Cancelled, cancelledAt := Some(now))
            else row.(status := status))
      && MapDerived(db, id, Clamp(expiresAt)).subs[q] ==
           (if row.derivedFrom != Some(id) then row else row.(expiresAt := earlier))
      && MapDerived(db, id, Revive(expiresAt)).subs[q] ==
           (if row.derivedFrom != Some(id) then row
            else row.(status := Active, expiresAt := earlier, cancelledAt := None, lastError := None, failedAt := None))
  {
  }

  /** Clamping twice to one expiry is clamping once, and it never lengthens a row. */
  lemma ClampIsIdempotent(db: Db, id: SubId, expiresAt: Option<Time>)
    ensures var once := MapDerived(db, id, Clamp(expiresAt));
            && MapDerived(once, id, Clamp(expiresAt)) == once
            && (forall q :: q in db.subs ==> NoLater(once.subs[q].expiresAt, db.subs[q].expiresAt))
            && (forall q :: q in db.subs && IsDerivedFrom(db.subs[q], id) ==>
                NoLater(once.subs[q].expiresAt, expiresAt))
  {
  }

  // ---------- The loops ----------

  method FindDerived(store: Database, id: SubId) returns (rows: seq<Key>)
    ensures Enumerates(rows, set q | q in store.subs && IsDerivedFrom(store.subs[q], id))
  {
    rows := store.FindMany((k, row) => IsDerivedFrom(row, id));
  }

  /** The state of a cascade that has dealt with the rows in `done`. */
  ghost function MapDone(db: Db, done: seq<Key>, f: Subscription -> Subscription): Db {
    db.(subs := map q | q in db.subs :: if q in done then f(db.subs[q]) else db.subs[q])
  }

  lemma MapDoneNext(db: Db, rows: seq<Key>, i: nat, f: Subscription -> Subscription)
    requires i < |rows| && rows[i] in db.subs && rows[i] !in rows[..i]
    ensures MapDone(db, rows[..i + 1], f) == Put(MapDone(db, rows[..i], f), rows[i], f(db.subs[rows[i]]))
  {
  }

  lemma MapDoneAll(db: Db, id: SubId, rows: seq<Key>, f: Subscription -> Subscription)
    requires Enumerates(rows, set q | q in db.subs && IsDerivedFrom(db.subs[q], id))
    ensures MapDone(db, rows[..|rows|], f) == MapDerived(db, id, f)
  {
    assert rows[..|rows|] == rows;
    assert MapDone(db, rows, f).subs == MapDerived(db, id, f).subs;
  }

  /** Applies a terminal or paused status to everything derived from `source`. */
  method OnDeactivated(store: Database, source: Subscription, status: Status, now: Time)
    modifies store
    ensures store.View() == MapDerived(old(store.View()), source.id, SetStatus(status, now))
  {
    ghost var before := store.View();
    var derived := FindDerived(store, source.id);
    for i := 0 to |derived|
      invariant store.View() == MapDone(before, derived[..i], SetStatus(status, now))
    {
      var patch := (row: Subscription) =>
        if status == Cancelled then row.(status := status, cancelledAt := Some(now)) else row.(status := status);
      var _ := store.Update(derived[i], patch);
      MapDoneNext(before, derived, i, SetStatus(status, now));
    }
    MapDoneAll(before, source.id, derived, SetStatus(status, now));
  }

  /** Restores derived rows when the source becomes active again, clamping their expiry. */
  method OnReactivated(store: Database, source: Subscription)
    modifies store
    ensures store.View() == MapDerived(old(store.View()), source.id, Revive(source.expiresAt))
  {
    ghost var before := store.View();
    var derived := FindDerived(store, source.id);
    for i := 0 to |derived|
      invariant store.View() == MapDone(before, derived[..i], Revive(source.expiresAt))
    {
      var seen := store.subs[derived[i]];
      var clamped := Earliest(seen.expiresAt, source.expiresAt);
      var patch := (row: Subscription) =>
        row.(status := Active, expiresAt := clamped, cancelledAt := None, lastError := None, failedAt := None);
      MapDoneNext(before, derived, i, Revive(source.expiresAt));
      var _ := store.Update(derived[i], patch);
    }
    MapDoneAll(before, source.id, derived, Revive(source.expiresAt));
  }

  /** Clamps derived expiries after the source's changed; a row already in bounds is not written. */
  method OnExpiryChanged(store: Database, source: Subscription)
    modifies store
    ensures store.View() == MapDerived(old(store.View()), source.id, Clamp(source.expiresAt))
  {
    ghost var before := store.View();
    var derived := FindDerived(store, source.id);
    for i := 0 to |derived|
      invariant store.View() == MapDone(before, derived[..i], Clamp(source.expiresAt))
    {
      var seen := store.subs[derived[i]];
      var clamped := Earliest(seen.expiresAt, source.expiresAt);
      MapDoneNext(before, derived, i, Clamp(source.expiresAt));
      if clamped != seen.expiresAt {
        var patch := (row: Subscription) => row.(expiresAt := source.expiresAt);
        var _ := store.Update(derived[i], patch);
      }
    }
    MapDoneAll(before, source.id, derived, Clamp(source.expiresAt));
  }

  /** Writes one mirrored row: an update when the user already has a row there, else an insert. */
  method WriteMirror(store: Database, source: Subscription, q: Key, now: Time)
    requires q.user in store.users && q.service in store.services && HasId(store.subs, source.id)
    modifies store
    ensures var db := old(store.View());
            store.View() == db.(subs := db.subs[q := MirrorRow(db, source, q, now)],
                                born := if q in db.subs then db.born else db.born[q := Born(db.born, q) + 1])
  {
    if q in store.subs {
      var patch := (row: Subscription) =>
        row.(status := Active, expiresAt := source.expiresAt, autoRenew := source.autoRenew,
             derivedFrom := Some(source.id), cancelledAt := None, lastError := None, failedAt := None);
      var _ := store.Update(q, patch);
    } else {
      var fill := (id: SubId) =>
        Subscription(id, Active, source.expiresAt, source.autoRenew, Some(source.id), Some(now), None, None, None,
            None);
      var _ := store.Create(q, fill);
    }
  }

  lemma MirrorOneMore(db: Db, src: ServiceId, done: set<Key>, q: Key, now: Time)
    requires q !in done && forall p :: p in done + {q} ==> Key(p.user, src) in db.subs
    ensures var mid := MirrorAll(db, src, done, now);
            MirrorAll(db, src, done + {q}, now) ==
            mid.(subs := mid.subs[q := MirrorRow(mid, db.subs[Key(q.user, src)], q, now)],
                 born := if q in mid.subs then mid.born else mid.born[q := Born(mid.born, q) + 1])
  {
    MirrorOneMoreRow(db, src, done, q, now);
    MirrorOneMoreBirth(db, src, done, q, now);
  }

  lemma MirrorOneMoreRow(db: Db, src: ServiceId, done: set<Key>, q: Key, now: Time)
    requires q !in done && forall p :: p in done + {q} ==> Key(p.user, src) in db.subs
    ensures var mid := MirrorAll(db, src, done, now);
            MirrorAll(db, src, done + {q}, now).subs == mid.subs[q := MirrorRow(mid, db.subs[Key(q.user, src)], q, now)]
  {
  }

  lemma MirrorOneMoreBirth(db: Db, src: ServiceId, done: set<Key>, q: Key, now: Time)
    requires q !in done && forall p :: p in done + {q} ==> Key(p.user, src) in db.subs
    ensures var mid := MirrorAll(db, src, done, now);
            MirrorAll(db, src, done + {q}, now).born == if q in mid.subs then mid.born
                else mid.born[q := Born(mid.born, q) + 1]
  {
    hide MirrorRow;
  }

  lemma MirrorNone(db: Db, src: ServiceId, now: Time)
    ensures MirrorAll(db, src, {}, now) == db
  {
  }

  /** One iteration of a mirroring loop that has dealt with the targets in `done`. */
  method MirrorNext(store: Database, source: Subscription, q: Key, now: Time,
                    ghost before: Db, ghost src: ServiceId, ghost done: set<Key>)
    requires q !in done && forall p :: p in done + {q} ==> Key(p.user, src) in before.subs
    requires source == before.subs[Key(q.user, src)]
    requires q.user in before.users && q.service in before.services
    requires store.View() == MirrorAll(before, src, done, now)
    modifies store
    ensures store.View() == MirrorAll(before, src, done + {q}, now)
  {
    MirrorOneMore(before, src, done, q, now);
    assert store.subs[Key(q.user, src)].id == source.id;
    WriteMirror(store, source, q, now);
  }

  /** Derives a subscription on every enabled REFERENCED service drawing on a newly active one. */
  method OnActivated(store: Database, k: Key, now: Time)
    requires k in store.subs && k.user in store.users
    modifies store
    ensures store.View() == Activated(old(store.View()), k, now)
  {
    ghost var before := store.View();
    var source, services := store.subs[k], store.services;
    ghost var targets := Referencing(services, k);
    var referencing := ListSet(set s | s in services && services[s].accountSource == Some(k.service)
        && services[s].enabled);
    ghost var done: set<Key> := {};
    MirrorNone(before, k.service, now);
    for i := 0 to |referencing|
      invariant done <= targets
      invariant forall q :: q in targets && q.service in referencing[..i] ==> q in done
      invariant forall q :: q in done ==> q.service in referencing[..i]
      invariant store.View() == MirrorAll(before, k.service, done, now)
    {
      var s := referencing[i];
      var q := Key(k.user, s);
      assert forall p :: p in targets && p.service in referencing[..i + 1] ==> p in done || p == q;
      if services[s].accountType == Referenced {
        assert DrawsOn(services[s], k.service);
        MirrorNext(store, source, q, now, before, k.service, done);
        done := done + {q};
      }
    }
    assert done == targets by {
      forall q | q in targets ensures q.service in referencing[..|referencing|] {
        assert q.service in referencing;
      }
    }
  }

  /** The targets whose source is among these rows. */
  ghost function Reached(targets: set<Key>, src: ServiceId, rows: seq<Key>): set<Key> {
    set q | q in targets && Key(q.user, src) in rows
  }

  lemma ReachedNext(targets: set<Key>, src: ServiceId, service: ServiceId, rows: seq<Key>, i: nat)
    requires i < |rows| && rows[i].service == src && forall q :: q in targets ==> q.service == service
    requires forall m, n :: 0 <= m < n < |rows| ==> rows[m] != rows[n]
    ensures var q := Key(rows[i].user, service);
      && q !in Reached(targets, src, rows[..i])
      && Reached(targets, src, rows[..i + 1]) == Reached(targets, src, rows[..i]) + if q in targets then {q} else {}
  {
    var q := Key(rows[i].user, service);
    assert rows[i] == Key(q.user, src) && rows[i] !in rows[..i];
    assert rows[..i + 1] == rows[..i] + [rows[i]];
  }

  lemma AllReached(targets: set<Key>, src: ServiceId, rows: seq<Key>)
    requires forall q :: q in targets ==> Key(q.user, src) in rows
    ensures Reached(targets, src, rows[..|rows|]) == targets
  {
    assert rows[..|rows|] == rows;
  }

  /** Mirrors the live ones among the active subscriptions of `src` onto another service. */
  method MirrorSources(store: Database, src: ServiceId, service: ServiceId, sources: seq<Key>, now: Time)
    returns (impacted: set<UserId>)
    requires service in store.services && (forall k :: k in store.subs ==> k.user in store.users)
    requires Enumerates(sources, set k | k in store.subs && k.service == src && store.subs[k].status == Active)
    modifies store
    ensures var targets := Subscribers(old(store.View()), src, service, now);
      && store.View() == MirrorAll(old(store.View()), src, targets, now)
      && (forall u :: u in impacted <==> Key(u, service) in targets)
  {
    ghost var before := store.View();
    ghost var targets := Subscribers(before, src, service, now);
    var snapshot := store.subs;
    impacted := {};
    ghost var done: set<Key> := {};
    MirrorNone(before, src, now);
    hide MirrorAll;
    for i := 0 to |sources|
      invariant done == Reached(targets, src, sources[..i]) && done <= targets
      invariant forall u :: u in impacted <==> Key(u, service) in done
      invariant store.View() == MirrorAll(before, src, done, now)
    {
      var source := snapshot[sources[i]];
      var q := Key(sources[i].user, service);
      assert sources[i] == Key(q.user, src);
      ReachedNext(targets, src, service, sources, i);
      hide Reached;
      if source.expiresAt.None? || source.expiresAt.value > now {
        MirrorNext(store, source, q, now, before, src, done);
        impacted := impacted + {q.user};
        done := done + {q};
      }
    }
    AllReached(targets, src, sources);
  }

  /** Mirrors the live subscriptions of the account source onto a newly created REFERENCED service,
      and names the users affected. */
  method OnReferencedServiceCreated(store: Database, service: ServiceId, now: Time) returns (impacted: set<UserId>)
    requires service in store.services && (forall k :: k in store.subs ==> k.user in store.users)
    modifies store
    ensures var db := old(store.View());
            if db.services[service].accountSource.None? then store.View() == db && impacted == {}
            else var targets := Subscribers(db, db.services[service].accountSource.value, service, now);
              && store.View() == MirrorAll(db, db.services[service].accountSource.value, targets, now)
              && (forall u :: u in impacted <==> Key(u, service) in targets)
  {
    if store.services[service].accountSource.None? {
      return {};
    }
    var src := store.services[service].accountSource.value;
    var sources := store.FindMany((k: Key, row: Subscription) => k.service == src && row.status == Active);
    impacted := MirrorSources(store, src, service, sources, now);
  }
}
