/** The scheduled expiration loop (subscriptionLifecycle.service.ts, processSubscriptions).

    The loop walks a snapshot of the active rows taken before its own cascades run, in an order the
    database chooses. `outages` is the set of rows whose external account cannot be disabled in this
    run: any pattern of failures is such a set, because a run visits each row once. */
module Expiration {
  import opened Model
  import opened Store
  import opened Cascade

  // ---------- One run as a function ----------

  const FAILURE: string := "Failed to disable the external account"
  const NO_EXPIRY: string := "Active subscription had no expiration date"

  function Renewed(row: Subscription, expiresAt: Time): Subscription {
    row.(expiresAt := Some(expiresAt), lastError := None, failedAt := None)
  }

  function Failing(row: Subscription, operation: FailedOperation, message: string, now: Time): Subscription {
    row.(status := Failed, lastError := Some(message), failedAt := Some(now), failedOperation := Some(operation))
  }

  predicate NotDue(seen: Subscription, now: Time) {
    seen.expiresAt.Some? && seen.expiresAt.value > now
  }

  predicate Renews(seen: Subscription, now: Time) {
    seen.expiresAt.Some? && seen.expiresAt.value <= now && seen.autoRenew
  }

  /** What the turn of one row leaves of any row: `seen` is the visited row as the snapshot has it; `self`
      and `below` tell whether the row in hand is the visited one and whether it derives from it. */
  function RowAfter(row: Subscription, self: bool, below: bool, seen: Subscription, now: Time,
                    out: bool): Subscription {
    if NotDue(seen, now) then row
    else if Renews(seen, now) then
      var expiresAt := Some(seen.expiresAt.value + PERIOD);
      if self then Renewed(row, expiresAt.value)
      else if below then row.(expiresAt := Earliest(row.expiresAt, expiresAt)) else row
    else if out then
      if self then Failing(row, FailedExpiration, FAILURE, now) else row
    else if self then Ended(row, seen)
    else if below then row.(status := Terminal(seen)) else row
  }

  function Terminal(seen: Subscription): Status {
    if seen.expiresAt.Some? then Expired else Disabled
  }

  function Ended(row: Subscription, seen: Subscription): Subscription {
    row.(status := Terminal(seen), failedAt := None,
         lastError := if seen.expiresAt.Some? then None else Some(NO_EXPIRY))
  }

  /** One iteration: `seen` is the row as the snapshot has it, `db` the store as it is now. */
  function ProcessRow(db: Db, k: Key, seen: Subscription, now: Time, outages: set<Key>): Db
    requires k in db.subs
  {
    var id := db.subs[k].id;
    db.(subs := map q | q in db.subs ::
        RowAfter(db.subs[q], q == k, IsDerivedFrom(db.subs[q], id), seen, now, k in outages))
  }

  /** The rows in `order`, first to last, each with its snapshot in `before`. */
  function ProcessRows(before: Db, order: seq<Key>, now: Time, outages: set<Key>): (after: Db)
    requires forall k :: k in order ==> k in before.subs
    ensures after.subs.Keys == before.subs.Keys
  {
    if order == [] then before
    else
      var last := |order| - 1;
      ProcessRow(ProcessRows(before, order[..last], now, outages), order[last], before.subs[order[last]], now, outages)
  }

  function ActiveKeys(db: Db): set<Key> {
    set k | k in db.subs && db.subs[k].status == Active
  }

  /** A visiting order the database may answer with. */
  ghost predicate IsRunOrder(db: Db, order: seq<Key>) {
    Enumerates(order, ActiveKeys(db))
  }

  /** A row whose turn reaches the external account. */
  predicate EndsNow(seen: Subscription, now: Time) {
    !NotDue(seen, now) && !Renews(seen, now)
  }

  /** A row that writes itself and then cascades, as the pointwise step says. */
  lemma StepIsWriteThenCascade(db: Db, k: Key, seen: Subscription, now: Time, outages: set<Key>,
                               own: Subscription, f: Subscription -> Subscription)
    requires k in db.subs && !IsDerivedFrom(db.subs[k], db.subs[k].id)
    requires own.id == db.subs[k].id && own.derivedFrom == db.subs[k].derivedFrom
    requires forall q :: q in db.subs ==>
      RowAfter(db.subs[q], q == k, IsDerivedFrom(db.subs[q], own.id), seen, now, k in outages) ==
      if q == k then own else if IsDerivedFrom(db.subs[q], own.id) then f(db.subs[q]) else db.subs[q]
    ensures MapDerived(Put(db, k, own), own.id, f) == ProcessRow(db, k, seen, now, outages)
  {
  }

  // ---------- The loop ----------

  /** The turn of one row. */
  method ProcessOne(store: Database, k: Key, seen: Subscription, now: Time, outages: set<Key>) returns (ok: bool)
    requires k in store.subs && !IsDerivedFrom(store.subs[k], store.subs[k].id)
    modifies store
    ensures store.View() == ProcessRow(old(store.View()), k, seen, now, outages)
    ensures ok <==> !(k in outages && EndsNow(seen, now))
  {
    ghost var db := store.View();
    if seen.expiresAt.Some? && seen.expiresAt.value > now {
      assert ProcessRow(db, k, seen, now, outages).subs == db.subs;
      return true;
    }
    if seen.expiresAt.Some? && seen.autoRenew {
      var expiresAt := seen.expiresAt.value + PERIOD;
      var renewed := store.Update(k, (row: Subscription) => Renewed(row, expiresAt));
      OnExpiryChanged(store, renewed.value);
      StepIsWriteThenCascade(db, k, seen, now, outages, renewed.value, Clamp(renewed.value.expiresAt));
      return true;
    }
    if k in outages {
      var _ := store.Update(k, (row: Subscription) => Failing(row, FailedExpiration, FAILURE, now));
      assert ProcessRow(db, k, seen, now, outages).subs == store.subs;
      return false;
    }
    var terminal := if seen.expiresAt.Some? then Expired else Disabled;
    var updated := store.Update(k, (row: Subscription) => Ended(row, seen));
    OnDeactivated(store, updated.value, terminal, now);
    StepIsWriteThenCascade(db, k, seen, now, outages, updated.value, SetStatus(terminal, now));
    return true;
  }

  ghost predicate AllIn(rows: seq<Key>, subs: map<Key, Subscription>) {
    forall k :: k in rows ==> k in subs
  }

  /** The turns of these rows, each decided on the snapshot. */
  method ProcessEach(store: Database, rows: seq<Key>, now: Time, outages: set<Key>) returns (success: bool)
    requires Forest(store.View()) && AllIn(rows, store.subs)
    modifies store
    ensures store.View() == ProcessRows(old(store.View()), rows, now, outages)
    ensures success <==> NoneOut(rows, old(store.subs), now, outages)
  {
    hide Forest, ProcessRows, ProcessRow, EndsNow;
    ghost var before := store.View();
    var snapshot := store.subs;
    success := true;
    NoTurnsYet(before, rows, now, outages);
    for i := 0 to |rows|
      invariant AllIn(rows[..i], before.subs) && store.View() == ProcessRows(before, rows[..i], now, outages)
      invariant success <==> NoneOut(rows[..i], snapshot, now, outages)
    {
      RunNext(before, rows, i, now, outages);
      assert rows[..i + 1] == rows[..i] + [rows[i]];
      var ok := ProcessOne(store, rows[i], snapshot[rows[i]], now, outages);
      success := success && ok;
    }
    assert rows[..|rows|] == rows;
  }

  /** No row whose turn reaches the external account is out of reach. */
  ghost predicate NoneOut(rows: seq<Key>, subs: map<Key, Subscription>, now: Time, outages: set<Key>)
    requires AllIn(rows, subs)
  {
    forall k :: k in rows ==> !(k in outages && EndsNow(subs[k], now))
  }

  lemma NoTurnsYet(before: Db, rows: seq<Key>, now: Time, outages: set<Key>)
    ensures AllIn(rows[..0], before.subs) && ProcessRows(before, rows[..0], now, outages) == before
    ensures NoneOut(rows[..0], before.subs, now, outages)
  {
  }

  /** The scheduled run. It reports success iff no row that must end was out. */
  method ProcessSubscriptions(store: Database, now: Time, outages: set<Key>)
    returns (success: bool, ghost order: seq<Key>)
    requires Forest(store.View())
    modifies store
    ensures IsRunOrder(old(store.View()), order) && VisitsActive(old(store.View()), order)
    ensures store.View() == ProcessRows(old(store.View()), order, now, outages)
    ensures success <==> !exists k :: k in outages && k in old(store.subs) && old(store.subs)[k].status == Active
                                      && MustEnd(old(store.subs)[k], now)
  {
    ghost var before := store.View();
    var rows := store.FindMany((k: Key, row: Subscription) => row.status == Active);
    order := rows;
    assert (set k | k in before.subs && before.subs[k].status == Active) == ActiveKeys(before);
    hide Forest, ProcessRows, EndsNow, MustEnd;
    VisitsAllActive(before, rows);
    NoneMissed(before, rows, now, outages);
    success := ProcessEach(store, rows, now, outages);
  }

  lemma VisitsAllActive(db: Db, order: seq<Key>)
    requires IsRunOrder(db, order)
    ensures VisitsActive(db, order)
  {
  }

  lemma NoneMissed(db: Db, order: seq<Key>, now: Time, outages: set<Key>)
    requires VisitsActive(db, order)
    ensures AllIn(order, db.subs)
    ensures NoneOut(order, db.subs, now, outages) <==>
            !exists k :: k in outages && k in db.subs && db.subs[k].status == Active && MustEnd(db.subs[k], now)
  {
  }

  lemma RunNext(before: Db, rows: seq<Key>, i: nat, now: Time, outages: set<Key>)
    requires Forest(before) && i < |rows| && forall k :: k in rows ==> k in before.subs
    ensures var mid := ProcessRows(before, rows[..i], now, outages);
      && rows[i] in mid.subs && !IsDerivedFrom(mid.subs[rows[i]], mid.subs[rows[i]].id)
      && ProcessRows(before, rows[..i + 1], now, outages) ==
          ProcessRow(mid, rows[i], before.subs[rows[i]], now, outages)
  {
    assert rows[..i + 1][..i] == rows[..i];
    ProcessKeepsShape(before, rows[..i], now, outages);
    NoRowDerivesFromItself(before, rows[i]);
  }

  lemma NoRowDerivesFromItself(db: Db, k: Key)
    requires Forest(db) && k in db.subs
    ensures !IsDerivedFrom(db.subs[k], db.subs[k].id)
  {
  }

  // ---------- What one iteration does to any one row ----------

  /** The run touches no identity column, never makes a row active, and moves an expiry only to the
      visited row's new one. */
  lemma RowAfterFacts(row: Subscription, self: bool, below: bool, seen: Subscription, now: Time, out: bool)
    ensures var after := RowAfter(row, self, below, seen, now, out);
      && after.id == row.id && after.derivedFrom == row.derivedFrom && after.autoRenew == row.autoRenew
      && (after.status == Active ==> row.status == Active)
      && (row.expiresAt.Some? ==> after.expiresAt.Some?)
      && (after.expiresAt == row.expiresAt
          || (Renews(seen, now) && after.expiresAt == Some(seen.expiresAt.value + PERIOD)))
      && (!self && !below ==> after == row)
      && (self && !NotDue(seen, now) && after.status == Active ==> Renews(seen, now))
  {
  }

  /** One row after one more turn of the run. */
  lemma RowNext(before: Db, order: seq<Key>, now: Time, outages: set<Key>, q: Key)
    requires order != [] && q in before.subs && forall k :: k in order ==> k in before.subs
    ensures var mid, k := ProcessRows(before, order[..|order| - 1], now, outages), order[|order| - 1];
      ProcessRows(before, order, now, outages).subs[q] ==
      RowAfter(mid.subs[q], q == k, IsDerivedFrom(mid.subs[q], mid.subs[k].id), before.subs[k], now, k in outages)
  {
  }

  lemma {:induction false} ProcessKeepsShape(before: Db, order: seq<Key>, now: Time, outages: set<Key>)
    requires forall k :: k in order ==> k in before.subs
    ensures SameShape(before, ProcessRows(before, order, now, outages))
  {
    if order != [] {
      var last := |order| - 1;
      ProcessKeepsShape(before, order[..last], now, outages);
      StepKeepsShape(ProcessRows(before, order[..last], now, outages), order[last], before.subs[order[last]], now,
          outages);
    }
  }

  lemma StepKeepsShape(db: Db, k: Key, seen: Subscription, now: Time, outages: set<Key>)
    requires k in db.subs
    ensures SameShape(db, ProcessRow(db, k, seen, now, outages))
  {
  }

  // ---------- Catching up ----------

  /** How many runs a row still needs: none if it is not due, one to end, else one per missed period. */
  function Backlog(row: Subscription, now: Time): nat {
    if row.status != Active then 0
    else if row.expiresAt.None? then 1
    else if row.expiresAt.value > now then 0
    else if !row.autoRenew then 1
    else (now - row.expiresAt.value) / PERIOD + 1
  }

  ghost predicate BacklogWithin(db: Db, now: Time, n: nat) {
    forall k :: k in db.subs ==> Backlog(db.subs[k], now) <= n
  }

  ghost predicate IsMaxBacklog(db: Db, now: Time, n: nat) {
    BacklogWithin(db, now, n) && (n == 0 || exists k :: k in db.subs && Backlog(db.subs[k], now) == n)
  }

  /** A row in the middle of a run against its snapshot `was`: once visited it is one run closer; before
      that it reads as the snapshot does unless a cascade already brought it closer. */
  predicate Shortened(was: Subscription, row: Subscription, visited: bool, now: Time, n: nat) {
    && row.autoRenew == was.autoRenew
    && (row.status == Active ==> was.status == Active)
    && (Backlog(row, now) <= n || (!visited && row.expiresAt == was.expiresAt))
  }

  lemma StepShortens(was: Subscription, row: Subscription, visited: bool, self: bool, below: bool, seen: Subscription,
                     now: Time, out: bool, n: nat)
    requires seen.status == Active && Backlog(seen, now) <= n + 1
    requires Shortened(was, row, visited, now, n) && (self ==> seen == was)
    ensures Shortened(was, RowAfter(row, self, below, seen, now, out), visited || self, now, n)
  {
  }

  lemma LastTurn(order: seq<Key>, k: Key)
    requires order != []
    ensures var rest, last := order[..|order| - 1], order[|order| - 1];
      && order == rest + [last]
      && (k in order <==> k in rest || last == k)
      && ((forall i, j :: 0 <= i < j < |order| ==> order[i] != order[j]) && last == k ==> k !in rest)
  {
  }

  lemma {:induction false} RunShortens(before: Db, order: seq<Key>, now: Time, outages: set<Key>, n: nat, q: Key)
    requires forall k :: k in order ==> k in before.subs && before.subs[k].status == Active
    requires BacklogWithin(before, now, n + 1) && q in before.subs
    ensures Shortened(before.subs[q], ProcessRows(before, order, now, outages).subs[q], q in order, now, n)
  {
    if order != [] {
      hide ProcessRow, RowAfter;
      var rest, k := order[..|order| - 1], order[|order| - 1];
      var mid := ProcessRows(before, rest, now, outages);
      RunShortens(before, rest, now, outages, n, q);
      RowNext(before, order, now, outages, q);
      LastTurn(order, q);
      StepShortens(before.subs[q], mid.subs[q], q in rest, q == k, IsDerivedFrom(mid.subs[q], mid.subs[k].id),
                   before.subs[k], now, k in outages, n);
    }
  }

  /** One run strictly lowers the worst backlog, for every visiting order and every pattern of outages,
      although its own clamps pull derived rows back. */
  lemma RunLowersBacklog(db: Db, order: seq<Key>, now: Time, outages: set<Key>, m: nat, m': nat)
    requires IsRunOrder(db, order) && 0 < m
    requires IsMaxBacklog(db, now, m) && IsMaxBacklog(ProcessRows(db, order, now, outages), now, m')
    ensures m' < m
  {
    RunLowersBound(db, order, now, outages, m - 1);
  }

  lemma RunLowersBound(db: Db, order: seq<Key>, now: Time, outages: set<Key>, n: nat)
    requires IsRunOrder(db, order) && BacklogWithin(db, now, n + 1)
    ensures BacklogWithin(ProcessRows(db, order, now, outages), now, n)
  {
    var after := ProcessRows(db, order, now, outages);
    forall q | q in after.subs ensures Backlog(after.subs[q], now) <= n {
      RunShortens(db, order, now, outages, n, q);
      assert q in order || db.subs[q].status != Active;
    }
  }

  /** With nothing due, a run writes nothing. */
  lemma {:induction false} CaughtUpRunWritesNothing(db: Db, order: seq<Key>, now: Time, outages: set<Key>)
    requires forall k :: k in order ==> k in db.subs && db.subs[k].status == Active
    requires BacklogWithin(db, now, 0)
    ensures ProcessRows(db, order, now, outages) == db
  {
    if order != [] {
      var last := |order| - 1;
      CaughtUpRunWritesNothing(db, order[..last], now, outages);
      var seen := db.subs[order[last]];
      assert Backlog(seen, now) == 0;
      assert NotDue(seen, now);
      assert ProcessRow(db, order[last], seen, now, outages).subs == db.subs;
    }
  }

  // ---------- Many runs ----------

  datatype RunInput = RunInput(order: seq<Key>, now: Time, outages: set<Key>)

  /** The store after each of the given runs, every order being one the store at that time allows. */
  ghost predicate IsHistory(states: seq<Db>, runs: seq<RunInput>) {
    && |states| == |runs| + 1
    && (forall i :: 0 <= i < |runs| ==>
          && IsRunOrder(states[i], runs[i].order)
          && states[i + 1] == ProcessRows(states[i], runs[i].order, runs[i].now, runs[i].outages))
  }

  /** Catching up terminates: at a fixed clock, as many runs as the worst backlog leave nothing due, and
      every later run changes nothing. */
  lemma {:induction false} CatchingUpTerminates(states: seq<Db>, runs: seq<RunInput>, now: Time, m: nat, i: nat)
    requires IsHistory(states, runs) && (forall j :: 0 <= j < |runs| ==> runs[j].now == now)
    requires BacklogWithin(states[0], now, m) && i <= |runs|
    ensures BacklogWithin(states[i], now, if i <= m then m - i else 0)
    ensures m <= i < |runs| ==> states[i + 1] == states[i]
  {
    if 0 < i {
      CatchingUpTerminates(states, runs, now, m, i - 1);
      assert IsRunOrder(states[i - 1], runs[i - 1].order);
      if i <= m {
        RunLowersBound(states[i - 1], runs[i - 1].order, now, runs[i - 1].outages, m - i);
      }
    }
    if m <= i < |runs| {
      assert IsRunOrder(states[i], runs[i].order);
      CaughtUpRunWritesNothing(states[i], runs[i].order, now, runs[i].outages);
    }
  }

  // ---------- A source and a row derived from it, through a run ----------

  /** The same two rows after one more turn, seen as a pair. */
  lemma PairAfter(before: Db, order: seq<Key>, now: Time, outages: set<Key>, k: Key, q: Key)
    requires Forest(before) && order != [] && forall p :: p in order ==> p in before.subs
    requires k in before.subs && q in before.subs && IsDerivedFrom(before.subs[q], before.subs[k].id)
    ensures var mid, p := ProcessRows(before, order[..|order| - 1], now, outages), order[|order| - 1];
      var after := ProcessRows(before, order, now, outages);
      && k != q
      && after.subs[k] == RowAfter(mid.subs[k], p == k, false, before.subs[p], now, p in outages)
      && after.subs[q] == RowAfter(mid.subs[q], p == q, p == k, before.subs[p], now, p in outages)
  {
    var mid, p := ProcessRows(before, order[..|order| - 1], now, outages), order[|order| - 1];
    ProcessKeepsShape(before, order[..|order| - 1], now, outages);
    DerivedRowsAreLeaves(before, k, q);
    assert ProcessRows(before, order, now, outages) == ProcessRow(mid, p, before.subs[p], now, outages);
    if IsDerivedFrom(before.subs[q], before.subs[p].id) {
      DerivedRowsAreLeaves(before, p, q);
    }
  }

  // ---------- Stale-snapshot safety ----------

  /** A source that was active when the run began and ends it expired or disabled has no active derived
      row, for any order and any outages, although derived rows are visited with stale snapshots. */
  lemma {:induction false} StaleSnapshotIsSafe(db: Db, order: seq<Key>, now: Time, outages: set<Key>, k: Key, q: Key)
    requires Forest(db) && (forall p :: p in order ==> p in db.subs)
    requires k in db.subs && q in db.subs && db.subs[k].status == Active && IsDerivedFrom(db.subs[q], db.subs[k].id)
    ensures var after := ProcessRows(db, order, now, outages).subs;
            after[k].status in {Expired, Disabled} ==> after[q].status != Active
  {
    if order != [] {
      hide ProcessRow, RowAfter, Forest;
      var mid, p := ProcessRows(db, order[..|order| - 1], now, outages), order[|order| - 1];
      StaleSnapshotIsSafe(db, order[..|order| - 1], now, outages, k, q);
      PairAfter(db, order, now, outages, k, q);
      StaleTurn(mid.subs[k], mid.subs[q], p == k, p == q, db.subs[p], now, p in outages);
    }
  }

  /** One turn of the run keeps an ended source without active rows below it. */
  lemma StaleTurn(s: Subscription, d: Subscription, sNow: bool, dNow: bool, seen: Subscription, now: Time, out: bool)
    requires (s.status in {Expired, Disabled} ==> d.status != Active) && !(sNow && dNow)
    ensures RowAfter(s, sNow, false, seen, now, out).status in {Expired, Disabled} ==>
              RowAfter(d, dNow, sNow, seen, now, out).status != Active
  {
  }

  /** The pair in the middle of a run, by status: `s0`, `d0` as the snapshot has them, and which of the two had
      its turn. `out` says that the source's external account is out of reach. */
  predicate PairStatus(s0: Subscription, d0: Subscription, s: Subscription, d: Subscription, sTurn: bool, dTurn: bool,
                       now: Time, out: bool) {
    && s.status == (if !(sTurn && EndsNow(s0, now)) then Active else if out then Failed else Terminal(s0))
    && (d.status == Active <==>
          d0.status == Active && !(dTurn && EndsNow(d0, now)) && !(sTurn && EndsNow(s0, now) && !out))
  }

  lemma StatusStep(s0: Subscription, d0: Subscription, s: Subscription, d: Subscription, sTurn: bool, dTurn: bool,
                   sNow: bool, dNow: bool, seen: Subscription, now: Time, out: bool, seenOut: bool)
    requires PairStatus(s0, d0, s, d, sTurn, dTurn, now, out)
    requires !(sNow && dNow) && (sNow ==> !sTurn && seen == s0 && seenOut == out) && (dNow ==> !dTurn && seen == d0)
    ensures PairStatus(s0, d0, RowAfter(s, sNow, false, seen, now, seenOut),
        RowAfter(d, dNow, sNow, seen, now, seenOut),
                       sTurn || sNow, dTurn || dNow, now, out)
  {
  }

  lemma {:induction false} RunKeepsStatus(before: Db, order: seq<Key>, now: Time, outages: set<Key>, k: Key, q: Key)
    requires Forest(before) && forall p :: p in order ==> p in before.subs
    requires forall i, j :: 0 <= i < j < |order| ==> order[i] != order[j]
    requires k in before.subs && q in before.subs && before.subs[k].status == Active
    requires IsDerivedFrom(before.subs[q], before.subs[k].id)
    ensures var after := ProcessRows(before, order, now, outages);
      PairStatus(before.subs[k], before.subs[q], after.subs[k], after.subs[q], k in order, q in order, now,
          k in outages)
  {
    if order != [] {
      hide *;
      var rest, p := order[..|order| - 1], order[|order| - 1];
      RunKeepsStatus(before, rest, now, outages, k, q);
      PairAfter(before, order, now, outages, k, q);
      var mid := ProcessRows(before, rest, now, outages);
      LastTurn(order, k);
      LastTurn(order, q);
      StatusStep(before.subs[k], before.subs[q], mid.subs[k], mid.subs[q], k in rest, q in rest,
                 p == k, p == q, before.subs[p], now, k in outages, p in outages);
    }
  }

  /** The guarantee stops exactly at sources the run could not end: a derived row is still active under a
      source that is not if and only if the source had to end, its external account was out of reach, and the
      derived row was active and had not to end itself. The source has then failed. */
  lemma DerivedOutlivesSourceIff(db: Db, order: seq<Key>, now: Time, outages: set<Key>, k: Key, q: Key)
    requires Forest(db) && IsRunOrder(db, order) && k in db.subs && q in db.subs
    requires db.subs[k].status == Active && IsDerivedFrom(db.subs[q], db.subs[k].id)
    ensures var after := ProcessRows(db, order, now, outages).subs;
      && (after[k].status != Active && after[q].status == Active <==>
            && EndsNow(db.subs[k], now) && k in outages
            && db.subs[q].status == Active && !EndsNow(db.subs[q], now))
      && (after[k].status != Active && after[q].status == Active ==> after[k].status == Failed)
  {
    RunKeepsStatus(db, order, now, outages, k, q);
    assert k in order && (db.subs[q].status == Active ==> q in order);
    hide ProcessRows, EndsNow, Forest;
  }

  /** Such a run: the account of a due source cannot be disabled, and the row drawn from it renews. */
  lemma FailedSourceKeepsDerivedActive() returns (db: Db, order: seq<Key>, now: Time, outages: set<Key>, k: Key, q: Key)
    ensures Forest(db) && IsRunOrder(db, order) && k in db.subs && q in db.subs
    ensures db.services[k.service].accountType == Managed && 0 in LinkedAccounts(db, db.subs[k].id)
    ensures db.subs[k].status == Active && IsDerivedFrom(db.subs[q], db.subs[k].id)
    ensures ProcessRows(db, order, now, outages).subs[k].status == Failed
    ensures ProcessRows(db, order, now, outages).subs[q].status == Active
  {
    hide ProcessRows, ProcessRow;
    k, q, now := Key("u", 0), Key("u", 1), 1;
    db := PairExample();
    order, outages := [q, k], {k};
    PairExampleIsForest();
    PairExampleOrder();
    DerivedOutlivesSourceIff(db, order, now, outages, k, q);
  }

  /** A due source with a linked account and without auto-renewal, and an auto-renewing row drawn from it. */
  function PairExample(): Db {
    var k, q := Key("u", 0), Key("u", 1);
    var source := Subscription(SubId(k, 0), Active, Some(0), false, None, None, None, None, None, None);
    var derived := Subscription(SubId(q, 0), Active, Some(0), true, Some(source.id), None, None, None, None, None);
    Db(map["u" := false],
       map[0 := Service(true, Managed, None, true), 1 := Service(true, Referenced, Some(0), true)],
       map[], map[k := source, q := derived], map[k := 1, q := 1],
       map[0 := Account(source.id, "u", 0, Some("x"))], 1)
  }

  lemma PairExampleIsForest()
    ensures Forest(PairExample())
  {
  }

  lemma PairExampleOrder()
    ensures IsRunOrder(PairExample(), [Key("u", 1), Key("u", 0)])
  {
  }

  // ---------- Drift between a source and its derived rows ----------

  ghost predicate AllExpire(db: Db) {
    forall k :: k in db.subs ==> db.subs[k].expiresAt.Some?
  }

  /** No derived row outlives its active source by more than one period. */
  ghost predicate DriftBounded(db: Db) {
    forall k, q :: k in db.subs && q in db.subs && db.subs[k].status == Active
        && IsDerivedFrom(db.subs[q], db.subs[k].id)
      ==> WithinPeriod(db.subs[q].expiresAt, db.subs[k].expiresAt)
  }

  predicate WithinPeriod(derived: Option<Time>, source: Option<Time>) {
    derived.Some? && source.Some? ==> derived.value <= source.value + PERIOD
  }

  /** The pair in the middle of a run: `s0`, `d0` as the snapshot has them, `s`, `d` as they are, and
      which of the two had its turn. */
  predicate PairState(s0: Subscription, d0: Subscription, s: Subscription, d: Subscription, sTurn: bool, dTurn: bool,
                      now: Time) {
    s0.expiresAt.Some? && d0.expiresAt.Some? && s.expiresAt.Some? && d.expiresAt.Some?
    && (s.status == Active ==>
          && !(sTurn && EndsNow(s0, now))
          && s.expiresAt.value == s0.expiresAt.value + (if sTurn && Renews(s0, now) then PERIOD else 0))
    && d.expiresAt.value <= d0.expiresAt.value + (if dTurn && Renews(d0, now) then PERIOD else 0)
  }

  lemma PairStep(s0: Subscription, d0: Subscription, s: Subscription, d: Subscription, sTurn: bool, dTurn: bool,
                 sNow: bool, dNow: bool, seen: Subscription, now: Time, out: bool)
    requires PairState(s0, d0, s, d, sTurn, dTurn, now)
    requires !(sNow && dNow) && (sNow ==> !sTurn && seen == s0) && (dNow ==> !dTurn && seen == d0)
    ensures PairState(s0, d0, RowAfter(s, sNow, false, seen, now, out), RowAfter(d, dNow, sNow, seen, now, out),
                      sTurn || sNow, dTurn || dNow, now)
  {
  }

  lemma {:induction false} RunKeepsPair(before: Db, order: seq<Key>, now: Time, outages: set<Key>, k: Key, q: Key)
    requires Forest(before) && forall p :: p in order ==> p in before.subs
    requires forall i, j :: 0 <= i < j < |order| ==> order[i] != order[j]
    requires k in before.subs && q in before.subs && IsDerivedFrom(before.subs[q], before.subs[k].id)
    requires before.subs[k].expiresAt.Some? && before.subs[q].expiresAt.Some?
    ensures var after := ProcessRows(before, order, now, outages);
      PairState(before.subs[k], before.subs[q], after.subs[k], after.subs[q], k in order, q in order, now)
  {
    if order != [] {
      hide *;
      var rest, p := order[..|order| - 1], order[|order| - 1];
      RunKeepsPair(before, rest, now, outages, k, q);
      PairAfter(before, order, now, outages, k, q);
      var mid := ProcessRows(before, rest, now, outages);
      LastTurn(order, k);
      LastTurn(order, q);
      PairStep(before.subs[k], before.subs[q], mid.subs[k], mid.subs[q], k in rest, q in rest,
               p == k, p == q, before.subs[p], now, p in outages);
    }
  }

  /** One run keeps the drift within a period, whichever row of each pair is visited first. */
  lemma RunKeepsDrift(db: Db, order: seq<Key>, now: Time, outages: set<Key>)
    requires Forest(db) && AllExpire(db) && DriftBounded(db) && IsRunOrder(db, order)
    ensures var after := ProcessRows(db, order, now, outages);
            Forest(after) && AllExpire(after) && DriftBounded(after)
  {
    var after := ProcessRows(db, order, now, outages);
    ProcessKeepsShape(db, order, now, outages);
    ShapeKeepsForest(db, after);
    forall k | k in after.subs ensures after.subs[k].expiresAt.Some? {
      RunKeepsRow(db, order, now, outages, k);
    }
    forall k, q | k in after.subs && q in after.subs && after.subs[k].status == Active
        && IsDerivedFrom(after.subs[q], after.subs[k].id)
      ensures WithinPeriod(after.subs[q].expiresAt, after.subs[k].expiresAt)
    {
      PairStaysWithin(db, order, now, outages, k, q);
    }
  }

  lemma PairStaysWithin(db: Db, order: seq<Key>, now: Time, outages: set<Key>, k: Key, q: Key)
    requires Forest(db) && AllExpire(db) && DriftBounded(db) && IsRunOrder(db, order)
    requires k in db.subs && q in db.subs && IsDerivedFrom(db.subs[q], db.subs[k].id)
    ensures var after := ProcessRows(db, order, now, outages);
            after.subs[k].status == Active ==> WithinPeriod(after.subs[q].expiresAt, after.subs[k].expiresAt)
  {
    RunKeepsRow(db, order, now, outages, k);
    RunKeepsPair(db, order, now, outages, k, q);
    if db.subs[k].status == Active {
      assert k in order;
      assert WithinPeriod(db.subs[q].expiresAt, db.subs[k].expiresAt);
    }
  }

  /** Through a run a row keeps having an expiry, and is active only if it was. */
  lemma {:induction false} RunKeepsRow(before: Db, order: seq<Key>, now: Time, outages: set<Key>, q: Key)
    requires q in before.subs && forall k :: k in order ==> k in before.subs
    ensures var after := ProcessRows(before, order, now, outages).subs[q];
      && (before.subs[q].expiresAt.Some? ==> after.expiresAt.Some?)
      && (after.status == Active ==> before.subs[q].status == Active)
  {
    if order != [] {
      var last := |order| - 1;
      var k, mid := order[last], ProcessRows(before, order[..last], now, outages);
      RunKeepsRow(before, order[..last], now, outages, q);
      RowAfterFacts(mid.subs[q], q == k, IsDerivedFrom(mid.subs[q], mid.subs[k].id), before.subs[k], now, k in outages);
      RowNext(before, order, now, outages, q);
    }
  }

  /** Any number of runs, at any clocks, keeps the drift of every pair within one period. */
  lemma {:induction false} RunsKeepDrift(states: seq<Db>, runs: seq<RunInput>, i: nat)
    requires IsHistory(states, runs) && i <= |runs|
    requires Forest(states[0]) && AllExpire(states[0]) && DriftBounded(states[0])
    ensures Forest(states[i]) && AllExpire(states[i]) && DriftBounded(states[i])
  {
    if 0 < i {
      RunsKeepDrift(states, runs, i - 1);
      assert IsRunOrder(states[i - 1], runs[i - 1].order);
      RunKeepsDrift(states[i - 1], runs[i - 1].order, runs[i - 1].now, runs[i - 1].outages);
    }
  }

  // ---------- What a run comes to, column by column ----------

  /** The row an active one becomes by its own turn. `out` says that its account is out of reach. */
  ghost predicate TurnTaken(was: Subscription, row: Subscription, now: Time, out: bool) {
    match was.expiresAt
    case None =>
      row == if out then FailedToEnd(was, now)
             else was.(status := Disabled, lastError := Some("Active subscription had no expiration date"),
                       failedAt := None)
    case Some(end) =>
      row == if end > now then was
             else if was.autoRenew
             then was.(expiresAt := Some(end + 2_592_000_000), lastError := None, failedAt := None)
             else if out then FailedToEnd(was, now)
             else was.(status := Expired, lastError := None, failedAt := None)
  }

  ghost function FailedToEnd(was: Subscription, now: Time): Subscription {
    was.(status := Failed, failedOperation := Some(FailedExpiration), failedAt := Some(now),
         lastError := Some("Failed to disable the external account"))
  }

  /** The rows active at the start, each once. */
  ghost predicate VisitsActive(db: Db, order: seq<Key>) {
    && (forall k :: k in order <==> k in db.subs && db.subs[k].status == Active)
    && (forall i, j :: 0 <= i < j < |order| ==> order[i] != order[j])
  }

  /** For every order and all outages: an active row that derives from no active row ends the run as its own
      turn has it, in every column. */
  lemma RunTakesTurns(db: Db, order: seq<Key>, now: Time, outages: set<Key>, k: Key)
    requires Forest(db) && VisitsActive(db, order) && k in db.subs && db.subs[k].status == Active
    requires forall p :: p in db.subs && db.subs[p].status == Active ==> db.subs[k].derivedFrom != Some(db.subs[p].id)
    ensures TurnTaken(db.subs[k], ProcessRows(db, order, now, outages).subs[k], now, k in outages)
  {
    OwnTurnOnly(db, order, now, outages, k);
  }

  lemma {:induction false} OwnTurnOnly(before: Db, order: seq<Key>, now: Time, outages: set<Key>, k: Key)
    requires k in before.subs && forall p :: p in order ==> p in before.subs
    requires forall i, j :: 0 <= i < j < |order| ==> order[i] != order[j]
    requires forall p :: p in order ==> before.subs[k].derivedFrom != Some(before.subs[p].id)
    ensures ProcessRows(before, order, now, outages).subs[k] ==
        if k in order then RowAfter(before.subs[k], true, false, before.subs[k], now, k in outages) else before.subs[k]
  {
    if order != [] {
      hide ProcessRows, ProcessRow, RowAfter;
      var rest, p := order[..|order| - 1], order[|order| - 1];
      OwnTurnOnly(before, rest, now, outages, k);
      ProcessKeepsShape(before, rest, now, outages);
      RowNext(before, order, now, outages, k);
      LastTurn(order, k);
      var mid := ProcessRows(before, rest, now, outages);
      RowAfterFacts(mid.subs[k], p == k, false, before.subs[p], now, p in outages);
      if k in rest {
        RowAfterFacts(before.subs[k], true, false, before.subs[k], now, k in outages);
      }
    }
  }

  /** One turn leaves of any other row: what derives from the visited row is clamped when that one renews, takes
      its final status when that one ends, and is left alone when that one is not due or out of reach. */
  lemma TurnCascades(db: Db, k: Key, seen: Subscription, now: Time, outages: set<Key>, q: Key)
    requires k in db.subs && q in db.subs && q != k
    ensures var was, row := db.subs[q], ProcessRow(db, k, seen, now, outages).subs[q];
      if was.derivedFrom != Some(db.subs[k].id) then row == was
      else match seen.expiresAt
        case None => row == if k in outages then was else was.(status := Disabled)
        case Some(end) =>
          if end > now then row == was
          else if seen.autoRenew then
            row == was.(expiresAt := if was.expiresAt != None && was.expiresAt.value < end + 2_592_000_000
                                     then was.expiresAt else Some(end + 2_592_000_000))
          else row == if k in outages then was else was.(status := Expired)
  {
  }

  /** Must the row end now? */
  ghost predicate MustEnd(row: Subscription, now: Time) {
    row.expiresAt == None || (row.expiresAt.value <= now && !row.autoRenew)
  }

  /** The status a row ends with, and the one a row derived from it is given. */
  ghost function FinalStatus(row: Subscription): Status {
    if row.expiresAt == None then Disabled else Expired
  }

  /** The status of a derived row after the first `n` turns, with the turn of its source at `i` and its own, if it
      has one, at `j`: whichever of the two ended last decides. */
  ghost function DerivedStatus(source: Subscription, row: Subscription, now: Time, sourceOut: bool, out: bool,
                               i: nat, j: nat, n: nat): Status {
    var ends := j < n && MustEnd(row, now);
    if i < n && MustEnd(source, now) && !sourceOut && (j < i || !ends) then FinalStatus(source)
    else if ends then if out then Failed else FinalStatus(row)
    else row.status
  }

  lemma StatusAfterTurn(row: Subscription, self: bool, below: bool, seen: Subscription, now: Time, out: bool)
    ensures RowAfter(row, self, below, seen, now, out).status ==
            if !MustEnd(seen, now) then row.status
            else if self then if out then Failed else FinalStatus(seen)
            else if below && !out then FinalStatus(seen) else row.status
  {
  }

  ghost predicate NoneTwice(order: seq<Key>) {
    forall m, n :: 0 <= m < n < |order| ==> order[m] != order[n]
  }

  /** The turn of `k`, or the end of the order if it has none. */
  ghost predicate IsTurnOf(order: seq<Key>, i: nat, k: Key) {
    if i < |order| then order[i] == k else k !in order
  }

  lemma TurnIsUnique(order: seq<Key>, i: nat, k: Key, n: nat)
    requires NoneTwice(order) && IsTurnOf(order, i, k) && n < |order|
    ensures n == i <==> order[n] == k
  {
  }

  lemma DerivedStatusNext(source: Subscription, row: Subscription, now: Time, sourceOut: bool, out: bool,
                          i: nat, j: nat, n: nat)
    requires n > 0 && i != j
    ensures var before := DerivedStatus(source, row, now, sourceOut, out, i, j, n - 1);
      DerivedStatus(source, row, now, sourceOut, out, i, j, n) ==
        if n - 1 == i then if MustEnd(source, now) && !sourceOut then FinalStatus(source) else before
        else if n - 1 == j && MustEnd(row, now) then if out then Failed else FinalStatus(row)
        else before
  {
  }

  lemma DerivedStatusAtEnd(source: Subscription, row: Subscription, now: Time, sourceOut: bool, out: bool,
                           i: nat, j: nat, n: nat)
    requires i < n && (j < n <==> row.status == Active)
    ensures var sourceEnds := (source.expiresAt == None || (source.expiresAt.value <= now && !source.autoRenew))
                              && !sourceOut;
      var ends := row.status == Active && (row.expiresAt == None || (row.expiresAt.value <= now && !row.autoRenew));
      DerivedStatus(source, row, now, sourceOut, out, i, j, n) ==
        if sourceEnds && (j < i || !ends) then if source.expiresAt == None then Disabled else Expired
        else if ends then if out then Failed else if row.expiresAt == None then Disabled else Expired
        else row.status
  {
  }

  lemma {:induction false} DerivedAfterTurns(db: Db, order: seq<Key>, now: Time, outages: set<Key>, k: Key, q: Key,
                                             i: nat, j: nat, n: nat)
    requires Forest(db) && n <= |order| && NoneTwice(order) && (forall p :: p in order ==> p in db.subs)
    requires IsTurnOf(order, i, k) && i < |order| && IsTurnOf(order, j, q)
    requires k in db.subs && q in db.subs && db.subs[q].derivedFrom == Some(db.subs[k].id)
    ensures ProcessRows(db, order[..n], now, outages).subs[q].status ==
            DerivedStatus(db.subs[k], db.subs[q], now, k in outages, q in outages, i, j, n)
  {
    if n > 0 {
      hide ProcessRows, Forest, NoneTwice, IsTurnOf, DerivedStatus;
      DerivedAfterTurns(db, order, now, outages, k, q, i, j, n - 1);
      DerivedNext(db, order, now, outages, k, q, i, j, n);
    }
  }

  lemma DerivedNext(db: Db, order: seq<Key>, now: Time, outages: set<Key>, k: Key, q: Key, i: nat, j: nat, n: nat)
    requires Forest(db) && 0 < n <= |order| && NoneTwice(order) && (forall p :: p in order ==> p in db.subs)
    requires IsTurnOf(order, i, k) && i < |order| && IsTurnOf(order, j, q)
    requires k in db.subs && q in db.subs && db.subs[q].derivedFrom == Some(db.subs[k].id)
    requires ProcessRows(db, order[..n - 1], now, outages).subs[q].status ==
             DerivedStatus(db.subs[k], db.subs[q], now, k in outages, q in outages, i, j, n - 1)
    ensures ProcessRows(db, order[..n], now, outages).subs[q].status ==
            DerivedStatus(db.subs[k], db.subs[q], now, k in outages, q in outages, i, j, n)
  {
    hide ProcessRows, MustEnd, FinalStatus, Forest, NoneTwice, IsTurnOf, DerivedStatus;
    TurnIsUnique(order, i, k, n - 1);
    TurnIsUnique(order, j, q, n - 1);
    OnlySource(db, k, q, order[n - 1]);
    DerivedApart(db, order, k, q, i, j);
    DerivedStatusNext(db.subs[k], db.subs[q], now, k in outages, q in outages, i, j, n);
    NextStatus(db, order, now, outages, q, n);
  }

  lemma DerivedApart(db: Db, order: seq<Key>, k: Key, q: Key, i: nat, j: nat)
    requires Forest(db) && k in db.subs && q in db.subs && db.subs[q].derivedFrom == Some(db.subs[k].id)
    requires IsTurnOf(order, i, k) && i < |order| && IsTurnOf(order, j, q)
    ensures i != j
  {
    OnlySource(db, k, q, k);
  }

  lemma NextStatus(db: Db, order: seq<Key>, now: Time, outages: set<Key>, q: Key, n: nat)
    requires 0 < n <= |order| && q in db.subs && forall p :: p in order ==> p in db.subs
    ensures var p, seen := order[n - 1], db.subs[order[n - 1]];
      ProcessRows(db, order[..n], now, outages).subs[q].status ==
        if !MustEnd(seen, now) then ProcessRows(db, order[..n - 1], now, outages).subs[q].status
        else if q == p then if p in outages then Failed else FinalStatus(seen)
        else if db.subs[q].derivedFrom == Some(seen.id) && p !in outages then FinalStatus(seen)
        else ProcessRows(db, order[..n - 1], now, outages).subs[q].status
  {
    hide ProcessRows, ProcessRow, RowAfter, MustEnd, FinalStatus;
    var p, mid := order[n - 1], ProcessRows(db, order[..n - 1], now, outages);
    assert order[..n][..n - 1] == order[..n - 1];
    RowNext(db, order[..n], now, outages, q);
    ProcessKeepsShape(db, order[..n - 1], now, outages);
    StatusAfterTurn(mid.subs[q], q == p, IsDerivedFrom(mid.subs[q], mid.subs[p].id), db.subs[p], now, p in outages);
  }

  lemma OnlySource(db: Db, k: Key, q: Key, p: Key)
    requires Forest(db) && k in db.subs && q in db.subs && p in db.subs
    requires db.subs[q].derivedFrom == Some(db.subs[k].id)
    ensures db.subs[q].derivedFrom == Some(db.subs[p].id) <==> p == k
    ensures q != k
  {
  }

  /** A row derived from an active one ends the run with the status of whichever of the two ended last; a source
      out of reach does not count, and one that is not due or renews does not either. */
  lemma RunTakesDerivedTurns(db: Db, order: seq<Key>, now: Time, outages: set<Key>, k: Key, q: Key, i: nat, j: nat)
    requires Forest(db) && VisitsActive(db, order) && i < |order| && order[i] == k
    requires q in db.subs && db.subs[q].derivedFrom == Some(db.subs[k].id)
    requires if j < |order| then order[j] == q else q !in order
    ensures var source, was := db.subs[k], db.subs[q];
      var sourceEnds := (source.expiresAt == None || (source.expiresAt.value <= now && !source.autoRenew))
                        && k !in outages;
      var ends := was.status == Active && (was.expiresAt == None || (was.expiresAt.value <= now && !was.autoRenew));
      ProcessRows(db, order, now, outages).subs[q].status ==
        if sourceEnds && (j < i || !ends) then if source.expiresAt == None then Disabled else Expired
        else if ends then if q in outages then Failed else if was.expiresAt == None then Disabled else Expired
        else was.status
  {
    var was := db.subs[q];
    assert order[..|order|] == order;
    assert (forall p :: p in order ==> p in db.subs) && NoneTwice(order) && IsTurnOf(order, i, k)
        && IsTurnOf(order, j, q);
    assert j < |order| <==> was.status == Active by {
      assert j < |order| <==> q in order;
    }
    hide ProcessRows, NoneTwice, IsTurnOf, VisitsActive, Forest, DerivedStatus;
    DerivedAfterTurns(db, order, now, outages, k, q, i, j, |order|);
    DerivedStatusAtEnd(db.subs[k], was, now, k in outages, q in outages, i, j, |order|);
  }
}
