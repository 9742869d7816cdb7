/** Requests that create invites at the same time (invite.service.ts, createToken): searching for a pending
    invite, superseding it and creating the new one are separate statements, without a transaction. */
module Issuing {
  import opened Model
  import opened Invites

  datatype Stage = Searched | Ready | Finished

  /** A request to invite an email, with the pending invite its search found. */
  datatype Creation = Creation(
    email: string, isAdmin: bool, expiresAt: Time, found: Option<InviteId>, stage: Stage)

  datatype World = World(rows: Rows, next: InviteId, creations: map<nat, Creation>)

  /** `Edit` is the write of an administrator's edit, `Other` any statement that only closes invites. */
  datatype Step =
    | Search(c: nat, email: string, isAdmin: bool, expiresAt: Time, now: Time, found: Option<InviteId>)
    | Supersede(c: nat, now: Time)
    | Issue(c: nat, now: Time)
    | IssueUnbound(isAdmin: bool, expiresAt: Time)
    | Edit(id: InviteId, patch: Patch, now: Time)
    | Other(rows: Rows)

  function ClockOf(s: Step): Option<Time> {
    match s
    case Search(_, _, _, _, now, _) => Some(now)
    case Supersede(_, now) => Some(now)
    case Issue(_, now) => Some(now)
    case Edit(_, _, now) => Some(now)
    case _ => None
  }

  predicate At(w: World, c: nat, stage: Stage) {
    c in w.creations && w.creations[c].stage == stage
  }

  function Move(w: World, c: nat, stage: Stage): World
    requires c in w.creations
  {
    w.(creations := w.creations[c := w.creations[c].(stage := stage)])
  }

  function Fresh(creation: Creation): Invite {
    Invite(Some(creation.email), creation.isAdmin, creation.expiresAt, None, None, None, 0)
  }

  /** One step. A step that is not enabled changes nothing; superseding an invite that is gone throws. */
  ghost function Next(w: World, s: Step): World {
    match s
    case Search(c, email, isAdmin, expiresAt, now, found) =>
      if c in w.creations || !IsNewestPending(w.rows, email, now, found) then w
      else w.(creations := w.creations[
        c := Creation(email, isAdmin, expiresAt, found, if found.Some? then Searched else Ready)])
    case Supersede(c, now) =>
      if !At(w, c, Searched) || w.creations[c].found.None? then w
      else if w.creations[c].found.value !in w.rows then Move(w, c, Finished)
      else Move(w.(rows := Revoke(w.rows, w.creations[c].found.value, Superseded, now)), c, Ready)
    case Issue(c, _) =>
      if !At(w, c, Ready) then w
      else Move(w.(rows := w.rows[w.next := Fresh(w.creations[c])], next := w.next + 1), c, Finished)
    case IssueUnbound(isAdmin, expiresAt) =>
      w.(rows := w.rows[w.next := Invite(None, isAdmin, expiresAt, None, None, None, 0)], next := w.next + 1)
    case Edit(id, patch, now) =>
      if id in w.rows then w.(rows := w.rows[id := Patched(w.rows[id], patch, now)]) else w
    case Other(rows) => if OnlyCloses(w.rows, rows) then w.(rows := rows) else w
  }

  ghost function After(steps: seq<Step>): World {
    if steps == [] then World(map[], 0, map[]) else Next(After(steps[..|steps| - 1]), steps[|steps| - 1])
  }

  /** Uninterrupted, the steps of a creation are the request that creates. */
  lemma CreationIsOneRequest(w: World, c: nat, email: string, isAdmin: bool, expiresAt: Time, now: Time,
                             found: Option<InviteId>)
    requires c !in w.creations && IsNewestPending(w.rows, email, now, found)
    ensures var out := Next(Next(Next(w, Search(c, email, isAdmin, expiresAt, now, found)), Supersede(c, now)),
                            Issue(c, now));
      State(out.rows, out.next) ==
      Apply(State(w.rows, w.next), Create(now, Some(email), isAdmin, expiresAt, false, found))
  {
  }

  lemma UnboundIsOneRequest(w: World, isAdmin: bool, expiresAt: Time, now: Time)
    ensures var out := Next(w, IssueUnbound(isAdmin, expiresAt));
            State(out.rows, out.next) ==
            Apply(State(w.rows, w.next), Create(now, None, isAdmin, expiresAt, false, None))
  {
  }

  lemma OneMore(steps: seq<Step>, n: nat)
    requires n < |steps|
    ensures After(steps[..n + 1]) == Next(After(steps[..n]), steps[n])
  {
    assert steps[..n + 1][..n] == steps[..n];
  }

  /** No clock goes back. */
  ghost predicate InOrder(steps: seq<Step>) {
    forall m, n :: 0 <= m < n < |steps| && ClockOf(steps[m]).Some? && ClockOf(steps[n]).Some? ==>
        ClockOf(steps[m]).value <= ClockOf(steps[n]).value
  }

  ghost predicate IsLater(steps: seq<Step>, n: nat, now: Time) {
    n <= |steps| && forall m :: 0 <= m < n && ClockOf(steps[m]).Some? ==> ClockOf(steps[m]).value <= now
  }

  lemma LaterThanAll(steps: seq<Step>, n: nat)
    requires InOrder(steps) && n < |steps| && ClockOf(steps[n]).Some?
    ensures IsLater(steps, n, ClockOf(steps[n]).value) && IsLater(steps, n + 1, ClockOf(steps[n]).value)
  {
  }

  // ---------- Two pending invites for one email ----------

  predicate PendingFor(rows: Rows, i: InviteId, email: string, now: Time) {
    i in rows && rows[i].email == Some(email) && IsPending(rows[i], now)
  }

  ghost predicate Twins(rows: Rows, email: string, now: Time) {
    exists i: InviteId, j: InviteId :: i != j && PendingFor(rows, i, email, now) && PendingFor(rows, j, email, now)
  }

  ghost predicate TwinsAt(steps: seq<Step>, n: nat, email: string, now: Time) {
    IsLater(steps, n, now) && Twins(After(steps[..n]).rows, email, now)
  }

  /** The search with which a request begins. */
  ghost predicate Starts(steps: seq<Step>, m: nat) {
    m < |steps| && steps[m].Search? && steps[m].c !in After(steps[..m]).creations
    && steps[m].c in After(steps[..m + 1]).creations
  }

  /** At step `n` a request issues its invite while `i` is pending, which was not when the request searched. */
  ghost predicate Overtakes(steps: seq<Step>, m: nat, n: nat, i: InviteId, email: string) {
    && m < n < |steps| && Starts(steps, m) && steps[n].Issue? && steps[n].c == steps[m].c
    && At(After(steps[..n]), steps[n].c, Ready)
    && After(steps[..n]).creations[steps[n].c].email == email
    && After(steps[..n]).creations[steps[n].c].expiresAt > steps[n].now
    && PendingFor(After(steps[..n]).rows, i, email, steps[n].now)
    && !PendingFor(After(steps[..m]).rows, i, email, steps[m].now)
  }

  /** At step `n` an edit makes an invite pending for the email while `i` is. */
  ghost predicate EditClashes(steps: seq<Step>, n: nat, i: InviteId, email: string) {
    && n < |steps| && steps[n].Edit? && steps[n].id in After(steps[..n]).rows && steps[n].id != i
    && PendingFor(After(steps[..n]).rows, i, email, steps[n].now)
    && PendingFor(After(steps[..n + 1]).rows, steps[n].id, email, steps[n].now)
  }

  ghost predicate MakesTwins(steps: seq<Step>, n: nat, email: string) {
    || (exists m: nat, i: InviteId :: Overtakes(steps, m, n, i, email))
    || (exists i: InviteId :: EditClashes(steps, n, i, email))
  }

  // ---------- What holds throughout ----------

  /** The invite can never be pending again. */
  predicate Closed(w: World, id: InviteId) {
    id < w.next && (id in w.rows ==> w.rows[id].revoked.Some?)
  }

  ghost predicate Sound(w: World) {
    && (forall i :: i in w.rows ==> i < w.next)
    && (forall c :: c in w.creations && w.creations[c].found.Some? ==>
          w.creations[c].found.value < w.next
          && (w.creations[c].stage == Searched || Closed(w, w.creations[c].found.value)))
  }

  lemma StepKeepsSound(w: World, s: Step)
    requires Sound(w)
    ensures Sound(Next(w, s))
  {
  }

  lemma {:induction false} AlwaysSound(steps: seq<Step>)
    ensures Sound(After(steps))
  {
    if steps != [] {
      AlwaysSound(steps[..|steps| - 1]);
      StepKeepsSound(After(steps[..|steps| - 1]), steps[|steps| - 1]);
    }
  }

  lemma CreationStep(w: World, s: Step, c: nat)
    requires c in Next(w, s).creations
    ensures if c in w.creations
            then Next(w, s).creations[c] == w.creations[c].(stage := Next(w, s).creations[c].stage)
            else s.Search? && s.c == c && s.email == Next(w, s).creations[c].email
                 && s.found == Next(w, s).creations[c].found && IsNewestPending(w.rows, s.email, s.now, s.found)
  {
    hide IsNewestPending;
  }

  /** Where a request comes from: its search, and what that found. */
  lemma {:induction false} SearchOf(steps: seq<Step>, c: nat) returns (m: nat)
    requires c in After(steps).creations
    ensures m < |steps| && Starts(steps, m) && steps[m].c == c
    ensures steps[m].email == After(steps).creations[c].email && steps[m].found == After(steps).creations[c].found
    ensures IsNewestPending(After(steps[..m]).rows, steps[m].email, steps[m].now, steps[m].found)
  {
    hide IsNewestPending, Next;
    var rest, s := steps[..|steps| - 1], steps[|steps| - 1];
    assert steps[..|rest| + 1] == steps;
    CreationStep(After(rest), s, c);
    if c in After(rest).creations {
      m := SearchOf(rest, c);
      assert rest[..m] == steps[..m] && rest[..m + 1] == steps[..m + 1];
    } else {
      m := |rest|;
    }
  }

  // ---------- The exact condition ----------

  /** What a step must be to make the first two. */
  lemma FirstTwins(w: World, s: Step, email: string, now: Time) returns (i: InviteId)
    requires Sound(w) && !Twins(w.rows, email, now) && Twins(Next(w, s).rows, email, now)
    requires ClockOf(s).Some? ==> ClockOf(s).value <= now
    ensures PendingFor(w.rows, i, email, now)
    ensures s.Issue? || s.Edit?
    ensures s.Issue? ==> At(w, s.c, Ready) && w.creations[s.c].email == email && w.creations[s.c].expiresAt > now
    ensures s.Edit? ==> s.id in w.rows && s.id != i && PendingFor(Next(w, s).rows, s.id, email, now)
  {
    var out := Next(w, s).rows;
    var a: InviteId, b: InviteId :| a != b && PendingFor(out, a, email, now) && PendingFor(out, b, email, now);
    assert !(PendingFor(w.rows, a, email, now) && PendingFor(w.rows, b, email, now));
    i := if PendingFor(w.rows, a, email, now) then a else b;
  }

  lemma NoRowsNoTwins(email: string, now: Time)
    ensures !Twins(map[], email, now)
  {
  }

  lemma PendingEarlier(rows: Rows, i: InviteId, email: string, now: Time, earlier: Time)
    requires PendingFor(rows, i, email, now) && earlier <= now
    ensures PendingFor(rows, i, email, earlier)
  {
  }

  lemma AnotherPending(rows: Rows, email: string, now: Time, found: Option<InviteId>, i: InviteId)
    requires IsNewestPending(rows, email, now, found) && PendingFor(rows, i, email, now) && found != Some(i)
    ensures Twins(rows, email, now)
  {
    assert PendingFor(rows, found.value, email, now);
  }

  lemma {:induction false} TwinsWereMade(steps: seq<Step>, n: nat, email: string, now: Time) returns (k: nat)
    requires InOrder(steps) && TwinsAt(steps, n, email, now)
    ensures k < n && MakesTwins(steps, k, email)
  {
    hide Next, IsNewestPending, Twins, InOrder;
    assert n > 0 by {
      if n == 0 {
        NoRowsNoTwins(email, now);
      }
    }
    OneMore(steps, n - 1);
    var w, s := After(steps[..n - 1]), steps[n - 1];
    if Twins(w.rows, email, now) {
      k := TwinsWereMade(steps, n - 1, email, now);
      return;
    }
    AlwaysSound(steps[..n - 1]);
    var i := FirstTwins(w, s, email, now);
    PendingEarlier(w.rows, i, email, now, ClockOf(s).value);
    if s.Edit? {
      PendingEarlier(Next(w, s).rows, s.id, email, now, s.now);
      assert EditClashes(steps, n - 1, i, email);
      return n - 1;
    }
    var m := SearchOf(steps[..n - 1], s.c);
    assert steps[..n - 1][..m] == steps[..m] && steps[..n - 1][..m + 1] == steps[..m + 1];
    if PendingFor(After(steps[..m]).rows, i, email, steps[m].now) {
      assert steps[m].found != Some(i) by {
        assert w.creations[s.c].found == steps[m].found;
      }
      AnotherPending(After(steps[..m]).rows, email, steps[m].now, steps[m].found, i);
      LaterThanAll(steps, m);
      k := TwinsWereMade(steps, m, email, steps[m].now);
    } else {
      assert Overtakes(steps, m, n - 1, i, email);
      k := n - 1;
    }
  }

  lemma TwinsAreMade(steps: seq<Step>, n: nat, email: string)
    requires InOrder(steps) && MakesTwins(steps, n, email)
    ensures n < |steps| && ClockOf(steps[n]).Some? && TwinsAt(steps, n + 1, email, ClockOf(steps[n]).value)
  {
    OneMore(steps, n);
    AlwaysSound(steps[..n]);
    hide After, Next, Twins, Sound, InOrder, IsLater;
    assert steps[n].Issue? || steps[n].Edit?;
    LaterThanAll(steps, n);
    if m: nat, i: InviteId :| Overtakes(steps, m, n, i, email) {
      IssuingMakesTwins(After(steps[..n]), steps[n], i, email);
    } else {
      var i: InviteId :| EditClashes(steps, n, i, email);
      EditingMakesTwins(After(steps[..n]), steps[n], i, email);
    }
  }

  lemma IssuingMakesTwins(w: World, s: Step, i: InviteId, email: string)
    requires Sound(w) && s.Issue? && At(w, s.c, Ready) && PendingFor(w.rows, i, email, s.now)
    requires w.creations[s.c].email == email && w.creations[s.c].expiresAt > s.now
    ensures Twins(Next(w, s).rows, email, s.now)
  {
    var out := Next(w, s).rows;
    assert PendingFor(out, i, email, s.now) && PendingFor(out, w.next, email, s.now);
  }

  lemma EditingMakesTwins(w: World, s: Step, i: InviteId, email: string)
    requires s.Edit? && s.id != i && PendingFor(w.rows, i, email, s.now)
    requires PendingFor(Next(w, s).rows, s.id, email, s.now)
    ensures Twins(Next(w, s).rows, email, s.now)
  {
    assert PendingFor(Next(w, s).rows, i, email, s.now);
  }

  /** In every interleaving, an email comes to have two pending invites if and only if a request issues one while
      another is pending that was not when it searched, or an edit clashes. */
  lemma TwinsIffOvertakenOrEdited(steps: seq<Step>, email: string)
    requires InOrder(steps)
    ensures (exists n: nat, now :: TwinsAt(steps, n, email, now)) <==> exists n: nat :: MakesTwins(steps, n, email)
  {
    if n: nat, now :| TwinsAt(steps, n, email, now) {
      var k := TwinsWereMade(steps, n, email, now);
    }
    if n: nat :| MakesTwins(steps, n, email) {
      TwinsAreMade(steps, n, email);
    }
  }

  /** Two requests at once are enough. */
  lemma TwoRequestsAtOnce() returns (steps: seq<Step>)
    ensures InOrder(steps) && Twins(After(steps).rows, "a", 0)
    ensures forall s :: s in steps ==> s.Search? || s.Issue?
  {
    var both := map[0 := Creation("a", false, 9, None, Ready), 1 := Creation("a", false, 9, None, Ready)];
    var s1 := Appended([], Search(0, "a", false, 9, 0, None));
    var s2 := Appended(s1, Search(1, "a", false, 9, 0, None));
    var s3 := Appended(s2, Issue(0, 0));
    steps := Appended(s3, Issue(1, 0));
    assert After([]) == World(map[], 0, map[]);
    hide After, Next;
    TwoSearches(both);
    TwoIssues(both);
  }

  lemma Appended(steps: seq<Step>, s: Step) returns (longer: seq<Step>)
    ensures longer == steps + [s] && After(longer) == Next(After(steps), s)
  {
    longer := steps + [s];
  }

  lemma TwoSearches(both: map<nat, Creation>)
    requires both == map[0 := Creation("a", false, 9, None, Ready), 1 := Creation("a", false, 9, None, Ready)]
    ensures Next(Next(World(map[], 0, map[]), Search(0, "a", false, 9, 0, None)), Search(1, "a", false, 9, 0, None))
         == World(map[], 0, both)
  {
  }

  lemma TwoIssues(both: map<nat, Creation>)
    requires both == map[0 := Creation("a", false, 9, None, Ready), 1 := Creation("a", false, 9, None, Ready)]
    ensures Twins(Next(Next(World(map[], 0, both), Issue(0, 0)), Issue(1, 0)).rows, "a", 0)
  {
    var out := Next(Next(World(map[], 0, both), Issue(0, 0)), Issue(1, 0)).rows;
    assert PendingFor(out, 0, "a", 0) && PendingFor(out, 1, "a", 0);
  }
}
