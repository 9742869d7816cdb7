/** The per-user session limit (session.service.ts). */
module Sessions {
  import opened Model
  import opened Store

  datatype Session = Session(user: Option<UserId>, createdAt: Time, expiresAt: Time)
  type Table = map<string, Session>

  /** The session ids of a user that have not expired. */
  function LiveOf(table: Table, user: UserId, now: Time): set<string> {
    set sid | sid in table && table[sid].user == Some(user) && table[sid].expiresAt > now
  }

  /** How many live sessions may stay when room is made for one more. */
  function Room(maxPerUser: int): nat {
    if maxPerUser >= 1 then maxPerUser - 1 else 0
  }

  /** `after` is `before` without just enough of the user's live sessions, the oldest ones. */
  ghost predicate Enforced(before: Table, after: Table, user: UserId, maxPerUser: int, now: Time) {
    && after.Keys <= before.Keys
    && (forall sid :: sid in after ==> after[sid] == before[sid])
    && (forall sid :: sid in before && sid !in LiveOf(before, user, now) ==> sid in after)
    && |LiveOf(after, user, now)| == (if |LiveOf(before, user, now)| <= Room(maxPerUser)
                                      then |LiveOf(before, user, now)| else Room(maxPerUser))
    && (forall gone, kept :: gone in before && gone !in after && kept in LiveOf(after, user, now)
          ==> before[gone].createdAt <= before[kept].createdAt)
  }

  /** Making room leaves one place free, and takes no more than that, in the columns of the table. */
  lemma EnforcingDecides(before: Table, after: Table, user: UserId, maxPerUser: int, now: Time)
    requires Enforced(before, after, user, maxPerUser, now)
    ensures var had := |set sid | sid in before && before[sid].user == Some(user) && before[sid].expiresAt > now|;
      |set sid | sid in after && after[sid].user == Some(user) && after[sid].expiresAt > now|
      == if had < maxPerUser then had else if maxPerUser >= 1 then maxPerUser - 1 else 0
    ensures forall sid :: sid in before && (before[sid].user != Some(user) || before[sid].expiresAt <= now) ==>
              sid in after && after[sid] == before[sid]
    ensures forall gone, kept :: gone in before && gone !in after && kept in after
                                 && after[kept].user == Some(user) && after[kept].expiresAt > now ==>
              before[gone].createdAt <= before[kept].createdAt
  {
    assert (set sid | sid in before && before[sid].user == Some(user) && before[sid].expiresAt > now)
        == LiveOf(before, user, now);
    assert (set sid | sid in after && after[sid].user == Some(user) && after[sid].expiresAt > now)
        == LiveOf(after, user, now);
  }

  ghost predicate OldestFirst(table: Table, sids: seq<string>) {
    && (forall i :: 0 <= i < |sids| ==> sids[i] in table)
    && (forall i, j :: 0 <= i < j < |sids| ==> table[sids[i]].createdAt <= table[sids[j]].createdAt)
  }

  lemma InsertKeepsOrder(table: Table, sorted: seq<string>, at: nat, sid: string)
    requires OldestFirst(table, sorted) && at <= |sorted| && sid in table
    requires at > 0 ==> table[sorted[at - 1]].createdAt <= table[sid].createdAt
    requires forall j :: at <= j < |sorted| ==> table[sid].createdAt < table[sorted[j]].createdAt
    ensures OldestFirst(table, sorted[..at] + [sid] + sorted[at..])
  {
  }

  lemma InsertCounts(sorted: seq<string>, at: nat, sid: string)
    requires at <= |sorted|
    ensures multiset(sorted[..at] + [sid] + sorted[at..]) == multiset(sorted) + multiset{sid}
  {
    assert sorted == sorted[..at] + sorted[at..];
  }

  /** The place behind every session that is no younger. */
  method InsertByCreation(table: Table, sorted: seq<string>, sid: string) returns (longer: seq<string>)
    requires OldestFirst(table, sorted) && sid in table
    ensures OldestFirst(table, longer) && multiset(longer) == multiset(sorted) + multiset{sid}
  {
    var at: nat := |sorted|;
    while at > 0 && table[sorted[at - 1]].createdAt > table[sid].createdAt
      invariant at <= |sorted|
      invariant forall j :: at <= j < |sorted| ==> table[sid].createdAt < table[sorted[j]].createdAt
    {
      at := at - 1;
    }
    longer := sorted[..at] + [sid] + sorted[at..];
    InsertKeepsOrder(table, sorted, at, sid);
    InsertCounts(sorted, at, sid);
  }

  /** A sort by creation time, equal times in the order given. */
  method SortByCreation(table: Table, sids: seq<string>) returns (sorted: seq<string>)
    requires forall sid :: sid in sids ==> sid in table
    ensures OldestFirst(table, sorted) && multiset(sorted) == multiset(sids)
  {
    sorted := [];
    for i := 0 to |sids|
      invariant OldestFirst(table, sorted) && multiset(sorted) == multiset(sids[..i])
    {
      hide OldestFirst;
      sorted := InsertByCreation(table, sorted, sids[i]);
      assert sids[..i + 1] == sids[..i] + [sids[i]];
    }
    assert sids[..|sids|] == sids;
  }

  class SessionService {
    var table: Table

    constructor ()
      ensures table == map[]
    {
      table := map[];
    }

    method DeleteEach(sids: seq<string>)
      modifies this
      ensures table == Without(old(table), sids)
    {
      ghost var before := table;
      for i := 0 to |sids|
        invariant table == Without(before, sids[..i])
      {
        assert sids[..i + 1] == sids[..i] + [sids[i]];
        table := table - {sids[i]};
      }
      assert sids[..|sids|] == sids;
    }

    method EnforceLimitForUser(user: UserId, maxPerUser: int, now: Time)
      modifies this
      ensures Enforced(old(table), table, user, maxPerUser, now)
    {
      var active := ListSet(LiveOf(table, user, now));
      assert forall sid :: sid in active ==> sid in table;
      var sorted := SortByCreation(table, active);
      hide LiveOf, Enumerates, OldestFirst, Enforced, Without;
      SortedEnumerates(active, sorted, LiveOf(table, user, now));
      var evictCount := |sorted| - (maxPerUser - 1);
      var n := if evictCount < 0 then 0 else if evictCount < |sorted| then evictCount else |sorted|;
      EvictingEnforces(table, sorted, n, user, maxPerUser, now);
      if evictCount <= 0 {
        WithoutNone(table, sorted[..n]);
        return;
      }
      DeleteEach(sorted[..n]);
    }
  }

  lemma WithoutNone(table: Table, sids: seq<string>)
    requires sids == []
    ensures Without(table, sids) == table
  {
  }

  ghost function Without(table: Table, sids: seq<string>): Table {
    map sid | sid in table && sid !in sids :: table[sid]
  }

  /** Evicting the oldest ones down to the room there is. */
  lemma EvictingEnforces(before: Table, sorted: seq<string>, n: nat, user: UserId, maxPerUser: int, now: Time)
    requires Enumerates(sorted, LiveOf(before, user, now)) && OldestFirst(before, sorted) && n <= |sorted|
    requires n == if |sorted| <= Room(maxPerUser) then 0 else |sorted| - Room(maxPerUser)
    ensures Enforced(before, Without(before, sorted[..n]), user, maxPerUser, now)
  {
    EvictedPrefix(before, sorted, n, user, now);
    EnumerationCounts(sorted, LiveOf(before, user, now));
  }

  lemma SortedEnumerates(active: seq<string>, sorted: seq<string>, s: set<string>)
    requires Enumerates(active, s) && multiset(sorted) == multiset(active)
    ensures Enumerates(sorted, s)
  {
    forall x ensures x in sorted <==> x in s {
      assert x in sorted <==> x in multiset(sorted);
      assert x in active <==> x in multiset(active);
    }
    forall i, j | 0 <= i < j < |sorted| ensures sorted[i] != sorted[j] {
      NoDuplicates(active);
      CountTwice(sorted, i, j);
    }
  }

  lemma {:induction false} NoDuplicates(xs: seq<string>)
    requires forall i, j :: 0 <= i < j < |xs| ==> xs[i] != xs[j]
    ensures forall x :: multiset(xs)[x] <= 1
  {
    if xs != [] {
      var rest := xs[..|xs| - 1];
      NoDuplicates(rest);
      assert xs == rest + [xs[|xs| - 1]];
      assert xs[|xs| - 1] !in multiset(rest);
    }
  }

  lemma CountTwice(xs: seq<string>, i: nat, j: nat)
    requires i < j < |xs|
    ensures xs[i] == xs[j] ==> multiset(xs)[xs[i]] >= 2
  {
    assert xs == xs[..i] + [xs[i]] + xs[i + 1..j] + [xs[j]] + xs[j + 1..];
  }

  lemma {:induction false} EnumerationCounts(xs: seq<string>, s: set<string>)
    requires Enumerates(xs, s)
    ensures |xs| == |s|
  {
    if xs == [] {
      assert s == {};
    } else {
      var rest, x := xs[..|xs| - 1], xs[|xs| - 1];
      assert xs == rest + [x];
      EnumerationCounts(rest, s - {x});
    }
  }

  /** Dropping the first `n` of the sorted live sessions leaves the others live and no older. */
  lemma EvictedPrefix(before: Table, sorted: seq<string>, n: nat, user: UserId, now: Time)
    requires Enumerates(sorted, LiveOf(before, user, now)) && OldestFirst(before, sorted) && n <= |sorted|
    ensures var after := Without(before, sorted[..n]);
            && |LiveOf(after, user, now)| == |sorted| - n
            && (forall sid :: sid in before && sid !in LiveOf(before, user, now) ==> sid in after)
            && (forall gone, kept :: gone in before && gone !in after && kept in LiveOf(after, user, now)
                  ==> before[gone].createdAt <= before[kept].createdAt)
  {
    var after := Without(before, sorted[..n]);
    forall sid ensures sid in LiveOf(after, user, now) <==> sid in sorted[n..] {
      if sid in LiveOf(after, user, now) {
        assert sid in sorted && sid !in sorted[..n];
      }
    }
    EnumerationCounts(sorted[n..], LiveOf(after, user, now));
  }

  // ---------- Meaning ----------

  /** With distinct creation times the limit leaves no choice about who is evicted. */
  lemma EvictionIsDetermined(before: Table, a: Table, b: Table, user: UserId, maxPerUser: int, now: Time)
    requires Enforced(before, a, user, maxPerUser, now) && Enforced(before, b, user, maxPerUser, now)
    requires forall x, y :: x in before && y in before && x != y ==> before[x].createdAt != before[y].createdAt
    ensures a == b
  {
    var inA, inB := LiveOf(a, user, now), LiveOf(b, user, now);
    if inA != inB {
      var x, y := DifferBothWays(inA, inB);
      assert false;
    }
    assert inA == inB;
    forall sid ensures sid in a <==> sid in b {
      assert sid in LiveOf(before, user, now) ==> (sid in a <==> sid in inA) && (sid in b <==> sid in inB);
    }
    assert a.Keys == b.Keys;
  }

  lemma DifferBothWays(a: set<string>, b: set<string>) returns (x: string, y: string)
    requires |a| == |b| && a != b
    ensures x in a && x !in b && y in b && y !in a
  {
    if a <= b {
      Smaller(a, b);
    } else if b <= a {
      Smaller(b, a);
    }
    assert !(a <= b) && !(b <= a);
    x :| x in a && x !in b;
    y :| y in b && y !in a;
  }

  lemma Smaller(a: set<string>, b: set<string>)
    requires a <= b
    ensures |a| <= |b| && (|a| == |b| ==> a == b)
  {
    assert b == a + (b - a);
  }

  /** Logging in is making room and adding the new session; afterwards the user is within the limit, whatever
      was there before. */
  lemma LoginKeepsLimit(before: Table, mid: Table, user: UserId, maxPerUser: int, now: Time, sid: string,
                        session: Session)
    requires Enforced(before, mid, user, maxPerUser, now) && sid !in before && session.user == Some(user)
    ensures var after := mid[sid := session];
            |LiveOf(after, user, now)| <= (if maxPerUser >= 1 then maxPerUser else 1)
  {
    var after := mid[sid := session];
    assert LiveOf(after, user, now) <= LiveOf(mid, user, now) + {sid};
    Smaller(LiveOf(after, user, now), LiveOf(mid, user, now) + {sid});
  }

  // ---------- Logins that overtake each other ----------

  /** Logins are numbered. `flying` holds those that made room and have yet to add their session. */
  datatype World = World(table: Table, flying: map<nat, UserId>)

  /** A login makes room, leaving the table `left`, or goes on although making room failed; a login adds its
      session; sessions go, by signing out, being revoked or being purged. A request saves the session it began
      with, which brings back one that is gone, or touches it, which does not. */
  datatype Step =
    | MakeRoom(login: nat, user: UserId, now: Time, left: Table)
    | SkipRoom(login: nat, user: UserId)
    | Add(login: nat, sid: string, session: Session)
    | Drop(sids: set<string>)
    | Save(sid: string, session: Session)
    | Touch(sid: string, expiresAt: Time)

  ghost predicate Possible(w: World, s: Step, maxPerUser: int) {
    match s
    case MakeRoom(login, user, now, left) => login !in w.flying && Enforced(w.table, left, user, maxPerUser, now)
    case SkipRoom(login, _) => login !in w.flying
    case Add(login, sid, session) => login in w.flying && sid !in w.table && session.user == Some(w.flying[login])
    case Drop(_) => true
    case Save(_, _) => true
    case Touch(_, _) => true
  }

  /** A session found is given the new expiry; one not found is created anew. */
  function Saved(table: Table, sid: string, session: Session): Table {
    table[sid := if sid in table then table[sid].(expiresAt := session.expiresAt) else session]
  }

  function Next(w: World, s: Step): World {
    match s
    case MakeRoom(login, user, _, left) => World(left, w.flying[login := user])
    case SkipRoom(login, user) => w.(flying := w.flying[login := user])
    case Add(login, sid, session) => World(w.table[sid := session], w.flying - {login})
    case Drop(sids) => w.(table := w.table - sids)
    case Save(sid, session) => w.(table := Saved(w.table, sid, session))
    case Touch(sid, expiresAt) =>
      if sid in w.table then w.(table := Saved(w.table, sid, w.table[sid].(expiresAt := expiresAt))) else w
  }

  /** The worlds an interleaving of logins passes through. */
  ghost predicate IsRun(worlds: seq<World>, steps: seq<Step>, maxPerUser: int) {
    && |worlds| == |steps| + 1
    && forall n :: 0 <= n < |steps| ==>
        Possible(worlds[n], steps[n], maxPerUser) && worlds[n + 1] == Next(worlds[n], steps[n])
  }

  lemma StepKeepsOwner(w: World, s: Step, maxPerUser: int, sid: string)
    requires Possible(w, s, maxPerUser) && sid in w.table && sid in Next(w, s).table
    ensures Next(w, s).table[sid].user == w.table[sid].user && Next(w, s).table[sid].createdAt == w.table[sid].createdAt
  {
  }

  /** As long as a session stays in the table it keeps its user and its time of creation, whatever is saved. */
  lemma {:induction false} OwnersStay(worlds: seq<World>, steps: seq<Step>, maxPerUser: int, sid: string, n: nat,
                                      m: nat)
    requires IsRun(worlds, steps, maxPerUser) && n <= m <= |steps|
    requires forall l :: n <= l <= m ==> sid in worlds[l].table
    ensures worlds[m].table[sid].user == worlds[n].table[sid].user
         && worlds[m].table[sid].createdAt == worlds[n].table[sid].createdAt
    decreases m
  {
    if n < m {
      OwnersStay(worlds, steps, maxPerUser, sid, n, m - 1);
      assert sid in worlds[m - 1].table && sid in worlds[m].table;
      assert worlds[(m - 1) + 1] == Next(worlds[m - 1], steps[m - 1]);
      StepKeepsOwner(worlds[m - 1], steps[m - 1], maxPerUser, sid);
    }
  }

  function FlyingOf(w: World, user: UserId): set<nat> {
    set login | login in w.flying && w.flying[login] == user
  }

  /** The sessions a user has at this time and those under way. */
  function Expected(w: World, user: UserId, at: Time): nat {
    |LiveOf(w.table, user, at)| + |FlyingOf(w, user)|
  }

  predicate MakesRoomFor(s: Step, user: UserId) {
    s.MakeRoom? && s.user == user
  }

  /** The step neither takes a live session of the user nor adds one that is over by then. */
  predicate LosesNothing(w: World, s: Step, user: UserId, at: Time) {
    && (s.Drop? ==> LiveOf(w.table, user, at) !! s.sids)
    && (s.Add? && s.session.user == Some(user) ==> s.session.expiresAt > at)
    && (s.Save? || s.Touch? ==> s.sid in LiveOf(w.table, user, at) ==> s.sid in LiveOf(Next(w, s).table, user, at))
  }

  /** The step makes one session of the user more for which no room was made: a login that skips making room, or
      a session that comes back to life. */
  predicate Raises(w: World, s: Step, user: UserId, at: Time) {
    || (s.SkipRoom? && s.user == user)
    || ((s.Save? || s.Touch?) && s.sid !in LiveOf(w.table, user, at) && s.sid in LiveOf(Next(w, s).table, user, at))
  }

  /** How many steps between `e` and `n` do. */
  function Raised(worlds: seq<World>, steps: seq<Step>, e: nat, n: nat, user: UserId, at: Time): nat
    requires e < n <= |steps| && |worlds| == |steps| + 1
  {
    if e + 1 == n then 0
    else Raised(worlds, steps, e, n - 1, user, at) + if Raises(worlds[n - 1], steps[n - 1], user, at) then 1 else 0
  }

  lemma LandingKeepsExpected(w: World, login: nat, sid: string, session: Session, user: UserId, at: Time)
    requires login in w.flying && sid !in w.table && session.user == Some(w.flying[login])
    ensures var out := Next(w, Add(login, sid, session));
      && Expected(out, user, at) <= Expected(w, user, at)
      && (session.user != Some(user) || session.expiresAt > at ==> Expected(out, user, at) == Expected(w, user, at))
  {
    LandedSession(w.table, sid, session, user, at);
    LandedLogin(w, login, user);
    hide LiveOf;
    var out := Next(w, Add(login, sid, session));
    assert FlyingOf(out, user) == FlyingOf(w.(flying := w.flying - {login}), user);
  }

  lemma LandedSession(table: Table, sid: string, session: Session, user: UserId, at: Time)
    requires sid !in table
    ensures var more := if session.user == Some(user) && session.expiresAt > at then 1 else 0;
            |LiveOf(table[sid := session], user, at)| == |LiveOf(table, user, at)| + more
  {
    var before, after := LiveOf(table, user, at), LiveOf(table[sid := session], user, at);
    if session.user == Some(user) && session.expiresAt > at {
      assert after == before + {sid};
    } else {
      assert after == before;
    }
  }

  lemma LandedLogin(w: World, login: nat, user: UserId)
    requires login in w.flying
    ensures var less := if w.flying[login] == user then 1 else 0;
            |FlyingOf(w.(flying := w.flying - {login}), user)| == |FlyingOf(w, user)| - less
  {
    var before, after := FlyingOf(w, user), FlyingOf(w.(flying := w.flying - {login}), user);
    if w.flying[login] == user {
      assert after == before - {login};
    } else {
      assert after == before;
    }
  }

  lemma DroppingKeepsExpected(w: World, sids: set<string>, user: UserId, at: Time)
    ensures var out := Next(w, Drop(sids));
      && Expected(out, user, at) <= Expected(w, user, at)
      && (LiveOf(w.table, user, at) !! sids ==> Expected(out, user, at) == Expected(w, user, at))
  {
    var before, after := LiveOf(w.table, user, at), LiveOf(w.table - sids, user, at);
    assert after == before - sids;
    Smaller(after, before);
  }

  lemma SavingMovesExpected(w: World, s: Step, user: UserId, at: Time)
    requires s.Save? || s.Touch?
    ensures var out, more := Next(w, s), if Raises(w, s, user, at) then 1 else 0;
      && Expected(out, user, at) <= Expected(w, user, at) + more
      && (LosesNothing(w, s, user, at) ==> Expected(out, user, at) == Expected(w, user, at) + more)
  {
    var before, after := LiveOf(w.table, user, at), LiveOf(Next(w, s).table, user, at);
    if Raises(w, s, user, at) {
      assert after == before + {s.sid};
    } else if LosesNothing(w, s, user, at) {
      assert after == before;
    } else {
      assert after == before - {s.sid};
    }
  }

  lemma SkippingRaises(w: World, login: nat, other: UserId, user: UserId)
    requires login !in w.flying
    ensures |FlyingOf(Next(w, SkipRoom(login, other)), user)| == |FlyingOf(w, user)| + if other == user then 1 else 0
  {
    var after := FlyingOf(Next(w, SkipRoom(login, other)), user);
    assert after == if other == user then FlyingOf(w, user) + {login} else FlyingOf(w, user);
  }

  /** Landing turns a login under way into a session; nothing but making room for this user evicts any. */
  lemma StepKeepsExpected(w: World, s: Step, user: UserId, at: Time, maxPerUser: int)
    requires Possible(w, s, maxPerUser) && !MakesRoomFor(s, user)
    ensures var out, more := Next(w, s), if Raises(w, s, user, at) then 1 else 0;
      && Expected(out, user, at) <= Expected(w, user, at) + more
      && (LosesNothing(w, s, user, at) ==> Expected(out, user, at) == Expected(w, user, at) + more)
  {
    match s
    case MakeRoom(login, other, now, left) =>
      OthersUntouched(w.table, left, user, other, maxPerUser, now, at);
      assert FlyingOf(Next(w, s), user) == FlyingOf(w, user);
    case SkipRoom(login, other) =>
      SkippingRaises(w, login, other, user);
    case Add(login, sid, session) =>
      hide LiveOf, FlyingOf, Expected, Next;
      LandingKeepsExpected(w, login, sid, session, user, at);
    case Drop(sids) =>
      hide LiveOf, FlyingOf, Expected, Next;
      DroppingKeepsExpected(w, sids, user, at);
    case _ =>
      SavingMovesExpected(w, s, user, at);
  }

  lemma OthersUntouched(table: Table, left: Table, user: UserId, other: UserId, maxPerUser: int, now: Time, at: Time)
    requires Enforced(table, left, other, maxPerUser, now) && user != other
    ensures LiveOf(left, user, at) == LiveOf(table, user, at)
  {
    forall sid | sid in LiveOf(table, user, at) ensures sid in left {
      assert sid !in LiveOf(table, other, now);
    }
  }

  /** From one time of making room to the next, the sessions of the user and those under way never exceed
      what there was right after it and what was raised since; and they are exactly as many if nothing is lost. */
  lemma {:induction false} ExpectedStays(worlds: seq<World>, steps: seq<Step>, maxPerUser: int, e: nat, n: nat,
                                         user: UserId, at: Time)
    requires IsRun(worlds, steps, maxPerUser) && e < n <= |steps|
    requires forall m :: e < m < n ==> !MakesRoomFor(steps[m], user)
    ensures Expected(worlds[n], user, at) <= Expected(worlds[e + 1], user, at) + Raised(worlds, steps, e, n, user, at)
    ensures (forall m :: e < m < n ==> LosesNothing(worlds[m], steps[m], user, at)) ==>
              Expected(worlds[n], user, at) ==
              Expected(worlds[e + 1], user, at) + Raised(worlds, steps, e, n, user, at)
    decreases n
  {
    hide Expected, Next, Raises, LosesNothing;
    if e + 1 < n {
      ExpectedStays(worlds, steps, maxPerUser, e, n - 1, user, at);
      StepKeepsExpected(worlds[n - 1], steps[n - 1], user, at, maxPerUser);
    }
  }

  /** Over all interleavings: the live sessions stay within one less than the limit plus the logins that had
      made room, and not yet landed, when room was last made (that one included), plus the sessions raised
      since. */
  lemma ExcessIsBounded(worlds: seq<World>, steps: seq<Step>, maxPerUser: int, e: nat, n: nat, user: UserId, at: Time)
    requires IsRun(worlds, steps, maxPerUser) && e < n <= |steps| && MakesRoomFor(steps[e], user) && steps[e].now <= at
    requires forall m :: e < m < n ==> !MakesRoomFor(steps[m], user)
    ensures |LiveOf(worlds[n].table, user, at)| + |FlyingOf(worlds[n], user)|
            <= Room(maxPerUser) + |FlyingOf(worlds[e + 1], user)| + Raised(worlds, steps, e, n, user, at)
  {
    hide Enforced, Raises;
    ExpectedStays(worlds, steps, maxPerUser, e, n, user, at);
    assert Possible(worlds[e], steps[e], maxPerUser) && worlds[e + 1] == Next(worlds[e], steps[e]);
    RoomIsMade(worlds[e].table, steps[e].left, user, maxPerUser, steps[e].now, at);
  }

  lemma RoomIsMade(before: Table, left: Table, user: UserId, maxPerUser: int, now: Time, at: Time)
    requires Enforced(before, left, user, maxPerUser, now) && now <= at
    ensures |LiveOf(left, user, at)| <= Room(maxPerUser)
  {
    assert LiveOf(left, user, at) <= LiveOf(left, user, now);
    Smaller(LiveOf(left, user, at), LiveOf(left, user, now));
  }

  /** So a user whose logins do not overtake each other exceeds the limit by what was raised at most. */
  lemma LimitHoldsWithoutOvertaking(worlds: seq<World>, steps: seq<Step>, maxPerUser: int, e: nat, n: nat, user: UserId,
                                    at: Time)
    requires IsRun(worlds, steps, maxPerUser) && e < n <= |steps| && MakesRoomFor(steps[e], user) && steps[e].now <= at
    requires forall m :: e < m < n ==> !MakesRoomFor(steps[m], user)
    requires FlyingOf(worlds[e], user) == {} && maxPerUser >= 1
    ensures |LiveOf(worlds[n].table, user, at)| <= maxPerUser + Raised(worlds, steps, e, n, user, at)
    ensures (forall m :: e < m < n ==> !Raises(worlds[m], steps[m], user, at)) ==>
              |LiveOf(worlds[n].table, user, at)| <= maxPerUser
  {
    hide Raises, LiveOf;
    NothingRaised(worlds, steps, e, n, user, at);
    ExcessIsBounded(worlds, steps, maxPerUser, e, n, user, at);
    assert FlyingOf(worlds[e + 1], user) == {steps[e].login};
  }

  lemma {:induction false} NothingRaised(worlds: seq<World>, steps: seq<Step>, e: nat, n: nat, user: UserId, at: Time)
    requires e < n <= |steps| && |worlds| == |steps| + 1
    ensures (forall m :: e < m < n ==> !Raises(worlds[m], steps[m], user, at)) ==>
              Raised(worlds, steps, e, n, user, at) == 0
    decreases n
  {
    if e + 1 < n {
      NothingRaised(worlds, steps, e, n - 1, user, at);
    }
  }

  /** The exact excess: once all logins have landed and nothing was lost, the sessions are those left when room
      was last made, that login, those it had overtaken, and those raised since. With no place left free, the
      user is over the limit if and only if that login overtook another or something was raised. */
  lemma ExceedsIffOvertaken(worlds: seq<World>, steps: seq<Step>, maxPerUser: int, e: nat, n: nat, user: UserId,
                            at: Time)
    requires IsRun(worlds, steps, maxPerUser) && e < n <= |steps| && MakesRoomFor(steps[e], user)
    requires forall m :: e < m < n ==> !MakesRoomFor(steps[m], user) && LosesNothing(worlds[m], steps[m], user, at)
    requires FlyingOf(worlds[n], user) == {}
    ensures var left, raised := |LiveOf(worlds[e + 1].table, user, at)|, Raised(worlds, steps, e, n, user, at);
      && |LiveOf(worlds[n].table, user, at)| == left + 1 + |FlyingOf(worlds[e], user)| + raised
      && (left == maxPerUser - 1 ==>
            (|LiveOf(worlds[n].table, user, at)| > maxPerUser <==> FlyingOf(worlds[e], user) != {} || raised > 0))
  {
    hide Enforced, Raises, LosesNothing;
    ExpectedStays(worlds, steps, maxPerUser, e, n, user, at);
    assert Possible(worlds[e], steps[e], maxPerUser) && worlds[e + 1] == Next(worlds[e], steps[e]);
    assert FlyingOf(worlds[e + 1], user) == FlyingOf(worlds[e], user) + {steps[e].login};
  }

  /** Two logins that make room before either lands. */
  lemma TwoLogins(table: Table, user: UserId, maxPerUser: int, now: Time, s: string, t: string, session: Session)
    returns (worlds: seq<World>, steps: seq<Step>)
    requires Enforced(table, table, user, maxPerUser, now)
    requires s !in table && t !in table && s != t && session.user == Some(user)
    ensures steps ==
        [MakeRoom(0, user, now, table), MakeRoom(1, user, now, table), Add(0, s, session), Add(1, t, session)]
    ensures IsRun(worlds, steps, maxPerUser) && worlds[0] == World(table, map[])
    ensures worlds[1] == World(table, map[0 := user]) && worlds[2].table == table && worlds[4].flying == map[]
  {
    hide Enforced;
    steps := [MakeRoom(0, user, now, table), MakeRoom(1, user, now, table), Add(0, s, session), Add(1, t, session)];
    var w0 := World(table, map[]);
    var w1 := Next(w0, steps[0]);
    var w2 := Next(w1, steps[1]);
    var w3 := Next(w2, steps[2]);
    worlds := [w0, w1, w2, w3, Next(w3, steps[3])];
  }

  /** Such a run, from any table with one place free: two logins make room before either lands. */
  lemma RacingLoginsExceedLimit(table: Table, user: UserId, maxPerUser: int, now: Time, s: string, t: string,
                                session: Session)
    returns (worlds: seq<World>, steps: seq<Step>)
    requires maxPerUser >= 1 && |LiveOf(table, user, now)| == maxPerUser - 1
    requires s !in table && t !in table && s != t && session.user == Some(user) && session.expiresAt > now
    ensures IsRun(worlds, steps, maxPerUser) && worlds[0] == World(table, map[])
    ensures FlyingOf(worlds[|steps|], user) == {} && |LiveOf(worlds[|steps|].table, user, now)| == maxPerUser + 1
  {
    worlds, steps := TwoLogins(table, user, maxPerUser, now, s, t, session);
    hide Enforced, IsRun;
    assert FlyingOf(worlds[1], user) == {0};
    LandedAll(worlds[4], user);
    assert forall m :: 1 < m < 4 ==> steps[m].Add?;
    NothingRaised(worlds, steps, 1, 4, user, now);
    ExceedsIffOvertaken(worlds, steps, maxPerUser, 1, 4, user, now);
  }

  /** No login overtakes another, and the limit is exceeded all the same: the evicted session is saved by a
      request that is still under way. */
  lemma SavedSessionExceedsLimit(table: Table, user: UserId, now: Time, evicted: string, sid: string, session: Session)
    returns (worlds: seq<World>, steps: seq<Step>)
    requires LiveOf(table, user, now) == {evicted} && sid !in table
    requires session.user == Some(user) && session.expiresAt > now
    ensures IsRun(worlds, steps, 1) && worlds[0] == World(table, map[])
    ensures |steps| == 3 && MakesRoomFor(steps[0], user) && steps[1].Add? && steps[2] == Save(evicted, table[evicted])
    ensures LiveOf(worlds[3].table, user, now) == {evicted, sid} && FlyingOf(worlds[3], user) == {}
  {
    var left := table - {evicted};
    steps := [MakeRoom(0, user, now, left), Add(0, sid, session), Save(evicted, table[evicted])];
    var w0 := World(table, map[]);
    var w1 := Next(w0, steps[0]);
    var w2 := Next(w1, steps[1]);
    worlds := [w0, w1, w2, Next(w2, steps[2])];
    assert Enforced(table, left, user, 1, now) by {
      assert LiveOf(left, user, now) == {};
    }
    LandedAll(worlds[3], user);
  }

  lemma LandedAll(w: World, user: UserId)
    requires w.flying == map[]
    ensures FlyingOf(w, user) == {}
  {
  }
}
