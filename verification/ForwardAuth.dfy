/** The forward-auth cache (forwardAuth.service.ts): answers are kept for five minutes and dropped when an
    event names their user. */
module ForwardAuth {
  import opened Model
  import opened Store
  import opened Cascade
  import opened Access
  import opened CompositeKey
  import opened Subscriptions

  /** Five minutes in milliseconds. */
  const TTL: int := 5 * 60 * 1000

  datatype Entry = Entry(allowed: bool, cachedAt: Time)
  type Cache = map<string, Entry>

  /** The access policy allows the user and a subscription entitles them. */
  function EvaluateAccess(db: Db, now: Time, user: UserId, service: Target): bool {
    && CanSubscribe(db.policies, user, service.id, service.defaultAllowed)
    && Key(user, service.id) in db.subs
    && ResolveEffectiveEntitlement(db, db.subs[Key(user, service.id)], now).active
  }

  /** Who may pass, in the columns of the store: the policy allows it, or there is none and the default does; the
      user's subscription is active and unexpired; and so is the one it derives from, if it derives from one. */
  ghost predicate MayPass(db: Db, now: Time, user: UserId, service: Target) {
    var k := Key(user, service.id);
    && (|| (k in db.policies && db.policies[k].effect == Allow)
        || (k !in db.policies && service.defaultAllowed))
    && k in db.subs && IsLive(db.subs[k], now)
    && match db.subs[k].derivedFrom
       case None => true
       case Some(id) => id.key in db.subs && db.subs[id.key].id == id && IsLive(db.subs[id.key], now)
  }

  ghost predicate IsLive(row: Subscription, now: Time) {
    row.status == Active && (row.expiresAt == None || row.expiresAt.value > now)
  }

  lemma EvaluationDecides(db: Db, now: Time, user: UserId, service: Target)
    ensures EvaluateAccess(db, now, user, service) <==> MayPass(db, now, user, service)
  {
  }

  predicate Hit(cache: Cache, key: string, now: Time) {
    key in cache && now - cache[key].cachedAt < TTL
  }

  function AnswerOf(cache: Cache, db: Db, now: Time, user: UserId, service: Target): bool {
    var key := Composite(user, service.id);
    if Hit(cache, key, now) then cache[key].allowed else EvaluateAccess(db, now, user, service)
  }

  function CacheAfter(cache: Cache, db: Db, now: Time, user: UserId, service: Target): Cache {
    var key := Composite(user, service.id);
    if Hit(cache, key, now) then cache else cache[key := Entry(EvaluateAccess(db, now, user, service), now)]
  }

  function Invalidated(cache: Cache, user: UserId): Cache {
    map key | key in cache && !(UserPrefix(user) <= key) :: cache[key]
  }

  class ForwardAuthService {
    var cache: Cache

    constructor ()
      ensures cache == map[]
    {
      cache := map[];
    }

    method IsAuthorized(db: Db, now: Time, user: UserId, service: Target) returns (allowed: bool)
      modifies this
      ensures allowed == AnswerOf(old(cache), db, now, user, service)
      ensures cache == CacheAfter(old(cache), db, now, user, service)
      ensures var key := Composite(user, service.id);
        if key in old(cache) && now - old(cache)[key].cachedAt < 300_000
        then allowed == old(cache)[key].allowed && cache == old(cache)
        else allowed == MayPass(db, now, user, service) && cache == old(cache)[key := Entry(allowed, now)]
    {
      EvaluationDecides(db, now, user, service);
      hide EvaluateAccess, MayPass, Composite;
      var key := Composite(user, service.id);
      if key in cache && now - cache[key].cachedAt < TTL {
        return cache[key].allowed;
      }
      allowed := EvaluateAccess(db, now, user, service);
      cache := cache[key := Entry(allowed, now)];
    }

    method HandleInvalidation(user: UserId)
      modifies this
      ensures cache == Invalidated(old(cache), user)
    {
      var before := cache;
      var keys := ListSet(cache.Keys);
      for i := 0 to |keys|
        invariant cache == map key | key in before && !(UserPrefix(user) <= key && key in keys[..i]) :: before[key]
      {
        assert keys[..i + 1] == keys[..i] + [keys[i]];
        if UserPrefix(user) <= keys[i] {
          cache := cache - {keys[i]};
        }
      }
      assert keys[..|keys|] == keys;
    }
  }

  /** An event drops exactly the entries of its user, and of users whose id begins with that id and a colon. */
  lemma InvalidationIsExact(cache: Cache, user: UserId, other: UserId, service: ServiceId)
    requires Composite(other, service) in cache
    ensures Composite(other, service) in Invalidated(cache, user) <==> !(UserPrefix(user) <= UserPrefix(other))
    ensures ColonFree(other) ==> (Composite(other, service) in Invalidated(cache, user) <==> user != other)
  {
    PrefixIsExact(user, other, service);
  }

  lemma OwnPrefix(user: UserId, service: ServiceId)
    ensures UserPrefix(user) <= Composite(user, service)
  {
  }

  // ---------- Evaluation and caching in one step ----------

  /** What reaches the service: questions, each with the store and clock of its instant, and events. */
  datatype Call = Ask(db: Db, now: Time, user: UserId, service: Target) | Changed(user: UserId)

  /** The cache after the given calls. */
  function CacheOf(calls: seq<Call>): Cache {
    if calls == [] then map[]
    else
      var before := CacheOf(calls[..|calls| - 1]);
      match calls[|calls| - 1]
      case Ask(db, now, user, service) => CacheAfter(before, db, now, user, service)
      case Changed(user) => Invalidated(before, user)
  }

  /** No event about the user between the calls at `from` and `to`, both excluded. */
  predicate Undisturbed(calls: seq<Call>, user: UserId, from: nat, to: nat)
    requires to <= |calls|
  {
    forall l :: from < l < to ==> calls[l] != Changed(user)
  }

  function Evaluated(c: Call): bool
    requires c.Ask?
  {
    EvaluateAccess(c.db, c.now, c.user, c.service)
  }

  /** The entry was computed by the question at `j`, and nothing invalidated its user since. */
  ghost predicate CameFrom(calls: seq<Call>, key: string, entry: Entry, j: nat) {
    && j < |calls| && calls[j].Ask? && key == Composite(calls[j].user, calls[j].service.id)
    && entry == Entry(Evaluated(calls[j]), calls[j].now)
    && Undisturbed(calls, calls[j].user, j, |calls|)
  }

  lemma {:induction false} EntriesHaveOrigins(calls: seq<Call>, key: string) returns (j: nat)
    requires key in CacheOf(calls)
    ensures CameFrom(calls, key, CacheOf(calls)[key], j)
  {
    hide EvaluateAccess, Composite, UserPrefix;
    var n := |calls| - 1;
    var rest, last := calls[..n], calls[n];
    if last.Ask? && key == Composite(last.user, last.service.id) && !Hit(CacheOf(rest), key, last.now) {
      j := n;
    } else {
      j := EntriesHaveOrigins(rest, key);
      OwnPrefix(calls[j].user, calls[j].service.id);
    }
  }

  /** The cache refines direct evaluation: every answer is what evaluation gave at some earlier question
      about the same user and service, less than five minutes before, with no event about the user since. */
  lemma CacheRefinesEvaluation(calls: seq<Call>, i: nat) returns (j: nat)
    requires i < |calls| && calls[i].Ask?
    ensures j <= i && calls[j].Ask? && calls[j].user == calls[i].user && calls[j].service.id == calls[i].service.id
    ensures calls[i].now - calls[j].now < TTL && Undisturbed(calls, calls[i].user, j, i)
    ensures AnswerOf(CacheOf(calls[..i]), calls[i].db, calls[i].now, calls[i].user, calls[i].service) ==
        Evaluated(calls[j])
  {
    hide EvaluateAccess, Composite;
    var before := calls[..i];
    var key := Composite(calls[i].user, calls[i].service.id);
    if Hit(CacheOf(before), key, calls[i].now) {
      j := EntriesHaveOrigins(before, key);
      CompositeIsInjective(calls[i].user, calls[i].service.id, calls[j].user, calls[j].service.id);
    } else {
      j := i;
    }
  }

  /** So an answer is true if and only if the user might pass at some question about the same user and service less
      than five minutes before, with no event about the user since. */
  lemma AnswerDecides(calls: seq<Call>, i: nat) returns (j: nat)
    requires i < |calls| && calls[i].Ask?
    ensures j <= i && calls[j].Ask? && calls[j].user == calls[i].user && calls[j].service.id == calls[i].service.id
    ensures calls[i].now - calls[j].now < 300_000 && forall l :: j < l < i ==> calls[l] != Changed(calls[i].user)
    ensures AnswerOf(CacheOf(calls[..i]), calls[i].db, calls[i].now, calls[i].user, calls[i].service)
        <==> MayPass(calls[j].db, calls[j].now, calls[j].user, calls[j].service)
  {
    j := CacheRefinesEvaluation(calls, i);
    EvaluationDecides(calls[j].db, calls[j].now, calls[j].user, calls[j].service);
    hide EvaluateAccess, MayPass, AnswerOf, CacheOf;
  }

  /** From the gate back to the source: whoever is let through to a REFERENCED service had, less than five
      minutes before, a live subscription on its MANAGED account source. */
  lemma AllowedMeansLiveSource(calls: seq<Call>, i: nat) returns (j: nat, source: Key)
    requires i < |calls| && calls[i].Ask?
    requires forall l :: 0 <= l < |calls| && calls[l].Ask? && calls[l].service.id == calls[i].service.id ==>
               Inv(calls[l].db) && calls[l].service.id in calls[l].db.services
               && calls[l].db.services[calls[l].service.id].accountType == Referenced
    requires AnswerOf(CacheOf(calls[..i]), calls[i].db, calls[i].now, calls[i].user, calls[i].service)
    ensures j <= i && calls[j].Ask? && calls[i].now - calls[j].now < TTL
    ensures source.user == calls[i].user && source in calls[j].db.subs && source.service in calls[j].db.services
    ensures calls[j].db.services[source.service].accountType == Managed
    ensures calls[j].db.subs[source].status == Active && Unexpired(calls[j].db.subs[source].expiresAt, calls[j].now)
  {
    hide CacheOf, AnswerOf, AtRest;
    j := CacheRefinesEvaluation(calls, i);
    var db, k := calls[j].db, Key(calls[j].user, calls[j].service.id);
    assert RowOk(db, k);
    source := SourceKey(db.services, k);
    assert RowOk(db, source);
    EntitlementNeedsSource(db, k, calls[j].now);
  }

  // ---------- Evaluation and caching as separate steps ----------

  /** Steps of concurrent requests: a request takes its answer at `Begin` and stores it at `End`; a `Read`
      is answered from the cache, while the store is `db` by then. Requests are numbered. */
  datatype Step =
    | Begin(request: nat, db: Db, at: Time, user: UserId, service: Target)
    | End(request: nat, at: Time)
    | Read(db: Db, at: Time, user: UserId, service: Target)
    | Event(user: UserId)

  datatype Pending = Pending(key: string, allowed: bool)
  datatype State = State(cache: Cache, pending: map<nat, Pending>)

  function Taken(s: Step): Pending
    requires s.Begin?
  {
    Pending(Composite(s.user, s.service.id), EvaluateAccess(s.db, s.at, s.user, s.service))
  }

  function Next(before: State, s: Step): State {
    match s
    case Begin(r, _, _, _, _) => before.(pending := before.pending[r := Taken(s)])
    case End(r, at) =>
      if r in before.pending
      then State(before.cache[before.pending[r].key := Entry(before.pending[r].allowed, at)], before.pending - {r})
      else before
    case Read(_, _, _, _) => before
    case Event(user) => before.(cache := Invalidated(before.cache, user))
  }

  function StateOf(steps: seq<Step>): State {
    if steps == [] then State(map[], map[]) else Next(StateOf(steps[..|steps| - 1]), steps[|steps| - 1])
  }

  lemma {:induction false} PendingHasOrigin(steps: seq<Step>, r: nat) returns (b: nat)
    requires r in StateOf(steps).pending
    ensures b < |steps| && steps[b].Begin? && steps[b].request == r && StateOf(steps).pending[r] == Taken(steps[b])
  {
    hide Taken, Invalidated;
    var n := |steps| - 1;
    if steps[n].Begin? && steps[n].request == r {
      b := n;
    } else {
      b := PendingHasOrigin(steps[..n], r);
    }
  }

  /** A cached answer was taken at step `b`, stored at step `e`, and no event about its user came after. */
  ghost predicate StoredFrom(steps: seq<Step>, key: string, entry: Entry, b: nat, e: nat) {
    && b < e < |steps| && steps[b].Begin? && steps[e].End? && steps[e].request == steps[b].request
    && Taken(steps[b]) == Pending(key, entry.allowed) && entry.cachedAt == steps[e].at
    && forall l :: e < l < |steps| ==> steps[l] != Event(steps[b].user)
  }

  lemma {:induction false} StoredHasOrigin(steps: seq<Step>, key: string) returns (b: nat, e: nat)
    requires key in StateOf(steps).cache
    ensures StoredFrom(steps, key, StateOf(steps).cache[key], b, e)
  {
    hide EvaluateAccess, Composite, UserPrefix;
    var n := |steps| - 1;
    var rest, last := steps[..n], steps[n];
    if last.End? && last.request in StateOf(rest).pending && StateOf(rest).pending[last.request].key == key {
      b := PendingHasOrigin(rest, last.request);
      e := n;
    } else {
      b, e := StoredHasOrigin(rest, key);
      OwnPrefix(steps[b].user, steps[b].service.id);
    }
  }

  function KeyOf(s: Step): string
    requires s.Read?
  {
    Composite(s.user, s.service.id)
  }

  /** The read at `i` is answered from the cache. */
  predicate IsServed(steps: seq<Step>, i: nat) {
    i < |steps| && steps[i].Read? && Hit(StateOf(steps[..i]).cache, KeyOf(steps[i]), steps[i].at)
  }

  function Served(steps: seq<Step>, i: nat): bool
    requires IsServed(steps, i)
  {
    StateOf(steps[..i]).cache[KeyOf(steps[i])].allowed
  }

  /** What evaluation gives at the instant of this step. */
  function Truth(s: Step): bool
    requires s.Begin? || s.Read?
  {
    EvaluateAccess(s.db, s.at, s.user, s.service)
  }

  /** Where the answer served at `i` comes from: taken at `b`, stored at `e`, with no event about its user
      after that. */
  ghost predicate Origin(steps: seq<Step>, i: nat, b: nat, e: nat)
    requires IsServed(steps, i)
  {
    && b < e < i && steps[b].Begin? && steps[b].user == steps[i].user && steps[b].service.id == steps[i].service.id
    && steps[e].End? && steps[e].request == steps[b].request
    && StateOf(steps[..i]).cache[KeyOf(steps[i])].cachedAt == steps[e].at
    && Served(steps, i) == Truth(steps[b])
    && forall l :: e < l < i ==> steps[l] != Event(steps[i].user)
  }

  lemma ServedHasOrigin(steps: seq<Step>, i: nat) returns (b: nat, e: nat)
    requires IsServed(steps, i)
    ensures Origin(steps, i, b, e)
  {
    hide EvaluateAccess, Composite, StateOf;
    b, e := StoredHasOrigin(steps[..i], KeyOf(steps[i]));
    CompositeIsInjective(steps[i].user, steps[i].service.id, steps[b].user, steps[b].service.id);
  }

  /** With separate steps an answer may be older by the time its evaluation took, and no more: it was taken
      less than five minutes plus that time ago, and no event about its user came after it was stored. */
  lemma StalenessIsBounded(steps: seq<Step>, i: nat, longest: Time) returns (b: nat, e: nat)
    requires IsServed(steps, i)
    requires forall b, e ::
      0 <= b < e < |steps| && steps[b].Begin? && steps[e].End? && steps[b].request == steps[e].request
      ==> steps[e].at - steps[b].at <= longest
    ensures Origin(steps, i, b, e) && steps[i].at - steps[b].at < TTL + longest
  {
    hide EvaluateAccess, Composite, StateOf;
    b, e := ServedHasOrigin(steps, i);
    assert steps[e].at - steps[b].at <= longest;
  }

  // ---------- What separate steps cost ----------

  ghost predicate EventBetween(steps: seq<Step>, user: UserId, from: nat, to: nat)
    requires to <= |steps|
  {
    exists l :: from < l < to && steps[l] == Event(user)
  }

  /** Whenever evaluation about the user and the service changes, an event about the user came in between. */
  ghost predicate IsAnnounced(steps: seq<Step>, user: UserId, service: ServiceId) {
    forall l, m :: 0 <= l < m < |steps| && Asks(steps[l], user, service) && Asks(steps[m], user, service) ==>
      EventBetween(steps, user, l, m) || Truth(steps[l]) == Truth(steps[m])
  }

  predicate Asks(s: Step, user: UserId, service: ServiceId) {
    (s.Begin? || s.Read?) && s.user == user && s.service.id == service
  }

  /** The exact price: an event since the answer was taken went unheeded if and only if it fell between
      evaluation and storing. So where every change is announced, a wrong answer is served only if an event
      fell there. */
  lemma MissedIffDuringEvaluation(steps: seq<Step>, i: nat, b: nat, e: nat)
    requires IsServed(steps, i) && Origin(steps, i, b, e)
    ensures EventBetween(steps, steps[i].user, b, i) <==> EventBetween(steps, steps[i].user, b, e)
    ensures IsAnnounced(steps, steps[i].user, steps[i].service.id) && Served(steps, i) != Truth(steps[i]) ==>
              EventBetween(steps, steps[i].user, b, e)
  {
    hide EvaluateAccess, Composite, StateOf;
    if EventBetween(steps, steps[i].user, b, i) {
      var l :| b < l < i && steps[l] == Event(steps[i].user);
      assert l < e;
    }
    assert Asks(steps[b], steps[i].user, steps[i].service.id) && Asks(steps[i], steps[i].user, steps[i].service.id);
  }

  /** A store with one subscription to a service without accounts. */
  function OneRow(status: Status): Db {
    Db(map["u" := false], map[0 := Service(true, NoAccount, None, true)], map[],
       map[Key("u", 0) := Subscription(SubId(Key("u", 0), 0), status, Some(100), false, None, None, None, None, None,
           None)],
       map[Key("u", 0) := 1], map[], 0)
  }

  lemma OneRowIsTheAnswer(status: Status, now: Time)
    requires now < 100
    ensures EvaluateAccess(OneRow(status), now, "u", Target(0, true)) <==> status == Active
  {
  }

  /** It does happen: the subscription is disabled and announced while an earlier answer is on its way to the
      cache, and the user is let through afterwards. */
  lemma EventDuringEvaluationIsMissed() returns (steps: seq<Step>, i: nat)
    ensures IsServed(steps, i) && Served(steps, i) && !Truth(steps[i])
    ensures IsAnnounced(steps, steps[i].user, steps[i].service.id)
  {
    hide EvaluateAccess, Composite, Invalidated, OneRow;
    var target := Target(0, true);
    steps, i := [Begin(0, OneRow(Active), 0, "u", target), Event("u"), End(0, 1),
        Read(OneRow(Disabled), 2, "u", target)], 3;
    assert steps[..3][..2] == steps[..2] && steps[..2][..1] == steps[..1] && steps[..1][..0] == [];
    assert StateOf(steps[..1]) == Next(State(map[], map[]), steps[0]);
    assert StateOf(steps[..2]) == Next(StateOf(steps[..1]), steps[1]);
    assert StateOf(steps[..3]) == Next(StateOf(steps[..2]), steps[2]);
    OneRowIsTheAnswer(Active, 0);
    OneRowIsTheAnswer(Disabled, 2);
    forall l, m | 0 <= l < m < |steps| && Asks(steps[l], "u", 0) && Asks(steps[m], "u", 0)
      ensures EventBetween(steps, "u", l, m)
    {
      assert l == 0 && m == 3;
      assert steps[1] == Event("u");
    }
  }
}
