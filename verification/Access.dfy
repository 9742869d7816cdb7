/** Who may subscribe to what (serviceAccess.service.ts). */
module Access {
  import opened Model
  import opened Store

  /** A policy decides; without one the service's default does. */
  function CanSubscribe(policies: map<Key, Policy>, user: UserId, service: ServiceId, defaultAllowed: bool): bool {
    if Key(user, service) in policies then policies[Key(user, service)].effect == Allow else defaultAllowed
  }

  /** The policy allows it, or there is none and the default does. */
  ghost predicate IsPermitted(policies: map<Key, Policy>, user: UserId, service: ServiceId, defaultAllowed: bool) {
    || (Key(user, service) in policies && policies[Key(user, service)].effect == Allow)
    || (Key(user, service) !in policies && defaultAllowed)
  }

  lemma PolicyDecides(policies: map<Key, Policy>, user: UserId, service: ServiceId, defaultAllowed: bool)
    ensures CanSubscribe(policies, user, service, defaultAllowed)
        <==> IsPermitted(policies, user, service, defaultAllowed)
  {
  }

  /** The service as the caller resolved it. */
  datatype Target = Target(id: ServiceId, defaultAllowed: bool)

  /** Is this the last place among the first `n` that speaks about its service? */
  predicate IsLast(services: seq<Target>, i: nat, n: nat)
    requires i < n <= |services|
  {
    forall j :: i < j < n ==> services[j].id != services[i].id
  }

  /** How many accounts the user may link on the service. */
  function AccountCap(db: Db, k: Key): int {
    if k in db.policies then db.policies[k].accountsPerService else 1
  }

  /** The policies of one user as the repository returns them, in any order. */
  method FindByUserId(policies: map<Key, Policy>, user: UserId) returns (rows: seq<Key>)
    ensures Enumerates(rows, set k | k in policies && k.user == user)
  {
    rows := ListSet(set k | k in policies && k.user == user);
  }

  method EffectsOf(policies: map<Key, Policy>, user: UserId) returns (effects: map<ServiceId, Effect>)
    ensures forall s :: s in effects <==> Key(user, s) in policies
    ensures forall s :: s in effects ==> effects[s] == policies[Key(user, s)].effect
  {
    var rows := FindByUserId(policies, user);
    effects := map[];
    for n := 0 to |rows|
      invariant forall s :: s in effects <==> Key(user, s) in rows[..n]
      invariant forall s :: s in effects ==> effects[s] == policies[Key(user, s)].effect
    {
      assert rows[n] == Key(user, rows[n].service) && rows[..n + 1] == rows[..n] + [rows[n]];
      effects := effects[rows[n].service := policies[rows[n]].effect];
    }
    assert rows[..|rows|] == rows;
  }

  lemma {:induction false} LastMention(services: seq<Target>, i: nat) returns (j: nat)
    requires i < |services|
    ensures i <= j < |services| && services[j].id == services[i].id && IsLast(services, j, |services|)
    decreases |services| - i
  {
    if IsLast(services, i, |services|) {
      j := i;
    } else {
      var later :| i < later < |services| && services[later].id == services[i].id;
      j := LastMention(services, later);
    }
  }

  /** No service is listed twice with different defaults. */
  predicate IsConsistent(services: seq<Target>) {
    forall i, j :: 0 <= i < j < |services| && services[i].id == services[j].id ==> services[i] == services[j]
  }

  /** One turn of the batch, from the effects map. */
  method Decide(effects: map<ServiceId, Effect>, service: Target) returns (allowed: bool)
    ensures allowed == if service.id in effects then effects[service.id] == Allow else service.defaultAllowed
  {
    if service.id in effects && effects[service.id] == Deny {
      allowed := false;
    } else if service.id in effects && effects[service.id] == Allow {
      allowed := true;
    } else {
      allowed := service.defaultAllowed;
    }
  }

  /** The map gives the service the answer of `CanSubscribe`. */
  predicate Agrees(result: map<ServiceId, bool>, policies: map<Key, Policy>, user: UserId, service: Target) {
    && service.id in result
    && result[service.id] == CanSubscribe(policies, user, service.id, service.defaultAllowed)
  }

  function Ids(services: seq<Target>): set<ServiceId> {
    set t | t in services :: t.id
  }

  /** The answers given to the first `n` services. */
  ghost predicate Answered(result: map<ServiceId, bool>, policies: map<Key, Policy>, user: UserId,
                           services: seq<Target>, n: nat)
    requires n <= |services|
  {
    && result.Keys <= Ids(services)
    && (forall i :: 0 <= i < n ==> services[i].id in result)
    && (forall i :: 0 <= i < n && IsLast(services, i, n) ==> Agrees(result, policies, user, services[i]))
  }

  lemma AnswerNext(result: map<ServiceId, bool>, policies: map<Key, Policy>, user: UserId, services: seq<Target>,
                   n: nat)
    requires n < |services| && Answered(result, policies, user, services, n)
    ensures var allowed := CanSubscribe(policies, user, services[n].id, services[n].defaultAllowed);
            Answered(result[services[n].id := allowed], policies, user, services, n + 1)
  {
    hide CanSubscribe, Ids;
    var id, allowed := services[n].id, CanSubscribe(policies, user, services[n].id, services[n].defaultAllowed);
    var after := result[id := allowed];
    IsListed(services, n);
    assert after.Keys == result.Keys + {id};
    forall i | 0 <= i < n + 1 ensures services[i].id in after {
    }
    forall i | 0 <= i < n + 1 && IsLast(services, i, n + 1) ensures Agrees(after, policies, user, services[i]) {
      if i < n {
        assert services[i].id != id;
        assert IsLast(services, i, n) && Agrees(result, policies, user, services[i]);
      }
    }
  }

  lemma IsListed(services: seq<Target>, n: nat)
    requires n < |services|
    ensures services[n].id in Ids(services)
  {
  }

  lemma ConsistentListsAgree(result: map<ServiceId, bool>, policies: map<Key, Policy>, user: UserId,
                             services: seq<Target>, i: nat)
    requires Answered(result, policies, user, services, |services|) && IsConsistent(services) && i < |services|
    ensures Agrees(result, policies, user, services[i])
  {
    hide CanSubscribe;
    var j := LastMention(services, i);
    assert services[j] == services[i];
  }

  /** Answers for a whole list at once. A service listed more than once gets the answer of its last mention,
      so in a consistent list every entry gets what `CanSubscribe` says about it. */
  method ResolveAccess(policies: map<Key, Policy>, user: UserId, services: seq<Target>)
    returns (result: map<ServiceId, bool>)
    ensures Answered(result, policies, user, services, |services|)
    ensures IsConsistent(services) ==>
              forall i :: 0 <= i < |services| ==>
                result[services[i].id] == CanSubscribe(policies, user, services[i].id, services[i].defaultAllowed)
  {
    var effects := EffectsOf(policies, user);
    result := map[];
    for n := 0 to |services|
      invariant Answered(result, policies, user, services, n)
    {
      var allowed := Decide(effects, services[n]);
      hide Answered;
      assert allowed == CanSubscribe(policies, user, services[n].id, services[n].defaultAllowed);
      AnswerNext(result, policies, user, services, n);
      result := result[services[n].id := allowed];
    }
    if IsConsistent(services) {
      forall i | 0 <= i < |services| ensures Agrees(result, policies, user, services[i]) {
        ConsistentListsAgree(result, policies, user, services, i);
      }
    }
  }
}
