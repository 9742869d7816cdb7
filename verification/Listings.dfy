/** Subscription listings, hydrated in batches (subscriptions.service.ts). */
module Listings {
  import opened Model
  import opened Store
  import opened Access
  import opened CompositeKey

  /** A subscription as the repository returned it. */
  datatype Listed = Listed(key: Key, row: Subscription)

  /** One entry of a listing. The owner is represented by their admin flag. */
  datatype Detail = Detail(
    listed: Listed,
    accountType: AccountType,
    service: Option<Service>,
    owner: Option<bool>,
    accounts: seq<AccountId>,
    accountCap: int)

  function Lookup<K, V>(m: map<K, V>, k: K): Option<V> {
    if k in m then Some(m[k]) else None
  }

  /** The entry that individual lookups give. `linked` is the accounts query. */
  function DetailOf(db: Db, linked: SubId -> seq<AccountId>, s: Listed): Detail {
    var service := Lookup(db.services, s.key.service);
    Detail(s, if service.Some? then service.value.accountType else NoAccount, service,
           Lookup(db.users, s.key.user), linked(s.row.id), AccountCap(db, s.key))
  }

  /** `m` holds exactly the rows of `table` among `keys`. */
  ghost predicate IsRestriction<K(!new), V(!new)>(m: map<K, V>, table: map<K, V>, keys: set<K>) {
    forall k :: Lookup(m, k) == if k in keys then Lookup(table, k) else None
  }

  /** Looks up each id once; absent rows are skipped. */
  method FindAll<K(!new, ==), V(!new)>(table: map<K, V>, ids: set<K>) returns (found: map<K, V>)
    ensures IsRestriction(found, table, ids)
  {
    var keys := ListSet(ids);
    found := map[];
    for i := 0 to |keys|
      invariant forall k :: Lookup(found, k) == if k in keys[..i] then Lookup(table, k) else None
    {
      assert keys[..i + 1] == keys[..i] + [keys[i]];
      if keys[i] in table {
        found := found[keys[i] := table[keys[i]]];
      }
    }
    assert keys[..|keys|] == keys;
  }

  /** The policies of the users, under their composite string keys. */
  ghost predicate IsPolicyMap(m: map<string, Policy>, policies: map<Key, Policy>, users: set<UserId>) {
    forall k: Key :: k.user in users ==> Lookup(m, Composite(k.user, k.service)) == Lookup(policies, k)
  }

  method MapPolicies(policies: map<Key, Policy>, users: set<UserId>) returns (m: map<string, Policy>)
    ensures IsPolicyMap(m, policies, users)
  {
    hide Composite;
    m := map[];
    var ids := ListSet(users);
    for i := 0 to |ids|
      invariant forall k: Key :: k.user in users ==>
                  Lookup(m, Composite(k.user, k.service)) == if k.user in ids[..i] then Lookup(policies, k) else None
    {
      assert ids[..i + 1] == ids[..i] + [ids[i]];
      var rows := FindByUserId(policies, ids[i]);
      assert ids[i] !in ids[..i];
      for j := 0 to |rows|
        invariant forall k: Key :: k.user in users ==>
                    Lookup(m, Composite(k.user, k.service))
                    == if k.user in ids[..i] || k in rows[..j] then Lookup(policies, k) else None
      {
        assert rows[..j + 1] == rows[..j] + [rows[j]];
        forall k: Key | k.user in users && Composite(k.user, k.service) == Composite(rows[j].user, rows[j].service)
          ensures k == rows[j]
        {
          CompositeIsInjective(k.user, k.service, rows[j].user, rows[j].service);
        }
        m := m[Composite(rows[j].user, rows[j].service) := policies[rows[j]]];
      }
      assert rows[..|rows|] == rows;
    }
    assert ids[..|ids|] == ids;
  }

  method MapAccounts(linked: SubId -> seq<AccountId>, subscriptions: seq<Listed>)
    returns (m: map<SubId, seq<AccountId>>)
    ensures forall s :: s in subscriptions ==> s.row.id in m && m[s.row.id] == linked(s.row.id)
  {
    m := map[];
    for i := 0 to |subscriptions|
      invariant forall j :: 0 <= j < i ==> subscriptions[j].row.id in m
      invariant forall id :: id in m ==> m[id] == linked(id)
    {
      m := m[subscriptions[i].row.id := linked(subscriptions[i].row.id)];
    }
  }

  function Entry(s: Listed, service: Option<Service>, owner: Option<bool>, accounts: seq<AccountId>,
                 policy: Option<Policy>): Detail {
    Detail(s, if service.Some? then service.value.accountType else NoAccount, service, owner, accounts,
           if policy.Some? then policy.value.accountsPerService else 1)
  }

  /** The whole listing, in the order given, with one query per distinct user and service: the same as looking
      everything up for each subscription by itself. */
  method HydrateSubscriptionDetails(db: Db, linked: SubId -> seq<AccountId>, subscriptions: seq<Listed>)
    returns (details: seq<Detail>)
    ensures |details| == |subscriptions|
    ensures forall i :: 0 <= i < |subscriptions| ==> details[i] == DetailOf(db, linked, subscriptions[i])
  {
    hide *;
    var userIds := set s | s in subscriptions :: s.key.user;
    var serviceIds := set s | s in subscriptions :: s.key.service;
    var userMap := FindAll(db.users, userIds);
    var serviceMap := FindAll(db.services, serviceIds);
    var policyMap := MapPolicies(db.policies, userIds);
    var accountMap := MapAccounts(linked, subscriptions);
    details := [];
    for i := 0 to |subscriptions|
      invariant |details| == i
      invariant forall j :: 0 <= j < i ==> details[j] == DetailOf(db, linked, subscriptions[j])
    {
      var s := subscriptions[i];
      assert s in subscriptions && s.key.user in userIds && s.key.service in serviceIds;
      EntryIsDetail(db, linked, s, userMap, userIds, serviceMap, serviceIds, policyMap);
      details := details + [Entry(s, Lookup(serviceMap, s.key.service), Lookup(userMap, s.key.user),
          accountMap[s.row.id],
                                  Lookup(policyMap, Composite(s.key.user, s.key.service)))];
    }
  }

  lemma EntryIsDetail(db: Db, linked: SubId -> seq<AccountId>, s: Listed, userMap: map<UserId, bool>,
                      userIds: set<UserId>,
                      serviceMap: map<ServiceId, Service>, serviceIds: set<ServiceId>, policyMap: map<string, Policy>)
    requires s.key.user in userIds && s.key.service in serviceIds
    requires IsRestriction(userMap, db.users, userIds) && IsRestriction(serviceMap, db.services, serviceIds)
    requires IsPolicyMap(policyMap, db.policies, userIds)
    ensures Entry(s, Lookup(serviceMap, s.key.service), Lookup(userMap, s.key.user), linked(s.row.id),
                  Lookup(policyMap, Composite(s.key.user, s.key.service))) == DetailOf(db, linked, s)
  {
  }

  /** What an entry says, in the columns of the store. */
  lemma DetailDecides(db: Db, linked: SubId -> seq<AccountId>, s: Listed)
    ensures var d := DetailOf(db, linked, s);
      && d.listed == s && d.accounts == linked(s.row.id)
      && (if s.key.service in db.services
          then d.service == Some(db.services[s.key.service]) && d.accountType == db.services[s.key.service].accountType
          else d.service == None && d.accountType == NoAccount)
      && d.owner == (if s.key.user in db.users then Some(db.users[s.key.user]) else None)
      && d.accountCap == (if s.key in db.policies then db.policies[s.key].accountsPerService else 1)
  {
  }
}
