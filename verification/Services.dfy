/** Creating and deleting services (serviceManagement.service.ts), linking the accounts an invite names
    (inviteAccountLinking.service.ts), and adding and removing users: the operations that fix the shape
    of the derivation forest. */
module Services {
  import opened Model
  import opened Store
  import opened Cascade
  import opened Subscriptions
  import opened Changes

  // ---------- Creating a service ----------

  /** `slugOk` and `clash` are the slug pattern check and the uniqueness of slug and name. */
  datatype ServiceRequest = ServiceRequest(
    accountType: AccountType, source: Option<ServiceId>, enabled: bool, defaultAllowed: bool, slugOk: bool, clash: bool)

  function ResolveAccountSource(services: map<ServiceId, Service>, request: ServiceRequest): Result<Option<ServiceId>> {
    if request.accountType != Referenced then
      if request.source.Some? then Err(BadRequest) else Ok(None)
    else if request.source.None? then Err(BadRequest)
    else if request.source.value !in services then Err(BadRequest)
    else if services[request.source.value].accountType != Managed then Err(BadRequest)
    else Ok(request.source)
  }

  function CreateServiceGuard(db: Db, request: ServiceRequest): Option<Error> {
    if request.accountType == Managed then Some(BadRequest)
    else if !request.slugOk then Some(BadRequest)
    else if ResolveAccountSource(db.services, request).Err? then Some(BadRequest)
    else if request.clash then Some(Conflict)
    else None
  }

  function WithService(db: Db, s: ServiceId, request: ServiceRequest): Db {
    db.(services := db.services[s :=
        Service(request.enabled, request.accountType, request.source, request.defaultAllowed)])
  }

  /** `s` is the id the database assigns. */
  function CreateServiceOutcome(db: Db, now: Time, s: ServiceId, request: ServiceRequest): Outcome {
    var guard := CreateServiceGuard(db, request);
    if guard.Some? then Refuse(db, guard.value)
    else
      var created := WithService(db, s, request);
      if request.accountType == Referenced
      then Outcome(MirrorAll(created, request.source.value, Subscribers(created, request.source.value, s, now), now),
          Ok(()))
      else Outcome(created, Ok(()))
  }

  method CreateService(store: Database, now: Time, s: ServiceId, request: ServiceRequest) returns (r: Result<()>)
    requires s !in store.services && forall k :: k in store.subs ==> k.user in store.users
    modifies store
    ensures Outcome(store.View(), r) == CreateServiceOutcome(old(store.View()), now, s, request)
  {
    var guard := CreateServiceGuard(store.View(), request);
    if guard.Some? {
      return Err(guard.value);
    }
    var source := ResolveAccountSource(store.services, request);
    store.services := store.services[s :=
        Service(request.enabled, request.accountType, source.value, request.defaultAllowed)];
    if request.accountType == Referenced {
      var _ := OnReferencedServiceCreated(store, s, now);
    }
    return Ok(());
  }

  lemma CreateServiceKeepsInv(db: Db, now: Time, s: ServiceId, request: ServiceRequest)
    requires Inv(db) && s !in db.services
    ensures Inv(CreateServiceOutcome(db, now, s, request).db)
  {
    if CreateServiceGuard(db, request).None? {
      var created := WithService(db, s, request);
      WithServiceKeepsInv(db, s, request);
      hide Inv;
      if request.accountType == Referenced {
        MirrorKeepsInv(created, request.source.value, Subscribers(created, request.source.value, s, now), now);
      }
    }
  }

  lemma WithServiceKeepsInv(db: Db, s: ServiceId, request: ServiceRequest)
    requires Inv(db) && s !in db.services && CreateServiceGuard(db, request).None?
    ensures Inv(WithService(db, s, request))
  {
    var created := WithService(db, s, request);
    forall q | q in created.subs ensures RowOk(created, q) {
      assert RowOk(db, q);
    }
    forall a | a in created.accounts ensures AccountOk(created, a) {
      assert AccountOk(db, a);
    }
  }

  // ---------- Deleting a service ----------

  /** The rows left when all subscriptions of `s` go, with the foreign key cascade. */
  function SubsOffService(subs: map<Key, Subscription>, s: ServiceId): map<Key, Subscription> {
    map q | q in subs && q.service != s && (subs[q].derivedFrom.Some? ==> subs[q].derivedFrom.value.key.service != s) ::
        subs[q]
  }

  function ClearService(db: Db, s: ServiceId): Db {
    var subs := SubsOffService(db.subs, s);
    db.(subs := subs, accounts := AccountsOf(db.accounts, subs))
  }

  /** A NO ACTION foreign key still points at the service; `invited` says an invite names it. */
  predicate ServiceInUse(db: Db, s: ServiceId, invited: bool) {
    || invited
    || (exists q :: q in db.subs && q.service == s)
    || (exists a :: a in db.accounts && db.accounts[a].service == s)
    || (exists t :: t in db.services && db.services[t].accountSource == Some(s))
  }

  function DropService(db: Db, s: ServiceId): Db {
    db.(services := db.services - {s}, policies := map p | p in db.policies && p.service != s :: db.policies[p])
  }

  function DeleteServiceOutcome(db: Db, s: ServiceId, invited: bool): Outcome {
    if s !in db.services then Refuse(db, NotFound)
    else if db.services[s].accountType == Managed then Refuse(db, BadRequest)
    else
      var cleared := if db.services[s].accountType == Referenced then ClearService(db, s) else db;
      if ServiceInUse(cleared, s, invited) then Outcome(cleared, Err(Conflict))
      else Outcome(DropService(cleared, s), Ok(()))
  }

  method DeleteService(store: Database, s: ServiceId, invited: bool) returns (r: Result<()>)
    modifies store
    ensures Outcome(store.View(), r) == DeleteServiceOutcome(old(store.View()), s, invited)
  {
    if s !in store.services {
      return Err(NotFound);
    }
    if store.services[s].accountType == Managed {
      return Err(BadRequest);
    }
    if store.services[s].accountType == Referenced {
      store.subs := SubsOffService(store.subs, s);
      store.accounts := AccountsOf(store.accounts, store.subs);
    }
    if ServiceInUse(store.View(), s, invited) {
      return Err(Conflict);
    }
    store.services := store.services - {s};
    store.policies := map p | p in store.policies && p.service != s :: store.policies[p];
    return Ok(());
  }

  /** The cascade takes no row of another service: rows of a REFERENCED service have nothing below them. */
  lemma ClearedRows(db: Db, s: ServiceId, q: Key)
    requires Forest(db) && s in db.services && db.services[s].accountType == Referenced && q in db.subs
    ensures q in SubsOffService(db.subs, s) <==> q.service != s
  {
  }

  lemma ClearServiceKeepsInv(db: Db, s: ServiceId)
    requires Inv(db) && s in db.services && db.services[s].accountType == Referenced
    ensures Inv(ClearService(db, s))
    ensures forall q :: q in db.subs ==> (q in ClearService(db, s).subs <==> q.service != s)
  {
    hide RowOk, AccountOk, RowAtRest;
    var out := ClearService(db, s);
    forall q | q in db.subs ensures q in out.subs <==> q.service != s {
      ClearedRows(db, s, q);
    }
    forall q | q in out.subs ensures RowOk(out, q) && RowAtRest(out.subs[q]) {
      ClearedRowOk(db, s, q);
    }
    forall a | a in out.accounts ensures AccountOk(out, a) {
      ClearedAccountOk(db, s, a);
    }
  }

  lemma ClearedAccountOk(db: Db, s: ServiceId, a: AccountId)
    requires a in ClearService(db, s).accounts && AccountOk(db, a)
    ensures AccountOk(ClearService(db, s), a)
  {
  }

  lemma ClearedRowOk(db: Db, s: ServiceId, q: Key)
    requires Inv(db) && s in db.services && db.services[s].accountType == Referenced && q in ClearService(db, s).subs
    ensures RowOk(ClearService(db, s), q) && RowAtRest(ClearService(db, s).subs[q])
  {
  }

  lemma DropServiceKeepsInv(db: Db, s: ServiceId, invited: bool)
    requires Inv(db) && s in db.services && !ServiceInUse(db, s, invited)
    ensures Inv(DropService(db, s))
  {
    var out := DropService(db, s);
    forall t | t in out.services && out.services[t].accountType == Referenced
      ensures out.services[t].accountSource.Some? && out.services[t].accountSource.value in out.services
    {
      assert db.services[t].accountSource != Some(s);
    }
    forall q | q in out.subs ensures RowOk(out, q) {
      assert RowOk(db, q) && q.service != s;
      if db.services[q.service].accountType == Referenced {
        assert SourceKey(db.services, q).service != s;
      }
    }
    forall a | a in out.accounts ensures AccountOk(out, a) {
      assert AccountOk(db, a);
    }
  }

  /** Deleting a REFERENCED service removes exactly its subscriptions, even when the service itself has to
      stay because an invite or an account still names it. */
  lemma DeleteServiceKeepsInv(db: Db, s: ServiceId, invited: bool)
    requires Inv(db)
    ensures var o := DeleteServiceOutcome(db, s, invited);
      && Inv(o.db)
      && (o.db == db || (s in db.services && forall q :: q in db.subs ==> (q in o.db.subs <==> q.service != s)))
  {
    if s in db.services && db.services[s].accountType != Managed {
      hide Inv, Forest, AtRest;
      var cleared := if db.services[s].accountType == Referenced then ClearService(db, s) else db;
      if db.services[s].accountType == Referenced {
        ClearServiceKeepsInv(db, s);
      }
      if !ServiceInUse(cleared, s, invited) {
        DropServiceKeepsInv(cleared, s, invited);
      }
    }
  }

  // ---------- Linking an account named by an invite ----------

  function LinkedRow(db: Db, k: Key, now: Time, days: nat): Subscription {
    Subscription(FreshId(db, k), Active, Some(now + days * (PERIOD / 30)), true, None, Some(now), None, None, None,
        None)
  }

  /** An account an invite names: the name of its service, and what the provider of that name answers. */
  datatype Invited = Invited(serviceName: string, answer: Option<string>)

  /** The provider is looked up by the name of the service, and may know no such account. */
  function Found(registered: set<string>, invited: Invited): Option<string> {
    if invited.serviceName in registered then invited.answer else None
  }

  predicate Links(db: Db, k: Key, found: Option<string>) {
    found.Some? && !ExternalIdTaken(db.accounts, k.service, found.value, None) && Insertable(db, k)
  }

  function LinkAccountOutcome(db: Db, now: Time, k: Key, found: Option<string>, days: nat): Outcome {
    if found.None? || ExternalIdTaken(db.accounts, k.service, found.value, None) then Outcome(db, Ok(()))
    else if !Insertable(db, k) then Refuse(db, Conflict)
    else
      var row := LinkedRow(db, k, now, days);
      var linked := AddAccountRow(Insert(db, k, row), Account(row.id, k.user, k.service, found));
      Outcome(Activated(linked, k, now), Ok(()))
  }

  method LinkAccount(store: Database, now: Time, k: Key, registered: set<string>, invited: Invited, days: nat)
    returns (r: Result<()>)
    modifies store
    ensures Outcome(store.View(), r) == LinkAccountOutcome(old(store.View()), now, k, Found(registered, invited), days)
  {
    hide Activated;
    if invited.serviceName !in registered {
      return Ok(());
    }
    var found := invited.answer;
    if found.None? || ExternalIdTaken(store.accounts, k.service, found.value, None) {
      return Ok(());
    }
    var created := store.Create(k, (id: SubId) =>
      Subscription(id, Active, Some(now + days * (PERIOD / 30)), true, None, Some(now), None, None, None, None));
    if created.Err? {
      return Err(created.error);
    }
    assert store.subs[k].id == created.value.id;
    var _ := store.CreateAccount(Account(created.value.id, k.user, k.service, found));
    OnActivated(store, k, now);
    return Ok(());
  }

  /** Linking keeps the forest exactly when it does not reach a REFERENCED service: there it would leave an
      underived row, because the service of an invite account is never checked for its type. */
  lemma LinkKeepsForest(db: Db, now: Time, k: Key, found: Option<string>, days: nat)
    requires Inv(db)
    ensures Inv(LinkAccountOutcome(db, now, k, found, days).db)
       <==> !(Links(db, k, found) && db.services[k.service].accountType == Referenced)
  {
    if Links(db, k, found) {
      hide Activated;
      var row := LinkedRow(db, k, now, days);
      var inserted := Insert(db, k, row);
      var linked := AddAccountRow(inserted, Account(row.id, k.user, k.service, found));
      if db.services[k.service].accountType == Referenced {
        NothingDrawsOnReferenced(db, k);
        NoTargets(linked, k, now);
        assert !RowOk(linked, k);
      } else {
        assert inserted == SetRow(db, k, row);
        RootRowKeepsForest(db, k, row);
        AddRowKeepsInv(inserted, Account(row.id, k.user, k.service, found));
        ActivatedKeepsInv(linked, k, now);
      }
    }
  }

  lemma NothingDrawsOnReferenced(db: Db, k: Key)
    requires ServicesOk(db.services) && k.service in db.services && db.services[k.service].accountType != Managed
    ensures Referencing(db.services, k) == {}
  {
  }

  lemma NoTargets(db: Db, k: Key, now: Time)
    requires k in db.subs && Referencing(db.services, k) == {}
    ensures Activated(db, k, now) == db
  {
  }

  lemma ActivatedKeepsInv(db: Db, k: Key, now: Time)
    requires Inv(db) && k in db.subs && db.services[k.service].accountType != Referenced
    ensures Inv(Activated(db, k, now))
  {
    if db.services[k.service].accountType == Managed {
      ActivationKeepsInv(db, k, now);
    } else {
      assert RowOk(db, k);
      NothingDrawsOnReferenced(db, k);
      NoTargets(db, k, now);
    }
  }

  /** The two unique texts of a service. */
  datatype Label = Label(name: string, slug: string)

  ghost predicate LabelsUnique(labels: map<ServiceId, Label>) {
    forall s, t :: s in labels && t in labels && s != t ==>
        labels[s].name != labels[t].name && labels[s].slug != labels[t].slug
  }

  /** An invite for the provider `name` stores the service with that slug and looks its provider up by that
      service's name. Both can lead to a REFERENCED service: here the built-in service is called `Jellyfin`, its
      slug was changed to `media`, and a REFERENCED service drawing on it was then created as `jellyfin`. */
  lemma InviteCanReachReferenced()
    returns (db: Db, labels: map<ServiceId, Label>, k: Key, registered: set<string>, invited: Invited)
    ensures Inv(db) && labels.Keys == db.services.Keys && LabelsUnique(labels)
    ensures registered == {"jellyfin"} && k.service in labels && labels[k.service].slug == "jellyfin"
    ensures invited.serviceName == labels[k.service].name && db.services[k.service].accountType == Referenced
    ensures !Inv(LinkAccountOutcome(db, 0, k, Found(registered, invited), 30).db)
  {
    hide Inv, LinkAccountOutcome;
    k, registered, invited := Key("u", 1), {"jellyfin"}, Invited("jellyfin", Some("x"));
    labels := map[0 := Label("Jellyfin", "media"), 1 := Label("jellyfin", "jellyfin")];
    assert "Jellyfin"[0] != "jellyfin"[0] && "media"[0] != "jellyfin"[0];
    db := TwoServices();
    TwoServicesAreSound();
    LinkKeepsForest(db, 0, k, Some("x"), 30);
  }

  /** Where each provider's name is borne by a service that is not REFERENCED, no other service bears it, and an
      invite never links on a REFERENCED one. */
  lemma OwnNamesKeepInvitesOff(db: Db, labels: map<ServiceId, Label>, now: Time, k: Key, registered: set<string>,
                               invited: Invited, days: nat)
    requires Inv(db) && labels.Keys == db.services.Keys && LabelsUnique(labels)
    requires k.service in labels && invited.serviceName == labels[k.service].name
    requires forall p :: p in registered ==>
               exists s :: s in labels && labels[s].name == p && db.services[s].accountType != Referenced
    ensures db.services[k.service].accountType == Referenced ==> Found(registered, invited) == None
    ensures Inv(LinkAccountOutcome(db, now, k, Found(registered, invited), days).db)
  {
    LinkKeepsForest(db, now, k, Found(registered, invited), days);
    hide Inv, LinkAccountOutcome;
  }

  function TwoServices(): Db {
    Db(map["u" := false], map[0 := Service(true, Managed, None, true), 1 := Service(true, Referenced, Some(0), true)],
       map[], map[], map[], map[], 0)
  }

  lemma TwoServicesAreSound()
    ensures Inv(TwoServices())
  {
  }

  // ---------- Users and policies ----------

  function AddUser(db: Db, user: UserId, admin: bool): Db {
    db.(users := db.users[user := admin])
  }

  method PutUser(store: Database, user: UserId, admin: bool)
    modifies store
    ensures store.View() == AddUser(old(store.View()), user, admin)
  {
    store.users := store.users[user := admin];
  }

  /** Hard deletion: every row naming the user goes with the user. */
  function DeleteUser(db: Db, user: UserId): Db {
    var subs := map q | q in db.subs && q.user != user :: db.subs[q];
    db.(users := db.users - {user}, subs := subs, accounts := AccountsOf(db.accounts, subs),
        policies := map p | p in db.policies && p.user != user :: db.policies[p])
  }

  method HardDeleteUser(store: Database, user: UserId)
    modifies store
    ensures store.View() == DeleteUser(old(store.View()), user)
  {
    store.users := store.users - {user};
    store.subs := map q | q in store.subs && q.user != user :: store.subs[q];
    store.accounts := AccountsOf(store.accounts, store.subs);
    store.policies := map p | p in store.policies && p.user != user :: store.policies[p];
  }

  function SetPolicy(db: Db, k: Key, policy: Option<Policy>): Db {
    db.(policies := if policy.Some? then db.policies[k := policy.value] else db.policies - {k})
  }

  function SetPolicyOutcome(db: Db, k: Key, policy: Option<Policy>): Outcome {
    if policy.Some? && (k.user !in db.users || k.service !in db.services) then Refuse(db, Conflict)
    else if policy.None? && k !in db.policies then Refuse(db, NotFound)
    else Outcome(SetPolicy(db, k, policy), Ok(()))
  }

  method UpsertPolicy(store: Database, k: Key, policy: Policy) returns (r: Result<()>)
    modifies store
    ensures Outcome(store.View(), r) == SetPolicyOutcome(old(store.View()), k, Some(policy))
  {
    if k.user !in store.users || k.service !in store.services {
      return Err(Conflict);
    }
    store.policies := store.policies[k := policy];
    return Ok(());
  }

  method DeletePolicy(store: Database, k: Key) returns (r: Result<()>)
    modifies store
    ensures Outcome(store.View(), r) == SetPolicyOutcome(old(store.View()), k, None)
  {
    if k !in store.policies {
      return Err(NotFound);
    }
    store.policies := store.policies - {k};
    return Ok(());
  }

  function SetEnabled(db: Db, s: ServiceId, enabled: bool): Db {
    if s in db.services then db.(services := db.services[s := db.services[s].(enabled := enabled)]) else db
  }

  /** A provider that is told about its service sets the same flag, and only if it changes. */
  method SetServiceEnabled(store: Database, s: ServiceId, enabled: bool, hasProvider: bool) returns (r: Result<()>)
    modifies store
    ensures store.View() == SetEnabled(old(store.View()), s, enabled)
    ensures r == if s in old(store.services) then Ok(()) else Err(NotFound)
  {
    if s !in store.services {
      return Err(NotFound);
    }
    if !hasProvider || store.services[s].enabled != enabled {
      store.services := store.services[s := store.services[s].(enabled := enabled)];
    }
    assert store.services == SetEnabled(old(store.View()), s, enabled).services;
    return Ok(());
  }

  lemma SetPolicyKeepsInv(db: Db, k: Key, policy: Option<Policy>)
    requires Inv(db)
    ensures Inv(SetPolicyOutcome(db, k, policy).db)
  {
    ShapeKeepsForest(db, db);
  }

  lemma AddUserKeepsInv(db: Db, user: UserId, admin: bool)
    requires Inv(db)
    ensures Inv(AddUser(db, user, admin))
  {
  }

  lemma EnablingKeepsRow(db: Db, s: ServiceId, enabled: bool, q: Key)
    requires q in db.subs && RowOk(db, q)
    ensures RowOk(SetEnabled(db, s, enabled), q)
  {
  }

  lemma EnablingKeepsAccount(db: Db, s: ServiceId, enabled: bool, a: AccountId)
    requires a in db.accounts && AccountOk(db, a)
    ensures AccountOk(SetEnabled(db, s, enabled), a)
  {
  }

  lemma SetEnabledKeepsInv(db: Db, s: ServiceId, enabled: bool)
    requires Inv(db)
    ensures Inv(SetEnabled(db, s, enabled))
  {
    var out := SetEnabled(db, s, enabled);
    hide RowOk, AccountOk, ExternalIdsUnique;
    forall q | q in out.subs ensures RowOk(out, q) {
      EnablingKeepsRow(db, s, enabled, q);
    }
    forall a | a in out.accounts ensures AccountOk(out, a) {
      EnablingKeepsAccount(db, s, enabled, a);
    }
  }

  lemma DeleteUserKeepsInv(db: Db, user: UserId)
    requires Inv(db)
    ensures Inv(DeleteUser(db, user))
    ensures forall a :: a in DeleteUser(db, user).accounts ==> db.accounts[a].user != user
  {
    var out := DeleteUser(db, user);
    forall q | q in out.subs ensures RowOk(out, q) {
      assert RowOk(db, q);
    }
    forall a | a in out.accounts ensures AccountOk(out, a) && db.accounts[a].user != user {
      assert AccountOk(db, a);
    }
  }

  // ---------- What each operation decides and writes, column by column ----------

  /** The source a request names is one it may have: a MANAGED service for REFERENCED ones, and none otherwise. */
  ghost predicate HasFittingSource(db: Db, request: ServiceRequest) {
    if request.accountType == Referenced
    then request.source.Some? && request.source.value in db.services
         && db.services[request.source.value].accountType == Managed
    else request.source == None
  }

  /** Creating a service: each refusal has its own condition and changes nothing; otherwise the service is there,
      and exactly the users with a live subscription on its source have a mirror of that on it. */
  lemma CreateServiceDecides(db: Db, now: Time, s: ServiceId, request: ServiceRequest, q: Key)
    requires s !in db.services && forall k :: k in db.subs ==> k.service in db.services
    ensures var o := CreateServiceOutcome(db, now, s, request);
      if request.accountType == Managed || !request.slugOk || !HasFittingSource(db, request)
      then o == Outcome(db, Err(BadRequest))
      else if request.clash then o == Outcome(db, Err(Conflict))
      else
        var k := Key(q.user, if request.source.Some? then request.source.value else s);
        var mirrors := request.accountType == Referenced && q.service == s && k in db.subs
                       && db.subs[k].status == Active
                       && (db.subs[k].expiresAt == None || db.subs[k].expiresAt.value > now);
        && o.result == Ok(())
        && o.db.services == db.services[s := Service(request.enabled, request.accountType, request.source,
                                                     request.defaultAllowed)]
        && (q in o.db.subs <==> q in db.subs || mirrors)
        && (mirrors ==> IsMirror(None, o.db.subs[q], db.subs[k], now))
        && (q in db.subs ==> o.db.subs[q] == db.subs[q])
        && o.db == db.(services := o.db.services, subs := o.db.subs, born := o.db.born)
  {
  }

  /** Deleting a service: MANAGED and unknown ones are refused without effect. The subscriptions of a REFERENCED
      one go in any case, with their accounts; the service goes with its policies, unless an invite names it or a
      subscription is left. */
  lemma DeleteServiceDecides(db: Db, s: ServiceId, invited: bool, q: Key)
    requires Forest(db)
    ensures var o := DeleteServiceOutcome(db, s, invited);
      if s !in db.services then o == Outcome(db, Err(NotFound))
      else if db.services[s].accountType == Managed then o == Outcome(db, Err(BadRequest))
      else
        var clears := db.services[s].accountType == Referenced;
        var stays := invited || (!clears && exists k :: k in db.subs && k.service == s);
        && o.result == (if stays then Err(Conflict) else Ok(()))
        && (q in o.db.subs <==> q in db.subs && !(clears && q.service == s))
        && (q in o.db.subs ==> o.db.subs[q] == db.subs[q])
        && (forall a :: a in o.db.accounts <==> a in db.accounts && !(clears && db.accounts[a].service == s))
        && (forall a :: a in o.db.accounts ==> o.db.accounts[a] == db.accounts[a])
        && o.db.services == (if stays then db.services else db.services - {s})
        && (forall p :: p in o.db.policies <==> p in db.policies && (stays || p.service != s))
        && (forall p :: p in o.db.policies ==> o.db.policies[p] == db.policies[p])
        && o.db.users == db.users
  {
    if s in db.services && db.services[s].accountType != Managed {
      var cleared := if db.services[s].accountType == Referenced then ClearService(db, s) else db;
      ClearedDecides(db, s);
      InUseDecides(db, s, invited);
      hide Forest, ClearService, ServiceInUse;
    }
  }

  lemma InUseDecides(db: Db, s: ServiceId, invited: bool)
    requires Forest(db) && s in db.services && db.services[s].accountType != Managed
    ensures var cleared := if db.services[s].accountType == Referenced then ClearService(db, s) else db;
      ServiceInUse(cleared, s, invited)
      <==> invited || (db.services[s].accountType != Referenced && exists k :: k in db.subs && k.service == s)
  {
    ClearedDecides(db, s);
    NothingElseNames(db, s);
    hide Forest, ClearService;
  }

  lemma ClearedDecides(db: Db, s: ServiceId)
    requires Forest(db) && s in db.services && db.services[s].accountType != Managed
    ensures var out := if db.services[s].accountType == Referenced then ClearService(db, s) else db;
      var clears := db.services[s].accountType == Referenced;
      && (forall q :: q in out.subs <==> q in db.subs && !(clears && q.service == s))
      && (forall q :: q in out.subs ==> out.subs[q] == db.subs[q])
      && (forall a :: a in out.accounts <==> a in db.accounts && !(clears && db.accounts[a].service == s))
      && (forall a :: a in out.accounts ==> out.accounts[a] == db.accounts[a])
      && out == db.(subs := out.subs, accounts := out.accounts)
  {
    if db.services[s].accountType == Referenced {
      var out := ClearService(db, s);
      forall q | q in db.subs ensures q in out.subs <==> q.service != s {
        ClearedRows(db, s, q);
      }
      forall a | a in db.accounts ensures a in out.accounts <==> db.accounts[a].service != s {
        assert AccountOk(db, a);
      }
    }
  }

  lemma NothingElseNames(db: Db, s: ServiceId)
    requires Forest(db) && s in db.services && db.services[s].accountType != Managed
    ensures forall t :: t in db.services ==> db.services[t].accountSource != Some(s)
    ensures (exists a :: a in db.accounts && db.accounts[a].service == s) ==> exists k :: k in db.subs && k.service == s
  {
    if a :| a in db.accounts && db.accounts[a].service == s {
      assert AccountOk(db, a);
    }
  }

  /** Linking an invited account: nothing happens when no provider bears the service's name, when it knows no such
      account, or when the account is linked already; a subscription in the way is a conflict; otherwise there is
      one active subscription more, for the given days, with this account, and its mirrors. */
  lemma LinkAccountDecides(db: Db, now: Time, k: Key, registered: set<string>, invited: Invited, days: nat, q: Key)
    requires Forest(db)
    ensures var o := LinkAccountOutcome(db, now, k, Found(registered, invited), days);
      if invited.serviceName !in registered || invited.answer == None
         || exists a :: a in db.accounts && db.accounts[a].service == k.service
                        && db.accounts[a].externalId == invited.answer
      then o == Outcome(db, Ok(()))
      else if k in db.subs || k.user !in db.users || k.service !in db.services then o == Outcome(db, Err(Conflict))
      else
        var mirrors := q.user == k.user && q.service in db.services && db.services[q.service].enabled
                       && db.services[q.service].accountType == Referenced
                       && db.services[q.service].accountSource == Some(k.service);
        && o.result == Ok(()) && k in o.db.subs
        && o.db.subs[k] == Subscription(o.db.subs[k].id, Active, Some(now + days * 86_400_000), true, None, Some(now),
                                        None, None, None, None)
        && o.db.accounts ==
             db.accounts[db.nextAccount := Account(o.db.subs[k].id, k.user, k.service, invited.answer)]
        && (q != k ==> (q in o.db.subs <==> q in db.subs || mirrors))
        && (q != k && mirrors ==> IsMirror(RowAt(db, q), o.db.subs[q], o.db.subs[k], now))
        && (q != k && q in db.subs && !mirrors ==> o.db.subs[q] == db.subs[q])
        && o.db.users == db.users && o.db.services == db.services && o.db.policies == db.policies
  {
    LinksUnlessHeld(db, k, registered, invited);
    if Links(db, k, Found(registered, invited)) {
      var row := LinkedRow(db, k, now, days);
      var linked := AddAccountRow(Insert(db, k, row), Account(row.id, k.user, k.service, invited.answer));
      NoSelfSource(db, k.service);
      hide Activated, Forest, ExternalIdTaken, IsMirror;
      ActivationDecides(linked, k, now, q);
      ActivationDecides(linked, k, now, k);
    }
    hide Forest, ExternalIdTaken, Activated;
  }

  lemma LinksUnlessHeld(db: Db, k: Key, registered: set<string>, invited: Invited)
    ensures var found := Found(registered, invited);
      && (found.None? <==> invited.serviceName !in registered || invited.answer == None)
      && (found.Some? ==> found == invited.answer)
      && (found.Some? ==>
            (ExternalIdTaken(db.accounts, k.service, found.value, None) <==>
             exists a :: a in db.accounts && db.accounts[a].service == k.service
                         && db.accounts[a].externalId == invited.answer))
  {
  }

  lemma NoSelfSource(db: Db, s: ServiceId)
    requires Forest(db) && s in db.services
    ensures db.services[s].accountType == Referenced ==> db.services[s].accountSource != Some(s)
  {
  }

  /** Writing a policy needs its user and service, removing one needs it to be there; nothing else moves. */
  lemma SetPolicyDecides(db: Db, k: Key, policy: Option<Policy>)
    ensures SetPolicyOutcome(db, k, policy) ==
      match policy
      case Some(p) =>
        if k.user in db.users && k.service in db.services
        then Outcome(db.(policies := db.policies[k := p]), Ok(())) else Outcome(db, Err(Conflict))
      case None =>
        if k in db.policies then Outcome(db.(policies := db.policies - {k}), Ok(())) else Outcome(db, Err(NotFound))
  {
  }

  /** Deleting a user takes exactly what names the user: the rows, the accounts and the policies. */
  lemma DeleteUserDecides(db: Db, user: UserId)
    requires Forest(db)
    ensures var out := DeleteUser(db, user);
      && out.users == db.users - {user} && out.services == db.services
      && (forall q :: q in out.subs <==> q in db.subs && q.user != user)
      && (forall q :: q in out.subs ==> out.subs[q] == db.subs[q])
      && (forall a :: a in out.accounts <==> a in db.accounts && db.accounts[a].user != user)
      && (forall a :: a in out.accounts ==> out.accounts[a] == db.accounts[a])
      && (forall p :: p in out.policies <==> p in db.policies && p.user != user)
      && (forall p :: p in out.policies ==> out.policies[p] == db.policies[p])
  {
    var out := DeleteUser(db, user);
    forall a | a in db.accounts ensures a in out.accounts <==> db.accounts[a].user != user {
      assert AccountOk(db, a);
    }
  }

  lemma SetEnabledDecides(db: Db, s: ServiceId, enabled: bool, t: ServiceId)
    requires t in db.services
    ensures var out := SetEnabled(db, s, enabled);
      && out.services.Keys == db.services.Keys && out == db.(services := out.services)
      && out.services[t] == if t == s then db.services[t].(enabled := enabled) else db.services[t]
  {
  }
}
