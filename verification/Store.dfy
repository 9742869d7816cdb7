/** The repositories: the only code that writes rows. Each write is given as a function on the whole
    store, and the class below performs it in place. */
module Store {
  import opened Model

  // ---------- Single writes ----------

  function Put(db: Db, k: Key, row: Subscription): Db {
    db.(subs := db.subs[k := row])
  }

  /** A new row under an unused key; its id must be `FreshId(db, k)`. */
  function Insert(db: Db, k: Key, row: Subscription): Db {
    db.(subs := db.subs[k := row], born := db.born[k := Born(db.born, k) + 1])
  }

  /** The unique key is free and both foreign keys resolve. */
  predicate Insertable(db: Db, k: Key) {
    k !in db.subs && k.user in db.users && k.service in db.services
  }

  /** Some row has this id: what a foreign key to subscriptions asks. */
  predicate HasId(subs: map<Key, Subscription>, id: SubId) {
    exists k :: k in subs && subs[k].id == id
  }

  /** The foreign key on `derivedFrom` resolves, or the write leaves it as it was. */
  predicate Grounded(subs: map<Key, Subscription>, before: Option<SubId>, after: Option<SubId>) {
    after == before || after.None? || HasId(subs, after.value)
  }

  /** The three foreign keys of an account resolve. */
  predicate RefsResolve(db: Db, account: Account) {
    HasId(db.subs, account.subscription) && account.user in db.users && account.service in db.services
  }

  /** Would storing this account (in place of `except`) break the uniqueness of external ids? */
  predicate IdClash(accounts: map<AccountId, Account>, account: Account, except: Option<AccountId>) {
    account.externalId.Some? && ExternalIdTaken(accounts, account.service, account.externalId.value, except)
  }

  /** What the database asks of a write, in the columns of its tables. */
  lemma ConstraintsDecide(db: Db, k: Key, before: Option<SubId>, source: Option<SubId>, account: Account,
                          except: Option<AccountId>)
    ensures Insertable(db, k) <==> k !in db.subs && k.user in db.users && k.service in db.services
    ensures Grounded(db.subs, before, source) <==>
              source == before || source == None || exists p :: p in db.subs && Some(db.subs[p].id) == source
    ensures RefsResolve(db, account) <==>
              && (exists p :: p in db.subs && db.subs[p].id == account.subscription)
              && account.user in db.users && account.service in db.services
    ensures IdClash(db.accounts, account, except) <==>
              account.externalId != None
              && exists a :: a in db.accounts && except != Some(a) && db.accounts[a].service == account.service
                             && db.accounts[a].externalId == account.externalId
  {
    if source.Some? && exists p :: p in db.subs && Some(db.subs[p].id) == source {
      assert HasId(db.subs, source.value);
    }
  }

  function AddAccountRow(db: Db, account: Account): Db {
    db.(accounts := db.accounts[db.nextAccount := account], nextAccount := db.nextAccount + 1)
  }

  /** Rows that remain when `k` goes and the foreign key on `derivedFrom` cascades. */
  function SubsWithout(subs: map<Key, Subscription>, k: Key): map<Key, Subscription>
    requires k in subs
  {
    map q | q in subs && q != k && !IsDerivedFrom(subs[q], subs[k].id) :: subs[q]
  }

  /** Accounts whose subscription still exists: the other foreign key cascade. */
  function AccountsOf(accounts: map<AccountId, Account>, subs: map<Key, Subscription>): map<AccountId, Account> {
    map a | a in accounts && Live(subs, accounts[a].subscription) :: accounts[a]
  }

  /** Deleting a subscription together with what its foreign keys cascade to. */
  function Remove(db: Db, k: Key): Db
    requires k in db.subs
  {
    var subs := SubsWithout(db.subs, k);
    db.(subs := subs, accounts := AccountsOf(db.accounts, subs))
  }

  /** Two stores that differ at most in columns no integrity rule mentions. */
  ghost predicate SameShape(a: Db, b: Db) {
    && a.users == b.users && a.services == b.services && a.born == b.born
    && a.accounts == b.accounts && a.nextAccount == b.nextAccount
    && a.subs.Keys == b.subs.Keys
    && (forall k :: k in a.subs ==> a.subs[k].id == b.subs[k].id && a.subs[k].derivedFrom == b.subs[k].derivedFrom)
  }

  lemma ShapeKeepsForest(a: Db, b: Db)
    requires Forest(a) && SameShape(a, b)
    ensures Forest(b)
  {
  }

  /** One level of cascading is all there is in a forest: nothing left points at a removed row. */
  lemma RemoveKeepsForest(db: Db, k: Key)
    requires Forest(db) && k in db.subs
    ensures Forest(Remove(db, k))
    ensures forall q :: q in Remove(db, k).subs && db.subs[q].derivedFrom.Some?
              ==> Live(Remove(db, k).subs, db.subs[q].derivedFrom.value)
    ensures forall q :: q in db.subs ==>
        (q in Remove(db, k).subs <==> q != k && !IsDerivedFrom(db.subs[q], db.subs[k].id))
  {
    var out := Remove(db, k);
    forall q | q in out.subs
      ensures RowOk(out, q)
      ensures db.subs[q].derivedFrom.Some? ==> Live(out.subs, db.subs[q].derivedFrom.value)
    {
      assert RowOk(db, q);
      if db.services[q.service].accountType == Referenced {
        var s := SourceKey(db.services, q);
        assert RowOk(db, s) && s in db.subs;
        assert db.subs[s].derivedFrom == None;
        assert s != k;
        assert s in out.subs;
      }
    }
    forall a | a in out.accounts ensures AccountOk(out, a) {
      assert AccountOk(db, a);
    }
  }

  // ---------- Reading in an arbitrary order ----------

  /** `rows` lists each element of `s` once, in an order nobody promises. */
  ghost predicate Enumerates<T(!new)>(rows: seq<T>, s: set<T>) {
    && (forall i, j :: 0 <= i < j < |rows| ==> rows[i] != rows[j])
    && (forall i :: 0 <= i < |rows| ==> rows[i] in s)
    && (forall x :: x in s ==> x in rows)
  }

  /** Some enumeration of a finite set. */
  method ListSet<T(!new, ==)>(s: set<T>) returns (rows: seq<T>)
    ensures Enumerates(rows, s)
  {
    rows := [];
    var rest := s;
    while rest != {}
      invariant rest <= s
      invariant Enumerates(rows, s - rest)
      decreases rest
    {
      var x :| x in rest;
      rows := rows + [x];
      rest := rest - {x};
    }
  }

  // ---------- The database ----------

  class Database {
    var users: map<UserId, bool>
    var services: map<ServiceId, Service>
    var policies: map<Key, Policy>
    var subs: map<Key, Subscription>
    var born: map<Key, nat>
    var accounts: map<AccountId, Account>
    var nextAccount: AccountId

    function View(): Db
      reads this
    {
      Db(users, services, policies, subs, born, accounts, nextAccount)
    }

    constructor (users: map<UserId, bool>, services: map<ServiceId, Service>)
      ensures View() == Db(users, services, map[], map[], map[], map[], 0)
    {
      this.users, this.services, this.policies := users, services, map[];
      this.subs, this.born, this.accounts, this.nextAccount := map[], map[], map[], 0;
    }

    /** Rows matching a filter, in an arbitrary order. */
    method FindMany(p: (Key, Subscription) -> bool) returns (rows: seq<Key>)
      ensures Enumerates(rows, set k | k in subs && p(k, subs[k]))
    {
      rows := ListSet(set k | k in subs && p(k, subs[k]));
    }

    /** Changes some columns of one row. An absent row is an error and changes nothing, and so is a source that
        does not exist. */
    method Update(k: Key, patch: Subscription -> Subscription) returns (r: Result<Subscription>)
      modifies this
      ensures k !in old(subs) ==> r == Err(NotFound) && View() == old(View())
      ensures k in old(subs) && !Grounded(old(subs), old(subs)[k].derivedFrom, patch(old(subs)[k]).derivedFrom) ==>
                r == Err(Conflict) && View() == old(View())
      ensures k in old(subs) && Grounded(old(subs), old(subs)[k].derivedFrom, patch(old(subs)[k]).derivedFrom) ==>
                r == Ok(patch(old(subs)[k])) && View() == Put(old(View()), k, patch(old(subs)[k]))
    {
      if k !in subs {
        return Err(NotFound);
      }
      var row := patch(subs[k]);
      if !Grounded(subs, subs[k].derivedFrom, row.derivedFrom) {
        return Err(Conflict);
      }
      subs := subs[k := row];
      return Ok(row);
    }

    /** Adds a row, numbering its id; a duplicate key or a missing parent is a conflict. */
    method Create(k: Key, fill: SubId -> Subscription) returns (r: Result<Subscription>)
      modifies this
      ensures var row := fill(FreshId(old(View()), k));
              if Insertable(old(View()), k) && Grounded(old(subs), None, row.derivedFrom)
              then r == Ok(row) && View() == Insert(old(View()), k, row)
              else r == Err(Conflict) && View() == old(View())
    {
      if k in subs || k.user !in users || k.service !in services {
        return Err(Conflict);
      }
      var n := Born(born, k);
      var row := fill(SubId(k, n));
      if !Grounded(subs, None, row.derivedFrom) {
        return Err(Conflict);
      }
      subs := subs[k := row];
      born := born[k := n + 1];
      return Ok(row);
    }

    /** Deletes a row; the database removes the accounts and the derived rows with it. */
    method Delete(k: Key) returns (r: Result<()>)
      modifies this
      ensures k !in old(subs) ==> r == Err(NotFound) && View() == old(View())
      ensures k in old(subs) ==> r == Ok(()) && View() == Remove(old(View()), k)
    {
      if k !in subs {
        return Err(NotFound);
      }
      subs := SubsWithout(subs, k);
      accounts := AccountsOf(accounts, subs);
      return Ok(());
    }

    /** Links an account; what it belongs to must exist, and its external id be free on its service. */
    method CreateAccount(account: Account) returns (r: Result<()>)
      modifies this
      ensures if RefsResolve(old(View()), account) && !IdClash(old(accounts), account, None)
              then r == Ok(()) && View() == AddAccountRow(old(View()), account)
              else r == Err(Conflict) && View() == old(View())
    {
      if !HasId(subs, account.subscription) || account.user !in users || account.service !in services {
        return Err(Conflict);
      }
      if IdClash(accounts, account, None) {
        return Err(Conflict);
      }
      accounts := accounts[nextAccount := account];
      nextAccount := nextAccount + 1;
      return Ok(());
    }

    /** Rewrites the external id of a linked account, under the same uniqueness rule. */
    method UpdateAccount(a: AccountId, ext: Option<string>) returns (r: Result<()>)
      requires a in accounts
      modifies this
      ensures var account := old(accounts)[a].(externalId := ext);
              if IdClash(old(accounts), account, Some(a))
              then r == Err(Conflict) && View() == old(View())
              else r == Ok(()) && View() == old(View()).(accounts := old(accounts)[a := account])
    {
      var account := accounts[a].(externalId := ext);
      if IdClash(accounts, account, Some(a)) {
        return Err(Conflict);
      }
      accounts := accounts[a := account];
      return Ok(());
    }

    method DeleteAccount(a: AccountId)
      modifies this
      ensures View() == old(View()).(accounts := old(accounts) - {a})
    {
      accounts := accounts - {a};
    }
  }
}
