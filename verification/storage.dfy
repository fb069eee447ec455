/** The browser-local store: the generic list operations of `createCrud`
    over a map from storage key to the list stored there, the per-store sale
    counter, the session keys and the demo-data guard. JSON encoding,
    `localStorage` itself and the server-side "no window" case are left out:
    a key is either absent or holds its decoded value. */
module Storage {
  import opened Common
  import opened Types

  /** Every key is stored under this prefix. */
  const Prefix: string := "pdv_"

  function FullKey(key: string): (k: string)
    ensures |k| == |Prefix| + |key| && k[..|Prefix|] == Prefix && k[|Prefix|..] == key
  {
    Prefix + key
  }

  /** Distinct keys never collide once prefixed. */
  lemma FullKeyInjective(a: string, b: string)
    requires FullKey(a) == FullKey(b)
    ensures a == b
  {
    assert a == FullKey(a)[|Prefix|..];
  }

  // ---------------------------------------------------------------------------
  // Generic CRUD

  /** A stored record: the id `createCrud` keys on, the `updatedAt` stamp
      that `update` writes, and everything else. */
  datatype Entity<F> = Entity(id: string, updatedAt: Option<string>, fields: F)

  /** `Partial<T>` as spread by `update`: the id and stamp it may carry, and
      its effect on the other fields. */
  datatype Patch<!F> = Patch(id: Option<string>, updatedAt: Option<string>, fields: F -> F)

  /** The prefixed key → the list stored there. */
  type Db<F> = map<string, seq<Entity<F>>>

  /** `getAll`: the stored list, `[]` when the key is absent. */
  function GetAll<F>(db: Db<F>, key: string): (r: seq<Entity<F>>)
    ensures FullKey(key) !in db ==> r == []
    ensures FullKey(key) in db ==> r == db[FullKey(key)]
  {
    if FullKey(key) in db then db[FullKey(key)] else []
  }

  function CountItems<F>(db: Db<F>, key: string): (n: nat)
    ensures n == |GetAll(db, key)|
    ensures FullKey(key) !in db ==> n == 0
  {
    |GetAll(db, key)|
  }

  /** `setItem(key, items)` */
  function Put<F>(db: Db<F>, key: string, items: seq<Entity<F>>): (r: Db<F>)
    ensures GetAll(r, key) == items
    ensures forall k :: k != key ==> GetAll(r, k) == GetAll(db, k)
  {
    var r := db[FullKey(key) := items];
    assert forall k :: k != key ==> FullKey(k) != FullKey(key) by {
      forall k | k != key
        ensures FullKey(k) != FullKey(key)
      {
        if FullKey(k) == FullKey(key) {
          FullKeyInjective(k, key);
        }
      }
    }
    r
  }

  /** `getById`: the first record with the id, or null. */
  function GetById<F>(db: Db<F>, key: string, id: string): (r: Option<Entity<F>>)
    ensures r.Some? ==> r.value.id == id && r.value in GetAll(db, key)
    ensures r.Some? ==> exists i :: (0 <= i < |GetAll(db, key)| && GetAll(db, key)[i] == r.value
                                     && forall j :: 0 <= j < i ==> GetAll(db, key)[j].id != id)
    ensures r.None? ==> forall i :: 0 <= i < |GetAll(db, key)| ==> GetAll(db, key)[i].id != id
  {
    Find(GetAll(db, key), (e: Entity<F>) => e.id == id)
  }

  /** `findBy`: every record whose field equals the value, in stored order. */
  function FindBy<F, V(==)>(db: Db<F>, key: string, field: Entity<F> -> V, value: V): (r: seq<Entity<F>>)
    ensures forall i :: 0 <= i < |r| ==> field(r[i]) == value && r[i] in GetAll(db, key)
    ensures forall i :: 0 <= i < |GetAll(db, key)| && field(GetAll(db, key)[i]) == value
                        ==> GetAll(db, key)[i] in r
  {
    Filter(GetAll(db, key), (e: Entity<F>) => field(e) == value)
  }

  /** `findFirstBy`: the first record whose field equals the value. */
  function FindFirstBy<F, V(==)>(db: Db<F>, key: string, field: Entity<F> -> V, value: V): (r: Option<Entity<F>>)
    ensures r.Some? ==> field(r.value) == value && r.value in GetAll(db, key)
    ensures r.Some? ==> exists i :: (0 <= i < |GetAll(db, key)| && GetAll(db, key)[i] == r.value
                                     && forall j :: 0 <= j < i ==> field(GetAll(db, key)[j]) != value)
    ensures r.None? ==> forall i :: 0 <= i < |GetAll(db, key)| ==> field(GetAll(db, key)[i]) != value
  {
    Find(GetAll(db, key), (e: Entity<F>) => field(e) == value)
  }

  /** `findFirstBy` is the head of `findBy`. */
  lemma {:induction false} FindFirstIsHeadOfFindBy<F, V>(db: Db<F>, key: string, field: Entity<F> -> V, value: V)
    ensures var all := FindBy(db, key, field, value);
      FindFirstBy(db, key, field, value) == if all == [] then None else Some(all[0])
  {
    FirstMatchIsHead(GetAll(db, key), (e: Entity<F>) => field(e) == value);
  }

  /** `create`: appended at the end, with no check that the id is new. */
  function Create<F>(db: Db<F>, key: string, item: Entity<F>): (r: (Db<F>, Entity<F>))
    ensures GetAll(r.0, key) == GetAll(db, key) + [item] && r.1 == item
    ensures forall k :: k != key ==> GetAll(r.0, k) == GetAll(db, k)
  {
    (Put(db, key, GetAll(db, key) + [item]), item)
  }

  /** `createMany`: appended at the end in the given order. */
  function CreateMany<F>(db: Db<F>, key: string, items: seq<Entity<F>>): (r: (Db<F>, seq<Entity<F>>))
    ensures GetAll(r.0, key) == GetAll(db, key) + items && r.1 == items
    ensures forall k :: k != key ==> GetAll(r.0, k) == GetAll(db, k)
  {
    (Put(db, key, GetAll(db, key) + items), items)
  }

  /** `{ ...item, ...updates, updatedAt: now }`: the stamp always wins. */
  function Spread<F>(item: Entity<F>, updates: Patch<F>, now: string): (r: Entity<F>)
    ensures r.updatedAt == Some(now)
    ensures updates.id.None? ==> r.id == item.id
    ensures updates.id.Some? ==> r.id == updates.id.value
  {
    Entity(updates.id.GetOr(item.id), Some(now), updates.fields(item.fields))
  }

  /** `update`: the first record with the id is replaced by the spread; with
      no such record nothing is written and the answer is null. */
  function Update<F>(db: Db<F>, key: string, id: string, updates: Patch<F>, now: string)
    : (r: (Db<F>, Option<Entity<F>>))
    ensures GetById(db, key, id).None? ==> r.1.None? && r.0 == db
    ensures r.1.Some? ==> r.1.value.updatedAt == Some(now)
    ensures GetById(db, key, id).Some? ==>
              && r.1 == Some(Spread(GetById(db, key, id).value, updates, now))
              && |GetAll(r.0, key)| == |GetAll(db, key)|
    ensures forall k :: k != key ==> GetAll(r.0, k) == GetAll(db, k)
  {
    var items := GetAll(db, key);
    match FindFirst(items, (e: Entity<F>) => e.id == id)
    case None => (db, None)
    case Some(i) =>
      var updated := Spread(items[i], updates, now);
      (Put(db, key, items[i := updated]), Some(updated))
  }

  /** Only the first record with the id changes; later duplicates are kept. */
  lemma UpdateTouchesFirstMatchOnly<F>(db: Db<F>, key: string, id: string, updates: Patch<F>,
                                       now: string, i: nat)
    requires i < |GetAll(db, key)| && GetAll(db, key)[i].id == id
    requires forall j :: 0 <= j < i ==> GetAll(db, key)[j].id != id
    ensures var after := GetAll(Update(db, key, id, updates, now).0, key);
      && after[i] == Spread(GetAll(db, key)[i], updates, now)
      && forall j :: 0 <= j < |after| && j != i ==> after[j] == GetAll(db, key)[j]
  {
    var items := GetAll(db, key);
    var found := FindFirst(items, (e: Entity<F>) => e.id == id);
    assert found == Some(i);
  }

  /** `delete`: removes every record with the id; false, and nothing written,
      when none had it. */
  function Delete<F>(db: Db<F>, key: string, id: string): (r: (Db<F>, bool))
    ensures !r.1 <==> forall i :: 0 <= i < |GetAll(db, key)| ==> GetAll(db, key)[i].id != id
    ensures !r.1 ==> r.0 == db
    ensures r.1 ==> GetAll(r.0, key) == Filter(GetAll(db, key), (e: Entity<F>) => e.id != id)
    ensures forall i :: 0 <= i < |GetAll(r.0, key)| ==> GetAll(r.0, key)[i].id != id
    ensures forall k :: k != key ==> GetAll(r.0, k) == GetAll(db, k)
  {
    var items := GetAll(db, key);
    var kept := Filter(items, (e: Entity<F>) => e.id != id);
    FilterLength(items, (e: Entity<F>) => e.id != id);
    if |kept| == |items| then
      assert forall i :: 0 <= i < |items| ==> items[i].id != id by {
        CountAllWhenFull(items, (e: Entity<F>) => e.id != id);
      }
      FilterAll(items, (e: Entity<F>) => e.id != id);
      (db, false)
    else
      assert exists i :: 0 <= i < |items| && items[i].id == id by {
        if forall i :: 0 <= i < |items| ==> items[i].id != id {
          FilterAll(items, (e: Entity<F>) => e.id != id);
        }
      }
      (Put(db, key, kept), true)
  }

  /** After `delete`, `getById` finds nothing. */
  lemma DeleteThenGetById<F>(db: Db<F>, key: string, id: string)
    ensures GetById(Delete(db, key, id).0, key, id).None?
  {
  }

  /** `deleteMany`: removes the records whose id is listed and answers how many. */
  function DeleteMany<F>(db: Db<F>, key: string, ids: seq<string>): (r: (Db<F>, nat))
    ensures GetAll(r.0, key) == Filter(GetAll(db, key), (e: Entity<F>) => e.id !in ids)
    ensures r.1 == |GetAll(db, key)| - |GetAll(r.0, key)|
    ensures r.1 == Count(GetAll(db, key), (e: Entity<F>) => e.id in ids)
    ensures forall k :: k != key ==> GetAll(r.0, k) == GetAll(db, k)
  {
    var items := GetAll(db, key);
    var kept := Filter(items, (e: Entity<F>) => e.id !in ids);
    FilterLength(items, (e: Entity<F>) => e.id !in ids);
    CountComplement(items, (e: Entity<F>) => e.id in ids, (e: Entity<F>) => e.id !in ids);
    (Put(db, key, kept), |items| - |kept|)
  }

  /** `deleteBy`: removes the records whose field equals the value and
      answers how many. */
  function DeleteBy<F, V(==)>(db: Db<F>, key: string, field: Entity<F> -> V, value: V): (r: (Db<F>, nat))
    ensures GetAll(r.0, key) == Filter(GetAll(db, key), (e: Entity<F>) => field(e) != value)
    ensures r.1 == |GetAll(db, key)| - |GetAll(r.0, key)|
    ensures r.1 == Count(GetAll(db, key), (e: Entity<F>) => field(e) == value)
    ensures forall k :: k != key ==> GetAll(r.0, k) == GetAll(db, k)
  {
    var items := GetAll(db, key);
    var kept := Filter(items, (e: Entity<F>) => field(e) != value);
    FilterLength(items, (e: Entity<F>) => field(e) != value);
    CountComplement(items, (e: Entity<F>) => field(e) == value, (e: Entity<F>) => field(e) != value);
    (Put(db, key, kept), |items| - |kept|)
  }

  /** `setAll` */
  function SetAll<F>(db: Db<F>, key: string, items: seq<Entity<F>>): (r: Db<F>)
    ensures GetAll(r, key) == items
    ensures forall k :: k != key ==> GetAll(r, k) == GetAll(db, k)
  {
    Put(db, key, items)
  }

  /** `clear`: the key holds an empty list (it is not removed). */
  function ClearKey<F>(db: Db<F>, key: string): (r: Db<F>)
    ensures FullKey(key) in r && CountItems(r, key) == 0
    ensures forall k :: k != key ==> GetAll(r, k) == GetAll(db, k)
  {
    Put(db, key, [])
  }

  /** Creating a record with a new id, then looking it up, finds it; deleting
      it restores the list. */
  lemma CreateFindDelete<F>(db: Db<F>, key: string, item: Entity<F>)
    requires forall i :: 0 <= i < |GetAll(db, key)| ==> GetAll(db, key)[i].id != item.id
    ensures GetById(Create(db, key, item).0, key, item.id) == Some(item)
    ensures GetAll(Delete(Create(db, key, item).0, key, item.id).0, key) == GetAll(db, key)
  {
    var items := GetAll(db, key);
    var after := Create(db, key, item).0;
    assert GetAll(after, key)[|items|] == item;
    var keep := (e: Entity<F>) => e.id != item.id;
    FilterAppend(items, [item], keep);
    FilterAll(items, keep);
    assert Filter([item], keep) == [];
  }

  /** `create` does not enforce unique ids: after creating a duplicate,
      `getById` still answers the older record. */
  lemma CreateDoesNotCheckIds<F>(db: Db<F>, key: string, item: Entity<F>, i: nat)
    requires i < |GetAll(db, key)| && GetAll(db, key)[i].id == item.id
    requires forall j :: 0 <= j < i ==> GetAll(db, key)[j].id != item.id
    ensures CountItems(Create(db, key, item).0, key) == CountItems(db, key) + 1
    ensures GetById(Create(db, key, item).0, key, item.id) == Some(GetAll(db, key)[i])
  {
    var after := GetAll(Create(db, key, item).0, key);
    var found := FindFirst(after, (e: Entity<F>) => e.id == item.id);
    assert after[i] == GetAll(db, key)[i];
    assert found == Some(i);
  }

  // ---------------------------------------------------------------------------
  // Sale counter

  /** The stored `Record<lojaId, number>`, or nothing. */
  type Counters = Option<map<string, int>>

  /** `counters[lojaId] || 0` */
  function CounterGet(counters: Counters, lojaId: string): (n: int)
    ensures counters.None? || lojaId !in counters.value ==> n == 0
    ensures counters.Some? && lojaId in counters.value ==> n == counters.value[lojaId]
  {
    if counters.Some? && lojaId in counters.value then counters.value[lojaId] else 0
  }

  /** `increment`: previous + 1 for that store; the others keep theirs. */
  function CounterIncrement(counters: Counters, lojaId: string): (r: (Counters, int))
    ensures r.1 == CounterGet(counters, lojaId) + 1
    ensures CounterGet(r.0, lojaId) == r.1
    ensures forall other :: other != lojaId ==> CounterGet(r.0, other) == CounterGet(counters, other)
  {
    var m := if counters.Some? then counters.value else map[];
    var next := CounterGet(counters, lojaId) + 1;
    (Some(m[lojaId := next]), next)
  }

  /** Numbers handed out by successive increments are consecutive. */
  lemma CounterConsecutive(counters: Counters, lojaId: string)
    ensures var first := CounterIncrement(counters, lojaId);
      CounterIncrement(first.0, lojaId).1 == first.1 + 1
  {
  }

  // ---------------------------------------------------------------------------
  // Session and demo data

  /** The two session keys; `None` is an absent key. */
  datatype Session = Session(currentUser: Option<User>, currentStore: Option<Store>)

  /** `setCurrentUser`: a user is stored, null removes the key. */
  function SetCurrentUser(s: Session, user: Option<User>): (r: Session)
    ensures r.currentUser == user && r.currentStore == s.currentStore
  {
    s.(currentUser := user)
  }

  function SetCurrentStore(s: Session, store: Option<Store>): (r: Session)
    ensures r.currentStore == store && r.currentUser == s.currentUser
  {
    s.(currentStore := store)
  }

  /** `clear`: both keys removed. */
  function ClearSession(s: Session): (r: Session)
    ensures r.currentUser.None? && r.currentStore.None?
  {
    Session(None, None)
  }

  /** Clearing is the same as setting both to null, in either order. */
  lemma ClearIsSettingNull(s: Session)
    ensures ClearSession(s) == SetCurrentStore(SetCurrentUser(s, None), None)
    ensures ClearSession(s) == SetCurrentUser(SetCurrentStore(s, None), None)
  {
  }

  /** The parts of the local store the demo seed touches. */
  datatype Local = Local(company: Option<Company>, stores: seq<Store>, users: seq<User>, session: Session)

  /** The fresh ids the seed draws. */
  datatype DemoIds = DemoIds(company: string, store: string, admin: string)

  /** `initializeDemoData`: does nothing when a company is stored; otherwise
      stores the demo company, a store and an admin of that company, and
      opens a session as that admin in that store. The demo catalogue
      (categories, products, variants, stock) is not part of this model. */
  function InitializeDemoData(s: Local, ids: DemoIds): (r: Local)
    ensures s.company.Some? ==> r == s
    ensures s.company.None? ==> r.company.Some? && r.company.value.id == ids.company
    ensures s.company.None? ==>
              && r.session.currentUser.Some? && r.session.currentUser.value in r.users
              && r.session.currentStore.Some? && r.session.currentStore.value in r.stores
              && r.session.currentUser.value.empresaId == r.company.value.id
              && r.session.currentStore.value.empresaId == r.company.value.id
    ensures |r.stores| <= |s.stores| + 1 && |r.users| <= |s.users| + 1
  {
    if s.company.Some? then s
    else
      var company := Company(ids.company, "Minha Empresa", "00.000.000/0001-00",
                             "Minha Empresa LTDA", "contato@minhaempresa.com", Some("(11) 99999-9999"));
      var store := Store(ids.store, company.id, "Loja Principal", "LP001", true);
      var admin := User(ids.admin, company.id, "admin@minhaempresa.com", "Administrador", true);
      Local(Some(company), s.stores + [store], s.users + [admin],
            SetCurrentStore(SetCurrentUser(s.session, Some(admin)), Some(store)))
  }

  /** The guard makes seeding idempotent, whatever ids a second run draws. */
  lemma DemoDataIdempotent(s: Local, first: DemoIds, second: DemoIds)
    ensures InitializeDemoData(InitializeDemoData(s, first), second) == InitializeDemoData(s, first)
  {
  }
}
