/** The customers page: the active-customer list read from local storage,
    the search box, the create/edit dialog and the soft delete. The clock,
    `generateId` and `parseFloat` are parameters; the confirmation dialog is
    a boolean answer. */
module Clientes {
  import opened Common
  import opened Types
  import opened Storage

  /** `customersStorage` is `createCrud` on this key. */
  const CustomersKey: string := "customers"

  type CustomerDb = Db<Customer>

  /** The object read back from storage: the record with the id and stamp
      that the last write put on it. */
  function View(e: Entity<Customer>): (c: Customer)
    ensures c.id == e.id
    ensures e.updatedAt.Some? ==> c.updatedAt == e.updatedAt.value
    ensures c.ativo == e.fields.ativo && c.nome == e.fields.nome
  {
    e.fields.(id := e.id, updatedAt := e.updatedAt.GetOr(e.fields.updatedAt))
  }

  /** A record as `create` stores it. */
  function Stored(c: Customer): (e: Entity<Customer>)
    ensures View(e) == c && e.id == c.id
  {
    Entity(c.id, Some(c.updatedAt), c)
  }

  function ViewAll(es: seq<Entity<Customer>>): (r: seq<Customer>)
    ensures |r| == |es|
    ensures forall i :: 0 <= i < |es| ==> r[i] == View(es[i])
  {
    if es == [] then [] else [View(es[0])] + ViewAll(es[1..])
  }

  // ---------------------------------------------------------------------------
  // Listing and search

  /** `loadCustomers`: every stored customer whose `ativo` is set, in
      storage order. */
  function LoadCustomers(db: CustomerDb): (r: seq<Customer>)
    ensures forall i :: 0 <= i < |r| ==> r[i].ativo && r[i] in ViewAll(GetAll(db, CustomersKey))
    ensures forall i :: 0 <= i < |GetAll(db, CustomersKey)| && GetAll(db, CustomersKey)[i].fields.ativo ==>
              View(GetAll(db, CustomersKey)[i]) in r
  {
    var all := ViewAll(GetAll(db, CustomersKey));
    Filter(all, (c: Customer) => c.ativo)
  }

  /** The search test against an already lower-cased term: the name and
      the e-mail are lower-cased, the document and the phones are not. */
  predicate Matches(c: Customer, term: string) {
    || Contains(Lower(c.nome), term)
    || OptContains(c.documento, term)
    || (c.email.Some? && Contains(Lower(c.email.value), term))
    || OptContains(c.telefone, term)
    || OptContains(c.celular, term)
  }

  /** `filteredCustomers` */
  function FilteredCustomers(customers: seq<Customer>, searchTerm: string): (r: seq<Customer>)
    ensures searchTerm == "" ==> r == customers
    ensures searchTerm != "" ==> forall c :: c in r <==> c in customers && Matches(c, Lower(searchTerm))
    ensures |r| <= |customers|
  {
    if searchTerm == "" then customers
    else
      var keep := (c: Customer) => Matches(c, Lower(searchTerm));
      assert forall c :: c in customers ==> exists i :: 0 <= i < |customers| && customers[i] == c;
      Filter(customers, keep)
  }

  lemma {:induction false} LowerIdempotent(s: string)
    ensures Lower(Lower(s)) == Lower(s)
  {
    if s != [] {
      LowerIdempotent(s[1..]);
      assert Lower(s)[1..] == Lower(s[1..]);
    }
  }

  /** Typing the term in capitals finds the same customers. */
  lemma SearchIgnoresCase(customers: seq<Customer>, searchTerm: string)
    ensures FilteredCustomers(customers, searchTerm) == FilteredCustomers(customers, Lower(searchTerm))
  {
    LowerIdempotent(searchTerm);
    if searchTerm != "" {
      assert Lower(searchTerm) != "";
    }
  }

  /** A document typed with a capital letter is never found by its own
      text, because the term is lower-cased and the document is not. */
  lemma UpperCaseDocumentNotFoundByItself(c: Customer)
    requires c.documento == Some("AB") && c.nome == "" && c.email.None?
    requires c.telefone.None? && c.celular.None?
    ensures FilteredCustomers([c], "AB") == []
  {
    assert Lower("AB") == "ab";
    assert !Contains("AB", "ab");
    assert !Contains("", "ab");
  }

  // ---------------------------------------------------------------------------
  // The dialog

  /** The dialog's text fields. */
  datatype CustomerForm = CustomerForm(
    nome: string, tipoDocumento: DocumentType, documento: string, email: string,
    telefone: string, celular: string, limiteCredito: string, observacoes: string)

  /** The `customerData` object `handleSubmit` builds. The id and the
      creation stamp come from the customer being edited when they are
      non-empty; `parse` stands for `parseFloat`. */
  function BuildCustomer(form: CustomerForm, editing: Option<Customer>, store: Store,
                         freshId: Id, now: string, parse: string -> real): (c: Customer)
    ensures c.ativo && c.updatedAt == now
    ensures c.empresaId == store.empresaId && c.nome == form.nome && c.tipoDocumento == form.tipoDocumento
    ensures editing.Some? && editing.value.id != "" ==> c.id == editing.value.id
    ensures (editing.None? || editing.value.id == "") ==> c.id == freshId
    ensures editing.Some? && editing.value.createdAt != "" ==> c.createdAt == editing.value.createdAt
    ensures (editing.None? || editing.value.createdAt == "") ==> c.createdAt == now
    ensures c.documento.None? <==> form.documento == ""
    ensures c.email.None? <==> form.email == ""
    ensures c.telefone.None? <==> form.telefone == ""
    ensures c.celular.None? <==> form.celular == ""
    ensures c.observacoes.None? <==> form.observacoes == ""
    ensures c.limiteCredito.None? <==> form.limiteCredito == ""
    ensures c.limiteCredito.Some? ==> c.limiteCredito.value == parse(form.limiteCredito)
    ensures c.endereco.None? && c.dataNascimento.None?
  {
    var id := if editing.Some? && editing.value.id != "" then editing.value.id else freshId;
    var createdAt := if editing.Some? && editing.value.createdAt != "" then editing.value.createdAt else now;
    Customer(
      id, store.empresaId, form.nome, form.tipoDocumento,
      NonEmpty(form.documento), NonEmpty(form.email), NonEmpty(form.telefone), NonEmpty(form.celular),
      None, None,
      if form.limiteCredito != "" then Some(parse(form.limiteCredito)) else None,
      NonEmpty(form.observacoes), true, createdAt, now)
  }

  /** `update(id, customerData)` spreads the object over the stored one:
      the keys it holds replace the stored values, and the address and
      birth date, which it does not hold, are kept. */
  function EditPatch(c: Customer): (p: Patch<Customer>)
    ensures p.id == Some(c.id) && p.updatedAt == Some(c.updatedAt)
    ensures forall prev :: p.fields(prev) == c.(endereco := prev.endereco, dataNascimento := prev.dataNascimento)
  {
    Patch(Some(c.id), Some(c.updatedAt), (prev: Customer) => c.(endereco := prev.endereco, dataNascimento := prev.dataNascimento))
  }

  /** `handleSubmit`: nothing without a current store; otherwise the record
      is written, replacing the edited customer or appended as new. */
  function HandleSubmit(db: CustomerDb, currentStore: Option<Store>, editing: Option<Customer>,
                        form: CustomerForm, freshId: Id, now: string, parse: string -> real): (r: CustomerDb)
    ensures currentStore.None? ==> r == db
    ensures currentStore.Some? && editing.None? ==>
              GetAll(r, CustomersKey) == GetAll(db, CustomersKey)
                + [Stored(BuildCustomer(form, editing, currentStore.value, freshId, now, parse))]
    ensures currentStore.Some? && editing.Some? ==>
              |GetAll(r, CustomersKey)| == |GetAll(db, CustomersKey)|
    ensures forall k :: k != CustomersKey ==> GetAll(r, k) == GetAll(db, k)
  {
    match currentStore
    case None => db
    case Some(store) =>
      var c := BuildCustomer(form, editing, store, freshId, now, parse);
      match editing
      case Some(e) => Update(db, CustomersKey, e.id, EditPatch(c), now).0
      case None => Create(db, CustomersKey, Stored(c)).0
  }

  /** A new customer shows up in the list once saved. */
  lemma NewCustomerIsListed(db: CustomerDb, store: Store, form: CustomerForm,
                            freshId: Id, now: string, parse: string -> real)
    ensures BuildCustomer(form, None, store, freshId, now, parse)
              in LoadCustomers(HandleSubmit(db, Some(store), None, form, freshId, now, parse))
  {
    var r := HandleSubmit(db, Some(store), None, form, freshId, now, parse);
    var after := GetAll(r, CustomersKey);
    assert after[|after| - 1] == Stored(BuildCustomer(form, None, store, freshId, now, parse));
  }

  /** Editing rewrites the first stored record with the customer's id: the
      id and the creation stamp are kept, the address and birth date are
      the stored ones, the stamp is now, the customer is active again, and
      every other record is untouched. */
  lemma EditKeepsIdentity(db: CustomerDb, store: Store, editing: Customer, form: CustomerForm,
                          freshId: Id, now: string, parse: string -> real, i: nat)
    requires editing.id != "" && editing.createdAt != ""
    requires i < |GetAll(db, CustomersKey)| && GetAll(db, CustomersKey)[i].id == editing.id
    requires forall j :: 0 <= j < i ==> GetAll(db, CustomersKey)[j].id != editing.id
    ensures var before := GetAll(db, CustomersKey);
      var after := GetAll(HandleSubmit(db, Some(store), Some(editing), form, freshId, now, parse), CustomersKey);
      && |after| == |before|
      && View(after[i]).id == editing.id
      && View(after[i]).createdAt == editing.createdAt
      && View(after[i]).updatedAt == now
      && View(after[i]).ativo
      && View(after[i]).endereco == before[i].fields.endereco
      && View(after[i]).dataNascimento == before[i].fields.dataNascimento
      && forall j :: 0 <= j < |after| && j != i ==> after[j] == before[j]
  {
    var c := BuildCustomer(form, Some(editing), store, freshId, now, parse);
    UpdateTouchesFirstMatchOnly(db, CustomersKey, editing.id, EditPatch(c), now, i);
  }

  // ---------------------------------------------------------------------------
  // Soft delete

  /** `handleDelete`: when confirmed, the record is updated to inactive;
      it stays in storage. */
  function HandleDelete(db: CustomerDb, id: Id, confirmed: bool, now: string): (r: CustomerDb)
    ensures !confirmed ==> r == db
    ensures |GetAll(r, CustomersKey)| == |GetAll(db, CustomersKey)|
    ensures forall k :: k != CustomersKey ==> GetAll(r, k) == GetAll(db, k)
  {
    if confirmed then Update(db, CustomersKey, id, Deactivate(), now).0 else db
  }

  /** The `{ ativo: false }` patch. */
  function Deactivate(): (p: Patch<Customer>)
    ensures p.id.None? && p.updatedAt.None?
    ensures forall c :: p.fields(c) == c.(ativo := false)
  {
    Patch(None, None, (c: Customer) => c.(ativo := false))
  }

  /** After a confirmed delete the customer is still stored, now inactive,
      and no longer listed (when its id is stored once). */
  lemma DeleteHidesCustomer(db: CustomerDb, id: Id, now: string, i: nat)
    requires i < |GetAll(db, CustomersKey)| && GetAll(db, CustomersKey)[i].id == id
    requires forall j :: 0 <= j < |GetAll(db, CustomersKey)| && j != i ==> GetAll(db, CustomersKey)[j].id != id
    ensures var after := GetAll(HandleDelete(db, id, true, now), CustomersKey);
      && after[i].id == id && !after[i].fields.ativo
      && forall c :: c in LoadCustomers(HandleDelete(db, id, true, now)) ==> c.id != id
  {
    var r := HandleDelete(db, id, true, now);
    var before := GetAll(db, CustomersKey);
    var after := GetAll(r, CustomersKey);
    UpdateTouchesFirstMatchOnly(db, CustomersKey, id, Deactivate(), now, i);
    var views := ViewAll(after);
    forall c | c in LoadCustomers(r)
      ensures c.id != id
    {
      var k :| 0 <= k < |LoadCustomers(r)| && LoadCustomers(r)[k] == c;
      assert c.ativo && c in views;
      var j :| 0 <= j < |views| && views[j] == c;
      if j != i {
        assert after[j] == before[j];
      }
    }
  }

  // ---------------------------------------------------------------------------
  // The submit button

  /** The button is disabled while the name is empty, so a click then does
      nothing; otherwise it runs `handleSubmit`. */
  function ClickSubmit(db: CustomerDb, currentStore: Option<Store>, editing: Option<Customer>,
                       form: CustomerForm, freshId: Id, now: string, parse: string -> real): (r: CustomerDb)
    ensures form.nome == "" ==> r == db
    ensures form.nome != "" ==> r == HandleSubmit(db, currentStore, editing, form, freshId, now, parse)
  {
    if form.nome == "" then db else HandleSubmit(db, currentStore, editing, form, freshId, now, parse)
  }

  /** Through the dialog, a new customer always has a name. */
  lemma DialogNeverCreatesNameless(db: CustomerDb, currentStore: Option<Store>, form: CustomerForm,
                                   freshId: Id, now: string, parse: string -> real)
    ensures var before := GetAll(db, CustomersKey);
      var after := GetAll(ClickSubmit(db, currentStore, None, form, freshId, now, parse), CustomersKey);
      forall j :: |before| <= j < |after| ==> after[j].fields.nome != ""
  {
  }
}
