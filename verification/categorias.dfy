/** The categories page: the grid of active categories with their product
    counts, the guarded delete and the create/edit dialog. It works on the
    catalogue store's state; the remote call behind each store action is
    a parameter holding its outcome, and the confirmation dialog is a
    boolean answer. */
module Categorias {
  import opened Common
  import opened Types
  import opened ProductStore

  /** `p.categoriaId === id`: a product without a category matches nothing. */
  predicate InCategory(p: Product, id: Id) {
    p.categoriaId == Some(id)
  }

  /** The count the delete guard uses: every product, active or not. */
  function ProductsInCategory(products: seq<Product>, id: Id): (n: nat)
    ensures n == 0 <==> forall i :: 0 <= i < |products| ==> !InCategory(products[i], id)
  {
    Count(products, (p: Product) => InCategory(p, id))
  }

  /** `getProductCount`: the count shown on the card, active products only. */
  function GetProductCount(products: seq<Product>, id: Id): (n: nat)
    ensures n == 0 <==> forall i :: 0 <= i < |products| ==> !(InCategory(products[i], id) && products[i].ativo)
  {
    Count(products, (p: Product) => InCategory(p, id) && p.ativo)
  }

  lemma {:induction false} CountMonotone<T>(xs: seq<T>, p: T -> bool, q: T -> bool)
    requires forall i :: 0 <= i < |xs| ==> p(xs[i]) ==> q(xs[i])
    ensures Count(xs, p) <= Count(xs, q)
  {
    if xs != [] {
      CountMonotone(xs[1..], p, q);
    }
  }

  /** The shown count never exceeds the guard's count. */
  lemma ShownCountBelowGuard(products: seq<Product>, id: Id)
    ensures GetProductCount(products, id) <= ProductsInCategory(products, id)
  {
    CountMonotone(products, (p: Product) => InCategory(p, id) && p.ativo, (p: Product) => InCategory(p, id));
  }

  /** What a click on the delete button leads to. */
  datatype DeleteOutcome = Refused(alertCount: nat) | Cancelled | Deleted

  /** `handleDelete`: refused with an alert while any product is in the
      category; otherwise, once confirmed, the store's `deleteCategory`
      runs with the given outcome of the remote delete. */
  function HandleDelete(s: ProductState, id: Id, confirmed: bool, deleted: Result<()>)
    : (r: (ProductState, DeleteOutcome))
    ensures ProductsInCategory(s.products, id) > 0 ==>
              r.0 == s && r.1 == Refused(ProductsInCategory(s.products, id))
    ensures ProductsInCategory(s.products, id) == 0 && !confirmed ==> r.0 == s && r.1 == Cancelled
    ensures ProductsInCategory(s.products, id) == 0 && confirmed ==>
              r.0 == DeleteCategory(s, id, deleted) && r.1 == Deleted
    ensures r.0.products == s.products
  {
    var n := ProductsInCategory(s.products, id);
    if n > 0 then (s, Refused(n))
    else if confirmed then (DeleteCategory(s, id, deleted), Deleted)
    else (s, Cancelled)
  }

  /** A category whose products are all inactive shows 0 products on its
      card and still cannot be deleted. */
  lemma ZeroShownButRefused(s: ProductState, id: Id, confirmed: bool, deleted: Result<()>, k: nat)
    requires k < |s.products| && InCategory(s.products[k], id)
    requires forall i :: 0 <= i < |s.products| ==> !s.products[i].ativo
    ensures GetProductCount(s.products, id) == 0
    ensures HandleDelete(s, id, confirmed, deleted).0 == s
    ensures HandleDelete(s, id, confirmed, deleted).1.Refused?
  {
  }

  /** A category leaves the list only through a confirmed delete of a
      category with no product at all, and only when the remote delete
      succeeds. */
  lemma DeleteRemovesOnlyEmpty(s: ProductState, id: Id, confirmed: bool, deleted: Result<()>, j: nat)
    requires j < |s.categories| && s.categories[j].id == id
    ensures (forall i :: 0 <= i < |HandleDelete(s, id, confirmed, deleted).0.categories| ==>
              HandleDelete(s, id, confirmed, deleted).0.categories[i].id != id)
            <==> (ProductsInCategory(s.products, id) == 0 && confirmed && deleted.Ok?)
  {
    var r := HandleDelete(s, id, confirmed, deleted).0;
    if !(ProductsInCategory(s.products, id) == 0 && confirmed && deleted.Ok?) {
      assert r.categories == s.categories;
      assert r.categories[j].id == id;
    }
  }

  // ---------------------------------------------------------------------------
  // The grid

  /** `categories.filter((c) => c.ativa)`: the cards shown. */
  function VisibleCategories(categories: seq<Category>): (r: seq<Category>)
    ensures forall i :: 0 <= i < |r| ==> r[i].ativa && r[i] in categories
    ensures forall i :: 0 <= i < |categories| && categories[i].ativa ==> categories[i] in r
  {
    Filter(categories, (c: Category) => c.ativa)
  }

  /** The "no category yet" card. */
  predicate ShowsEmptyState(categories: seq<Category>) {
    |VisibleCategories(categories)| == 0
  }

  /** The empty card appears exactly when no category is active, however
      many inactive ones exist. */
  lemma EmptyStateIffNoneActive(categories: seq<Category>)
    ensures ShowsEmptyState(categories) <==> forall i :: 0 <= i < |categories| ==> !categories[i].ativa
  {
    if !ShowsEmptyState(categories) {
      assert VisibleCategories(categories)[0].ativa;
    }
  }

  // ---------------------------------------------------------------------------
  // The dialog

  datatype CategoryForm = CategoryForm(nome: string, descricao: string, cor: string)

  /** The `categoryData` object sent to the store. */
  datatype CategoryData = CategoryData(
    empresaId: Id, nome: string, descricao: Option<string>, cor: string, ativa: bool)

  /** Which store action the dialog calls, with what. */
  datatype CategoryRequest = AddRequest(data: CategoryData) | UpdateRequest(id: Id, data: CategoryData)

  function BuildCategoryData(form: CategoryForm, store: Store): (d: CategoryData)
    ensures d.ativa && d.empresaId == store.empresaId && d.nome == form.nome && d.cor == form.cor
    ensures d.descricao.None? <==> form.descricao == ""
    ensures d.descricao.Some? ==> d.descricao.value == form.descricao
  {
    CategoryData(store.empresaId, form.nome, NonEmpty(form.descricao), form.cor, true)
  }

  /** `handleSubmit`: nothing without a current store; otherwise the store's
      `updateCategory` (when editing) or `addCategory` runs, `saved` being
      the outcome of the remote call. */
  function HandleSubmit(s: ProductState, currentStore: Option<Store>, editing: Option<Category>,
                        form: CategoryForm, saved: Result<Category>)
    : (r: (ProductState, Option<CategoryRequest>))
    ensures currentStore.None? ==> r.0 == s && r.1.None?
    ensures currentStore.Some? && editing.Some? ==>
              && r.1 == Some(UpdateRequest(editing.value.id, BuildCategoryData(form, currentStore.value)))
              && r.0 == UpdateCategory(s, editing.value.id, saved)
    ensures currentStore.Some? && editing.None? ==>
              && r.1 == Some(AddRequest(BuildCategoryData(form, currentStore.value)))
              && r.0 == AddCategory(s, saved)
    ensures r.1.Some? ==> r.1.value.data.ativa
  {
    match currentStore
    case None => (s, None)
    case Some(store) =>
      var data := BuildCategoryData(form, store);
      match editing
      case Some(c) => (UpdateCategory(s, c.id, saved), Some(UpdateRequest(c.id, data)))
      case None => (AddCategory(s, saved), Some(AddRequest(data)))
  }

  /** A successful add of an active category puts a card on the grid and
      removes the empty state; an edit never changes how many categories
      there are. */
  lemma SubmitEffectOnGrid(s: ProductState, store: Store, editing: Option<Category>,
                           form: CategoryForm, saved: Result<Category>)
    ensures var after := HandleSubmit(s, Some(store), editing, form, saved).0;
      && (editing.None? && saved.Ok? && saved.value.ativa ==>
            saved.value in VisibleCategories(after.categories) && !ShowsEmptyState(after.categories))
      && (editing.Some? ==> |after.categories| == |s.categories|)
  {
    var after := HandleSubmit(s, Some(store), editing, form, saved).0;
    if editing.None? && saved.Ok? && saved.value.ativa {
      assert after.categories[|s.categories|] == saved.value;
    }
  }

  /** The button is disabled while the name is empty. */
  function ClickSubmit(s: ProductState, currentStore: Option<Store>, editing: Option<Category>,
                       form: CategoryForm, saved: Result<Category>)
    : (r: (ProductState, Option<CategoryRequest>))
    ensures form.nome == "" ==> r == (s, None)
    ensures form.nome != "" ==> r == HandleSubmit(s, currentStore, editing, form, saved)
    ensures r.1.Some? ==> r.1.value.data.nome != ""
  {
    if form.nome == "" then (s, None) else HandleSubmit(s, currentStore, editing, form, saved)
  }
}
