/** The catalogue store (`useProductStore`): the cached product, category and
    stock lists, the stock write path (`updateStock`, `adjustStock`), the
    catalogue search helpers and the list maintenance that follows each
    remote create/update/delete. Every remote call is a parameter holding its
    outcome; each action returns the state once its `finally` has run. */
module ProductStore {
  import opened Common
  import opened Types

  datatype ProductState = ProductState(
    products: seq<Product>,
    variants: seq<ProductVariant>,
    categories: seq<Category>,
    stocks: seq<Stock>,
    isLoading: bool,
    error: Option<string>,
    searchTerm: string,
    selectedCategory: Option<Id>)

  function InitialProducts(): ProductState {
    ProductState([], [], [], [], false, None, "", None)
  }

  /** Everything but the stock cache is the same. */
  predicate SameButStocks(r: ProductState, s: ProductState) {
    r.(stocks := s.stocks) == s
  }

  // ---------------------------------------------------------------------------
  // Stock cache

  /** One row of the `stock` table as the query returns it; `varianteId` is
      SQL `null` for a product without variants. */
  datatype StockRow = StockRow(
    id: Id, lojaId: Id, produtoId: Id, varianteId: Option<Id>,
    quantidade: real, quantidadeMinima: Option<real>, quantidadeMaxima: Option<real>,
    updatedAt: string)

  /** The row mapping of `loadStocks`: the variant id is copied as it is, so a
      `null` stays `null`; the maximum is not copied. */
  function FromRow(row: StockRow): (st: Stock)
    ensures row.varianteId.None? ==> st.varianteId == Null
    ensures row.varianteId.Some? ==> st.varianteId == Id(row.varianteId.value)
    ensures st.lojaId == row.lojaId && st.produtoId == row.produtoId
    ensures st.quantidade == row.quantidade && st.quantidadeMinima == row.quantidadeMinima
    ensures st.quantidadeMaxima.None?
  {
    var variante := match row.varianteId
      case None => Null
      case Some(v) => Id(v);
    Stock(row.id, row.lojaId, row.produtoId, variante, row.quantidade,
          row.quantidadeMinima, None, row.updatedAt)
  }

  /** `loadStocks`: the fetched rows replace the cache; a failed query is only
      logged. */
  function LoadStocks(s: ProductState, fetched: Result<seq<StockRow>>): (r: ProductState)
    ensures SameButStocks(r, s)
    ensures fetched.Err? ==> r == s
    ensures fetched.Ok? ==> |r.stocks| == |fetched.value|
    ensures fetched.Ok? ==> forall i :: 0 <= i < |r.stocks| ==> r.stocks[i] == FromRow(fetched.value[i])
    ensures fetched.Ok? ==> forall i :: 0 <= i < |r.stocks| ==> r.stocks[i].varianteId != Undefined
  {
    match fetched
    case Err(_) => s
    case Ok(rows) => s.(stocks := seq(|rows|, i requires 0 <= i < |rows| => FromRow(rows[i])))
  }

  /** The cache lookup of `adjustStock` and `updateStock`: all three keys with `===`. */
  predicate StrictKey(st: Stock, lojaId: Id, produtoId: Id, varianteId: MaybeId) {
    st.lojaId == lojaId && st.produtoId == produtoId && st.varianteId == varianteId
  }

  /** `stock?.quantidade || 0` for the first strictly matching cached row. */
  function CachedQuantity(stocks: seq<Stock>, lojaId: Id, produtoId: Id, varianteId: MaybeId): (q: real)
    ensures (forall i :: 0 <= i < |stocks| ==> !StrictKey(stocks[i], lojaId, produtoId, varianteId)) ==> q == 0.0
    ensures forall i :: 0 <= i < |stocks| && StrictKey(stocks[i], lojaId, produtoId, varianteId)
                        && (forall j :: 0 <= j < i ==> !StrictKey(stocks[j], lojaId, produtoId, varianteId))
                        ==> q == stocks[i].quantidade
  {
    match FindFirst(stocks, (st: Stock) => StrictKey(st, lojaId, produtoId, varianteId))
    case None => 0.0
    case Some(i) => NumOr(Some(stocks[i].quantidade), 0.0)
  }

  /** The record `updateStock` upserts on the key (store, product, variant). */
  datatype StockUpsert = StockUpsert(lojaId: Id, produtoId: Id, varianteId: MaybeId, quantidade: real)

  /** `updateStock`: upsert the new quantity with the variant written as
      `varianteId || null`, then reload the store's rows. Every failure is
      caught and logged, so neither `error` nor anything else a caller can see
      reports it. Returns the record sent and the resulting state. */
  function UpdateStock(s: ProductState, lojaId: Id, produtoId: Id, varianteId: MaybeId,
                       newQuantity: real, upsertOk: bool, reload: Result<seq<StockRow>>)
    : (r: (StockUpsert, ProductState))
    ensures r.0.lojaId == lojaId && r.0.produtoId == produtoId && r.0.quantidade == newQuantity
    ensures TruthyId(varianteId) ==> r.0.varianteId == varianteId
    ensures !TruthyId(varianteId) ==> r.0.varianteId == Null
    ensures SameButStocks(r.1, s)
    ensures !upsertOk ==> r.1 == s
    ensures upsertOk ==> r.1 == LoadStocks(s, reload)
  {
    var request := StockUpsert(lojaId, produtoId, OrNull(varianteId), newQuantity);
    if upsertOk then (request, LoadStocks(s, reload)) else (request, s)
  }

  /** `adjustStock`: the cached quantity plus `delta`, clamped at zero, handed
      to `updateStock`. */
  function AdjustStock(s: ProductState, lojaId: Id, produtoId: Id, varianteId: MaybeId,
                       delta: real, upsertOk: bool, reload: Result<seq<StockRow>>)
    : (r: (StockUpsert, ProductState))
    ensures r.0.quantidade >= 0.0
    ensures r.0.quantidade >= CachedQuantity(s.stocks, lojaId, produtoId, varianteId) + delta
    ensures CachedQuantity(s.stocks, lojaId, produtoId, varianteId) + delta >= 0.0 ==>
              r.0.quantidade == CachedQuantity(s.stocks, lojaId, produtoId, varianteId) + delta
    ensures CachedQuantity(s.stocks, lojaId, produtoId, varianteId) + delta < 0.0 ==> r.0.quantidade == 0.0
    ensures r.0.lojaId == lojaId && r.0.produtoId == produtoId && r.0.varianteId == OrNull(varianteId)
    ensures SameButStocks(r.1, s)
  {
    var current := CachedQuantity(s.stocks, lojaId, produtoId, varianteId);
    UpdateStock(s, lojaId, produtoId, varianteId, Max(0.0, current + delta), upsertOk, reload)
  }

  /** A row of the store's cache for the product and no variant. */
  predicate NoVariantRow(row: StockRow, lojaId: Id, produtoId: Id) {
    row.lojaId == lojaId && row.produtoId == produtoId
    && (row.varianteId.None? || row.varianteId.value == "")
  }

  /** The rows `loadStocks` caches never carry an `undefined` variant, so a
      call with `varianteId` undefined (the point of sale's call for a product
      without variants) never finds its row: the requested quantity is
      `max(0, delta)` however much is on hand. */
  lemma {:induction false} StrictLookupMissesLoadedRows(s: ProductState, rows: seq<StockRow>, lojaId: Id,
                                                        produtoId: Id, delta: real, upsertOk: bool,
                                                        reload: Result<seq<StockRow>>)
    ensures var loaded := LoadStocks(s, Ok(rows));
      AdjustStock(loaded, lojaId, produtoId, Undefined, delta, upsertOk, reload).0.quantidade == Max(0.0, delta)
  {
    var loaded := LoadStocks(s, Ok(rows));
    assert forall i :: 0 <= i < |loaded.stocks| ==> !StrictKey(loaded.stocks[i], lojaId, produtoId, Undefined);
  }

  /** The discrepancy on one input: 10 units on hand, a sale of 1 asks the
      database to store 0 rather than 9. */
  lemma SaleOfOneZeroesStock()
    ensures var s := LoadStocks(InitialProducts(), Ok([StockRow("s1", "loja", "p", None, 10.0, None, None, "t")]));
      && CachedQuantityFixed(s.stocks, "loja", "p", Undefined) == 10.0
      && AdjustStock(s, "loja", "p", Undefined, -1.0, true, Ok([])).0.quantidade == 0.0
      && AdjustStockFixed(s, "loja", "p", Undefined, -1.0, true, Ok([])).0.quantidade == 9.0
  {
    var s := LoadStocks(InitialProducts(), Ok([StockRow("s1", "loja", "p", None, 10.0, None, None, "t")]));
    assert s.stocks[0].varianteId == Null;
    StrictLookupMissesLoadedRows(InitialProducts(), [StockRow("s1", "loja", "p", None, 10.0, None, None, "t")],
                                 "loja", "p", -1.0, true, Ok([]));
  }

  /** The lookup the corrected `adjustStock` uses: a falsy variant id on
      either side (`null`, `undefined` or `""`) means "no variant". */
  predicate LooseKey(st: Stock, lojaId: Id, produtoId: Id, varianteId: MaybeId) {
    st.lojaId == lojaId && st.produtoId == produtoId
    && OrUndefined(st.varianteId) == OrUndefined(varianteId)
  }

  function CachedQuantityFixed(stocks: seq<Stock>, lojaId: Id, produtoId: Id, varianteId: MaybeId): (q: real)
    ensures (forall i :: 0 <= i < |stocks| ==> !LooseKey(stocks[i], lojaId, produtoId, varianteId)) ==> q == 0.0
    ensures forall i :: 0 <= i < |stocks| && LooseKey(stocks[i], lojaId, produtoId, varianteId)
                        && (forall j :: 0 <= j < i ==> !LooseKey(stocks[j], lojaId, produtoId, varianteId))
                        ==> q == stocks[i].quantidade
  {
    match FindFirst(stocks, (st: Stock) => LooseKey(st, lojaId, produtoId, varianteId))
    case None => 0.0
    case Some(i) => stocks[i].quantidade
  }

  /** `adjustStock` with the variant ids normalised before comparing. */
  function AdjustStockFixed(s: ProductState, lojaId: Id, produtoId: Id, varianteId: MaybeId,
                            delta: real, upsertOk: bool, reload: Result<seq<StockRow>>)
    : (r: (StockUpsert, ProductState))
    ensures r.0.quantidade == Max(0.0, CachedQuantityFixed(s.stocks, lojaId, produtoId, varianteId) + delta)
    ensures r.0.quantidade >= 0.0
    ensures SameButStocks(r.1, s)
  {
    var current := CachedQuantityFixed(s.stocks, lojaId, produtoId, varianteId);
    UpdateStock(s, lojaId, produtoId, varianteId, Max(0.0, current + delta), upsertOk, reload)
  }

  /** The corrected lookup finds the row `loadStocks` cached for a product
      without variants, so the quantity written is the on-hand quantity plus
      `delta`, clamped at zero. */
  lemma {:induction false} AdjustStockFixedReadsLoadedRow(s: ProductState, rows: seq<StockRow>, k: nat, lojaId: Id,
                                                          produtoId: Id, delta: real, upsertOk: bool,
                                                          reload: Result<seq<StockRow>>)
    requires k < |rows| && NoVariantRow(rows[k], lojaId, produtoId)
    requires forall j :: 0 <= j < k ==> !NoVariantRow(rows[j], lojaId, produtoId)
    ensures var loaded := LoadStocks(s, Ok(rows));
      AdjustStockFixed(loaded, lojaId, produtoId, Undefined, delta, upsertOk, reload).0.quantidade
        == Max(0.0, rows[k].quantidade + delta)
  {
    var loaded := LoadStocks(s, Ok(rows));
    assert LooseKey(loaded.stocks[k], lojaId, produtoId, Undefined);
    forall j | 0 <= j < k
      ensures !LooseKey(loaded.stocks[j], lojaId, produtoId, Undefined)
    {
      assert loaded.stocks[j] == FromRow(rows[j]);
    }
  }

  /** For a real variant id the two lookups agree: the correction changes only
      the no-variant case. */
  lemma {:induction false} FixedAgreesOnVariants(stocks: seq<Stock>, lojaId: Id, produtoId: Id, varianteId: MaybeId)
    requires TruthyId(varianteId)
    ensures CachedQuantityFixed(stocks, lojaId, produtoId, varianteId)
            == CachedQuantity(stocks, lojaId, produtoId, varianteId)
  {
    assert forall i :: 0 <= i < |stocks| ==>
      (LooseKey(stocks[i], lojaId, produtoId, varianteId) <==> StrictKey(stocks[i], lojaId, produtoId, varianteId));
  }

  // ---------------------------------------------------------------------------
  // Catalogue search

  /** The result of `findByBarcode`. */
  datatype BarcodeHit = BarcodeHit(product: Product, variant: Option<ProductVariant>)

  predicate ProductCodeMatch(p: Product, code: string) {
    p.codigoBarras == Some(code) || p.codigoInterno == Some(code)
  }

  predicate VariantCodeMatch(v: ProductVariant, code: string) {
    v.codigoBarras == Some(code)
  }

  /** `products[i]` is the first product carrying the code. */
  predicate FirstProductHit(products: seq<Product>, i: nat, code: string) {
    && i < |products| && ProductCodeMatch(products[i], code)
    && forall j :: 0 <= j < i ==> !ProductCodeMatch(products[j], code)
  }

  /** `variants[k]` is the first variant carrying the bar code. */
  predicate FirstVariantHit(variants: seq<ProductVariant>, k: nat, code: string) {
    && k < |variants| && VariantCodeMatch(variants[k], code)
    && forall j :: 0 <= j < k ==> !VariantCodeMatch(variants[j], code)
  }

  /** `products[m]` is the first product with that id. */
  predicate FirstWithId(products: seq<Product>, m: nat, id: Id) {
    && m < |products| && products[m].id == id
    && forall j :: 0 <= j < m ==> products[j].id != id
  }

  predicate NoProductHit(products: seq<Product>, code: string) {
    forall i :: 0 <= i < |products| ==> !ProductCodeMatch(products[i], code)
  }

  /** `findByBarcode`: the first product whose bar code or internal code is
      the code wins; otherwise the first variant with that bar code, returned
      with the first product of its `produtoId`, and nothing when that
      product is not in the list (a later variant with the same code is
      not tried). */
  function FindByBarcode(s: ProductState, code: string): (r: Option<BarcodeHit>)
    ensures forall i: nat :: FirstProductHit(s.products, i, code) ==> r == Some(BarcodeHit(s.products[i], None))
    ensures NoProductHit(s.products, code) ==> forall k: nat :: FirstVariantHit(s.variants, k, code) ==>
              && ((forall m :: 0 <= m < |s.products| ==> s.products[m].id != s.variants[k].produtoId) ==> r.None?)
              && (forall m: nat :: FirstWithId(s.products, m, s.variants[k].produtoId) ==>
                    r == Some(BarcodeHit(s.products[m], Some(s.variants[k]))))
    ensures (&& NoProductHit(s.products, code)
             && forall k :: 0 <= k < |s.variants| ==> !VariantCodeMatch(s.variants[k], code))
            ==> r.None?
    ensures r.Some? ==> r.value.product in s.products
    ensures r.Some? && r.value.variant.Some? ==>
              && NoProductHit(s.products, code)
              && r.value.product.id == r.value.variant.value.produtoId
  {
    match FindFirst(s.products, (p: Product) => ProductCodeMatch(p, code))
    case Some(i) =>
      assert FirstProductHit(s.products, i, code);
      assert forall i': nat :: FirstProductHit(s.products, i', code) ==> i' == i;
      Some(BarcodeHit(s.products[i], None))
    case None =>
      match FindFirst(s.variants, (v: ProductVariant) => VariantCodeMatch(v, code))
      case None => None
      case Some(k) =>
        var v := s.variants[k];
        assert FirstVariantHit(s.variants, k, code);
        assert forall k': nat :: FirstVariantHit(s.variants, k', code) ==> k' == k;
        match FindFirst(s.products, (p: Product) => p.id == v.produtoId)
        case None => None
        case Some(m) =>
          assert FirstWithId(s.products, m, v.produtoId);
          assert forall m': nat :: FirstWithId(s.products, m', v.produtoId) ==> m' == m;
          Some(BarcodeHit(s.products[m], Some(v)))
  }

  /** A matching variant is not enough: when the first variant with the code
      has no product in the list the answer is nothing, even if a later
      variant with the same code has one. */
  lemma OrphanVariantYieldsNothing(s: ProductState, code: string, k: nat)
    requires NoProductHit(s.products, code)
    requires FirstVariantHit(s.variants, k, code)
    requires forall m :: 0 <= m < |s.products| ==> s.products[m].id != s.variants[k].produtoId
    ensures FindByBarcode(s, code).None?
  {
  }

  /** `getFilteredProducts`' text test: the lower-cased name or internal code,
      or the raw bar code, contains the lower-cased term. */
  predicate MatchesTerm(p: Product, searchTerm: string) {
    var term := Lower(searchTerm);
    || Contains(Lower(p.nome), term)
    || OptContains(p.codigoBarras, term)
    || (p.codigoInterno.Some? && Contains(Lower(p.codigoInterno.value), term))
  }

  /** `getFilteredProducts`' test for one product. */
  predicate Listed(p: Product, selectedCategory: Option<Id>, searchTerm: string) {
    && p.ativo
    && (TruthyStr(selectedCategory) ==> p.categoriaId == selectedCategory)
    && (searchTerm != "" ==> MatchesTerm(p, searchTerm))
  }

  /** `getFilteredProducts`: the active products of the selected category
      that match the search term, in catalogue order. */
  function GetFilteredProducts(s: ProductState): (r: seq<Product>)
    ensures |r| <= |s.products|
    ensures forall i :: 0 <= i < |r| ==> r[i] in s.products && r[i].ativo
    ensures TruthyStr(s.selectedCategory) ==> forall i :: 0 <= i < |r| ==> r[i].categoriaId == s.selectedCategory
    ensures s.searchTerm != "" ==> forall i :: 0 <= i < |r| ==> MatchesTerm(r[i], s.searchTerm)
    ensures forall i :: 0 <= i < |s.products| && Listed(s.products[i], s.selectedCategory, s.searchTerm)
                        ==> s.products[i] in r
  {
    Filter(s.products, (p: Product) => Listed(p, s.selectedCategory, s.searchTerm))
  }

  /** An accented capital name is found by its lower-case spelling: the
      product "AÇÚCAR" is listed for the term "açúcar". */
  lemma AccentedSearchFindsProduct(s: ProductState)
    requires |s.products| == 1 && s.products[0].ativo && s.products[0].nome == "A\U{C7}\U{DA}CAR"
    requires !TruthyStr(s.selectedCategory) && s.searchTerm == "a\U{E7}\U{FA}car"
    ensures GetFilteredProducts(s) == s.products
  {
    var term := s.searchTerm;
    assert Lower(s.products[0].nome) == term;
    assert Lower(term) == term;
    assert term[..|term|] == term;
    assert Listed(s.products[0], s.selectedCategory, s.searchTerm);
    var r := GetFilteredProducts(s);
    assert s.products[0] in r;
    assert r == [r[0]] && r[0] == s.products[0];
  }

  /** With no term and no category the list is exactly the active products. */
  lemma EmptySearchKeepsActive(s: ProductState)
    requires s.searchTerm == "" && !TruthyStr(s.selectedCategory)
    ensures GetFilteredProducts(s) == Filter(s.products, (p: Product) => p.ativo)
  {
    FilterCongruent(s.products, (p: Product) => Listed(p, s.selectedCategory, s.searchTerm), (p: Product) => p.ativo);
  }

  /** Typing a term only narrows the list shown for the empty term. */
  lemma SearchNarrows(s: ProductState, term: string)
    ensures var r := GetFilteredProducts(s.(searchTerm := term));
      forall i :: 0 <= i < |r| ==> r[i] in GetFilteredProducts(s.(searchTerm := ""))
  {
    var r := GetFilteredProducts(s.(searchTerm := term));
    forall i | 0 <= i < |r|
      ensures r[i] in GetFilteredProducts(s.(searchTerm := ""))
    {
      var k :| 0 <= k < |s.products| && s.products[k] == r[i];
      assert Listed(s.products[k], s.selectedCategory, "");
    }
  }

  // ---------------------------------------------------------------------------
  // Loading and list maintenance

  /** `loadAll`: clears `error`; without a company nothing is fetched; on
      success products and categories are replaced together; a failure sets
      `error`. `isLoading` ends false. `variants` is never assigned. */
  function LoadAll(s: ProductState, company: Option<Company>,
                   fetched: Result<(seq<Product>, seq<Category>)>): (r: ProductState)
    ensures !r.isLoading
    ensures r.variants == s.variants && r.stocks == s.stocks
    ensures company.None? ==> r == s.(isLoading := false, error := None)
    ensures company.Some? && fetched.Ok? ==>
              r.products == fetched.value.0 && r.categories == fetched.value.1 && r.error.None?
    ensures company.Some? && fetched.Err? ==>
              r.products == s.products && r.categories == s.categories && r.error == Some(fetched.message)
  {
    var started := s.(isLoading := true, error := None);
    var done :=
      if company.None? then started
      else match fetched
        case Ok(lists) => started.(products := lists.0, categories := lists.1)
        case Err(message) => started.(error := Some(message));
    done.(isLoading := false)
  }

  /** `loadCategories`: without a company it returns at once (the `finally`
      still clears `isLoading`); a failure is only logged. */
  function LoadCategories(s: ProductState, company: Option<Company>,
                          fetched: Result<seq<Category>>): (r: ProductState)
    ensures !r.isLoading && r.error == s.error
    ensures r.(categories := s.categories, isLoading := s.isLoading) == s
    ensures company.Some? && fetched.Ok? ==> r.categories == fetched.value
    ensures company.None? || fetched.Err? ==> r.categories == s.categories
  {
    if company.Some? && fetched.Ok? then s.(categories := fetched.value, isLoading := false)
    else s.(isLoading := false)
  }

  /** Only `categories`, `isLoading` and `error` may differ. */
  predicate OnlyCategoriesChange(r: ProductState, s: ProductState) {
    r.(categories := s.categories, isLoading := s.isLoading, error := s.error) == s
  }

  /** Only `products`, `isLoading` and `error` may differ. */
  predicate OnlyProductsChange(r: ProductState, s: ProductState) {
    r.(products := s.products, isLoading := s.isLoading, error := s.error) == s
  }

  function AddCategory(s: ProductState, created: Result<Category>): (r: ProductState)
    ensures OnlyCategoriesChange(r, s) && !r.isLoading
    ensures created.Ok? ==> r.categories == s.categories + [created.value] && r.error == s.error
    ensures created.Err? ==> r.categories == s.categories && r.error == Some(created.message)
  {
    match created
    case Ok(c) => s.(categories := s.categories + [c], isLoading := false)
    case Err(message) => s.(error := Some(message), isLoading := false)
  }

  function UpdateCategory(s: ProductState, id: Id, updated: Result<Category>): (r: ProductState)
    ensures OnlyCategoriesChange(r, s) && !r.isLoading
    ensures |r.categories| == |s.categories|
    ensures updated.Ok? ==> r.error == s.error && forall i :: 0 <= i < |s.categories| ==>
              r.categories[i] == (if s.categories[i].id == id then updated.value else s.categories[i])
    ensures updated.Err? ==> r.categories == s.categories && r.error == Some(updated.message)
  {
    match updated
    case Ok(c) => s.(categories := ReplaceWhere(s.categories, (x: Category) => x.id == id, c), isLoading := false)
    case Err(message) => s.(error := Some(message), isLoading := false)
  }

  function DeleteCategory(s: ProductState, id: Id, deleted: Result<()>): (r: ProductState)
    ensures OnlyCategoriesChange(r, s) && !r.isLoading
    ensures deleted.Ok? ==> r.error == s.error
    ensures deleted.Ok? ==> forall i :: 0 <= i < |r.categories| ==> r.categories[i].id != id
    ensures deleted.Ok? ==> forall i :: 0 <= i < |s.categories| && s.categories[i].id != id ==>
                              s.categories[i] in r.categories
    ensures deleted.Err? ==> r.categories == s.categories && r.error == Some(deleted.message)
  {
    match deleted
    case Ok(_) => s.(categories := Filter(s.categories, (x: Category) => x.id != id), isLoading := false)
    case Err(message) => s.(error := Some(message), isLoading := false)
  }

  function AddProduct(s: ProductState, created: Result<Product>): (r: ProductState)
    ensures OnlyProductsChange(r, s) && !r.isLoading
    ensures created.Ok? ==> r.products == s.products + [created.value] && r.error == s.error
    ensures created.Err? ==> r.products == s.products && r.error == Some(created.message)
  {
    match created
    case Ok(p) => s.(products := s.products + [p], isLoading := false)
    case Err(message) => s.(error := Some(message), isLoading := false)
  }

  function UpdateProduct(s: ProductState, id: Id, updated: Result<Product>): (r: ProductState)
    ensures OnlyProductsChange(r, s) && !r.isLoading
    ensures |r.products| == |s.products|
    ensures updated.Ok? ==> r.error == s.error && forall i :: 0 <= i < |s.products| ==>
              r.products[i] == (if s.products[i].id == id then updated.value else s.products[i])
    ensures updated.Err? ==> r.products == s.products && r.error == Some(updated.message)
  {
    match updated
    case Ok(p) => s.(products := ReplaceWhere(s.products, (x: Product) => x.id == id, p), isLoading := false)
    case Err(message) => s.(error := Some(message), isLoading := false)
  }

  function DeleteProduct(s: ProductState, id: Id, deleted: Result<()>): (r: ProductState)
    ensures OnlyProductsChange(r, s) && !r.isLoading
    ensures deleted.Ok? ==> r.error == s.error
    ensures deleted.Ok? ==> forall i :: 0 <= i < |r.products| ==> r.products[i].id != id
    ensures deleted.Ok? ==> forall i :: 0 <= i < |s.products| && s.products[i].id != id ==>
                              s.products[i] in r.products
    ensures deleted.Err? ==> r.products == s.products && r.error == Some(deleted.message)
  {
    match deleted
    case Ok(_) => s.(products := Filter(s.products, (x: Product) => x.id != id), isLoading := false)
    case Err(message) => s.(error := Some(message), isLoading := false)
  }

  /** Creating a product with a new id and then deleting it restores the list. */
  lemma {:induction false} AddThenDeleteProduct(s: ProductState, p: Product)
    requires forall i :: 0 <= i < |s.products| ==> s.products[i].id != p.id
    ensures DeleteProduct(AddProduct(s, Ok(p)), p.id, Ok(())).products == s.products
  {
    var keep := (x: Product) => x.id != p.id;
    FilterAll(s.products, keep);
    FilterAppend(s.products, [p], keep);
    assert Filter([p], keep) == [];
  }

  /** The same round trip for categories. */
  lemma {:induction false} AddThenDeleteCategory(s: ProductState, c: Category)
    requires forall i :: 0 <= i < |s.categories| ==> s.categories[i].id != c.id
    ensures DeleteCategory(AddCategory(s, Ok(c)), c.id, Ok(())).categories == s.categories
  {
    var keep := (x: Category) => x.id != c.id;
    FilterAll(s.categories, keep);
    FilterAppend(s.categories, [c], keep);
    assert Filter([c], keep) == [];
  }

  // ---------------------------------------------------------------------------
  // Reachable states

  /** Every action of the store, each with the outcome of its remote calls. */
  datatype Action =
    | LoadAllAction(company: Option<Company>, fetchedLists: Result<(seq<Product>, seq<Category>)>)
    | LoadStocksAction(fetchedRows: Result<seq<StockRow>>)
    | LoadCategoriesAction(company: Option<Company>, fetchedCategories: Result<seq<Category>>)
    | AddProductAction(createdProduct: Result<Product>)
    | UpdateProductAction(productId: Id, updatedProduct: Result<Product>)
    | DeleteProductAction(productId: Id, productDeleted: Result<()>)
    | AddCategoryAction(createdCategory: Result<Category>)
    | UpdateCategoryAction(categoryId: Id, updatedCategory: Result<Category>)
    | DeleteCategoryAction(categoryId: Id, categoryDeleted: Result<()>)
    | UpdateStockAction(lojaId: Id, produtoId: Id, varianteId: MaybeId, quantidade: real,
                        upsertOk: bool, reload: Result<seq<StockRow>>)
    | AdjustStockAction(lojaId: Id, produtoId: Id, varianteId: MaybeId, delta: real,
                        upsertOk: bool, reload: Result<seq<StockRow>>)
    | SetSearchTermAction(term: string)
    | SetSelectedCategoryAction(selected: Option<Id>)

  function Apply(s: ProductState, a: Action): (r: ProductState)
    ensures r.variants == s.variants
  {
    match a
    case LoadAllAction(company, fetched) => LoadAll(s, company, fetched)
    case LoadStocksAction(fetched) => LoadStocks(s, fetched)
    case LoadCategoriesAction(company, fetched) => LoadCategories(s, company, fetched)
    case AddProductAction(created) => AddProduct(s, created)
    case UpdateProductAction(id, updated) => UpdateProduct(s, id, updated)
    case DeleteProductAction(id, deleted) => DeleteProduct(s, id, deleted)
    case AddCategoryAction(created) => AddCategory(s, created)
    case UpdateCategoryAction(id, updated) => UpdateCategory(s, id, updated)
    case DeleteCategoryAction(id, deleted) => DeleteCategory(s, id, deleted)
    case UpdateStockAction(lojaId, produtoId, varianteId, q, ok, reload) =>
      UpdateStock(s, lojaId, produtoId, varianteId, q, ok, reload).1
    case AdjustStockAction(lojaId, produtoId, varianteId, delta, ok, reload) =>
      AdjustStock(s, lojaId, produtoId, varianteId, delta, ok, reload).1
    case SetSearchTermAction(term) => s.(searchTerm := term)
    case SetSelectedCategoryAction(c) => s.(selectedCategory := c)
  }

  /** The state after a sequence of actions, in order. */
  function Run(s: ProductState, actions: seq<Action>): ProductState
    decreases |actions|
  {
    if actions == [] then s else Run(Apply(s, actions[0]), actions[1..])
  }

  /** No action assigns `variants`, so it keeps its initial value for ever. */
  lemma {:induction false} RunKeepsVariants(s: ProductState, actions: seq<Action>)
    ensures Run(s, actions).variants == s.variants
    decreases |actions|
  {
    if actions != [] {
      RunKeepsVariants(Apply(s, actions[0]), actions[1..]);
    }
  }

  /** Hence, from the initial state, `findByBarcode` only ever returns a
      product match, never a variant. */
  lemma BarcodeNeverFindsVariant(actions: seq<Action>, code: string)
    ensures var r := FindByBarcode(Run(InitialProducts(), actions), code);
      r.Some? ==> r.value.variant.None?
  {
    RunKeepsVariants(InitialProducts(), actions);
  }
}
