/** The stock page: how each active product is classified against the cached
    stock rows of the current store, the summary figures, and the manual
    entry/exit dialog that writes a new quantity and records a movement.
    `parseFloat` of the typed quantity is a parameter (`None` for NaN). */
module Estoque {
  import opened Common
  import opened Types
  import opened ProductStore

  // ---------------------------------------------------------------------------
  // Classification

  /** One listed product with its no-variant stock row and its two flags. */
  datatype ProductWithStock = ProductWithStock(
    product: Product, stock: Option<Stock>, isLowStock: bool, isZero: bool)

  /** The row the page shows for a product: the first cached row of that
      product whose variant id is falsy. */
  function StockOf(stocks: seq<Stock>, product: Product): (r: Option<Stock>)
    ensures r.Some? ==> r.value in stocks && r.value.produtoId == product.id && !TruthyId(r.value.varianteId)
    ensures r.Some? ==> exists i :: (0 <= i < |stocks| && stocks[i] == r.value
                                     && forall j :: 0 <= j < i ==>
                                          stocks[j].produtoId != product.id || TruthyId(stocks[j].varianteId))
    ensures r.None? ==> forall i :: 0 <= i < |stocks| ==>
              stocks[i].produtoId != product.id || TruthyId(stocks[i].varianteId)
  {
    Find(stocks, (st: Stock) => st.produtoId == product.id && !TruthyId(st.varianteId))
  }

  /** `stock && stock.quantidadeMinima && stock.quantidade <= stock.quantidadeMinima` */
  predicate LowStock(stock: Option<Stock>) {
    stock.Some? && TruthyNum(stock.value.quantidadeMinima)
    && stock.value.quantidade <= stock.value.quantidadeMinima.value
  }

  /** `stock ? stock.quantidade === 0 : true` */
  predicate ZeroStock(stock: Option<Stock>) {
    stock.None? || stock.value.quantidade == 0.0
  }

  function Classify(stocks: seq<Stock>, product: Product): (r: ProductWithStock)
    ensures r.product == product && r.stock == StockOf(stocks, product)
    ensures r.isZero <==> r.stock.None? || r.stock.value.quantidade == 0.0
    ensures r.isLowStock <==> r.stock.Some? && r.stock.value.quantidadeMinima.Some?
                              && r.stock.value.quantidadeMinima.value != 0.0
                              && r.stock.value.quantidade <= r.stock.value.quantidadeMinima.value
  {
    var stock := StockOf(stocks, product);
    ProductWithStock(product, stock, LowStock(stock), ZeroStock(stock))
  }

  datatype FilterType = All | Low | Zero

  /** The search and flag filter applied to a classified product. */
  predicate Shown(item: ProductWithStock, searchTerm: string, filterType: FilterType) {
    && (searchTerm != "" ==> Contains(Lower(item.product.nome), Lower(searchTerm)))
    && (filterType == Low ==> item.isLowStock)
    && (filterType == Zero ==> item.isZero)
  }

  function ClassifyAll(stocks: seq<Stock>, products: seq<Product>): (r: seq<ProductWithStock>)
    ensures |r| == |products|
    ensures forall i :: 0 <= i < |products| ==> r[i] == Classify(stocks, products[i])
  {
    seq(|products|, i requires 0 <= i < |products| => Classify(stocks, products[i]))
  }

  /** `productsWithStock`: the active products, classified, that pass the
      search term (lower-cased name only) and the selected flag filter. */
  function ProductsWithStock(products: seq<Product>, stocks: seq<Stock>, searchTerm: string,
                             filterType: FilterType): (r: seq<ProductWithStock>)
    ensures |r| <= |products|
    ensures forall i :: 0 <= i < |r| ==> r[i].product.ativo
    ensures forall i :: 0 <= i < |r| ==> r[i] == Classify(stocks, r[i].product) && r[i].product in products
    ensures filterType == Low ==> forall i :: 0 <= i < |r| ==> r[i].isLowStock
    ensures filterType == Zero ==> forall i :: 0 <= i < |r| ==> r[i].isZero
    ensures searchTerm != "" ==> forall i :: 0 <= i < |r| ==>
              Contains(Lower(r[i].product.nome), Lower(searchTerm))
    ensures forall i :: 0 <= i < |products| && products[i].ativo
                        && Shown(Classify(stocks, products[i]), searchTerm, filterType)
                        ==> Classify(stocks, products[i]) in r
  {
    var active := Filter(products, (p: Product) => p.ativo);
    var classified := ClassifyAll(stocks, active);
    var r := Filter(classified, (item: ProductWithStock) => Shown(item, searchTerm, filterType));
    assert forall i :: 0 <= i < |products| && products[i].ativo ==>
      products[i] in active && Classify(stocks, products[i]) in classified;
    r
  }

  /** The summary cards. */
  datatype Stats = Stats(total: nat, lowStock: nat, zeroStock: nat, totalValue: real)

  /** `stock?.quantidade || 0` */
  function ShownQuantity(item: ProductWithStock): (q: real)
    ensures q == 0.0 <==> item.stock.None? || item.stock.value.quantidade == 0.0
  {
    if item.stock.Some? then item.stock.value.quantidade else 0.0
  }

  /** `precoCusto || precoVenda`: the cost falls back to the sale price when it
      is missing or zero. */
  function UnitCost(product: Product): (c: real)
    ensures TruthyNum(product.precoCusto) ==> c == product.precoCusto.value
    ensures !TruthyNum(product.precoCusto) ==> c == product.precoVenda
  {
    NumOr(product.precoCusto, product.precoVenda)
  }

  function StockValue(item: ProductWithStock): real {
    ShownQuantity(item) * UnitCost(item.product)
  }

  function ComputeStats(items: seq<ProductWithStock>): (r: Stats)
    ensures r.total == |items|
    ensures r.lowStock == Count(items, (item: ProductWithStock) => item.isLowStock) <= r.total
    ensures r.zeroStock == Count(items, (item: ProductWithStock) => item.isZero) <= r.total
    ensures r.totalValue == Sum(items, StockValue)
  {
    Stats(|items|, Count(items, (item: ProductWithStock) => item.isLowStock),
          Count(items, (item: ProductWithStock) => item.isZero), Sum(items, StockValue))
  }

  /** The value sums non-negative terms when quantities and prices are. */
  lemma {:induction false} StockValueNonNegative(items: seq<ProductWithStock>)
    requires forall i :: 0 <= i < |items| ==> ShownQuantity(items[i]) >= 0.0 && UnitCost(items[i].product) >= 0.0
    ensures Sum(items, StockValue) >= 0.0
  {
    if items != [] {
      StockValueNonNegative(items[1..]);
    }
  }

  /** A count of a property every element has is the length. */
  lemma {:induction false} CountAll<T>(xs: seq<T>, p: T -> bool)
    requires forall i :: 0 <= i < |xs| ==> p(xs[i])
    ensures Count(xs, p) == |xs|
  {
    if xs != [] {
      CountAll(xs[1..], p);
    }
  }

  /** Under the "low" filter every listed product is low, so the low-stock
      card equals the total; likewise for "zero". */
  lemma FilteredStatsAgree(products: seq<Product>, stocks: seq<Stock>, searchTerm: string)
    ensures var r := ComputeStats(ProductsWithStock(products, stocks, searchTerm, Low));
      r.lowStock == r.total
    ensures var r := ComputeStats(ProductsWithStock(products, stocks, searchTerm, Zero));
      r.zeroStock == r.total
  {
    CountAll(ProductsWithStock(products, stocks, searchTerm, Low), (item: ProductWithStock) => item.isLowStock);
    CountAll(ProductsWithStock(products, stocks, searchTerm, Zero), (item: ProductWithStock) => item.isZero);
  }

  /** The "−" button is disabled exactly for the products flagged zero. */
  lemma ExitDisabledIffZero(stocks: seq<Stock>, product: Product)
    ensures ShownQuantity(Classify(stocks, product)) == 0.0 <==> Classify(stocks, product).isZero
  {
  }

  // ---------------------------------------------------------------------------
  // Movement dialog

  datatype Direction = Entry | Exit

  function MovementTipo(d: Direction): StockMovementType {
    match d
    case Entry => Entrada
    case Exit => Saida
  }

  datatype MovementDialog = MovementDialog(
    open: bool, selectedStock: Option<Stock>, movementType: Direction,
    quantityText: string, reason: string)

  /** `handleOpenMovement`: selects the product's row, or a fresh zero row for
      the current store when it has none (which dereferences `currentStore!`
      and fails without one), resets the form to an entry and opens. */
  function OpenMovement(d: MovementDialog, stock: Option<Stock>, product: Product,
                        currentStore: Option<Store>, freshId: Id, now: string): (r: Result<MovementDialog>)
    ensures stock.None? && currentStore.None? <==> r.Err?
    ensures r.Ok? ==> r.value.open && r.value.movementType == Entry
    ensures r.Ok? ==> r.value.quantityText == "" && r.value.reason == ""
    ensures r.Ok? && stock.Some? ==> r.value.selectedStock == stock
    ensures r.Ok? && stock.None? ==>
              r.value.selectedStock.Some? && r.value.selectedStock.value.quantidade == 0.0
              && r.value.selectedStock.value.produtoId == product.id
              && r.value.selectedStock.value.lojaId == currentStore.value.id
              && r.value.selectedStock.value.varianteId == Undefined
  {
    if stock.None? && currentStore.None? then Err("currentStore is null")
    else
      var selected := if stock.Some? then stock.value
                      else Stock(freshId, currentStore.value.id, product.id, Undefined, 0.0, None, None, now);
      Ok(MovementDialog(true, Some(selected), Entry, "", ""))
  }

  /** The "−" button: sets the type to exit, then opens the dialog, whose reset
      to entry is the last update applied. */
  function PressMinus(d: MovementDialog, stock: Option<Stock>, product: Product,
                      currentStore: Option<Store>, freshId: Id, now: string): (r: Result<MovementDialog>)
    ensures r.Ok? ==> r.value.movementType == Entry
  {
    OpenMovement(d.(movementType := Exit), stock, product, currentStore, freshId, now)
  }

  /** `selectedStock.quantidade || 0` */
  function Anterior(stock: Stock): (q: real)
    ensures q == stock.quantidade
  {
    NumOr(Some(stock.quantidade), 0.0)
  }

  /** The signed change a movement asks for. */
  function Delta(direction: Direction, q: real): (r: real)
    ensures direction == Entry ==> r == q
    ensures direction == Exit ==> r == -q
  {
    if direction == Entry then q else -q
  }

  /** The "Novo estoque" preview shown while a quantity is typed. */
  function Preview(d: MovementDialog, parsed: Option<real>): (r: Option<real>)
    ensures parsed.None? ==> r.None?
    ensures r.Some? ==> r.value >= 0.0
  {
    match parsed
    case None => None
    case Some(q) =>
      var anterior := if d.selectedStock.Some? then Anterior(d.selectedStock.value) else 0.0;
      Some(Max(0.0, anterior + Delta(d.movementType, q)))
  }

  /** The confirm button: disabled with no text or a number ≤ 0; NaN compares
      false, so text that does not parse leaves it enabled. */
  predicate ConfirmEnabled(d: MovementDialog, parsed: Option<real>) {
    d.quantityText != "" && !(parsed.Some? && parsed.value <= 0.0)
  }

  datatype SaveResult =
    | Skipped
      /** The stock write sent and the resulting store state; the movement
          sent; whether the dialog is still open (it stays open, with an
          alert, when recording the movement fails). */
    | Saved(request: StockUpsert, store: ProductState, movement: StockMovement, dialogOpen: bool)

  /** The guard of `handleSaveMovement`. */
  predicate CanSave(d: MovementDialog, currentStore: Option<Store>, currentUser: Option<User>,
                    parsed: Option<real>) {
    d.selectedStock.Some? && currentStore.Some? && currentUser.Some? && d.quantityText != ""
    && parsed.Some? && parsed.value > 0.0
  }

  /** `handleSaveMovement`: write max(0, anterior ± q) through `updateStock`
      (with no variant), then record a manual-adjustment movement of the
      requested q. `updateStock` never reports failure, so the movement is
      recorded whatever happened to the write. */
  function SaveMovement(ps: ProductState, d: MovementDialog, currentStore: Option<Store>,
                        currentUser: Option<User>, parsed: Option<real>, now: string,
                        upsertOk: bool, reload: Result<seq<StockRow>>, movementOk: bool): (r: SaveResult)
    ensures r.Skipped? <==> !CanSave(d, currentStore, currentUser, parsed)
    ensures r.Saved? ==> r.movement.quantidade == parsed.value
    ensures r.Saved? ==> r.movement.quantidadeAnterior == d.selectedStock.value.quantidade
    ensures r.Saved? ==> r.movement.quantidadePosterior == r.request.quantidade >= 0.0
    ensures r.Saved? ==> r.movement.tipo == MovementTipo(d.movementType)
    ensures r.Saved? ==> r.movement.referenciaTipo == Some(AjusteManual)
    ensures r.Saved? ==> r.movement.usuarioId == currentUser.value.id
    ensures r.Saved? ==> r.request.lojaId == currentStore.value.id == r.movement.lojaId
    ensures r.Saved? ==> r.request.produtoId == d.selectedStock.value.produtoId == r.movement.produtoId
    ensures r.Saved? ==> r.request.varianteId == Null && r.movement.varianteId == Undefined
    ensures r.Saved? ==> (r.dialogOpen <==> !movementOk)
  {
    if !CanSave(d, currentStore, currentUser, parsed) then Skipped
    else
      var stock := d.selectedStock.value;
      var q := parsed.value;
      var anterior := Anterior(stock);
      var newQuantity := Max(0.0, anterior + Delta(d.movementType, q));
      var written := UpdateStock(ps, currentStore.value.id, stock.produtoId, Undefined, newQuantity, upsertOk, reload);
      var movement := StockMovement(
        currentStore.value.id, stock.produtoId, Undefined, currentUser.value.id,
        MovementTipo(d.movementType), q, anterior, newQuantity,
        NonEmpty(d.reason), Some(AjusteManual), now, now);
      Saved(written.0, written.1, movement, !movementOk)
  }

  /** The saved posterior quantity is the preview the dialog showed. */
  lemma SavedMatchesPreview(ps: ProductState, d: MovementDialog, currentStore: Option<Store>,
                            currentUser: Option<User>, parsed: Option<real>, now: string,
                            upsertOk: bool, reload: Result<seq<StockRow>>, movementOk: bool)
    requires CanSave(d, currentStore, currentUser, parsed)
    ensures SaveMovement(ps, d, currentStore, currentUser, parsed, now, upsertOk, reload, movementOk).movement.quantidadePosterior
            == Preview(d, parsed).value
  {
  }

  /** A failed stock write changes nothing in the recorded movement. */
  lemma MovementIgnoresWriteOutcome(ps: ProductState, d: MovementDialog, currentStore: Option<Store>,
                                    currentUser: Option<User>, parsed: Option<real>, now: string,
                                    reload: Result<seq<StockRow>>, movementOk: bool)
    requires CanSave(d, currentStore, currentUser, parsed)
    ensures SaveMovement(ps, d, currentStore, currentUser, parsed, now, false, reload, movementOk).movement
            == SaveMovement(ps, d, currentStore, currentUser, parsed, now, true, reload, movementOk).movement
    ensures SaveMovement(ps, d, currentStore, currentUser, parsed, now, false, reload, movementOk).store == ps
  {
  }

  /** An exit larger than the stock on hand is clamped: the quantity actually
      removed is min(q, anterior), while the movement records q. */
  lemma ClampedExit(ps: ProductState, d: MovementDialog, currentStore: Option<Store>,
                    currentUser: Option<User>, parsed: Option<real>, now: string,
                    upsertOk: bool, reload: Result<seq<StockRow>>, movementOk: bool)
    requires CanSave(d, currentStore, currentUser, parsed)
    requires d.movementType == Exit && d.selectedStock.value.quantidade >= 0.0
    ensures var m := SaveMovement(ps, d, currentStore, currentUser, parsed, now, upsertOk, reload, movementOk).movement;
      && m.quantidadeAnterior - m.quantidadePosterior == Min(m.quantidade, m.quantidadeAnterior)
      && (m.quantidade > m.quantidadeAnterior ==> m.quantidadeAnterior - m.quantidadePosterior < m.quantidade)
  {
  }

  /** Entries simply add: the stock on hand grows by exactly q. */
  lemma EntryAdds(ps: ProductState, d: MovementDialog, currentStore: Option<Store>,
                  currentUser: Option<User>, parsed: Option<real>, now: string,
                  upsertOk: bool, reload: Result<seq<StockRow>>, movementOk: bool)
    requires CanSave(d, currentStore, currentUser, parsed)
    requires d.movementType == Entry && d.selectedStock.value.quantidade >= 0.0
    ensures var m := SaveMovement(ps, d, currentStore, currentUser, parsed, now, upsertOk, reload, movementOk).movement;
      m.quantidadePosterior == m.quantidadeAnterior + m.quantidade
  {
  }
}
