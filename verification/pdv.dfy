/** The point-of-sale page: the product grid and its add guards, the payment
    dialog's change and confirm rules, and `handleFinishSale` as a sequence of
    remote effects over the abstract outcome of each call. `parseFloat` of the
    received amount is carried with the text it was parsed from. */
module Pdv {
  import opened Common
  import opened Types
  import opened CartStore
  import opened ProductStore

  // ---------------------------------------------------------------------------
  // Product grid

  /** The grid's text test: the lower-cased name or the raw bar code contains
      the lower-cased term; the internal code is not searched. */
  predicate GridMatches(p: Product, searchTerm: string) {
    var term := Lower(searchTerm);
    Contains(Lower(p.nome), term) || OptContains(p.codigoBarras, term)
  }

  predicate GridListed(p: Product, selectedCategory: Option<Id>, searchTerm: string) {
    && p.ativo
    && (TruthyStr(selectedCategory) ==> p.categoriaId == selectedCategory)
    && (searchTerm != "" ==> GridMatches(p, searchTerm))
  }

  /** `filteredProducts` of the page. */
  function GridProducts(products: seq<Product>, selectedCategory: Option<Id>, searchTerm: string)
    : (r: seq<Product>)
    ensures forall i :: 0 <= i < |r| ==> r[i] in products && r[i].ativo
    ensures TruthyStr(selectedCategory) ==> forall i :: 0 <= i < |r| ==> r[i].categoriaId == selectedCategory
    ensures searchTerm != "" ==> forall i :: 0 <= i < |r| ==> GridMatches(r[i], searchTerm)
    ensures forall i :: 0 <= i < |products| && GridListed(products[i], selectedCategory, searchTerm)
                        ==> products[i] in r
  {
    Filter(products, (p: Product) => GridListed(p, selectedCategory, searchTerm))
  }

  /** Everything the grid shows, the store's `getFilteredProducts` would show
      for the same term and category; the store also searches internal codes. */
  lemma GridWithinStoreFilter(s: ProductState)
    ensures var grid := GridProducts(s.products, s.selectedCategory, s.searchTerm);
      forall i :: 0 <= i < |grid| ==> grid[i] in GetFilteredProducts(s)
  {
    var grid := GridProducts(s.products, s.selectedCategory, s.searchTerm);
    forall i | 0 <= i < |grid|
      ensures grid[i] in GetFilteredProducts(s)
    {
      assert Listed(grid[i], s.selectedCategory, s.searchTerm);
      var k :| 0 <= k < |s.products| && s.products[k] == grid[i];
    }
  }

  /** A product found only by its internal code is in the store's list but not
      in the grid. */
  lemma InternalCodeNotInGrid()
    ensures var p := Product("p", "e", None, "Agua", Some("x9"), None, None, 2.0, true);
      var s := ProductState([p], [], [], [], false, None, "x9", None);
      GridProducts(s.products, s.selectedCategory, s.searchTerm) == []
      && GetFilteredProducts(s) == [p]
  {
    var p := Product("p", "e", None, "Agua", Some("x9"), None, None, 2.0, true);
    assert Lower("Agua") == "agua";
    assert Lower("x9") == "x9";
    assert !Contains("agua", "x9") by {
      assert "agua"[..2] != "x9";
      assert "agua"[1..][..2] != "x9";
      assert "agua"[1..][1..][..2] != "x9";
      assert "agua"[1..][1..] == "ua";
      assert "agua"[1..][1..][1..] == "a";
    }
    assert Contains("x9", "x9") by { assert "x9"[..2] == "x9"; }
    assert !GridListed(p, None, "x9");
    assert Listed(p, None, "x9");
  }

  /** `getStock`: the first cached row of the product in the current store,
      whatever its variant; nothing without a store. */
  function GetStock(stocks: seq<Stock>, currentStore: Option<Store>, productId: Id): (r: Option<Stock>)
    ensures currentStore.None? ==> r.None?
    ensures r.Some? ==> r.value in stocks && r.value.produtoId == productId
                        && r.value.lojaId == currentStore.value.id
    ensures currentStore.Some? && r.None? ==> forall i :: 0 <= i < |stocks| ==>
              stocks[i].produtoId != productId || stocks[i].lojaId != currentStore.value.id
  {
    if currentStore.None? then None
    else Find(stocks, (st: Stock) => st.produtoId == productId && st.lojaId == currentStore.value.id)
  }

  /** `stock && stock.quantidade <= 0`: a product without a row is not out of stock. */
  predicate OutOfStock(stock: Option<Stock>) {
    stock.Some? && stock.value.quantidade <= 0.0
  }

  /** What the checkout page holds between clicks. */
  datatype Checkout = Checkout(cart: CartState, searchTerm: string)

  /** A click on a product card: ignored when out of stock, otherwise one unit
      is added and the search box is cleared. */
  function ClickProduct(c: Checkout, stocks: seq<Stock>, currentStore: Option<Store>,
                        product: Product, freshId: Id): (r: Checkout)
    ensures OutOfStock(GetStock(stocks, currentStore, product.id)) ==> r == c
    ensures !OutOfStock(GetStock(stocks, currentStore, product.id)) ==>
              r.searchTerm == "" && r.cart == AddItem(c.cart, product, None, 1.0, freshId)
  {
    if OutOfStock(GetStock(stocks, currentStore, product.id)) then c
    else Checkout(AddItem(c.cart, product, None, 1.0, freshId), "")
  }

  /** Enter in the search box: a bar-code hit is added (one unit, with its
      variant) and the term cleared; no hit, or an empty term, changes nothing. */
  function BarcodeEnter(c: Checkout, s: ProductState, freshId: Id): (r: Checkout)
    ensures c.searchTerm == "" || FindByBarcode(s, c.searchTerm).None? ==> r == c
    ensures c.searchTerm != "" && FindByBarcode(s, c.searchTerm).Some? ==>
              && r.searchTerm == ""
              && r.cart == AddItem(c.cart, FindByBarcode(s, c.searchTerm).value.product,
                                   FindByBarcode(s, c.searchTerm).value.variant, 1.0, freshId)
  {
    if c.searchTerm == "" then c
    else match FindByBarcode(s, c.searchTerm)
      case None => c
      case Some(hit) => Checkout(AddItem(c.cart, hit.product, hit.variant, 1.0, freshId), "")
  }

  /** A product with no row in the store can always be clicked into the cart,
      and the out-of-stock guard ignores the stock of other stores. */
  lemma NoRowIsAddable(c: Checkout, stocks: seq<Stock>, store: Store, product: Product, freshId: Id)
    requires forall i :: 0 <= i < |stocks| ==> stocks[i].produtoId != product.id || stocks[i].lojaId != store.id
    ensures ClickProduct(c, stocks, Some(store), product, freshId).cart == AddItem(c.cart, product, None, 1.0, freshId)
  {
  }

  // ---------------------------------------------------------------------------
  // Payment dialog

  /** The received-amount field: its text and `parseFloat` of it (`None` for NaN). */
  datatype Received = Received(text: string, parsed: Option<real>)

  /** `change` / `troco`: for cash with a non-empty amount, max(0, received −
      total); 0 otherwise. `None` is the NaN an unparsable amount produces. */
  function Change(forma: PaymentMethod, received: Received, total: real): (r: Option<real>)
    ensures forma != Dinheiro || received.text == "" ==> r == Some(0.0)
    ensures forma == Dinheiro && received.text != "" ==>
              (r.None? <==> received.parsed.None?)
    ensures r.Some? ==> r.value >= 0.0
    ensures r.Some? && r.value > 0.0 ==> r.value == received.parsed.value - total
  {
    if forma == Dinheiro && received.text != "" then
      match received.parsed
      case None => None
      case Some(v) => Some(Max(0.0, v - total))
    else Some(0.0)
  }

  /** `troco > 0 ? troco : undefined` (NaN > 0 is false). */
  function StoredTroco(change: Option<real>): (r: Option<real>)
    ensures r.Some? ==> r.value > 0.0 && change == r
    ensures change.Some? && change.value > 0.0 ==> r == change
  {
    if change.Some? && change.value > 0.0 then change else None
  }

  /** A change is stored exactly when cash is paid with a parsable amount above
      the total, and then amount = total + change. */
  lemma StoredTrocoExactly(forma: PaymentMethod, received: Received, total: real)
    ensures var t := StoredTroco(Change(forma, received, total));
      t.Some? <==> forma == Dinheiro && received.text != "" && received.parsed.Some?
                   && received.parsed.value > total
    ensures var t := StoredTroco(Change(forma, received, total));
      t.Some? ==> received.parsed.value == total + t.value
  {
  }

  /** The confirm button: disabled while processing, or for cash when a
      non-empty amount parses below the total. An empty or unparsable amount
      does not disable it. */
  predicate ConfirmEnabled(isProcessing: bool, forma: PaymentMethod, received: Received, total: real) {
    !(isProcessing
      || (forma == Dinheiro && received.text != "" && received.parsed.Some? && received.parsed.value < total))
  }

  /** With confirm enabled, a parsed cash amount covers the total, so the
      change is exactly the excess and never clamped. */
  lemma EnabledChangeIsExact(forma: PaymentMethod, received: Received, total: real)
    requires ConfirmEnabled(false, forma, received, total)
    requires forma == Dinheiro && received.text != "" && received.parsed.Some?
    ensures Change(forma, received, total) == Some(received.parsed.value - total)
  {
  }

  // ---------------------------------------------------------------------------
  // Finishing a sale

  /** The sale record sent: no customer, no discount fields. */
  datatype SaleDraft = SaleDraft(
    lojaId: Id, usuarioId: Id, numero: int, status: SaleStatus,
    subtotal: real, total: real, createdAt: string, updatedAt: string)

  /** One item record sent: no line-discount fields. */
  datatype SaleItemDraft = SaleItemDraft(
    produtoId: Id, varianteId: MaybeId, quantidade: real, precoUnitario: real,
    precoCusto: Option<real>, subtotal: real, createdAt: string)

  datatype PaymentDraft = PaymentDraft(
    vendaId: Id, formaPagamento: PaymentMethod, valor: real, troco: Option<real>, createdAt: string)

  /** The remote calls `handleFinishSale` makes, in order. */
  datatype Effect =
    | NextSaleNumber(lojaId: Id)
    | CreateSale(sale: SaleDraft, items: seq<SaleItemDraft>)
    | LookupSale(lojaId: Id, numero: int)
    | CreatePayment(payment: PaymentDraft)
    | AdjustStockCall(lojaId: Id, produtoId: Id, varianteId: MaybeId, delta: real)
    | ReloadStocks(lojaId: Id)

  /** What the success dialog shows. */
  datatype LastSale = LastSale(numero: int, total: real, troco: Option<real>)

  datatype FinishOutcome =
    | NotStarted
      /** An exception was caught and alerted; the cart is kept. */
    | Aborted(effects: seq<Effect>, cart: CartState)
    | Completed(effects: seq<Effect>, cart: CartState, lastSale: LastSale)

  function ToDraftItem(item: CartItem, now: string): (r: SaleItemDraft)
    ensures r.produtoId == item.produtoId && r.varianteId == item.varianteId
    ensures r.quantidade == item.quantidade && r.subtotal == item.subtotal
    ensures r.precoCusto == item.produto.precoCusto
  {
    SaleItemDraft(item.produtoId, item.varianteId, item.quantidade, item.precoUnitario,
                  item.produto.precoCusto, item.subtotal, now)
  }

  /** One `adjustStock(store, produtoId, varianteId, -quantidade)` per cart
      line, in cart order. */
  function StockCalls(lojaId: Id, items: seq<CartItem>): (r: seq<Effect>)
    ensures |r| == |items|
    ensures forall i :: 0 <= i < |items| ==>
              r[i] == AdjustStockCall(lojaId, items[i].produtoId, items[i].varianteId, -items[i].quantidade)
  {
    seq(|items|, i requires 0 <= i < |items| =>
      AdjustStockCall(lojaId, items[i].produtoId, items[i].varianteId, -items[i].quantidade))
  }

  predicate IsStockCall(e: Effect) { e.AdjustStockCall? }
  predicate IsPayment(e: Effect) { e.CreatePayment? }

  /** The `createSale` call: the sale record and one item record per line. */
  function CreateSaleCall(cart: CartState, lojaId: Id, usuarioId: Id, numero: int, now: string): (e: Effect)
    ensures e.CreateSale? && e.sale.numero == numero && e.sale.status == Finalizada
    ensures e.sale.subtotal == cart.subtotal && e.sale.total == cart.total
    ensures e.sale.lojaId == lojaId && e.sale.usuarioId == usuarioId
    ensures |e.items| == |cart.items|
    ensures forall i :: 0 <= i < |cart.items| ==> e.items[i] == ToDraftItem(cart.items[i], now)
  {
    var sale := SaleDraft(lojaId, usuarioId, numero, Finalizada, cart.subtotal, cart.total, now, now);
    CreateSale(sale, seq(|cart.items|, i requires 0 <= i < |cart.items| => ToDraftItem(cart.items[i], now)))
  }

  /** The payment call, made only when the lookup found the sale's row. */
  function PaymentCalls(createdId: Option<Id>, forma: PaymentMethod, received: Received,
                        total: real, now: string): (r: seq<Effect>)
    ensures createdId.None? ==> r == []
    ensures createdId.Some? ==> |r| == 1 && r[0].CreatePayment?
    ensures createdId.Some? ==> r[0].payment.valor == total && r[0].payment.vendaId == createdId.value
    ensures createdId.Some? ==> r[0].payment.troco == StoredTroco(Change(forma, received, total))
  {
    if createdId.None? then []
    else [CreatePayment(PaymentDraft(createdId.value, forma, total, StoredTroco(Change(forma, received, total)), now))]
  }

  /** The calls up to the payment, for a sale created with number `numero`:
      number, sale, lookup, and the payment when the lookup found the row. */
  function SaleCalls(cart: CartState, lojaId: Id, usuarioId: Id, numero: int, now: string,
                     forma: PaymentMethod, received: Received, createdId: Option<Id>): (r: seq<Effect>)
    ensures |r| == if createdId.Some? then 4 else 3
    ensures r[0] == NextSaleNumber(lojaId) && r[1] == CreateSaleCall(cart, lojaId, usuarioId, numero, now)
    ensures r[2] == LookupSale(lojaId, numero)
    ensures createdId.Some? ==> r[3] == PaymentCalls(createdId, forma, received, cart.total, now)[0]
  {
    [NextSaleNumber(lojaId), CreateSaleCall(cart, lojaId, usuarioId, numero, now), LookupSale(lojaId, numero)]
    + PaymentCalls(createdId, forma, received, cart.total, now)
  }

  /** `handleFinishSale`. The outcomes of the remote calls are parameters:
      the next sale number (or the error it threw), `createSale`'s boolean,
      the id the lookup by (store, number) returned, and whether
      `createPayment` succeeded. On success the cart is cleared, which leaves
      it `EmptyCart()` (see `ClearCart`). */
  function FinishSale(cart: CartState, currentStore: Option<Store>, currentUser: Option<User>,
                      forma: PaymentMethod, received: Received, now: string,
                      saleNumber: Result<int>, saleCreated: bool, createdId: Option<Id>,
                      paymentOk: bool): (r: FinishOutcome)
    ensures r.NotStarted? <==> currentStore.None? || currentUser.None? || cart.items == []
    ensures r.Aborted? ==> r.cart == cart
    ensures !r.NotStarted? && saleNumber.Err? ==> r == Aborted([NextSaleNumber(currentStore.value.id)], cart)
    ensures !r.NotStarted? && saleNumber.Ok? && !saleCreated ==> r.Aborted? && |r.effects| == 2
    ensures r.Aborted? ==> forall i :: 0 <= i < |r.effects| ==> !IsStockCall(r.effects[i])
    ensures r.Completed? <==> !r.NotStarted? && saleNumber.Ok? && saleCreated && (createdId.None? || paymentOk)
    ensures r.Completed? ==> r.cart == EmptyCart()
    ensures r.Completed? ==> r.lastSale.numero == saleNumber.value && r.lastSale.total == cart.total
  {
    if currentStore.None? || currentUser.None? || cart.items == [] then NotStarted
    else
      var lojaId := currentStore.value.id;
      match saleNumber
      case Err(_) => Aborted([NextSaleNumber(lojaId)], cart)
      case Ok(numero) =>
        var calls := SaleCalls(cart, lojaId, currentUser.value.id, numero, now, forma, received, createdId);
        if !saleCreated then Aborted(calls[..2], cart)
        else if createdId.Some? && !paymentOk then Aborted(calls, cart)
        else
          Completed(calls + StockCalls(lojaId, cart.items) + [ReloadStocks(lojaId)],
                    EmptyCart(), LastSale(numero, cart.total, Change(forma, received, cart.total)))
  }

  /** On success the effects are: number, sale with its items, lookup, the
      payment when the lookup found the row, one stock decrement per line, the
      reload. The stock calls are exactly `StockCalls` of the cart. */
  lemma FinishSaleEffects(cart: CartState, store: Store, user: User, forma: PaymentMethod,
                          received: Received, now: string, numero: int, createdId: Option<Id>,
                          paymentOk: bool)
    requires cart.items != []
    requires createdId.None? || paymentOk
    ensures var r := FinishSale(cart, Some(store), Some(user), forma, received, now,
                                Ok(numero), true, createdId, paymentOk);
      var head := if createdId.Some? then 4 else 3;
      && r.Completed?
      && |r.effects| == head + |cart.items| + 1
      && r.effects[0] == NextSaleNumber(store.id)
      && r.effects[1].CreateSale? && r.effects[2] == LookupSale(store.id, numero)
      && (createdId.Some? <==> IsPayment(r.effects[3]))
      && r.effects[head..head + |cart.items|] == StockCalls(store.id, cart.items)
      && r.effects[|r.effects| - 1] == ReloadStocks(store.id)
  {
    var r := FinishSale(cart, Some(store), Some(user), forma, received, now, Ok(numero), true, createdId, paymentOk);
    var calls := SaleCalls(cart, store.id, user.id, numero, now, forma, received, createdId);
    var stock := StockCalls(store.id, cart.items);
    assert r.effects == calls + stock + [ReloadStocks(store.id)];
    assert r.effects[|calls|..|calls| + |cart.items|] == stock;
  }

  /** The sale record carries the cart's subtotal and total, and its items the
      cart's lines in order. */
  lemma FinishSaleRecords(cart: CartState, store: Store, user: User, forma: PaymentMethod,
                          received: Received, now: string, numero: int, createdId: Option<Id>,
                          paymentOk: bool)
    requires cart.items != []
    ensures var r := FinishSale(cart, Some(store), Some(user), forma, received, now,
                                Ok(numero), true, createdId, paymentOk);
      var e := r.effects[1];
      && e.CreateSale?
      && e.sale.subtotal == cart.subtotal && e.sale.total == cart.total
      && e.sale.status == Finalizada && e.sale.numero == numero
      && |e.items| == |cart.items|
      && forall i :: 0 <= i < |cart.items| ==> e.items[i] == ToDraftItem(cart.items[i], now)
  {
    var calls := SaleCalls(cart, store.id, user.id, numero, now, forma, received, createdId);
    assert calls[1] == CreateSaleCall(cart, store.id, user.id, numero, now);
  }

  /** The payment sent, when there is one: the full total, with the change
      only when positive. */
  lemma FinishSalePayment(cart: CartState, store: Store, user: User, forma: PaymentMethod,
                          received: Received, now: string, numero: int, createdId: Id,
                          paymentOk: bool)
    requires cart.items != []
    ensures var r := FinishSale(cart, Some(store), Some(user), forma, received, now,
                                Ok(numero), true, Some(createdId), paymentOk);
      && r.effects[3] == CreatePayment(PaymentDraft(createdId, forma, cart.total,
                                                    StoredTroco(Change(forma, received, cart.total)), now))
  {
    var calls := SaleCalls(cart, store.id, user.id, numero, now, forma, received, Some(createdId));
    assert calls[3] == PaymentCalls(Some(createdId), forma, received, cart.total, now)[0];
  }

  /** A failed `createSale` stops before any payment, stock change or clearing:
      the only calls made are the number and the sale itself. */
  lemma FailedSaleKeepsCart(cart: CartState, store: Store, user: User, forma: PaymentMethod,
                            received: Received, now: string, numero: int, createdId: Option<Id>,
                            paymentOk: bool)
    requires cart.items != []
    ensures var r := FinishSale(cart, Some(store), Some(user), forma, received, now,
                                Ok(numero), false, createdId, paymentOk);
      && r.Aborted? && r.cart == cart && |r.effects| == 2
      && !IsPayment(r.effects[0]) && !IsPayment(r.effects[1])
  {
  }
}
