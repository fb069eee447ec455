/** The checkout cart (`useCartStore`): line pricing, the order discount, the
    derived totals and every action of the store, as pure transitions on an
    immutable cart state. Each action returns the state the store holds once
    the action (including its trailing `recalculate`) has finished. */
module CartStore {
  import opened Common
  import opened Types

  datatype CartState = CartState(
    items: seq<CartItem>,
    cliente: Option<Customer>,
    descontoTipo: Option<DiscountType>,
    descontoValor: real,
    observacoes: string,
    // derived by Recalculate
    subtotal: real,
    descontoTotal: real,
    total: real,
    itemCount: real)

  /** The state the store starts in and `clearCart` restores. */
  function EmptyCart(): CartState {
    CartState([], None, None, 0.0, "", 0.0, 0.0, 0.0, 0.0)
  }

  function Base(item: CartItem): real {
    item.quantidade * item.precoUnitario
  }

  /** True when the line carries a discount that `calculateItemSubtotal` applies:
      a kind and a truthy (present, non-zero) value. */
  predicate HasLineDiscount(item: CartItem) {
    item.descontoTipo.Some? && TruthyNum(item.descontoValor)
  }

  /** `calculateItemSubtotal`: the line total after its own discount. An amount
      discount is floored at zero; a percentage discount is not. */
  function ItemSubtotal(item: CartItem): (r: real)
    ensures !HasLineDiscount(item) ==> r == Base(item)
    ensures HasLineDiscount(item) && item.descontoTipo.value == Valor ==> r >= 0.0
    ensures Base(item) >= 0.0 && item.descontoValor.Some? && item.descontoValor.value >= 0.0
            ==> r <= Base(item)
  {
    var base := Base(item);
    if !HasLineDiscount(item) then base
    else if item.descontoTipo.value == Percentual then
      base * (1.0 - item.descontoValor.value / 100.0)
    else
      Max(0.0, base - item.descontoValor.value)
  }

  /** `calculateDiscount`: the order-level discount amount for a subtotal. */
  function OrderDiscount(subtotal: real, tipo: Option<DiscountType>, valor: real): (r: real)
    ensures tipo.None? || valor == 0.0 ==> r == 0.0
    ensures tipo == Some(Valor) && valor != 0.0 ==> r <= subtotal
    ensures tipo == Some(Valor) && valor >= 0.0 && subtotal >= 0.0 ==> 0.0 <= r
    ensures tipo == Some(Percentual) && 0.0 <= valor <= 100.0 && subtotal >= 0.0
            ==> 0.0 <= r <= subtotal
  {
    if tipo.None? || valor == 0.0 then 0.0
    else if tipo.value == Percentual then
      PercentOfBase(subtotal, valor);
      subtotal * (valor / 100.0)
    else Min(subtotal, valor)
  }

  lemma PercentOfBase(base: real, pct: real)
    ensures 0.0 <= pct <= 100.0 && base >= 0.0 ==> 0.0 <= base * (pct / 100.0) <= base
  {
    if 0.0 <= pct <= 100.0 && base >= 0.0 {
      var f := pct / 100.0;
      assert 0.0 <= f <= 1.0;
      assert base * (1.0 - f) >= 0.0;
    }
  }

  function LineSubtotal(item: CartItem): real { item.subtotal }
  function LineQuantity(item: CartItem): real { item.quantidade }

  /** Every line's stored subtotal is what `calculateItemSubtotal` gives for it. */
  predicate LinesPriced(items: seq<CartItem>) {
    forall i :: 0 <= i < |items| ==> items[i].subtotal == ItemSubtotal(items[i])
  }

  /** The derived fields agree with the lines and the order discount. */
  predicate TotalsDerived(c: CartState) {
    && c.subtotal == Sum(c.items, LineSubtotal)
    && c.descontoTotal == OrderDiscount(c.subtotal, c.descontoTipo, c.descontoValor)
    && c.total == c.subtotal - c.descontoTotal
    && c.itemCount == Sum(c.items, LineQuantity)
  }

  /** The invariant every action of the store re-establishes. */
  predicate Consistent(c: CartState) {
    LinesPriced(c.items) && TotalsDerived(c)
  }

  /** `recalculate`: recompute subtotal, discount, total and item count. */
  function Recalculate(c: CartState): (r: CartState)
    ensures TotalsDerived(r)
    ensures r.items == c.items && r.cliente == c.cliente && r.observacoes == c.observacoes
    ensures r.descontoTipo == c.descontoTipo && r.descontoValor == c.descontoValor
    ensures LinesPriced(c.items) ==> Consistent(r)
    ensures TotalsDerived(c) ==> r == c
  {
    var subtotal := Sum(c.items, LineSubtotal);
    var desconto := OrderDiscount(subtotal, c.descontoTipo, c.descontoValor);
    c.(subtotal := subtotal, descontoTotal := desconto, total := subtotal - desconto,
       itemCount := Sum(c.items, LineQuantity))
  }

  /** The line `addItem` merges into: the first one with the same product id and
      a strictly equal variant id. */
  function FindLine(items: seq<CartItem>, produtoId: Id, varianteId: MaybeId): (r: Option<nat>)
    ensures r.Some? ==> r.value < |items|
    ensures r.Some? ==> items[r.value].produtoId == produtoId && items[r.value].varianteId == varianteId
    ensures r.Some? ==> forall j :: 0 <= j < r.value ==>
      !(items[j].produtoId == produtoId && items[j].varianteId == varianteId)
    ensures r.None? ==> forall j :: 0 <= j < |items| ==>
      !(items[j].produtoId == produtoId && items[j].varianteId == varianteId)
  {
    if items == [] then None
    else if items[0].produtoId == produtoId && items[0].varianteId == varianteId then Some(0)
    else match FindLine(items[1..], produtoId, varianteId)
      case None => None
      case Some(k) => Some(k + 1)
  }

  /** `getItemByProductId`: strict comparison of the variant id as given. */
  function GetItemByProductId(c: CartState, produtoId: Id, varianteId: MaybeId): (r: Option<CartItem>)
    ensures r.Some? ==> r.value in c.items && r.value.produtoId == produtoId
                        && r.value.varianteId == varianteId
    ensures r.Some? ==> exists i :: (0 <= i < |c.items| && c.items[i] == r.value
                                     && forall j :: 0 <= j < i ==>
                                          !(c.items[j].produtoId == produtoId && c.items[j].varianteId == varianteId))
    ensures r.None? ==> forall j :: 0 <= j < |c.items| ==>
      !(c.items[j].produtoId == produtoId && c.items[j].varianteId == varianteId)
  {
    match FindLine(c.items, produtoId, varianteId)
    case None => None
    case Some(i) => Some(c.items[i])
  }

  /** The line with quantity `q`, its subtotal recomputed. */
  function WithQuantity(item: CartItem, q: real): (r: CartItem)
    ensures r.quantidade == q && r.subtotal == ItemSubtotal(r)
    ensures r.(quantidade := item.quantidade, subtotal := item.subtotal) == item
  {
    var updated := item.(quantidade := q);
    updated.(subtotal := ItemSubtotal(updated))
  }

  /** `items.map(item => item.id === id ? f(item) : item)`. */
  function MapLine(items: seq<CartItem>, id: Id, f: CartItem -> CartItem): (r: seq<CartItem>)
    ensures |r| == |items|
    ensures forall i :: 0 <= i < |items| && items[i].id == id ==> r[i] == f(items[i])
    ensures forall i :: 0 <= i < |items| && items[i].id != id ==> r[i] == items[i]
  {
    seq(|items|, i requires 0 <= i < |items| => if items[i].id == id then f(items[i]) else items[i])
  }

  predicate UniqueIds(items: seq<CartItem>) {
    forall i, j :: 0 <= i < j < |items| ==> items[i].id != items[j].id
  }

  /** The price a new line is snapshotted at: `variante?.precoVenda ?? produto.precoVenda`. */
  function UnitPrice(produto: Product, variante: Option<ProductVariant>): (r: real)
    ensures variante.Some? && variante.value.precoVenda.Some? ==> r == variante.value.precoVenda.value
    ensures variante.None? || variante.value.precoVenda.None? ==> r == produto.precoVenda
  {
    if variante.Some? && variante.value.precoVenda.Some? then variante.value.precoVenda.value
    else produto.precoVenda
  }

  /** The variant id a new line records: `variante?.id`. */
  function VariantIdOf(variante: Option<ProductVariant>): MaybeId {
    if variante.Some? then Id(variante.value.id) else Undefined
  }

  /** The new line `addItem` appends when nothing merges. */
  function NewLine(freshId: Id, produto: Product, variante: Option<ProductVariant>, quantidade: real): (r: CartItem)
    ensures r.subtotal == ItemSubtotal(r)
    ensures r.precoUnitario == UnitPrice(produto, variante) && r.quantidade == quantidade
    ensures r.produtoId == produto.id && r.varianteId == VariantIdOf(variante)
    ensures r.descontoTipo.None? && r.descontoValor.None?
  {
    var preco := UnitPrice(produto, variante);
    CartItem(freshId, produto.id, VariantIdOf(variante), produto, variante,
             quantidade, preco, None, None, quantidade * preco)
  }

  /** `addItem(produto, variante, quantidade)`; `freshId` is the id `generateId`
      would return. The quantity is not validated. The lookup compares the line's
      variant id with `variante?.id || undefined`. */
  function AddItem(c: CartState, produto: Product, variante: Option<ProductVariant>,
                   quantidade: real, freshId: Id): (r: CartState)
    ensures LinesPriced(c.items) ==> Consistent(r)
    ensures r.cliente == c.cliente && r.observacoes == c.observacoes
    ensures r.descontoTipo == c.descontoTipo && r.descontoValor == c.descontoValor
  {
    var key := OrUndefined(VariantIdOf(variante));
    match FindLine(c.items, produto.id, key)
    case Some(i) =>
      var existing := c.items[i];
      Recalculate(c.(items := MapLine(c.items, existing.id,
                                      (item: CartItem) => WithQuantity(item, item.quantidade + quantidade))))
    case None =>
      Recalculate(c.(items := c.items + [NewLine(freshId, produto, variante, quantidade)]))
  }

  /** `removeItem(itemId)`: drop every line with that id. */
  function RemoveItem(c: CartState, itemId: Id): (r: CartState)
    ensures LinesPriced(c.items) ==> Consistent(r)
    ensures forall i :: 0 <= i < |r.items| ==> r.items[i].id != itemId && r.items[i] in c.items
    ensures forall i :: 0 <= i < |c.items| && c.items[i].id != itemId ==> c.items[i] in r.items
    ensures (forall i :: 0 <= i < |c.items| ==> c.items[i].id != itemId) ==> r.items == c.items
    ensures r.cliente == c.cliente && r.observacoes == c.observacoes
    ensures r.descontoTipo == c.descontoTipo && r.descontoValor == c.descontoValor
  {
    FilterKeepsAll(c.items, itemId);
    Recalculate(c.(items := Filter(c.items, (item: CartItem) => item.id != itemId)))
  }

  lemma {:induction false} FilterKeepsAll(items: seq<CartItem>, itemId: Id)
    ensures (forall i :: 0 <= i < |items| ==> items[i].id != itemId)
            ==> Filter(items, (item: CartItem) => item.id != itemId) == items
  {
    if items != [] {
      FilterKeepsAll(items[1..], itemId);
    }
  }

  /** `updateItemQuantity(itemId, quantidade)`. */
  function UpdateItemQuantity(c: CartState, itemId: Id, quantidade: real): (r: CartState)
    ensures quantidade <= 0.0 ==> r == RemoveItem(c, itemId)
    ensures quantidade > 0.0 ==> |r.items| == |c.items|
    ensures quantidade > 0.0 ==> forall i :: 0 <= i < |c.items| && c.items[i].id == itemId ==>
      r.items[i] == WithQuantity(c.items[i], quantidade)
    ensures quantidade > 0.0 ==> forall i :: 0 <= i < |c.items| && c.items[i].id != itemId ==>
      r.items[i] == c.items[i]
    ensures (forall i :: 0 <= i < |c.items| ==> c.items[i].id != itemId) ==> r.items == c.items
    ensures LinesPriced(c.items) ==> Consistent(r)
    ensures r.cliente == c.cliente && r.observacoes == c.observacoes
    ensures r.descontoTipo == c.descontoTipo && r.descontoValor == c.descontoValor
  {
    if quantidade <= 0.0 then RemoveItem(c, itemId)
    else Recalculate(c.(items := MapLine(c.items, itemId, (item: CartItem) => WithQuantity(item, quantidade))))
  }

  function WithDiscount(item: CartItem, tipo: Option<DiscountType>, valor: Option<real>): (r: CartItem)
    ensures r.descontoTipo == tipo && r.descontoValor == valor && r.subtotal == ItemSubtotal(r)
    ensures r.(descontoTipo := item.descontoTipo, descontoValor := item.descontoValor,
               subtotal := item.subtotal) == item
  {
    var updated := item.(descontoTipo := tipo, descontoValor := valor);
    updated.(subtotal := ItemSubtotal(updated))
  }

  /** `setItemDiscount(itemId, tipo, valor)`. */
  function SetItemDiscount(c: CartState, itemId: Id, tipo: DiscountType, valor: real): (r: CartState)
    ensures |r.items| == |c.items|
    ensures forall i :: 0 <= i < |c.items| && c.items[i].id == itemId ==>
      r.items[i] == WithDiscount(c.items[i], Some(tipo), Some(valor))
    ensures forall i :: 0 <= i < |c.items| && c.items[i].id != itemId ==> r.items[i] == c.items[i]
    ensures LinesPriced(c.items) ==> Consistent(r)
    ensures r.cliente == c.cliente && r.observacoes == c.observacoes
    ensures r.descontoTipo == c.descontoTipo && r.descontoValor == c.descontoValor
  {
    Recalculate(c.(items := MapLine(c.items, itemId, (item: CartItem) => WithDiscount(item, Some(tipo), Some(valor)))))
  }

  /** `removeItemDiscount(itemId)`: the line goes back to its undiscounted price. */
  function RemoveItemDiscount(c: CartState, itemId: Id): (r: CartState)
    ensures |r.items| == |c.items|
    ensures forall i :: 0 <= i < |c.items| && c.items[i].id == itemId ==>
      && r.items[i] == WithDiscount(c.items[i], None, None)
      && r.items[i].descontoTipo.None? && r.items[i].descontoValor.None?
      && r.items[i].subtotal == Base(c.items[i])
    ensures forall i :: 0 <= i < |c.items| && c.items[i].id != itemId ==> r.items[i] == c.items[i]
    ensures LinesPriced(c.items) ==> Consistent(r)
    ensures r.cliente == c.cliente && r.observacoes == c.observacoes
    ensures r.descontoTipo == c.descontoTipo && r.descontoValor == c.descontoValor
  {
    Recalculate(c.(items := MapLine(c.items, itemId, (item: CartItem) => WithDiscount(item, None, None))))
  }

  /** `setCliente`: no recalculation. */
  function SetCliente(c: CartState, cliente: Option<Customer>): (r: CartState)
    ensures r.cliente == cliente
    ensures r.(cliente := c.cliente) == c
    ensures Consistent(c) ==> Consistent(r)
  {
    c.(cliente := cliente)
  }

  /** `setObservacoes`: no recalculation. */
  function SetObservacoes(c: CartState, observacoes: string): (r: CartState)
    ensures r.observacoes == observacoes
    ensures r.(observacoes := c.observacoes) == c
    ensures Consistent(c) ==> Consistent(r)
  {
    c.(observacoes := observacoes)
  }

  /** `setDesconto(tipo, valor)`: the order discount, then totals. */
  function SetDesconto(c: CartState, tipo: Option<DiscountType>, valor: real): (r: CartState)
    ensures r.items == c.items && r.descontoTipo == tipo && r.descontoValor == valor
    ensures r.subtotal == Sum(c.items, LineSubtotal)
    ensures tipo == Some(Valor) && (valor != 0.0 || r.subtotal >= 0.0) ==> r.total >= 0.0
    ensures LinesPriced(c.items) ==> Consistent(r)
  {
    Recalculate(c.(descontoTipo := tipo, descontoValor := valor))
  }

  /** `clearCart`. */
  function ClearCart(c: CartState): (r: CartState)
    ensures r.items == [] && r.cliente.None? && r.descontoTipo.None?
    ensures r.descontoValor == 0.0 && r.observacoes == ""
    ensures r.subtotal == 0.0 && r.descontoTotal == 0.0 && r.total == 0.0 && r.itemCount == 0.0
    ensures Consistent(r)
  {
    EmptyCart()
  }
}
