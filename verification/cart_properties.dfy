/** Properties of the checkout cart that relate several calls or compare the
    line pricing with the clamped rule the design describes. */
module CartProperties {
  import opened Common
  import opened Types
  import opened CartStore

  /** The line rule as the design states it: subtract a discount of
      `base * v / 100` (percentage) or `min(base, v)` (amount), then floor at 0. */
  function ClampedSubtotal(item: CartItem): real {
    var base := Base(item);
    var discount :=
      if !HasLineDiscount(item) then 0.0
      else if item.descontoTipo.value == Percentual then base * item.descontoValor.value / 100.0
      else Min(base, item.descontoValor.value);
    Max(0.0, base - discount)
  }

  /** The code agrees with the clamped rule exactly on the lines where it
      happens to produce a non-negative subtotal. */
  lemma ItemSubtotalAgreesWithClampedRule(item: CartItem)
    ensures ItemSubtotal(item) == ClampedSubtotal(item) <==> ItemSubtotal(item) >= 0.0
  {
    var base := Base(item);
    if HasLineDiscount(item) && item.descontoTipo.value == Percentual {
      var v := item.descontoValor.value;
      assert base * (1.0 - v / 100.0) == base - base * v / 100.0;
    }
  }

  /** A percentage above 100 on a positive line yields a negative subtotal. */
  lemma PercentLineDiscountNotFloored(item: CartItem)
    requires item.descontoTipo == Some(Percentual) && item.descontoValor.Some?
    requires item.descontoValor.value > 100.0 && Base(item) > 0.0
    ensures ItemSubtotal(item) < 0.0
  {
    var base := Base(item);
    var f := 1.0 - item.descontoValor.value / 100.0;
    assert f < 0.0;
    assert ItemSubtotal(item) == base * f;
    NegativeProduct(base, f);
  }

  /** An amount discount gives `max(0, base - v)`. */
  lemma AmountLineDiscount(item: CartItem)
    requires item.descontoTipo == Some(Valor) && item.descontoValor.Some?
    requires item.descontoValor.value > 0.0
    ensures ItemSubtotal(item) == Max(0.0, Base(item) - item.descontoValor.value)
    ensures ItemSubtotal(item) >= 0.0
  {
  }

  /** A percentage order discount is not clamped either: above 100 on a positive
      subtotal, the cart total is negative. */
  lemma PercentOrderDiscountNotClamped(c: CartState, valor: real)
    requires valor > 100.0 && Sum(c.items, LineSubtotal) > 0.0
    ensures SetDesconto(c, Some(Percentual), valor).total < 0.0
  {
    var s := Sum(c.items, LineSubtotal);
    var r := SetDesconto(c, Some(Percentual), valor);
    var f := 1.0 - valor / 100.0;
    assert r.subtotal == s;
    assert r.descontoTotal == s * (valor / 100.0);
    assert r.total == s * f;
    NegativeProduct(s, f);
  }

  lemma NegativeProduct(a: real, b: real)
    requires a > 0.0 && b < 0.0
    ensures a * b < 0.0
  {
    assert a * (-b) > 0.0;
    assert a * b == -(a * (-b));
  }

  /** Recalculating twice is recalculating once. */
  lemma RecalculateIdempotent(c: CartState)
    ensures Recalculate(Recalculate(c)) == Recalculate(c)
  {
  }

  /** The totals depend on the set of lines, not on the order they were added in. */
  lemma TotalsIndependentOfLineOrder(c: CartState, d: CartState)
    requires multiset(c.items) == multiset(d.items)
    requires c.descontoTipo == d.descontoTipo && c.descontoValor == d.descontoValor
    ensures Recalculate(c).subtotal == Recalculate(d).subtotal
    ensures Recalculate(c).total == Recalculate(d).total
    ensures Recalculate(c).itemCount == Recalculate(d).itemCount
  {
    SumPermutation(c.items, d.items, LineSubtotal);
    SumPermutation(c.items, d.items, LineQuantity);
  }

  /** `addItem` on a (product, variant) pair already in the cart: the matching
      line's quantity grows by the amount, its unit price is kept, its subtotal is
      recomputed, and nothing else changes. */
  lemma AddItemMergesIntoExistingLine(c: CartState, produto: Product, variante: Option<ProductVariant>,
                                      quantidade: real, freshId: Id, i: nat)
    requires UniqueIds(c.items)
    requires FindLine(c.items, produto.id, OrUndefined(VariantIdOf(variante))) == Some(i)
    ensures var r := AddItem(c, produto, variante, quantidade, freshId);
      && |r.items| == |c.items|
      && r.items[i].quantidade == c.items[i].quantidade + quantidade
      && r.items[i].precoUnitario == c.items[i].precoUnitario
      && r.items[i].id == c.items[i].id
      && r.items[i].subtotal == ItemSubtotal(r.items[i])
      && (forall j :: 0 <= j < |c.items| && j != i ==> r.items[j] == c.items[j])
  {
    var r := AddItem(c, produto, variante, quantidade, freshId);
    forall j | 0 <= j < |c.items| && j != i
      ensures r.items[j] == c.items[j]
    {
      assert c.items[j].id != c.items[i].id;
    }
  }

  /** `addItem` on a new pair appends one line at the end, priced at the
      variant's sale price when it has one and the product's otherwise. */
  lemma AddItemAppendsNewLine(c: CartState, produto: Product, variante: Option<ProductVariant>,
                              quantidade: real, freshId: Id)
    requires FindLine(c.items, produto.id, OrUndefined(VariantIdOf(variante))).None?
    ensures var r := AddItem(c, produto, variante, quantidade, freshId);
      && r.items == c.items + [NewLine(freshId, produto, variante, quantidade)]
      && r.items[|c.items|].precoUnitario == UnitPrice(produto, variante)
      && r.items[|c.items|].quantidade == quantidade
  {
  }

  /** The ids stay unique when the fresh id is new. */
  lemma AddItemKeepsIdsUnique(c: CartState, produto: Product, variante: Option<ProductVariant>,
                              quantidade: real, freshId: Id)
    requires UniqueIds(c.items)
    requires forall j :: 0 <= j < |c.items| ==> c.items[j].id != freshId
    ensures UniqueIds(AddItem(c, produto, variante, quantidade, freshId).items)
  {
  }

  /** Removing an id twice is removing it once. */
  lemma RemoveItemIdempotent(c: CartState, itemId: Id)
    ensures RemoveItem(RemoveItem(c, itemId), itemId) == RemoveItem(c, itemId)
  {
    var once := RemoveItem(c, itemId);
    var twice := RemoveItem(once, itemId);
    assert twice.items == once.items;
  }

  /** `clearCart` twice is `clearCart` once. */
  lemma ClearCartIdempotent(c: CartState)
    ensures ClearCart(ClearCart(c)) == ClearCart(c)
  {
  }

  function SampleProduct(): Product {
    Product("p", "e", None, "Coca-Cola", None, Some("7894900010015"), Some(4.5), 6.0, true)
  }

  /** Two units of the 6.00 sample product in an empty cart. */
  function TwoOfSample(): CartState {
    AddItem(EmptyCart(), SampleProduct(), None, 2.0, "line-1")
  }

  lemma TwoOfSampleLines()
    ensures TwoOfSample().items == [NewLine("line-1", SampleProduct(), None, 2.0)]
    ensures TwoOfSample().subtotal == 12.0
  {
    var line := NewLine("line-1", SampleProduct(), None, 2.0);
    assert TwoOfSample().items == [line];
    SumSingleton(line, LineSubtotal);
  }

  lemma RemoveOnlyLine(c: CartState)
    requires c.items == [NewLine("line-1", SampleProduct(), None, 2.0)]
    requires c.descontoTipo == Some(Percentual)
    ensures RemoveItem(c, "line-1").total == 0.0
  {
    assert RemoveItem(c, "line-1").items == [];
  }

  /** Add a 6.00 product twice, apply 10% to the order, then remove the line:
      subtotal 12.00, total 10.80, then 0. */
  lemma ScenarioOrderDiscount()
    ensures TwoOfSample().subtotal == 12.0
    ensures SetDesconto(TwoOfSample(), Some(Percentual), 10.0).total == 10.8
    ensures RemoveItem(SetDesconto(TwoOfSample(), Some(Percentual), 10.0), "line-1").total == 0.0
  {
    TwoOfSampleLines();
    var c := TwoOfSample();
    var d := SetDesconto(c, Some(Percentual), 10.0);
    assert d.subtotal == 12.0;
    assert d.descontoTotal == 12.0 * (10.0 / 100.0) == 1.2;
    assert d.total == 10.8;
    RemoveOnlyLine(d);
  }

  lemma OneOfSampleLines()
    ensures AddItem(EmptyCart(), SampleProduct(), None, 1.0, "a").items
            == [NewLine("a", SampleProduct(), None, 1.0)]
  {
  }

  lemma MergeOneMore(c: CartState)
    requires c.items == [NewLine("a", SampleProduct(), None, 1.0)]
    ensures var r := AddItem(c, SampleProduct(), None, 1.0, "b");
      |r.items| == 1 && r.items[0].quantidade == 2.0 && r.itemCount == 2.0
  {
    var r := AddItem(c, SampleProduct(), None, 1.0, "b");
    assert FindLine(c.items, "p", OrUndefined(VariantIdOf(None))) == Some(0);
    AddItemMergesIntoExistingLine(c, SampleProduct(), None, 1.0, "b", 0);
    assert r.items == [r.items[0]];
    SumSingleton(r.items[0], LineQuantity);
  }

  /** Two separate `addItem` calls of the same product without variant merge
      into one line of quantity 2. */
  lemma ScenarioMergeSameProduct()
    ensures var c := AddItem(AddItem(EmptyCart(), SampleProduct(), None, 1.0, "a"),
                             SampleProduct(), None, 1.0, "b");
      |c.items| == 1 && c.items[0].quantidade == 2.0 && c.itemCount == 2.0
  {
    OneOfSampleLines();
    MergeOneMore(AddItem(EmptyCart(), SampleProduct(), None, 1.0, "a"));
  }

  /** `addItem` does not validate the amount: a negative amount on a new pair
      creates a line with a negative quantity and subtotal. */
  lemma AddItemAcceptsNegativeQuantity()
    ensures var c := AddItem(EmptyCart(), SampleProduct(), None, -1.0, "a");
      |c.items| == 1 && c.items[0].quantidade == -1.0 && c.total == -6.0
  {
    var c := AddItem(EmptyCart(), SampleProduct(), None, -1.0, "a");
    assert c.items == [NewLine("a", SampleProduct(), None, -1.0)];
  }
}
