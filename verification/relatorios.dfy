/** The reports page: the sales of the chosen period, their totals, the
    best- and least-sold products and the payment summary. The period test
    compares timestamps against local calendar boundaries; it is a
    parameter here. The per-day table, which groups by a locale date
    string, is not part of this model. */
module Relatorios {
  import opened Common
  import opened Types

  // ---------------------------------------------------------------------------
  // Filtering

  datatype SalesData = SalesData(sales: seq<Sale>, items: seq<SaleItem>, payments: seq<Payment>)

  /** A sale enters the report when it is the store's, finished, and in the
      period (`startDate <= createdAt <= now`). */
  predicate KeptSale(s: Sale, lojaId: Id, inPeriod: string -> bool) {
    s.lojaId == lojaId && s.status == Finalizada && inPeriod(s.createdAt)
  }

  function SaleIds(sales: seq<Sale>): (ids: set<Id>)
    ensures forall i :: 0 <= i < |sales| ==> sales[i].id in ids
    ensures forall id :: id in ids ==> exists i :: 0 <= i < |sales| && sales[i].id == id
  {
    set i | 0 <= i < |sales| :: sales[i].id
  }

  /** The effect that loads the report data: nothing happens without a
      current store; otherwise sales are filtered, and items and payments
      are kept when their sale was. */
  function LoadReport(prev: SalesData, currentStore: Option<Store>,
                      allSales: seq<Sale>, allItems: seq<SaleItem>, allPayments: seq<Payment>,
                      inPeriod: string -> bool): (r: SalesData)
    ensures currentStore.None? ==> r == prev
    ensures currentStore.Some? ==>
              && (forall s :: s in r.sales <==> s in allSales && KeptSale(s, currentStore.value.id, inPeriod))
              && (forall it :: it in r.items <==> it in allItems && it.vendaId in SaleIds(r.sales))
              && (forall p :: p in r.payments <==> p in allPayments && p.vendaId in SaleIds(r.sales))
              && |r.sales| <= |allSales| && |r.items| <= |allItems| && |r.payments| <= |allPayments|
  {
    match currentStore
    case None => prev
    case Some(store) =>
      var sales := Filter(allSales, (s: Sale) => KeptSale(s, store.id, inPeriod));
      var ids := SaleIds(sales);
      var items := Filter(allItems, (it: SaleItem) => it.vendaId in ids);
      var payments := Filter(allPayments, (p: Payment) => p.vendaId in ids);
      assert forall s :: s in allSales ==> exists i :: 0 <= i < |allSales| && allSales[i] == s;
      assert forall it :: it in allItems ==> exists i :: 0 <= i < |allItems| && allItems[i] == it;
      assert forall p :: p in allPayments ==> exists i :: 0 <= i < |allPayments| && allPayments[i] == p;
      SalesData(sales, items, payments)
  }

  // ---------------------------------------------------------------------------
  // Totals

  function SaleTotal(s: Sale): real { s.total }

  function TotalSales(sales: seq<Sale>): real { Sum(sales, SaleTotal) }

  /** Ticket médio: the mean sale total, 0 with no sales. */
  function AverageTicket(sales: seq<Sale>): (r: real)
    ensures |sales| == 0 ==> r == 0.0
    ensures |sales| > 0 ==> r * (|sales| as real) == TotalSales(sales)
  {
    if |sales| > 0 then TotalSales(sales) / (|sales| as real) else 0.0
  }

  /** `item.subtotal - (item.precoCusto || 0) * item.quantidade` */
  function ItemProfit(it: SaleItem): real {
    it.subtotal - NumOr(it.precoCusto, 0.0) * it.quantidade
  }

  function ItemRevenue(it: SaleItem): real { it.subtotal }

  function ItemCost(it: SaleItem): real { NumOr(it.precoCusto, 0.0) * it.quantidade }

  function TotalProfit(items: seq<SaleItem>): real { Sum(items, ItemProfit) }

  /** The estimated profit is the revenue of the lines less their cost at
      the recorded cost price, a missing or zero cost counting as free. */
  lemma {:induction false} ProfitIsRevenueLessCost(items: seq<SaleItem>)
    ensures TotalProfit(items) == Sum(items, ItemRevenue) - Sum(items, ItemCost)
  {
    if items != [] {
      ProfitIsRevenueLessCost(items[1..]);
    }
  }

  /** Lines without a cost price count as pure profit. */
  lemma {:induction false} NoCostMeansProfitIsRevenue(items: seq<SaleItem>)
    requires forall i :: 0 <= i < |items| ==> !TruthyNum(items[i].precoCusto)
    ensures TotalProfit(items) == Sum(items, ItemRevenue)
  {
    if items != [] {
      NoCostMeansProfitIsRevenue(items[1..]);
    }
  }

  /** The margin and the payment shares shown on screen: a percentage of the
      sales total, 0 unless that total is positive. */
  function ShareOfSales(amount: real, totalSales: real): (r: real)
    ensures totalSales <= 0.0 ==> r == 0.0
    ensures totalSales > 0.0 ==> r * totalSales == amount * 100.0
  {
    if totalSales > 0.0 then (amount / totalSales) * 100.0 else 0.0
  }

  // ---------------------------------------------------------------------------
  // Grouping

  /** One entry of a `Map` filled with `get(key) || {…}` then `set(key, …)`:
      a running total and a running weight (quantity or count). */
  datatype Bucket<K> = Bucket(key: K, total: real, weight: real)

  /** Add one record to the map: an existing key keeps its place, a new key
      goes at the end (a `Map` iterates in insertion order). */
  function AddTo<K(==)>(acc: seq<Bucket<K>>, k: K, t: real, w: real): (r: seq<Bucket<K>>)
    ensures |r| == |acc| || |r| == |acc| + 1
  {
    if acc == [] then [Bucket(k, t, w)]
    else if acc[0].key == k then [acc[0].(total := acc[0].total + t, weight := acc[0].weight + w)] + acc[1..]
    else [acc[0]] + AddTo(acc[1..], k, t, w)
  }

  /** The whole `forEach` over the records. */
  function Tally<T, K(==)>(acc: seq<Bucket<K>>, xs: seq<T>, key: T -> K, total: T -> real, weight: T -> real)
    : seq<Bucket<K>>
    decreases |xs|
  {
    if xs == [] then acc else Tally(AddTo(acc, key(xs[0]), total(xs[0]), weight(xs[0])), xs[1..], key, total, weight)
  }

  function BucketTotal<K>(b: Bucket<K>): real { b.total }
  function BucketWeight<K>(b: Bucket<K>): real { b.weight }

  /** The keys a map holds. */
  function BucketKeys<K(==)>(bs: seq<Bucket<K>>): (r: set<K>)
    ensures forall i :: 0 <= i < |bs| ==> bs[i].key in r
  {
    if bs == [] then {} else {bs[0].key} + BucketKeys(bs[1..])
  }

  /** Each key at most once. */
  predicate DistinctBucketKeys<K(==)>(bs: seq<Bucket<K>>) {
    bs == [] || (bs[0].key !in BucketKeys(bs[1..]) && DistinctBucketKeys(bs[1..]))
  }

  /** The keys of a run of records. */
  function Seen<T, K(==)>(xs: seq<T>, key: T -> K): (r: set<K>)
    ensures forall i :: 0 <= i < |xs| ==> key(xs[i]) in r
  {
    if xs == [] then {} else {key(xs[0])} + Seen(xs[1..], key)
  }

  /** The sum of the values of the records with one key. */
  function SumWhere<T, K(==)>(xs: seq<T>, key: T -> K, k: K, f: T -> real): real {
    if xs == [] then 0.0 else (if key(xs[0]) == k then f(xs[0]) else 0.0) + SumWhere(xs[1..], key, k, f)
  }

  /** The total and weight a map holds under one key (0 when absent). */
  function TotalAt<K(==)>(bs: seq<Bucket<K>>, k: K): real {
    if bs == [] then 0.0 else (if bs[0].key == k then bs[0].total else 0.0) + TotalAt(bs[1..], k)
  }

  function WeightAt<K(==)>(bs: seq<Bucket<K>>, k: K): real {
    if bs == [] then 0.0 else (if bs[0].key == k then bs[0].weight else 0.0) + WeightAt(bs[1..], k)
  }

  lemma {:induction false} AddToSums<K>(acc: seq<Bucket<K>>, k: K, t: real, w: real)
    ensures Sum(AddTo(acc, k, t, w), BucketTotal) == Sum(acc, BucketTotal) + t
    ensures Sum(AddTo(acc, k, t, w), BucketWeight) == Sum(acc, BucketWeight) + w
  {
    var r := AddTo(acc, k, t, w);
    if acc == [] {
      SumSingleton(Bucket(k, t, w), BucketTotal);
      SumSingleton(Bucket(k, t, w), BucketWeight);
    } else if acc[0].key == k {
      assert r[1..] == acc[1..];
    } else {
      AddToSums(acc[1..], k, t, w);
      assert r[1..] == AddTo(acc[1..], k, t, w);
    }
  }

  lemma {:induction false} AddToAt<K>(acc: seq<Bucket<K>>, k: K, t: real, w: real, j: K)
    ensures TotalAt(AddTo(acc, k, t, w), j) == TotalAt(acc, j) + (if k == j then t else 0.0)
    ensures WeightAt(AddTo(acc, k, t, w), j) == WeightAt(acc, j) + (if k == j then w else 0.0)
  {
    var r := AddTo(acc, k, t, w);
    if acc == [] {
      assert r[1..] == [];
    } else if acc[0].key == k {
      assert r[1..] == acc[1..];
    } else {
      AddToAt(acc[1..], k, t, w, j);
      assert r[1..] == AddTo(acc[1..], k, t, w);
    }
  }

  lemma {:induction false} AddToKeys<K>(acc: seq<Bucket<K>>, k: K, t: real, w: real)
    ensures BucketKeys(AddTo(acc, k, t, w)) == BucketKeys(acc) + {k}
    ensures DistinctBucketKeys(acc) ==> DistinctBucketKeys(AddTo(acc, k, t, w))
  {
    var r := AddTo(acc, k, t, w);
    if acc == [] {
      assert r[1..] == [];
    } else if acc[0].key == k {
      assert r[1..] == acc[1..];
    } else {
      AddToKeys(acc[1..], k, t, w);
      assert r[1..] == AddTo(acc[1..], k, t, w);
    }
  }

  /** The grand totals of a grouping equal the totals of what was grouped. */
  lemma {:induction false} TallySums<T, K>(acc: seq<Bucket<K>>, xs: seq<T>, key: T -> K,
                                            total: T -> real, weight: T -> real)
    ensures Sum(Tally(acc, xs, key, total, weight), BucketTotal) == Sum(acc, BucketTotal) + Sum(xs, total)
    ensures Sum(Tally(acc, xs, key, total, weight), BucketWeight) == Sum(acc, BucketWeight) + Sum(xs, weight)
    decreases |xs|
  {
    if xs != [] {
      AddToSums(acc, key(xs[0]), total(xs[0]), weight(xs[0]));
      TallySums(AddTo(acc, key(xs[0]), total(xs[0]), weight(xs[0])), xs[1..], key, total, weight);
    }
  }

  /** Under each key, a grouping holds the sums of that key's records. */
  lemma {:induction false} TallyAt<T, K>(acc: seq<Bucket<K>>, xs: seq<T>, key: T -> K,
                                          total: T -> real, weight: T -> real, k: K)
    ensures TotalAt(Tally(acc, xs, key, total, weight), k) == TotalAt(acc, k) + SumWhere(xs, key, k, total)
    ensures WeightAt(Tally(acc, xs, key, total, weight), k) == WeightAt(acc, k) + SumWhere(xs, key, k, weight)
    decreases |xs|
  {
    if xs != [] {
      AddToAt(acc, key(xs[0]), total(xs[0]), weight(xs[0]), k);
      TallyAt(AddTo(acc, key(xs[0]), total(xs[0]), weight(xs[0])), xs[1..], key, total, weight, k);
    }
  }

  /** A grouping holds exactly the keys seen, each once. */
  lemma {:induction false} TallyKeys<T, K>(acc: seq<Bucket<K>>, xs: seq<T>, key: T -> K,
                                            total: T -> real, weight: T -> real)
    ensures BucketKeys(Tally(acc, xs, key, total, weight)) == BucketKeys(acc) + Seen(xs, key)
    ensures DistinctBucketKeys(acc) ==> DistinctBucketKeys(Tally(acc, xs, key, total, weight))
    decreases |xs|
  {
    if xs != [] {
      AddToKeys(acc, key(xs[0]), total(xs[0]), weight(xs[0]));
      TallyKeys(AddTo(acc, key(xs[0]), total(xs[0]), weight(xs[0])), xs[1..], key, total, weight);
    }
  }

  /** With each key once, the value held under a key is its entry's. */
  lemma {:induction false} AtIsEntry<K>(bs: seq<Bucket<K>>, i: nat)
    requires i < |bs| && DistinctBucketKeys(bs)
    ensures TotalAt(bs, bs[i].key) == bs[i].total
    ensures WeightAt(bs, bs[i].key) == bs[i].weight
  {
    if i == 0 {
      AbsentAtZero(bs[1..], bs[0].key);
    } else {
      assert bs[1..][i - 1] == bs[i];
      assert bs[i].key in BucketKeys(bs[1..]);
      AtIsEntry(bs[1..], i - 1);
    }
  }

  lemma {:induction false} AbsentAtZero<K>(bs: seq<Bucket<K>>, k: K)
    requires k !in BucketKeys(bs)
    ensures TotalAt(bs, k) == 0.0 && WeightAt(bs, k) == 0.0
  {
    if bs != [] {
      AbsentAtZero(bs[1..], k);
    }
  }

  /** A map with each key once has as many entries as keys. */
  lemma {:induction false} DistinctKeysCount<K>(bs: seq<Bucket<K>>)
    requires DistinctBucketKeys(bs)
    ensures |BucketKeys(bs)| == |bs|
  {
    if bs != [] {
      DistinctKeysCount(bs[1..]);
    }
  }

  // ---------------------------------------------------------------------------
  // Products

  datatype ProductSales = ProductSales(productId: Id, productName: string, quantity: real, total: real)

  function ItemProduct(it: SaleItem): Id { it.produtoId }
  function ItemQuantity(it: SaleItem): real { it.quantidade }

  /** `product?.nome || "Produto desconhecido"` */
  function ProductName(products: seq<Product>, id: Id): (name: string)
    ensures name != ""
  {
    match Find(products, (p: Product) => p.id == id)
    case Some(p) => if p.nome != "" then p.nome else "Produto desconhecido"
    case None => "Produto desconhecido"
  }

  /** The per-product map, keyed by product id alone: the variants of one
      product share an entry. */
  function ProductBuckets(items: seq<SaleItem>): seq<Bucket<Id>> {
    Tally([], items, ItemProduct, ItemRevenue, ItemQuantity)
  }

  function ToProductSales(products: seq<Product>, bs: seq<Bucket<Id>>): (r: seq<ProductSales>)
    ensures |r| == |bs|
    ensures forall i :: 0 <= i < |bs| ==>
              r[i].productId == bs[i].key && r[i].quantity == bs[i].weight && r[i].total == bs[i].total
  {
    seq(|bs|, i requires 0 <= i < |bs| =>
      ProductSales(bs[i].key, ProductName(products, bs[i].key), bs[i].weight, bs[i].total))
  }

  /** One row per product sold, holding that product's quantity and value,
      and the rows add up to the filtered items. */
  lemma ProductRowsAddUp(items: seq<SaleItem>)
    ensures DistinctBucketKeys(ProductBuckets(items))
    ensures BucketKeys(ProductBuckets(items)) == Seen(items, ItemProduct)
    ensures forall j :: 0 <= j < |ProductBuckets(items)| ==>
              && ProductBuckets(items)[j].weight == SumWhere(items, ItemProduct, ProductBuckets(items)[j].key, ItemQuantity)
              && ProductBuckets(items)[j].total == SumWhere(items, ItemProduct, ProductBuckets(items)[j].key, ItemRevenue)
    ensures Sum(ProductBuckets(items), BucketWeight) == Sum(items, ItemQuantity)
    ensures Sum(ProductBuckets(items), BucketTotal) == Sum(items, ItemRevenue)
  {
    var bs := ProductBuckets(items);
    TallyKeys([], items, ItemProduct, ItemRevenue, ItemQuantity);
    TallySums([], items, ItemProduct, ItemRevenue, ItemQuantity);
    forall j | 0 <= j < |bs|
      ensures bs[j].weight == SumWhere(items, ItemProduct, bs[j].key, ItemQuantity)
      ensures bs[j].total == SumWhere(items, ItemProduct, bs[j].key, ItemRevenue)
    {
      TallyAt([], items, ItemProduct, ItemRevenue, ItemQuantity, bs[j].key);
      AtIsEntry(bs, j);
    }
  }

  // ---------------------------------------------------------------------------
  // Ordering

  /** Stable insertion: `x` comes before every element it does not rank below. */
  function InsertDesc<T>(x: T, ys: seq<T>, rank: T -> real): (r: seq<T>)
    ensures multiset(r) == multiset(ys) + multiset{x}
    ensures |r| == |ys| + 1
    ensures forall i :: 0 <= i < |r| ==> r[i] == x || r[i] in ys
  {
    if ys == [] || rank(x) >= rank(ys[0]) then [x] + ys
    else
      assert ys == [ys[0]] + ys[1..];
      [ys[0]] + InsertDesc(x, ys[1..], rank)
  }

  predicate SortedDesc<T>(xs: seq<T>, rank: T -> real) {
    forall i, j :: 0 <= i < j < |xs| ==> rank(xs[i]) >= rank(xs[j])
  }

  lemma {:induction false} InsertDescSorted<T>(x: T, ys: seq<T>, rank: T -> real)
    requires SortedDesc(ys, rank)
    ensures SortedDesc(InsertDesc(x, ys, rank), rank)
  {
    if ys != [] && rank(x) < rank(ys[0]) {
      var rest := InsertDesc(x, ys[1..], rank);
      InsertDescSorted(x, ys[1..], rank);
      var r := [ys[0]] + rest;
      forall i | 0 <= i < |rest|
        ensures rank(ys[0]) >= rank(rest[i])
      {
        if rest[i] != x {
          assert rest[i] in ys[1..];
          var k :| 0 <= k < |ys[1..]| && ys[1..][k] == rest[i];
          assert ys[k + 1] == rest[i];
        }
      }
      assert forall i :: 1 <= i < |r| ==> r[i] == rest[i - 1];
    }
  }

  /** `xs.sort((a, b) => rank(b) - rank(a))`: a stable sort, highest first. */
  function SortDesc<T>(xs: seq<T>, rank: T -> real): (r: seq<T>)
    ensures multiset(r) == multiset(xs) && |r| == |xs|
  {
    if xs == [] then []
    else
      assert xs == [xs[0]] + xs[1..];
      InsertDesc(xs[0], SortDesc(xs[1..], rank), rank)
  }

  lemma {:induction false} SortDescSorted<T>(xs: seq<T>, rank: T -> real)
    ensures SortedDesc(SortDesc(xs, rank), rank)
  {
    if xs != [] {
      SortDescSorted(xs[1..], rank);
      InsertDescSorted(xs[0], SortDesc(xs[1..], rank), rank);
    }
  }

  function Quantity(p: ProductSales): real { p.quantity }
  function NegQuantity(p: ProductSales): real { -p.quantity }

  /** `slice(0, 10)` */
  function TopTen<T>(xs: seq<T>): (r: seq<T>)
    ensures |r| == if |xs| < 10 then |xs| else 10
    ensures r == xs[..|r|]
  {
    if |xs| < 10 then xs else xs[..10]
  }

  /** The rankings the products tab shows. */
  datatype Rankings = Rankings(best: seq<ProductSales>, least: seq<ProductSales>)

  lemma PrefixMultiset<T>(xs: seq<T>, n: nat)
    requires n <= |xs|
    ensures multiset(xs[..n]) <= multiset(xs)
  {
    assert xs == xs[..n] + xs[n..];
  }

  /** Best sellers: the rows sorted by quantity, highest first, cut to ten.
      Least sold: a copy of that list sorted lowest first, cut to ten. */
  function Rank(rows: seq<ProductSales>): (r: Rankings)
    ensures |r.best| == |r.least| == (if |rows| < 10 then |rows| else 10)
    ensures multiset(r.best) <= multiset(rows)
    ensures multiset(r.least) <= multiset(rows)
  {
    var sorted := SortDesc(rows, Quantity);
    var asc := SortDesc(sorted, NegQuantity);
    PrefixMultiset(sorted, |TopTen(sorted)|);
    PrefixMultiset(asc, |TopTen(asc)|);
    Rankings(TopTen(sorted), TopTen(asc))
  }

  /** In a list sorted highest first, the first ten rank at least as high
      as any element left out, and are themselves in order. */
  lemma {:induction false} TopTenOfSorted<T>(xs: seq<T>, ys: seq<T>, rank: T -> real)
    requires SortedDesc(xs, rank) && multiset(xs) == multiset(ys)
    ensures SortedDesc(TopTen(xs), rank)
    ensures forall i, x :: 0 <= i < |TopTen(xs)| && x in ys && x !in TopTen(xs) ==> rank(TopTen(xs)[i]) >= rank(x)
  {
    var top := TopTen(xs);
    forall i, x | 0 <= i < |top| && x in ys && x !in top
      ensures rank(top[i]) >= rank(x)
    {
      assert x in multiset(ys);
      var k :| 0 <= k < |xs| && xs[k] == x;
      assert k >= |top|;
    }
  }

  /** The best list is in order of quantity and no product left out sold
      more than any product shown. */
  lemma RankBest(rows: seq<ProductSales>)
    ensures SortedDesc(Rank(rows).best, Quantity)
    ensures forall i, x :: 0 <= i < |Rank(rows).best| && x in rows && x !in Rank(rows).best ==>
              Quantity(Rank(rows).best[i]) >= Quantity(x)
  {
    var sorted := SortDesc(rows, Quantity);
    SortDescSorted(rows, Quantity);
    TopTenOfSorted(sorted, rows, Quantity);
  }

  /** The least-sold list is in increasing order of quantity and no product
      left out sold less than any product shown. */
  lemma RankLeast(rows: seq<ProductSales>)
    ensures SortedDesc(Rank(rows).least, NegQuantity)
    ensures forall i, x :: 0 <= i < |Rank(rows).least| && x in rows && x !in Rank(rows).least ==>
              Quantity(Rank(rows).least[i]) <= Quantity(x)
  {
    var asc := SortDesc(SortDesc(rows, Quantity), NegQuantity);
    var least := TopTen(asc);
    SortDescSorted(SortDesc(rows, Quantity), NegQuantity);
    TopTenOfSorted(asc, rows, NegQuantity);
    forall i, x | 0 <= i < |least| && x in rows && x !in least
      ensures Quantity(least[i]) <= Quantity(x)
    {
      assert NegQuantity(least[i]) >= NegQuantity(x);
    }
  }

  // ---------------------------------------------------------------------------
  // Payments

  datatype PaymentSummary = PaymentSummary(paymentMethod: PaymentMethod, total: real, count: real)

  function PaymentMethodOf(p: Payment): PaymentMethod { p.formaPagamento }
  function PaymentValue(p: Payment): real { p.valor }
  function One(p: Payment): real { 1.0 }

  function PaymentTotal(s: PaymentSummary): real { s.total }
  function PaymentCount(s: PaymentSummary): real { s.count }

  /** The per-method map, sorted by total, highest first. */
  function PaymentSummaries(payments: seq<Payment>): (r: seq<PaymentSummary>)
    ensures |r| <= 5
  {
    var bs := Tally([], payments, PaymentMethodOf, PaymentValue, One);
    TallyKeys([], payments, PaymentMethodOf, PaymentValue, One);
    AtMostFiveMethods(bs);
    SortDesc(seq(|bs|, i requires 0 <= i < |bs| => PaymentSummary(bs[i].key, bs[i].total, bs[i].weight)),
             PaymentTotal)
  }

  /** There are five payment methods, so at most five rows. */
  lemma AtMostFiveMethods(bs: seq<Bucket<PaymentMethod>>)
    requires DistinctBucketKeys(bs)
    ensures |bs| <= 5
  {
    var keys := BucketKeys(bs);
    assert keys <= {Dinheiro, Pix, Credito, Debito, Fiado} by {
      forall m | m in keys ensures m in {Dinheiro, Pix, Credito, Debito, Fiado} {
        match m
        case Dinheiro =>
        case Pix =>
        case Credito =>
        case Debito =>
        case Fiado =>
      }
    }
    DistinctKeysCount(bs);
    SetSubsetCard(keys, {Dinheiro, Pix, Credito, Debito, Fiado});
  }

  lemma SetSubsetCard<T>(a: set<T>, b: set<T>)
    requires a <= b
    ensures |a| <= |b|
  {
    assert b == a + (b - a);
  }

  /** The rows are in order of total; their counts add up to the number of
      payments, and their totals to the amount paid. */
  lemma PaymentSummariesAddUp(payments: seq<Payment>)
    ensures SortedDesc(PaymentSummaries(payments), PaymentTotal)
    ensures Sum(PaymentSummaries(payments), PaymentCount) == |payments| as real
    ensures Sum(PaymentSummaries(payments), PaymentTotal) == Sum(payments, PaymentValue)
  {
    var bs := Tally([], payments, PaymentMethodOf, PaymentValue, One);
    var rows := seq(|bs|, i requires 0 <= i < |bs| => PaymentSummary(bs[i].key, bs[i].total, bs[i].weight));
    TallyKeys([], payments, PaymentMethodOf, PaymentValue, One);
    AtMostFiveMethods(bs);
    assert PaymentSummaries(payments) == SortDesc(rows, PaymentTotal);
    SortDescSorted(rows, PaymentTotal);
    TallySums([], payments, PaymentMethodOf, PaymentValue, One);
    SumOfOnes(payments);
    RowSums(bs, rows);
    SumPermutation(SortDesc(rows, PaymentTotal), rows, PaymentCount);
    SumPermutation(SortDesc(rows, PaymentTotal), rows, PaymentTotal);
  }

  lemma {:induction false} SumOfOnes(payments: seq<Payment>)
    ensures Sum(payments, One) == |payments| as real
  {
    if payments != [] {
      SumOfOnes(payments[1..]);
    }
  }

  lemma {:induction false} RowSums(bs: seq<Bucket<PaymentMethod>>, rows: seq<PaymentSummary>)
    requires |rows| == |bs|
    requires forall i :: 0 <= i < |bs| ==> rows[i] == PaymentSummary(bs[i].key, bs[i].total, bs[i].weight)
    ensures Sum(rows, PaymentCount) == Sum(bs, BucketWeight)
    ensures Sum(rows, PaymentTotal) == Sum(bs, BucketTotal)
  {
    if bs != [] {
      RowSums(bs[1..], rows[1..]);
    }
  }

  /** When every finished sale is paid in full by its payments, the shares
      on the payments tab add up to 100%. */
  lemma SharesAddUpToHundred(payments: seq<Payment>, totalSales: real)
    requires totalSales > 0.0
    requires Sum(payments, PaymentValue) == totalSales
    ensures Sum(PaymentSummaries(payments), (s: PaymentSummary) => ShareOfSales(s.total, totalSales)) == 100.0
  {
    var rows := PaymentSummaries(payments);
    PaymentSummariesAddUp(payments);
    ShareSum(rows, totalSales);
  }

  lemma {:induction false} ShareSum(rows: seq<PaymentSummary>, totalSales: real)
    requires totalSales > 0.0
    ensures Sum(rows, (s: PaymentSummary) => ShareOfSales(s.total, totalSales))
            == Sum(rows, PaymentTotal) / totalSales * 100.0
  {
    if rows != [] {
      ShareSum(rows[1..], totalSales);
    }
  }

  // ---------------------------------------------------------------------------
  // The whole report

  datatype Report = Report(
    totalSales: real, totalCount: nat, averageTicket: real, totalProfit: real,
    margin: real, products: Rankings, payments: seq<PaymentSummary>)

  /** Everything the page shows for the loaded data, the per-day table aside. */
  function ComputeReport(data: SalesData, products: seq<Product>): (r: Report)
    ensures r.totalCount == |data.sales|
    ensures r.totalSales == Sum(data.sales, SaleTotal)
    ensures r.averageTicket == AverageTicket(data.sales)
    ensures r.totalProfit == Sum(data.items, ItemRevenue) - Sum(data.items, ItemCost)
    ensures r.margin == ShareOfSales(r.totalProfit, r.totalSales)
    ensures |r.payments| <= 5 && |r.products.best| <= 10 && |r.products.least| <= 10
  {
    var total := TotalSales(data.sales);
    var profit := TotalProfit(data.items);
    ProfitIsRevenueLessCost(data.items);
    var rankings := Rank(ToProductSales(products, ProductBuckets(data.items)));
    Report(total, |data.sales|, AverageTicket(data.sales), profit, ShareOfSales(profit, total),
           rankings, PaymentSummaries(data.payments))
  }
}
