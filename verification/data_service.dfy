/** The data service's pure parts: the key conversions between the
    database's snake_case columns and the application's camelCase fields,
    the next sale number, and the order of writes in `createSale`. The
    queries themselves are outside the model: their outcomes are parameters. */
module DataService {
  import opened Common

  // ---------------------------------------------------------------------------
  // Key conversion

  /** No ASCII upper-case letter anywhere. */
  predicate NoUpper(k: string) {
    forall i :: 0 <= i < |k| ==> !IsUpper(k[i])
  }

  /** No '_' immediately followed by a lower-case ASCII letter. */
  predicate NoUnderscoreLower(k: string) {
    forall i :: 0 <= i < |k| - 1 ==> !(k[i] == '_' && IsLower(k[i + 1]))
  }

  /** `key.replace(/[A-Z]/g, l => '_' + l.toLowerCase())`. */
  function SnakeKey(k: string): (r: string)
    ensures NoUpper(r)
    ensures |r| >= |k|
    ensures |k| > 0 && !IsLower(k[0]) ==> |r| > 0 && !IsLower(r[0])
  {
    if k == [] then []
    else (if IsUpper(k[0]) then ['_', LowerChar(k[0])] else [k[0]]) + SnakeKey(k[1..])
  }

  /** `key.replace(/_([a-z])/g, g => g[1].toUpperCase())`: scanning left to
      right, each '_' followed by a lower-case letter is replaced by that
      letter upper-cased, and the scan resumes after the pair. */
  function CamelKey(k: string): (r: string)
    ensures NoUnderscoreLower(r)
    ensures |r| <= |k|
    ensures |k| > 0 && !IsLower(k[0]) ==> |r| > 0 && !IsLower(r[0])
  {
    if k == [] then []
    else if k[0] == '_' && |k| >= 2 && IsLower(k[1]) then [UpperChar(k[1])] + CamelKey(k[2..])
    else [k[0]] + CamelKey(k[1..])
  }

  /** A key already in snake form is left alone by the snake conversion. */
  lemma {:induction false} SnakeKeyFixesNoUpper(k: string)
    requires NoUpper(k)
    ensures SnakeKey(k) == k
  {
    if k != [] {
      SnakeKeyFixesNoUpper(k[1..]);
    }
  }

  /** A key with no '_'-letter pair is left alone by the camel conversion. */
  lemma {:induction false} CamelKeyFixesNoUnderscoreLower(k: string)
    requires NoUnderscoreLower(k)
    ensures CamelKey(k) == k
  {
    if k != [] {
      CamelKeyFixesNoUnderscoreLower(k[1..]);
    }
  }

  /** camel(snake(k)) = k whenever k has no '_' followed by a–z. */
  lemma {:induction false} CamelOfSnake(k: string)
    requires NoUnderscoreLower(k)
    ensures CamelKey(SnakeKey(k)) == k
  {
    if k != [] {
      var c, rest := k[0], k[1..];
      var tail := SnakeKey(rest);
      CamelOfSnake(rest);
      if IsUpper(c) {
        var s := ['_', LowerChar(c)] + tail;
        assert SnakeKey(k) == s;
        assert s[2..] == tail;
        assert UpperChar(LowerChar(c)) == c;
      } else {
        var s := [c] + tail;
        assert SnakeKey(k) == s;
        assert s[1..] == tail;
        if c == '_' && |s| >= 2 {
          assert |rest| > 0;
          assert !IsLower(rest[0]);
          assert !IsLower(s[1]);
        }
      }
    }
  }

  /** snake(camel(k)) = k whenever k has no upper-case letter. */
  lemma {:induction false} SnakeOfCamel(k: string)
    requires NoUpper(k)
    ensures SnakeKey(CamelKey(k)) == k
  {
    if k != [] {
      if k[0] == '_' && |k| >= 2 && IsLower(k[1]) {
        SnakeOfCamel(k[2..]);
        var s := [UpperChar(k[1])] + CamelKey(k[2..]);
        assert CamelKey(k) == s;
        assert s[1..] == CamelKey(k[2..]);
        assert LowerChar(UpperChar(k[1])) == k[1];
        assert k == ['_', k[1]] + k[2..];
      } else {
        SnakeOfCamel(k[1..]);
        var s := [k[0]] + CamelKey(k[1..]);
        assert CamelKey(k) == s;
        assert s[1..] == CamelKey(k[1..]);
      }
    }
  }

  /** Distinct snake-free keys stay distinct under the snake conversion. */
  lemma SnakeKeyInjective(a: string, b: string)
    requires NoUnderscoreLower(a) && NoUnderscoreLower(b) && SnakeKey(a) == SnakeKey(b)
    ensures a == b
  {
    CamelOfSnake(a);
    CamelOfSnake(b);
  }

  /** Distinct upper-case-free keys stay distinct under the camel conversion. */
  lemma CamelKeyInjective(a: string, b: string)
    requires NoUpper(a) && NoUpper(b) && CamelKey(a) == CamelKey(b)
    ensures a == b
  {
    SnakeOfCamel(a);
    SnakeOfCamel(b);
  }

  /** Two keys can collide under the camel conversion: `a_b` and `aB`. */
  lemma CamelKeysCollide()
    ensures CamelKey("a_b") == CamelKey("aB") == "aB"
  {
    assert "a_b"[1..] == "_b";
    assert "_b"[2..] == [];
    assert "aB"[1..] == "B";
    assert "B"[1..] == [];
  }

  // ---------------------------------------------------------------------------
  // JSON values

  /** A decoded JSON value; an object keeps its keys in insertion order. */
  datatype Json =
    | JNull
    | JBool(b: bool)
    | JNum(n: real)
    | JStr(s: string)
    | JArr(elems: seq<Json>)
    | JObj(fields: seq<Field>)

  datatype Field = Field(key: string, value: Json)

  predicate Primitive(j: Json) {
    !j.JArr? && !j.JObj?
  }

  /** The keys of an object, in order. */
  function Keys(fs: seq<Field>): (r: seq<string>)
    ensures |r| == |fs| && forall i :: 0 <= i < |fs| ==> r[i] == fs[i].key
  {
    if fs == [] then [] else [fs[0].key] + Keys(fs[1..])
  }

  predicate DistinctKeys(fs: seq<Field>) {
    forall i, j :: 0 <= i < j < |fs| ==> fs[i].key != fs[j].key
  }

  /** `obj[key]`: the value of the first field with that key. */
  function Lookup(fs: seq<Field>, key: string): (r: Option<Json>)
    ensures r.None? <==> key !in Keys(fs)
    ensures r.Some? ==> Field(key, r.value) in fs
  {
    if fs == [] then None
    else if fs[0].key == key then Some(fs[0].value)
    else Lookup(fs[1..], key)
  }

  /** `acc[key] = value`: an existing key keeps its place and takes the new
      value; a new key goes at the end. */
  function Assign(acc: seq<Field>, f: Field): (r: seq<Field>)
    ensures f.key in Keys(acc) ==> Keys(r) == Keys(acc)
    ensures f.key !in Keys(acc) ==> r == acc + [f]
  {
    if acc == [] then [f]
    else if acc[0].key == f.key then
      var r := [f] + acc[1..];
      assert forall i :: 0 <= i < |r| ==> Keys(r)[i] == Keys(acc)[i];
      r
    else
      var rest := Assign(acc[1..], f);
      var r := [acc[0]] + rest;
      ConsSplit(acc);
      KeysCons(acc[0], acc[1..]);
      KeysCons(acc[0], rest);
      assert f.key !in Keys(acc) ==> r == [acc[0]] + (acc[1..] + [f]);
      r
  }

  lemma ConsSplit(fs: seq<Field>)
    requires fs != []
    ensures fs == [fs[0]] + fs[1..]
  {
  }

  lemma KeysCons(x: Field, fs: seq<Field>)
    ensures Keys([x] + fs) == [x.key] + Keys(fs)
  {
  }

  lemma LookupCons(x: Field, fs: seq<Field>, key: string)
    requires x.key != key
    ensures Lookup([x] + fs, key) == Lookup(fs, key)
  {
    assert ([x] + fs)[1..] == fs;
  }

  /** After `acc[key] = value`, reading the key gives the value. */
  lemma {:induction false} AssignedValue(acc: seq<Field>, f: Field)
    ensures Lookup(Assign(acc, f), f.key) == Some(f.value)
  {
    if acc != [] && acc[0].key != f.key {
      AssignedValue(acc[1..], f);
      LookupCons(acc[0], Assign(acc[1..], f), f.key);
    }
  }

  /** Assigning one key leaves the others' values alone. */
  lemma {:induction false} AssignKeepsOthers(acc: seq<Field>, f: Field, k: string)
    requires k != f.key
    ensures Lookup(Assign(acc, f), k) == Lookup(acc, k)
  {
    if acc != [] && acc[0].key != f.key {
      AssignKeepsOthers(acc[1..], f, k);
      assert Assign(acc, f)[1..] == Assign(acc[1..], f);
    } else if acc != [] {
      assert Assign(acc, f)[1..] == acc[1..];
    }
  }

  /** Assigning into an object with distinct keys keeps them distinct. */
  lemma AssignDistinct(acc: seq<Field>, f: Field)
    requires DistinctKeys(acc)
    ensures DistinctKeys(Assign(acc, f))
  {
    var r := Assign(acc, f);
    if f.key !in Keys(acc) {
      assert forall i :: 0 <= i < |acc| ==> r[i] == acc[i];
    } else {
      assert forall i :: 0 <= i < |r| ==> r[i].key == Keys(r)[i] == Keys(acc)[i] == acc[i].key;
    }
  }

  /** `keys.reduce((acc, key) => { acc[key'] = v'; return acc }, acc0)`. */
  function AssignAll(acc: seq<Field>, fs: seq<Field>): (r: seq<Field>)
    ensures |r| <= |acc| + |fs|
    decreases |fs|
  {
    if fs == [] then acc else AssignAll(Assign(acc, fs[0]), fs[1..])
  }

  /** The reduction, started from an object with distinct keys, ends with one. */
  lemma {:induction false} AssignAllDistinctResult(acc: seq<Field>, fs: seq<Field>)
    requires DistinctKeys(acc)
    ensures DistinctKeys(AssignAll(acc, fs))
    decreases |fs|
  {
    if fs != [] {
      AssignDistinct(acc, fs[0]);
      AssignAllDistinctResult(Assign(acc, fs[0]), fs[1..]);
    }
  }

  /** With keys all distinct, the reduction is a plain copy. */
  lemma {:induction false} AssignAllDistinct(acc: seq<Field>, fs: seq<Field>)
    requires DistinctKeys(acc + fs)
    ensures AssignAll(acc, fs) == acc + fs
    decreases |fs|
  {
    if fs != [] {
      assert (acc + fs)[|acc|] == fs[0];
      assert fs[0].key !in Keys(acc) by {
        forall j | 0 <= j < |acc|
          ensures acc[j].key != fs[0].key
        {
          assert (acc + fs)[j] == acc[j];
        }
      }
      assert acc + [fs[0]] + fs[1..] == acc + fs;
      AssignAllDistinct(acc + [fs[0]], fs[1..]);
    }
  }

  // Object conversion

  function CamelField(f: Field): (r: Field)
    ensures r.key == CamelKey(f.key)
    decreases f, 0
  {
    Field(CamelKey(f.key), ToCamel(f.value))
  }

  /** `toCamelCase`: arrays element by element, objects key by key with the
      value converted too, and everything else as it is. */
  function ToCamel(j: Json): (r: Json)
    ensures Primitive(j) ==> r == j
    ensures j.JArr? ==> r.JArr? && |r.elems| == |j.elems|
    ensures j.JObj? ==> r.JObj? && |r.fields| <= |j.fields|
    decreases j, 1
  {
    match j
    case JArr(xs) => JArr(seq(|xs|, i requires 0 <= i < |xs| => ToCamel(xs[i])))
    case JObj(fs) => JObj(AssignAll([], seq(|fs|, i requires 0 <= i < |fs| => CamelField(fs[i]))))
    case _ => j
  }

  function SnakeField(f: Field): (r: Field)
    ensures r.key == SnakeKey(f.key) && r.value == f.value
  {
    Field(SnakeKey(f.key), f.value)
  }

  /** `toSnakeCase`: only the top-level keys change, values are copied as
      they are. An array is an object too, so it comes back as an object
      keyed by its indices. */
  function ToSnake(j: Json): (r: Json)
    ensures Primitive(j) ==> r == j
    ensures !Primitive(j) ==> r.JObj?
  {
    match j
    case JObj(fs) =>
      JObj(AssignAll([], seq(|fs|, i requires 0 <= i < |fs| => SnakeField(fs[i]))))
    case JArr(xs) =>
      var fs := seq(|xs|, i requires 0 <= i < |xs| => Field(Decimal(i), xs[i]));
      JObj(AssignAll([], seq(|fs|, i requires 0 <= i < |fs| => SnakeField(fs[i]))))
    case _ => j
  }

  /** Both conversions build an object with each key once. */
  lemma ConvertedKeysDistinct(j: Json)
    ensures j.JObj? ==> DistinctKeys(ToCamel(j).fields)
    ensures !Primitive(j) ==> DistinctKeys(ToSnake(j).fields)
  {
    match j
    case JObj(fs) =>
      AssignAllDistinctResult([], seq(|fs|, i requires 0 <= i < |fs| => CamelField(fs[i])));
      AssignAllDistinctResult([], seq(|fs|, i requires 0 <= i < |fs| => SnakeField(fs[i])));
    case JArr(xs) =>
      var fs := seq(|xs|, i requires 0 <= i < |xs| => Field(Decimal(i), xs[i]));
      AssignAllDistinctResult([], seq(|fs|, i requires 0 <= i < |fs| => SnakeField(fs[i])));
    case _ =>
  }

  /** The decimal numeral of an index, as `Object.keys` spells it. */
  function Decimal(n: nat): (r: string)
    ensures |r| > 0
    ensures forall i :: 0 <= i < |r| ==> '0' <= r[i] <= '9'
  {
    if n < 10 then [('0' as int + n) as char] else Decimal(n / 10) + Decimal(n % 10)
  }

  /** Each field camel-converted, before the keys are merged. */
  function MapCamel(fs: seq<Field>): (r: seq<Field>)
    ensures |r| == |fs| && forall i :: 0 <= i < |fs| ==> r[i] == CamelField(fs[i])
  {
    seq(|fs|, i requires 0 <= i < |fs| => CamelField(fs[i]))
  }

  /** Each field snake-converted, before the keys are merged. */
  function MapSnake(fs: seq<Field>): (r: seq<Field>)
    ensures |r| == |fs| && forall i :: 0 <= i < |fs| ==> r[i] == SnakeField(fs[i])
  {
    seq(|fs|, i requires 0 <= i < |fs| => SnakeField(fs[i]))
  }

  lemma ToCamelObject(fs: seq<Field>)
    ensures ToCamel(JObj(fs)) == JObj(AssignAll([], MapCamel(fs)))
  {
  }

  lemma ToSnakeObject(fs: seq<Field>)
    ensures ToSnake(JObj(fs)) == JObj(AssignAll([], MapSnake(fs)))
  {
  }

  /** The snake conversion does not descend: a nested object keeps its keys. */
  lemma SnakeIsShallow(k: string, inner: seq<Field>)
    ensures ToSnake(JObj([Field(k, JObj(inner))])) == JObj([Field(SnakeKey(k), JObj(inner))])
  {
    var fs := [Field(k, JObj(inner))];
    ToSnakeObject(fs);
    assert MapSnake(fs) == [Field(SnakeKey(k), JObj(inner))];
    AssignAllDistinct([], MapSnake(fs));
  }

  /** The camel conversion descends into nested objects. */
  lemma CamelIsDeep(k: string, inner: string, v: Json)
    requires Primitive(v)
    ensures ToCamel(JObj([Field(k, JObj([Field(inner, v)]))]))
            == JObj([Field(CamelKey(k), JObj([Field(CamelKey(inner), v)]))])
  {
    var innerFs := [Field(inner, v)];
    ToCamelObject(innerFs);
    assert MapCamel(innerFs) == [Field(CamelKey(inner), v)];
    AssignAllDistinct([], MapCamel(innerFs));
    var fs := [Field(k, JObj(innerFs))];
    ToCamelObject(fs);
    assert MapCamel(fs) == [Field(CamelKey(k), JObj([Field(CamelKey(inner), v)]))];
    AssignAllDistinct([], MapCamel(fs));
  }

  /** A flat record: distinct keys and primitive values. */
  predicate FlatRecord(fs: seq<Field>) {
    DistinctKeys(fs) && forall i :: 0 <= i < |fs| ==> Primitive(fs[i].value)
  }

  lemma SnakeKeysDistinct(fs: seq<Field>)
    requires DistinctKeys(fs)
    requires forall i :: 0 <= i < |fs| ==> NoUnderscoreLower(fs[i].key)
    ensures DistinctKeys(MapSnake(fs))
  {
    var snaked := MapSnake(fs);
    forall i, j | 0 <= i < j < |snaked|
      ensures snaked[i].key != snaked[j].key
    {
      if snaked[i].key == snaked[j].key {
        SnakeKeyInjective(fs[i].key, fs[j].key);
      }
    }
  }

  lemma CamelKeysDistinct(fs: seq<Field>)
    requires DistinctKeys(fs)
    requires forall i :: 0 <= i < |fs| ==> NoUpper(fs[i].key)
    ensures DistinctKeys(MapCamel(fs))
  {
    var cameled := MapCamel(fs);
    forall i, j | 0 <= i < j < |cameled|
      ensures cameled[i].key != cameled[j].key
    {
      if cameled[i].key == cameled[j].key {
        CamelKeyInjective(fs[i].key, fs[j].key);
      }
    }
  }

  /** Converting a flat record whose keys stay distinct just renames them. */
  lemma SnakeFlat(fs: seq<Field>)
    requires FlatRecord(fs)
    requires forall i :: 0 <= i < |fs| ==> NoUnderscoreLower(fs[i].key)
    ensures ToSnake(JObj(fs)) == JObj(MapSnake(fs))
  {
    SnakeKeysDistinct(fs);
    assert [] + MapSnake(fs) == MapSnake(fs);
    AssignAllDistinct([], MapSnake(fs));
    ToSnakeObject(fs);
  }

  lemma CamelFlat(fs: seq<Field>)
    requires FlatRecord(fs)
    requires forall i :: 0 <= i < |fs| ==> NoUpper(fs[i].key)
    ensures ToCamel(JObj(fs)) == JObj(MapCamel(fs))
  {
    CamelKeysDistinct(fs);
    assert [] + MapCamel(fs) == MapCamel(fs);
    AssignAllDistinct([], MapCamel(fs));
    ToCamelObject(fs);
  }

  /** A flat record in camelCase survives the trip to the database and back. */
  lemma CamelRecordRoundTrip(fs: seq<Field>)
    requires FlatRecord(fs)
    requires forall i :: 0 <= i < |fs| ==> NoUnderscoreLower(fs[i].key)
    ensures ToCamel(ToSnake(JObj(fs))) == JObj(fs)
  {
    SnakeFlat(fs);
    var snaked := MapSnake(fs);
    ToCamelObject(snaked);
    forall i | 0 <= i < |fs|
      ensures MapCamel(snaked)[i] == fs[i]
    {
      CamelOfSnake(fs[i].key);
    }
    assert MapCamel(snaked) == fs;
    assert [] + fs == fs;
    AssignAllDistinct([], fs);
  }

  /** A flat row in snake_case survives the trip to the application and back. */
  lemma SnakeRecordRoundTrip(fs: seq<Field>)
    requires FlatRecord(fs)
    requires forall i :: 0 <= i < |fs| ==> NoUpper(fs[i].key)
    ensures ToSnake(ToCamel(JObj(fs))) == JObj(fs)
  {
    CamelFlat(fs);
    var cameled := MapCamel(fs);
    ToSnakeObject(cameled);
    forall i | 0 <= i < |fs|
      ensures MapSnake(cameled)[i] == fs[i]
    {
      SnakeOfCamel(fs[i].key);
    }
    assert MapSnake(cameled) == fs;
    assert [] + fs == fs;
    AssignAllDistinct([], fs);
  }

  /** Two columns that collide under the camel conversion leave one field,
      in the first one's place, holding the later value. */
  lemma CamelCollisionKeepsLater(v: Json, w: Json)
    requires Primitive(v) && Primitive(w)
    ensures ToCamel(JObj([Field("a_b", v), Field("aB", w)])) == JObj([Field("aB", w)])
  {
    CamelKeysCollide();
    var fs := [Field("a_b", v), Field("aB", w)];
    ToCamelObject(fs);
    var mapped := MapCamel(fs);
    assert mapped[0] == Field("aB", v) && mapped[1] == Field("aB", w);
    var once := Assign([], mapped[0]);
    assert once == [Field("aB", v)];
    var twice := Assign(once, mapped[1]);
    assert twice == [Field("aB", w)];
    assert mapped[1..][1..] == [];
    assert AssignAll(once, mapped[1..]) == AssignAll(twice, []) == twice;
    assert AssignAll([], mapped) == AssignAll(once, mapped[1..]);
  }

  // ---------------------------------------------------------------------------
  // Sale numbering and the sale write

  /** `getNextSaleNumber`: the store's sale count (null read as 0) plus one;
      a query error propagates. */
  function NextSaleNumber(counted: Result<Option<nat>>): (r: Result<int>)
    ensures counted.Err? <==> r.Err?
    ensures counted.Ok? && counted.value.None? ==> r == Ok(1)
    ensures counted.Ok? && counted.value.Some? ==> r == Ok(counted.value.value + 1)
    ensures r.Ok? ==> r.value >= 1
  {
    match counted
    case Err(m) => Err(m)
    case Ok(None) => Ok(1)
    case Ok(Some(n)) => Ok(n + 1)
  }

  /** The sale numbers of one store, as the count query sees them. */
  function StoreNumbers(numbers: seq<(string, int)>, lojaId: string): (r: seq<int>)
    ensures |r| <= |numbers|
  {
    seq(|Filter(numbers, (p: (string, int)) => p.0 == lojaId)|,
        i requires 0 <= i < |Filter(numbers, (p: (string, int)) => p.0 == lojaId)| =>
          Filter(numbers, (p: (string, int)) => p.0 == lojaId)[i].1)
  }

  /** While a store's numbers are exactly 1..n, the next one is fresh and
      keeps them so; the scheme rests on every sale being kept. */
  lemma NextSaleNumberFresh(numbers: seq<(string, int)>, lojaId: string)
    requires var own := StoreNumbers(numbers, lojaId);
      forall i :: 0 <= i < |own| ==> own[i] == i + 1
    ensures var own := StoreNumbers(numbers, lojaId);
      && NextSaleNumber(Ok(Some(|own|))) == Ok(|own| + 1)
      && (|own| + 1) !in own
      && StoreNumbers(numbers + [(lojaId, |own| + 1)], lojaId) == own + [|own| + 1]
  {
    var p := (q: (string, int)) => q.0 == lojaId;
    FilterAppend(numbers, [(lojaId, |StoreNumbers(numbers, lojaId)| + 1)], p);
  }

  /** The two tables `createSale` writes to. */
  datatype SaleTables = SaleTables(sales: seq<Json>, saleItems: seq<Json>)

  /** An item row as inserted: its snake_case fields with `venda_id` set to
      the new sale's id. */
  function ItemRow(item: Json, saleId: string): (r: Json)
    ensures r.JObj? && Lookup(r.fields, "venda_id") == Some(JStr(saleId))
  {
    var base := ToSnake(item);
    var fs := if base.JObj? then base.fields else [];
    AssignedValue(fs, Field("venda_id", JStr(saleId)));
    JObj(Assign(fs, Field("venda_id", JStr(saleId))))
  }

  /** `createSale`: the sale row first; only if that insert returns the new
      row are the items inserted, all in one request. Any error answers
      false; a failed items insert leaves the sale row behind. */
  function CreateSale(t: SaleTables, sale: Json, items: seq<Json>,
                      saleInsert: Result<string>, itemsOk: bool): (r: (SaleTables, bool))
    ensures r.1 <==> saleInsert.Ok? && itemsOk
    ensures saleInsert.Err? ==> r.0 == t
    ensures saleInsert.Ok? ==> r.0.sales == t.sales + [ToSnake(sale)]
    ensures saleInsert.Ok? && !itemsOk ==> r.0.saleItems == t.saleItems
    ensures r.1 ==> |r.0.saleItems| == |t.saleItems| + |items|
                    && r.0.saleItems[..|t.saleItems|] == t.saleItems
    ensures r.1 ==> forall i :: |t.saleItems| <= i < |r.0.saleItems| ==>
                      r.0.saleItems[i].JObj? &&
                      Lookup(r.0.saleItems[i].fields, "venda_id") == Some(JStr(saleInsert.value))
  {
    match saleInsert
    case Err(_) => (t, false)
    case Ok(saleId) =>
      var withSale := t.(sales := t.sales + [ToSnake(sale)]);
      if !itemsOk then (withSale, false)
      else
        var rows := seq(|items|, i requires 0 <= i < |items| => ItemRow(items[i], saleId));
        (withSale.(saleItems := t.saleItems + rows), true)
  }

  /** A false answer can still leave a sale row with no items. */
  lemma FalseCanLeaveOrphanSale(t: SaleTables, sale: Json, items: seq<Json>, saleId: string)
    ensures var r := CreateSale(t, sale, items, Ok(saleId), false);
      !r.1 && |r.0.sales| == |t.sales| + 1 && r.0.saleItems == t.saleItems
  {
  }
}
