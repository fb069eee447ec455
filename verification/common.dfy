/** Shared vocabulary: optional values, results of remote calls, JavaScript
    truthiness of the optional fields the application tests with `!x` or
    `x || d`, lower-casing of ASCII and Latin-1 letters and the list helpers the pages use
    (`filter`, `reduce` into a sum, `filter(...).length`). */
module Common {

  /** `T | null` / `T | undefined` where the two absences behave alike. */
  datatype Option<+T> = None | Some(value: T) {
    function GetOr(default: T): T {
      match this
      case Some(v) => v
      case None => default
    }
  }

  /** Outcome of a call into code outside the model (a query that may throw). */
  datatype Result<+T> = Ok(value: T) | Err(message: string)

  /** An optional id as JavaScript holds it: `undefined`, `null` or a string.
      Strict equality (`===`) on these values is datatype equality, so
      `Null` and `Undefined` are different. */
  datatype MaybeId = Undefined | Null | Id(id: string)

  /** `!!v` for an optional id: the empty string is falsy too. */
  predicate TruthyId(v: MaybeId) {
    v.Id? && v.id != ""
  }

  /** `v || undefined` */
  function OrUndefined(v: MaybeId): (r: MaybeId)
    ensures TruthyId(v) ==> r == v
    ensures !TruthyId(v) ==> r == Undefined
  {
    if TruthyId(v) then v else Undefined
  }

  /** `v || null` */
  function OrNull(v: MaybeId): (r: MaybeId)
    ensures TruthyId(v) ==> r == v
    ensures !TruthyId(v) ==> r == Null
  {
    if TruthyId(v) then v else Null
  }

  /** `!!s` for an optional string. */
  predicate TruthyStr(s: Option<string>) {
    s.Some? && s.value != ""
  }

  /** `!!x` for an optional number (NaN is not modelled). */
  predicate TruthyNum(x: Option<real>) {
    x.Some? && x.value != 0.0
  }

  /** `x || d` for an optional number: `d` when `x` is absent or zero. */
  function NumOr(x: Option<real>, d: real): (r: real)
    ensures TruthyNum(x) ==> r == x.value
    ensures !TruthyNum(x) ==> r == d
  {
    if TruthyNum(x) then x.value else d
  }

  /** `s || undefined` for a form field: the empty string becomes absent. */
  function NonEmpty(s: string): (r: Option<string>)
    ensures r.None? <==> s == ""
    ensures r.Some? ==> r.value == s
  {
    if s == "" then None else Some(s)
  }

  /** `Math.max` / `Math.min` on two numbers. */
  function Max(a: real, b: real): real { if a >= b then a else b }
  function Min(a: real, b: real): real { if a <= b then a else b }

  predicate IsUpper(c: char) { 'A' <= c <= 'Z' }
  predicate IsLower(c: char) { 'a' <= c <= 'z' }

  /** A Latin-1 capital with a one-character lower case: À to Þ, except the
      multiplication sign. This covers the accented capitals of Portuguese. */
  predicate IsLatinUpper(c: char) { '\U{C0}' <= c <= '\U{DE}' && c != '\U{D7}' }

  /** `String.prototype.toLowerCase` on one character, for ASCII and Latin-1
      letters; every other character is kept. */
  function LowerChar(c: char): (r: char)
    ensures IsUpper(c) ==> IsLower(r)
    ensures IsLatinUpper(c) ==> r as int == c as int + 0x20
    ensures !IsUpper(c) && !IsLatinUpper(c) ==> r == c
  {
    if IsUpper(c) then (c as int - 'A' as int + 'a' as int) as char
    else if IsLatinUpper(c) then (c as int + 0x20) as char
    else c
  }

  /** `String.prototype.toUpperCase` on one ASCII letter; other characters
      are kept. */
  function UpperChar(c: char): (r: char)
    ensures IsLower(c) ==> IsUpper(r)
    ensures !IsLower(c) ==> r == c
  {
    if IsLower(c) then (c as int - 'a' as int + 'A' as int) as char else c
  }

  /** `String.prototype.toLowerCase`, for ASCII and Latin-1 letters. */
  function Lower(s: string): (r: string)
    ensures |r| == |s|
    ensures forall i :: 0 <= i < |s| ==> r[i] == LowerChar(s[i])
  {
    if s == [] then [] else [LowerChar(s[0])] + Lower(s[1..])
  }

  /** `s.includes(t)`: `t` occurs in `s` at some position. */
  predicate Contains(s: string, t: string)
    decreases |s|
  {
    |t| <= |s| && (s[..|t|] == t || (|s| > 0 && Contains(s[1..], t)))
  }

  /** `s?.includes(t)` as a condition: false when `s` is absent. */
  predicate OptContains(s: Option<string>, t: string) {
    s.Some? && Contains(s.value, t)
  }

  /** `xs.filter(p)`. */
  function Filter<T>(xs: seq<T>, p: T -> bool): (r: seq<T>)
    ensures |r| <= |xs|
    ensures forall i :: 0 <= i < |r| ==> r[i] in xs && p(r[i])
    ensures forall i :: 0 <= i < |xs| && p(xs[i]) ==> xs[i] in r
  {
    if xs == [] then []
    else if p(xs[0]) then [xs[0]] + Filter(xs[1..], p)
    else Filter(xs[1..], p)
  }

  /** `xs.filter(p).length`. */
  function Count<T>(xs: seq<T>, p: T -> bool): (n: nat)
    ensures n <= |xs|
    ensures n == 0 <==> forall i :: 0 <= i < |xs| ==> !p(xs[i])
  {
    if xs == [] then 0
    else (if p(xs[0]) then 1 else 0) + Count(xs[1..], p)
  }

  /** `xs.reduce((sum, x) => sum + f(x), 0)` over exact reals. */
  function Sum<T>(xs: seq<T>, f: T -> real): real {
    if xs == [] then 0.0 else f(xs[0]) + Sum(xs[1..], f)
  }

  lemma {:induction false} FilterLength<T>(xs: seq<T>, p: T -> bool)
    ensures |Filter(xs, p)| == Count(xs, p)
  {
    if xs != [] {
      FilterLength(xs[1..], p);
    }
  }

  lemma {:induction false} SumAppend<T>(xs: seq<T>, ys: seq<T>, f: T -> real)
    ensures Sum(xs + ys, f) == Sum(xs, f) + Sum(ys, f)
  {
    if xs == [] {
      assert xs + ys == ys;
    } else {
      assert (xs + ys)[1..] == xs[1..] + ys;
      SumAppend(xs[1..], ys, f);
    }
  }

  /** Taking one term out of a sum. */
  lemma {:induction false} SumRemoveAt<T>(ys: seq<T>, k: nat, f: T -> real)
    requires k < |ys|
    ensures Sum(ys, f) == f(ys[k]) + Sum(ys[..k] + ys[k+1..], f)
  {
    var head, rest := ys[..k], ys[k+1..];
    var tail := [ys[k]] + rest;
    assert head + tail == ys;
    assert tail[0] == ys[k] && tail[1..] == rest;
    assert Sum(tail, f) == f(ys[k]) + Sum(rest, f);
    SumAppend(head, tail, f);
    SumAppend(head, rest, f);
  }

  lemma MultisetRemoveAt<T>(ys: seq<T>, k: nat)
    requires k < |ys|
    ensures multiset(ys[..k] + ys[k+1..]) == multiset(ys) - multiset{ys[k]}
  {
    assert ys == ys[..k] + [ys[k]] + ys[k+1..];
  }

  /** Matching the head of one list with an equal element of a permutation
      of it leaves permutations of each other. */
  lemma RemoveMatched<T>(xs: seq<T>, ys: seq<T>, k: nat)
    requires multiset(xs) == multiset(ys)
    requires xs != [] && k < |ys| && ys[k] == xs[0]
    ensures multiset(xs[1..]) == multiset(ys[..k] + ys[k+1..])
  {
    MultisetRemoveAt(ys, k);
    MultisetRemoveAt(xs, 0);
    assert xs[..0] + xs[1..] == xs[1..];
  }

  /** Some index of a list holds an element of its multiset. */
  lemma IndexOf<T>(ys: seq<T>, x: T) returns (k: nat)
    requires x in multiset(ys)
    ensures k < |ys| && ys[k] == x
  {
    assert x in ys;
    k :| 0 <= k < |ys| && ys[k] == x;
  }

  /** A sum does not depend on the order of its terms. */
  lemma {:induction false} SumPermutation<T>(xs: seq<T>, ys: seq<T>, f: T -> real)
    requires multiset(xs) == multiset(ys)
    ensures Sum(xs, f) == Sum(ys, f)
    decreases |xs|
  {
    if xs == [] {
      assert |ys| == |multiset(ys)| == 0;
    } else {
      assert xs[0] in multiset(xs);
      var k := IndexOf(ys, xs[0]);
      RemoveMatched(xs, ys, k);
      SumPermutation(xs[1..], ys[..k] + ys[k+1..], f);
      SumRemoveAt(ys, k, f);
    }
  }

  lemma SumSingleton<T>(x: T, f: T -> real)
    ensures Sum([x], f) == f(x)
  {
    assert [x][1..] == [];
  }

  /** `xs.findIndex(p)`, with `None` for -1. */
  function FindFirst<T>(xs: seq<T>, p: T -> bool): (r: Option<nat>)
    ensures r.Some? ==> r.value < |xs| && p(xs[r.value])
    ensures r.Some? ==> forall j :: 0 <= j < r.value ==> !p(xs[j])
    ensures r.None? ==> forall j :: 0 <= j < |xs| ==> !p(xs[j])
  {
    if xs == [] then None
    else if p(xs[0]) then Some(0)
    else match FindFirst(xs[1..], p)
      case None => None
      case Some(k) => Some(k + 1)
  }

  /** `xs.find(p)`, with `None` for `undefined`. */
  function Find<T>(xs: seq<T>, p: T -> bool): (r: Option<T>)
    ensures r.Some? ==> r.value in xs && p(r.value)
    ensures r.Some? ==> exists i :: 0 <= i < |xs| && xs[i] == r.value
                          && forall j :: 0 <= j < i ==> !p(xs[j])
    ensures r.None? ==> forall j :: 0 <= j < |xs| ==> !p(xs[j])
  {
    match FindFirst(xs, p)
    case None => None
    case Some(i) => Some(xs[i])
  }

  /** `xs.map(x => p(x) ? v : x)`. */
  function ReplaceWhere<T>(xs: seq<T>, p: T -> bool, v: T): (r: seq<T>)
    ensures |r| == |xs|
    ensures forall i :: 0 <= i < |xs| && p(xs[i]) ==> r[i] == v
    ensures forall i :: 0 <= i < |xs| && !p(xs[i]) ==> r[i] == xs[i]
  {
    seq(|xs|, i requires 0 <= i < |xs| => if p(xs[i]) then v else xs[i])
  }

  lemma {:induction false} FilterAll<T>(xs: seq<T>, p: T -> bool)
    requires forall i :: 0 <= i < |xs| ==> p(xs[i])
    ensures Filter(xs, p) == xs
  {
    if xs != [] {
      FilterAll(xs[1..], p);
    }
  }

  lemma {:induction false} FilterAppend<T>(xs: seq<T>, ys: seq<T>, p: T -> bool)
    ensures Filter(xs + ys, p) == Filter(xs, p) + Filter(ys, p)
  {
    if xs == [] {
      assert xs + ys == ys;
    } else {
      assert (xs + ys)[1..] == xs[1..] + ys;
      FilterAppend(xs[1..], ys, p);
    }
  }

  /** `filter` keeps every passing element as often as it occurs and drops
      the others; with `FilterAppend` this pins the order too. */
  lemma {:induction false} FilterMultiplicity<T>(xs: seq<T>, p: T -> bool, x: T)
    ensures multiset(Filter(xs, p))[x] == if p(x) then multiset(xs)[x] else 0
  {
    if xs != [] {
      FilterMultiplicity(xs[1..], p, x);
      assert xs == [xs[0]] + xs[1..];
    }
  }

  /** Two tests that agree on every element filter alike. */
  lemma {:induction false} FilterCongruent<T>(xs: seq<T>, p: T -> bool, q: T -> bool)
    requires forall i :: 0 <= i < |xs| ==> p(xs[i]) == q(xs[i])
    ensures Filter(xs, p) == Filter(xs, q)
  {
    if xs != [] {
      FilterCongruent(xs[1..], p, q);
    }
  }

  /** `xs.find(p)` is the head of `xs.filter(p)`. */
  lemma {:induction false} FirstMatchIsHead<T>(xs: seq<T>, p: T -> bool)
    ensures var f := Filter(xs, p); Find(xs, p) == if f == [] then None else Some(f[0])
  {
    if xs != [] && !p(xs[0]) {
      FirstMatchIsHead(xs[1..], p);
      assert Filter(xs, p) == Filter(xs[1..], p);
      if Find(xs[1..], p).Some? {
        assert FindFirst(xs, p) == Some(FindFirst(xs[1..], p).value + 1);
      }
    }
  }

  /** A count that reaches the length means every element passed. */
  lemma {:induction false} CountAllWhenFull<T>(xs: seq<T>, p: T -> bool)
    requires Count(xs, p) == |xs|
    ensures forall i :: 0 <= i < |xs| ==> p(xs[i])
  {
    if xs != [] {
      assert Count(xs[1..], p) <= |xs[1..]|;
      CountAllWhenFull(xs[1..], p);
      assert forall i :: 1 <= i < |xs| ==> xs[i] == xs[1..][i - 1];
    }
  }

  /** Elements pass exactly one of two complementary tests. */
  lemma {:induction false} CountComplement<T>(xs: seq<T>, p: T -> bool, q: T -> bool)
    requires forall i :: 0 <= i < |xs| ==> (q(xs[i]) <==> !p(xs[i]))
    ensures Count(xs, p) + Count(xs, q) == |xs|
  {
    if xs != [] {
      CountComplement(xs[1..], p, q);
    }
  }

}
