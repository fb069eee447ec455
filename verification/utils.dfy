/** The digit-string formatters and the percentage and margin arithmetic of
    the utility library. A formatter replaces the first run of digits its
    pattern matches, the way `String.prototype.replace` with a non-global
    regular expression does; every other character is left where it was. */
module Utils {
  import opened Common

  predicate IsDigit(c: char) { '0' <= c <= '9' }

  predicate AllDigits(s: string) {
    forall i :: 0 <= i < |s| ==> IsDigit(s[i])
  }

  /** `s.replace(/\D/g, '')` */
  function Digits(s: string): (r: string)
    ensures |r| <= |s|
  {
    if s == [] then [] else (if IsDigit(s[0]) then [s[0]] else []) + Digits(s[1..])
  }

  lemma {:induction false} DigitsOfDigits(s: string)
    requires AllDigits(s)
    ensures Digits(s) == s
  {
    if s != [] {
      DigitsOfDigits(s[1..]);
    }
  }

  /** Only digits survive. */
  lemma {:induction false} DigitsAreDigits(s: string)
    ensures AllDigits(Digits(s))
  {
    if s != [] {
      DigitsAreDigits(s[1..]);
    }
  }

  lemma {:induction false} DigitsAppend(a: string, b: string)
    ensures Digits(a + b) == Digits(a) + Digits(b)
  {
    if a == [] {
      assert a + b == b;
    } else {
      var h := if IsDigit(a[0]) then [a[0]] else [];
      assert (a + b)[0] == a[0] && (a + b)[1..] == a[1..] + b;
      assert Digits(a + b) == h + Digits(a[1..] + b);
      DigitsAppend(a[1..], b);
      assert Digits(a) == h + Digits(a[1..]);
    }
  }

  /** A string with no digit contributes none. */
  lemma DigitsOfPunctuation(p: string)
    requires forall i :: 0 <= i < |p| ==> !IsDigit(p[i])
    ensures Digits(p) == []
  {
    if p != [] {
      DigitsOfPunctuation(p[1..]);
    }
  }

  // ---------------------------------------------------------------------------
  // Patterns

  /** The four digit patterns: `(\d{3})(\d{3})(\d{3})(\d{2})` for CPF,
      `(\d{2})(\d{3})(\d{3})(\d{4})(\d{2})` for CNPJ, and
      `(\d{2})(\d{5})(\d{4})` / `(\d{2})(\d{4})(\d{4})` for phones. */
  datatype Mask = Cpf | Cnpj | Phone11 | Phone10

  function Width(m: Mask): (n: nat)
    ensures n >= 10
  {
    match m
    case Cpf => 11
    case Cnpj => 14
    case Phone11 => 11
    case Phone10 => 10
  }

  /** The replacement text for a matched run of digits: `$1.$2.$3-$4`,
      `$1.$2.$3/$4-$5` or `($1) $2-$3`. */
  function Apply(m: Mask, d: string): (r: string)
    requires |d| == Width(m)
  {
    match m
    case Cpf => d[..3] + "." + d[3..6] + "." + d[6..9] + "-" + d[9..]
    case Cnpj => d[..2] + "." + d[2..5] + "." + d[5..8] + "/" + d[8..12] + "-" + d[12..]
    case Phone11 => "(" + d[..2] + ") " + d[2..7] + "-" + d[7..]
    case Phone10 => "(" + d[..2] + ") " + d[2..6] + "-" + d[6..]
  }

  predicate NoDigits(p: string) {
    forall i :: 0 <= i < |p| ==> !IsDigit(p[i])
  }

  lemma AddPunct(x: string, p: string)
    requires NoDigits(p)
    ensures Digits(x + p) == Digits(x)
  {
    DigitsAppend(x, p);
    DigitsOfPunctuation(p);
  }

  lemma AddRun(x: string, d: string)
    requires AllDigits(d)
    ensures Digits(x + d) == Digits(x) + d
  {
    DigitsAppend(x, d);
    DigitsOfDigits(d);
  }

  /** The punctuation a pattern adds, and nothing else: stripping the
      non-digits from a formatted run gives the run back. */
  lemma ApplyKeepsDigits(m: Mask, d: string)
    requires |d| == Width(m) && AllDigits(d)
    ensures Digits(Apply(m, d)) == d
  {
    match m
    case Cpf => CpfKeepsDigits(d);
    case Cnpj => CnpjKeepsDigits(d);
    case Phone11 => PhoneKeepsDigits(d, 7);
    case Phone10 => PhoneKeepsDigits(d, 6);
  }

  lemma CpfKeepsDigits(d: string)
    requires |d| == 11 && AllDigits(d)
    ensures Digits(Apply(Cpf, d)) == d
  {
    var a, b, c, e := d[..3], d[3..6], d[6..9], d[9..];
    assert AllDigits(a) && AllDigits(b) && AllDigits(c) && AllDigits(e);
    var x1 := a + ".";
    AddPunct(a, ".");
    var x2 := x1 + b;
    AddRun(x1, b);
    var x3 := x2 + ".";
    AddPunct(x2, ".");
    var x4 := x3 + c;
    AddRun(x3, c);
    var x5 := x4 + "-";
    AddPunct(x4, "-");
    AddRun(x5, e);
    DigitsOfDigits(a);
    assert Apply(Cpf, d) == x5 + e;
    assert d == a + b + c + e;
  }

  lemma CnpjKeepsDigits(d: string)
    requires |d| == 14 && AllDigits(d)
    ensures Digits(Apply(Cnpj, d)) == d
  {
    var a, b, c, e, f := d[..2], d[2..5], d[5..8], d[8..12], d[12..];
    var x1 := a + ".";
    AddPunct(a, ".");
    var x2 := x1 + b;
    AddRun(x1, b);
    var x3 := x2 + ".";
    AddPunct(x2, ".");
    var x4 := x3 + c;
    AddRun(x3, c);
    var x5 := x4 + "/";
    AddPunct(x4, "/");
    var x6 := x5 + e;
    AddRun(x5, e);
    var x7 := x6 + "-";
    AddPunct(x6, "-");
    AddRun(x7, f);
    DigitsOfDigits(a);
    assert Apply(Cnpj, d) == x7 + f;
    assert d == a + b + c + e + f;
  }

  /** Both phone patterns: area code, a block ending at `cut`, the rest. */
  lemma PhoneKeepsDigits(d: string, cut: nat)
    requires (|d| == 11 && cut == 7) || (|d| == 10 && cut == 6)
    requires AllDigits(d)
    ensures |d| == 11 ==> Digits(Apply(Phone11, d)) == d
    ensures |d| == 10 ==> Digits(Apply(Phone10, d)) == d
  {
    var a, b, c := d[..2], d[2..cut], d[cut..];
    DigitsOfPunctuation("(");
    AddRun("(", a);
    AddPunct("(" + a, ") ");
    AddRun("(" + a + ") ", b);
    AddPunct("(" + a + ") " + b, "-");
    AddRun("(" + a + ") " + b + "-", c);
    assert d == a + b + c;
  }

  /** `n` digits in a row start at position `j`. */
  predicate RunAt(s: string, j: nat, n: nat) {
    j + n <= |s| && AllDigits(s[j..j + n])
  }

  lemma RunAtTail(s: string, j: nat, n: nat)
    requires |s| > 0
    ensures RunAt(s, j + 1, n) == RunAt(s[1..], j, n)
  {
    if j + 1 + n <= |s| {
      assert s[j + 1..j + 1 + n] == s[1..][j..j + n];
    }
  }

  /** The first position where `n` digits in a row start. */
  function FirstRun(s: string, n: nat): (r: Option<nat>)
    ensures r.Some? ==> RunAt(s, r.value, n)
    ensures r.Some? ==> forall j: nat :: j < r.value ==> !RunAt(s, j, n)
    ensures r.None? ==> forall j: nat :: !RunAt(s, j, n)
    decreases |s|
  {
    if |s| < n then None
    else if AllDigits(s[..n]) then
      assert s[0..n] == s[..n];
      Some(0)
    else
      assert !RunAt(s, 0, n) by { assert s[0..n] == s[..n]; }
      match FirstRun(s[1..], n)
      case None =>
        assert forall j: nat :: !RunAt(s, j, n) by {
          forall j: nat
            ensures !RunAt(s, j, n)
          {
            if j > 0 {
              RunAtTail(s, j - 1, n);
            }
          }
        }
        None
      case Some(k) =>
        RunAtTail(s, k, n);
        assert forall j: nat :: j < k + 1 ==> !RunAt(s, j, n) by {
          forall j: nat | j < k + 1
            ensures !RunAt(s, j, n)
          {
            if j > 0 {
              RunAtTail(s, j - 1, n);
            }
          }
        }
        Some(k + 1)
  }

  /** `s.replace(pattern, replacement)` for one of the digit patterns. */
  function ReplaceFirst(s: string, m: Mask): (r: string)
    ensures FirstRun(s, Width(m)).None? ==> r == s
    ensures FirstRun(s, Width(m)).Some? ==>
              var i := FirstRun(s, Width(m)).value;
              r == s[..i] + Apply(m, s[i..i + Width(m)]) + s[i + Width(m)..]
  {
    match FirstRun(s, Width(m))
    case None => s
    case Some(i) => s[..i] + Apply(m, s[i..i + Width(m)]) + s[i + Width(m)..]
  }

  /** Formatting never adds or drops a digit. */
  lemma ReplaceFirstKeepsDigits(s: string, m: Mask)
    ensures Digits(ReplaceFirst(s, m)) == Digits(s)
  {
    match FirstRun(s, Width(m))
    case None =>
    case Some(i) =>
      var w := Width(m);
      var run := s[i..i + w];
      ApplyKeepsDigits(m, run);
      DigitsOfDigits(run);
      DigitsAppend(s[..i] + Apply(m, run), s[i + w..]);
      DigitsAppend(s[..i], Apply(m, run));
      DigitsAppend(s[..i] + run, s[i + w..]);
      DigitsAppend(s[..i], run);
      assert s == s[..i] + run + s[i + w..];
  }

  // ---------------------------------------------------------------------------
  // Formatters

  /** `formatCPF` */
  function FormatCpf(s: string): (r: string)
    ensures |s| == 11 && AllDigits(s) ==> r == Apply(Cpf, s) && |r| == 14
    ensures (forall j: nat :: !RunAt(s, j, 11)) ==> r == s
  {
    var r := ReplaceFirst(s, Cpf);
    if |s| == 11 && AllDigits(s) then
      assert s[..11] == s && s[0..11] == s;
      r
    else r
  }

  /** `formatCNPJ` */
  function FormatCnpj(s: string): (r: string)
    ensures |s| == 14 && AllDigits(s) ==> r == Apply(Cnpj, s) && |r| == 18
    ensures (forall j: nat :: !RunAt(s, j, 14)) ==> r == s
  {
    var r := ReplaceFirst(s, Cnpj);
    if |s| == 14 && AllDigits(s) then
      assert s[..14] == s && s[0..14] == s;
      r
    else r
  }

  /** On a string of digits the first run starts at the front. */
  lemma ReplaceAtFront(c: string, m: Mask)
    requires AllDigits(c) && |c| >= Width(m)
    ensures ReplaceFirst(c, m) == Apply(m, c[..Width(m)]) + c[Width(m)..]
  {
    assert c[0..Width(m)] == c[..Width(m)];
    assert RunAt(c, 0, Width(m));
  }

  /** `formatPhone`: the digits only; eleven of them take the mobile
      pattern, otherwise the first ten take the landline pattern and any
      further digits follow unformatted. */
  function FormatPhone(s: string): (r: string)
    ensures var c := Digits(s);
      && (|c| == 11 ==> r == Apply(Phone11, c))
      && (|c| != 11 && |c| >= 10 ==> r == Apply(Phone10, c[..10]) + c[10..])
      && (|c| < 10 ==> r == c)
  {
    var c := Digits(s);
    DigitsAreDigits(s);
    if |c| == 11 then
      ReplaceAtFront(c, Phone11);
      assert c[..11] == c && c[11..] == [];
      ReplaceFirst(c, Phone11)
    else
      if |c| >= 10 then
        ReplaceAtFront(c, Phone10);
        ReplaceFirst(c, Phone10)
      else
        ReplaceFirst(c, Phone10)
  }

  /** The formatters change punctuation only. */
  lemma FormattersKeepDigits(s: string)
    ensures Digits(FormatCpf(s)) == Digits(s)
    ensures Digits(FormatCnpj(s)) == Digits(s)
    ensures Digits(FormatPhone(s)) == Digits(s)
  {
    ReplaceFirstKeepsDigits(s, Cpf);
    ReplaceFirstKeepsDigits(s, Cnpj);
    var c := Digits(s);
    DigitsAreDigits(s);
    DigitsOfDigits(c);
    ReplaceFirstKeepsDigits(c, Phone11);
    ReplaceFirstKeepsDigits(c, Phone10);
  }

  /** A CPF typed after a non-digit prefix is formatted in place. */
  lemma FormatCpfAfterPrefix(prefix: string, d: string)
    requires NoDigits(prefix) && |d| == 11 && AllDigits(d)
    ensures FormatCpf(prefix + d) == prefix + Apply(Cpf, d)
  {
    var s := prefix + d;
    forall j: nat | j < |prefix|
      ensures !RunAt(s, j, 11)
    {
      if j + 11 <= |s| {
        assert s[j..j + 11][0] == prefix[j];
      }
    }
    assert s[|prefix|..|prefix| + 11] == d;
    assert RunAt(s, |prefix|, 11);
    assert FirstRun(s, 11) == Some(|prefix|);
    assert s[..|prefix|] == prefix && s[|prefix| + 11..] == [];
  }

  // ---------------------------------------------------------------------------
  // Percentages and margins

  /** `calculatePercentage`: 0 for a zero total. */
  function Percentage(value: real, total: real): (r: real)
    ensures total == 0.0 ==> r == 0.0
    ensures total != 0.0 ==> r * total == value * 100.0
  {
    if total == 0.0 then 0.0 else (value / total) * 100.0
  }

  /** `calculateMargin`: the margin over the price, 0 for a zero price. */
  function Margin(cost: real, price: real): (r: real)
    ensures price == 0.0 ==> r == 0.0
    ensures price != 0.0 ==> r * price == (price - cost) * 100.0
    ensures price != 0.0 ==> (r == 100.0 <==> cost == 0.0)
  {
    if price == 0.0 then 0.0 else ((price - cost) / price) * 100.0
  }

  /** `calculatePriceFromMargin`: `cost / (1 - margin/100)`. A margin of
      100 divides by zero and gives no finite price (`None`). */
  function PriceFromMargin(cost: real, margin: real): (r: Option<real>)
    ensures r.None? <==> margin == 100.0
    ensures r.Some? ==> r.value * (100.0 - margin) == cost * 100.0
  {
    if 1.0 - margin / 100.0 == 0.0 then None
    else Some(cost / (1.0 - margin / 100.0))
  }

  /** The price a margin gives has that margin, for a non-zero cost. */
  lemma MarginOfPriceFromMargin(cost: real, margin: real)
    requires cost != 0.0 && margin != 100.0
    ensures PriceFromMargin(cost, margin).Some?
    ensures Margin(cost, PriceFromMargin(cost, margin).value) == margin
  {
    var p := PriceFromMargin(cost, margin).value;
    assert p * (100.0 - margin) == cost * 100.0;
    assert p != 0.0;
    var m := Margin(cost, p);
    assert m * p == (p - cost) * 100.0;
    assert m * p * (100.0 - margin) == (p - cost) * 100.0 * (100.0 - margin);
    assert (p - cost) * (100.0 - margin) == p * (100.0 - margin) - cost * (100.0 - margin);
    assert m * p * (100.0 - margin) == margin * p * (100.0 - margin);
  }

  /** And the margin of a price gives that price back. */
  lemma PriceFromMarginOfMargin(cost: real, price: real)
    requires cost != 0.0 && price != 0.0
    ensures PriceFromMargin(cost, Margin(cost, price)) == Some(price)
  {
    var m := Margin(cost, price);
    assert m / 100.0 == (price - cost) / price;
    assert (price - cost) / price == price / price - cost / price;
    assert price / price == 1.0;
    assert 1.0 - m / 100.0 == cost / price;
    assert cost / (cost / price) == price;
  }

  /** For a zero cost the round trip loses the margin. */
  lemma ZeroCostLosesMargin()
    ensures PriceFromMargin(0.0, 50.0) == Some(0.0)
    ensures Margin(0.0, 0.0) == 0.0
  {
  }
}
