/** What a dollar cell of the legacy sheets is read as: the exact decimal in cents, or nothing. */
module DollarCells {
  import opened Basics
  import opened Rounding
  import opened Text
  import opened LegacyCash

  // --- Decimals. ---

  function Pow10(n: nat): (p: int)
    ensures p > 0
  {
    if n == 0 then 1 else 10 * Pow10(n - 1)
  }

  lemma {:induction false} DigitsJoin(a: string, b: string)
    requires AllDigits(a) && AllDigits(b)
    ensures DigitsValue(a + b) == DigitsValue(a) * Pow10(|b|) + DigitsValue(b)
    decreases |b|
  {
    if b == "" {
      assert a + b == a;
    } else {
      var n := |b| - 1;
      DigitsJoin(a, b[..n]);
      LastDigit(a + b[..n], b[n]);
      assert a + b == a + b[..n] + [b[n]];
      Regroup(DigitsValue(a), Pow10(n));
    }
  }

  lemma LastDigit(s: string, c: char)
    requires AllDigits(s) && IsDigit(c)
    ensures AllDigits(s + [c]) && DigitsValue(s + [c]) == DigitsValue(s) * 10 + (c as int - '0' as int)
  {
    assert (s + [c])[..|s|] == s;
  }

  lemma Regroup(x: int, p: int)
    ensures (x * p) * 10 == x * (10 * p)
  {
  }

  lemma {:induction false} DigitsBelow(s: string)
    requires AllDigits(s)
    ensures DigitsValue(s) < Pow10(|s|)
    ensures DigitsValue(s) == 0 <==> forall i :: 0 <= i < |s| ==> s[i] == '0'
  {
    if s != "" {
      DigitsBelow(s[..|s| - 1]);
    }
  }

  /** The cents of a fraction are its exact hundredths, if it has no more. */
  lemma {:induction false} FractionIs(f: string)
    requires AllDigits(f)
    ensures FractionCents(f).Some? <==> (100 * DigitsValue(f)) % Pow10(|f|) == 0
    ensures FractionCents(f).Some? ==>
      0 <= FractionCents(f).value < 100 && FractionCents(f).value * Pow10(|f|) == 100 * DigitsValue(f)
  {
    DigitsBelow(f);
    if |f| <= 2 {
      assert Pow10(0) == 1 && Pow10(1) == 10 && Pow10(2) == 100;
      if |f| == 0 { assert f == ""; }
    } else {
      LongFraction(f);
    }
  }

  lemma LongFraction(f: string)
    requires AllDigits(f) && |f| > 2
    ensures FractionCents(f).Some? <==> (100 * DigitsValue(f)) % Pow10(|f|) == 0
    ensures FractionCents(f).Some? ==>
      0 <= FractionCents(f).value < 100 && FractionCents(f).value * Pow10(|f|) == 100 * DigitsValue(f)
  {
    var a, b := f[..2], f[2..];
    var p := Pow10(|b|);
    assert f == a + b;
    DigitsJoin(a, b);
    DigitsBelow(a);
    DigitsBelow(b);
    assert Pow10(0) == 1 && Pow10(1) == 10 && Pow10(2) == 100;
    PowerOfBoth(2, |b|);
    Hundredths(DigitsValue(a), DigitsValue(b), p);
    assert (forall i :: 0 <= i < |b| ==> b[i] == '0') <==> (forall i :: 2 <= i < |f| ==> f[i] == '0') by {
      if forall i :: 0 <= i < |b| ==> b[i] == '0' {
        forall i | 2 <= i < |f| ensures f[i] == '0' { assert b[i - 2] == f[i]; }
      }
    }
  }

  lemma {:induction false} PowerOfBoth(m: nat, n: nat)
    ensures Pow10(m + n) == Pow10(m) * Pow10(n)
    decreases m
  {
    if m > 0 {
      PowerOfBoth(m - 1, n);
      assert 10 * (Pow10(m - 1) * Pow10(n)) == (10 * Pow10(m - 1)) * Pow10(n);
    }
  }

  /** `x` hundredths and `y` parts of a `p`-th of one. */
  lemma Hundredths(x: int, y: int, p: int)
    requires p > 0 && 0 <= y < p
    ensures (100 * (x * p + y)) % (100 * p) == 0 <==> y == 0
    ensures y == 0 ==> x * (100 * p) == 100 * (x * p + y)
  {
    var whole := 100 * p;
    var rest := 100 * y;
    assert 100 * (x * p + y) == x * whole + rest;
    RestOf(x, whole, rest);
  }

  lemma RestOf(x: int, whole: int, rest: int)
    requires whole > 0 && 0 <= rest < whole
    ensures (x * whole + rest) % whole == rest
  {
    var n := x * whole + rest;
    DivMod(n, whole);
    var q := n / whole;
    if q < x { MulOrder(q, x, whole); } else if x < q { MulOrder(x, q, whole); }
  }

  // --- Amounts. ---

  lemma CutAmount(w: string, f: string)
    requires AllDigits(w) && AllDigits(f) && w + f != ""
    ensures ParseDollars(w + "." + f) == Amount(w, f)
    ensures w != "" ==> ParseDollars(w) == Amount(w, "")
  {
    var s := w + "." + f;
    CutAt(w, f, '.');
    assert s == w + ['.'] + f;
    assert s[0] == (if w == "" then '.' else w[0]) && s[|s| - 1] == (if f == "" then '.' else f[|f| - 1]);
    BareReads(s);
    if w != "" {
      BareReads(w);
      CutNothing(w, '.');
    }
  }

  /** With no sign, symbol, separator or space to begin or end it a cell is its body. */
  lemma BareReads(s: string)
    requires s != "" && (IsDigit(s[0]) || s[0] == '.') && !IsSpace(s[|s| - 1]) && ',' !in s
    ensures ParseDollars(s) == Amount(Cut(s, '.').0, Cut(s, '.').1)
  {
    TrimKeeps(s);
    NothingRemoved(s, ',');
    assert TrimStart(s) == s && StripFront(s, '$') == s;
  }

  lemma {:induction false} CutNothing(s: string, c: char)
    requires c !in s
    ensures Cut(s, c) == (s, "")
  {
    if s != "" {
      CutNothing(s[1..], c);
      assert [s[0]] + s[1..] == s;
    }
  }

  /** So many hundredths of a `p`-th, if they are a whole number of cents that fits. */
  function ExactCents(n: int, p: int): Option<int>
    requires p > 0
  {
    if n % p == 0 && n / p <= I64_MAX then Some(n / p) else None
  }

  /** Whole dollars and the cents of their fraction, if they fit. */
  function Together(d: int, c: Option<int>): Option<int> {
    match c case None => None case Some(x) => if 100 * d + x <= I64_MAX then Some(100 * d + x) else None
  }

  /** A decimal is read as its exact amount in cents, and not at all if that is no whole number
      or takes more than 64 bits. */
  lemma {:induction false} DecimalReads(w: string, f: string)
    requires AllDigits(w) && AllDigits(f) && w + f != ""
    ensures ParseDollars(w + "." + f) == ExactCents(100 * DigitsValue(w + f), Pow10(|f|))
    ensures w != "" ==> ParseDollars(w) == ExactCents(100 * DigitsValue(w), 1)
  {
    var (d, v, p, c) := (DigitsValue(w), DigitsValue(f), Pow10(|f|), FractionCents(f));
    assert ParseDollars(w + "." + f) == Together(d, c) by {
      CutAmount(w, f);
      AmountIs(w, f);
    }
    assert DigitsValue(w + f) == d * p + v by { DigitsJoin(w, f); }
    assert (c.Some? <==> (100 * v) % p == 0) && (c.Some? ==> c.value * p == 100 * v) by { FractionIs(f); }
    PartsCombine(d, v, p, c);
    if w != "" { WholeReads(w, f); }
  }

  lemma WholeReads(w: string, f: string)
    requires AllDigits(w) && AllDigits(f) && w != ""
    ensures ParseDollars(w) == ExactCents(100 * DigitsValue(w), 1)
  {
    assert ParseDollars(w) == Amount(w, "") by { CutAmount(w, f); }
    NoFraction(w);
    WholeCents(DigitsValue(w));
  }

  lemma NoFraction(w: string)
    requires AllDigits(w) && w != ""
    ensures Amount(w, "") == Together(DigitsValue(w), Some(0))
  {
    AmountIs(w, "");
  }

  lemma WholeCents(d: int)
    ensures Together(d, Some(0)) == ExactCents(100 * d, 1)
  {
  }

  lemma AmountIs(w: string, f: string)
    requires AllDigits(w) && AllDigits(f) && w + f != ""
    ensures Amount(w, f) == Together(DigitsValue(w), FractionCents(f))
  {
    FractionIs(f);
    WholeParses(w);
  }

  lemma PartsCombine(d: int, v: int, p: int, c: Option<int>)
    requires p > 0 && (c.Some? <==> (100 * v) % p == 0) && (c.Some? ==> c.value * p == 100 * v)
    ensures Together(d, c) == ExactCents(100 * (d * p + v), p)
  {
    if c.Some? {
      SumOfParts(d, c.value, p, v);
      ExactQuotient(100 * d + c.value, p);
    } else {
      Times100(d, p, v);
      SameRest(100 * d, p, 100 * v);
    }
  }

  lemma WholeParses(w: string)
    requires AllDigits(w)
    ensures w != "" ==> ParseI64(w) == if FitsI64(DigitsValue(w)) then Some(DigitsValue(w)) else None
  {
    if w != "" { assert IsDigit(w[0]); }
  }

  lemma Times100(d: int, p: int, v: int)
    ensures 100 * (d * p + v) == (100 * d) * p + 100 * v
  {
  }

  lemma SumOfParts(d: int, c: int, p: int, v: int)
    requires c * p == 100 * v
    ensures 100 * (d * p + v) == (100 * d + c) * p
  {
    assert (100 * d + c) * p == (100 * d) * p + c * p;
    Times100(d, p, v);
  }

  lemma ExactQuotient(x: int, p: int)
    requires p > 0
    ensures (x * p) % p == 0 && (x * p) / p == x
  {
    RestOf(x, p, 0);
    DivMod(x * p, p);
    if (x * p) / p < x { MulOrder((x * p) / p, x, p); } else if x < (x * p) / p { MulOrder(x, (x * p) / p, p); }
  }

  lemma SameRest(x: int, p: int, v: int)
    requires p > 0
    ensures (x * p + v) % p == v % p
  {
    DivMod(v, p);
    assert x * p + v == (x + v / p) * p + v % p;
    RestOf(x + v / p, p, v % p);
  }

  // --- Signs, symbols and blanks. ---

  function Negated(v: Option<int>): Option<int> {
    match v case None => None case Some(n) => Some(-n)
  }

  predicate Plain(s: string) {
    s != "" && IsDigit(s[0]) && IsDigit(s[|s| - 1])
  }

  lemma PlainReads(s: string)
    requires Plain(s)
    ensures ParseDollars(s) == ParseBody(s) && StripFront(s, '$') == s && TrimStart(s) == s
  {
    TrimKeeps(s);
  }

  /** A minus sign negates. */
  lemma {:induction false} MinusReads(s: string)
    requires Plain(s)
    ensures ParseDollars("-" + s) == Negated(ParseDollars(s))
  {
    PlainReads(s);
    SignedParse(s);
  }

  /** A dollar sign is passed over. */
  lemma {:induction false} DollarSignReads(s: string)
    requires Plain(s)
    ensures ParseDollars("$" + s) == ParseDollars(s)
  {
    PlainReads(s);
    var t := "$" + s;
    assert t[0] == '$' && t[|t| - 1] == s[|s| - 1] && t[1..] == s;
    TrimKeeps(t);
    assert Cleaned(t) == Cleaned(s);
  }

  /** And so is a separator. */
  lemma {:induction false} SeparatorReads(a: string, b: string)
    requires Plain(a) && Plain(b)
    ensures ParseDollars(a + "," + b) == ParseDollars(a + b)
  {
    var t := a + "," + b;
    assert Plain(t) && Plain(a + b);
    PlainReads(t);
    PlainReads(a + b);
    SeparatorDropped(a, b);
  }

  lemma SeparatorDropped(a: string, b: string)
    ensures Without(a + "," + b, ',') == Without(a + b, ',')
  {
    WithoutJoin(a + ",", b, ',');
    WithoutJoin(a, ",", ',');
    WithoutJoin(a, b, ',');
    assert "," == [','] && [','][1..] == "";
  }

  lemma {:induction false} WithoutJoin(a: string, b: string, c: char)
    ensures Without(a + b, c) == Without(a, c) + Without(b, c)
  {
    if a == "" {
      assert a + b == b;
    } else {
      WithoutJoin(a[1..], b, c);
      assert (a + b)[0] == a[0] && (a + b)[1..] == a[1..] + b;
      Regrouped(if a[0] == c then "" else [a[0]], Without(a[1..], c), Without(b, c));
    }
  }

  lemma Regrouped(x: string, y: string, z: string)
    ensures x + (y + z) == (x + y) + z
  {
  }

  predicate AllSpace(s: string) {
    forall i :: 0 <= i < |s| ==> IsSpace(s[i])
  }

  /** Space around a cell does not matter. */
  lemma {:induction false} SpaceAround(before: string, s: string, after: string)
    requires AllSpace(before) && AllSpace(after) && s != "" && !IsSpace(s[0]) && !IsSpace(s[|s| - 1])
    ensures ParseDollars(before + s + after) == ParseDollars(s)
  {
    TrimAround(before, s, after);
    TrimKeeps(s);
    ReadsTrimmed(before + s + after, s);
  }

  lemma ReadsTrimmed(s: string, t: string)
    requires Trim(s) == Trim(t)
    ensures ParseDollars(s) == ParseDollars(t)
  {
  }

  lemma TrimAround(before: string, s: string, after: string)
    requires AllSpace(before) && AllSpace(after) && s != "" && !IsSpace(s[0]) && !IsSpace(s[|s| - 1])
    ensures Trim(before + s + after) == s
  {
    var t := s + after;
    Regrouped(before, s, after);
    TrimFront(before, t);
    assert t[0] == s[0];
    TrimBack(s, after);
  }

  lemma {:induction false} TrimFront(before: string, s: string)
    requires AllSpace(before)
    ensures TrimStart(before + s) == TrimStart(s)
  {
    if before == "" {
      assert before + s == s;
    } else {
      TrimFront(before[1..], s);
      assert (before + s)[1..] == before[1..] + s;
    }
  }

  lemma {:induction false} TrimBack(s: string, after: string)
    requires AllSpace(after) && s != "" && !IsSpace(s[|s| - 1])
    ensures TrimEnd(s + after) == s
    decreases |after|
  {
    if after == "" {
      assert s + after == s;
    } else {
      var n := |after| - 1;
      TrimBack(s, after[..n]);
      assert (s + after)[..|s + after| - 1] == s + after[..n];
    }
  }

  predicate AmountChar(c: char) {
    IsDigit(c) || IsSpace(c) || c in {'-', '$', ',', '.'}
  }

  /** A blank cell, an error cell and one with any other character are not read. */
  lemma {:induction false} OthersRefused(s: string)
    requires AllSpace(s) || (Trim(s) != "" && Trim(s)[0] == '#') || exists i :: 0 <= i < |s| && !AmountChar(s[i])
    ensures ParseDollars(s) == None
  {
    if AllSpace(s) {
      TrimFront(s, "");
      assert s + "" == s;
    } else if i :| 0 <= i < |s| && !AmountChar(s[i]) {
      TrimHolds(s, s[i]);
      var t := Trim(s);
      var body := if t != "" && t[0] == '-' then t[1..] else t;
      var c := s[i];
      assert c in body;
      CleanedHolds(body, c);
      CutHolds(Cleaned(body), '.', c);
    }
  }

  lemma {:induction false} TrimHolds(s: string, c: char)
    requires c in s && !IsSpace(c)
    ensures c in Trim(s)
  {
    FrontHolds(s, c);
    BackHolds(TrimStart(s), c);
  }

  lemma {:induction false} FrontHolds(s: string, c: char)
    requires c in s && !IsSpace(c)
    ensures c in TrimStart(s)
  {
    if IsSpace(s[0]) {
      assert c in s[1..];
      FrontHolds(s[1..], c);
    }
  }

  lemma {:induction false} BackHolds(s: string, c: char)
    requires c in s && !IsSpace(c)
    ensures c in TrimEnd(s)
  {
    var n := |s| - 1;
    if IsSpace(s[n]) {
      assert s == s[..n] + [s[n]];
      BackHolds(s[..n], c);
    }
  }

  lemma {:induction false} StripHolds(s: string, x: char, c: char)
    requires c in s && c != x
    ensures c in StripFront(s, x)
  {
    if s[0] == x {
      assert c in s[1..];
      StripHolds(s[1..], x, c);
    }
  }

  lemma {:induction false} WithoutHolds(s: string, x: char, c: char)
    requires c in s && c != x
    ensures c in Without(s, x)
  {
    if s[0] != c {
      assert c in s[1..];
      WithoutHolds(s[1..], x, c);
    }
  }

  lemma CleanedHolds(body: string, c: char)
    requires c in body && !AmountChar(c)
    ensures c in Cleaned(body)
  {
    FrontHolds(body, c);
    StripHolds(TrimStart(body), '$', c);
    WithoutHolds(StripFront(TrimStart(body), '$'), ',', c);
  }

  lemma {:induction false} CutHolds(s: string, x: char, c: char)
    requires c in s && c != x
    ensures c in Cut(s, x).0 || c in Cut(s, x).1
  {
    if s[0] != x && s[0] != c {
      assert c in s[1..];
      CutHolds(s[1..], x, c);
    }
  }
}
