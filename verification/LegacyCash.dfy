/** Cash exactness of the import: what a legacy row says was paid or received, to the cent,
    is what the replayed ledger opens or nets, through formatting, re-parsing and scaling. */
module LegacyCash {
  import opened Basics
  import opened Rounding
  import opened Text
  import opened Calendar
  import opened Ledger
  import opened Conservation

  // --- Dollar cells. ---

  function StripFront(s: string, c: char): string {
    if s != "" && s[0] == c then StripFront(s[1..], c) else s
  }

  function Without(s: string, c: char): string {
    if s == "" then "" else (if s[0] == c then "" else [s[0]]) + Without(s[1..], c)
  }

  /** What stands before and after the first `c`; nothing after if there is none. */
  function Cut(s: string, c: char): (string, string) {
    if s == "" then ("", "")
    else if s[0] == c then ("", s[1..])
    else var (a, b) := Cut(s[1..], c); ([s[0]] + a, b)
  }

  /** The cents in a fraction: digits past the second must all be zero. */
  function FractionCents(frac: string): Option<int>
    requires AllDigits(frac)
  {
    if |frac| == 0 then Some(0)
    else if |frac| == 1 then Some(DigitsValue(frac) * 10)
    else if |frac| == 2 then Some(DigitsValue(frac))
    else if exists i :: 2 <= i < |frac| && frac[i] != '0' then None
    else Some(DigitsValue(frac[..2]))
  }

  /** An amount from its whole dollars and its fraction. */
  function Amount(whole: string, frac: string): Option<int> {
    if !AllDigits(whole) || !AllDigits(frac) then None
    else if whole == "" && frac == "" then None
    else
      var units := if whole == "" then Some(0) else ParseI64(whole);
      match (units, FractionCents(frac))
      case (Some(u), Some(f)) => if FitsI64(u * 100) && FitsI64(u * 100 + f) then Some(u * 100 + f) else None
      case _ => None
  }

  function Cleaned(body: string): string {
    Without(StripFront(TrimStart(body), '$'), ',')
  }

  /** An unsigned amount, `$` and thousands separators allowed. */
  function ParseBody(body: string): Option<int> {
    var (whole, frac) := Cut(Cleaned(body), '.');
    Amount(whole, frac)
  }

  /** A decimal-dollar cell in cents, exactly, or nothing if blank, in error or inexact. */
  function ParseDollars(s: string): Option<int> {
    var t := Trim(s);
    if t == "" || t[0] == '#' then None
    else if t[0] == '-' then
      match ParseBody(t[1..]) case None => None case Some(v) => Some(-v)
    else ParseBody(t)
  }

  function TwoDigits(d: nat): string
    requires d < 100
  {
    PadLeft(NatText(d), 2)
  }

  function Abs(v: int): nat {
    if v < 0 then -v else v
  }

  /** Cents written back as dollars: the sign is that of the whole dollars. */
  function FormatCents(v: int): string {
    IntText(TruncDiv(v, 100)) + "." + TwoDigits(Abs(v) % 100)
  }

  // --- Formatting and parsing. ---

  lemma {:induction false} NothingRemoved(s: string, c: char)
    requires c !in s
    ensures Without(s, c) == s
  {
    if s != "" {
      NothingRemoved(s[1..], c);
      assert [s[0]] + s[1..] == s;
    }
  }

  lemma {:induction false} CutAt(a: string, b: string, c: char)
    requires c !in a
    ensures Cut(a + [c] + b, c) == (a, b)
  {
    var s := a + [c] + b;
    if a == "" {
      assert s[1..] == b;
    } else {
      assert s[1..] == a[1..] + [c] + b;
      CutAt(a[1..], b, c);
      assert [s[0]] + a[1..] == a;
    }
  }

  lemma TwoDigitsValue(d: nat)
    requires d < 100
    ensures |TwoDigits(d)| == 2 && AllDigits(TwoDigits(d)) && DigitsValue(TwoDigits(d)) == d
  {
    ValueOfText(d);
    if d < 10 {
      LeadingZeros(NatText(d), 1);
    }
  }

  lemma NatTextParses(n: nat)
    ensures ParseI64(NatText(n)) == if FitsI64(n) then Some(n) else None
  {
    ParseIntText(n);
  }

  lemma CleanedKeeps(s: string)
    requires s != "" && IsDigit(s[0]) && ',' !in s
    ensures Cleaned(s) == s
  {
    assert TrimStart(s) == s && StripFront(s, '$') == s;
    NothingRemoved(s, ',');
  }

  lemma AmountOf(whole: string, frac: string, u: nat, f: nat)
    requires whole != "" && AllDigits(whole) && ParseI64(whole) == Some(u)
    requires |frac| == 2 && AllDigits(frac) && DigitsValue(frac) == f && FitsI64(u * 100 + f)
    ensures Amount(whole, frac) == Some(u * 100 + f)
  {
  }

  lemma AmountReadsBack(u: nat, f: nat)
    requires f < 100 && FitsI64(u) && FitsI64(u * 100 + f)
    ensures Amount(NatText(u), TwoDigits(f)) == Some(u * 100 + f)
  {
    TwoDigitsValue(f);
    NatTextParses(u);
    AmountOf(NatText(u), TwoDigits(f), u, f);
  }

  function Dollars(n: nat): (s: string)
    ensures s != ""
  {
    NatText(n / 100) + "." + TwoDigits(n % 100)
  }

  lemma DollarsShape(n: nat)
    ensures IsDigit(Dollars(n)[0]) && IsDigit(Dollars(n)[|Dollars(n)| - 1])
    ensures ',' !in Dollars(n)
    ensures Cut(Dollars(n), '.') == (NatText(n / 100), TwoDigits(n % 100))
  {
    var a, b := NatText(n / 100), TwoDigits(n % 100);
    TwoDigitsValue(n % 100);
    assert Dollars(n) == a + ['.'] + b;
    assert forall i :: 0 <= i < |a| ==> IsDigit(a[i]);
    CutAt(a, b, '.');
  }

  lemma BodyReadsBack(n: nat)
    requires FitsI64(n)
    ensures ParseBody(Dollars(n)) == Some(n)
  {
    DollarsShape(n);
    CleanedKeeps(Dollars(n));
    AmountReadsBack(n / 100, n % 100);
  }

  lemma PositiveReadsBack(n: nat)
    requires FitsI64(n)
    ensures ParseDollars(Dollars(n)) == Some(n)
  {
    DollarsShape(n);
    TrimKeeps(Dollars(n));
    BodyReadsBack(n);
  }

  lemma SignedParse(body: string)
    requires body != "" && IsDigit(body[|body| - 1])
    ensures ParseDollars("-" + body) == match ParseBody(body) case None => None case Some(v) => Some(-v)
  {
    var s := "-" + body;
    assert s[0] == '-' && s[|s| - 1] == body[|body| - 1] && s[1..] == body;
    TrimKeeps(s);
  }

  lemma NegatedParse(body: string, n: int)
    requires body != "" && IsDigit(body[|body| - 1]) && ParseBody(body) == Some(n)
    ensures ParseDollars("-" + body) == Some(-n)
  {
    SignedParse(body);
  }

  lemma NegativeReadsBack(n: int)
    requires 0 <= n && FitsI64(n)
    ensures ParseDollars("-" + Dollars(n)) == Some(-n)
  {
    BodyReadsBack(n);
    DollarsShape(n);
    NegatedParse(Dollars(n), n);
  }

  lemma FormatShape(v: int)
    ensures FormatCents(v) == if v <= -100 then "-" + Dollars(-v) else Dollars(Abs(v))
  {
    if v <= -100 {
      assert TruncDiv(v, 100) == -(-v / 100) && -v / 100 > 0;
    } else if v < 0 {
      assert -v / 100 == 0;
    }
  }

  /** How cents written and read back come out: a negative amount short of a dollar loses
      its sign. */
  function Reread(v: int): int {
    if -100 < v < 0 then -v else v
  }

  lemma ReadsBackWhole(v: nat)
    requires FitsI64(v)
    ensures ParseDollars(FormatCents(v)) == Some(v)
  {
    FormatShape(v);
    PositiveReadsBack(v);
  }

  lemma ReadsBackNegative(n: nat)
    requires n >= 100 && FitsI64(n)
    ensures ParseDollars(FormatCents(0 - n)) == Some(0 - n)
  {
    FormatShape(0 - n);
    NegativeReadsBack(n);
  }

  lemma ReadsBackUnsigned(n: nat)
    requires 0 < n < 100
    ensures ParseDollars(FormatCents(0 - n)) == Some(n)
  {
    FormatShape(0 - n);
    PositiveReadsBack(n);
  }

  /** Cents written and read back are the same unless they are a negative amount short of a
      dollar, which comes back positive. */
  lemma {:induction false} FormatReadsBack(v: int)
    requires FitsI64(v) && FitsI64(-v)
    ensures ParseDollars(FormatCents(v)) == Some(Reread(v))
  {
    if v <= -100 { ReadsBackNegative(-v); } else if v < 0 { ReadsBackUnsigned(-v); } else { ReadsBackWhole(v); }
  }

  /** Commission and fees together, a blank cell counting as nothing. */
  function FeeCell(s: string): Option<int> {
    if Trim(s) == "" then Some(0) else ParseDollars(s)
  }

  function FeesTotal(commission: string, fees: string): Option<string> {
    match (FeeCell(commission), FeeCell(fees))
    case (Some(a), Some(b)) => if FitsI64(a + b) then Some(FormatCents(a + b)) else None
    case _ => None
  }

  function CentsOr0(s: string): int {
    match ParseDollars(s) case None => 0 case Some(v) => v
  }

  // --- Buys: basis is the cash paid. ---

  /** Whether the price and fees make up the total cost, within the integer width. */
  predicate MakesUp(whole: int, totalCost: int, price: int, fee: int) {
    FitsI64(whole * price) && whole * price + fee == totalCost
  }

  /** The price and fees a whole-share buy is imported with: those of its cells if they make
      up the total cost, otherwise the floor price and the exact remainder. */
  function BuyCells(whole: int, totalCost: string, price: string, fees: string): (string, string)
    requires whole > 0
  {
    BuyCellsOf(whole, ParseDollars(totalCost), ParseDollars(price), CentsOr0(fees), price, fees)
  }

  function BuyCellsOf(whole: int, totalCost: Option<int>, priceCents: Option<int>, feeCents: int, price: string,
                      fees: string): (string, string)
    requires whole > 0
  {
    match (totalCost, priceCents)
    case (Some(tc), Some(p)) =>
      if tc > 0 && !MakesUp(whole, tc, p, feeCents) then (FormatCents(tc / whole), FormatCents(tc - tc / whole * whole))
      else (price, fees)
    case _ => (price, fees)
  }

  lemma WholeSharesScale(whole: int, price: int)
    ensures Scale(whole * SHARE_SCALE * price) == whole * price
  {
    assert whole * SHARE_SCALE * price == (whole * price) * SHARE_SCALE;
    RoundUnique((whole * price) * SHARE_SCALE, SHARE_SCALE, whole * price);
  }

  lemma FloorShare(total: int, whole: int)
    requires total > 0 && whole > 0
    ensures 0 <= total / whole <= total
    ensures 0 <= total - total / whole * whole < whole
    ensures total - total / whole * whole <= total
  {
    var q, r := total / whole, total % whole;
    assert total == q * whole + r;
    if q < 0 { MulGap(q, 0, whole); }
    NonNegativeProduct(q, whole - 1);
    assert q * (whole - 1) == q * whole - q;
    NonNegativeProduct(q, whole);
  }

  lemma FloorAndRemainder(whole: int, tc: int)
    requires whole > 0 && tc > 0
    ensures 0 <= tc / whole <= tc && 0 <= tc - tc / whole * whole <= tc
    ensures whole * (tc / whole) + (tc - tc / whole * whole) == tc
  {
    FloorShare(tc, whole);
    assert tc / whole * whole == whole * (tc / whole);
  }

  /** The cents those cells are read as pay the cost exactly. */
  lemma CellsPayCost(whole: int, tc: int, p: int, fee: int, price: string, fees: string)
    requires whole > 0 && tc > 0 && FitsI64(tc) && ParseDollars(price) == Some(p) && CentsOr0(fees) == fee
    ensures
      var (unit, f) := BuyCellsOf(whole, Some(tc), Some(p), fee, price, fees);
      ParseDollars(unit).Some? && whole * ParseDollars(unit).value + CentsOr0(f) == tc
  {
    if !MakesUp(whole, tc, p, fee) {
      FloorAndRemainder(whole, tc);
      ReadsBackWhole(tc / whole);
      ReadsBackWhole(tc - tc / whole * whole);
    }
  }

  /** A whole-share buy whose total cost and price cells parse, the cost positive, opens at
      exactly that cost, whatever the other cells say. */
  lemma {:induction false} BuyOpensAtCost(whole: int, totalCost: string, price: string, fees: string, tc: int, p: int)
    requires whole > 0 && ParseDollars(totalCost) == Some(tc) && tc > 0 && FitsI64(tc) && ParseDollars(price) == Some(p)
    ensures ParseDollars(BuyCells(whole, totalCost, price, fees).0).Some?
    ensures
      var (unit, fee) := BuyCells(whole, totalCost, price, fees);
      Scale(whole * SHARE_SCALE * ParseDollars(unit).value) + CentsOr0(fee) == tc
  {
    CellsPayCost(whole, tc, p, CentsOr0(fees), price, fees);
    var unit := BuyCells(whole, totalCost, price, fees).0;
    WholeSharesScale(whole, ParseDollars(unit).value);
  }

  /** The price and fees that make up the cost are kept. */
  lemma {:induction false} BuyCellsKept(whole: int, totalCost: string, price: string, fees: string)
    requires whole > 0
    requires
      var (cost, p) := (ParseDollars(totalCost), ParseDollars(price));
      cost.None? || cost.value <= 0 || p.None?
        || (FitsI64(whole * p.value) && whole * p.value + CentsOr0(fees) == cost.value)
    ensures BuyCells(whole, totalCost, price, fees) == (price, fees)
  {
  }

  /** Any others give way to the floor price and a remainder below a cent a share. */
  lemma {:induction false} BuyCellsReplaced(whole: int, tc: int, p: int, fee: int, price: string, fees: string)
    requires whole > 0 && tc > 0 && FitsI64(tc) && !(FitsI64(whole * p) && whole * p + fee == tc)
    ensures
      var (unit, rest) := BuyCellsOf(whole, Some(tc), Some(p), fee, price, fees);
      && ParseDollars(unit).Some? && ParseDollars(rest).Some?
      && whole * ParseDollars(unit).value + ParseDollars(rest).value == tc
      && 0 <= ParseDollars(rest).value < whole
  {
    var q, r := tc / whole, tc - tc / whole * whole;
    assert BuyCellsOf(whole, Some(tc), Some(p), fee, price, fees) == (FormatCents(q), FormatCents(r));
    assert 0 <= q <= tc && 0 <= r < whole && r <= tc && whole * q + r == tc by {
      FloorAndRemainder(whole, tc);
      FloorShare(tc, whole);
    }
    ReadsBackWhole(q);
    ReadsBackWhole(r);
  }

  /** So does the lot the replayed buy opens. */
  lemma {:induction false} ImportedBuyBasis(b: Book, e: Event, whole: int, totalCost: string, price: string,
                                            fees: string, tc: int, p: int)
    requires whole > 0 && e.kind.Buy? && ApplyEvent(b, e).1.Accepted?
    requires ParseDollars(totalCost) == Some(tc) && tc > 0 && FitsI64(tc) && ParseDollars(price) == Some(p)
    requires var (unit, fee) := BuyCells(whole, totalCost, price, fees);
             e.kind.qty == whole * SHARE_SCALE && Some(e.kind.unitPrice) == ParseDollars(unit)
               && e.kind.fees == CentsOr0(fee)
    ensures |ApplyEvent(b, e).0.lots| == |b.lots| + 1
    ensures ApplyEvent(b, e).0.lots[|b.lots|].basis == tc
  {
    BuyOpensAtCost(whole, totalCost, price, fees, tc, p);
  }

  // --- Sales with an empty price cell: net is the cash recorded. ---

  /** Price and fees, in cents, that make a sale net `recorded`. */
  function DerivedSale(whole: int, recorded: int, fee: int): (int, int)
    requires whole > 0
  {
    if (recorded + fee) % whole == 0 then (TruncDiv(recorded + fee, whole), fee)
    else (recorded / whole + 1, whole * (recorded / whole + 1) - recorded)
  }

  function SaleCells(whole: int, recorded: string, price: string, fees: string): (string, string)
    requires whole > 0
  {
    var zero := ParseDollars(price) == None || ParseDollars(price) == Some(0);
    match ParseDollars(recorded)
    case Some(sf) =>
      if zero && sf > 0 then
        var (unit, fee) := DerivedSale(whole, sf, CentsOr0(fees));
        (FormatCents(unit), FormatCents(fee))
      else (price, fees)
    case None => (price, fees)
  }

  lemma DerivedNets(whole: int, recorded: int, fee: int)
    requires whole > 0
    ensures var (unit, f) := DerivedSale(whole, recorded, fee); whole * unit - f == recorded
  {
    var gross := recorded + fee;
    if gross % whole == 0 {
      ExactTruncDiv(gross, whole);
    }
  }

  /** The price is whole cents and the fee kept if they can make up what was recorded; else the
      price is the next cent up and the fee what that is too much, at most a cent a share. */
  lemma {:induction false} DerivedSaleIs(whole: int, recorded: int, fee: int)
    requires whole > 0
    ensures
      var (unit, f) := DerivedSale(whole, recorded, fee);
      && whole * unit - f == recorded
      && if exists u :: whole * u - fee == recorded then f == fee else 0 < f <= whole
  {
    var gross := recorded + fee;
    DerivedNets(whole, recorded, fee);
    assert gross % whole == 0 ==> whole * (gross / whole) - fee == recorded;
    assert recorded == whole * (recorded / whole) + recorded % whole;
    assert whole * (recorded / whole + 1) == whole * (recorded / whole) + whole;
    if u :| whole * u - fee == recorded { RemainderOf(u, whole); }
  }

  lemma RemainderOf(u: int, whole: int)
    requires whole > 0
    ensures (whole * u) % whole == 0
  {
    var n := whole * u;
    assert n == (n / whole) * whole + n % whole;
    if n / whole < u { MulOrder(n / whole, u, whole); } else if u < n / whole { MulOrder(u, n / whole, whole); }
  }

  /** A sale with a price, or without positive proceeds recorded, keeps its cells. */
  lemma {:induction false} PricedSaleKept(whole: int, recorded: string, price: string, fees: string)
    requires whole > 0
    requires
      var (sf, p) := (ParseDollars(recorded), ParseDollars(price));
      (p.Some? && p.value != 0) || sf.None? || sf.value <= 0
    ensures SaleCells(whole, recorded, price, fees) == (price, fees)
  {
  }

  lemma ExactTruncDiv(a: int, b: int)
    requires b > 0 && a % b == 0
    ensures b * TruncDiv(a, b) == a
  {
    assert a == (a / b) * b;
    if a < 0 {
      assert -a == (-(a / b)) * b + 0;
      Quotient(-a, b, -(a / b), 0);
    }
  }

  lemma DerivedFits(whole: int, recorded: int, fee: int)
    requires 0 < whole <= MONEY_CAP && 0 < recorded <= MONEY_CAP && -MONEY_CAP <= fee <= MONEY_CAP
    ensures var (unit, f) := DerivedSale(whole, recorded, fee);
      FitsI64(unit) && FitsI64(-unit) && FitsI64(f) && FitsI64(-f)
  {
    var gross := recorded + fee;
    FloorShare(recorded, whole);
    if gross % whole == 0 {
      TruncShrinks(gross, whole);
    } else {
      assert whole * (recorded / whole + 1) == whole * (recorded / whole) + whole;
      assert recorded / whole * whole == whole * (recorded / whole);
    }
  }

  lemma TruncShrinks(a: int, b: int)
    requires b > 0
    ensures TruncDiv(a, b) <= Abs(a) && -TruncDiv(a, b) <= Abs(a)
  {
    if a > 0 { FloorShare(a, b); }
    if a < 0 { FloorShare(-a, b); }
  }

  /** The derived price and fees in cents, and how they read back. */
  lemma DerivedReadsBack(whole: int, sf: int, fee: int)
    requires 0 < whole <= MONEY_CAP && 0 < sf <= MONEY_CAP
    requires -MONEY_CAP <= fee <= MONEY_CAP && !(-100 < fee < 0)
    ensures
      var (unit, f) := DerivedSale(whole, sf, fee);
      && whole * unit - f == sf
      && ParseDollars(FormatCents(unit)) == Some(Reread(unit))
      && ParseDollars(FormatCents(f)) == Some(f)
      && (fee >= 0 ==> unit > 0)
  {
    var (unit, f) := DerivedSale(whole, sf, fee);
    DerivedFits(whole, sf, fee);
    DerivedNets(whole, sf, fee);
    DerivedFeeSign(whole, sf, fee);
    FormatReadsBack(unit);
    FormatReadsBack(f);
    DerivedFeeKept(whole, sf, fee);
    PositiveQuotient(whole, unit, sf + f);
  }

  lemma PositiveQuotient(whole: int, unit: int, gross: int)
    requires whole > 0 && whole * unit == gross
    ensures gross > 0 ==> unit > 0
  {
    if unit <= 0 { assert whole * unit <= 0; }
  }

  lemma DerivedFeeSign(whole: int, recorded: int, fee: int)
    requires whole > 0 && recorded > 0 && !(-100 < fee < 0)
    ensures !(-100 < DerivedSale(whole, recorded, fee).1 < 0)
  {
    FloorShare(recorded, whole);
    assert whole * (recorded / whole + 1) == recorded / whole * whole + whole;
  }

  lemma DerivedFeeKept(whole: int, recorded: int, fee: int)
    requires whole > 0 && recorded > 0
    ensures fee >= 0 ==> DerivedSale(whole, recorded, fee).1 >= 0
  {
    FloorShare(recorded, whole);
    assert whole * (recorded / whole + 1) == recorded / whole * whole + whole;
  }

  lemma NetsExactlyIff(whole: int, unit: int, f: int, sf: int)
    requires whole > 0 && whole * unit - f == sf
    ensures Scale(whole * SHARE_SCALE * Reread(unit)) - f == sf <==> !(-100 < unit < 0)
  {
    WholeSharesScale(whole, Reread(unit));
    if -100 < unit < 0 {
      assert whole * Reread(unit) > 0 > whole * unit;
    }
  }

  /** A whole-share sale with no price and positive recorded proceeds nets exactly those
      proceeds if and only if the derived price is not a negative one short of a dollar,
      whose sign is lost in formatting. Fees of nothing or more make the price positive. */
  lemma {:induction false} SaleNetsRecorded(whole: int, recorded: string, price: string, fees: string, sf: int,
                                            fee: int)
    requires 0 < whole <= MONEY_CAP && ParseDollars(recorded) == Some(sf) && 0 < sf <= MONEY_CAP
    requires ParseDollars(price) == None || ParseDollars(price) == Some(0)
    requires CentsOr0(fees) == fee && -MONEY_CAP <= fee <= MONEY_CAP && !(-100 < fee < 0)
    ensures ParseDollars(SaleCells(whole, recorded, price, fees).0) == Some(Reread(DerivedSale(whole, sf, fee).0))
    ensures
      var (p, f) := SaleCells(whole, recorded, price, fees);
      Scale(whole * SHARE_SCALE * Reread(DerivedSale(whole, sf, fee).0)) - CentsOr0(f) == sf <==>
        !(-100 < DerivedSale(whole, sf, fee).0 < 0)
    ensures fee >= 0 ==> DerivedSale(whole, sf, fee).0 > 0
  {
    DerivedReadsBack(whole, sf, fee);
    var (unit, f) := DerivedSale(whole, sf, fee);
    NetsExactlyIff(whole, unit, f, sf);
  }

  /** Fees cells are formatted before they are read, so what is read is never a negative
      amount short of a dollar. */
  lemma {:induction false} FeesReadBack(commission: string, fees: string, total: int)
    requires FeeCell(commission).Some? && FeeCell(fees).Some?
    requires total == FeeCell(commission).value + FeeCell(fees).value
    requires FitsI64(total) && FitsI64(-total)
    ensures FeesTotal(commission, fees) == Some(FormatCents(total))
    ensures ParseDollars(FormatCents(total)) == Some(Reread(total)) && !(-100 < Reread(total) < 0)
  {
    FormatReadsBack(total);
  }

  /** The replayed sale puts exactly the recorded proceeds into gains. */
  lemma {:induction false} ImportedSaleProceeds(b: Book, e: Event, whole: int, recorded: string, price: string,
                                                fees: string, sf: int)
    requires e.kind.Sell? && ApplyEvent(b, e).1.Accepted?
    requires 0 < whole <= MONEY_CAP && ParseDollars(recorded) == Some(sf) && 0 < sf <= MONEY_CAP
    requires ParseDollars(price) == None || ParseDollars(price) == Some(0)
    requires 0 <= CentsOr0(fees) <= MONEY_CAP
    requires var (p, f) := SaleCells(whole, recorded, price, fees);
             e.kind.qty == whole * SHARE_SCALE && Some(e.kind.unitPrice) == ParseDollars(p)
               && e.kind.fees == CentsOr0(f)
    ensures Total(ApplyEvent(b, e).0.gains, GainProceeds(e.kind.symbol))
      == Total(b.gains, GainProceeds(e.kind.symbol)) + sf
    ensures e.kind.unitPrice > 0
  {
    SaleNetsRecorded(whole, recorded, price, fees, sf, CentsOr0(fees));
    SaleTotals(b, e, e.kind.symbol);
  }
}
