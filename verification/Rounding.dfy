/** The single rounding site: banker's rounding, the share scale, the amount cap
    and the basis a sale takes out of a lot. */
module Rounding {

  /** Micro-shares per whole share. */
  const SHARE_SCALE: int := 1_000_000
  /** Bound on every stored amount: 2^40. */
  const MONEY_CAP: int := 0x100_0000_0000

  /** `num / den` rounded to the nearest integer, a tie going to the even one. */
  function RoundHalfToEven(num: int, den: int): (r: int)
    requires den > 0
    ensures IsRounded(num, den, r)
  {
    var q := num / den;
    var twice := 2 * (num % den);
    DivMod(num, den);
    NextMultiple(q, den);
    if twice < den then q
    else if twice > den then q + 1
    else if q % 2 == 0 then q
    else q + 1
  }

  /** What the rounding promises: no integer is nearer, and a tie lands on an even one. */
  ghost predicate IsRounded(num: int, den: int, r: int)
    requires den > 0
  {
    && 2 * (r * den - num) <= den
    && 2 * (num - r * den) <= den
    && (2 * (r * den - num) == den || 2 * (num - r * den) == den ==> r % 2 == 0)
  }

  lemma DivMod(num: int, den: int)
    requires den > 0
    ensures num == (num / den) * den + num % den
    ensures 0 <= num % den < den
  {
  }

  lemma NextMultiple(q: int, den: int)
    ensures (q + 1) * den == q * den + den
  {
  }

  lemma NonNegativeProduct(x: int, y: int)
    requires x >= 0 && y >= 0
    ensures x * y >= 0
  {
  }

  /** A strictly larger factor gains at least one more multiple. */
  lemma MulGap(a: int, b: int, den: int)
    requires den > 0 && a < b
    ensures a * den + den <= b * den
  {
    NonNegativeProduct(b - a - 1, den);
    assert (b - a - 1) * den == b * den - a * den - den;
  }

  /** Multiplying by a positive number keeps and reflects the order. */
  lemma MulOrder(a: int, b: int, den: int)
    requires den > 0
    ensures a <= b <==> a * den <= b * den
    ensures a < b ==> a * den + den <= b * den
  {
    if a < b {
      MulGap(a, b, den);
    } else if b < a {
      MulGap(b, a, den);
    }
  }

  /** Rounding preserves order; ties are where the even rule matters. */
  lemma {:induction false} RoundMonotone(x: int, y: int, den: int)
    requires den > 0
    requires x <= y
    ensures RoundHalfToEven(x, den) <= RoundHalfToEven(y, den)
  {
    var r, s := RoundHalfToEven(x, den), RoundHalfToEven(y, den);
    if s < r {
      MulOrder(s, r, den);
      // r*den - x <= den/2, y - s*den <= den/2 and r*den >= s*den + den: all tight.
      assert x == y;
    }
  }

  /** The promise determines the result. */
  lemma {:induction false} RoundUnique(num: int, den: int, r: int)
    requires den > 0
    requires IsRounded(num, den, r)
    ensures r == RoundHalfToEven(num, den)
  {
    var s := RoundHalfToEven(num, den);
    if r < s {
      MulOrder(r, s, den);
      MulOrder(r + 1, s, den);
      NextMultiple(r, den);
    } else if s < r {
      MulOrder(s, r, den);
      MulOrder(s + 1, r, den);
      NextMultiple(s, den);
    }
  }

  /** A quotient between two integers rounds between them. */
  lemma RoundBetween(num: int, den: int, lo: int, hi: int)
    requires den > 0
    requires lo * den <= num <= hi * den
    ensures lo <= RoundHalfToEven(num, den) <= hi
  {
    RoundUnique(lo * den, den, lo);
    RoundUnique(hi * den, den, hi);
    RoundMonotone(lo * den, num, den);
    RoundMonotone(num, hi * den, den);
  }

  /** Micro-cents to cents. */
  function Scale(micro: int): (r: int) {
    RoundHalfToEven(micro, SHARE_SCALE)
  }

  predicate WithinCap(v: int) {
    -MONEY_CAP <= v <= MONEY_CAP
  }

  /** Basis leaving a lot of `qty` shares when `c` of them are sold: the whole basis
      with the last share, otherwise the rounded proportional share. */
  function ConsumedBasis(basis: int, qty: int, c: int): (consumed: int)
    requires 0 < qty
    requires 0 <= c <= qty
    ensures c == qty ==> consumed == basis
    ensures c == 0 ==> consumed == 0
    ensures basis >= 0 ==> 0 <= consumed <= basis
    ensures basis == 0 ==> consumed == 0
    ensures 2 * (consumed * qty - basis * c) <= qty && 2 * (basis * c - consumed * qty) <= qty
  {
    if c == qty then basis
    else
      RoundedShareBounds(basis, qty, c);
      RoundHalfToEven(basis * c, qty)
  }

  /** A rounded share of a non-negative basis lies between nothing and all of it. */
  lemma RoundedShareBounds(basis: int, qty: int, c: int)
    requires 0 < qty
    requires 0 <= c <= qty
    ensures c == 0 || basis == 0 ==> RoundHalfToEven(basis * c, qty) == 0
    ensures basis >= 0 ==> 0 <= RoundHalfToEven(basis * c, qty) <= basis
  {
    RoundBetween(0, qty, 0, 0);
    if basis >= 0 {
      assert 0 <= basis * c <= basis * qty by { assert basis * (qty - c) >= 0; }
      RoundBetween(basis * c, qty, 0, basis);
    }
  }

  /** Exact share of the opening basis a lot should still carry, times `qty0`, compared
      with what it carries: `2 * qty0 * |basis - basis0 * qty / qty0| <= k * qty0`. */
  ghost predicate WithinHalfCents(basis0: int, qty0: int, basis: int, qty: int, k: nat) {
    && 2 * (basis * qty0 - basis0 * qty) <= k * qty0
    && 2 * (basis0 * qty - basis * qty0) <= k * qty0
  }

  /** One more partial sale moves the basis at most half a cent further from its exact share. */
  lemma DriftStep(basis0: int, qty0: int, basis: int, qty: int, k: nat, c: int)
    requires 0 < c <= qty <= qty0
    requires WithinHalfCents(basis0, qty0, basis, qty, k)
    ensures WithinHalfCents(basis0, qty0, basis - ConsumedBasis(basis, qty, c), qty - c, k + 1)
  {
    var x := ConsumedBasis(basis, qty, c);
    var err := basis * qty0 - basis0 * qty;
    var err' := (basis - x) * qty0 - basis0 * (qty - c);
    DriftIdentity(basis0, qty0, basis, qty, x, c);
    assert k * qty0 >= 0;
    Sandwich(err, k * qty0, qty - c, qty);
    Sandwich2(basis * c - x * qty, qty, qty0);
    BoundSum(k, qty0, qty);
    CancelBound(err', (k + 1) * qty0, qty);
  }

  lemma DriftIdentity(basis0: int, qty0: int, basis: int, qty: int, x: int, c: int)
    ensures ((basis - x) * qty0 - basis0 * (qty - c)) * qty
         == (basis * qty0 - basis0 * qty) * (qty - c) + (basis * c - x * qty) * qty0
  {
  }

  lemma BoundSum(k: nat, qty0: int, qty: int)
    ensures (k * qty0) * qty + qty * qty0 == ((k + 1) * qty0) * qty
  {
  }

  lemma CancelBound(err: int, bound: int, qty: int)
    requires 0 < qty
    requires 2 * (err * qty) <= bound * qty && -2 * (err * qty) <= bound * qty
    ensures 2 * err <= bound && -2 * err <= bound
  {
    assert (2 * err) * qty == 2 * (err * qty);
    assert (-2 * err) * qty == -2 * (err * qty);
    MulOrder(2 * err, bound, qty);
    MulOrder(-2 * err, bound, qty);
  }

  lemma Sandwich(err: int, bound: int, part: int, whole: int)
    requires 0 <= part <= whole
    requires 0 <= bound
    requires 2 * err <= bound && -2 * err <= bound
    ensures 2 * (err * part) <= bound * whole && -2 * (err * part) <= bound * whole
  {
    assert (bound - 2 * err) * part >= 0;
    assert (bound + 2 * err) * part >= 0;
    assert bound * (whole - part) >= 0;
  }

  lemma Sandwich2(d: int, qty: int, qty0: int)
    requires 0 < qty && 0 <= qty0
    requires 2 * d <= qty && -2 * d <= qty
    ensures 2 * (d * qty0) <= qty * qty0 && -2 * (d * qty0) <= qty * qty0
  {
    assert (qty - 2 * d) * qty0 >= 0;
    assert (qty + 2 * d) * qty0 >= 0;
  }

  /** What is left of a lot after selling the quantities in `sales` one after another. */
  function AfterSales(basis: int, qty: int, sales: seq<int>): (r: (int, int))
    requires PartialSales(qty, sales)
    decreases |sales|
  {
    if sales == [] then (basis, qty)
    else AfterSales(basis - ConsumedBasis(basis, qty, sales[0]), qty - sales[0], sales[1..])
  }

  /** Every sale is positive and covered by what the earlier ones left. */
  predicate PartialSales(qty: int, sales: seq<int>)
    decreases |sales|
  {
    sales == [] || (0 < sales[0] <= qty && PartialSales(qty - sales[0], sales[1..]))
  }

  /** After any number of sales of an unsplit lot the remaining basis is within half a
      cent per sale of the exact proportional share, and closing the lot leaves none. */
  lemma {:induction false} BasisDrift(basis0: int, qty0: int, basis: int, qty: int, k: nat, sales: seq<int>)
    requires 0 <= qty <= qty0
    requires qty == 0 ==> basis == 0
    requires WithinHalfCents(basis0, qty0, basis, qty, k)
    requires PartialSales(qty, sales)
    ensures
      var (b, q) := AfterSales(basis, qty, sales);
      && 0 <= q <= qty
      && WithinHalfCents(basis0, qty0, b, q, k + |sales|)
      && (q == 0 ==> b == 0)
    decreases |sales|
  {
    if sales != [] {
      var c := sales[0];
      DriftStep(basis0, qty0, basis, qty, k, c);
      BasisDrift(basis0, qty0, basis - ConsumedBasis(basis, qty, c), qty - c, k + 1, sales[1..]);
    }
  }

  /** The tolerance the importer grants a position: half a cent per consumed lot, rounded up. */
  function PositionToleranceCents(consumedLots: nat): (r: nat) {
    (1 * consumedLots + 2 - 1) / 2
  }

  /** A freshly opened lot stays within the importer's per-position tolerance of its exact
      proportional basis through any sequence of sales. */
  lemma {:induction false} ToleranceCoversDrift(basis: int, qty: int, sales: seq<int>)
    requires 0 < qty
    requires PartialSales(qty, sales)
    ensures
      var (b, q) := AfterSales(basis, qty, sales);
      var t := PositionToleranceCents(|sales|);
      && (b * qty - basis * q) <= t * qty
      && (basis * q - b * qty) <= t * qty
      && (q == 0 ==> b == 0)
  {
    BasisDrift(basis, qty, basis, qty, 0, sales);
    var (b, q) := AfterSales(basis, qty, sales);
    var t := PositionToleranceCents(|sales|);
    HalfBound(b * qty - basis * q, |sales|, t, qty);
    HalfBound(basis * q - b * qty, |sales|, t, qty);
  }

  lemma HalfBound(err: int, k: int, t: int, qty: int)
    requires 0 < qty
    requires k <= 2 * t
    requires 2 * err <= k * qty
    ensures err <= t * qty
  {
    MulOrder(k, 2 * t, qty);
    assert (2 * t) * qty == 2 * (t * qty);
  }
}
