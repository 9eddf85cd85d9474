/** The importer's per-position tolerance, over the whole fold: how far the basis left in a
    symbol's lots can drift from the exact proportional share of what they opened with. */
module Tolerance {
  import opened Basics
  import opened Rounding
  import opened Apportion
  import opened Ledger
  import opened Selection
  import opened Dominance
  import opened Conservation

  // --- What each lot opened with and what was sold out of it. ---

  datatype History = History(symbol: string, basis: int, qty: int, sales: seq<int>)

  /** Each take adds one sale to the history of its lot. */
  function AfterPlan(h: seq<History>, plan: Plan): (r: seq<History>)
    requires forall k :: 0 <= k < |plan| ==> plan[k].idx < |h|
    ensures |r| == |h|
    decreases |plan|
  {
    if plan == [] then h
    else
      var t := plan[0];
      AfterPlan(h[t.idx := h[t.idx].(sales := h[t.idx].sales + [t.qty])], plan[1..])
  }

  /** Histories after an event: an opening starts one, a sale extends those of its lots. */
  function AfterEvent(b: Book, h: seq<History>, e: Event): seq<History>
    requires |h| == |b.lots|
  {
    if ApplyEvent(b, e).1.Rejected? then h
    else if e.kind.Buy? || e.kind.Vest? then
      var l := ApplyEvent(b, e).0.lots[|b.lots|];
      h + [History(l.symbol, l.basis, l.qty, [])]
    else if e.kind.Sell? then
      SelectedFeasible(b.lots, e.kind.symbol, e.kind.qty, e.kind.lotRefs, e.kind.platform);
      AfterPlan(h, SalePlan(b, e))
    else h
  }

  function Histories(b: Book, h: seq<History>, events: seq<Event>): seq<History>
    requires |h| == |b.lots|
    decreases |events|
  {
    if events == [] then h
    else
      SameNumber(b, h, events[0]);
      Histories(ApplyEvent(b, events[0]).0, AfterEvent(b, h, events[0]), events[1..])
  }

  lemma SameNumber(b: Book, h: seq<History>, e: Event)
    requires |h| == |b.lots|
    ensures |AfterEvent(b, h, e)| == |ApplyEvent(b, e).0.lots|
  {
    if e.kind.Sell? && ApplyEvent(b, e).1.Accepted? {
      SelectedFeasible(b.lots, e.kind.symbol, e.kind.qty, e.kind.lotRefs, e.kind.platform);
      ConsumeKeepsNumber(b, SalePlan(b, e), Proceeds(b.lots, SalePlan(b, e), Net(e), e.kind.qty), e);
    }
  }

  lemma {:induction false} ConsumeKeepsNumber(b: Book, plan: Plan, proceeds: seq<int>, e: Event)
    requires e.kind.Sell? && |proceeds| == |plan|
    requires Feasible(b.lots, plan)
    ensures |ConsumePlan(b, plan, proceeds, e).lots| == |b.lots|
    decreases |plan|
  {
    if plan != [] {
      FeasibleTail(b, plan, proceeds[0], e);
      ConsumeKeepsNumber(ConsumeTake(b, plan[0], proceeds[0], e), plan[1..], proceeds[1..], e);
    }
  }

  // --- A lot is what its history makes of its opening. ---

  ghost predicate Explains(x: History, l: Lot) {
    && 0 < x.qty && PartialSales(x.qty, x.sales)
    && AfterSales(x.basis, x.qty, x.sales) == (l.basis, l.qty)
  }

  ghost predicate Follows(lots: seq<Lot>, h: seq<History>, sym: string) {
    && |h| == |lots|
    && (forall i :: 0 <= i < |lots| ==> h[i].symbol == lots[i].symbol)
    && (forall i :: 0 <= i < |lots| && lots[i].symbol == sym ==> Explains(h[i], lots[i]))
  }

  lemma {:induction false} OneMoreSale(basis: int, qty: int, sales: seq<int>, c: int)
    requires PartialSales(qty, sales) && 0 < c <= AfterSales(basis, qty, sales).1
    ensures PartialSales(qty, sales + [c])
    ensures
      var (b, q) := AfterSales(basis, qty, sales);
      AfterSales(basis, qty, sales + [c]) == (b - ConsumedBasis(b, q, c), q - c)
    decreases |sales|
  {
    var more := sales + [c];
    if sales == [] {
      assert more[1..] == [];
    } else {
      assert more[1..] == sales[1..] + [c];
      OneMoreSale(basis - ConsumedBasis(basis, qty, sales[0]), qty - sales[0], sales[1..], c);
    }
  }

  function SalesOf(sym: string): History -> int {
    (x: History) => if x.symbol == sym then |x.sales| else 0
  }

  function OneGain(sym: string): Gain -> int {
    (g: Gain) => if g.symbol == sym then 1 else 0
  }

  /** Gains of a symbol, which is how the importer counts the lots it consumed. */
  function ConsumedLots(b: Book, sym: string): int {
    Total(b.gains, OneGain(sym))
  }

  /** One take: one more sale on one history, one more gain. */
  lemma {:induction false} TakeFollows(b: Book, h: seq<History>, t: Take, alloc: int, e: Event, sym: string)
    requires e.kind.Sell? && t.idx < |b.lots| && 0 < t.qty <= b.lots[t.idx].qty
    requires b.lots[t.idx].symbol == e.kind.symbol && Follows(b.lots, h, sym)
    ensures
      var h' := h[t.idx := h[t.idx].(sales := h[t.idx].sales + [t.qty])];
      var b' := ConsumeTake(b, t, alloc, e);
      && Follows(b'.lots, h', sym)
      && Total(h', SalesOf(sym)) - Total(h, SalesOf(sym)) == ConsumedLots(b', sym) - ConsumedLots(b, sym)
  {
    var x := h[t.idx].(sales := h[t.idx].sales + [t.qty]);
    TotalUpdate(h, t.idx, x, SalesOf(sym));
    var g := GainOf(b.lots[t.idx], t.qty, alloc, e);
    TotalAppend(b.gains, [g], OneGain(sym));
    assert [g][1..] == [];
    if b.lots[t.idx].symbol == sym {
      OneMoreSale(x.basis, x.qty, h[t.idx].sales, t.qty);
    }
  }

  lemma {:induction false} PlanFollows(b: Book, h: seq<History>, plan: Plan, proceeds: seq<int>, e: Event, sym: string)
    requires e.kind.Sell? && |proceeds| == |plan|
    requires Feasible(b.lots, plan) && Follows(b.lots, h, sym)
    requires forall k :: 0 <= k < |plan| ==> b.lots[plan[k].idx].symbol == e.kind.symbol
    ensures
      var b' := ConsumePlan(b, plan, proceeds, e);
      && Follows(b'.lots, AfterPlan(h, plan), sym)
      && Total(AfterPlan(h, plan), SalesOf(sym)) - Total(h, SalesOf(sym))
        == ConsumedLots(b', sym) - ConsumedLots(b, sym)
    decreases |plan|
  {
    if plan != [] {
      var t := plan[0];
      TakeFollows(b, h, t, proceeds[0], e, sym);
      FeasibleTail(b, plan, proceeds[0], e);
      var h' := h[t.idx := h[t.idx].(sales := h[t.idx].sales + [t.qty])];
      PlanFollows(ConsumeTake(b, t, proceeds[0], e), h', plan[1..], proceeds[1..], e, sym);
    }
  }

  /** The histories follow the lots across the event, one more sale for each gain. */
  ghost predicate Keeps(b: Book, h: seq<History>, e: Event, sym: string)
    requires |h| == |b.lots|
  {
    var (b', h') := (ApplyEvent(b, e).0, AfterEvent(b, h, e));
    && Follows(b'.lots, h', sym)
    && Total(h', SalesOf(sym)) - Total(h, SalesOf(sym)) == ConsumedLots(b', sym) - ConsumedLots(b, sym)
  }

  lemma SaleFollows(b: Book, h: seq<History>, e: Event, sym: string)
    requires Follows(b.lots, h, sym)
    requires e.kind.Sell? && ApplyEvent(b, e).1.Accepted?
    ensures Keeps(b, h, e, sym)
  {
    SelectedFeasible(b.lots, e.kind.symbol, e.kind.qty, e.kind.lotRefs, e.kind.platform);
    PlanFollows(b, h, SalePlan(b, e), Proceeds(b.lots, SalePlan(b, e), Net(e), e.kind.qty), e, sym);
  }

  lemma OpeningFollows(b: Book, h: seq<History>, e: Event, sym: string)
    requires Follows(b.lots, h, sym)
    requires (e.kind.Buy? || e.kind.Vest?) && ApplyEvent(b, e).1.Accepted?
    ensures Keeps(b, h, e, sym)
  {
    var b' := ApplyEvent(b, e).0;
    var l := b'.lots[|b.lots|];
    var x := History(l.symbol, l.basis, l.qty, []);
    TotalAppend(h, [x], SalesOf(sym));
    assert [x][1..] == [];
    assert Explains(x, l);
    assert b'.lots == b.lots + [l];
  }

  lemma OtherSplitFollows(b: Book, h: seq<History>, e: Event, sym: string)
    requires Follows(b.lots, h, sym)
    requires e.kind.Split? && e.kind.symbol != sym
    ensures Keeps(b, h, e, sym)
  {
    if e.kind.num >= 1 && e.kind.den >= 1 {
      SplitLotsAt(b.lots, e.kind.symbol, e.kind.num, e.kind.den);
    }
  }

  /** One event that does not split the symbol. */
  lemma EventFollows(b: Book, h: seq<History>, e: Event, sym: string)
    requires Follows(b.lots, h, sym)
    requires !(e.kind.Split? && e.kind.symbol == sym)
    ensures Keeps(b, h, e, sym)
  {
    match e.kind
    case Buy(_, _, _, _, _, _, _) => if ApplyEvent(b, e).1.Accepted? { OpeningFollows(b, h, e, sym); }
    case Vest(_, _, _, _, _, _) => if ApplyEvent(b, e).1.Accepted? { OpeningFollows(b, h, e, sym); }
    case Sell(_, _, _, _, _, _, _, _, _) => if ApplyEvent(b, e).1.Accepted? { SaleFollows(b, h, e, sym); }
    case Split(_, _, _) => OtherSplitFollows(b, h, e, sym);
    case Reversal(_) =>
  }

  /** Over any run without a split of the symbol, rejected events included: each of its lots
      has the basis and shares its opening and the sales out of it, in order, leave; and the
      sales number as many as the symbol's gains. */
  lemma {:induction false} RunFollows(b: Book, h: seq<History>, events: seq<Event>, sym: string)
    requires Follows(b.lots, h, sym)
    requires forall i :: 0 <= i < |events| ==> !(events[i].kind.Split? && events[i].kind.symbol == sym)
    ensures Follows(Fold(b, events).lots, Histories(b, h, events), sym)
    ensures Total(Histories(b, h, events), SalesOf(sym)) - Total(h, SalesOf(sym))
         == ConsumedLots(Fold(b, events), sym) - ConsumedLots(b, sym)
    decreases |events|
  {
    if events != [] {
      EventFollows(b, h, events[0], sym);
      SameNumber(b, h, events[0]);
      RunFollows(ApplyEvent(b, events[0]).0, AfterEvent(b, h, events[0]), events[1..], sym);
    }
  }

  // --- The position as a whole. ---

  /** The exact proportional share of the opening basis, in cents and fractions. */
  function ExactShare(x: History, l: Lot): real
    requires 0 < x.qty
  {
    (x.basis * l.qty) as real / x.qty as real
  }

  function ExactBasis(lots: seq<Lot>, h: seq<History>, sym: string): real
    requires |h| == |lots|
    requires forall i :: 0 <= i < |lots| && lots[i].symbol == sym ==> 0 < h[i].qty
  {
    if lots == [] then 0.0
    else
      assert forall i :: 0 <= i < |lots[1..]| ==> lots[1..][i] == lots[i + 1] && h[1..][i] == h[i + 1];
      (if lots[0].symbol == sym then ExactShare(h[0], lots[0]) else 0.0) + ExactBasis(lots[1..], h[1..], sym)
  }

  lemma OneLotNearExact(x: History, l: Lot)
    requires Explains(x, l)
    ensures -(|x.sales| as real / 2.0) <= l.basis as real - ExactShare(x, l) <= |x.sales| as real / 2.0
  {
    BasisDrift(x.basis, x.qty, x.basis, x.qty, 0, x.sales);
    var err := l.basis * x.qty - x.basis * l.qty;
    assert 2 * err <= |x.sales| * x.qty && -2 * err <= |x.sales| * x.qty;
    RealBound(l.basis, x.basis * l.qty, x.qty, |x.sales|);
  }

  lemma RealBound(b: int, n: int, q: int, k: nat)
    requires 0 < q
    requires 2 * (b * q - n) <= k * q && -2 * (b * q - n) <= k * q
    ensures -(k as real / 2.0) <= b as real - n as real / q as real <= k as real / 2.0
  {
    var (B, N, Q, K) := (b as real, n as real, q as real, k as real);
    assert (b * q) as real == B * Q && (k * q) as real == K * Q;
    assert 2.0 * (B * Q - N) <= K * Q && -2.0 * (B * Q - N) <= K * Q;
    var s := N / Q;
    assert s * Q == N;
    assert (2.0 * (B - s) - K) * Q <= 0.0 && (-2.0 * (B - s) - K) * Q <= 0.0;
  }

  lemma {:induction false} PositionNearExact(lots: seq<Lot>, h: seq<History>, sym: string)
    requires Follows(lots, h, sym)
    ensures
      var err := Total(lots, LotBasis(sym)) as real - ExactBasis(lots, h, sym);
      -(Total(h, SalesOf(sym)) as real / 2.0) <= err <= Total(h, SalesOf(sym)) as real / 2.0
  {
    if lots != [] {
      var p, q := lots[1..], h[1..];
      assert forall i :: 0 <= i < |p| ==> p[i] == lots[i + 1] && q[i] == h[i + 1];
      PositionNearExact(p, q, sym);
      if lots[0].symbol == sym { OneLotNearExact(h[0], lots[0]); }
    }
  }

  /** The tolerance granted to a position covers its drift: over any log without a split of
      the symbol, the basis left in all its lots is within the tolerance for as many consumed
      lots as it has gains of the summed exact shares. */
  lemma {:induction false} ToleranceCoversPosition(events: seq<Event>, sym: string)
    requires forall i :: 0 <= i < |events| ==> !(events[i].kind.Split? && events[i].kind.symbol == sym)
    ensures
      var b := Fold(EMPTY_BOOK, events);
      var h := Histories(EMPTY_BOOK, [], events);
      && Follows(b.lots, h, sym) && ConsumedLots(b, sym) >= 0
      && var t := PositionToleranceCents(ConsumedLots(b, sym)) as real;
         -t <= Total(b.lots, LotBasis(sym)) as real - ExactBasis(b.lots, h, sym) <= t
  {
    RunFollows(EMPTY_BOOK, [], events, sym);
    var b, h := Fold(EMPTY_BOOK, events), Histories(EMPTY_BOOK, [], events);
    PositionNearExact(b.lots, h, sym);
    CountNonNegative(b.gains, sym);
    var k := ConsumedLots(b, sym);
    assert k <= 2 * PositionToleranceCents(k);
  }

  lemma {:induction false} CountNonNegative(gains: seq<Gain>, sym: string)
    ensures Total(gains, OneGain(sym)) >= 0
  {
    if gains != [] { CountNonNegative(gains[1..], sym); }
  }
}
