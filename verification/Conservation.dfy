/** What the fold conserves: basis, shares and proceeds, per symbol, over any event list. */
module Conservation {
  import opened Basics
  import opened Rounding
  import opened Apportion
  import opened Ledger

  // --- Totals. ---

  function Total<T>(s: seq<T>, f: T -> int): int {
    if s == [] then 0 else f(s[0]) + Total(s[1..], f)
  }

  lemma {:induction false} TotalAppend<T>(s: seq<T>, t: seq<T>, f: T -> int)
    ensures Total(s + t, f) == Total(s, f) + Total(t, f)
  {
    if s == [] {
      assert s + t == t;
    } else {
      assert (s + t)[1..] == s[1..] + t;
      TotalAppend(s[1..], t, f);
    }
  }

  lemma {:induction false} TotalUpdate<T>(s: seq<T>, i: nat, x: T, f: T -> int)
    requires i < |s|
    ensures Total(s[i := x], f) == Total(s, f) + f(x) - f(s[i])
  {
    if i == 0 {
      assert s[0 := x][1..] == s[1..];
    } else {
      assert s[i := x][1..] == s[1..][i - 1 := x];
      TotalUpdate(s[1..], i - 1, x, f);
    }
  }

  function LotBasis(sym: string): Lot -> int {
    (l: Lot) => if l.symbol == sym then l.basis else 0
  }

  function LotQty(sym: string): Lot -> int {
    (l: Lot) => if l.symbol == sym then l.qty else 0
  }

  function GainBasis(sym: string): Gain -> int {
    (g: Gain) => if g.symbol == sym then g.basis else 0
  }

  function GainProceeds(sym: string): Gain -> int {
    (g: Gain) => if g.symbol == sym then g.proceeds else 0
  }

  function GainAmount(sym: string): Gain -> int {
    (g: Gain) => if g.symbol == sym then g.gain else 0
  }

  /** Basis still in lots plus basis already realized. */
  function Carried(b: Book, sym: string): int {
    Total(b.lots, LotBasis(sym)) + Total(b.gains, GainBasis(sym))
  }

  // --- What an accepted event brings in. ---

  function OpeningBasis(e: Event, sym: string): int {
    match e.kind
    case Buy(_, s, qty, unitPrice, fees, _, _) => if s == sym then Scale(qty * unitPrice) + fees else 0
    case Vest(_, s, qty, fmv, _, _) => if s == sym then Scale(qty * fmv) else 0
    case _ => 0
  }

  function OpeningQty(e: Event, sym: string): int {
    match e.kind
    case Buy(_, s, qty, _, _, _, _) => if s == sym then qty else 0
    case Vest(_, s, qty, _, _, _) => if s == sym then qty else 0
    case _ => 0
  }

  function SoldQty(e: Event, sym: string): int {
    if e.kind.Sell? && e.kind.symbol == sym then e.kind.qty else 0
  }

  function NetProceeds(e: Event, sym: string): int {
    if e.kind.Sell? && e.kind.symbol == sym then Net(e) else 0
  }

  /** Sum of `f` over the events that take effect when `events` is folded from `b`. */
  function Effective(b: Book, events: seq<Event>, f: Event -> int): int
    decreases |events|
  {
    if events == [] then 0
    else
      var (b', o) := ApplyEvent(b, events[0]);
      (if o.Accepted? then f(events[0]) else 0) + Effective(b', events[1..], f)
  }

  lemma {:induction false} CleanEffective(b: Book, events: seq<Event>, f: Event -> int)
    requires Clean(b, events)
    ensures Effective(b, events, f) == Total(events, f)
    decreases |events|
  {
    if events != [] {
      CleanEffective(ApplyEvent(b, events[0]).0, events[1..], f);
    }
  }

  // --- One sale. ---

  /** Carrying out a plan moves basis from lots to gains, shares out of lots, and
      proceeds into gains, one for one. */
  lemma {:induction false} ConsumeTotals(b: Book, plan: Plan, proceeds: seq<int>, e: Event, sym: string)
    requires e.kind.Sell? && |proceeds| == |plan|
    requires Feasible(b.lots, plan)
    requires forall k :: 0 <= k < |plan| ==> b.lots[plan[k].idx].symbol == e.kind.symbol
    ensures
      var r := ConsumePlan(b, plan, proceeds, e);
      var mine := e.kind.symbol == sym;
      && Carried(r, sym) == Carried(b, sym)
      && Total(r.lots, LotQty(sym)) == Total(b.lots, LotQty(sym)) - (if mine then PlanQty(plan) else 0)
      && Total(r.gains, GainProceeds(sym)) == Total(b.gains, GainProceeds(sym)) + (if mine then Sum(proceeds) else 0)
      && Total(r.gains, GainAmount(sym)) - Total(b.gains, GainAmount(sym))
           == Total(r.gains, GainProceeds(sym)) - Total(b.gains, GainProceeds(sym))
              - (Total(r.gains, GainBasis(sym)) - Total(b.gains, GainBasis(sym)))
    decreases |plan|
  {
    if plan != [] {
      var t := plan[0];
      var l := b.lots[t.idx];
      var b' := ConsumeTake(b, t, proceeds[0], e);
      var g := GainOf(l, t.qty, proceeds[0], e);
      FeasibleTail(b, plan, proceeds[0], e);
      TotalUpdate(b.lots, t.idx, Sold(l, t.qty), LotBasis(sym));
      TotalUpdate(b.lots, t.idx, Sold(l, t.qty), LotQty(sym));
      TotalAppend(b.gains, [g], GainBasis(sym));
      TotalAppend(b.gains, [g], GainProceeds(sym));
      TotalAppend(b.gains, [g], GainAmount(sym));
      assert [g][1..] == [];
      ConsumeTotals(b', plan[1..], proceeds[1..], e, sym);
    }
  }

  /** Largest-remainder proceeds add up to the sale's net, to the cent. */
  lemma {:induction false} ProceedsExact(lots: seq<Lot>, plan: Plan, net: int, total: int)
    requires total > 0
    requires Feasible(lots, plan)
    requires PlanQty(plan) == total
    ensures Sum(Proceeds(lots, plan, net, total)) == net
    ensures forall k :: 0 <= k < |plan| ==>
              var p := Proceeds(lots, plan, net, total)[k];
              p == net * plan[k].qty / total || p == net * plan[k].qty / total + 1
  {
    ProceedNumsSum(plan, net);
    ProceedOrderRanks(lots, plan, net, total);
    LargestRemainder(ProceedNums(plan, net), total, net, ProceedOrder(lots, plan, net, total));
  }

  lemma ProceedOrderRanks(lots: seq<Lot>, plan: Plan, net: int, total: int)
    requires total > 0
    requires Feasible(lots, plan)
    ensures RanksRemainders(ProceedOrder(lots, plan, net, total), Remainders(ProceedNums(plan, net), total))
  {
    var rems := Remainders(ProceedNums(plan, net), total);
    var ks := ProceedKeys(lots, plan, rems);
    forall p | 0 <= p < |rems| && rems[p] != 0 ensures exists i :: 0 <= i < |ks| && ks[i].idx == p {
      assert ks[p].idx == p;
    }
    SortedKeysRank(ks, rems);
  }

  lemma {:induction false} ProceedNumsSum(plan: Plan, net: int)
    ensures Sum(ProceedNums(plan, net)) == net * PlanQty(plan)
  {
    if plan != [] {
      ProceedNumsSum(plan[1..], net);
      assert ProceedNums(plan, net)[1..] == ProceedNums(plan[1..], net);
      assert net * plan[0].qty + net * PlanQty(plan[1..]) == net * (plan[0].qty + PlanQty(plan[1..]));
    }
  }

  /** A split changes no lot's basis, owner symbol or position, whether or not it finishes. */
  lemma {:induction false} SplitTotals(lots: seq<Lot>, symbol: string, num: int, den: int, sym: string)
    requires den >= 1
    ensures
      var r := SplitLots(lots, symbol, num, den).0;
      && Total(r, LotBasis(sym)) == Total(lots, LotBasis(sym))
      && (symbol != sym ==> Total(r, LotQty(sym)) == Total(lots, LotQty(sym)))
  {
    if lots != [] {
      SplitTotals(lots[1..], symbol, num, den, sym);
    }
  }

  // --- One event. ---

  /** One event: basis is conserved up to what it opens, proceeds up to what it nets, and
      the realized amount is always proceeds less basis. */
  lemma {:induction false} EventTotals(b: Book, e: Event, sym: string)
    ensures
      var (r, o) := ApplyEvent(b, e);
      && Carried(r, sym) == Carried(b, sym) + (if o.Accepted? then OpeningBasis(e, sym) else 0)
      && Total(r.gains, GainProceeds(sym))
        == Total(b.gains, GainProceeds(sym)) + (if o.Accepted? then NetProceeds(e, sym) else 0)
      && Total(r.gains, GainAmount(sym)) - Total(b.gains, GainAmount(sym))
           == Total(r.gains, GainProceeds(sym)) - Total(b.gains, GainProceeds(sym))
              - (Total(r.gains, GainBasis(sym)) - Total(b.gains, GainBasis(sym)))
  {
    var (r, o) := ApplyEvent(b, e);
    match e.kind
    case Buy(_, _, _, _, _, _, _) => if o.Accepted? { OpenTotals(b, r, sym); }
    case Vest(_, _, _, _, _, _) => if o.Accepted? { OpenTotals(b, r, sym); }
    case Sell(_, symbol, qty, _, _, refs, _, platform, _) =>
      if o.Accepted? { SaleTotals(b, e, sym); }
    case Split(symbol, num, den) =>
      if num >= 1 && den >= 1 { SplitTotals(b.lots, symbol, num, den, sym); }
    case Reversal(_) =>
  }

  lemma {:induction false} SaleTotals(b: Book, e: Event, sym: string)
    requires e.kind.Sell? && ApplyEvent(b, e).1.Accepted?
    ensures
      var r := ApplyEvent(b, e).0;
      && Carried(r, sym) == Carried(b, sym)
      && Total(r.gains, GainProceeds(sym)) == Total(b.gains, GainProceeds(sym)) + NetProceeds(e, sym)
      && Total(r.lots, LotQty(sym)) == Total(b.lots, LotQty(sym)) - SoldQty(e, sym)
      && Total(r.gains, GainAmount(sym)) - Total(b.gains, GainAmount(sym))
           == Total(r.gains, GainProceeds(sym)) - Total(b.gains, GainProceeds(sym))
              - (Total(r.gains, GainBasis(sym)) - Total(b.gains, GainBasis(sym)))
  {
    var k := e.kind;
    SelectedFeasible(b.lots, k.symbol, k.qty, k.lotRefs, k.platform);
    var plan := SelectLots(b.lots, k.symbol, k.qty, k.lotRefs, k.platform).value;
    ProceedsExact(b.lots, plan, Net(e), k.qty);
    ConsumeTotals(b, plan, Proceeds(b.lots, plan, Net(e), k.qty), e, sym);
  }

  lemma OpenTotals(b: Book, r: Book, sym: string)
    requires |r.lots| == |b.lots| + 1 && r.lots[..|b.lots|] == b.lots && r.gains == b.gains
    ensures Carried(r, sym) == Carried(b, sym) + LotBasis(sym)(r.lots[|b.lots|])
    ensures Total(r.lots, LotQty(sym)) == Total(b.lots, LotQty(sym)) + LotQty(sym)(r.lots[|b.lots|])
  {
    var l := r.lots[|b.lots|];
    assert r.lots == b.lots + [l] && [l][1..] == [];
    TotalAppend(b.lots, [l], LotBasis(sym));
    TotalAppend(b.lots, [l], LotQty(sym));
  }

  // --- Whole runs. ---

  function BasisOpened(sym: string): Event -> int {
    (e: Event) => OpeningBasis(e, sym)
  }

  function ProceedsNetted(sym: string): Event -> int {
    (e: Event) => NetProceeds(e, sym)
  }

  function SharesMoved(sym: string): Event -> int {
    (e: Event) => OpeningQty(e, sym) - SoldQty(e, sym)
  }

  /** Over any event list whatever, rejected events included: basis in lots plus realized
      basis is exactly the opening basis of the events that took effect, and proceeds in
      gains are exactly the net proceeds of the sales that took effect. */
  lemma {:induction false} BasisConserved(b: Book, events: seq<Event>, sym: string)
    ensures Carried(Fold(b, events), sym) == Carried(b, sym) + Effective(b, events, BasisOpened(sym))
    ensures Total(Fold(b, events).gains, GainProceeds(sym))
         == Total(b.gains, GainProceeds(sym)) + Effective(b, events, ProceedsNetted(sym))
    ensures Total(Fold(b, events).gains, GainAmount(sym)) - Total(b.gains, GainAmount(sym))
         == Total(Fold(b, events).gains, GainProceeds(sym)) - Total(b.gains, GainProceeds(sym))
            - (Total(Fold(b, events).gains, GainBasis(sym)) - Total(b.gains, GainBasis(sym)))
    decreases |events|
  {
    if events != [] {
      EventTotals(b, events[0], sym);
      BasisConserved(ApplyEvent(b, events[0]).0, events[1..], sym);
    }
  }

  /** The replayed log in one equation per symbol: opening bases are what remains in lots
      plus what was realized, and realized profit is net proceeds less realized basis. */
  lemma {:induction false} LedgerConserves(events: seq<Event>, sym: string)
    requires Clean(EMPTY_BOOK, events)
    ensures
      var b := Fold(EMPTY_BOOK, events);
      && Total(events, BasisOpened(sym)) == Total(b.lots, LotBasis(sym)) + Total(b.gains, GainBasis(sym))
      && Total(b.gains, GainAmount(sym)) == Total(events, ProceedsNetted(sym)) - Total(b.gains, GainBasis(sym))
  {
    BasisConserved(EMPTY_BOOK, events, sym);
    CleanEffective(EMPTY_BOOK, events, BasisOpened(sym));
    CleanEffective(EMPTY_BOOK, events, ProceedsNetted(sym));
  }

  /** Between splits of a symbol, shares held are shares acquired less shares sold. */
  lemma {:induction false} SharesConserved(b: Book, events: seq<Event>, sym: string)
    requires forall i :: 0 <= i < |events| ==> !(events[i].kind.Split? && events[i].kind.symbol == sym)
    ensures Total(Fold(b, events).lots, LotQty(sym))
         == Total(b.lots, LotQty(sym)) + Effective(b, events, SharesMoved(sym))
    decreases |events|
  {
    if events != [] {
      var e := events[0];
      var (r, o) := ApplyEvent(b, e);
      if e.kind.Sell? && o.Accepted? { SaleTotals(b, e, sym); }
      if (e.kind.Buy? || e.kind.Vest?) && o.Accepted? { OpenTotals(b, r, sym); }
      if e.kind.Split? && e.kind.num >= 1 && e.kind.den >= 1 {
        SplitTotals(b.lots, e.kind.symbol, e.kind.num, e.kind.den, sym);
      }
      SharesConserved(r, events[1..], sym);
    }
  }
}
