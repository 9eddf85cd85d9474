/** Two runs over the same lots: one holding at least as many shares of each lot stays
    ahead through every sale and split, so it carries every sale the other carried. */
module Dominance {
  import opened Basics
  import opened Rounding
  import opened Keys
  import opened Apportion
  import opened Ledger
  import opened Selection

  // --- Soundness of the fold. ---

  lemma RescaledBounds(qty: int, num: int, den: int)
    requires qty >= 0 && num >= 1 && den >= 1
    ensures Rescaled(qty, num, den) >= 0
    ensures num <= den ==> Rescaled(qty, num, den) <= qty
    ensures qty == 0 ==> Rescaled(qty, num, den) == 0
  {
    NonNegativeProduct(qty, num);
    RoundMonotone(0, qty * num, den);
    RoundBetween(0, den, 0, 0);
    if num <= den {
      NonNegativeProduct(qty, den - num);
      assert qty * (den - num) == qty * den - qty * num;
      RoundBetween(qty * num, den, 0, qty);
    }
  }

  lemma RescaledMonotone(p: int, q: int, num: int, den: int)
    requires p <= q && num >= 1 && den >= 1
    ensures Rescaled(p, num, den) <= Rescaled(q, num, den)
  {
    NonNegativeProduct(q - p, num);
    assert (q - p) * num == q * num - p * num;
    RoundMonotone(p * num, q * num, den);
  }

  /** What a finished or stopped split does to the lot at each position. */
  lemma {:induction false} SplitLotsAt(lots: seq<Lot>, symbol: string, num: int, den: int)
    requires den >= 1
    ensures
      var (r, deps, ok) := SplitLots(lots, symbol, num, den);
      && (ok <==> SplitWithinCap(lots, symbol, num, den))
      && (forall i :: 0 <= i < |lots| ==>
            || r[i] == lots[i]
            || (&& !SplitSkips(lots[i], symbol) && lots[i].openEvent in deps
                && r[i] == lots[i].(qty := Rescaled(lots[i].qty, num, den))))
      && (ok ==> forall i :: 0 <= i < |lots| ==>
            if SplitSkips(lots[i], symbol) then r[i] == lots[i]
            else r[i] == lots[i].(qty := Rescaled(lots[i].qty, num, den)) && lots[i].openEvent in deps)
  {
    if lots != [] {
      var rest := lots[1..];
      assert forall i :: 0 <= i < |rest| ==> rest[i] == lots[i + 1];
      SplitLotsAt(rest, symbol, num, den);
      var (r, deps, ok) := SplitLots(lots, symbol, num, den);
      var (r', deps', ok') := SplitLots(rest, symbol, num, den);
      forall i | 1 <= i < |lots| ensures lots[i] == rest[i - 1] {}
      if SplitSkips(lots[0], symbol) || WithinCap(Rescaled(lots[0].qty, num, den)) {
        assert forall i :: 1 <= i < |lots| ==> r[i] == r'[i - 1];
        assert SplitWithinCap(lots, symbol, num, den) <==> SplitWithinCap(rest, symbol, num, den) by {
          if SplitWithinCap(lots, symbol, num, den) {
            forall i | 0 <= i < |rest| && !SplitSkips(rest[i], symbol)
              ensures WithinCap(Rescaled(rest[i].qty, num, den))
            {
              assert rest[i] == lots[i + 1];
            }
          }
        }
      }
    }
  }

  // --- A rejected event leaves the book as it was, a split over the cap excepted. ---

  predicate OverCap(l: Lot, symbol: string, num: int, den: int)
    requires den >= 1
  {
    !SplitSkips(l, symbol) && !WithinCap(Rescaled(l.qty, num, den))
  }

  /** Position of the first lot the split takes over the cap, or past the end. */
  function FirstOverCap(lots: seq<Lot>, symbol: string, num: int, den: int): (n: nat)
    requires den >= 1
    ensures n <= |lots|
    ensures forall i :: 0 <= i < n ==> !OverCap(lots[i], symbol, num, den)
    ensures n < |lots| ==> OverCap(lots[n], symbol, num, den)
  {
    if lots == [] || OverCap(lots[0], symbol, num, den) then 0 else 1 + FirstOverCap(lots[1..], symbol, num, den)
  }

  /** The split finds the lot as it leaves it, already marked as touched. */
  predicate Untouched(l: Lot, symbol: string, num: int, den: int, dependedOn: set<string>)
    requires den >= 1
  {
    SplitSkips(l, symbol) || (Rescaled(l.qty, num, den) == l.qty && l.openEvent in dependedOn)
  }

  /** Every lot before the first over the cap is found as it is left. */
  predicate UntouchedBefore(lots: seq<Lot>, n: nat, symbol: string, num: int, den: int, dependedOn: set<string>)
    requires den >= 1 && n <= |lots|
  {
    forall i :: 0 <= i < n ==> Untouched(lots[i], symbol, num, den, dependedOn)
  }

  lemma UntouchedFromNext(lots: seq<Lot>, n: nat, symbol: string, num: int, den: int, dependedOn: set<string>)
    requires den >= 1 && n < |lots|
    ensures UntouchedBefore(lots, n + 1, symbol, num, den, dependedOn) <==>
            Untouched(lots[0], symbol, num, den, dependedOn)
              && UntouchedBefore(lots[1..], n, symbol, num, den, dependedOn)
  {
    assert forall i :: 0 <= i < n ==> lots[1..][i] == lots[i + 1];
    assert forall i :: 1 <= i < n + 1 ==> lots[i] == lots[1..][i - 1];
  }

  lemma SameHeadAndTail(x: Lot, s: seq<Lot>, y: Lot, t: seq<Lot>)
    ensures [x] + s == [y] + t <==> x == y && s == t
  {
    if [x] + s == [y] + t {
      assert ([x] + s)[0] == x && ([y] + t)[0] == y;
      assert ([x] + s)[1..] == s && ([y] + t)[1..] == t;
    }
  }

  lemma {:induction false} StoppedSplit(lots: seq<Lot>, symbol: string, num: int, den: int, dependedOn: set<string>)
    requires den >= 1
    ensures
      var (r, deps, ok) := SplitLots(lots, symbol, num, den);
      (r == lots && deps <= dependedOn) <==>
        UntouchedBefore(lots, FirstOverCap(lots, symbol, num, den), symbol, num, den, dependedOn)
  {
    if lots != [] && !OverCap(lots[0], symbol, num, den) {
      var rest := lots[1..];
      StoppedSplit(rest, symbol, num, den, dependedOn);
      UntouchedFromNext(lots, FirstOverCap(rest, symbol, num, den), symbol, num, den, dependedOn);
      var (r', deps', ok') := SplitLots(rest, symbol, num, den);
      var l := if SplitSkips(lots[0], symbol) then lots[0] else lots[0].(qty := Rescaled(lots[0].qty, num, den));
      assert SplitLots(lots, symbol, num, den).0 == [l] + r' && lots == [lots[0]] + rest;
      SameHeadAndTail(l, r', lots[0], rest);
    }
  }

  /** A rejected event changes nothing if and only if it is no well-formed split, or every lot
      the split rescales before the first over the cap keeps its quantity and was already
      depended on. */
  lemma {:induction false} RejectedLeavesBookIff(b: Book, e: Event)
    requires ApplyEvent(b, e).1.Rejected?
    ensures ApplyEvent(b, e).0 == b <==>
      (e.kind.Split? && e.kind.num >= 1 && e.kind.den >= 1 ==>
         UntouchedBefore(b.lots, FirstOverCap(b.lots, e.kind.symbol, e.kind.num, e.kind.den),
                         e.kind.symbol, e.kind.num, e.kind.den, b.dependedOn))
  {
    if e.kind.Split? && e.kind.num >= 1 && e.kind.den >= 1 {
      var (r, deps, ok) := SplitLots(b.lots, e.kind.symbol, e.kind.num, e.kind.den);
      StoppedSplit(b.lots, e.kind.symbol, e.kind.num, e.kind.den, b.dependedOn);
      assert b.dependedOn + deps == b.dependedOn <==> deps <= b.dependedOn;
    }
  }

  lemma SplitSound(lots: seq<Lot>, symbol: string, num: int, den: int)
    requires num >= 1 && den >= 1
    requires SoundLots(lots)
    ensures SoundLots(SplitLots(lots, symbol, num, den).0)
    ensures SameLots(lots, SplitLots(lots, symbol, num, den).0)
  {
    SplitLotsAt(lots, symbol, num, den);
    var r := SplitLots(lots, symbol, num, den).0;
    forall i | 0 <= i < |lots| ensures SoundLot(r[i]) {
      RescaledBounds(lots[i].qty, num, den);
    }
  }

  /** No event, accepted or rejected, breaks the lots: share counts stay non-negative, a
      closed lot stays empty of shares and basis, ids stay unique, and existing lots keep
      their identity and position. */
  lemma {:induction false} EventSound(b: Book, e: Event)
    requires SoundLots(b.lots)
    ensures
      var r := ApplyEvent(b, e).0;
      && SoundLots(r.lots)
      && |b.lots| <= |r.lots|
      && SameLots(b.lots, r.lots[..|b.lots|])
  {
    var (r, o) := ApplyEvent(b, e);
    match e.kind
    case Buy(_, _, _, _, _, _, _) => assert r.lots[..|b.lots|] == b.lots;
    case Vest(_, _, _, _, _, _) => assert r.lots[..|b.lots|] == b.lots;
    case Sell(_, _, _, _, _, _, _, _, _) =>
      if o.Accepted? { SaleQuantities(b, e); }
      assert r.lots[..|b.lots|] == r.lots;
    case Split(symbol, num, den) =>
      if num >= 1 && den >= 1 { SplitSound(b.lots, symbol, num, den); }
      assert r.lots[..|b.lots|] == r.lots;
    case Reversal(_) => assert r.lots[..|b.lots|] == r.lots;
  }

  lemma {:induction false} FoldSound(b: Book, events: seq<Event>)
    requires SoundLots(b.lots)
    ensures SoundLots(Fold(b, events).lots)
    decreases |events|
  {
    if events != [] {
      EventSound(b, events[0]);
      FoldSound(ApplyEvent(b, events[0]).0, events[1..]);
    }
  }

  // --- Basis stays non-negative exactly when every opening is. ---

  ghost predicate BasisNonNegative(lots: seq<Lot>) {
    forall i :: 0 <= i < |lots| ==> lots[i].basis >= 0
  }

  ghost predicate AlwaysBasisNonNegative(b: Book, events: seq<Event>)
    decreases |events|
  {
    BasisNonNegative(b.lots) && (events != [] ==> AlwaysBasisNonNegative(ApplyEvent(b, events[0]).0, events[1..]))
  }

  /** The basis an opening event brings, checkable from the event alone. */
  function BroughtBasis(e: Event): int {
    match e.kind
    case Buy(_, _, qty, unitPrice, fees, _, _) => Scale(qty * unitPrice) + fees
    case Vest(_, _, qty, fmv, _, _) => Scale(qty * fmv)
    case _ => 0
  }

  ghost predicate OpeningsNonNegative(b: Book, events: seq<Event>)
    decreases |events|
  {
    events != [] ==>
      var (b', o) := ApplyEvent(b, events[0]);
      (o.Accepted? ==> BroughtBasis(events[0]) >= 0) && OpeningsNonNegative(b', events[1..])
  }

  lemma {:induction false} ConsumeBasisNonNegative(b: Book, plan: Plan, proceeds: seq<int>, e: Event)
    requires e.kind.Sell? && |proceeds| == |plan|
    requires Feasible(b.lots, plan)
    requires BasisNonNegative(b.lots)
    ensures BasisNonNegative(ConsumePlan(b, plan, proceeds, e).lots)
    decreases |plan|
  {
    if plan != [] {
      FeasibleTail(b, plan, proceeds[0], e);
      ConsumeBasisNonNegative(ConsumeTake(b, plan[0], proceeds[0], e), plan[1..], proceeds[1..], e);
    }
  }

  lemma EventBasisNonNegative(b: Book, e: Event)
    requires BasisNonNegative(b.lots)
    ensures
      var (r, o) := ApplyEvent(b, e);
      BasisNonNegative(r.lots) <==> (o.Accepted? ==> BroughtBasis(e) >= 0)
  {
    var (r, o) := ApplyEvent(b, e);
    match e.kind
    case Buy(_, _, _, _, _, _, _) => if o.Accepted? { assert r.lots[|b.lots|].basis == BroughtBasis(e); }
    case Vest(_, _, _, _, _, _) => if o.Accepted? { assert r.lots[|b.lots|].basis == BroughtBasis(e); }
    case Sell(_, _, _, _, _, _, _, _, _) =>
      if o.Accepted? {
        var k := e.kind;
        SelectedFeasible(b.lots, k.symbol, k.qty, k.lotRefs, k.platform);
        var plan := SelectLots(b.lots, k.symbol, k.qty, k.lotRefs, k.platform).value;
        ConsumeBasisNonNegative(b, plan, Proceeds(b.lots, plan, Net(e), k.qty), e);
      }
    case Split(symbol, num, den) => if num >= 1 && den >= 1 { SplitLotsAt(b.lots, symbol, num, den); }
    case Reversal(_) =>
  }

  /** The kernel does not reject a negative price, so basis can go negative: throughout a
      run every lot's basis is non-negative exactly when every accepted opening brings a
      non-negative basis. */
  lemma {:induction false} BasisNonNegativeIff(b: Book, events: seq<Event>)
    requires BasisNonNegative(b.lots)
    ensures AlwaysBasisNonNegative(b, events) <==> OpeningsNonNegative(b, events)
    decreases |events|
  {
    if events != [] {
      var b' := ApplyEvent(b, events[0]).0;
      EventBasisNonNegative(b, events[0]);
      if BasisNonNegative(b'.lots) { BasisNonNegativeIff(b', events[1..]); }
    }
  }

  // --- Dominance. ---

  /** Same lots, each holding at least as many shares in `b` as in `a`. */
  ghost predicate Dominated(a: seq<Lot>, b: seq<Lot>) {
    SameLots(a, b) && forall i :: 0 <= i < |a| ==> a[i].qty <= b[i].qty
  }

  lemma FindLotSame(a: seq<Lot>, b: seq<Lot>, id: string)
    requires SameLots(a, b)
    ensures FindLot(a, id) == FindLot(b, id)
  {
  }

  lemma {:induction false} DesignatedDominates(a: seq<Lot>, b: seq<Lot>, symbol: string, platform: string,
                                               seen: set<string>, refs: seq<LotRef>)
    requires SoundLots(a) && SoundLots(b) && Dominated(a, b)
    requires DesignatedPlan(a, symbol, platform, seen, refs).Success?
    ensures DesignatedPlan(b, symbol, platform, seen, refs) == DesignatedPlan(a, symbol, platform, seen, refs)
    decreases |refs|
  {
    if refs != [] {
      FindLotSame(a, b, refs[0].lotId);
      assert CheckRef(b, symbol, platform, seen, refs[0]) == CheckRef(a, symbol, platform, seen, refs[0]);
      DesignatedDominates(a, b, symbol, platform, seen + {refs[0].lotId}, refs[1..]);
    }
  }

  lemma {:induction false} SkimDominates(a: seq<Lot>, b: seq<Lot>, order: seq<Key>, needA: int, needB: int)
    requires SoundLots(a) && SoundLots(b) && Dominated(a, b)
    requires forall i :: 0 <= i < |order| ==> order[i].idx < |a|
    requires DistinctKeys(order)
    requires 0 <= needB <= needA
    ensures Shortfall(b, order, needB) <= Shortfall(a, order, needA)
    ensures forall i :: 0 <= i < |order| ==>
              a[order[i].idx].qty - Taken(Skim(a, order, needA), order[i].idx)
              <= b[order[i].idx].qty - Taken(Skim(b, order, needB), order[i].idx)
    decreases |order|
  {
    if order != [] {
      var rest := order[1..];
      assert forall i :: 0 <= i < |rest| ==> rest[i] == order[i + 1];
      SkimStep(a, order, needA);
      SkimStep(b, order, needB);
      var p := order[0].idx;
      var takeA := if a[p].qty >= needA then needA else a[p].qty;
      var takeB := if b[p].qty >= needB then needB else b[p].qty;
      SkimDominates(a, b, rest, needA - takeA, needB - takeB);
      forall i | 1 <= i < |order|
        ensures a[order[i].idx].qty - Taken(Skim(a, order, needA), order[i].idx)
             <= b[order[i].idx].qty - Taken(Skim(b, order, needB), order[i].idx)
      {
        assert order[i] == rest[i - 1];
        assert order[i].idx != p;
      }
    }
  }

  /** A plan feasible for fewer shares has a counterpart where there are more, leaving at
      least as many shares in every lot. */
  lemma {:induction false} SelectDominates(a: seq<Lot>, b: seq<Lot>, symbol: string, qty: int, refs: seq<LotRef>,
                                           platform: string)
    requires SoundLots(a) && SoundLots(b) && Dominated(a, b)
    requires qty > 0
    requires SelectLots(a, symbol, qty, refs, platform).Success?
    ensures SelectLots(b, symbol, qty, refs, platform).Success?
    ensures
      var planA := SelectLots(a, symbol, qty, refs, platform).value;
      var planB := SelectLots(b, symbol, qty, refs, platform).value;
      forall i :: 0 <= i < |a| ==> a[i].qty - Taken(planA, i) <= b[i].qty - Taken(planB, i)
  {
    if refs != [] {
      DesignatedDominates(a, b, symbol, platform, {}, refs);
    } else {
      FifoIsSkim(a, symbol, platform, qty);
      FifoIsSkim(b, symbol, platform, qty);
      AllKeysSame(a, b, symbol, platform, 0);
      var ks := AllKeys(a, symbol, platform, 0);
      var order := HoldingOrder(a, symbol, platform);
      assert order == HoldingOrder(b, symbol, platform);
      AllKeysDistinct(a, symbol, platform, 0);
      SortDistinct(ks);
      SkimDominates(a, b, order, qty, qty);
      SortMembers(ks);
      forall i | 0 <= i < |a|
        ensures a[i].qty - Taken(Skim(a, order, qty), i) <= b[i].qty - Taken(Skim(b, order, qty), i)
      {
        if j :| 0 <= j < |order| && order[j].idx == i {
        } else {
          SkimTaken(a, order, qty, i);
          SkimTaken(b, order, qty, i);
        }
      }
    }
  }

  /** The guard of the one branch a dominating run can still fail on. */
  predicate CapGuard(b: Book, e: Event) {
    e.kind.Split? && e.kind.num >= 1 && e.kind.den >= 1 ==>
      SplitWithinCap(b.lots, e.kind.symbol, e.kind.num, e.kind.den)
  }

  /** An event accepted with fewer shares is accepted with more, unless it is a split that
      now exceeds the cap; and the dominating run stays ahead. */
  lemma {:induction false} EventDominates(a: Book, b: Book, e: Event)
    requires SoundLots(a.lots) && SoundLots(b.lots) && Dominated(a.lots, b.lots)
    requires ApplyEvent(a, e).1.Accepted?
    ensures ApplyEvent(b, e).1 == if CapGuard(b, e) then Accepted else Rejected(AmountOutOfRange)
    ensures CapGuard(b, e) ==> Dominated(ApplyEvent(a, e).0.lots, ApplyEvent(b, e).0.lots)
  {
    match e.kind
    case Buy(lotId, _, _, _, _, _, _) => FindLotSame(a.lots, b.lots, lotId);
    case Vest(lotId, _, _, _, _, _) => FindLotSame(a.lots, b.lots, lotId);
    case Sell(_, _, _, _, _, _, _, _, _) => SaleDominates(a, b, e);
    case Split(symbol, num, den) =>
      SplitLotsAt(a.lots, symbol, num, den);
      SplitLotsAt(b.lots, symbol, num, den);
      if CapGuard(b, e) {
        SplitDominates(a.lots, b.lots, symbol, num, den);
      }
    case Reversal(_) =>
  }

  /** The plan an accepted sale carries out. */
  function SalePlan(b: Book, e: Event): Plan
    requires e.kind.Sell? && ApplyEvent(b, e).1.Accepted?
  {
    SelectLots(b.lots, e.kind.symbol, e.kind.qty, e.kind.lotRefs, e.kind.platform).value
  }

  lemma SaleDominates(a: Book, b: Book, e: Event)
    requires SoundLots(a.lots) && SoundLots(b.lots) && Dominated(a.lots, b.lots)
    requires e.kind.Sell? && ApplyEvent(a, e).1.Accepted?
    ensures ApplyEvent(b, e).1.Accepted?
    ensures Dominated(ApplyEvent(a, e).0.lots, ApplyEvent(b, e).0.lots)
  {
    var k := e.kind;
    SelectDominates(a.lots, b.lots, k.symbol, k.qty, k.lotRefs, k.platform);
    SaleQuantities(a, e);
    SaleQuantities(b, e);
  }

  /** An accepted sale lowers each lot by what its plan takes from it. */
  lemma {:induction false} SaleQuantities(b: Book, e: Event)
    requires SoundLots(b.lots) && e.kind.Sell?
    requires ApplyEvent(b, e).1.Accepted?
    ensures
      var r := ApplyEvent(b, e).0;
      && SameLots(b.lots, r.lots)
      && SoundLots(r.lots)
      && (forall i :: 0 <= i < |b.lots| ==> r.lots[i].qty == b.lots[i].qty - Taken(SalePlan(b, e), i))
  {
    var k := e.kind;
    SelectedFeasible(b.lots, k.symbol, k.qty, k.lotRefs, k.platform);
    ConsumeLots(b, SalePlan(b, e), Proceeds(b.lots, SalePlan(b, e), Net(e), k.qty), e);
  }

  lemma SplitDominates(a: seq<Lot>, b: seq<Lot>, symbol: string, num: int, den: int)
    requires num >= 1 && den >= 1
    requires SoundLots(a) && SoundLots(b) && Dominated(a, b)
    requires SplitWithinCap(a, symbol, num, den) && SplitWithinCap(b, symbol, num, den)
    ensures Dominated(SplitLots(a, symbol, num, den).0, SplitLots(b, symbol, num, den).0)
  {
    SplitLotsAt(a, symbol, num, den);
    SplitLotsAt(b, symbol, num, den);
    forall i | 0 <= i < |a|
      ensures SplitLots(a, symbol, num, den).0[i].qty <= SplitLots(b, symbol, num, den).0[i].qty
    {
      RescaledMonotone(a[i].qty, b[i].qty, num, den);
      RescaledBounds(a[i].qty, num, den);
      RescaledBounds(b[i].qty, num, den);
    }
  }

  /** Every split of the run stays within the cap when the run reaches it. */
  predicate SplitsWithinCap(b: Book, events: seq<Event>)
    decreases |events|
  {
    events != [] ==> CapGuard(b, events[0]) && SplitsWithinCap(ApplyEvent(b, events[0]).0, events[1..])
  }

  /** If a run is free of errors, the same events from more shares are free of errors
      exactly when its splits stay within the cap. */
  lemma {:induction false} CleanDominates(a: Book, b: Book, events: seq<Event>)
    requires SoundLots(a.lots) && SoundLots(b.lots) && Dominated(a.lots, b.lots)
    requires Clean(a, events)
    ensures Clean(b, events) <==> SplitsWithinCap(b, events)
    decreases |events|
  {
    if events != [] {
      EventDominates(a, b, events[0]);
      if CapGuard(b, events[0]) {
        EventSound(a, events[0]);
        EventSound(b, events[0]);
        CleanDominates(ApplyEvent(a, events[0]).0, ApplyEvent(b, events[0]).0, events[1..]);
      }
    }
  }

  // --- Same lots, any share counts. ---

  /** Selling fails for want of shares only. */
  predicate CoverGuard(b: Book, e: Event) {
    e.kind.Sell? ==>
      SelectLots(b.lots, e.kind.symbol, e.kind.qty, e.kind.lotRefs, e.kind.platform) != Failure(InsufficientShares)
  }

  lemma {:induction false} DesignatedShort(a: seq<Lot>, b: seq<Lot>, symbol: string, platform: string,
                                           seen: set<string>, refs: seq<LotRef>)
    requires SameLots(a, b)
    requires DesignatedPlan(a, symbol, platform, seen, refs).Success?
    ensures DesignatedPlan(b, symbol, platform, seen, refs) == DesignatedPlan(a, symbol, platform, seen, refs)
         || DesignatedPlan(b, symbol, platform, seen, refs) == Failure(InsufficientShares)
    decreases |refs|
  {
    if refs != [] {
      FindLotSame(a, b, refs[0].lotId);
      DesignatedShort(a, b, symbol, platform, seen + {refs[0].lotId}, refs[1..]);
    }
  }

  lemma SaleOverSameLots(a: Book, b: Book, e: Event)
    requires SoundLots(a.lots) && SoundLots(b.lots) && SameLots(a.lots, b.lots)
    requires e.kind.Sell? && ApplyEvent(a, e).1.Accepted?
    ensures ApplyEvent(b, e).1 ==
      if !CapGuard(b, e) then Rejected(AmountOutOfRange)
      else if !CoverGuard(b, e) then Rejected(InsufficientShares)
      else Accepted
  {
    var k := e.kind;
    if k.lotRefs != [] { DesignatedShort(a.lots, b.lots, k.symbol, k.platform, {}, k.lotRefs); }
  }

  lemma SplitOverSameLots(a: Book, b: Book, e: Event)
    requires SoundLots(a.lots) && SoundLots(b.lots) && SameLots(a.lots, b.lots)
    requires e.kind.Split? && ApplyEvent(a, e).1.Accepted?
    ensures ApplyEvent(b, e).1 ==
      if !CapGuard(b, e) then Rejected(AmountOutOfRange)
      else if !CoverGuard(b, e) then Rejected(InsufficientShares)
      else Accepted
    ensures SameLots(ApplyEvent(a, e).0.lots, ApplyEvent(b, e).0.lots)
  {
    SplitLotsAt(b.lots, e.kind.symbol, e.kind.num, e.kind.den);
    SplitSound(a.lots, e.kind.symbol, e.kind.num, e.kind.den);
    SplitSound(b.lots, e.kind.symbol, e.kind.num, e.kind.den);
  }

  lemma SameLotsAcross(a: seq<Lot>, b: seq<Lot>, a': seq<Lot>, b': seq<Lot>)
    requires SameLots(a, b) && SameLots(a, a') && SameLots(b, b')
    ensures SameLots(a', b')
  {
    forall i | 0 <= i < |a| ensures SameLot(a'[i], b'[i]) {
      assert SameLot(a[i], b[i]) && SameLot(a[i], a'[i]) && SameLot(b[i], b'[i]);
    }
  }

  /** An event accepted over some share counts meets, over any others of the same lots,
      only a missing-shares or a cap rejection; and the lots stay the same. */
  lemma EventOverSameLots(a: Book, b: Book, e: Event)
    requires SoundLots(a.lots) && SoundLots(b.lots) && SameLots(a.lots, b.lots)
    requires ApplyEvent(a, e).1.Accepted?
    ensures ApplyEvent(b, e).1 ==
      if !CapGuard(b, e) then Rejected(AmountOutOfRange)
      else if !CoverGuard(b, e) then Rejected(InsufficientShares)
      else Accepted
    ensures SameLots(ApplyEvent(a, e).0.lots, ApplyEvent(b, e).0.lots)
  {
    match e.kind
    case Buy(lotId, _, _, _, _, _, _) => FindLotSame(a.lots, b.lots, lotId);
    case Vest(lotId, _, _, _, _, _) => FindLotSame(a.lots, b.lots, lotId);
    case Sell(_, _, _, _, _, _, _, _, _) =>
      SaleOverSameLots(a, b, e);
      SaleKeepsLots(a, e);
      SaleKeepsLots(b, e);
      SameLotsAcross(a.lots, b.lots, ApplyEvent(a, e).0.lots, ApplyEvent(b, e).0.lots);
    case Split(_, _, _) => SplitOverSameLots(a, b, e);
    case Reversal(_) =>
  }

  lemma SaleKeepsLots(b: Book, e: Event)
    requires SoundLots(b.lots) && e.kind.Sell?
    ensures SameLots(b.lots, ApplyEvent(b, e).0.lots)
  {
    if ApplyEvent(b, e).1.Accepted? { SaleQuantities(b, e); }
  }

  /** Every sale of the run is covered when the run reaches it. */
  predicate SalesCovered(b: Book, events: seq<Event>)
    decreases |events|
  {
    events != [] ==> CoverGuard(b, events[0]) && SalesCovered(ApplyEvent(b, events[0]).0, events[1..])
  }

  lemma {:induction false} CleanOverSameLots(a: Book, b: Book, events: seq<Event>)
    requires SoundLots(a.lots) && SoundLots(b.lots) && SameLots(a.lots, b.lots)
    requires Clean(a, events)
    ensures Clean(b, events) <==> SplitsWithinCap(b, events) && SalesCovered(b, events)
    decreases |events|
  {
    if events != [] {
      EventOverSameLots(a, b, events[0]);
      EventSound(a, events[0]);
      EventSound(b, events[0]);
      CleanOverSameLots(ApplyEvent(a, events[0]).0, ApplyEvent(b, events[0]).0, events[1..]);
    }
  }
}
