/** The fold as it runs: a mutable state whose lots change in place, the selection and
    allocation loops, replay, snapshot building and append-time validation. Every method is
    proved to compute the corresponding function of `Ledger` and `Snapshots`. */
module FoldStates {
  import opened Basics
  import opened Rounding
  import opened Keys
  import opened Apportion
  import opened Ledger
  import opened Conservation
  import opened Snapshots

  // --- Small facts about functions read from the front and loops that build at the back. ---

  lemma {:induction false} PlanQtyAppend(plan: Plan, t: Take)
    ensures PlanQty(plan + [t]) == PlanQty(plan) + t.qty
  {
    if plan == [] {
      assert plan + [t] == [t];
    } else {
      assert (plan + [t])[1..] == plan[1..] + [t];
      PlanQtyAppend(plan[1..], t);
    }
  }

  lemma {:induction false} SumAppend(s: seq<int>, x: int)
    ensures Sum(s + [x]) == Sum(s) + x
  {
    if s == [] {
      assert s + [x] == [x];
    } else {
      assert (s + [x])[1..] == s[1..] + [x];
      SumAppend(s[1..], x);
    }
  }

  lemma {:induction false} GreedyStep(lots: seq<Lot>, order: seq<Key>, k: nat, need: int, plan: Plan)
    requires forall i :: 0 <= i < |order| ==> order[i].idx < |lots|
    requires k < |order| && need > 0
    ensures
      var avail := lots[order[k].idx].qty;
      var take := if avail >= need then need else avail;
      plan + Greedy(lots, order[k..], need)
        == (plan + [Take(order[k].idx, take)]) + Greedy(lots, order[k + 1..], need - take)
  {
    var rest := order[k..];
    assert rest[0] == order[k] && rest[1..] == order[k + 1..];
    var avail := lots[order[k].idx].qty;
    var take := if avail >= need then need else avail;
    var t, tail := Take(order[k].idx, take), Greedy(lots, order[k + 1..], need - take);
    assert Greedy(lots, rest, need) == [t] + tail;
    assert plan + ([t] + tail) == (plan + [t]) + tail;
  }

  /** The split of `was` once its first `i` lots are done. */
  ghost predicate SplitResumes(was: seq<Lot>, symbol: string, num: int, den: int, i: nat, done: seq<Lot>,
                               deps: set<string>)
    requires den >= 1 && i <= |was|
  {
    var (lots, touched, ok) := SplitLots(was, symbol, num, den);
    var (rest, more, fine) := SplitLots(was[i..], symbol, num, den);
    lots == done + rest && touched == deps + more && ok == fine
  }

  lemma {:induction false} SplitStep(was: seq<Lot>, symbol: string, num: int, den: int, i: nat, done: seq<Lot>,
                                     deps: set<string>)
    requires den >= 1 && i < |was|
    requires SplitResumes(was, symbol, num, den, i, done, deps)
    ensures SplitSkips(was[i], symbol) ==> SplitResumes(was, symbol, num, den, i + 1, done + [was[i]], deps)
    ensures !SplitSkips(was[i], symbol) ==>
              var q := Rescaled(was[i].qty, num, den);
              if WithinCap(q) then
                SplitResumes(was, symbol, num, den, i + 1, done + [was[i].(qty := q)], deps + {was[i].openEvent})
              else SplitLots(was, symbol, num, den) == (done + was[i..], deps, false)
  {
    var rest := was[i..];
    assert rest[0] == was[i] && rest[1..] == was[i + 1..];
    var (tail, more, fine) := SplitLots(was[i + 1..], symbol, num, den);
    if SplitSkips(was[i], symbol) {
      assert done + ([was[i]] + tail) == (done + [was[i]]) + tail;
    } else {
      var l := was[i].(qty := Rescaled(was[i].qty, num, den));
      assert done + ([l] + tail) == (done + [l]) + tail;
      assert deps + ({l.openEvent} + more) == (deps + {l.openEvent}) + more;
      assert deps + {} == deps;
    }
  }

  lemma OpenLotsStep(lots: seq<Lot>, i: nat, marks: Marks, found: seq<OpenLot>)
    requires i < |lots|
    ensures found + OpenLots(lots[i..], marks)
      == (if Reportable(lots[i]) then found + [OpenLotOf(lots[i], marks)] else found) + OpenLots(lots[i + 1..], marks)
  {
    assert lots[i..][0] == lots[i] && lots[i..][1..] == lots[i + 1..];
    var rest := OpenLots(lots[i + 1..], marks);
    assert found + ([OpenLotOf(lots[i], marks)] + rest) == (found + [OpenLotOf(lots[i], marks)]) + rest;
  }

  lemma SymbolsStep(lots: seq<Lot>, i: nat, found: set<string>)
    requires i < |lots|
    ensures found + LotSymbols(lots[i..])
      == (if Reportable(lots[i]) then found + {lots[i].symbol} else found) + LotSymbols(lots[i + 1..])
  {
    assert lots[i..][0] == lots[i] && lots[i..][1..] == lots[i + 1..];
  }

  lemma NextLot(was: seq<Lot>, done: seq<Lot>, i: nat)
    requires i < |was| && |done| == i
    ensures done + was[i..] == (done + [was[i]]) + was[i + 1..]
    ensures (done + was[i..])[i] == was[i]
  {
    assert was[i..] == [was[i]] + was[i + 1..];
  }

  lemma ReplaceLot(was: seq<Lot>, done: seq<Lot>, i: nat, l: Lot)
    requires i < |was| && |done| == i
    ensures (done + was[i..])[i := l] == (done + [l]) + was[i + 1..]
  {
    assert was[i..] == [was[i]] + was[i + 1..];
  }

  /** A designated plan, part of it already found. */
  ghost predicate Resumes(whole: Result<Plan, LedgerError>, found: Plan, rest: Result<Plan, LedgerError>) {
    match rest
    case Failure(e) => whole == Failure(e)
    case Success(plan) => whole == Success(found + plan)
  }

  lemma ResumesStep(whole: Result<Plan, LedgerError>, found: Plan, lots: seq<Lot>, symbol: string, platform: string,
                    seen: set<string>, refs: seq<LotRef>, i: nat)
    requires i < |refs| && Resumes(whole, found, DesignatedPlan(lots, symbol, platform, seen, refs[i..]))
    ensures
      match CheckRef(lots, symbol, platform, seen, refs[i])
      case Failure(e) => whole == Failure(e)
      case Success(t) =>
        t.qty == refs[i].qty
          && Resumes(whole, found + [t], DesignatedPlan(lots, symbol, platform, seen + {refs[i].lotId}, refs[i + 1..]))
  {
    var rest := refs[i..];
    assert rest[0] == refs[i] && rest[1..] == refs[i + 1..];
    var t := CheckRef(lots, symbol, platform, seen, refs[i]);
    var tail := DesignatedPlan(lots, symbol, platform, seen + {refs[i].lotId}, refs[i + 1..]);
    if t.Success? && tail.Success? {
      assert found + ([t.value] + tail.value) == (found + [t.value]) + tail.value;
    }
  }

  class FoldState {
    var lots: seq<Lot>
    var gains: seq<Gain>
    var symbolsSeen: set<string>
    var dependedOn: set<string>

    function View(): Book
      reads this
    {
      Book(lots, gains, symbolsSeen, dependedOn)
    }

    constructor ()
      ensures View() == EMPTY_BOOK
    {
      lots, gains, symbolsSeen, dependedOn := [], [], {}, {};
    }

    /** One designated lot: the take it contributes, or its first defect. */
    method CheckDesignated(lr: LotRef, seen: set<string>, symbol: string, platform: string)
      returns (t: Result<Take, LedgerError>)
      ensures t == CheckRef(lots, symbol, platform, seen, lr)
    {
      if lr.lotId in seen { return Failure(DuplicateLotRef); }
      var found := FindLot(lots, lr.lotId);
      if found == None { return Failure(UnknownLot); }
      var idx := found.value;
      var lot := lots[idx];
      if lot.symbol != symbol { return Failure(WrongSymbolLot); }
      if lot.platform != platform { return Failure(WrongPlatform); }
      if lr.qty <= 0 { return Failure(NonPositiveQty); }
      if lot.closed || lr.qty > lot.qty { return Failure(InsufficientShares); }
      return Success(Take(idx, lr.qty));
    }

    method SelectDesignated(symbol: string, qty: int, refs: seq<LotRef>, platform: string)
      returns (r: Result<Plan, LedgerError>)
      requires refs != []
      ensures r == SelectLots(lots, symbol, qty, refs, platform)
    {
      var seen: set<string> := {};
      var sum := 0;
      var plan: Plan := [];
      var i := 0;
      ghost var whole := DesignatedPlan(lots, symbol, platform, {}, refs);
      assert refs[0..] == refs;
      assert whole.Success? ==> [] + whole.value == whole.value;
      while i < |refs|
        invariant 0 <= i <= |refs|
        invariant sum == PlanQty(plan)
        invariant Resumes(whole, plan, DesignatedPlan(lots, symbol, platform, seen, refs[i..]))
      {
        var t := CheckDesignated(refs[i], seen, symbol, platform);
        ResumesStep(whole, plan, lots, symbol, platform, seen, refs, i);
        if t.Failure? { return Failure(t.error); }
        PlanQtyAppend(plan, t.value);
        seen := seen + {refs[i].lotId};
        sum := sum + refs[i].qty;
        plan := plan + [t.value];
        i := i + 1;
      }
      assert refs[i..] == [];
      assert plan + [] == plan;
      if sum != qty { return Failure(LotRefsMismatch); }
      return Success(plan);
    }

    method SelectFifo(symbol: string, qty: int, platform: string) returns (r: Result<Plan, LedgerError>)
      ensures r == SelectLots(lots, symbol, qty, [], platform)
    {
      var candidates: seq<Key> := [];
      var i := 0;
      while i < |lots|
        invariant 0 <= i <= |lots|
        invariant candidates + FifoKeys(lots, symbol, platform, i) == FifoKeys(lots, symbol, platform, 0)
      {
        var l := lots[i];
        ghost var rest := FifoKeys(lots, symbol, platform, i + 1);
        assert FifoKeys(lots, symbol, platform, i) == FifoHead(lots, symbol, platform, i) + rest;
        if !l.closed && l.symbol == symbol && l.platform == platform && l.qty > 0 {
          assert candidates + ([FifoKey(lots, i)] + rest) == (candidates + [FifoKey(lots, i)]) + rest;
          candidates := candidates + [FifoKey(lots, i)];
        } else {
          assert candidates + ([] + rest) == candidates + rest;
        }
        i := i + 1;
      }
      assert candidates + [] == candidates;
      var order := Sort(candidates);
      assert order == FifoOrder(lots, symbol, platform);
      r := TakeInOrder(order, qty);
    }

    method TakeInOrder(order: seq<Key>, qty: int) returns (r: Result<Plan, LedgerError>)
      requires forall i :: 0 <= i < |order| ==> order[i].idx < |lots|
      ensures
        var plan := Greedy(lots, order, qty);
        r == if qty - PlanQty(plan) > 0 then Failure(InsufficientShares) else Success(plan)
    {
      var need := qty;
      var plan: Plan := [];
      var k := 0;
      assert order[0..] == order;
      while k < |order|
        invariant 0 <= k <= |order|
        invariant need == qty - PlanQty(plan)
        invariant plan + Greedy(lots, order[k..], need) == Greedy(lots, order, qty)
      {
        if need <= 0 { break; }
        var avail := lots[order[k].idx].qty;
        var take := if avail >= need then need else avail;
        PlanQtyAppend(plan, Take(order[k].idx, take));
        GreedyStep(lots, order, k, need, plan);
        plan := plan + [Take(order[k].idx, take)];
        need := need - take;
        k := k + 1;
      }
      assert Greedy(lots, order[k..], need) == [];
      assert plan + [] == plan;
      if need > 0 { return Failure(InsufficientShares); }
      return Success(plan);
    }

    method Select(symbol: string, qty: int, refs: seq<LotRef>, platform: string) returns (r: Result<Plan, LedgerError>)
      ensures r == SelectLots(lots, symbol, qty, refs, platform)
    {
      if refs != [] {
        r := SelectDesignated(symbol, qty, refs, platform);
      } else {
        r := SelectFifo(symbol, qty, platform);
      }
    }

    method AllocateProceeds(plan: Plan, net: int, total: int) returns (proceeds: seq<int>)
      requires total > 0
      requires forall k :: 0 <= k < |plan| ==> plan[k].idx < |lots|
      ensures proceeds == Proceeds(lots, plan, net, total)
    {
      var floors: seq<int> := [];
      var rems: seq<int> := [];
      var sumFloor := 0;
      var k := 0;
      while k < |plan|
        invariant 0 <= k <= |plan|
        invariant |floors| == |rems| == k
        invariant sumFloor == Sum(floors)
        invariant forall j ::
          0 <= j < k ==> floors[j] == net * plan[j].qty / total && rems[j] == net * plan[j].qty % total
      {
        var f := net * plan[k].qty / total;
        SumAppend(floors, f);
        sumFloor := sumFloor + f;
        floors := floors + [f];
        rems := rems + [net * plan[k].qty % total];
        k := k + 1;
      }
      ghost var nums := ProceedNums(plan, net);
      assert floors == Floors(nums, total);
      assert rems == Remainders(nums, total);
      var residual := net - sumFloor;
      var keys: seq<Key> := [];
      k := 0;
      while k < |plan|
        invariant 0 <= k <= |plan|
        invariant |keys| == k
        invariant forall j :: 0 <= j < k ==>
          keys[j] == Key(-rems[j], lots[plan[j].idx].acquireDate, lots[plan[j].idx].openSeq, j)
      {
        var l := lots[plan[k].idx];
        keys := keys + [Key(-rems[k], l.acquireDate, l.openSeq, k)];
        k := k + 1;
      }
      assert keys == ProceedKeys(lots, plan, rems);
      var order := Positions(Sort(keys));
      assert order == ProceedOrder(lots, plan, net, total);
      proceeds := AwardUnits(floors, order, residual);
    }

    method ApplySell(e: Event) returns (o: Outcome)
      requires e.kind.Sell?
      modifies this
      ensures (View(), o) == Ledger.ApplySell(old(View()), e)
    {
      var k := e.kind;
      if k.qty <= 0 { return Rejected(NonPositiveQty); }
      var selected := Select(k.symbol, k.qty, k.lotRefs, k.platform);
      if selected.Failure? { return Rejected(selected.error); }
      var plan := selected.value;
      var gross := Scale(k.qty * k.unitPrice);
      if !WithinCap(gross) { return Rejected(AmountOutOfRange); }
      var net := gross - k.fees;
      if !WithinCap(net) { return Rejected(AmountOutOfRange); }
      SelectedFeasible(lots, k.symbol, k.qty, k.lotRefs, k.platform);
      var proceeds := AllocateProceeds(plan, net, k.qty);
      Consume(plan, proceeds, e);
      return Accepted;
    }

    method Consume(plan: Plan, proceeds: seq<int>, e: Event)
      requires e.kind.Sell? && |proceeds| == |plan|
      requires Feasible(lots, plan)
      modifies this
      ensures View() == ConsumePlan(old(View()), plan, proceeds, e)
    {
      var i := 0;
      assert plan[0..] == plan && proceeds[0..] == proceeds;
      while i < |plan|
        invariant 0 <= i <= |plan|
        invariant Feasible(lots, plan[i..])
        invariant ConsumePlan(View(), plan[i..], proceeds[i..], e) == ConsumePlan(old(View()), plan, proceeds, e)
      {
        assert plan[i..][0] == plan[i] && plan[i..][1..] == plan[i + 1..];
        assert proceeds[i..][0] == proceeds[i] && proceeds[i..][1..] == proceeds[i + 1..];
        FeasibleTail(View(), plan[i..], proceeds[i], e);
        ConsumeOne(plan[i].idx, plan[i].qty, proceeds[i], e);
        i := i + 1;
      }
      assert plan[i..] == [];
    }

    method ConsumeOne(idx: nat, c: int, alloc: int, e: Event)
      requires e.kind.Sell?
      requires idx < |lots| && 0 < c <= lots[idx].qty
      modifies this
      ensures View() == ConsumeTake(old(View()), Take(idx, c), alloc, e)
    {
      var lot := lots[idx];
      var cb := ConsumedBasis(lot.basis, lot.qty, c);
      lots := lots[idx := lots[idx].(basis := lot.basis - cb)];
      lots := lots[idx := lots[idx].(qty := lot.qty - c)];
      if lots[idx].qty == 0 {
        lots := lots[idx := lots[idx].(closed := true)];
      }
      dependedOn := dependedOn + {lots[idx].openEvent};
      gains := gains + [Gain(e.kind.saleId, e.seqNo, lots[idx].id, e.kind.symbol, e.date, alloc, cb, alloc - cb,
                             lots[idx].acquireDate, e.date - lots[idx].acquireDate, e.kind.accruesToState)];
      assert lots == old(lots)[idx := Sold(lot, c)];
    }

    /** One lot of a split: skipped, rescaled, or over the cap. */
    method RescaleLot(i: nat, symbol: string, num: int, den: int) returns (ok: bool)
      requires i < |lots| && den >= 1
      modifies this
      ensures gains == old(gains) && symbolsSeen == old(symbolsSeen)
      ensures
        var l := old(lots)[i];
        if SplitSkips(l, symbol) then ok && lots == old(lots) && dependedOn == old(dependedOn)
        else if !WithinCap(Rescaled(l.qty, num, den)) then !ok && lots == old(lots) && dependedOn == old(dependedOn)
        else
          && ok && dependedOn == old(dependedOn) + {l.openEvent}
          && lots == old(lots)[i := l.(qty := Rescaled(l.qty, num, den))]
    {
      var l := lots[i];
      if l.closed || l.symbol != symbol || l.qty == 0 { return true; }
      var newQty := RoundHalfToEven(l.qty * num, den);
      if !WithinCap(newQty) { return false; }
      lots := lots[i := l.(qty := newQty)];
      dependedOn := dependedOn + {l.openEvent};
      return true;
    }

    /** Every lot in turn, up to the first one over the cap. */
    method RescaleAll(symbol: string, num: int, den: int) returns (ok: bool)
      requires den >= 1
      modifies this
      ensures gains == old(gains) && symbolsSeen == old(symbolsSeen)
      ensures
        var (scaled, deps, fine) := SplitLots(old(lots), symbol, num, den);
        lots == scaled && dependedOn == old(dependedOn) + deps && ok == fine
    {
      ghost var was := lots;
      ghost var done: seq<Lot> := [];
      ghost var deps: set<string> := {};
      var i := 0;
      assert was[0..] == was && [] + was == was;
      while i < |lots|
        invariant 0 <= i <= |lots| == |was|
        invariant |done| == i && lots == done + was[i..]
        invariant dependedOn == old(dependedOn) + deps
        invariant gains == old(gains) && symbolsSeen == old(symbolsSeen)
        invariant SplitResumes(was, symbol, num, den, i, done, deps)
      {
        SplitStep(was, symbol, num, den, i, done, deps);
        NextLot(was, done, i);
        ghost var l := lots[i];
        ghost var scaled := l.(qty := Rescaled(l.qty, num, den));
        ReplaceLot(was, done, i, scaled);
        ok := RescaleLot(i, symbol, num, den);
        if !ok { return; }
        if SplitSkips(l, symbol) {
          done := done + [l];
        } else {
          done, deps := done + [scaled], deps + {l.openEvent};
        }
        i := i + 1;
      }
      assert was[i..] == [];
      assert done + [] == done && deps + {} == deps;
      return true;
    }

    method ApplySplit(e: Event) returns (o: Outcome)
      requires e.kind.Split?
      modifies this
      ensures (View(), o) == Ledger.ApplySplit(old(View()), e)
    {
      var k := e.kind;
      if k.num < 1 || k.den < 1 { return Rejected(BadSplitRatio); }
      var ok := RescaleAll(k.symbol, k.num, k.den);
      return if ok then Accepted else Rejected(AmountOutOfRange);
    }

    method ApplyEvent(e: Event) returns (o: Outcome)
      modifies this
      ensures (View(), o) == Ledger.ApplyEvent(old(View()), e)
    {
      match e.kind
      case Buy(lotId, symbol, qty, unitPrice, fees, platform, trackingCode) =>
        if qty <= 0 { return Rejected(NonPositiveQty); }
        if FindLot(lots, lotId).Some? { return Rejected(DuplicateLotId); }
        var scaled := Scale(qty * unitPrice);
        if !WithinCap(scaled) { return Rejected(AmountOutOfRange); }
        var basis := scaled + fees;
        if !WithinCap(basis) { return Rejected(AmountOutOfRange); }
        symbolsSeen := symbolsSeen + {symbol};
        lots := lots + [Lot(lotId, symbol, e.date, e.seqNo, FromBuy, qty, basis, platform, trackingCode, e.id, false)];
        return Accepted;
      case Vest(lotId, symbol, qty, fmv, platform, trackingCode) =>
        if qty <= 0 { return Rejected(NonPositiveQty); }
        if FindLot(lots, lotId).Some? { return Rejected(DuplicateLotId); }
        var basis := Scale(qty * fmv);
        if !WithinCap(basis) { return Rejected(AmountOutOfRange); }
        symbolsSeen := symbolsSeen + {symbol};
        lots := lots + [Lot(lotId, symbol, e.date, e.seqNo, FromVest, qty, basis, platform, trackingCode, e.id, false)];
        return Accepted;
      case Sell(_, _, _, _, _, _, _, _, _) =>
        o := this.ApplySell(e);
      case Split(_, _, _) =>
        o := this.ApplySplit(e);
      case Reversal(_) =>
        return Accepted;
    }

    method BuildSnapshot(marks: Marks) returns (s: Snapshot)
      ensures s == SnapshotOf(View(), marks)
    {
      var openLots, lotSymbols := CollectOpenLots(marks);
      var symbols := symbolsSeen + lotSymbols;
      var i := 0;
      assert gains[0..] == gains;
      while i < |gains|
        invariant 0 <= i <= |gains|
        invariant symbols + GainSymbols(gains[i..]) == ReportedSymbols(View())
      {
        ghost var rest := gains[i..];
        assert rest[0] == gains[i] && rest[1..] == gains[i + 1..];
        symbols := symbols + {gains[i].symbol};
        i := i + 1;
      }
      assert gains[i..] == [];
      var positions := CollectPositions(symbols, marks);
      s := Snapshot(positions, openLots, gains);
    }

    method CollectOpenLots(marks: Marks) returns (openLots: seq<OpenLot>, symbols: set<string>)
      ensures openLots == OpenLots(lots, marks)
      ensures symbols == LotSymbols(lots)
    {
      openLots, symbols := [], {};
      var i := 0;
      assert lots[0..] == lots;
      while i < |lots|
        invariant 0 <= i <= |lots|
        invariant openLots + OpenLots(lots[i..], marks) == OpenLots(lots, marks)
        invariant symbols + LotSymbols(lots[i..]) == LotSymbols(lots)
      {
        OpenLotsStep(lots, i, marks, openLots);
        SymbolsStep(lots, i, symbols);
        var l := lots[i];
        if !(l.closed || l.qty == 0) {
          var open := OpenLot(l, if l.symbol in marks then Some(Scale(marks[l.symbol] * l.qty) - l.basis) else None);
          assert open == OpenLotOf(l, marks);
          openLots := openLots + [open];
          symbols := symbols + {l.symbol};
        }
        i := i + 1;
      }
      assert lots[i..] == [];
      assert openLots + [] == openLots;
    }

    method CollectPositions(symbols: set<string>, marks: Marks) returns (positions: map<string, Position>)
      ensures positions == map x | x in symbols :: PositionOf(View(), marks, x)
    {
      positions := map[];
      var todo := symbols;
      while todo != {}
        invariant todo <= symbols
        invariant positions.Keys == symbols - todo
        invariant forall x :: x in positions ==> positions[x] == PositionOf(View(), marks, x)
        decreases |todo|
      {
        var x :| x in todo;
        var p := PositionFor(x, marks);
        positions := positions[x := p];
        todo := todo - {x};
      }
    }

    /** One position: sums over this symbol's open lots and gains. */
    method PositionFor(sym: string, marks: Marks) returns (p: Position)
      ensures p == PositionOf(View(), marks, sym)
    {
      var qty, basis, unrealized := 0, 0, 0;
      var mark := if sym in marks then marks[sym] else 0;
      var i := 0;
      assert lots[0..] == lots;
      while i < |lots|
        invariant 0 <= i <= |lots|
        invariant qty + Total(lots[i..], ReportedQty(sym)) == Total(lots, ReportedQty(sym))
        invariant basis + Total(lots[i..], ReportedBasis(sym)) == Total(lots, ReportedBasis(sym))
        invariant unrealized + Total(lots[i..], ReportedUnrealized(sym, mark))
          == Total(lots, ReportedUnrealized(sym, mark))
      {
        ghost var rest := lots[i..];
        assert rest[0] == lots[i] && rest[1..] == lots[i + 1..];
        var l := lots[i];
        if !(l.closed || l.qty == 0) && l.symbol == sym {
          qty := qty + l.qty;
          basis := basis + l.basis;
          unrealized := unrealized + (Scale(mark * l.qty) - l.basis);
        }
        i := i + 1;
      }
      assert lots[i..] == [];
      var realized := 0;
      i := 0;
      assert gains[0..] == gains;
      while i < |gains|
        invariant 0 <= i <= |gains|
        invariant realized + Total(gains[i..], GainAmount(sym)) == Total(gains, GainAmount(sym))
      {
        ghost var rest := gains[i..];
        assert rest[0] == gains[i] && rest[1..] == gains[i + 1..];
        if gains[i].symbol == sym { realized := realized + gains[i].gain; }
        i := i + 1;
      }
      assert gains[i..] == [];
      p := Position(sym, qty, basis, realized, if qty > 0 && sym in marks then Some(unrealized) else None);
    }
  }

  /** One more unit to each of the first `residual` positions of `order`. */
  method AwardUnits(floors: seq<int>, order: seq<nat>, residual: int) returns (shares: seq<int>)
    requires InRange(order, |floors|)
    ensures shares == Award(floors, order, residual)
  {
    shares := floors;
    var units := if residual < 0 then 0 else residual;
    var k := 0;
    assert order[0..] == order;
    while k < |order| && k < units
      invariant 0 <= k <= |order|
      invariant k <= units
      invariant |shares| == |floors|
      invariant Award(shares, order[k..], units - k) == Award(floors, order, residual)
    {
      assert order[k..][0] == order[k] && order[k..][1..] == order[k + 1..];
      shares := shares[order[k] := shares[order[k]] + 1];
      k := k + 1;
    }
  }

  method FoldAll(st: FoldState, survivors: seq<Event>)
    modifies st
    ensures st.View() == Fold(old(st.View()), survivors)
  {
    var i := 0;
    assert survivors[0..] == survivors;
    while i < |survivors|
      invariant 0 <= i <= |survivors|
      invariant Fold(st.View(), survivors[i..]) == Fold(old(st.View()), survivors)
    {
      assert survivors[i..][0] == survivors[i] && survivors[i..][1..] == survivors[i + 1..];
      var _ := st.ApplyEvent(survivors[i]);
      i := i + 1;
    }
    assert survivors[i..] == [];
  }

  method CollectReversed(events: seq<Event>) returns (reversed: set<string>)
    ensures reversed == ReversedTargets(events)
  {
    reversed := {};
    var i := 0;
    assert events[0..] == events;
    while i < |events|
      invariant 0 <= i <= |events|
      invariant reversed + ReversedTargets(events[i..]) == ReversedTargets(events)
    {
      assert events[i..][0] == events[i] && events[i..][1..] == events[i + 1..];
      if events[i].kind.Reversal? { reversed := reversed + {events[i].kind.target}; }
      i := i + 1;
    }
    assert events[i..] == [];
  }

  method KeepUnreversed(events: seq<Event>, reversed: set<string>) returns (kept: seq<Event>)
    ensures kept == Unreversed(events, reversed)
  {
    kept := [];
    var i := 0;
    assert events[0..] == events;
    while i < |events|
      invariant 0 <= i <= |events|
      invariant kept + Unreversed(events[i..], reversed) == Unreversed(events, reversed)
    {
      assert events[i..][0] == events[i] && events[i..][1..] == events[i + 1..];
      if !events[i].kind.Reversal? && events[i].id !in reversed {
        assert kept + ([events[i]] + Unreversed(events[i + 1..], reversed))
            == (kept + [events[i]]) + Unreversed(events[i + 1..], reversed);
        kept := kept + [events[i]];
      }
      i := i + 1;
    }
    assert events[i..] == [];
    assert kept + [] == kept;
  }

  /** The log without reversals and without their targets, in sequence order. */
  method SurvivingSorted(events: seq<Event>) returns (out: seq<Event>)
    ensures out == Surviving(events)
  {
    var reversed := CollectReversed(events);
    var kept := KeepUnreversed(events, reversed);
    out := SortBySeq(kept);
  }

  method Replay(events: seq<Event>, marks: Marks) returns (s: Snapshot)
    ensures s == SnapshotOf(StateOf(events), marks)
  {
    var survivors := SurvivingSorted(events);
    var st := new FoldState();
    FoldAll(st, survivors);
    s := st.BuildSnapshot(marks);
  }

  /** Append-time validation against the replayed state. */
  method ValidateCandidate(accepted: seq<Event>, candidate: Event) returns (o: Outcome)
    ensures o == Validate(accepted, candidate)
  {
    var survivors := SurvivingSorted(accepted);
    var st := new FoldState();
    FoldAll(st, survivors);
    match candidate.kind
    case Buy(lotId, _, qty, unitPrice, fees, _, _) =>
      if qty <= 0 { return Rejected(NonPositiveQty); }
      if FindLot(st.lots, lotId).Some? { return Rejected(DuplicateLotId); }
      var scaled := Scale(qty * unitPrice);
      if !WithinCap(scaled) { return Rejected(AmountOutOfRange); }
      if !WithinCap(scaled + fees) { return Rejected(AmountOutOfRange); }
      return Accepted;
    case Vest(lotId, _, qty, fmv, _, _) =>
      if qty <= 0 { return Rejected(NonPositiveQty); }
      if FindLot(st.lots, lotId).Some? { return Rejected(DuplicateLotId); }
      if !WithinCap(Scale(qty * fmv)) { return Rejected(AmountOutOfRange); }
      return Accepted;
    case Sell(_, symbol, qty, unitPrice, fees, lotRefs, _, platform, _) =>
      if qty <= 0 { return Rejected(NonPositiveQty); }
      var selected := st.Select(symbol, qty, lotRefs, platform);
      if selected.Failure? { return Rejected(selected.error); }
      var gross := Scale(qty * unitPrice);
      if !WithinCap(gross) { return Rejected(AmountOutOfRange); }
      if !WithinCap(gross - fees) { return Rejected(AmountOutOfRange); }
      return Accepted;
    case Split(symbol, num, den) =>
      if num < 1 || den < 1 { return Rejected(BadSplitRatio); }
      var i := 0;
      while i < |st.lots|
        invariant 0 <= i <= |st.lots|
        invariant forall j ::
          0 <= j < i && !SplitSkips(st.lots[j], symbol) ==> WithinCap(Rescaled(st.lots[j].qty, num, den))
      {
        var l := st.lots[i];
        if !(l.closed || l.symbol != symbol || l.qty == 0) {
          var newQty := RoundHalfToEven(l.qty * num, den);
          if !WithinCap(newQty) { return Rejected(AmountOutOfRange); }
        }
        i := i + 1;
      }
      return Accepted;
    case Reversal(target) =>
      if target !in EventIds(accepted) { return Rejected(BadReversal); }
      if target in ReversedTargets(accepted) { return Rejected(BadReversal); }
      if target in st.dependedOn { return Rejected(BadReversal); }
      return Accepted;
  }
}
