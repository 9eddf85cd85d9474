/** What a sale does, said of shares, dates and cents alone: which lots it empties, when it
    finds enough, which lot gets the odd cent, and what each gain records. */
module Sales {
  import opened Basics
  import opened Rounding
  import opened Keys
  import opened Apportion
  import opened Ledger
  import opened Selection
  import opened Conservation
  import opened Dominance
  import opened Permutation

  // --- Oldest lots first. ---

  /** Acquired earlier, or on the same day and opened by an earlier event, or filed earlier. */
  predicate Older(lots: seq<Lot>, i: nat, j: nat)
    requires i < |lots| && j < |lots|
  {
    || lots[i].acquireDate < lots[j].acquireDate
    || (lots[i].acquireDate == lots[j].acquireDate && lots[i].openSeq < lots[j].openSeq)
    || (lots[i].acquireDate == lots[j].acquireDate && lots[i].openSeq == lots[j].openSeq && i < j)
  }

  /** A sale that names no lots takes from one only after every older one of the symbol on the
      platform is emptied. */
  lemma {:induction false} OldestLotsFirst(lots: seq<Lot>, symbol: string, qty: int, platform: string, i: nat, j: nat)
    requires SoundLots(lots) && qty > 0 && i < |lots| && j < |lots| && Older(lots, i, j)
    requires lots[i].symbol == lots[j].symbol == symbol && lots[i].platform == lots[j].platform == platform
    requires SelectLots(lots, symbol, qty, [], platform).Success?
    ensures
      var plan := SelectLots(lots, symbol, qty, [], platform).value;
      Taken(plan, j) > 0 ==> Taken(plan, i) == lots[i].qty
  {
    if Taken(FifoPlan(lots, symbol, platform, qty), j) > 0 {
      EarlierLotsExhausted(lots, symbol, platform, qty, i, j);
    }
  }

  /** So of two lots the older has no shares left if the younger has lost any. */
  lemma {:induction false} SaleEmptiesOldest(b: Book, e: Event, i: nat, j: nat)
    requires SoundLots(b.lots) && e.kind.Sell? && e.kind.lotRefs == [] && ApplyEvent(b, e).1.Accepted?
    requires i < |b.lots| && j < |b.lots| && Older(b.lots, i, j)
    requires b.lots[i].symbol == b.lots[j].symbol == e.kind.symbol
    requires b.lots[i].platform == b.lots[j].platform == e.kind.platform
    ensures
      var after := ApplyEvent(b, e).0.lots;
      |after| == |b.lots| && (after[j].qty < b.lots[j].qty ==> after[i].qty == 0)
  {
    SaleQuantities(b, e);
    OldestLotsFirst(b.lots, e.kind.symbol, e.kind.qty, e.kind.platform, i, j);
  }

  // --- When there are enough shares. ---

  /** Shares of the symbol on the platform. */
  function HeldOn(symbol: string, platform: string): Lot -> int {
    (l: Lot) => if l.symbol == symbol && l.platform == platform then l.qty else 0
  }

  function HeldAt(lots: seq<Lot>): Key -> int {
    (k: Key) => if k.idx < |lots| then lots[k.idx].qty else 0
  }

  lemma {:induction false} SkimTakesWhatIsThere(lots: seq<Lot>, order: seq<Key>, need: int)
    requires SoundLots(lots) && need >= 0
    requires forall i :: 0 <= i < |order| ==> order[i].idx < |lots|
    ensures Total(order, HeldAt(lots)) >= 0
    ensures
      var held := Total(order, HeldAt(lots));
      PlanQty(Skim(lots, order, need)) == if need <= held then need else held
    decreases |order|
  {
    if order != [] {
      var l := lots[order[0].idx];
      assert SoundLot(l);
      var take := if l.qty >= need then need else l.qty;
      assert forall i :: 0 <= i < |order| - 1 ==> order[1..][i] == order[i + 1];
      SkimTakesWhatIsThere(lots, order[1..], need);
      SkimTakesWhatIsThere(lots, order[1..], need - take);
    }
  }

  lemma {:induction false} KeysHold(lots: seq<Lot>, symbol: string, platform: string, from: nat)
    requires from <= |lots|
    ensures Total(AllKeys(lots, symbol, platform, from), HeldAt(lots)) == Total(lots[from..], HeldOn(symbol, platform))
    decreases |lots| - from
  {
    if from < |lots| {
      KeysHold(lots, symbol, platform, from + 1);
      assert lots[from..][1..] == lots[from + 1..];
      var rest := AllKeys(lots, symbol, platform, from + 1);
      assert ([FifoKey(lots, from)] + rest)[1..] == rest;
      assert [] + rest == rest;
    }
  }

  lemma OrderHolds(lots: seq<Lot>, symbol: string, platform: string)
    ensures Total(HoldingOrder(lots, symbol, platform), HeldAt(lots)) == Total(lots, HeldOn(symbol, platform))
  {
    var ks := AllKeys(lots, symbol, platform, 0);
    SortAscending(ks);
    TotalPermuted(Sort(ks), ks, HeldAt(lots));
    KeysHold(lots, symbol, platform, 0);
    assert lots[0..] == lots;
  }

  /** A sale that names no lots finds its shares exactly if the symbol has as many on the
      platform. */
  lemma {:induction false} UnnamedSelectionIff(lots: seq<Lot>, symbol: string, qty: int, platform: string)
    requires SoundLots(lots) && qty > 0
    ensures SelectLots(lots, symbol, qty, [], platform).Success? <==> qty <= Total(lots, HeldOn(symbol, platform))
    ensures SelectLots(lots, symbol, qty, [], platform).Failure? ==>
      SelectLots(lots, symbol, qty, [], platform).error == InsufficientShares
  {
    FifoIsSkim(lots, symbol, platform, qty);
    SkimTakesWhatIsThere(lots, HoldingOrder(lots, symbol, platform), qty);
    OrderHolds(lots, symbol, platform);
  }

  // --- Named lots. ---

  /** Each take of a sale that names lots is of the lot named, for the shares named. */
  lemma {:induction false} PlanByName(lots: seq<Lot>, symbol: string, platform: string, seen: set<string>,
                                      refs: seq<LotRef>)
    requires DesignatedPlan(lots, symbol, platform, seen, refs).Success?
    ensures
      var plan := DesignatedPlan(lots, symbol, platform, seen, refs).value;
      && |plan| == |refs|
      && forall m :: 0 <= m < |refs| ==>
           plan[m].idx < |lots| && lots[plan[m].idx].id == refs[m].lotId && plan[m].qty == refs[m].qty
    decreases |refs|
  {
    if refs != [] {
      PlanByName(lots, symbol, platform, seen + {refs[0].lotId}, refs[1..]);
    }
  }

  lemma {:induction false} NamedTaken(lots: seq<Lot>, symbol: string, qty: int, refs: seq<LotRef>, platform: string,
                                      i: nat, m: nat)
    requires SoundLots(lots) && qty > 0 && SelectLots(lots, symbol, qty, refs, platform).Success?
    requires i < |lots| && m < |refs| && refs[m].lotId == lots[i].id
    ensures Taken(SelectLots(lots, symbol, qty, refs, platform).value, i) == refs[m].qty
  {
    var plan := SelectLots(lots, symbol, qty, refs, platform).value;
    PlanByName(lots, symbol, platform, {}, refs);
    SelectedFeasible(lots, symbol, qty, refs, platform);
    assert plan[m].idx == i;
    TakenOne(plan, m);
  }

  lemma {:induction false} UnnamedKept(b: Book, e: Event, i: nat)
    requires e.kind.Sell? && e.kind.lotRefs != [] && ApplyEvent(b, e).1.Accepted? && i < |b.lots|
    requires forall r :: r in e.kind.lotRefs ==> r.lotId != b.lots[i].id
    ensures |ApplyEvent(b, e).0.lots| == |b.lots| && ApplyEvent(b, e).0.lots[i] == b.lots[i]
  {
    var k, plan := e.kind, SalePlan(b, e);
    PlanByName(b.lots, k.symbol, k.platform, {}, k.lotRefs);
    SelectedFeasible(b.lots, k.symbol, k.qty, k.lotRefs, k.platform);
    forall m | 0 <= m < |plan| ensures plan[m].idx != i { assert k.lotRefs[m] in k.lotRefs; }
    OtherLotKept(b, plan, Proceeds(b.lots, plan, Net(e), k.qty), e, i);
  }

  /** A sale that names lots takes from each the shares named for it and touches no other. */
  lemma {:induction false} NamedSaleTakesNamed(b: Book, e: Event, i: nat)
    requires SoundLots(b.lots) && e.kind.Sell? && e.kind.lotRefs != [] && ApplyEvent(b, e).1.Accepted?
    requires i < |b.lots|
    ensures |ApplyEvent(b, e).0.lots| == |b.lots|
    ensures forall m :: 0 <= m < |e.kind.lotRefs| && e.kind.lotRefs[m].lotId == b.lots[i].id ==>
      ApplyEvent(b, e).0.lots[i].qty == b.lots[i].qty - e.kind.lotRefs[m].qty
    ensures (forall r :: r in e.kind.lotRefs ==> r.lotId != b.lots[i].id) ==> ApplyEvent(b, e).0.lots[i] == b.lots[i]
  {
    var k := e.kind;
    SaleQuantities(b, e);
    forall m | 0 <= m < |k.lotRefs| && k.lotRefs[m].lotId == b.lots[i].id
      ensures ApplyEvent(b, e).0.lots[i].qty == b.lots[i].qty - k.lotRefs[m].qty
    {
      NamedTaken(b.lots, k.symbol, k.qty, k.lotRefs, k.platform, i, m);
    }
    if forall r :: r in k.lotRefs ==> r.lotId != b.lots[i].id { UnnamedKept(b, e, i); }
  }

  // --- The odd cents. ---

  /** Of two takes the one with the larger remainder of its exact share comes first, and on a tie
      the one from the older lot. */
  predicate ServedFirst(lots: seq<Lot>, plan: Plan, net: int, total: int, j: nat, k: nat)
    requires total > 0 && j < |plan| && k < |plan| && plan[j].idx < |lots| && plan[k].idx < |lots|
  {
    var x, y := net * plan[j].qty % total, net * plan[k].qty % total;
    var l, m := lots[plan[j].idx], lots[plan[k].idx];
    x > y || (x == y && (l.acquireDate < m.acquireDate || (l.acquireDate == m.acquireDate && l.openSeq < m.openSeq)))
  }

  /** A take that gets an odd cent is behind none that does not. */
  lemma {:induction false} OddCentsInOrder(lots: seq<Lot>, plan: Plan, net: int, total: int, j: nat, k: nat)
    requires total > 0 && Feasible(lots, plan) && PlanQty(plan) == total
    requires j < |plan| && k < |plan| && ServedFirst(lots, plan, net, total, j, k)
    ensures
      var shares := Proceeds(lots, plan, net, total);
      shares[k] > net * plan[k].qty / total ==> shares[j] > net * plan[j].qty / total
  {
    var nums := ProceedNums(plan, net);
    var rems := Remainders(nums, total);
    var ks := ProceedKeys(lots, plan, rems);
    var order := ProceedOrder(lots, plan, net, total);
    ProceedNumsSum(plan, net);
    ProceedOrderRanks(lots, plan, net, total);
    ResidualBounds(nums, total, net, order);
    AwardEffect(Floors(nums, total), order, Residual(nums, total, net));
    SortedFirst(ks, Residual(nums, total, net), j, k);
  }

  // --- What a gain records. ---

  predicate RecordsSale(g: Gain, e: Event, l: Lot, after: Lot)
    requires e.kind.Sell?
  {
    && g.lotId == l.id && after.qty < l.qty
    && g.basis == l.basis - after.basis && g.gain == g.proceeds - g.basis
    && g.saleId == e.kind.saleId && g.saleSeq == e.seqNo && g.saleDate == e.date && g.symbol == e.kind.symbol
    && g.accruesToState == e.kind.accruesToState
    && g.acquireDate == l.acquireDate && g.acquireDate + g.holdingDays == g.saleDate
  }

  lemma GainRecordsSale(l: Lot, c: int, alloc: int, e: Event)
    requires e.kind.Sell? && 0 < c <= l.qty
    ensures RecordsSale(GainOf(l, c, alloc, e), e, l, Sold(l, c))
  {
  }

  /** Each gain of an accepted sale is that of one take. */
  lemma {:induction false} GainOfSale(b: Book, e: Event, k: nat) returns (i: nat, c: int)
    requires e.kind.Sell? && ApplyEvent(b, e).1.Accepted? && k < |SaleGains(b, e)|
    ensures e.kind.qty > 0 && Feasible(b.lots, SalePlan(b, e)) && PlanQty(SalePlan(b, e)) == e.kind.qty
    ensures |SalePlan(b, e)| == |SaleGains(b, e)| && SalePlan(b, e)[k] == Take(i, c)
    ensures |ApplyEvent(b, e).0.lots| == |b.lots| && i < |b.lots| && 0 < c <= b.lots[i].qty
    ensures ApplyEvent(b, e).0.lots[i] == Sold(b.lots[i], c)
    ensures SaleGains(b, e)[k] == GainOf(b.lots[i], c, Proceeds(b.lots, SalePlan(b, e), Net(e), e.kind.qty)[k], e)
  {
    var plan := SalePlan(b, e);
    SelectedFeasible(b.lots, e.kind.symbol, e.kind.qty, e.kind.lotRefs, e.kind.platform);
    SaleGain(b, e, k);
    NamedLotSold(b, plan, Proceeds(b.lots, plan, Net(e), e.kind.qty), e, k);
    i, c := plan[k].idx, plan[k].qty;
  }

  /** It is of one lot the sale took from: it has the sale's name, number, day and state, the
      lot's day, the days in between, and what left the lot as basis. */
  lemma {:induction false} GainRecords(b: Book, e: Event, k: nat) returns (i: nat)
    requires e.kind.Sell? && ApplyEvent(b, e).1.Accepted? && k < |SaleGains(b, e)|
    ensures |ApplyEvent(b, e).0.lots| == |b.lots| && i < |b.lots|
    ensures RecordsSale(SaleGains(b, e)[k], e, b.lots[i], ApplyEvent(b, e).0.lots[i])
  {
    var c;
    i, c := GainOfSale(b, e, k);
    GainRecordsSale(b.lots[i], c, Proceeds(b.lots, SalePlan(b, e), Net(e), e.kind.qty)[k], e);
  }
}
