/** Lot selection: what the first-in-first-out plan is, and how plans act on lots. */
module Selection {
  import opened Basics
  import opened Rounding
  import opened Keys
  import opened Apportion
  import opened Ledger

  // --- What every fold keeps. ---

  ghost predicate SoundLot(l: Lot) {
    && l.qty >= 0
    && (l.closed ==> l.qty == 0 && l.basis == 0)
  }

  ghost predicate SoundLots(lots: seq<Lot>) {
    && (forall i :: 0 <= i < |lots| ==> SoundLot(lots[i]))
    && (forall i, j :: 0 <= i < j < |lots| ==> lots[i].id != lots[j].id)
  }

  /** The parts of a lot no later event changes. */
  predicate SameLot(x: Lot, y: Lot) {
    && x.id == y.id && x.symbol == y.symbol && x.acquireDate == y.acquireDate && x.openSeq == y.openSeq
    && x.source == y.source && x.platform == y.platform && x.trackingCode == y.trackingCode
      && x.openEvent == y.openEvent
  }

  ghost predicate SameLots(a: seq<Lot>, b: seq<Lot>) {
    |a| == |b| && forall i :: 0 <= i < |a| ==> SameLot(a[i], b[i])
  }

  /** Shares the plan takes from the lot at position `i`. */
  function Taken(plan: Plan, i: nat): int {
    if plan == [] then 0
    else (if plan[0].idx == i then plan[0].qty else 0) + Taken(plan[1..], i)
  }

  lemma {:induction false} TakenNone(plan: Plan, i: nat)
    requires forall k :: 0 <= k < |plan| ==> plan[k].idx != i
    ensures Taken(plan, i) == 0
  {
    if plan != [] { TakenNone(plan[1..], i); }
  }

  lemma {:induction false} TakenOne(plan: Plan, k: nat)
    requires k < |plan|
    requires forall j, k :: 0 <= j < k < |plan| ==> plan[j].idx != plan[k].idx
    ensures Taken(plan, plan[k].idx) == plan[k].qty
  {
    var rest := plan[1..];
    assert forall j :: 0 <= j < |rest| ==> rest[j] == plan[j + 1];
    if k == 0 { TakenNone(rest, plan[0].idx); } else { TakenOne(rest, k - 1); }
  }

  /** Carrying out a plan lowers each lot by exactly what is taken from it and marks the
      opening events it touched; nothing else about the lots moves. */
  lemma {:induction false} ConsumeLots(b: Book, plan: Plan, proceeds: seq<int>, e: Event)
    requires e.kind.Sell? && |proceeds| == |plan|
    requires Feasible(b.lots, plan)
    requires SoundLots(b.lots)
    ensures
      var r := ConsumePlan(b, plan, proceeds, e);
      && SameLots(b.lots, r.lots)
      && SoundLots(r.lots)
      && (forall i :: 0 <= i < |b.lots| ==> r.lots[i].qty == b.lots[i].qty - Taken(plan, i))
    decreases |plan|
  {
    if plan != [] {
      var t := plan[0];
      var b' := ConsumeTake(b, t, proceeds[0], e);
      FeasibleTail(b, plan, proceeds[0], e);
      assert SoundLots(b'.lots);
      ConsumeLots(b', plan[1..], proceeds[1..], e);
    }
  }

  lemma {:induction false} ConsumeDependsOn(b: Book, plan: Plan, proceeds: seq<int>, e: Event)
    requires e.kind.Sell? && |proceeds| == |plan|
    requires Feasible(b.lots, plan)
    ensures b.dependedOn <= ConsumePlan(b, plan, proceeds, e).dependedOn
    ensures forall k ::
      0 <= k < |plan| ==> b.lots[plan[k].idx].openEvent in ConsumePlan(b, plan, proceeds, e).dependedOn
    decreases |plan|
  {
    if plan != [] {
      var b' := ConsumeTake(b, plan[0], proceeds[0], e);
      FeasibleTail(b, plan, proceeds[0], e);
      ConsumeDependsOn(b', plan[1..], proceeds[1..], e);
      forall k | 0 <= k < |plan| ensures b.lots[plan[k].idx].openEvent in ConsumePlan(b, plan, proceeds, e).dependedOn {
        if k > 0 { assert plan[1..][k - 1] == plan[k]; }
      }
    }
  }

  // --- The plan over a fixed order of lots. ---

  predicate Matches(l: Lot, symbol: string, platform: string) {
    l.symbol == symbol && l.platform == platform
  }

  /** Keys of all the symbol's lots on the platform, open or not. */
  function AllKeys(lots: seq<Lot>, symbol: string, platform: string, from: nat): (r: seq<Key>)
    requires from <= |lots|
    ensures forall k ::
      k in r ==> from <= k.idx < |lots| && k == FifoKey(lots, k.idx) && Matches(lots[k.idx], symbol, platform)
    decreases |lots| - from
  {
    if from == |lots| then []
    else
      (if Matches(lots[from], symbol, platform) then [FifoKey(lots, from)] else [])
      + AllKeys(lots, symbol, platform, from + 1)
  }

  lemma {:induction false} AllKeysAscend(lots: seq<Lot>, symbol: string, platform: string, from: nat)
    requires from <= |lots|
    ensures DistinctKeys(AllKeys(lots, symbol, platform, from))
    decreases |lots| - from
  {
    if from < |lots| {
      AllKeysAscend(lots, symbol, platform, from + 1);
      var rest := AllKeys(lots, symbol, platform, from + 1);
      assert forall i :: 0 <= i < |rest| ==> rest[i] in rest;
    }
  }

  lemma {:induction false} AllKeysComplete(lots: seq<Lot>, symbol: string, platform: string, from: nat, i: nat)
    requires from <= i < |lots| && Matches(lots[i], symbol, platform)
    ensures FifoKey(lots, i) in AllKeys(lots, symbol, platform, from)
    decreases |lots| - from
  {
    if from < i { AllKeysComplete(lots, symbol, platform, from + 1, i); }
  }

  lemma AllKeysDistinct(lots: seq<Lot>, symbol: string, platform: string, from: nat)
    requires from <= |lots|
    ensures DistinctKeys(AllKeys(lots, symbol, platform, from))
    ensures forall i ::
      from <= i < |lots| && Matches(lots[i], symbol, platform) ==>
        FifoKey(lots, i) in AllKeys(lots, symbol, platform, from)
  {
    AllKeysAscend(lots, symbol, platform, from);
    forall i | from <= i < |lots| && Matches(lots[i], symbol, platform)
      ensures FifoKey(lots, i) in AllKeys(lots, symbol, platform, from)
    {
      AllKeysComplete(lots, symbol, platform, from, i);
    }
  }

  lemma {:induction false} AllKeysSame(a: seq<Lot>, b: seq<Lot>, symbol: string, platform: string, from: nat)
    requires SameLots(a, b) && from <= |a|
    ensures AllKeys(a, symbol, platform, from) == AllKeys(b, symbol, platform, from)
    decreases |a| - from
  {
    if from < |a| { AllKeysSame(a, b, symbol, platform, from + 1); }
  }

  /** Every lot of the symbol on the platform, in first-in-first-out order. */
  function HoldingOrder(lots: seq<Lot>, symbol: string, platform: string): (r: seq<Key>)
    ensures forall i :: 0 <= i < |r| ==> r[i].idx < |lots| && Matches(lots[r[i].idx], symbol, platform)
    ensures forall i :: 0 <= i < |r| ==> r[i] == FifoKey(lots, r[i].idx)
  {
    var ks := AllKeys(lots, symbol, platform, 0);
    SortMembers(ks);
    assert forall i :: 0 <= i < |ks| ==> Sort(ks)[i] in ks;
    Sort(ks)
  }

  /** `Greedy` over an order that may name closed or empty lots, which it passes over. */
  function Skim(lots: seq<Lot>, order: seq<Key>, need: int): Plan
    requires forall i :: 0 <= i < |order| ==> order[i].idx < |lots|
    decreases |order|
  {
    if order == [] then []
    else
      var l := lots[order[0].idx];
      if l.closed || l.qty <= 0 then Skim(lots, order[1..], need)
      else if need <= 0 then []
      else
        var take := if l.qty >= need then need else l.qty;
        [Take(order[0].idx, take)] + Skim(lots, order[1..], need - take)
  }

  ghost function OpenPositions(lots: seq<Lot>): set<nat> {
    set i | 0 <= i < |lots| && !lots[i].closed && lots[i].qty > 0
  }

  lemma {:induction false} FifoKeysAreKept(lots: seq<Lot>, symbol: string, platform: string, from: nat)
    requires from <= |lots|
    ensures FifoKeys(lots, symbol, platform, from) == Keep(AllKeys(lots, symbol, platform, from), OpenPositions(lots))
    decreases |lots| - from
  {
    if from < |lots| {
      FifoKeysAreKept(lots, symbol, platform, from + 1);
      var k := FifoKey(lots, from);
      var rest := AllKeys(lots, symbol, platform, from + 1);
      var fifo := FifoKeys(lots, symbol, platform, from + 1);
      assert from in OpenPositions(lots) <==> !lots[from].closed && lots[from].qty > 0;
      if Matches(lots[from], symbol, platform) {
        assert AllKeys(lots, symbol, platform, from) == [k] + rest;
        assert ([k] + rest)[1..] == rest;
      } else {
        assert AllKeys(lots, symbol, platform, from) == rest;
      }
      assert [] + fifo == fifo;
      assert FifoKeys(lots, symbol, platform, from) == FifoHead(lots, symbol, platform, from) + fifo;
    }
  }

  lemma {:induction false} KeepHeadIfOpen(lots: seq<Lot>, order: seq<Key>)
    requires order != [] && order[0].idx < |lots|
    ensures
      var kept := Keep(order[1..], OpenPositions(lots));
      var l := lots[order[0].idx];
      Keep(order, OpenPositions(lots)) == if l.closed || l.qty <= 0 then kept else [order[0]] + kept
  {
    assert order[0].idx in OpenPositions(lots) <==> !lots[order[0].idx].closed && lots[order[0].idx].qty > 0;
  }

  lemma {:induction false} KeepInRange(lots: seq<Lot>, order: seq<Key>)
    requires forall i :: 0 <= i < |order| ==> order[i].idx < |lots|
    ensures forall i :: 0 <= i < |Keep(order, OpenPositions(lots))| ==> Keep(order, OpenPositions(lots))[i].idx < |lots|
  {
    var kept := Keep(order, OpenPositions(lots));
    KeepMembers(order, OpenPositions(lots));
    assert forall i :: 0 <= i < |kept| ==> kept[i] in kept;
  }

  lemma {:induction false} GreedyHead(lots: seq<Lot>, k: Key, rest: seq<Key>, need: int)
    requires k.idx < |lots| && forall i :: 0 <= i < |rest| ==> rest[i].idx < |lots|
    ensures
      var q := lots[k.idx].qty;
      var take := if q >= need then need else q;
      Greedy(lots, [k] + rest, need) == if need <= 0 then [] else [Take(k.idx, take)] + Greedy(lots, rest, need - take)
  {
    assert ([k] + rest)[1..] == rest;
  }

  lemma {:induction false} GreedyOfKept(lots: seq<Lot>, order: seq<Key>, need: int)
    requires forall i :: 0 <= i < |order| ==> order[i].idx < |lots|
    requires forall i ::
      0 <= i < |Keep(order, OpenPositions(lots))| ==> Keep(order, OpenPositions(lots))[i].idx < |lots|
    ensures Greedy(lots, Keep(order, OpenPositions(lots)), need) == Skim(lots, order, need)
    decreases |order|
  {
    if order != [] {
      var rest := order[1..];
      assert forall i :: 0 <= i < |rest| ==> rest[i] == order[i + 1];
      KeepHeadIfOpen(lots, order);
      KeepInRange(lots, rest);
      var l := lots[order[0].idx];
      if l.closed || l.qty <= 0 {
        GreedyOfKept(lots, rest, need);
      } else {
        GreedyHead(lots, order[0], Keep(rest, OpenPositions(lots)), need);
        if need > 0 {
          GreedyOfKept(lots, rest, need - (if l.qty >= need then need else l.qty));
        }
      }
    }
  }

  /** The first-in-first-out plan walks the symbol's lots on the platform in a fixed
      order, draining each one before the next. */
  lemma {:induction false} FifoIsSkim(lots: seq<Lot>, symbol: string, platform: string, qty: int)
    ensures FifoPlan(lots, symbol, platform, qty) == Skim(lots, HoldingOrder(lots, symbol, platform), qty)
  {
    FifoKeysAreKept(lots, symbol, platform, 0);
    SortKeep(AllKeys(lots, symbol, platform, 0), OpenPositions(lots));
    assert FifoOrder(lots, symbol, platform) == Keep(HoldingOrder(lots, symbol, platform), OpenPositions(lots));
    GreedyOfKept(lots, HoldingOrder(lots, symbol, platform), qty);
  }

  /** Shares still needed once the order is walked. */
  function Shortfall(lots: seq<Lot>, order: seq<Key>, need: int): int
    requires forall i :: 0 <= i < |order| ==> order[i].idx < |lots|
  {
    need - PlanQty(Skim(lots, order, need))
  }

  // --- A first-in-first-out sale is the designated sale naming its plan. ---

  function RefsOf(lots: seq<Lot>, plan: Plan): (r: seq<LotRef>)
    requires forall k :: 0 <= k < |plan| ==> plan[k].idx < |lots|
    ensures |r| == |plan|
    ensures forall k :: 0 <= k < |plan| ==> r[k] == LotRef(lots[plan[k].idx].id, plan[k].qty)
  {
    if plan == [] then [] else [LotRef(lots[plan[0].idx].id, plan[0].qty)] + RefsOf(lots, plan[1..])
  }

  lemma CheckOwnRef(lots: seq<Lot>, symbol: string, platform: string, seen: set<string>, t: Take)
    requires SoundLots(lots)
    requires t.idx < |lots| && 0 < t.qty <= lots[t.idx].qty
    requires Eligible(lots[t.idx], symbol, platform) && lots[t.idx].id !in seen
    ensures CheckRef(lots, symbol, platform, seen, LotRef(lots[t.idx].id, t.qty)) == Success(t)
  {
    assert FindLot(lots, lots[t.idx].id) == Some(t.idx);
  }

  ghost predicate Unseen(lots: seq<Lot>, symbol: string, platform: string, seen: set<string>, plan: Plan)
    requires Feasible(lots, plan)
  {
    forall k :: 0 <= k < |plan| ==> Eligible(lots[plan[k].idx], symbol, platform) && lots[plan[k].idx].id !in seen
  }

  lemma UnseenTail(lots: seq<Lot>, symbol: string, platform: string, seen: set<string>, plan: Plan)
    requires SoundLots(lots) && plan != []
    requires Feasible(lots, plan) && Unseen(lots, symbol, platform, seen, plan)
    ensures Feasible(lots, plan[1..])
    ensures Unseen(lots, symbol, platform, seen + {lots[plan[0].idx].id}, plan[1..])
  {
    var rest := plan[1..];
    assert forall k :: 0 <= k < |rest| ==> rest[k] == plan[k + 1];
    forall k | 0 <= k < |rest| ensures lots[rest[k].idx].id != lots[plan[0].idx].id {
      assert plan[0].idx != plan[k + 1].idx;
    }
  }

  lemma {:induction false} DesignatedRefs(lots: seq<Lot>, symbol: string, platform: string, seen: set<string>,
                                          plan: Plan)
    requires SoundLots(lots)
    requires Feasible(lots, plan) && Unseen(lots, symbol, platform, seen, plan)
    ensures DesignatedPlan(lots, symbol, platform, seen, RefsOf(lots, plan)) == Success(plan)
    decreases |plan|
  {
    if plan != [] {
      var t, rest := plan[0], plan[1..];
      var r := LotRef(lots[t.idx].id, t.qty);
      CheckOwnRef(lots, symbol, platform, seen, t);
      UnseenTail(lots, symbol, platform, seen, plan);
      DesignatedRefs(lots, symbol, platform, seen + {r.lotId}, rest);
      assert RefsOf(lots, plan) == [r] + RefsOf(lots, rest);
      assert ([r] + RefsOf(lots, rest))[1..] == RefsOf(lots, rest);
      assert [t] + rest == plan;
    }
  }

  /** Whatever selection finds, naming that plan lot by lot selects it again. */
  lemma {:induction false} SelectionByName(lots: seq<Lot>, symbol: string, qty: int, refs: seq<LotRef>,
                                           platform: string)
    requires SoundLots(lots) && qty > 0
    requires SelectLots(lots, symbol, qty, refs, platform).Success?
    ensures
      var plan := SelectLots(lots, symbol, qty, refs, platform).value;
      && Feasible(lots, plan)
      && SelectLots(lots, symbol, qty, RefsOf(lots, plan), platform) == Success(plan)
  {
    SelectedFeasible(lots, symbol, qty, refs, platform);
    var plan := SelectLots(lots, symbol, qty, refs, platform).value;
    DesignatedRefs(lots, symbol, platform, {}, plan);
    assert plan != [];
  }

  /** A sale that names no lots leaves exactly the book left by the sale that names its
      first-in-first-out plan. */
  lemma {:induction false} FifoSaleIsDesignatedSale(b: Book, e: Event)
    requires SoundLots(b.lots)
    requires e.kind.Sell? && e.kind.lotRefs == []
    requires ApplyEvent(b, e).1.Accepted?
    ensures
      var plan := FifoPlan(b.lots, e.kind.symbol, e.kind.platform, e.kind.qty);
      && Feasible(b.lots, plan)
      && ApplyEvent(b, e.(kind := e.kind.(lotRefs := RefsOf(b.lots, plan)))) == ApplyEvent(b, e)
  {
    var k := e.kind;
    SelectionByName(b.lots, k.symbol, k.qty, k.lotRefs, k.platform);
    var plan := FifoPlan(b.lots, k.symbol, k.platform, k.qty);
    var named := e.(kind := k.(lotRefs := RefsOf(b.lots, plan)));
    ConsumeIgnoresRefs(b, plan, Proceeds(b.lots, plan, Net(e), k.qty), e, named);
  }

  lemma {:induction false} ConsumeIgnoresRefs(b: Book, plan: Plan, proceeds: seq<int>, e: Event, f: Event)
    requires e.kind.Sell? && f.kind.Sell? && |proceeds| == |plan|
    requires f == e.(kind := e.kind.(lotRefs := f.kind.lotRefs))
    requires Feasible(b.lots, plan)
    ensures ConsumePlan(b, plan, proceeds, e) == ConsumePlan(b, plan, proceeds, f)
    decreases |plan|
  {
    if plan != [] {
      FeasibleTail(b, plan, proceeds[0], e);
      ConsumeIgnoresRefs(ConsumeTake(b, plan[0], proceeds[0], e), plan[1..], proceeds[1..], e, f);
    }
  }

  // --- Earlier lots are exhausted first. ---

  lemma {:induction false} SkimTaken(lots: seq<Lot>, order: seq<Key>, need: int, i: nat)
    requires forall i :: 0 <= i < |order| ==> order[i].idx < |lots|
    requires forall j :: 0 <= j < |order| ==> order[j].idx != i
    ensures Taken(Skim(lots, order, need), i) == 0
    decreases |order|
  {
    if order != [] {
      var rest := order[1..];
      assert forall j :: 0 <= j < |rest| ==> rest[j] == order[j + 1];
      var l := lots[order[0].idx];
      if l.closed || l.qty <= 0 {
        SkimTaken(lots, rest, need, i);
      } else if need > 0 {
        var take := if l.qty >= need then need else l.qty;
        SkimTaken(lots, rest, need - take, i);
        assert Skim(lots, order, need)[1..] == Skim(lots, rest, need - take);
      }
    }
  }

  /** One step of the walk, for sound lots: the first lot gives the smaller of what it
      holds and what is needed. */
  lemma {:induction false} SkimStep(lots: seq<Lot>, order: seq<Key>, need: int)
    requires SoundLots(lots)
    requires forall i :: 0 <= i < |order| ==> order[i].idx < |lots|
    requires DistinctKeys(order) && order != [] && need >= 0
    ensures
      var q := lots[order[0].idx].qty;
      var take := if q >= need then need else q;
      && (forall i :: i != order[0].idx ==>
            Taken(Skim(lots, order, need), i) == Taken(Skim(lots, order[1..], need - take), i))
      && Taken(Skim(lots, order, need), order[0].idx) == take
      && Shortfall(lots, order, need) == Shortfall(lots, order[1..], need - take)
  {
    var rest := order[1..];
    assert forall i :: 0 <= i < |rest| ==> rest[i] == order[i + 1];
    var l := lots[order[0].idx];
    var take := if l.qty >= need then need else l.qty;
    SkimTaken(lots, rest, need - take, order[0].idx);
    if l.closed || l.qty <= 0 {
    } else if need <= 0 {
      SkimNothing(lots, rest);
    } else {
      assert Skim(lots, order, need)[1..] == Skim(lots, rest, need - take);
    }
  }

  lemma {:induction false} SkimNothing(lots: seq<Lot>, order: seq<Key>)
    requires forall i :: 0 <= i < |order| ==> order[i].idx < |lots|
    ensures Skim(lots, order, 0) == []
    decreases |order|
  {
    if order != [] { SkimNothing(lots, order[1..]); }
  }

  lemma {:induction false} SkimDrains(lots: seq<Lot>, order: seq<Key>, need: int, p: nat, q: nat)
    requires SoundLots(lots)
    requires forall i :: 0 <= i < |order| ==> order[i].idx < |lots|
    requires DistinctKeys(order) && need >= 0
    requires p < q < |order|
    requires Taken(Skim(lots, order, need), order[q].idx) > 0
    ensures Taken(Skim(lots, order, need), order[p].idx) == lots[order[p].idx].qty
    decreases |order|
  {
    var rest := order[1..];
    assert forall i :: 0 <= i < |rest| ==> rest[i] == order[i + 1];
    var l := lots[order[0].idx];
    var take := if l.qty >= need then need else l.qty;
    SkimStep(lots, order, need);
    assert order[q].idx != order[0].idx;
    if need - take == 0 { SkimNothing(lots, rest); }
    if p > 0 {
      assert order[p].idx != order[0].idx;
      SkimDrains(lots, rest, need - take, p - 1, q - 1);
    }
  }

  /** First in, first out: if a sale that names no lots takes anything from one lot, every
      earlier lot of the symbol on the platform is emptied. */
  lemma {:induction false} EarlierLotsExhausted(lots: seq<Lot>, symbol: string, platform: string, qty: int, i: nat,
                                                j: nat)
    requires SoundLots(lots) && qty > 0
    requires i < |lots| && j < |lots|
    requires Matches(lots[i], symbol, platform) && Matches(lots[j], symbol, platform)
    requires Less(FifoKey(lots, i), FifoKey(lots, j))
    requires Taken(FifoPlan(lots, symbol, platform, qty), j) > 0
    ensures Taken(FifoPlan(lots, symbol, platform, qty), i) == lots[i].qty
  {
    var ks := AllKeys(lots, symbol, platform, 0);
    var order := HoldingOrder(lots, symbol, platform);
    FifoIsSkim(lots, symbol, platform, qty);
    AllKeysDistinct(lots, symbol, platform, 0);
    SortDistinct(ks);
    SortMembers(ks);
    SortAscending(ks);
    assert FifoKey(lots, i) in order && FifoKey(lots, j) in order;
    var p :| 0 <= p < |order| && order[p] == FifoKey(lots, i);
    var q :| 0 <= q < |order| && order[q] == FifoKey(lots, j);
    if q < p {
      AscendingAt(order, q, p);
    }
    assert p < q;
    SkimDrains(lots, order, qty, p, q);
  }
}
