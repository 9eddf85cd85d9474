/** The event-sourced ledger: events, tax lots, and the fold that turns an event log into
    lots and realized gains, written as functions. `FoldState` runs the same fold in place. */
module Ledger {
  import opened Basics
  import opened Rounding
  import opened Keys
  import opened Apportion

  // --- Events and lots. ---

  datatype LotRef = LotRef(lotId: string, qty: int)

  datatype EventKind =
    | Buy(lotId: string, symbol: string, qty: int, unitPrice: int, fees: int,
          platform: string, trackingCode: Option<string>)
    | Vest(lotId: string, symbol: string, qty: int, fmv: int,
           platform: string, trackingCode: Option<string>)
    | Sell(saleId: string, symbol: string, qty: int, unitPrice: int, fees: int,
           lotRefs: seq<LotRef>, accruesToState: Option<string>,
           platform: string, trackingCode: Option<string>)
    | Split(symbol: string, num: int, den: int)
    | Reversal(target: string)

  datatype Event = Event(id: string, seqNo: nat, date: int, kind: EventKind)

  datatype LotSource = FromBuy | FromVest

  datatype Lot = Lot(id: string, symbol: string, acquireDate: int, openSeq: nat, source: LotSource,
                     qty: int, basis: int, platform: string, trackingCode: Option<string>,
                     openEvent: string, closed: bool)

  datatype Gain = Gain(saleId: string, saleSeq: nat, lotId: string, symbol: string, saleDate: int,
                       proceeds: int, basis: int, gain: int, acquireDate: int, holdingDays: int,
                       accruesToState: Option<string>)

  /** Everything the fold accumulates. `dependedOn` holds the ids of opening events whose
      lot some sale consumed or some split rescaled. */
  datatype Book = Book(lots: seq<Lot>, gains: seq<Gain>, symbolsSeen: set<string>, dependedOn: set<string>)

  const EMPTY_BOOK := Book([], [], {}, {})

  datatype LedgerError =
    | NonPositiveQty | DuplicateLotId | UnknownLot | WrongSymbolLot | LotRefsMismatch | DuplicateLotRef
    | WrongPlatform | InsufficientShares | BadSplitRatio | BadReversal | AmountOutOfRange

  datatype Outcome = Accepted | Rejected(error: LedgerError)

  // --- Lot selection. ---

  /** `qty` shares out of the lot at position `idx`. */
  datatype Take = Take(idx: nat, qty: int)

  type Plan = seq<Take>

  function FindLot(lots: seq<Lot>, id: string): (r: Option<nat>)
    ensures r.Some? ==> r.value < |lots| && lots[r.value].id == id
    ensures r.Some? ==> forall i :: 0 <= i < r.value ==> lots[i].id != id
    ensures r.None? <==> forall i :: 0 <= i < |lots| ==> lots[i].id != id
  {
    FindLotFrom(lots, id, 0)
  }

  function FindLotFrom(lots: seq<Lot>, id: string, from: nat): (r: Option<nat>)
    requires from <= |lots|
    ensures r.Some? ==> from <= r.value < |lots| && lots[r.value].id == id
    ensures r.Some? ==> forall i :: from <= i < r.value ==> lots[i].id != id
    ensures r.None? <==> forall i :: from <= i < |lots| ==> lots[i].id != id
    decreases |lots| - from
  {
    if from == |lots| then None
    else if lots[from].id == id then Some(from)
    else FindLotFrom(lots, id, from + 1)
  }

  /** The take one designated lot contributes, or the first defect found. */
  function CheckRef(lots: seq<Lot>, symbol: string, platform: string, seen: set<string>,
                    r: LotRef): (t: Result<Take, LedgerError>)
    ensures t.Success? ==>
              && t.value.idx < |lots| && lots[t.value.idx].id == r.lotId && r.lotId !in seen
              && lots[t.value.idx].symbol == symbol && lots[t.value.idx].platform == platform
              && !lots[t.value.idx].closed && 0 < t.value.qty == r.qty <= lots[t.value.idx].qty
  {
    if r.lotId in seen then Failure(DuplicateLotRef)
    else match FindLot(lots, r.lotId)
      case None => Failure(UnknownLot)
      case Some(idx) =>
        if lots[idx].symbol != symbol then Failure(WrongSymbolLot)
        else if lots[idx].platform != platform then Failure(WrongPlatform)
        else if r.qty <= 0 then Failure(NonPositiveQty)
        else if lots[idx].closed || r.qty > lots[idx].qty then Failure(InsufficientShares)
        else Success(Take(idx, r.qty))
  }

  function DesignatedPlan(lots: seq<Lot>, symbol: string, platform: string, seen: set<string>,
                          refs: seq<LotRef>): Result<Plan, LedgerError>
    decreases |refs|
  {
    if refs == [] then Success([])
    else match CheckRef(lots, symbol, platform, seen, refs[0])
      case Failure(e) => Failure(e)
      case Success(t) =>
        match DesignatedPlan(lots, symbol, platform, seen + {refs[0].lotId}, refs[1..])
        case Failure(e) => Failure(e)
        case Success(rest) => Success([t] + rest)
  }

  function PlanQty(plan: Plan): int {
    if plan == [] then 0 else plan[0].qty + PlanQty(plan[1..])
  }

  predicate Eligible(l: Lot, symbol: string, platform: string) {
    !l.closed && l.symbol == symbol && l.platform == platform && l.qty > 0
  }

  function FifoKey(lots: seq<Lot>, i: nat): Key
    requires i < |lots|
  {
    Key(0, lots[i].acquireDate, lots[i].openSeq, i)
  }

  function FifoHead(lots: seq<Lot>, symbol: string, platform: string, i: nat): seq<Key>
    requires i < |lots|
  {
    if Eligible(lots[i], symbol, platform) then [FifoKey(lots, i)] else []
  }

  function FifoKeys(lots: seq<Lot>, symbol: string, platform: string, from: nat): seq<Key>
    requires from <= |lots|
    decreases |lots| - from
  {
    if from == |lots| then [] else FifoHead(lots, symbol, platform, from) + FifoKeys(lots, symbol, platform, from + 1)
  }

  lemma {:induction false} FifoKeysMembers(lots: seq<Lot>, symbol: string, platform: string, from: nat)
    requires from <= |lots|
    ensures forall k ::
      k in FifoKeys(lots, symbol, platform, from) ==> from <= k.idx < |lots| && Eligible(lots[k.idx], symbol, platform)
    decreases |lots| - from
  {
    if from < |lots| { FifoKeysMembers(lots, symbol, platform, from + 1); }
  }

  /** Take from the lots in the given order until the need is met. */
  function Greedy(lots: seq<Lot>, order: seq<Key>, need: int): Plan
    requires forall i :: 0 <= i < |order| ==> order[i].idx < |lots|
    decreases |order|
  {
    if need <= 0 || order == [] then []
    else
      var avail := lots[order[0].idx].qty;
      var take := if avail >= need then need else avail;
      [Take(order[0].idx, take)] + Greedy(lots, order[1..], need - take)
  }

  function FifoOrder(lots: seq<Lot>, symbol: string, platform: string): (r: seq<Key>)
    ensures forall i :: 0 <= i < |r| ==> r[i].idx < |lots| && Eligible(lots[r[i].idx], symbol, platform)
  {
    var ks := FifoKeys(lots, symbol, platform, 0);
    FifoKeysMembers(lots, symbol, platform, 0);
    SortMembers(ks);
    assert forall i :: 0 <= i < |ks| ==> Sort(ks)[i] in ks;
    Sort(ks)
  }

  function FifoPlan(lots: seq<Lot>, symbol: string, platform: string, qty: int): Plan {
    Greedy(lots, FifoOrder(lots, symbol, platform), qty)
  }

  function SelectLots(lots: seq<Lot>, symbol: string, qty: int, refs: seq<LotRef>,
                      platform: string): Result<Plan, LedgerError>
  {
    if refs != [] then
      match DesignatedPlan(lots, symbol, platform, {}, refs)
      case Failure(e) => Failure(e)
      case Success(plan) => if PlanQty(plan) != qty then Failure(LotRefsMismatch) else Success(plan)
    else
      var plan := FifoPlan(lots, symbol, platform, qty);
      if qty - PlanQty(plan) > 0 then Failure(InsufficientShares) else Success(plan)
  }

  /** A plan that can be carried out: existing lots, each at most once, each covered. */
  ghost predicate Feasible(lots: seq<Lot>, plan: Plan) {
    && (forall k :: 0 <= k < |plan| ==> plan[k].idx < |lots| && 0 < plan[k].qty <= lots[plan[k].idx].qty)
    && (forall j, k :: 0 <= j < k < |plan| ==> plan[j].idx != plan[k].idx)
  }

  // --- Selling. ---

  function ProceedNums(plan: Plan, net: int): (r: seq<int>)
    ensures |r| == |plan|
  {
    seq(|plan|, k requires 0 <= k < |plan| => net * plan[k].qty)
  }

  function ProceedKeys(lots: seq<Lot>, plan: Plan, rems: seq<int>): (r: seq<Key>)
    requires |rems| == |plan|
    requires forall k :: 0 <= k < |plan| ==> plan[k].idx < |lots|
    ensures |r| == |plan|
  {
    seq(|plan|, k requires 0 <= k < |plan| =>
      Key(-rems[k], lots[plan[k].idx].acquireDate, lots[plan[k].idx].openSeq, k))
  }

  function ProceedOrder(lots: seq<Lot>, plan: Plan, net: int, total: int): (r: seq<nat>)
    requires total > 0
    requires forall k :: 0 <= k < |plan| ==> plan[k].idx < |lots|
    ensures InRange(r, |plan|)
  {
    var ks := ProceedKeys(lots, plan, Remainders(ProceedNums(plan, net), total));
    SortMembers(ks);
    assert forall i :: 0 <= i < |ks| ==> Sort(ks)[i] in ks;
    Positions(Sort(ks))
  }

  /** Net proceeds split over the plan by largest remainder, earlier lots first on a tie. */
  function Proceeds(lots: seq<Lot>, plan: Plan, net: int, total: int): (r: seq<int>)
    requires total > 0
    requires forall k :: 0 <= k < |plan| ==> plan[k].idx < |lots|
    ensures |r| == |plan|
  {
    Shares(ProceedNums(plan, net), total, net, ProceedOrder(lots, plan, net, total))
  }

  /** The lot after `c` of its shares are sold. */
  function Sold(l: Lot, c: int): Lot
    requires 0 < c <= l.qty
  {
    l.(basis := l.basis - ConsumedBasis(l.basis, l.qty, c), qty := l.qty - c, closed := l.closed || l.qty == c)
  }

  function GainOf(l: Lot, c: int, alloc: int, e: Event): Gain
    requires e.kind.Sell?
    requires 0 < c <= l.qty
  {
    var cb := ConsumedBasis(l.basis, l.qty, c);
    Gain(e.kind.saleId, e.seqNo, l.id, e.kind.symbol, e.date, alloc, cb, alloc - cb,
         l.acquireDate, e.date - l.acquireDate, e.kind.accruesToState)
  }

  function ConsumeTake(b: Book, t: Take, alloc: int, e: Event): Book
    requires e.kind.Sell?
    requires t.idx < |b.lots| && 0 < t.qty <= b.lots[t.idx].qty
  {
    var l := b.lots[t.idx];
    b.(lots := b.lots[t.idx := Sold(l, t.qty)],
       gains := b.gains + [GainOf(l, t.qty, alloc, e)],
       dependedOn := b.dependedOn + {l.openEvent})
  }

  function ConsumePlan(b: Book, plan: Plan, proceeds: seq<int>, e: Event): Book
    requires e.kind.Sell?
    requires |proceeds| == |plan|
    requires Feasible(b.lots, plan)
    decreases |plan|
  {
    if plan == [] then b
    else
      var b' := ConsumeTake(b, plan[0], proceeds[0], e);
      FeasibleTail(b, plan, proceeds[0], e);
      ConsumePlan(b', plan[1..], proceeds[1..], e)
  }

  lemma FeasibleTail(b: Book, plan: Plan, alloc: int, e: Event)
    requires e.kind.Sell? && plan != []
    requires Feasible(b.lots, plan)
    ensures Feasible(ConsumeTake(b, plan[0], alloc, e).lots, plan[1..])
  {
    var lots' := ConsumeTake(b, plan[0], alloc, e).lots;
    forall k | 0 <= k < |plan[1..]|
      ensures plan[1..][k].idx < |lots'| && 0 < plan[1..][k].qty <= lots'[plan[1..][k].idx].qty
    {
      assert plan[1..][k] == plan[k + 1];
      assert plan[0].idx != plan[k + 1].idx;
    }
  }

  function Net(e: Event): int
    requires e.kind.Sell?
  {
    Scale(e.kind.qty * e.kind.unitPrice) - e.kind.fees
  }

  function ApplySell(b: Book, e: Event): (Book, Outcome)
    requires e.kind.Sell?
  {
    var k := e.kind;
    if k.qty <= 0 then (b, Rejected(NonPositiveQty))
    else match SelectLots(b.lots, k.symbol, k.qty, k.lotRefs, k.platform)
      case Failure(err) => (b, Rejected(err))
      case Success(plan) =>
        if !WithinCap(Scale(k.qty * k.unitPrice)) then (b, Rejected(AmountOutOfRange))
        else if !WithinCap(Net(e)) then (b, Rejected(AmountOutOfRange))
        else
          SelectedFeasible(b.lots, k.symbol, k.qty, k.lotRefs, k.platform);
          (ConsumePlan(b, plan, Proceeds(b.lots, plan, Net(e), k.qty), e), Accepted)
  }

  // --- Opening and splitting. ---

  function OpenLot(b: Book, e: Event, lotId: string, symbol: string, qty: int, basis: int, source: LotSource,
                   platform: string, trackingCode: Option<string>): Book
  {
    b.(lots := b.lots + [Lot(lotId, symbol, e.date, e.seqNo, source, qty, basis, platform, trackingCode, e.id, false)],
       symbolsSeen := b.symbolsSeen + {symbol})
  }

  function ApplyBuy(b: Book, e: Event): (Book, Outcome)
    requires e.kind.Buy?
  {
    var k := e.kind;
    if k.qty <= 0 then (b, Rejected(NonPositiveQty))
    else if FindLot(b.lots, k.lotId).Some? then (b, Rejected(DuplicateLotId))
    else if !WithinCap(Scale(k.qty * k.unitPrice)) then (b, Rejected(AmountOutOfRange))
    else if !WithinCap(Scale(k.qty * k.unitPrice) + k.fees) then (b, Rejected(AmountOutOfRange))
    else
      var basis := Scale(k.qty * k.unitPrice) + k.fees;
      (OpenLot(b, e, k.lotId, k.symbol, k.qty, basis, FromBuy, k.platform, k.trackingCode), Accepted)
  }

  function ApplyVest(b: Book, e: Event): (Book, Outcome)
    requires e.kind.Vest?
  {
    var k := e.kind;
    if k.qty <= 0 then (b, Rejected(NonPositiveQty))
    else if FindLot(b.lots, k.lotId).Some? then (b, Rejected(DuplicateLotId))
    else if !WithinCap(Scale(k.qty * k.fmv)) then (b, Rejected(AmountOutOfRange))
    else (OpenLot(b, e, k.lotId, k.symbol, k.qty, Scale(k.qty * k.fmv), FromVest, k.platform, k.trackingCode), Accepted)
  }

  predicate SplitSkips(l: Lot, symbol: string) {
    l.closed || l.symbol != symbol || l.qty == 0
  }

  function Rescaled(qty: int, num: int, den: int): int
    requires den >= 1
  {
    RoundHalfToEven(qty * num, den)
  }

  /** Lots after the split, the opening events it touched, and whether it ran to the end.
      A lot over the cap stops the pass, leaving the lots before it already rescaled. */
  function SplitLots(lots: seq<Lot>, symbol: string, num: int, den: int): (r: (seq<Lot>, set<string>, bool))
    requires den >= 1
    ensures |r.0| == |lots|
  {
    if lots == [] then ([], {}, true)
    else if SplitSkips(lots[0], symbol) then
      var (rest, deps, ok) := SplitLots(lots[1..], symbol, num, den);
      ([lots[0]] + rest, deps, ok)
    else if !WithinCap(Rescaled(lots[0].qty, num, den)) then (lots, {}, false)
    else
      var (rest, deps, ok) := SplitLots(lots[1..], symbol, num, den);
      ([lots[0].(qty := Rescaled(lots[0].qty, num, den))] + rest, {lots[0].openEvent} + deps, ok)
  }

  function ApplySplit(b: Book, e: Event): (Book, Outcome)
    requires e.kind.Split?
  {
    if e.kind.num < 1 || e.kind.den < 1 then (b, Rejected(BadSplitRatio))
    else
      var (lots, deps, ok) := SplitLots(b.lots, e.kind.symbol, e.kind.num, e.kind.den);
      (b.(lots := lots, dependedOn := b.dependedOn + deps), if ok then Accepted else Rejected(AmountOutOfRange))
  }

  function ApplyEvent(b: Book, e: Event): (Book, Outcome) {
    match e.kind
    case Buy(_, _, _, _, _, _, _) => ApplyBuy(b, e)
    case Vest(_, _, _, _, _, _) => ApplyVest(b, e)
    case Sell(_, _, _, _, _, _, _, _, _) => ApplySell(b, e)
    case Split(_, _, _) => ApplySplit(b, e)
    case Reversal(_) => (b, Accepted)
  }

  /** The fold over already-surviving events; errors are ignored, as replay does. */
  function Fold(b: Book, events: seq<Event>): Book
    decreases |events|
  {
    if events == [] then b else Fold(ApplyEvent(b, events[0]).0, events[1..])
  }

  /** No event of the run takes an error branch. */
  predicate Clean(b: Book, events: seq<Event>)
    decreases |events|
  {
    events == [] || (ApplyEvent(b, events[0]).1.Accepted? && Clean(ApplyEvent(b, events[0]).0, events[1..]))
  }

  // --- Surviving events. ---

  function ReversedTargets(events: seq<Event>): (r: set<string>)
    ensures forall t ::
      t in r <==> exists i :: 0 <= i < |events| && events[i].kind.Reversal? && events[i].kind.target == t
  {
    if events == [] then {}
    else (if events[0].kind.Reversal? then {events[0].kind.target} else {}) + ReversedTargets(events[1..])
  }

  /** The events neither reversed nor reversals, in log order. */
  function Unreversed(events: seq<Event>, reversed: set<string>): seq<Event> {
    if events == [] then []
    else if !events[0].kind.Reversal? && events[0].id !in reversed then [events[0]] + Unreversed(events[1..], reversed)
    else Unreversed(events[1..], reversed)
  }

  function InsertBySeq(e: Event, s: seq<Event>): seq<Event> {
    if s == [] then [e]
    else if s[0].seqNo < e.seqNo then [s[0]] + InsertBySeq(e, s[1..])
    else [e] + s
  }

  /** Stable sort by sequence number. */
  function SortBySeq(s: seq<Event>): seq<Event> {
    if s == [] then [] else InsertBySeq(s[0], SortBySeq(s[1..]))
  }

  function Surviving(events: seq<Event>): seq<Event> {
    SortBySeq(Unreversed(events, ReversedTargets(events)))
  }

  function StateOf(events: seq<Event>): Book {
    Fold(EMPTY_BOOK, Surviving(events))
  }

  // --- Append-time validation. ---

  function EventIds(events: seq<Event>): (r: set<string>)
    ensures forall t :: t in r <==> exists i :: 0 <= i < |events| && events[i].id == t
  {
    if events == [] then {} else {events[0].id} + EventIds(events[1..])
  }

  /** Every rescaled open lot of the symbol stays within the cap. */
  predicate SplitWithinCap(lots: seq<Lot>, symbol: string, num: int, den: int)
    requires den >= 1
  {
    forall i :: 0 <= i < |lots| && !SplitSkips(lots[i], symbol) ==> WithinCap(Rescaled(lots[i].qty, num, den))
  }

  function ValidateAgainst(b: Book, accepted: seq<Event>, candidate: Event): Outcome {
    match candidate.kind
    case Buy(lotId, _, qty, unitPrice, fees, _, _) =>
      if qty <= 0 then Rejected(NonPositiveQty)
      else if FindLot(b.lots, lotId).Some? then Rejected(DuplicateLotId)
      else if !WithinCap(Scale(qty * unitPrice)) then Rejected(AmountOutOfRange)
      else if !WithinCap(Scale(qty * unitPrice) + fees) then Rejected(AmountOutOfRange)
      else Accepted
    case Vest(lotId, _, qty, fmv, _, _) =>
      if qty <= 0 then Rejected(NonPositiveQty)
      else if FindLot(b.lots, lotId).Some? then Rejected(DuplicateLotId)
      else if !WithinCap(Scale(qty * fmv)) then Rejected(AmountOutOfRange)
      else Accepted
    case Sell(_, symbol, qty, unitPrice, fees, lotRefs, _, platform, _) =>
      if qty <= 0 then Rejected(NonPositiveQty)
      else
        (match SelectLots(b.lots, symbol, qty, lotRefs, platform)
         case Failure(err) => Rejected(err)
         case Success(_) =>
           if !WithinCap(Scale(qty * unitPrice)) then Rejected(AmountOutOfRange)
           else if !WithinCap(Scale(qty * unitPrice) - fees) then Rejected(AmountOutOfRange)
           else Accepted)
    case Split(symbol, num, den) =>
      if num < 1 || den < 1 then Rejected(BadSplitRatio)
      else if !SplitWithinCap(b.lots, symbol, num, den) then Rejected(AmountOutOfRange)
      else Accepted
    case Reversal(target) =>
      if target !in EventIds(accepted) then Rejected(BadReversal)
      else if target in ReversedTargets(accepted) then Rejected(BadReversal)
      else if target in b.dependedOn then Rejected(BadReversal)
      else Accepted
  }

  function Validate(accepted: seq<Event>, candidate: Event): Outcome {
    ValidateAgainst(StateOf(accepted), accepted, candidate)
  }

  // --- Selection always yields a feasible plan for exactly the sale's quantity. ---

  lemma {:induction false} DesignatedFeasible(lots: seq<Lot>, symbol: string, platform: string, seen: set<string>,
                                              refs: seq<LotRef>)
    requires DesignatedPlan(lots, symbol, platform, seen, refs).Success?
    ensures
      var plan := DesignatedPlan(lots, symbol, platform, seen, refs).value;
      && |plan| == |refs|
      && Feasible(lots, plan)
      && (forall k :: 0 <= k < |plan| ==> lots[plan[k].idx].id == refs[k].lotId && lots[plan[k].idx].id !in seen)
      && (forall k :: 0 <= k < |plan| ==> Eligible(lots[plan[k].idx], symbol, platform))
    decreases |refs|
  {
    if refs != [] {
      DesignatedFeasible(lots, symbol, platform, seen + {refs[0].lotId}, refs[1..]);
    }
  }

  lemma {:induction false} FifoKeysAscending(lots: seq<Lot>, symbol: string, platform: string, from: nat)
    requires from <= |lots|
    ensures DistinctKeys(FifoKeys(lots, symbol, platform, from))
    decreases |lots| - from
  {
    if from < |lots| {
      FifoKeysAscending(lots, symbol, platform, from + 1);
      FifoKeysMembers(lots, symbol, platform, from + 1);
      var rest := FifoKeys(lots, symbol, platform, from + 1);
      assert forall i :: 0 <= i < |rest| ==> rest[i] in rest;
    }
  }

  ghost predicate Holds(lots: seq<Lot>, order: seq<Key>) {
    forall i :: 0 <= i < |order| ==> order[i].idx < |lots| && lots[order[i].idx].qty > 0
  }

  ghost predicate Names(order: seq<Key>, idx: nat) {
    exists i :: 0 <= i < |order| && order[i].idx == idx
  }

  lemma HoldsTail(lots: seq<Lot>, order: seq<Key>)
    requires Holds(lots, order) && order != []
    ensures Holds(lots, order[1..])
    ensures forall idx :: Names(order[1..], idx) ==> Names(order, idx)
    ensures DistinctKeys(order) ==> DistinctKeys(order[1..]) && !Names(order[1..], order[0].idx)
  {
    var rest := order[1..];
    assert forall i :: 0 <= i < |rest| ==> rest[i] == order[i + 1];
    forall idx | Names(rest, idx) ensures Names(order, idx) {
      var i :| 0 <= i < |rest| && rest[i].idx == idx;
      assert order[i + 1].idx == idx;
    }
  }

  /** The greedy plan names lots of the order, within what they hold, and no more than is
      needed. */
  lemma {:induction false} GreedyCovered(lots: seq<Lot>, order: seq<Key>, need: int)
    requires Holds(lots, order)
    ensures
      var plan := Greedy(lots, order, need);
      && (forall k :: 0 <= k < |plan| ==>
            Names(order, plan[k].idx) && plan[k].idx < |lots| && 0 < plan[k].qty <= lots[plan[k].idx].qty)
      && (need >= 0 ==> PlanQty(plan) <= need)
    decreases |order|
  {
    if need > 0 && order != [] {
      var avail := lots[order[0].idx].qty;
      var take := if avail >= need then need else avail;
      HoldsTail(lots, order);
      GreedyCovered(lots, order[1..], need - take);
      assert Greedy(lots, order, need)[1..] == Greedy(lots, order[1..], need - take);
    }
  }

  lemma {:induction false} GreedyDistinct(lots: seq<Lot>, order: seq<Key>, need: int)
    requires Holds(lots, order) && DistinctKeys(order)
    ensures
      var plan := Greedy(lots, order, need);
      forall j, k :: 0 <= j < k < |plan| ==> plan[j].idx != plan[k].idx
    decreases |order|
  {
    if need > 0 && order != [] {
      var avail := lots[order[0].idx].qty;
      var take := if avail >= need then need else avail;
      HoldsTail(lots, order);
      GreedyDistinct(lots, order[1..], need - take);
      GreedyCovered(lots, order[1..], need - take);
      assert Greedy(lots, order, need) == [Take(order[0].idx, take)] + Greedy(lots, order[1..], need - take);
    }
  }

  lemma {:induction false} FifoFeasible(lots: seq<Lot>, symbol: string, platform: string, qty: int)
    ensures
      var plan := FifoPlan(lots, symbol, platform, qty);
      && Feasible(lots, plan)
      && (qty >= 0 ==> PlanQty(plan) <= qty)
      && (forall k :: 0 <= k < |plan| ==> Eligible(lots[plan[k].idx], symbol, platform))
  {
    var order := FifoOrder(lots, symbol, platform);
    FifoKeysAscending(lots, symbol, platform, 0);
    SortDistinct(FifoKeys(lots, symbol, platform, 0));
    GreedyCovered(lots, order, qty);
    GreedyDistinct(lots, order, qty);
    var plan := FifoPlan(lots, symbol, platform, qty);
    forall k | 0 <= k < |plan| ensures Eligible(lots[plan[k].idx], symbol, platform) {
      var i :| 0 <= i < |order| && order[i].idx == plan[k].idx;
    }
  }

  /** A successful selection names existing open lots of the sale's symbol and platform,
      each at most once and within what it holds, and adds up to the sale quantity. */
  lemma {:induction false} SelectedFeasible(lots: seq<Lot>, symbol: string, qty: int, refs: seq<LotRef>,
                                            platform: string)
    requires qty > 0
    requires SelectLots(lots, symbol, qty, refs, platform).Success?
    ensures
      var plan := SelectLots(lots, symbol, qty, refs, platform).value;
      && Feasible(lots, plan)
      && PlanQty(plan) == qty
      && (forall k :: 0 <= k < |plan| ==> Eligible(lots[plan[k].idx], symbol, platform))
  {
    if refs != [] {
      DesignatedFeasible(lots, symbol, platform, {}, refs);
    } else {
      FifoFeasible(lots, symbol, platform, qty);
    }
  }
}
