/** The snapshot a folded book reports: positions per symbol, open lots with their
    unrealized profit, and the realized gains. */
module Snapshots {
  import opened Basics
  import opened Rounding
  import opened Apportion
  import opened Ledger
  import opened Selection
  import opened Conservation
  import opened Dominance
  import opened Permutation

  type Marks = map<string, int>

  datatype OpenLot = OpenLot(lot: Lot, unrealized: Option<int>)

  datatype Position = Position(symbol: string, totalQty: int, totalBasis: int, realized: int, unrealized: Option<int>)

  datatype Snapshot = Snapshot(positions: map<string, Position>, openLots: seq<OpenLot>, gains: seq<Gain>)

  predicate Reportable(l: Lot) {
    !l.closed && l.qty != 0
  }

  function LotValue(l: Lot, mark: int): int {
    Scale(mark * l.qty)
  }

  function OpenLotOf(l: Lot, marks: Marks): OpenLot {
    OpenLot(l, if l.symbol in marks then Some(LotValue(l, marks[l.symbol]) - l.basis) else None)
  }

  function OpenLots(lots: seq<Lot>, marks: Marks): seq<OpenLot> {
    if lots == [] then []
    else if Reportable(lots[0]) then [OpenLotOf(lots[0], marks)] + OpenLots(lots[1..], marks)
    else OpenLots(lots[1..], marks)
  }

  // --- Per-symbol aggregates. ---

  function ReportedQty(sym: string): Lot -> int {
    (l: Lot) => if Reportable(l) && l.symbol == sym then l.qty else 0
  }

  function ReportedBasis(sym: string): Lot -> int {
    (l: Lot) => if Reportable(l) && l.symbol == sym then l.basis else 0
  }

  function ReportedUnrealized(sym: string, mark: int): Lot -> int {
    (l: Lot) => if Reportable(l) && l.symbol == sym then LotValue(l, mark) - l.basis else 0
  }

  /** The position of one symbol: open shares and basis, realized profit, and unrealized
      profit when there are open shares and a mark. */
  function PositionOf(b: Book, marks: Marks, sym: string): Position {
    var qty := Total(b.lots, ReportedQty(sym));
    Position(sym, qty, Total(b.lots, ReportedBasis(sym)), Total(b.gains, GainAmount(sym)),
             if qty > 0 && sym in marks then Some(Total(b.lots, ReportedUnrealized(sym, marks[sym]))) else None)
  }

  function LotSymbols(lots: seq<Lot>): (r: set<string>)
    ensures forall s :: s in r <==> exists i :: 0 <= i < |lots| && Reportable(lots[i]) && lots[i].symbol == s
  {
    if lots == [] then {}
    else (if Reportable(lots[0]) then {lots[0].symbol} else {}) + LotSymbols(lots[1..])
  }

  function GainSymbols(gains: seq<Gain>): (r: set<string>)
    ensures forall s :: s in r <==> exists i :: 0 <= i < |gains| && gains[i].symbol == s
  {
    if gains == [] then {} else {gains[0].symbol} + GainSymbols(gains[1..])
  }

  function ReportedSymbols(b: Book): set<string> {
    b.symbolsSeen + LotSymbols(b.lots) + GainSymbols(b.gains)
  }

  function SnapshotOf(b: Book, marks: Marks): Snapshot {
    Snapshot(map s | s in ReportedSymbols(b) :: PositionOf(b, marks, s), OpenLots(b.lots, marks), b.gains)
  }

  // --- What a snapshot leaves out. ---

  /** Basis of open lots a split has rounded down to no shares at all. */
  function StrandedBasis(sym: string): Lot -> int {
    (l: Lot) => if !l.closed && l.qty == 0 && l.symbol == sym then l.basis else 0
  }

  lemma {:induction false} ReportedPlusStranded(lots: seq<Lot>, sym: string)
    requires forall i :: 0 <= i < |lots| ==> SoundLot(lots[i])
    ensures Total(lots, LotBasis(sym)) == Total(lots, ReportedBasis(sym)) + Total(lots, StrandedBasis(sym))
    ensures Total(lots, LotQty(sym)) == Total(lots, ReportedQty(sym))
  {
    if lots != [] {
      var rest := lots[1..];
      assert forall i :: 0 <= i < |rest| ==> rest[i] == lots[i + 1];
      ReportedPlusStranded(rest, sym);
    }
  }

  /** The reported open basis and the realized basis add up to the opening bases less
      exactly the basis stranded in zero-share lots: the totals balance if and only if no
      basis is stranded. */
  lemma {:induction false} SnapshotConserves(events: seq<Event>, marks: Marks, sym: string)
    requires Clean(EMPTY_BOOK, events)
    ensures
      var b := Fold(EMPTY_BOOK, events);
      var p := PositionOf(b, marks, sym);
      && p.totalBasis + Total(b.gains, GainBasis(sym))
        == Total(events, BasisOpened(sym)) - Total(b.lots, StrandedBasis(sym))
      && p.realized == Total(events, ProceedsNetted(sym)) - Total(b.gains, GainBasis(sym))
  {
    FoldSound(EMPTY_BOOK, events);
    LedgerConserves(events, sym);
    ReportedPlusStranded(Fold(EMPTY_BOOK, events).lots, sym);
  }

  // --- When a split strands a lot. ---

  /** Open, with no shares left. */
  predicate Stranded(l: Lot) {
    !l.closed && l.qty == 0
  }

  /** The split leaves the lot less than half a share of the smallest unit, or just half. */
  predicate SplitStrands(l: Lot, e: Event) {
    e.kind.Split? && e.kind.den >= 1 && !SplitSkips(l, e.kind.symbol) && 2 * (l.qty * e.kind.num) <= e.kind.den
  }

  lemma RoundsToNothingIff(qty: int, num: int, den: int)
    requires qty >= 0 && num >= 1 && den >= 1
    ensures Rescaled(qty, num, den) == 0 <==> 2 * (qty * num) <= den
  {
    NonNegativeProduct(qty, num);
    if 2 * (qty * num) <= den { RoundUnique(qty * num, den, 0); }
  }

  lemma LotStrandsIff(l: Lot, r: Lot, e: Event)
    requires e.kind.Split? && e.kind.num >= 1 && e.kind.den >= 1 && l.qty >= 0
    requires r == if SplitSkips(l, e.kind.symbol) then l else l.(qty := Rescaled(l.qty, e.kind.num, e.kind.den))
    ensures Stranded(r) <==> Stranded(l) || SplitStrands(l, e)
  {
    RoundsToNothingIff(l.qty, e.kind.num, e.kind.den);
  }

  lemma SplitStrandsIff(b: Book, e: Event, i: nat)
    requires SoundLots(b.lots) && e.kind.Split? && ApplyEvent(b, e).1.Accepted? && i < |b.lots|
    ensures Stranded(ApplyEvent(b, e).0.lots[i]) <==> Stranded(b.lots[i]) || SplitStrands(b.lots[i], e)
  {
    assert SoundLot(b.lots[i]);
    assert b.lots[i].qty >= 0;
    var l, r := b.lots[i], ApplyEvent(b, e).0.lots[i];
    assert r == (if SplitSkips(l, e.kind.symbol) then l else l.(qty := Rescaled(l.qty, e.kind.num, e.kind.den))) by {
      SplitLotsAt(b.lots, e.kind.symbol, e.kind.num, e.kind.den);
    }
    LotStrandsIff(l, r, e);
  }

  /** A sale strands nothing: it closes the lots it empties and takes from none without shares. */
  lemma {:induction false} SaleStrandsNothing(b: Book, e: Event, i: nat)
    requires SoundLots(b.lots) && e.kind.Sell? && ApplyEvent(b, e).1.Accepted? && i < |b.lots|
    ensures |ApplyEvent(b, e).0.lots| == |b.lots|
    ensures Stranded(ApplyEvent(b, e).0.lots[i]) <==> Stranded(b.lots[i])
  {
    var k, plan := e.kind, SalePlan(b, e);
    SelectedFeasible(b.lots, k.symbol, k.qty, k.lotRefs, k.platform);
    var proceeds := Proceeds(b.lots, plan, Net(e), k.qty);
    SameNumberOfLots(b, plan, proceeds, e);
    if j :| 0 <= j < |plan| && plan[j].idx == i {
      NamedLotSold(b, plan, proceeds, e, j);
    } else {
      OtherLotKept(b, plan, proceeds, e, i);
    }
  }

  /** After an accepted event a lot is stranded exactly if it was, or a split has just stranded
      it; a lot just opened is not. */
  lemma {:induction false} EventStrandsIff(b: Book, e: Event, i: nat)
    requires SoundLots(b.lots) && ApplyEvent(b, e).1.Accepted? && i < |ApplyEvent(b, e).0.lots|
    ensures Stranded(ApplyEvent(b, e).0.lots[i]) <==>
      i < |b.lots| && (Stranded(b.lots[i]) || SplitStrands(b.lots[i], e))
  {
    if e.kind.Sell? {
      SaleQuantities(b, e);
      SaleStrandsNothing(b, e, i);
    } else if e.kind.Split? {
      SplitStrandsIff(b, e, i);
    }
  }

  ghost predicate NoneStranded(lots: seq<Lot>) {
    forall i :: 0 <= i < |lots| ==> !Stranded(lots[i])
  }

  /** Every split of the run leaves each lot it rescales more than half of the smallest unit. */
  ghost predicate SplitsLeaveShares(b: Book, events: seq<Event>)
    decreases |events|
  {
    events == [] ||
    (&& (forall i :: 0 <= i < |b.lots| ==> !SplitStrands(b.lots[i], events[0]))
     && SplitsLeaveShares(ApplyEvent(b, events[0]).0, events[1..]))
  }

  lemma NoneStrandedNext(b: Book, e: Event)
    requires SoundLots(b.lots) && ApplyEvent(b, e).1.Accepted?
    ensures NoneStranded(ApplyEvent(b, e).0.lots) <==>
      NoneStranded(b.lots) && forall i :: 0 <= i < |b.lots| ==> !SplitStrands(b.lots[i], e)
  {
    var r := ApplyEvent(b, e).0;
    EventSound(b, e);
    forall i | 0 <= i < |r.lots|
      ensures Stranded(r.lots[i]) <==> i < |b.lots| && (Stranded(b.lots[i]) || SplitStrands(b.lots[i], e))
    {
      EventStrandsIff(b, e, i);
    }
  }

  /** Over every run without errors: no lot ends up stranded if and only if none was and every
      split leaves shares. */
  lemma {:induction false} NoneStrandedIff(b: Book, events: seq<Event>)
    requires SoundLots(b.lots) && Clean(b, events)
    ensures NoneStranded(Fold(b, events).lots) <==> NoneStranded(b.lots) && SplitsLeaveShares(b, events)
    decreases |events|
  {
    if events != [] {
      EventSound(b, events[0]);
      NoneStrandedNext(b, events[0]);
      NoneStrandedIff(ApplyEvent(b, events[0]).0, events[1..]);
    }
  }

  lemma {:induction false} NoStrandedBasis(lots: seq<Lot>, sym: string)
    requires NoneStranded(lots)
    ensures Total(lots, StrandedBasis(sym)) == 0
  {
    if lots != [] {
      assert forall i :: 0 <= i < |lots| - 1 ==> lots[1..][i] == lots[i + 1];
      assert !Stranded(lots[0]);
      NoStrandedBasis(lots[1..], sym);
    }
  }

  /** So the snapshot of a log whose splits leave shares balances: open basis and realized basis
      are the opening bases. */
  lemma {:induction false} SnapshotBalances(events: seq<Event>, marks: Marks, sym: string)
    requires Clean(EMPTY_BOOK, events) && SplitsLeaveShares(EMPTY_BOOK, events)
    ensures
      var b := Fold(EMPTY_BOOK, events);
      PositionOf(b, marks, sym).totalBasis + Total(b.gains, GainBasis(sym)) == Total(events, BasisOpened(sym))
  {
    NoneStrandedIff(EMPTY_BOOK, events);
    NoStrandedBasis(Fold(EMPTY_BOOK, events).lots, sym);
    SnapshotConserves(events, marks, sym);
  }

  // --- Every reported symbol was bought or vested. ---

  ghost predicate SymbolsKnown(b: Book) {
    && (forall i :: 0 <= i < |b.lots| ==> b.lots[i].symbol in b.symbolsSeen)
    && (forall i :: 0 <= i < |b.gains| ==> b.gains[i].symbol in b.symbolsSeen)
  }

  lemma {:induction false} ConsumeKnown(b: Book, plan: Plan, proceeds: seq<int>, e: Event)
    requires e.kind.Sell? && |proceeds| == |plan|
    requires Feasible(b.lots, plan)
    requires SymbolsKnown(b) && e.kind.symbol in b.symbolsSeen
    ensures SymbolsKnown(ConsumePlan(b, plan, proceeds, e))
    decreases |plan|
  {
    if plan != [] {
      FeasibleTail(b, plan, proceeds[0], e);
      ConsumeKnown(ConsumeTake(b, plan[0], proceeds[0], e), plan[1..], proceeds[1..], e);
    }
  }

  lemma EventKnown(b: Book, e: Event)
    requires SymbolsKnown(b)
    ensures SymbolsKnown(ApplyEvent(b, e).0)
  {
    match e.kind
    case Buy(_, _, _, _, _, _, _) =>
    case Vest(_, _, _, _, _, _) =>
    case Sell(_, _, _, _, _, _, _, _, _) =>
      if ApplyEvent(b, e).1.Accepted? {
        var k := e.kind;
        SelectedFeasible(b.lots, k.symbol, k.qty, k.lotRefs, k.platform);
        var plan := SalePlan(b, e);
        assert plan != [];
        assert b.lots[plan[0].idx].symbol == k.symbol;
        ConsumeKnown(b, plan, Proceeds(b.lots, plan, Net(e), k.qty), e);
      }
    case Split(symbol, num, den) => if num >= 1 && den >= 1 { SplitLotsAt(b.lots, symbol, num, den); }
    case Reversal(_) =>
  }

  /** Positions exist exactly for the symbols some accepted event opened a lot of, so a
      mark for a symbol never held creates none. */
  lemma {:induction false} PositionsAreHeldSymbols(b: Book, events: seq<Event>, marks: Marks)
    requires SymbolsKnown(b)
    ensures SnapshotOf(Fold(b, events), marks).positions.Keys == Fold(b, events).symbolsSeen
    decreases |events|
  {
    if events == [] {
      assert ReportedSymbols(b) == b.symbolsSeen;
    } else {
      EventKnown(b, events[0]);
      PositionsAreHeldSymbols(ApplyEvent(b, events[0]).0, events[1..], marks);
    }
  }
}
