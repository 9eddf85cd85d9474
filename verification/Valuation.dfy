/** What a snapshot says shares are worth: cents against micro-shares times cents per share. */
module Valuation {
  import opened Basics
  import opened Rounding
  import opened Ledger
  import opened Selection
  import opened Conservation
  import opened Dominance
  import opened Snapshots

  /** The amount is within half a cent per lot of so many cents per share times micro-shares, a
      million of which make a share. */
  predicate NearCents(amount: int, microCents: int, lots: int) {
    && 2 * (amount * 1_000_000 - microCents) <= lots * 1_000_000
    && 2 * (microCents - amount * 1_000_000) <= lots * 1_000_000
  }

  lemma ScaleNear(micro: int)
    ensures NearCents(Scale(micro), micro, 1)
  {
  }

  // --- Open lots. ---

  predicate Open(l: Lot) {
    !l.closed && l.qty != 0
  }

  /** The snapshot lists the open lots in their order, each with a profit exactly if its symbol is
      marked, and profit and basis make up its shares at the mark to half a cent. */
  lemma {:induction false} OpenLotsValued(b: Book, marks: Marks) returns (at: seq<nat>)
    ensures |at| == |SnapshotOf(b, marks).openLots|
    ensures forall k ::
      0 <= k < |at| ==> at[k] < |b.lots| && ListedAs(b.lots[at[k]], marks, SnapshotOf(b, marks).openLots[k])
    ensures forall j, k :: 0 <= j < k < |at| ==> at[j] < at[k]
    ensures forall i :: 0 <= i < |b.lots| ==> (i in at <==> Open(b.lots[i]))
  {
    at := OpenLotsAt(b.lots, marks, 0);
    assert b.lots[0..] == b.lots;
  }

  predicate ListedAs(l: Lot, marks: Marks, o: OpenLot) {
    && o.lot == l
    && (o.unrealized.Some? <==> l.symbol in marks)
    && (o.unrealized.Some? ==> NearCents(o.unrealized.value + l.basis, marks[l.symbol] * l.qty, 1))
  }

  lemma {:induction false} OpenLotsAt(lots: seq<Lot>, marks: Marks, from: nat) returns (at: seq<nat>)
    requires from <= |lots|
    ensures |at| == |OpenLots(lots[from..], marks)|
    ensures forall k ::
      0 <= k < |at| ==> from <= at[k] < |lots| && ListedAs(lots[at[k]], marks, OpenLots(lots[from..], marks)[k])
    ensures forall j, k :: 0 <= j < k < |at| ==> at[j] < at[k]
    ensures forall i :: from <= i < |lots| ==> (i in at <==> Open(lots[i]))
    decreases |lots| - from
  {
    at := [];
    if from < |lots| {
      var rest := OpenLotsAt(lots, marks, from + 1);
      assert lots[from..][1..] == lots[from + 1..];
      var l := lots[from];
      if l.symbol in marks { ScaleNear(marks[l.symbol] * l.qty); }
      at := if Open(l) then [from] + rest else rest;
    }
  }

  // --- Positions. ---

  function OpenCount(sym: string): Lot -> int {
    (l: Lot) => if Open(l) && l.symbol == sym then 1 else 0
  }

  function OpenQty(sym: string): Lot -> int {
    (l: Lot) => if Open(l) && l.symbol == sym then l.qty else 0
  }

  function OpenBasis(sym: string): Lot -> int {
    (l: Lot) => if Open(l) && l.symbol == sym then l.basis else 0
  }

  function RealizedOf(sym: string): Gain -> int {
    (g: Gain) => if g.symbol == sym then g.proceeds - g.basis else 0
  }

  lemma NearSum(x: int, m: int, y: int, n: int, lots: int)
    requires NearCents(x, m, 1) && NearCents(y, n, lots)
    ensures NearCents(x + y, m + n, lots + 1)
  {
  }

  lemma {:induction false} UnrealizedNear(lots: seq<Lot>, sym: string, mark: int)
    ensures NearCents(Total(lots, ReportedUnrealized(sym, mark)) + Total(lots, OpenBasis(sym)),
                      mark * Total(lots, OpenQty(sym)), Total(lots, OpenCount(sym)))
  {
    if lots != [] {
      var l, rest := lots[0], lots[1..];
      UnrealizedNear(rest, sym, mark);
      if Open(l) && l.symbol == sym {
        ScaleNear(mark * l.qty);
        NearSum(LotValue(l, mark), mark * l.qty,
                Total(rest, ReportedUnrealized(sym, mark)) + Total(rest, OpenBasis(sym)),
                mark * Total(rest, OpenQty(sym)), Total(rest, OpenCount(sym)));
        Times(mark, l.qty, Total(rest, OpenQty(sym)));
      }
    }
  }

  lemma Times(m: int, x: int, y: int)
    ensures m * (x + y) == m * x + m * y
  {
  }

  lemma {:induction false} ReportedIsOpen(lots: seq<Lot>, sym: string)
    ensures Total(lots, ReportedQty(sym)) == Total(lots, OpenQty(sym))
    ensures Total(lots, ReportedBasis(sym)) == Total(lots, OpenBasis(sym))
  {
    if lots != [] { ReportedIsOpen(lots[1..], sym); }
  }

  predicate GainsAddUp(gains: seq<Gain>) {
    forall i :: 0 <= i < |gains| ==> gains[i].gain == gains[i].proceeds - gains[i].basis
  }

  lemma {:induction false} ConsumeAddsUp(b: Book, plan: Plan, proceeds: seq<int>, e: Event)
    requires e.kind.Sell? && |proceeds| == |plan| && Feasible(b.lots, plan) && GainsAddUp(b.gains)
    ensures GainsAddUp(ConsumePlan(b, plan, proceeds, e).gains)
    decreases |plan|
  {
    if plan != [] {
      FeasibleTail(b, plan, proceeds[0], e);
      ConsumeAddsUp(ConsumeTake(b, plan[0], proceeds[0], e), plan[1..], proceeds[1..], e);
    }
  }

  /** In every folded book a gain is proceeds less basis. */
  lemma {:induction false} FoldedGainsAddUp(b: Book, events: seq<Event>)
    requires GainsAddUp(b.gains)
    ensures GainsAddUp(Fold(b, events).gains)
    decreases |events|
  {
    if events != [] {
      var e := events[0];
      if e.kind.Sell? && ApplyEvent(b, e).1.Accepted? {
        var k := e.kind;
        SelectedFeasible(b.lots, k.symbol, k.qty, k.lotRefs, k.platform);
        ConsumeAddsUp(b, SalePlan(b, e), Proceeds(b.lots, SalePlan(b, e), Net(e), k.qty), e);
      }
      FoldedGainsAddUp(ApplyEvent(b, e).0, events[1..]);
    }
  }

  lemma {:induction false} RealizedIs(gains: seq<Gain>, sym: string)
    requires GainsAddUp(gains)
    ensures Total(gains, GainAmount(sym)) == Total(gains, RealizedOf(sym))
  {
    if gains != [] {
      assert forall i :: 0 <= i < |gains| - 1 ==> gains[1..][i] == gains[i + 1];
      RealizedIs(gains[1..], sym);
    }
  }

  /** A position adds up its symbol's open lots and gains. It has a profit exactly if there are
      open shares and a mark, and profit and basis make up the shares at the mark to half a cent
      per open lot. */
  lemma {:induction false} PositionsValued(b: Book, marks: Marks, sym: string)
    requires sym in SnapshotOf(b, marks).positions
    ensures
      var p := SnapshotOf(b, marks).positions[sym];
      && p.symbol == sym
      && p.totalQty == Total(b.lots, OpenQty(sym))
      && p.totalBasis == Total(b.lots, OpenBasis(sym))
      && (GainsAddUp(b.gains) ==> p.realized == Total(b.gains, RealizedOf(sym)))
      && (p.unrealized.Some? <==> p.totalQty > 0 && sym in marks)
      && (p.unrealized.Some? ==>
            NearCents(p.unrealized.value + p.totalBasis, marks[sym] * p.totalQty, Total(b.lots, OpenCount(sym))))
  {
    ReportedIsOpen(b.lots, sym);
    if GainsAddUp(b.gains) { RealizedIs(b.gains, sym); }
    if sym in marks { UnrealizedNear(b.lots, sym, marks[sym]); }
  }

  // --- Positions are the sums of the listed lots. ---

  function ListedQty(sym: string): OpenLot -> int {
    (o: OpenLot) => if o.lot.symbol == sym then o.lot.qty else 0
  }

  function ListedBasis(sym: string): OpenLot -> int {
    (o: OpenLot) => if o.lot.symbol == sym then o.lot.basis else 0
  }

  function ListedUnrealized(sym: string): OpenLot -> int {
    (o: OpenLot) => if o.lot.symbol == sym && o.unrealized.Some? then o.unrealized.value else 0
  }

  lemma {:induction false} ListedTotals(lots: seq<Lot>, marks: Marks, sym: string)
    ensures Total(OpenLots(lots, marks), ListedQty(sym)) == Total(lots, OpenQty(sym))
    ensures Total(OpenLots(lots, marks), ListedBasis(sym)) == Total(lots, OpenBasis(sym))
    ensures sym in marks ==>
      Total(OpenLots(lots, marks), ListedUnrealized(sym)) == Total(lots, ReportedUnrealized(sym, marks[sym]))
  {
    if lots != [] {
      ListedTotals(lots[1..], marks, sym);
      var tail := OpenLots(lots[1..], marks);
      assert ([OpenLotOf(lots[0], marks)] + tail)[1..] == tail;
    }
  }

  /** The position's shares, basis and profit are those of the listed lots of the symbol. */
  lemma {:induction false} PositionSumsListedLots(b: Book, marks: Marks, sym: string)
    requires sym in SnapshotOf(b, marks).positions
    ensures
      var s := SnapshotOf(b, marks);
      var p := s.positions[sym];
      && p.totalQty == Total(s.openLots, ListedQty(sym))
      && p.totalBasis == Total(s.openLots, ListedBasis(sym))
      && (p.unrealized.Some? ==> p.unrealized.value == Total(s.openLots, ListedUnrealized(sym)))
  {
    ReportedIsOpen(b.lots, sym);
    ListedTotals(b.lots, marks, sym);
  }
}
