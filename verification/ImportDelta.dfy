/** The importer's predicted divergence. The legacy books charged vested shares no basis and
    recorded sell-to-cover sales at no price; the reconstruction uses fair market value for
    both. Folding the reconstruction and its legacy twin side by side shows exactly how far
    a symbol's profit differs. */
module ImportDelta {
  import opened Basics
  import opened Rounding
  import opened Keys
  import opened Apportion
  import opened Ledger
  import opened Selection
  import opened Dominance
  import opened Conservation
  import opened Snapshots

  // --- Reconstructing sale rows. ---

  datatype SaleRow = SaleRow(saleId: string, symbol: string, trancheId: string, qty: int, price: int, fees: int,
                             state: Option<string>, platform: string, date: int)

  predicate IsSellToCover(row: SaleRow, vestFmv: map<string, int>) {
    row.price == 0 && row.trancheId in vestFmv
  }

  function SaleKind(row: SaleRow, vestFmv: map<string, int>): EventKind {
    var price := if IsSellToCover(row, vestFmv) then vestFmv[row.trancheId] else row.price;
    Sell(row.saleId, row.symbol, row.qty, price, row.fees, [LotRef(row.trancheId, row.qty)],
         row.state, row.platform, None)
  }

  /** The sale a row becomes, filed under the id made from the row; its number comes later. */
  function SaleEvent(row: SaleRow, vestFmv: map<string, int>): Event {
    Event(row.saleId, 0, row.date, SaleKind(row, vestFmv))
  }

  /** Fair market value put on a symbol's sell-to-cover shares. */
  function SubstitutedValue(vestFmv: map<string, int>, sym: string): SaleRow -> int {
    (row: SaleRow) => if row.symbol == sym
      && IsSellToCover(row, vestFmv) then Scale(row.qty * vestFmv[row.trancheId]) else 0
  }

  function Get(m: map<string, int>, k: string): int {
    if k in m then m[k] else 0
  }

  lemma OneMoreRow(rows: seq<SaleRow>, i: nat, f: SaleRow -> int)
    requires i < |rows|
    ensures Total(rows[..i + 1], f) == Total(rows[..i], f) + f(rows[i])
  {
    assert rows[..i + 1] == rows[..i] + [rows[i]];
    TotalAppend(rows[..i], [rows[i]], f);
    assert [rows[i]][1..] == [];
  }

  /** The sale pass of the reconstruction: one sale per row, and per symbol the value of
      the substituted shares. */
  method ReconstructSales(rows: seq<SaleRow>, vestFmv: map<string, int>)
    returns (sales: seq<Event>, stc: map<string, int>)
    ensures |sales| == |rows| && forall i :: 0 <= i < |rows| ==> sales[i] == SaleEvent(rows[i], vestFmv)
    ensures forall sym :: Get(stc, sym) == Total(rows, SubstitutedValue(vestFmv, sym))
  {
    sales, stc := [], map[];
    var i := 0;
    while i < |rows|
      invariant 0 <= i <= |rows|
      invariant |sales| == i && forall j :: 0 <= j < i ==> sales[j] == SaleEvent(rows[j], vestFmv)
      invariant forall sym :: Get(stc, sym) == Total(rows[..i], SubstitutedValue(vestFmv, sym))
    {
      var row := rows[i];
      var price := row.price;
      ghost var was := stc;
      if price == 0 && row.trancheId in vestFmv {
        price := vestFmv[row.trancheId];
        stc := stc[row.symbol := Get(stc, row.symbol) + Scale(row.qty * price)];
      }
      var kind := Sell(row.saleId, row.symbol, row.qty, price, row.fees, [LotRef(row.trancheId, row.qty)], row.state,
                       row.platform, None);
      sales := sales + [Event(row.saleId, 0, row.date, kind)];
      forall sym ensures Get(stc, sym) == Total(rows[..i + 1], SubstitutedValue(vestFmv, sym)) {
        OneMoreRow(rows, i, SubstitutedValue(vestFmv, sym));
        assert Get(was, sym) == Total(rows[..i], SubstitutedValue(vestFmv, sym));
        assert Get(stc, sym) == Get(was, sym) + SubstitutedValue(vestFmv, sym)(row);
      }
      i := i + 1;
    }
    assert rows[..i] == rows;
  }

  // --- The legacy twin of a reconstructed event. ---

  /** The event as the legacy books had it: no value on a vest, no price on a sell-to-cover
      sale (`stc` names those), everything else alike. */
  function LegacyTwin(e: Event, stc: set<string>): Event {
    match e.kind
    case Vest(_, _, _, _, _, _) => e.(kind := e.kind.(fmv := 0))
    case Sell(_, _, _, _, _, _, _, _, _) => if e.id in stc then e.(kind := e.kind.(unitPrice := 0)) else e
    case _ => e
  }

  function LegacyTwins(events: seq<Event>, stc: set<string>): (r: seq<Event>)
    ensures |r| == |events|
  {
    if events == [] then [] else [LegacyTwin(events[0], stc)] + LegacyTwins(events[1..], stc)
  }

  /** Reconstructing a row and then taking the twin gives back the price the row recorded, and
      what the sale is worth to a symbol is what was substituted in the row. */
  lemma {:induction false} TwinRestoresRow(e: Event, row: SaleRow, vestFmv: map<string, int>, stc: set<string>)
    requires e.kind == SaleKind(row, vestFmv)
    requires e.id in stc <==> IsSellToCover(row, vestFmv)
    ensures LegacyTwin(e, stc).kind == SaleKind(row, map[])
    ensures forall sym :: StcValue(stc, sym)(e) == SubstitutedValue(vestFmv, sym)(row)
  {
  }

  function VestValue(sym: string): Event -> int {
    (e: Event) => if e.kind.Vest? && e.kind.symbol == sym then Scale(e.kind.qty * e.kind.fmv) else 0
  }

  function StcValue(stc: set<string>, sym: string): Event -> int {
    (e: Event) => if e.kind.Sell? && e.id in stc
      && e.kind.symbol == sym then Scale(e.kind.qty * e.kind.unitPrice) else 0
  }

  /** The predicted difference, from the vest events and the substituted value alone. */
  method PredictIntendedDelta(ledger: seq<Event>, stc: map<string, int>, sym: string) returns (delta: int)
    ensures delta == -(Total(ledger, VestValue(sym)) - Get(stc, sym))
  {
    var fmvValue := 0;
    var i := 0;
    assert ledger[0..] == ledger;
    while i < |ledger|
      invariant 0 <= i <= |ledger|
      invariant fmvValue + Total(ledger[i..], VestValue(sym)) == Total(ledger, VestValue(sym))
    {
      assert ledger[i..][0] == ledger[i] && ledger[i..][1..] == ledger[i + 1..];
      var k := ledger[i].kind;
      if k.Vest? && k.symbol == sym {
        fmvValue := fmvValue + Scale(k.qty * k.fmv);
      }
      i := i + 1;
    }
    assert ledger[i..] == [];
    delta := -(fmvValue - Get(stc, sym));
  }

  // --- The two folds side by side. ---

  ghost predicate SameShares(a: seq<Lot>, b: seq<Lot>) {
    SameLots(a, b) && forall i :: 0 <= i < |a| ==> a[i].qty == b[i].qty && a[i].closed == b[i].closed
  }

  /** Twin lots: same shares; bought lots carry the same basis, vested lots none. */
  ghost predicate TwinLots(a: seq<Lot>, b: seq<Lot>) {
    && SameShares(a, b)
    && forall i :: 0 <= i < |a| ==> b[i].basis == if a[i].source.FromVest? then 0 else a[i].basis
  }

  predicate VestedLot(lots: seq<Lot>, id: string) {
    FindLot(lots, id).Some? && lots[FindLot(lots, id).value].source.FromVest?
  }

  ghost predicate TwinGains(lots: seq<Lot>, a: seq<Gain>, b: seq<Gain>) {
    && |a| == |b|
    && forall k :: 0 <= k < |a| ==>
         && a[k].lotId == b[k].lotId && a[k].symbol == b[k].symbol
         && FindLot(lots, a[k].lotId).Some?
         && b[k].basis == if VestedLot(lots, a[k].lotId) then 0 else a[k].basis
  }

  ghost predicate TwinBooks(a: Book, b: Book) {
    SoundLots(a.lots) && SoundLots(b.lots) && TwinLots(a.lots, b.lots) && TwinGains(a.lots, a.gains, b.gains)
  }

  lemma {:induction false} DesignatedSame(a: seq<Lot>, b: seq<Lot>, symbol: string, platform: string, seen: set<string>,
                                          refs: seq<LotRef>)
    requires SameShares(a, b)
    ensures DesignatedPlan(b, symbol, platform, seen, refs) == DesignatedPlan(a, symbol, platform, seen, refs)
    decreases |refs|
  {
    if refs != [] {
      assert CheckRef(b, symbol, platform, seen, refs[0]) == CheckRef(a, symbol, platform, seen, refs[0]) by {
        FindLotSame(a, b, refs[0].lotId);
      }
      DesignatedSame(a, b, symbol, platform, seen + {refs[0].lotId}, refs[1..]);
    }
  }

  lemma {:induction false} SkimSame(a: seq<Lot>, b: seq<Lot>, order: seq<Key>, need: int)
    requires SameShares(a, b)
    requires forall i :: 0 <= i < |order| ==> order[i].idx < |a|
    ensures Skim(b, order, need) == Skim(a, order, need)
    decreases |order|
  {
    if order != [] {
      var l := a[order[0].idx];
      if l.closed || l.qty <= 0 {
        SkimSame(a, b, order[1..], need);
      } else if need > 0 {
        SkimSame(a, b, order[1..], need - if l.qty >= need then need else l.qty);
      }
    }
  }

  lemma FifoSame(a: seq<Lot>, b: seq<Lot>, symbol: string, qty: int, platform: string)
    requires SameShares(a, b)
    ensures FifoPlan(b, symbol, platform, qty) == FifoPlan(a, symbol, platform, qty)
  {
    FifoIsSkim(a, symbol, platform, qty);
    FifoIsSkim(b, symbol, platform, qty);
    AllKeysSame(a, b, symbol, platform, 0);
    SkimSame(a, b, HoldingOrder(a, symbol, platform), qty);
  }

  lemma SelectSame(a: seq<Lot>, b: seq<Lot>, symbol: string, qty: int, refs: seq<LotRef>, platform: string)
    requires SameShares(a, b)
    ensures SelectLots(b, symbol, qty, refs, platform) == SelectLots(a, symbol, qty, refs, platform)
  {
    if refs != [] {
      DesignatedSame(a, b, symbol, platform, {}, refs);
    } else {
      FifoSame(a, b, symbol, qty, platform);
    }
  }

  lemma FindOwn(lots: seq<Lot>, i: nat)
    requires SoundLots(lots) && i < |lots|
    ensures FindLot(lots, lots[i].id) == Some(i)
  {
  }

  lemma SoldTwins(a: seq<Lot>, b: seq<Lot>, i: nat, c: int)
    requires SoundLots(a) && SoundLots(b) && TwinLots(a, b)
    requires i < |a| && 0 < c <= a[i].qty
    ensures
      var (x, y) := (a[i := Sold(a[i], c)], b[i := Sold(b[i], c)]);
      SoundLots(x) && SoundLots(y) && TwinLots(x, y) && SameLots(a, x)
  {
  }

  lemma TwinGainsKept(lots: seq<Lot>, more: seq<Lot>, a: seq<Gain>, b: seq<Gain>)
    requires TwinGains(lots, a, b)
    requires |lots| <= |more| && forall i :: 0 <= i < |lots| ==> more[i].source == lots[i].source
    requires forall k :: 0 <= k < |a| ==> FindLot(more, a[k].lotId) == FindLot(lots, a[k].lotId)
    ensures TwinGains(more, a, b)
  {
  }

  lemma OneMoreTwinGain(lots: seq<Lot>, a: seq<Gain>, b: seq<Gain>, g: Gain, h: Gain)
    requires TwinGains(lots, a, b)
    requires g.lotId == h.lotId && g.symbol == h.symbol && FindLot(lots, g.lotId).Some?
    requires h.basis == if VestedLot(lots, g.lotId) then 0 else g.basis
    ensures TwinGains(lots, a + [g], b + [h])
  {
  }

  /** One take on both sides. */
  lemma TakeTwins(a: Book, b: Book, t: Take, p: int, q: int, e: Event, f: Event)
    requires TwinBooks(a, b)
    requires e.kind.Sell? && f.kind.Sell? && e.kind.symbol == f.kind.symbol
    requires t.idx < |a.lots| && 0 < t.qty <= a.lots[t.idx].qty
    ensures TwinBooks(ConsumeTake(a, t, p, e), ConsumeTake(b, t, q, f))
  {
    var lots := a.lots[t.idx := Sold(a.lots[t.idx], t.qty)];
    SoldTwins(a.lots, b.lots, t.idx, t.qty);
    forall id ensures FindLot(lots, id) == FindLot(a.lots, id) {
      FindLotSame(a.lots, lots, id);
    }
    TwinGainsKept(a.lots, lots, a.gains, b.gains);
    FindOwn(lots, t.idx);
    OneMoreTwinGain(lots, a.gains, b.gains, GainOf(a.lots[t.idx], t.qty, p, e), GainOf(b.lots[t.idx], t.qty, q, f));
  }

  lemma {:induction false} ConsumeTwins(a: Book, b: Book, plan: Plan, ps: seq<int>, qs: seq<int>, e: Event, f: Event)
    requires TwinBooks(a, b)
    requires e.kind.Sell? && f.kind.Sell? && e.kind.symbol == f.kind.symbol
    requires |ps| == |qs| == |plan|
    requires Feasible(a.lots, plan)
    ensures Feasible(b.lots, plan)
    ensures TwinBooks(ConsumePlan(a, plan, ps, e), ConsumePlan(b, plan, qs, f))
    decreases |plan|
  {
    if plan != [] {
      TakeTwins(a, b, plan[0], ps[0], qs[0], e, f);
      FeasibleTail(a, plan, ps[0], e);
      ConsumeTwins(ConsumeTake(a, plan[0], ps[0], e), ConsumeTake(b, plan[0], qs[0], f), plan[1..], ps[1..], qs[1..], e,
                   f);
    }
  }

  /** The one guard the twin can fail: a substituted sale nets minus its fees. */
  predicate FeesCapped(e: Event, stc: set<string>) {
    e.kind.Sell? && e.id in stc ==> WithinCap(-e.kind.fees)
  }

  lemma ScaleZero(n: int)
    ensures n * 0 == 0 && Scale(n * 0) == 0
  {
    RoundUnique(0, SHARE_SCALE, 0);
  }

  /** A reconstructed event and its twin, each accepted on its own side. */
  lemma {:induction false} EventTwins(a: Book, b: Book, e: Event, stc: set<string>)
    requires TwinBooks(a, b)
    requires ApplyEvent(a, e).1.Accepted?
    ensures ApplyEvent(b, LegacyTwin(e, stc)).1 == if FeesCapped(e, stc) then Accepted else Rejected(AmountOutOfRange)
    ensures FeesCapped(e, stc) ==> TwinBooks(ApplyEvent(a, e).0, ApplyEvent(b, LegacyTwin(e, stc)).0)
  {
    var f := LegacyTwin(e, stc);
    match e.kind
    case Buy(lotId, _, _, _, _, _, _) =>
      FindLotSame(a.lots, b.lots, lotId);
      OpenTwins(a, b, ApplyEvent(a, e).0, ApplyEvent(b, f).0);
    case Vest(lotId, _, qty, _, _, _) =>
      FindLotSame(a.lots, b.lots, lotId);
      ScaleZero(qty);
      OpenTwins(a, b, ApplyEvent(a, e).0, ApplyEvent(b, f).0);
    case Sell(_, symbol, qty, _, _, refs, _, platform, _) =>
      ScaleZero(qty);
      SelectSame(a.lots, b.lots, symbol, qty, refs, platform);
      if FeesCapped(e, stc) { SaleTwins(a, b, e, f); }
    case Split(symbol, num, den) =>
      SplitTwins(a, b, symbol, num, den);
    case Reversal(_) =>
  }

  lemma {:induction false} SaleTwins(a: Book, b: Book, e: Event, f: Event)
    requires TwinBooks(a, b)
    requires e.kind.Sell? && f.kind.Sell? && f == e.(kind := e.kind.(unitPrice := f.kind.unitPrice))
    requires ApplyEvent(a, e).1.Accepted? && ApplyEvent(b, f).1.Accepted?
    ensures TwinBooks(ApplyEvent(a, e).0, ApplyEvent(b, f).0)
  {
    var k := e.kind;
    SelectSame(a.lots, b.lots, k.symbol, k.qty, k.lotRefs, k.platform);
    SelectedFeasible(a.lots, k.symbol, k.qty, k.lotRefs, k.platform);
    var plan := SalePlan(a, e);
    ConsumeTwins(a, b, plan, Proceeds(a.lots, plan, Net(e), k.qty), Proceeds(b.lots, plan, Net(f), k.qty), e, f);
  }

  lemma OpenTwinLots(a: seq<Lot>, b: seq<Lot>, a': seq<Lot>, b': seq<Lot>)
    requires SoundLots(a) && SoundLots(b) && TwinLots(a, b)
    requires |a'| == |a| + 1 && a'[..|a|] == a && |b'| == |b| + 1 && b'[..|b|] == b
    requires
      var x, y := a'[|a|], b'[|b|];
      && SameLot(x, y) && x.qty == y.qty && x.closed == y.closed && SoundLot(x) && SoundLot(y)
      && y.basis == (if x.source.FromVest? then 0 else x.basis)
      && FindLot(a, x.id).None?
    ensures SoundLots(a') && SoundLots(b') && TwinLots(a', b')
  {
    assert forall i :: 0 <= i < |a| ==> a'[i] == a[i] && b'[i] == b[i];
  }

  lemma {:induction false} OpenTwins(a: Book, b: Book, a': Book, b': Book)
    requires TwinBooks(a, b)
    requires |a'.lots| == |a.lots| + 1 && a'.lots[..|a.lots|] == a.lots && a'.gains == a.gains
    requires |b'.lots| == |b.lots| + 1 && b'.lots[..|b.lots|] == b.lots && b'.gains == b.gains
    requires
      var x, y := a'.lots[|a.lots|], b'.lots[|b.lots|];
      && SameLot(x, y) && x.qty == y.qty && x.closed == y.closed && SoundLot(x) && SoundLot(y)
      && y.basis == (if x.source.FromVest? then 0 else x.basis)
      && FindLot(a.lots, x.id).None?
    ensures TwinBooks(a', b')
  {
    OpenTwinLots(a.lots, b.lots, a'.lots, b'.lots);
    forall k | 0 <= k < |a.gains|
      ensures FindLot(a'.lots, a.gains[k].lotId) == FindLot(a.lots, a.gains[k].lotId)
    {
      FindOwn(a'.lots, FindLot(a.lots, a.gains[k].lotId).value);
    }
    assert forall i :: 0 <= i < |a.lots| ==> a'.lots[i] == a'.lots[..|a.lots|][i];
    TwinGainsKept(a.lots, a'.lots, a.gains, b.gains);
  }

  lemma {:induction false} SplitTwins(a: Book, b: Book, symbol: string, num: int, den: int)
    requires TwinBooks(a, b) && num >= 1 && den >= 1
    requires SplitLots(a.lots, symbol, num, den).2
    ensures SplitLots(b.lots, symbol, num, den).2
    ensures
      var (x, y) := (SplitLots(a.lots, symbol, num, den), SplitLots(b.lots, symbol, num, den));
      TwinBooks(a.(lots := x.0, dependedOn := a.dependedOn + x.1), b.(lots := y.0, dependedOn := b.dependedOn + y.1))
  {
    SplitLotsAt(a.lots, symbol, num, den);
    SplitLotsAt(b.lots, symbol, num, den);
    SplitSound(a.lots, symbol, num, den);
    SplitSound(b.lots, symbol, num, den);
    var a', b' := SplitLots(a.lots, symbol, num, den).0, SplitLots(b.lots, symbol, num, den).0;
    forall id ensures FindLot(a', id) == FindLot(a.lots, id) {
      FindLotSame(a.lots, a', id);
    }
    assert TwinLots(a', b');
    assert TwinGains(a', a.gains, b.gains);
  }

  predicate AllFeesCapped(events: seq<Event>, stc: set<string>) {
    forall i :: 0 <= i < |events| ==> FeesCapped(events[i], stc)
  }

  /** The legacy twin of an error-free reconstruction is error-free exactly when no
      substituted sale's fees alone exceed the cap; the folds then stay twins. */
  lemma {:induction false} LegacyRunIff(a: Book, b: Book, events: seq<Event>, stc: set<string>)
    requires TwinBooks(a, b)
    requires Clean(a, events)
    ensures Clean(b, LegacyTwins(events, stc)) <==> AllFeesCapped(events, stc)
    ensures AllFeesCapped(events, stc) ==> TwinBooks(Fold(a, events), Fold(b, LegacyTwins(events, stc)))
    decreases |events|
  {
    if events != [] {
      var e, rest := events[0], events[1..];
      assert forall i :: 0 <= i < |rest| ==> rest[i] == events[i + 1];
      EventTwins(a, b, e, stc);
      assert LegacyTwins(events, stc)[1..] == LegacyTwins(rest, stc);
      assert AllFeesCapped(events, stc) <==> FeesCapped(e, stc) && AllFeesCapped(rest, stc) by {
        if FeesCapped(e, stc) && AllFeesCapped(rest, stc) {
          forall i | 0 <= i < |events| ensures FeesCapped(events[i], stc) {
            if i > 0 { assert events[i] == rest[i - 1]; }
          }
        }
      }
      if FeesCapped(e, stc) {
        LegacyRunIff(ApplyEvent(a, e).0, ApplyEvent(b, LegacyTwin(e, stc)).0, rest, stc);
      }
    }
  }

  // --- From books to profit. ---

  function MarkedValue(sym: string, mark: int): Lot -> int {
    (l: Lot) => if Reportable(l) && l.symbol == sym then LotValue(l, mark) else 0
  }

  lemma {:induction false} UnrealizedSplits(lots: seq<Lot>, sym: string, mark: int)
    ensures Total(lots, ReportedUnrealized(sym, mark))
      == Total(lots, MarkedValue(sym, mark)) - Total(lots, ReportedBasis(sym))
  {
    if lots != [] { UnrealizedSplits(lots[1..], sym, mark); }
  }

  /** Basis stranded in zero-share vested lots. */
  function StrandedVest(sym: string): Lot -> int {
    (l: Lot) => if l.source.FromVest? then StrandedBasis(sym)(l) else 0
  }

  lemma {:induction false} TwinLotTotals(a: seq<Lot>, b: seq<Lot>, sym: string, mark: int)
    requires TwinLots(a, b)
    ensures Total(a, MarkedValue(sym, mark)) == Total(b, MarkedValue(sym, mark))
    ensures Total(a, ReportedQty(sym)) == Total(b, ReportedQty(sym))
    ensures Total(a, StrandedBasis(sym)) - Total(b, StrandedBasis(sym)) == Total(a, StrandedVest(sym))
  {
    if a != [] {
      assert SameLot(a[0], b[0]);
      var p, q := a[1..], b[1..];
      assert forall i :: 0 <= i < |p| ==> p[i] == a[i + 1] && q[i] == b[i + 1];
      TwinLotTotals(p, q, sym, mark);
    }
  }

  /** Realized basis on vested lots. */
  function VestBasisConsumed(lots: seq<Lot>, sym: string): Gain -> int {
    (g: Gain) => if g.symbol == sym && VestedLot(lots, g.lotId) then g.basis else 0
  }

  lemma {:induction false} TwinGainTotals(lots: seq<Lot>, a: seq<Gain>, b: seq<Gain>, sym: string)
    requires TwinGains(lots, a, b)
    ensures Total(a, GainBasis(sym)) - Total(b, GainBasis(sym)) == Total(a, VestBasisConsumed(lots, sym))
  {
    if a != [] {
      var p, q := a[1..], b[1..];
      assert forall i :: 0 <= i < |p| ==> p[i] == a[i + 1] && q[i] == b[i + 1];
      TwinGainTotals(lots, p, q, sym);
    }
  }

  lemma {:induction false} TwinEventTotals(events: seq<Event>, stc: set<string>, sym: string)
    ensures Total(events, BasisOpened(sym)) - Total(LegacyTwins(events, stc), BasisOpened(sym))
      == Total(events, VestValue(sym))
    ensures Total(events, ProceedsNetted(sym)) - Total(LegacyTwins(events, stc), ProceedsNetted(sym))
      == Total(events, StcValue(stc, sym))
  {
    if events != [] {
      TwinEventTotals(events[1..], stc, sym);
      assert LegacyTwins(events, stc)[1..] == LegacyTwins(events[1..], stc);
      var e := events[0];
      match e.kind
      case Vest(_, _, qty, _, _, _) => ScaleZero(qty);
      case Sell(_, _, qty, _, _, _, _, _, _) => ScaleZero(qty);
      case _ =>
    }
  }

  /** The two folds end as twins. */
  lemma FinalTwins(events: seq<Event>, stc: set<string>)
    requires Clean(EMPTY_BOOK, events)
    requires AllFeesCapped(events, stc)
    ensures Clean(EMPTY_BOOK, LegacyTwins(events, stc))
    ensures TwinBooks(Fold(EMPTY_BOOK, events), Fold(EMPTY_BOOK, LegacyTwins(events, stc)))
  {
    LegacyRunIff(EMPTY_BOOK, EMPTY_BOOK, events, stc);
  }

  /** With a mark, realized plus unrealized profit differs between the reconstruction and the
      legacy books by the prediction plus the vested basis stranded in zero-share lots: the
      prediction is exact precisely when that sum is zero. */
  lemma {:induction false} PredictionExact(events: seq<Event>, stc: set<string>, marks: Marks, sym: string)
    requires Clean(EMPTY_BOOK, events)
    requires AllFeesCapped(events, stc)
    requires PositionOf(Fold(EMPTY_BOOK, events), marks, sym).unrealized.Some?
    ensures
      var a := Fold(EMPTY_BOOK, events);
      var p := PositionOf(a, marks, sym);
      var q := PositionOf(Fold(EMPTY_BOOK, LegacyTwins(events, stc)), marks, sym);
      var predicted := -(Total(events, VestValue(sym)) - Total(events, StcValue(stc, sym)));
      && q.unrealized.Some?
      && p.totalQty == q.totalQty
      && (p.realized + p.unrealized.value) - (q.realized + q.unrealized.value)
        == predicted + Total(a.lots, StrandedVest(sym))
  {
    var twins := LegacyTwins(events, stc);
    FinalTwins(events, stc);
    var a, b := Fold(EMPTY_BOOK, events), Fold(EMPTY_BOOK, twins);
    TwinLotTotals(a.lots, b.lots, sym, marks[sym]);
    TwinEventTotals(events, stc, sym);
    SnapshotConserves(events, marks, sym);
    SnapshotConserves(twins, marks, sym);
    UnrealizedSplits(a.lots, sym, marks[sym]);
    UnrealizedSplits(b.lots, sym, marks[sym]);
  }

  /** Without a mark only realized profit is compared, and its prediction is always exact. */
  lemma {:induction false} RealizedPredictionExact(events: seq<Event>, stc: set<string>, marks: Marks, sym: string)
    requires Clean(EMPTY_BOOK, events)
    requires AllFeesCapped(events, stc)
    ensures
      var a := Fold(EMPTY_BOOK, events);
      var p := PositionOf(a, marks, sym);
      var q := PositionOf(Fold(EMPTY_BOOK, LegacyTwins(events, stc)), marks, sym);
      p.realized - q.realized == -(Total(a.gains, VestBasisConsumed(a.lots, sym)) - Total(events, StcValue(stc, sym)))
  {
    var twins := LegacyTwins(events, stc);
    FinalTwins(events, stc);
    var a, b := Fold(EMPTY_BOOK, events), Fold(EMPTY_BOOK, twins);
    TwinGainTotals(a.lots, a.gains, b.gains, sym);
    TwinEventTotals(events, stc, sym);
    LedgerConserves(events, sym);
    LedgerConserves(twins, sym);
  }
}
