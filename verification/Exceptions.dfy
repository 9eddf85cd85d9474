/** Logs the program can hold on which a documented promise fails. Every log here is grown one
    validated event at a time; the condition each of them violates is proved elsewhere. */
module Exceptions {
  import opened Basics
  import opened Rounding
  import opened Apportion
  import opened Ledger
  import opened Selection
  import opened Dominance
  import opened Conservation
  import opened Snapshots
  import opened ReversalTotality
  import opened ImportDelta
  import Integrity

  // --- Building blocks. ---

  /** A sale out of one lot it names. */
  lemma {:induction false} SellFrom(b: Book, e: Event, i: nat)
    requires i < |b.lots| && FindLot(b.lots, b.lots[i].id) == Some(i)
    requires e.kind.Sell? && e.kind.lotRefs == [LotRef(b.lots[i].id, e.kind.qty)]
    requires !b.lots[i].closed && 0 < e.kind.qty <= b.lots[i].qty
    requires b.lots[i].symbol == e.kind.symbol && b.lots[i].platform == e.kind.platform
    requires WithinCap(Scale(e.kind.qty * e.kind.unitPrice)) && WithinCap(Net(e))
    ensures ApplyEvent(b, e).1.Accepted?
    ensures ApplyEvent(b, e).0.lots == b.lots[i := Sold(b.lots[i], e.kind.qty)]
    ensures ApplyEvent(b, e).0.dependedOn == b.dependedOn + {b.lots[i].openEvent}
  {
    var k := e.kind;
    var take := Take(i, k.qty);
    assert k.lotRefs[1..] == [] && [take][1..] == [];
    assert DesignatedPlan(b.lots, k.symbol, k.platform, {} + {b.lots[i].id}, []) == Success([]);
    assert [take] + [] == [take];
    assert DesignatedPlan(b.lots, k.symbol, k.platform, {}, k.lotRefs) == Success([take]);
    assert PlanQty([take]) == k.qty by { assert PlanQty([]) == 0; }
    var ps := Proceeds(b.lots, [take], Net(e), k.qty);
    var after := ConsumeTake(b, take, ps[0], e);
    assert ps[1..] == [];
    assert ConsumePlan(after, [], [], e) == after;
  }

  /** A first event, accepted on the empty book. */
  lemma FirstGrows(e: Event)
    requires !e.kind.Reversal? && ApplyEvent(EMPTY_BOOK, e).1.Accepted?
    ensures Grown([e]) && Surviving([e]) == [e] && StateOf([e]) == ApplyEvent(EMPTY_BOOK, e).0
  {
    GrowByOne([], e, EMPTY_BOOK);
    assert [] + [e] == [e];
  }

  lemma ScaleWhole(n: int)
    ensures Scale(1_000_000 * n) == n
  {
    RoundUnique(1_000_000 * n, SHARE_SCALE, n);
  }

  // --- A rejected split that leaves a lot rescaled. ---

  const SMALL := Event("a", 1, 0, Buy("A", "AMZN", 10_000_000, 0, 0, "P", None))
  const LARGE := Event("b", 2, 0, Buy("B", "AMZN", MONEY_CAP, 0, 0, "P", None))
  const HALVE := Event("x", 3, 1, Sell("S", "AMZN", MONEY_CAP / 2, 0, 0, [LotRef("B", MONEY_CAP / 2)], None, "P", None))
  const DOUBLE := Event("s", 4, 2, Split("AMZN", 2, 1))
  const UNDO_HALVE := Event("r", 5, 3, Reversal("x"))
  const CAPPED_LOG := [SMALL, LARGE, HALVE, DOUBLE]

  const SMALL_LOT := Lot("A", "AMZN", 0, 1, FromBuy, 10_000_000, 0, "P", None, "a", false)
  const LARGE_LOT := Lot("B", "AMZN", 0, 2, FromBuy, MONEY_CAP, 0, "P", None, "b", false)
  const TWO_LOTS := Book([SMALL_LOT, LARGE_LOT], [], {"AMZN"}, {})

  lemma OpensSmall()
    ensures ApplyEvent(EMPTY_BOOK, SMALL) == (Book([SMALL_LOT], [], {"AMZN"}, {}), Accepted)
  {
    RoundUnique(10_000_000 * 0, SHARE_SCALE, 0);
    var one := ApplyEvent(EMPTY_BOOK, SMALL).0;
    assert one.lots == [SMALL_LOT] && one.symbolsSeen == {"AMZN"};
  }

  lemma OpensTwo()
    ensures ApplyEvent(EMPTY_BOOK, SMALL) == (Book([SMALL_LOT], [], {"AMZN"}, {}), Accepted)
    ensures ApplyEvent(Book([SMALL_LOT], [], {"AMZN"}, {}), LARGE) == (TWO_LOTS, Accepted)
  {
    OpensSmall();
    OpensLarge();
  }

  lemma OpensLarge()
    ensures ApplyEvent(Book([SMALL_LOT], [], {"AMZN"}, {}), LARGE) == (TWO_LOTS, Accepted)
  {
    RoundUnique(MONEY_CAP * 0, SHARE_SCALE, 0);
    assert "A"[0] != "B"[0];
    assert FindLot([SMALL_LOT], "B").None?;
    assert Scale(LARGE.kind.qty * LARGE.kind.unitPrice) == 0;
    var (two, o) := ApplyEvent(Book([SMALL_LOT], [], {"AMZN"}, {}), LARGE);
    assert o.Accepted?;
    assert two.lots == [SMALL_LOT, LARGE_LOT];
    assert two.symbolsSeen == {"AMZN"};
  }

  lemma {:induction false} HalvesLarge()
    ensures ApplyEvent(TWO_LOTS, HALVE).1.Accepted?
    ensures ApplyEvent(TWO_LOTS, HALVE).0.lots == [SMALL_LOT, LARGE_LOT.(qty := MONEY_CAP / 2)]
    ensures ApplyEvent(TWO_LOTS, HALVE).0.dependedOn == {"b"}
  {
    ScaleZero(HALVE.kind.qty);
    assert HALVE.kind.qty == MONEY_CAP / 2 && HALVE.kind.unitPrice == 0;
    assert "A"[0] != "B"[0];
    assert TWO_LOTS.lots[0].id == "A" && TWO_LOTS.lots[1].id == "B";
    assert FindLot(TWO_LOTS.lots, "B") == Some(1);
    assert Scale(HALVE.kind.qty * HALVE.kind.unitPrice) == 0;
    SellFrom(TWO_LOTS, HALVE, 1);
    assert ConsumedBasis(0, MONEY_CAP, MONEY_CAP / 2) == 0;
    assert ApplyEvent(TWO_LOTS, HALVE).0.dependedOn == {} + {"b"};
    assert Sold(LARGE_LOT, MONEY_CAP / 2) == LARGE_LOT.(qty := MONEY_CAP / 2);
    assert TWO_LOTS.lots[1 := LARGE_LOT.(qty := MONEY_CAP / 2)] == [SMALL_LOT, LARGE_LOT.(qty := MONEY_CAP / 2)];
  }

  /** The split on lots of which the second does not, or does, go over the cap. */
  lemma {:induction false} DoublesTwo(second: Lot)
    requires second.symbol == "AMZN" && !second.closed && 0 < second.qty <= MONEY_CAP
    ensures
      var fits := second.qty * 2 <= MONEY_CAP;
      SplitLots([SMALL_LOT, second], "AMZN", 2, 1) ==
        ([SMALL_LOT.(qty := 20_000_000), if fits then second.(qty := second.qty * 2) else second],
         if fits then {"a", second.openEvent} else {"a"}, fits)
  {
    RoundUnique(10_000_000 * 2, 1, 20_000_000);
    RoundUnique(second.qty * 2, 1, second.qty * 2);
    var fits := second.qty * 2 <= MONEY_CAP;
    assert [SMALL_LOT, second][1..] == [second] && [second][1..] == [];
    assert SplitLots([], "AMZN", 2, 1) == ([], {}, true);
    var tail := SplitLots([second], "AMZN", 2, 1);
    assert tail.0 == [if fits then second.(qty := second.qty * 2) else second] && tail.2 == fits;
    assert tail.1 == (if fits then {second.openEvent} else {}) by {
      assert {second.openEvent} + {} == {second.openEvent};
    }
    assert {"a"} + tail.1 == (if fits then {"a", second.openEvent} else {"a"});
    var (lots, deps, ok) := SplitLots([SMALL_LOT, second], "AMZN", 2, 1);
    assert lots == [SMALL_LOT.(qty := 20_000_000)] + tail.0;
    assert deps == {"a"} + tail.1 && ok == tail.2;
    assert lots == [SMALL_LOT.(qty := 20_000_000), if fits then second.(qty := second.qty * 2) else second];
  }

  lemma TwoLotsGrow()
    ensures Grown([SMALL, LARGE]) && Surviving([SMALL, LARGE]) == [SMALL, LARGE] && StateOf([SMALL, LARGE]) == TWO_LOTS
  {
    OpensTwo();
    FirstGrows(SMALL);
    GrowByOne([SMALL], LARGE, Book([SMALL_LOT], [], {"AMZN"}, {}));
    assert [SMALL] + [LARGE] == [SMALL, LARGE];
  }

  lemma CappedLogStarts()
    ensures Grown([SMALL, LARGE, HALVE])
    ensures Surviving([SMALL, LARGE, HALVE]) == [SMALL, LARGE, HALVE]
    ensures StateOf([SMALL, LARGE, HALVE]) == ApplyEvent(TWO_LOTS, HALVE).0
  {
    TwoLotsGrow();
    HalvesLarge();
    GrowByOne([SMALL, LARGE], HALVE, TWO_LOTS);
    assert [SMALL, LARGE] + [HALVE] == [SMALL, LARGE, HALVE];
  }

  lemma {:induction false} DoubleFits(b: Book)
    requires b.lots == [SMALL_LOT, LARGE_LOT.(qty := MONEY_CAP / 2)] && b.dependedOn == {"b"}
    ensures ApplyEvent(b, DOUBLE).1.Accepted? && ApplyEvent(b, DOUBLE).0.dependedOn == {"a", "b"}
  {
    DoublesTwo(LARGE_LOT.(qty := MONEY_CAP / 2));
    assert {"b"} + {"a", "b"} == {"a", "b"};
  }

  lemma CappedLogGrows()
    ensures Grown(CAPPED_LOG) && Surviving(CAPPED_LOG) == CAPPED_LOG
    ensures StateOf(CAPPED_LOG).dependedOn == {"a", "b"}
  {
    CappedLogStarts();
    HalvesLarge();
    DoubleGrows(ApplyEvent(TWO_LOTS, HALVE).0);
  }

  lemma DoubleGrows(b: Book)
    requires Grown([SMALL, LARGE, HALVE]) && Surviving([SMALL, LARGE, HALVE]) == [SMALL, LARGE, HALVE]
    requires StateOf([SMALL, LARGE, HALVE]) == b
    requires b.lots == [SMALL_LOT, LARGE_LOT.(qty := MONEY_CAP / 2)] && b.dependedOn == {"b"}
    ensures Grown(CAPPED_LOG) && Surviving(CAPPED_LOG) == CAPPED_LOG
    ensures StateOf(CAPPED_LOG).dependedOn == {"a", "b"}
  {
    DoubleFits(b);
    assert Fresh([SMALL, LARGE, HALVE], DOUBLE);
    GrowByOne([SMALL, LARGE, HALVE], DOUBLE, b);
    assert [SMALL, LARGE, HALVE] + [DOUBLE] == CAPPED_LOG;
  }

  lemma UndoHalveAccepted()
    ensures Fresh(CAPPED_LOG, UNDO_HALVE) && Validate(CAPPED_LOG, UNDO_HALVE).Accepted?
  {
    var dependedOn := StateOf(CAPPED_LOG).dependedOn;
    assert dependedOn == {"a", "b"} by { CappedLogGrows(); }
    assert ReversedTargets(CAPPED_LOG) == {} by { NoReversals(CAPPED_LOG); }
    assert "x" in EventIds(CAPPED_LOG) by { assert CAPPED_LOG[2].id == "x"; }
    assert "x" != "a" && "x" != "b";
    assert Admitted(CAPPED_LOG, UNDO_HALVE);
    AcceptedIsAdmitted(CAPPED_LOG, UNDO_HALVE);
    forall i | 0 <= i < 4 ensures CAPPED_LOG[i].id != "r" && CAPPED_LOG[i].seqNo < 5 {
      assert CAPPED_LOG[i] == SMALL || CAPPED_LOG[i] == LARGE || CAPPED_LOG[i] == HALVE || CAPPED_LOG[i] == DOUBLE;
    }
  }

  lemma UndoHalveLeaves()
    ensures Surviving(CAPPED_LOG + [UNDO_HALVE]) == [SMALL, LARGE, DOUBLE]
  {
    CappedLogGrows();
    UndoHalveAccepted();
    GrownReplaysClean(CAPPED_LOG);
    AcceptedIsAdmitted(CAPPED_LOG, UNDO_HALVE);
    FreshKeeps(CAPPED_LOG, UNDO_HALVE);
    DropPresent(CAPPED_LOG, 2);
    assert CAPPED_LOG[2].id == UNDO_HALVE.kind.target;
    assert CAPPED_LOG[..2] + CAPPED_LOG[3..] == [SMALL, LARGE, DOUBLE];
  }

  /** Both buys and the split, the sale gone: the split stops at the second lot. */
  lemma {:induction false} DoubleRejected()
    ensures ApplyEvent(TWO_LOTS, DOUBLE).1 == Rejected(AmountOutOfRange)
    ensures ApplyEvent(TWO_LOTS, DOUBLE).0.lots == [SMALL_LOT.(qty := 20_000_000), LARGE_LOT]
    ensures Fold(EMPTY_BOOK, [SMALL, LARGE, DOUBLE]) == ApplyEvent(TWO_LOTS, DOUBLE).0
  {
    OpensTwo();
    DoublesTwo(LARGE_LOT);
    assert [SMALL, LARGE, DOUBLE][1..] == [LARGE, DOUBLE] && [LARGE, DOUBLE][1..] == [DOUBLE] && [DOUBLE][1..] == [];
    assert Fold(TWO_LOTS, [DOUBLE]) == ApplyEvent(TWO_LOTS, DOUBLE).0;
  }

  /** Two buys, half of the second sold, split 2:1, all accepted; then the sale is reversed,
      also accepted. Replay rejects the split, yet leaves the first lot doubled. */
  lemma {:induction false} RejectedSplitRescales()
    ensures Grown(CAPPED_LOG) && Fresh(CAPPED_LOG, UNDO_HALVE) && Validate(CAPPED_LOG, UNDO_HALVE).Accepted?
    ensures Surviving(CAPPED_LOG + [UNDO_HALVE]) == [SMALL, LARGE, DOUBLE]
    ensures Fold(EMPTY_BOOK, [SMALL, LARGE]) == TWO_LOTS
    ensures ApplyEvent(TWO_LOTS, DOUBLE).1 == Rejected(AmountOutOfRange) && ApplyEvent(TWO_LOTS, DOUBLE).0 != TWO_LOTS
    ensures StateOf(CAPPED_LOG + [UNDO_HALVE]).lots == [SMALL_LOT.(qty := 20_000_000), LARGE_LOT]
  {
    CappedLogGrows();
    UndoHalveAccepted();
    UndoHalveLeaves();
    BothBought();
    DoubleRejected();
    assert SMALL_LOT.(qty := 20_000_000) != SMALL_LOT;
    assert ApplyEvent(TWO_LOTS, DOUBLE).0.lots[0] != TWO_LOTS.lots[0];
  }

  lemma BothBought()
    ensures Fold(EMPTY_BOOK, [SMALL, LARGE]) == TWO_LOTS
  {
    OpensTwo();
    assert [SMALL, LARGE][1..] == [LARGE] && [LARGE][1..] == [];
    var one := Book([SMALL_LOT], [], {"AMZN"}, {});
    assert Fold(TWO_LOTS, []) == TWO_LOTS;
    assert Fold(one, [LARGE]) == TWO_LOTS;
  }

  // --- A reversal of a reversal. ---

  const BUY_ONE := Event("b", 1, 0, Buy("L", "AMZN", 1_000_000, 100, 0, "P", None))
  const UNDO_BUY := Event("r", 2, 1, Reversal("b"))
  const UNDO_UNDO := Event("q", 3, 2, Reversal("r"))

  lemma BuyOneUndone()
    ensures Grown([BUY_ONE, UNDO_BUY]) && Surviving([BUY_ONE, UNDO_BUY]) == []
  {
    ScaleWhole(100);
    FirstGrows(BUY_ONE);
    NoReversals([BUY_ONE]);
    assert [BUY_ONE][0].id == "b";
    assert [BUY_ONE] + [UNDO_BUY] == [BUY_ONE, UNDO_BUY];
    assert [BUY_ONE, UNDO_BUY][..1] == [BUY_ONE];
    GrownReplaysClean([BUY_ONE]);
    assert Validate([BUY_ONE], UNDO_BUY).Accepted?;
    FreshKeeps([BUY_ONE], UNDO_BUY);
    assert DropId([BUY_ONE], "b") == [] by { assert [BUY_ONE][1..] == []; }
  }

  lemma BuyOneUndoneLoads()
    ensures Integrity.Loadable([BUY_ONE, UNDO_BUY])
    ensures Integrity.ReversesReversal([BUY_ONE, UNDO_BUY], UNDO_UNDO)
  {
    var log := [BUY_ONE, UNDO_BUY];
    assert Integrity.SeqNos(log) == [1, 2];
    assert log[..1] == [BUY_ONE];
    assert Integrity.LastById([BUY_ONE], "b") == Some(BUY_ONE);
    assert Integrity.LastById(log, "b") == Some(BUY_ONE);
    assert Integrity.LastById(log, "r") == Some(UNDO_BUY);
  }

  /** Buy, reverse the buy, reverse the reversal: every event is accepted and replay meets no
      error, yet the log no longer loads. */
  lemma {:induction false} ReversedReversalUnloadable()
    ensures Grown([BUY_ONE, UNDO_BUY]) && Integrity.Loadable([BUY_ONE, UNDO_BUY])
    ensures Fresh([BUY_ONE, UNDO_BUY], UNDO_UNDO) && Validate([BUY_ONE, UNDO_BUY], UNDO_UNDO).Accepted?
    ensures !Integrity.Loadable([BUY_ONE, UNDO_BUY] + [UNDO_UNDO])
  {
    BuyOneUndone();
    BuyOneUndoneLoads();
    var log := [BUY_ONE, UNDO_BUY];
    assert log[1].id == "r";
    TargetsAppend([BUY_ONE], UNDO_BUY);
    NoReversals([BUY_ONE]);
    assert [BUY_ONE] + [UNDO_BUY] == log;
    assert StateOf(log) == EMPTY_BOOK;
    assert UNDO_UNDO.id !in EventIds(log);
    Integrity.AcceptedStaysLoadable(log, UNDO_UNDO);
  }

  // --- A lot with negative basis. ---

  const REBATED := Event("b", 1, 0, Buy("L", "AMZN", 1_000_000, 100, -200, "P", None))

  /** One share at a dollar with fees of minus two dollars is accepted and opens a lot with a
      basis of minus one. */
  lemma {:induction false} NegativeFeesNegativeBasis()
    ensures Grown([REBATED]) && Surviving([REBATED]) == [REBATED]
    ensures |StateOf([REBATED]).lots| == 1 && StateOf([REBATED]).lots[0].basis == -100
    ensures !AlwaysBasisNonNegative(EMPTY_BOOK, [REBATED])
  {
    ScaleWhole(100);
    FirstGrows(REBATED);
    var b := ApplyEvent(EMPTY_BOOK, REBATED).0;
    assert b.lots[0].basis == -100;
    assert [REBATED][1..] == [];
    assert !BasisNonNegative(b.lots);
    assert !AlwaysBasisNonNegative(b, []);
  }

  // --- Basis stranded in a lot of no shares. ---

  const SPECK := Event("v", 1, 0, Vest("V", "AMZN", 1, 1_000_000, "P", None))
  const MERGE := Event("s", 3, 2, Split("AMZN", 1, 2))
  const BUY_SECOND := Event("b", 2, 1, Buy("L", "AMZN", 2_000_000, 100, 0, "P", None))
  const SPECK_LOT := Lot("V", "AMZN", 0, 1, FromVest, 1, 1, "P", None, "v", false)
  const SECOND_LOT := Lot("L", "AMZN", 1, 2, FromBuy, 2_000_000, 200, "P", None, "b", false)
  const SPECK_BOOK := Book([SPECK_LOT, SECOND_LOT], [], {"AMZN"}, {})
  const SPECK_LOG := [SPECK, BUY_SECOND, MERGE]

  lemma SpeckOpens()
    ensures ApplyEvent(EMPTY_BOOK, SPECK) == (Book([SPECK_LOT], [], {"AMZN"}, {}), Accepted)
    ensures ApplyEvent(Book([SPECK_LOT], [], {"AMZN"}, {}), BUY_SECOND) == (SPECK_BOOK, Accepted)
  {
    RoundUnique(1 * 1_000_000, SHARE_SCALE, 1);
    RoundUnique(2_000_000 * 100, SHARE_SCALE, 200);
    var one := ApplyEvent(EMPTY_BOOK, SPECK).0;
    assert one.lots == [SPECK_LOT] && one.symbolsSeen == {"AMZN"};
    var two := ApplyEvent(Book([SPECK_LOT], [], {"AMZN"}, {}), BUY_SECOND).0;
    assert two.lots == [SPECK_LOT, SECOND_LOT] && two.symbolsSeen == {"AMZN"};
  }

  lemma {:induction false} SpeckMerges()
    ensures ApplyEvent(SPECK_BOOK, MERGE).1.Accepted?
    ensures ApplyEvent(SPECK_BOOK, MERGE).0.lots == [SPECK_LOT.(qty := 0), SECOND_LOT.(qty := 1_000_000)]
  {
    RoundUnique(1 * 1, 2, 0);
    RoundUnique(2_000_000 * 1, 2, 1_000_000);
    assert [SPECK_LOT, SECOND_LOT][1..] == [SECOND_LOT] && [SECOND_LOT][1..] == [];
    assert SplitLots([], "AMZN", 1, 2) == ([], {}, true);
    var tail := SplitLots([SECOND_LOT], "AMZN", 1, 2);
    assert tail.0 == [SECOND_LOT.(qty := 1_000_000)] && tail.2;
    var all := SplitLots(SPECK_BOOK.lots, "AMZN", 1, 2);
    assert all.0 == [SPECK_LOT.(qty := 0), SECOND_LOT.(qty := 1_000_000)] && all.2;
  }

  /** A vested millionth of a share worth a cent and a later buy, then a 1:2 split: the cent
      stays on an open lot of no shares, which no snapshot reports. */
  lemma SpeckLogGrows()
    ensures Grown(SPECK_LOG) && Surviving(SPECK_LOG) == SPECK_LOG
    ensures StateOf(SPECK_LOG).lots == [SPECK_LOT.(qty := 0), SECOND_LOT.(qty := 1_000_000)]
  {
    SpeckOpens();
    SpeckMerges();
    FirstGrows(SPECK);
    GrowByOne([SPECK], BUY_SECOND, Book([SPECK_LOT], [], {"AMZN"}, {}));
    assert [SPECK] + [BUY_SECOND] == [SPECK, BUY_SECOND];
    GrowByOne([SPECK, BUY_SECOND], MERGE, SPECK_BOOK);
    assert [SPECK, BUY_SECOND] + [MERGE] == SPECK_LOG;
  }

  lemma {:induction false} SplitStrandsBasis(marks: Marks)
    requires "AMZN" in marks
    ensures Grown(SPECK_LOG) && Surviving(SPECK_LOG) == SPECK_LOG && Clean(EMPTY_BOOK, SPECK_LOG)
    ensures Total(StateOf(SPECK_LOG).lots, StrandedBasis("AMZN")) == 1
    ensures Total(StateOf(SPECK_LOG).lots, StrandedVest("AMZN")) == 1
    ensures PositionOf(StateOf(SPECK_LOG), marks, "AMZN").totalBasis == 200
    ensures PositionOf(StateOf(SPECK_LOG), marks, "AMZN").unrealized.Some?
  {
    SpeckLogGrows();
    GrownReplaysClean(SPECK_LOG);
    var lots := StateOf(SPECK_LOG).lots;
    TotalOfTwo(lots[0], lots[1], StrandedBasis("AMZN"));
    TotalOfTwo(lots[0], lots[1], StrandedVest("AMZN"));
    TotalOfTwo(lots[0], lots[1], ReportedBasis("AMZN"));
    TotalOfTwo(lots[0], lots[1], ReportedQty("AMZN"));
  }

  /** The prediction for that log is a cent off what replay shows. */
  lemma {:induction false} PredictionOffByCent(marks: Marks)
    requires "AMZN" in marks
    ensures
      var p := PositionOf(Fold(EMPTY_BOOK, SPECK_LOG), marks, "AMZN");
      var q := PositionOf(Fold(EMPTY_BOOK, LegacyTwins(SPECK_LOG, {})), marks, "AMZN");
      && p.unrealized.Some? && q.unrealized.Some?
      && (p.realized + p.unrealized.value) - (q.realized + q.unrealized.value)
           == -(Total(SPECK_LOG, VestValue("AMZN")) - Total(SPECK_LOG, StcValue({}, "AMZN"))) + 1
  {
    SplitStrandsBasis(marks);
    PredictionExact(SPECK_LOG, {}, marks, "AMZN");
  }

  lemma TotalOfTwo<T>(x: T, y: T, f: T -> int)
    ensures Total([x, y], f) == f(x) + f(y)
  {
    assert [x, y][1..] == [y] && [y][1..] == [];
    assert Total([y], f) == f(y);
  }

  // --- A substituted sale whose fees the legacy run cannot carry. ---

  const RICH := Event("v", 1, 0, Vest("V", "AMZN", 1_000_000, MONEY_CAP, "P", None))
  const RICH_ROW := SaleRow("x", "AMZN", "V", 1_000_000, 0, MONEY_CAP + 1, None, "P", 1)
  const RICH_FMV := map["V" := MONEY_CAP]
  const RICH_SALE := SaleEvent(RICH_ROW, RICH_FMV).(seqNo := 2)
  const RICH_LOT := Lot("V", "AMZN", 0, 1, FromVest, 1_000_000, MONEY_CAP, "P", None, "v", false)

  lemma RichSells()
    ensures ApplyEvent(EMPTY_BOOK, RICH) == (Book([RICH_LOT], [], {"AMZN"}, {}), Accepted)
    ensures ApplyEvent(Book([RICH_LOT], [], {"AMZN"}, {}), RICH_SALE).1.Accepted?
  {
    ScaleWhole(MONEY_CAP);
    var b := ApplyEvent(EMPTY_BOOK, RICH).0;
    assert b.lots == [RICH_LOT] && b.symbolsSeen == {"AMZN"};
    SellFrom(Book([RICH_LOT], [], {"AMZN"}, {}), RICH_SALE, 0);
  }

  /** A vest at the cap and a sell-to-cover sale with fees one cent above it: the sale nets
      minus a cent and is accepted, but without its substituted price its fees alone exceed
      the cap, so the legacy side of the prediction rejects it. */
  lemma {:induction false} FeesBreakLegacyRun()
    ensures Grown([RICH, RICH_SALE]) && Clean(EMPTY_BOOK, [RICH, RICH_SALE])
    ensures IsSellToCover(RICH_ROW, RICH_FMV) && RICH_FMV == map[RICH.kind.lotId := RICH.kind.fmv]
    ensures !Clean(EMPTY_BOOK, LegacyTwins([RICH, RICH_SALE], {"x"}))
  {
    RichSells();
    FirstGrows(RICH);
    GrowByOne([RICH], RICH_SALE, Book([RICH_LOT], [], {"AMZN"}, {}));
    var log := [RICH, RICH_SALE];
    assert [RICH] + [RICH_SALE] == log;
    GrownReplaysClean(log);
    LegacyRunIff(EMPTY_BOOK, EMPTY_BOOK, log, {"x"});
    assert !FeesCapped(log[1], {"x"});
  }
}
