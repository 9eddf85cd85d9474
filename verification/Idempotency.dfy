/** When a row already filed under an event's id is that event. */
module Idempotency {
  import opened Basics
  import opened Text
  import opened Ledger
  import opened Escape
  import opened Rows
  import opened TaxRows

  /** A row without its store-assigned sequence number. */
  function SansSeq(row: Row): Row {
    row - {SeqCol}
  }

  function WithSeq(e: Event, n: nat): Event {
    e.(seqNo := n)
  }

  function WithTaxSeq(e: TaxEvent, n: nat): TaxEvent {
    e.(seqNo := n)
  }

  ghost predicate SameCells(a: Row, b: Row) {
    forall c :: c != SeqCol ==> Get(a, c) == Get(b, c)
  }

  lemma SansSeqCells(a: Row, b: Row)
    requires SansSeq(a) == SansSeq(b)
    ensures SameCells(a, b)
  {
    forall c | c != SeqCol ensures Get(a, c) == Get(b, c) {
      assert Get(a, c) == Get(SansSeq(a), c) && Get(b, c) == Get(SansSeq(b), c);
    }
  }

  lemma SameRow(a: Row, b: Row)
    requires SansSeq(a) == SansSeq(b) && Get(a, SeqCol) == Get(b, SeqCol) != ""
    ensures a == b
  {
    assert a == SansSeq(a)[SeqCol := a[SeqCol]];
    assert b == SansSeq(b)[SeqCol := b[SeqCol]];
  }

  lemma ContentIgnoresSeq(e: Event, n: nat)
    ensures SansSeq(LedgerToRow(WithSeq(e, n))) == SansSeq(LedgerToRow(e))
  {
    var a, b := LedgerToRow(WithSeq(e, n)), LedgerToRow(e);
    forall c | c != SeqCol ensures Get(a, c) == Get(b, c) {
      LedgerRowCell(WithSeq(e, n), c);
      LedgerRowCell(e, c);
    }
    SparseSansSeq(a, b);
  }

  lemma TaxContentIgnoresSeq(e: TaxEvent, id: string, n: nat)
    ensures SansSeq(TaxToRow(WithTaxSeq(e, n), id)) == SansSeq(TaxToRow(e, id))
  {
    var a, b := TaxToRow(WithTaxSeq(e, n), id), TaxToRow(e, id);
    forall c | c != SeqCol ensures Get(a, c) == Get(b, c) {
      assert Get(a, c) == TaxCell(WithTaxSeq(e, n), id, c) && Get(b, c) == TaxCell(e, id, c);
    }
    SparseSansSeq(a, b);
  }

  lemma SparseSansSeq(a: Row, b: Row)
    requires Sparse(a) && Sparse(b) && SameCells(a, b)
    ensures SansSeq(a) == SansSeq(b)
  {
    forall c ensures (c in SansSeq(a) <==> c in SansSeq(b)) && (c in SansSeq(a) ==> SansSeq(a)[c] == SansSeq(b)[c]) {
      if c != SeqCol { assert Get(a, c) == Get(b, c); }
    }
    assert SansSeq(a).Keys == SansSeq(b).Keys;
  }

  lemma SameOpeningCells(a: Row, b: Row)
    requires SameCells(a, b)
    ensures Get(a, LotIdCol) == Get(b, LotIdCol) && Get(a, FmvCol) == Get(b, FmvCol)
  {
  }

  lemma SameBuy(a: Row, b: Row)
    requires SameCells(a, b)
    ensures DecBuy(a) == DecBuy(b)
  {
    SameOpeningCells(a, b);
    SameSellCells(a, b);
  }

  lemma SameVest(a: Row, b: Row)
    requires SameCells(a, b)
    ensures DecVest(a) == DecVest(b)
  {
    SameOpeningCells(a, b);
    SameSellCells(a, b);
  }

  lemma SameSellCells(a: Row, b: Row)
    requires SameCells(a, b)
    ensures Get(a, LotRefsCol) == Get(b, LotRefsCol) && Get(a, AccruesToStateCol) == Get(b, AccruesToStateCol)
    ensures Get(a, SaleIdCol) == Get(b, SaleIdCol) && Get(a, SymbolCol) == Get(b, SymbolCol)
    ensures Get(a, QtyCol) == Get(b, QtyCol) && Get(a, UnitPriceCol) == Get(b, UnitPriceCol)
    ensures Get(a, FeesCol) == Get(b, FeesCol) && Get(a, PlatformCol) == Get(b, PlatformCol)
    ensures Get(a, TrackingCodeCol) == Get(b, TrackingCodeCol)
  {
  }

  lemma SameSell(a: Row, b: Row)
    requires SameCells(a, b)
    ensures DecSell(a) == DecSell(b)
  {
    SameSellCells(a, b);
  }

  lemma SameSplit(a: Row, b: Row)
    requires SameCells(a, b)
    ensures DecSplit(a) == DecSplit(b)
  {
  }

  lemma SameReversal(a: Row, b: Row)
    requires SameCells(a, b)
    ensures DecReversal(a) == DecReversal(b)
  {
  }

  lemma ChooseNone(a: Row, b: Row)
    requires Get(a, KindCol) == Get(b, KindCol)
    requires Get(a, KindCol) !in {"Buy", "Vest", "Sell", "Split", "Reversal"}
    ensures DecKind(a) == DecKind(b)
  {
  }

  lemma SameKind(a: Row, b: Row)
    requires SameCells(a, b)
    ensures DecKind(a) == DecKind(b)
  {
    var k := Get(a, KindCol);
    assert k == Get(b, KindCol);
    if k == "Buy" { ChooseBuy(a); ChooseBuy(b); SameBuy(a, b); }
    else if k == "Vest" { ChooseVest(a); ChooseVest(b); SameVest(a, b); }
    else if k == "Sell" { ChooseSell(a); ChooseSell(b); SameSell(a, b); }
    else if k == "Split" { ChooseSplit(a); ChooseSplit(b); SameSplit(a, b); }
    else if k == "Reversal" { ChooseReversal(a); ChooseReversal(b); SameReversal(a, b); }
    else { ChooseNone(a, b); }
  }

  /** A row that reads as some event and matches `e`'s row but for the sequence number reads
      as `e` under its own number. */
  lemma {:induction false} SkippedRowIsEvent(e: Event, stored: Row, n: nat)
    requires RowToLedger(stored).Success? && RowToLedger(stored).value.seqNo == n
    requires SansSeq(stored) == SansSeq(LedgerToRow(e))
    requires WellTyped(WithSeq(e, n)) && Storable(WithSeq(e, n))
    ensures RowToLedger(stored) == Success(WithSeq(e, n))
  {
    var row := LedgerToRow(WithSeq(e, n));
    ContentIgnoresSeq(e, n);
    SansSeqCells(stored, row);
    SameKind(stored, row);
    LedgerRowRoundTrip(WithSeq(e, n));
    assert Get(stored, EventIdCol) == Get(row, EventIdCol) && Get(stored, DateCol) == Get(row, DateCol);
  }

  lemma ReadSeqFits(row: Row)
    requires RowToLedger(row).Success?
    ensures FitsI64(RowToLedger(row).value.seqNo)
  {
  }
}
