/** The workbook and the network in front of it: two append-only tabs that may be missing,
    calls that may fail before or after taking effect, appends that may vanish or land
    altered, and rows other writers land between calls while nobody holds the write lock. */
module Workbook {
  import opened Basics
  import opened Text
  import opened Escape
  import opened Rows

  datatype Tab = LedgerTab | TaxTab

  datatype LockAnswer = Granted | HeldByOther | Unwritable

  /** The cheap fingerprint cells; an absent one is missing or in error. */
  datatype Probe = Probe(count: Option<int>, maxSeq: Option<int>, checksum: Option<int>)

  /** The cells that are there are those of the rows. */
  predicate ProbeOf(p: Probe, rows: seq<Row>, checksum: seq<Row> -> int) {
    && (p.count.Some? ==> p.count.value == |rows|)
    && (p.maxSeq.Some? ==> p.maxSeq.value == LargestSeq(rows))
    && (p.checksum.Some? ==> p.checksum.value == checksum(rows))
  }

  /** Written as one row, landed as another that kept its sequence number and id. */
  predicate SameStamp(row: Row, landed: Row) {
    Get(row, SeqCol) == Get(landed, SeqCol) && Get(row, EventIdCol) == Get(landed, EventIdCol)
  }

  function LargestSeq(rows: seq<Row>): int {
    if rows == [] then 0
    else
      var rest := LargestSeq(rows[..|rows| - 1]);
      match ParseI64(Trim(Get(rows[|rows| - 1], SeqCol)))
      case None => rest
      case Some(v) => if v > rest then v else rest
  }

  class Sheets {
    var ledger: seq<Row>
    var tax: seq<Row>
    var ledgerMissing: bool
    var taxMissing: bool
    /** The write lock is held, so no other writer appends. */
    var exclusive: bool
    /** Faults met: calls that failed, appends lost or landed altered, lock requests refused. */
    ghost var faults: nat
    /** The weighted checksum formula of a tab. */
    const checksum: seq<Row> -> int

    /** A workbook never written to: neither tab exists. */
    constructor (checksum: seq<Row> -> int)
      ensures Coherent() && ledger == [] && tax == [] && !exclusive
    {
      ledger, tax, ledgerMissing, taxMissing, exclusive, faults := [], [], true, true, false, 0;
      this.checksum := checksum;
    }

    /** A missing tab holds no rows. */
    ghost predicate Coherent()
      reads this
    {
      (ledgerMissing ==> ledger == []) && (taxMissing ==> tax == [])
    }

    function Rows(tab: Tab): seq<Row>
      reads this
    {
      if tab.LedgerTab? then ledger else tax
    }

    function Missing(tab: Tab): bool
      reads this
    {
      if tab.LedgerTab? then ledgerMissing else taxMissing
    }

    /** No fault was met. */
    twostate predicate Calm()
      reads this
    {
      faults == old(faults)
    }

    /** Nothing shrinks, and nothing moves while the lock is held. */
    twostate predicate Grown()
      reads this
    {
      && old(ledger) <= ledger && old(tax) <= tax && old(faults) <= faults
      && exclusive == old(exclusive)
      && (old(exclusive) ==>
            && ledger == old(ledger) && tax == old(tax)
            && ledgerMissing == old(ledgerMissing) && taxMissing == old(taxMissing))
    }

    /** Rows other writers land before a call, if the lock leaves them free to. */
    method Arrivals()
      requires Coherent()
      modifies this
      ensures Coherent() && Grown() && Calm()
    {
      if !exclusive {
        var moreLedger: seq<Row>, moreTax: seq<Row> := *, *;
        ledger, tax := ledger + moreLedger, tax + moreTax;
        ledgerMissing := ledgerMissing && ledger == [];
        taxMissing := taxMissing && tax == [];
      }
    }

    method ReadRows(tab: Tab) returns (r: Result<seq<Row>, StoreError>)
      requires Coherent()
      modifies this
      ensures Coherent() && Grown()
      ensures r.Success? ==> r.value == Rows(tab)
      ensures r.Failure? ==> (r.error == Unreachable && !Calm()) || (r.error == TabMissing && Missing(tab))
    {
      Arrivals();
      if * {
        faults := faults + 1;
        return Failure(Unreachable);
      }
      if Missing(tab) { return Failure(TabMissing); }
      return Success(Rows(tab));
    }

    method ReadProbe(tab: Tab) returns (r: Result<Probe, StoreError>)
      requires Coherent()
      modifies this
      ensures Coherent() && Grown()
      ensures r.Success? ==> r.value.count == None || r.value.count == Some(|Rows(tab)|)
      ensures r.Success? ==> ProbeOf(r.value, Rows(tab), checksum)
      ensures r.Failure? ==> (r.error == Unreachable && !Calm()) || (r.error == TabMissing && Missing(tab))
    {
      Arrivals();
      if * {
        faults := faults + 1;
        return Failure(Unreachable);
      }
      if Missing(tab) { return Failure(TabMissing); }
      if * { return Success(Probe(None, None, None)); }
      return Success(Probe(Some(|Rows(tab)|), Some(LargestSeq(Rows(tab))), Some(checksum(Rows(tab)))));
    }

    /** Appends under the lock. The row may not land, or land altered, whatever is reported;
        only a missing tab is reported truthfully. */
    method AppendRow(tab: Tab, row: Row) returns (r: Result<(), StoreError>, landed: Option<Row>)
      requires Coherent() && exclusive
      modifies this
      ensures Coherent() && exclusive && old(faults) <= faults
      ensures ledger == old(ledger) + (if tab.LedgerTab? && landed.Some? then [landed.value] else [])
      ensures tax == old(tax) + (if tab.TaxTab? && landed.Some? then [landed.value] else [])
      ensures landed.Some? ==> SameStamp(row, landed.value)
      ensures old(Missing(tab)) ==> landed.None? && r.Failure?
      ensures r.Failure? ==> r.error == Unreachable || (r.error == TabMissing && landed.None?)
      ensures Calm() ==> if old(Missing(tab)) then r == Failure(TabMissing) else r.Success? && landed == Some(row)
    {
      landed := None;
      if * {
        faults := faults + 1;
        return Failure(Unreachable), None;
      }
      if Missing(tab) { return Failure(TabMissing), None; }
      if * {
        faults := faults + 1;
        return Success(()), None;
      }
      var cells := row;
      if * {
        faults := faults + 1;
        cells := *;
        cells := Set(Set(cells, SeqCol, Get(row, SeqCol)), EventIdCol, Get(row, EventIdCol));
      }
      if tab.LedgerTab? { ledger := ledger + [cells]; } else { tax := tax + [cells]; }
      landed := Some(cells);
      if * {
        faults := faults + 1;
        return Failure(Unreachable), landed;
      }
      return Success(()), landed;
    }

    method EnsureTab(tab: Tab) returns (r: Result<(), StoreError>)
      requires Coherent() && exclusive
      modifies this
      ensures Coherent() && exclusive && ledger == old(ledger) && tax == old(tax) && old(faults) <= faults
      ensures r.Success? ==> !Missing(tab)
      ensures r.Failure? ==> r.error == Unreachable && !Calm()
    {
      if * {
        faults := faults + 1;
        return Failure(Unreachable);
      }
      if tab.LedgerTab? { ledgerMissing := false; } else { taxMissing := false; }
      return Success(());
    }

    /** Asks for the write lock, which another writer may hold or no one may be able to write. */
    method AskLock() returns (answer: LockAnswer)
      modifies `faults
      ensures old(faults) <= faults && (answer.Granted? <==> Calm())
    {
      if * { return Granted; }
      faults := faults + 1;
      if * { return HeldByOther; }
      return Unwritable;
    }
  }
}
