/** An import from end to end: the reconstruction committed, however often it is interrupted,
    and loaded back. */
module Imports {
  import opened Basics
  import opened Keys
  import opened Apportion
  import opened Ledger
  import opened Escape
  import opened Rows
  import opened TaxRows
  import opened Idempotency
  import opened Integrity
  import opened Logs
  import opened Stores
  import R = Reconstructions
  import C = Commits

  /** Every event can be stored under an id of its own. */
  ghost predicate StorableItems(items: seq<R.Item>) {
    && |items| < ROOM
    && (forall i :: 0 <= i < |items| ==> StorableEvent(items[i].event))
    && (forall i, j :: 0 <= i < j < |items| ==> items[i].event.id != items[j].event.id)
  }

  predicate StorableEvent(e: Event) {
    e.id != "" && StorableKind(e.kind) && WellTyped(e.(seqNo := 0))
  }

  /** Tax events in order, each storable under an id of its own. */
  ghost predicate StorableTaxes(taxes: seq<TaxEvent>, id: TaxEvent -> string) {
    && |taxes| < ROOM
    && (forall i :: 0 <= i < |taxes| ==> StorableTax(taxes[i], id, i + 1))
    && (forall i, j :: 0 <= i < j < |taxes| ==> id(taxes[i]) != id(taxes[j]))
  }

  predicate StorableTax(e: TaxEvent, id: TaxEvent -> string, n: nat) {
    e.seqNo == n && id(e) != "" && WellTypedTax(e) && StorableTaxKind(e.kind)
  }

  // --- The reconstruction can be committed. ---

  lemma {:induction false} NoReversals(rows: seq<R.ActionRead>)
    requires forall i :: 0 <= i < |rows| && rows[i].Opens? ==> !rows[i].item.event.kind.Reversal?
    ensures forall i :: 0 <= i < |R.OpenItems(rows)| ==> !R.OpenItems(rows)[i].event.kind.Reversal?
  {
    if rows != [] { NoReversals(rows[..|rows| - 1]); }
  }

  lemma NothingReversed(wb: R.Legacy)
    ensures forall i :: 0 <= i < |R.Items(wb)| ==> !R.Items(wb)[i].event.kind.Reversal?
  {
    NoReversals(R.ActionReads(wb));
  }

  /** Each event of the ledger is that of an item, numbered by its place. */
  lemma LedgerAt(items: seq<R.Item>, i: nat) returns (k: nat)
    requires i < |items|
    ensures k == Sort(R.ItemKeys(items))[i].idx < |items|
    ensures R.Numbered(R.Arranged(items))[i] == items[k].event.(seqNo := i + 1)
  {
    R.ArrangedAt(items, i);
    k := Sort(R.ItemKeys(items))[i].idx;
  }

  lemma {:induction false} LedgerIds(items: seq<R.Item>, i: nat, j: nat)
    requires StorableItems(items) && i < j < |items|
    ensures R.Numbered(R.Arranged(items))[i].id != R.Numbered(R.Arranged(items))[j].id
  {
    SortDistinct(R.ItemKeys(items));
    var k := LedgerAt(items, i);
    var m := LedgerAt(items, j);
  }

  lemma LedgerEvent(items: seq<R.Item>, i: nat)
    requires StorableItems(items) && i < |items|
    ensures var e := R.Numbered(R.Arranged(items))[i]; e.seqNo == i + 1 && WellTyped(e) && Storable(e)
  {
    var k := LedgerAt(items, i);
    assert StorableEvent(items[k].event);
  }

  lemma {:induction false} LedgerCommittable(items: seq<R.Item>, taxes: seq<TaxEvent>, id: TaxEvent -> string)
    requires StorableItems(items) && StorableTaxes(taxes, id)
    ensures C.Committable(R.Numbered(R.Arranged(items)), taxes, id)
  {
    var ledger := R.Numbered(R.Arranged(items));
    forall i | 0 <= i < |ledger| ensures ledger[i].id != "" { LedgerEvent(items, i); }
    forall i, j | 0 <= i < j < |ledger| ensures ledger[i].id != ledger[j].id { LedgerIds(items, i, j); }
    assert forall i :: 0 <= i < |taxes| ==> StorableTax(taxes[i], id, i + 1);
  }

  // --- And what is committed loads. ---

  function Filed(taxes: seq<TaxEvent>, id: TaxEvent -> string): (r: seq<(TaxEvent, string)>)
    ensures |r| == |taxes| && forall i :: 0 <= i < |taxes| ==> r[i] == (taxes[i], id(taxes[i]))
  {
    seq(|taxes|, i requires 0 <= i < |taxes| => (taxes[i], id(taxes[i])))
  }

  lemma TaxRowReads(taxes: seq<TaxEvent>, id: TaxEvent -> string, i: nat)
    requires StorableTaxes(taxes, id) && i < |taxes|
    ensures RowToTax(C.TaxRowAt(taxes, id, i)) == Success(Filed(taxes, id)[i])
  {
    assert StorableTax(taxes[i], id, i + 1);
    assert WithTaxSeq(taxes[i], i + 1) == taxes[i];
    TaxRowRoundTrip(taxes[i], id(taxes[i]));
  }

  lemma {:induction false} TaxesLoad(taxes: seq<TaxEvent>, id: TaxEvent -> string)
    requires StorableTaxes(taxes, id)
    ensures DecodeTax(C.TaxTabRows(taxes, id)) == Success(Filed(taxes, id))
    ensures Dense(TaxSeqNos(Filed(taxes, id)))
  {
    var rows := C.TaxTabRows(taxes, id);
    forall i | 0 <= i < |rows| ensures RowToTax(rows[i]) == Success(Filed(taxes, id)[i]) { TaxRowReads(taxes, id, i); }
    DecodesRowByRow(rows, Filed(taxes, id), RowToTax);
    var seqs := TaxSeqNos(Filed(taxes, id));
    forall i | 0 <= i < |seqs| ensures seqs[i] == i + 1 { assert StorableTax(taxes[i], id, i + 1); }
  }

  lemma {:induction false} ReconstructionLoads(wb: R.Legacy, taxes: seq<TaxEvent>, id: TaxEvent -> string)
    requires StorableItems(R.Items(wb)) && StorableTaxes(taxes, id)
    ensures
      var logs := LogsOf(C.LedgerRows(R.ReconstructedLedger(wb)), C.TaxTabRows(taxes, id));
      logs.Success? && logs.value.ledger == R.ReconstructedLedger(wb)
  {
    var items, ledger := R.Items(wb), R.ReconstructedLedger(wb);
    forall i | 0 <= i < |ledger|
      ensures ledger[i].seqNo == i + 1 && WellTyped(ledger[i]) && Storable(ledger[i]) && !ledger[i].kind.Reversal?
    {
      LedgerEvent(items, i);
      NothingReversed(wb);
      var k := LedgerAt(items, i);
    }
    TaxesLoad(taxes, id);
    C.CommittedLoads(ledger, C.TaxTabRows(taxes, id));
  }

  // --- And nothing stands in its way. ---

  lemma {:induction false} BeginningLoads(ledger: seq<Event>, a: nat)
    requires a <= |ledger| && forall i :: 0 <= i < |ledger| ==>
      ledger[i].seqNo == i + 1 && WellTyped(ledger[i]) && Storable(ledger[i]) && !ledger[i].kind.Reversal?
    ensures C.LedgerLoadsAt(C.LedgerRows(ledger), a, [])
  {
    assert C.LedgerRows(ledger)[..a] == C.LedgerRows(ledger[..a]);
    assert Dense(TaxSeqNos([]));
    C.CommittedLoads(ledger[..a], []);
  }

  lemma {:induction false} TaxBeginningLoads(ledger: seq<Event>, taxes: seq<TaxEvent>, id: TaxEvent -> string, b: nat)
    requires StorableTaxes(taxes, id) && b <= |taxes| && forall i :: 0 <= i < |ledger| ==>
      ledger[i].seqNo == i + 1 && WellTyped(ledger[i]) && Storable(ledger[i]) && !ledger[i].kind.Reversal?
    ensures C.TaxLoadsAt(C.LedgerRows(ledger), C.TaxTabRows(taxes, id), b)
  {
    assert C.TaxTabRows(taxes, id)[..b] == C.TaxTabRows(taxes[..b], id);
    forall i | 0 <= i < b ensures StorableTax(taxes[..b][i], id, i + 1) { assert StorableTax(taxes[i], id, i + 1); }
    TaxesLoad(taxes[..b], id);
    C.CommittedLoads(ledger, C.TaxTabRows(taxes[..b], id));
  }

  lemma LedgerIdIsItems(items: seq<R.Item>, i: nat) returns (k: nat)
    requires i < |items|
    ensures k < |items| && R.Numbered(R.Arranged(items))[i].id == items[k].event.id
  {
    k := LedgerAt(items, i);
  }

  /** No tax event has the id of a ledger event. */
  ghost predicate OwnTaxIds(items: seq<R.Item>, taxes: seq<TaxEvent>, id: TaxEvent -> string) {
    forall i, j :: 0 <= i < |items| && 0 <= j < |taxes| ==> items[i].event.id != id(taxes[j])
  }

  lemma {:induction false} NoTaxIdOnLedger(items: seq<R.Item>, taxes: seq<TaxEvent>, id: TaxEvent -> string, j: nat)
    requires StorableItems(items) && StorableTaxes(taxes, id) && OwnTaxIds(items, taxes, id) && j < |taxes|
    ensures C.FreeOn(C.LedgerRows(R.Numbered(R.Arranged(items))), C.TaxTabRows(taxes, id)[j])
  {
    var ledger := R.Numbered(R.Arranged(items));
    LedgerCommittable(items, taxes, id);
    C.LedgerRowsDistinguished(ledger);
    C.TaxRowsDistinguished(taxes, id);
    forall i | 0 <= i < |ledger|
      ensures Get(C.LedgerRows(ledger)[i], EventIdCol) != Get(C.TaxTabRows(taxes, id)[j], EventIdCol)
    {
      var k := LedgerIdIsItems(items, i);
    }
  }

  lemma {:induction false} ReconstructionClear(wb: R.Legacy, taxes: seq<TaxEvent>, id: TaxEvent -> string)
    requires StorableItems(R.Items(wb)) && StorableTaxes(taxes, id) && OwnTaxIds(R.Items(wb), taxes, id)
    ensures C.CommitClear(R.ReconstructedLedger(wb), taxes, id, [], [])
  {
    var items, ledger := R.Items(wb), R.ReconstructedLedger(wb);
    var rows, taxRows := C.LedgerRows(ledger), C.TaxTabRows(taxes, id);
    forall i | 0 <= i < |ledger|
      ensures ledger[i].seqNo == i + 1 && WellTyped(ledger[i]) && Storable(ledger[i]) && !ledger[i].kind.Reversal?
    {
      LedgerEvent(items, i);
      NothingReversed(wb);
      var k := LedgerAt(items, i);
    }
    forall a | 0 <= a <= |rows| ensures C.LedgerLoadsAt(rows, a, []) { BeginningLoads(ledger, a); }
    forall b | 0 <= b <= |taxRows| ensures C.TaxLoadsAt(rows, taxRows, b) { TaxBeginningLoads(ledger, taxes, id, b); }
    forall j | 0 <= j < |taxRows| ensures C.FreeOn(rows, taxRows[j]) { NoTaxIdOnLedger(items, taxes, id, j); }
  }

  /** Reconstructs the legacy rows and commits them, again and again until a commit finishes or
      the attempts run out. Once one has finished, loading gives the reconstruction, in order,
      whatever the earlier ones left. If no fault is met, the first attempt finishes. */
  method Import(store: Store, wb: R.Legacy, taxes: seq<TaxEvent>, attempts: nat)
    returns (r: Result<bool, R.ImportError>)
    requires store.Valid() && store.sheets.ledger == [] && store.sheets.tax == []
    requires StorableItems(R.Items(wb)) && StorableTaxes(taxes, store.taxEventId)
    modifies store, store.sheets
    ensures r.Success? <==> R.EveryVestPriced(wb)
    ensures r.Failure? ==> store.sheets.ledger == [] && store.sheets.tax == []
    ensures r.Success? && r.value ==>
      var logs := LogsOf(store.sheets.ledger, store.sheets.tax);
      logs.Success? && logs.value.ledger == R.ReconstructedLedger(wb)
    ensures r.Success? && attempts > 0 && OwnTaxIds(R.Items(wb), taxes, store.taxEventId) && store.sheets.Calm() ==>
      r.value
  {
    var read := R.Reconstruct(wb);
    if read.Failure? { return Failure(read.error); }
    LedgerCommittable(R.Items(wb), taxes, store.taxEventId);
    ReconstructionLoads(wb, taxes, store.taxEventId);
    if OwnTaxIds(R.Items(wb), taxes, store.taxEventId) { ReconstructionClear(wb, taxes, store.taxEventId); }
    var done := C.CommitRepeatedly(store, read.value.ledger, taxes, attempts);
    return Success(done);
  }
}
