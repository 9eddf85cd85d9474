/** The store: append with read-back, idempotent retry, full load and the cached mirror,
    over a workbook that can fail at any call. */
module Stores {
  import opened Basics
  import opened Text
  import opened Apportion
  import opened Ledger
  import opened Escape
  import opened Rows
  import opened TaxRows
  import opened Integrity
  import opened Workbook
  import opened Logs
  import opened Idempotency

  datatype AppendOutcome = AppendOutcome(eventId: string, seqNo: nat, idempotentSkip: bool)

  /** Nothing landed, or one row did: with the next number and an id that was on neither tab. */
  ghost predicate LandedAtMost(before: seq<Row>, after: seq<Row>, other: seq<Row>, id: string) {
    after == before || LandedOne(before, after, other, id)
  }

  ghost predicate LandedOne(before: seq<Row>, after: seq<Row>, other: seq<Row>, id: string) {
    && |after| == |before| + 1 && before <= after
    && Get(after[|before|], SeqCol) == IntText(|before| + 1)
    && Get(after[|before|], EventIdCol) == id
    && !HasId(before, id) && !HasId(other, id)
  }

  /** What a confirmed append means: a fresh row that is the stamped event's, or an untouched
      tab already holding a row with the event's content under its own number. */
  ghost predicate Confirmed(e: Event, before: seq<Row>, after: seq<Row>, out: AppendOutcome) {
    && out.eventId == e.id
    && if out.idempotentSkip then
         after == before && exists i :: 0 <= i < |before| && StoredAs(e, before[i], out.seqNo)
       else
         out.seqNo == |before| + 1 && after == before + [LedgerToRow(WithSeq(e, |before| + 1))]
  }

  predicate StoredAs(e: Event, row: Row, n: nat) {
    && SansSeq(row) == SansSeq(LedgerToRow(e))
    && RowToLedger(row).Success? && RowToLedger(row).value.seqNo == n
  }

  ghost predicate ConfirmedTax(e: TaxEvent, id: string, before: seq<Row>, after: seq<Row>, out: AppendOutcome) {
    && out.eventId == id
    && if out.idempotentSkip then
         after == before && exists i :: 0 <= i < |before| && StoredAsTax(e, id, before[i], out.seqNo)
       else
         out.seqNo == |before| + 1 && after == before + [TaxToRow(WithTaxSeq(e, |before| + 1), id)]
  }

  predicate StoredAsTax(e: TaxEvent, id: string, row: Row, n: nat) {
    && SansSeq(row) == SansSeq(TaxToRow(e, id))
    && RowToTax(row).Success? && RowToTax(row).value.0.seqNo == n
  }

  ghost predicate Stored(e: Event, rows: seq<Row>) {
    exists i, n: nat :: 0 <= i < |rows| && StoredAs(e, rows[i], n)
  }

  ghost predicate StoredTax(e: TaxEvent, id: string, rows: seq<Row>) {
    exists i, n: nat :: 0 <= i < |rows| && StoredAsTax(e, id, rows[i], n)
  }

  /** What an append comes to if no fault is met: with its id taken it succeeds exactly if the
      event is stored already, and else the event's row lands and it succeeds exactly if the tabs
      then load. */
  ghost predicate Settles(e: Event, before: seq<Row>, tax: seq<Row>, after: seq<Row>,
                          r: Result<AppendOutcome, StoreError>)
  {
    if HasId(before, e.id) || HasId(tax, e.id) then
      after == before && (r.Success? <==> Stored(e, before)) && (r.Failure? ==> r.error == WriteVerifyMismatch)
    else
      after == before + [LedgerToRow(WithSeq(e, |before| + 1))] && (r.Success? <==> LogsOf(after, tax).Success?)
  }

  ghost predicate SettlesTax(e: TaxEvent, id: string, ledger: seq<Row>, before: seq<Row>, after: seq<Row>,
                             r: Result<AppendOutcome, StoreError>)
  {
    if HasId(before, id) || HasId(ledger, id) then
      after == before && (r.Success? <==> StoredTax(e, id, before)) && (r.Failure? ==> r.error == WriteVerifyMismatch)
    else
      after == before + [TaxToRow(WithTaxSeq(e, |before| + 1), id)] && (r.Success? <==> LogsOf(ledger, after).Success?)
  }

  /** The event's id is taken, and not by the event. */
  ghost predicate Blocked(e: Event, ledger: seq<Row>, tax: seq<Row>) {
    (HasId(ledger, e.id) || HasId(tax, e.id)) && !Stored(e, ledger)
  }

  ghost predicate BlockedAt(e: Event, before: seq<Row>, after: seq<Row>, tax: seq<Row>) {
    after == before && Blocked(e, before, tax)
  }

  /** Events of the block before the blocked one are accounted for, and the rest is not begun. */
  ghost predicate StoppedAt(events: seq<Event>, start: seq<Row>, ledger: seq<Row>, tax: seq<Row>) {
    exists n: nat, outs ::
      n < |events| && BlockConfirmed(events, outs, n, start, ledger) && Blocked(events[n], ledger, tax)
  }

  ghost predicate AnyBlocked(events: seq<Event>, ledger: seq<Row>, tax: seq<Row>) {
    exists i :: 0 <= i < |events| && Blocked(events[i], ledger, tax)
  }

  /** Events with ids of their own that neither tab has. */
  ghost predicate FreshIds(events: seq<Event>, ledger: seq<Row>, tax: seq<Row>) {
    && (forall i :: 0 <= i < |events| ==> !HasId(ledger, events[i].id) && !HasId(tax, events[i].id))
    && (forall i, j :: 0 <= i < j < |events| ==> events[i].id != events[j].id)
  }

  lemma StoredIsFiled(e: Event, row: Row, n: nat)
    requires StoredAs(e, row, n)
    ensures Get(row, EventIdCol) == e.id
  {
    SansSeqCells(row, LedgerToRow(e));
    LedgerRowCell(e, EventIdCol);
  }

  lemma StoredTaxIsFiled(e: TaxEvent, id: string, row: Row, n: nat)
    requires StoredAsTax(e, id, row, n)
    ensures Get(row, EventIdCol) == id
  {
    SansSeqCells(row, TaxToRow(e, id));
    TaxCells(e, id);
  }

  /** The row an id leads to decides whether the event is stored. */
  lemma TakenIsStored(e: Event, ledger: seq<Row>, tax: seq<Row>, tab: Tab, row: Row)
    requires Sound(ledger, tax)
    requires Get(row, EventIdCol) == e.id && row in if tab.LedgerTab? then ledger else tax
    ensures HasId(ledger, e.id) || HasId(tax, e.id)
    ensures Stored(e, ledger) <==> tab.LedgerTab? && exists n: nat :: StoredAs(e, row, n)
    ensures tab.LedgerTab? && LogsOf(ledger, tax).Success? ==> RowToLedger(row).Success?
  {
    if Stored(e, ledger) {
      var i, n: nat :| 0 <= i < |ledger| && StoredAs(e, ledger[i], n);
      StoredIsFiled(e, ledger[i], n);
      OneRowPerId(ledger, tax, e.id, LedgerTab, ledger[i], tab, row);
    }
    if tab.LedgerTab? && LogsOf(ledger, tax).Success? {
      var i :| 0 <= i < |ledger| && ledger[i] == row;
      DecodedAt(ledger, RowToLedger, i);
    }
  }

  lemma TakenIsStoredTax(e: TaxEvent, id: string, ledger: seq<Row>, tax: seq<Row>, tab: Tab, row: Row)
    requires Sound(ledger, tax)
    requires Get(row, EventIdCol) == id && row in if tab.LedgerTab? then ledger else tax
    ensures HasId(ledger, id) || HasId(tax, id)
    ensures StoredTax(e, id, tax) <==> tab.TaxTab? && exists n: nat :: StoredAsTax(e, id, row, n)
    ensures tab.TaxTab? && LogsOf(ledger, tax).Success? ==> RowToTax(row).Success?
  {
    if StoredTax(e, id, tax) {
      var i, n: nat :| 0 <= i < |tax| && StoredAsTax(e, id, tax[i], n);
      StoredTaxIsFiled(e, id, tax[i], n);
      OneRowPerId(ledger, tax, id, TaxTab, tax[i], tab, row);
    }
    if tab.TaxTab? && LogsOf(ledger, tax).Success? {
      var i :| 0 <= i < |tax| && tax[i] == row;
      DecodedAt(tax, RowToTax, i);
    }
  }

  /** The fingerprint is that of the rows: how many, the largest number, the checksum. */
  predicate Describes(fp: Fingerprint, rows: seq<Row>, checksum: seq<Row> -> int) {
    fp.count == |rows| && fp.maxSeq == LargestSeq(rows) && fp.checksum == checksum(rows)
  }

  /** Rows a tab has room for before numbers stop fitting. */
  const ROOM: nat := 0x7fff_ffff_ffff_fffe

  class Store {
    const sheets: Sheets
    const hashLedger: seq<Event> -> int
    const hashTax: seq<(TaxEvent, string)> -> int
    /** The tax event's id, a hash of its content. */
    const taxEventId: TaxEvent -> string
    var cache: Option<Cached>
    /** The rows the cached logs were read from, and those there when they were counted. */
    ghost var readLedger: seq<Row>
    ghost var readTax: seq<Row>
    ghost var probedLedger: seq<Row>
    ghost var probedTax: seq<Row>

    constructor (sheets: Sheets, hashLedger: seq<Event> -> int, hashTax: seq<(TaxEvent, string)> -> int,
                 taxEventId: TaxEvent -> string)
      requires sheets.Coherent()
      ensures Valid() && this.sheets == sheets && cache.None?
      ensures this.hashLedger == hashLedger && this.hashTax == hashTax && this.taxEventId == taxEventId
    {
      this.sheets, this.hashLedger, this.hashTax, this.taxEventId := sheets, hashLedger, hashTax, taxEventId;
      cache := None;
    }

    /** The cache mirrors a full load of some earlier rows, and counts rows at least as late. */
    ghost predicate Mirrors()
      reads this, sheets
    {
      cache.Some? ==>
        && LogsOf(readLedger, readTax) == Success(cache.value.logs)
        && readLedger <= probedLedger <= sheets.ledger && readTax <= probedTax <= sheets.tax
        && (cache.value.ledgerFp.count == |probedLedger| || cache.value.ledgerFp.count == 0)
        && (cache.value.taxFp.count == |probedTax| || cache.value.taxFp.count == 0)
        && cache.value.ledgerFp.contentHash == hashLedger(cache.value.logs.ledger)
        && cache.value.taxFp.contentHash == hashTax(cache.value.logs.tax)
    }

    ghost predicate Valid()
      reads this, sheets
    {
      sheets.Coherent() && Mirrors()
    }

    /** A full load of the tabs as they are succeeds. */
    ghost predicate Loads()
      reads sheets
    {
      LogsOf(sheets.ledger, sheets.tax).Success?
    }

    /** No row landed between reading the logs and counting them. */
    ghost predicate ReadWhole()
      reads this
    {
      cache.Some? ==> readLedger == probedLedger && readTax == probedTax
    }

    // --- Reading, a missing tab counting as empty. ---

    method ReadRowsCold(tab: Tab) returns (r: Result<seq<Row>, StoreError>)
      requires Valid()
      modifies sheets
      ensures Valid() && sheets.Grown()
      ensures r.Success? ==> r.value == sheets.Rows(tab)
      ensures r.Failure? ==> r.error == Unreachable && !sheets.Calm()
    {
      r := sheets.ReadRows(tab);
      if r.Failure? && r.error == TabMissing { return Success([]); }
    }

    method ReadProbeCold(tab: Tab) returns (r: Result<Probe, StoreError>)
      requires Valid()
      modifies sheets
      ensures Valid() && sheets.Grown()
      ensures r.Success? ==> r.value.count == None || r.value.count == Some(|sheets.Rows(tab)|)
      ensures r.Success? ==> ProbeOf(r.value, sheets.Rows(tab), sheets.checksum)
      ensures r.Failure? ==> r.error == Unreachable && !sheets.Calm()
    {
      r := sheets.ReadProbe(tab);
      if r.Failure? && r.error == TabMissing { return Success(Probe(None, None, None)); }
    }

    // --- Currency. ---

    /** Whether the cheap probe shows a change since the mirror was built. */
    method CacheIsStale(tab: Tab) returns (r: Result<bool, StoreError>)
      requires Valid()
      modifies sheets
      ensures Valid() && sheets.Grown()
      ensures r == Success(false) ==> cache.Some?
      ensures r == Success(false) && tab.LedgerTab? ==> sheets.ledger == probedLedger
      ensures r == Success(false) && tab.TaxTab? ==> sheets.tax == probedTax
      ensures r == Success(false) ==>
        Describes(if tab.LedgerTab? then cache.value.ledgerFp else cache.value.taxFp, sheets.Rows(tab), sheets.checksum)
      ensures r.Failure? ==> !sheets.Calm()
    {
      if cache.None? { return Success(true); }
      var stored := if tab.LedgerTab? then cache.value.ledgerFp else cache.value.taxFp;
      var probe := ReadProbeCold(tab);
      if probe.Failure? { return Failure(probe.error); }
      var p := probe.value;
      if p.count.None? || p.maxSeq.None? || p.checksum.None? { return Success(true); }
      return Success(p.count.value != stored.count || p.maxSeq.value != stored.maxSeq
                     || p.checksum.value != stored.checksum);
    }

    /** Whether either probe shows a change; if neither does, the tabs held the rows counted
        when each was probed. */
    method EitherIsStale() returns (r: Result<bool, StoreError>, ghost seenLedger: seq<Row>, ghost seenTax: seq<Row>)
      requires Valid()
      modifies sheets
      ensures Valid() && sheets.Grown()
      ensures r == Success(false) ==> cache.Some? && seenLedger == probedLedger && seenTax == probedTax
      ensures r == Success(false) ==>
        old(sheets.ledger) <= seenLedger <= sheets.ledger && old(sheets.tax) <= seenTax <= sheets.tax
      ensures r.Failure? ==> !sheets.Calm()
    {
      seenLedger, seenTax := [], [];
      r := CacheIsStale(LedgerTab);
      if r != Success(false) { return; }
      seenLedger := sheets.ledger;
      r := CacheIsStale(TaxTab);
      seenTax := sheets.tax;
    }

    lemma ServedIsCurrentIff(logs: EventLogs, oldLedger: seq<Row>, oldTax: seq<Row>, ledger: seq<Row>, tax: seq<Row>)
      requires LogsOf(oldLedger, oldTax) == Success(logs) && oldLedger <= ledger && oldTax <= tax
      ensures LogsOf(ledger, tax) == Success(logs) <==> oldLedger == ledger && oldTax == tax
    {
      if LogsOf(ledger, tax).Success? { OlderLogsAreCurrentIff(oldLedger, oldTax, ledger, tax); }
    }

    /** Serves the mirror if the probe shows no change and rebuilds it otherwise. Rebuilt logs
        are those of a full load of rows the workbook held during the call. Served ones are the
        mirror's, over the rows counted when it was built, and they are that full load exactly
        when no row had landed between reading and counting. */
    method Refresh()
      returns (r: Result<EventLogs, StoreError>, ghost seenLedger: seq<Row>, ghost seenTax: seq<Row>,
               ghost served: bool)
      requires Valid()
      modifies this, sheets
      ensures Valid() && sheets.Grown()
      ensures r.Success? ==>
        old(sheets.ledger) <= seenLedger <= sheets.ledger && old(sheets.tax) <= seenTax <= sheets.tax
      ensures r.Success? && !served ==> LogsOf(seenLedger, seenTax) == r
      ensures r.Success? && served ==> old(cache).Some? && r == Success(old(cache).value.logs)
      ensures r.Success? && served ==> seenLedger == old(probedLedger) && seenTax == old(probedTax)
      ensures r.Success? && served ==> (LogsOf(seenLedger, seenTax) == r <==> old(ReadWhole()))
      ensures old(sheets.exclusive) && old(ReadWhole()) ==> ReadWhole()
      ensures r.Failure? && old(sheets.exclusive) ==> !sheets.Calm() || !Loads()
    {
      var stale;
      served := false;
      stale, seenLedger, seenTax := EitherIsStale();
      if stale.Failure? { return Failure(stale.error), [], [], false; }
      if stale.value {
        r, seenLedger, seenTax := Load();
      } else {
        r, served := Success(cache.value.logs), true;
        ServedIsCurrentIff(cache.value.logs, readLedger, readTax, seenLedger, seenTax);
      }
    }

    /** Run before a write, under the lock: on success the mirror counts the rows there now, and
        if it was read whole it is the full load of them. */
    method ConfirmCurrency() returns (r: Result<(), StoreError>)
      requires Valid() && sheets.exclusive
      modifies this, sheets
      ensures Valid() && sheets.Grown()
      ensures r.Success? ==> cache.Some? && probedLedger == sheets.ledger && probedTax == sheets.tax
      ensures r.Success? && old(ReadWhole()) ==> LogsOf(sheets.ledger, sheets.tax) == Success(cache.value.logs)
      ensures r.Failure? ==> !sheets.Calm() || !Loads()
    {
      var stale, _, _ := EitherIsStale();
      if stale.Failure? { return Failure(stale.error); }
      if stale.value {
        var loaded, _, _ := Load();
        if loaded.Failure? { return Failure(loaded.error); }
      }
      return Success(());
    }

    // --- Loading. ---

    /** Reads, deserializes and checks both tabs, leaving the mirror alone. */
    method LoadLogs() returns (r: Result<EventLogs, StoreError>, ghost seenLedger: seq<Row>, ghost seenTax: seq<Row>)
      requires Valid()
      modifies sheets
      ensures Valid() && sheets.Grown()
      ensures r.Success? ==>
        old(sheets.ledger) <= seenLedger <= sheets.ledger && old(sheets.tax) <= seenTax <= sheets.tax
      ensures r.Success? ==> LogsOf(seenLedger, seenTax) == r
      ensures r.Failure? && old(sheets.exclusive) ==> !sheets.Calm() || !Loads()
    {
      seenLedger, seenTax := [], [];
      var ledgerRows := ReadRowsCold(LedgerTab);
      if ledgerRows.Failure? { return Failure(ledgerRows.error), [], []; }
      seenLedger := sheets.ledger;
      var ledger := ReadLedgerLog(ledgerRows.value);
      if ledger.Failure? { return Failure(ledger.error), [], []; }
      var taxRows := ReadRowsCold(TaxTab);
      if taxRows.Failure? { return Failure(taxRows.error), [], []; }
      seenTax := sheets.tax;
      var tax := ReadTaxLog(taxRows.value);
      if tax.Failure? { return Failure(tax.error), [], []; }
      LogsAssembled(ledgerRows.value, taxRows.value, ledger.value, tax.value);
      r := Success(EventLogs(SortBySeq(ledger.value), SortTax(tax.value)));
    }

    lemma LogsAssembled(ledgerRows: seq<Row>, taxRows: seq<Row>, events: seq<Event>, taxes: seq<(TaxEvent, string)>)
      requires DecodeLedger(ledgerRows) == Success(events) && Loadable(events)
      requires DecodeTax(taxRows) == Success(taxes) && Dense(TaxSeqNos(taxes))
      ensures LogsOf(ledgerRows, taxRows) == Success(EventLogs(SortBySeq(events), SortTax(taxes)))
    {
    }

    /** Overwrites the mirror with logs just read, counting the rows afresh. */
    method RebuildCache(logs: EventLogs, ghost seenLedger: seq<Row>, ghost seenTax: seq<Row>)
      returns (r: Result<(), StoreError>)
      requires Valid()
      requires LogsOf(seenLedger, seenTax) == Success(logs)
      requires seenLedger <= sheets.ledger && seenTax <= sheets.tax
      modifies this, sheets
      ensures Valid() && sheets.Grown()
      ensures r.Success? ==> cache.Some? && cache.value.logs == logs && readLedger == seenLedger && readTax == seenTax
      ensures old(sheets.exclusive) && seenLedger == sheets.ledger && seenTax == sheets.tax && r.Success? ==>
        ReadWhole()
      ensures r.Failure? ==> cache == old(cache) && (old(ReadWhole()) ==> ReadWhole()) && !sheets.Calm()
    {
      var lp := ReadProbeCold(LedgerTab);
      if lp.Failure? { return Failure(lp.error); }
      ghost var countedLedger := sheets.ledger;
      var tp := ReadProbeCold(TaxTab);
      if tp.Failure? { return Failure(tp.error); }
      Adopt(logs, lp.value, tp.value, seenLedger, seenTax, countedLedger, sheets.tax);
      return Success(());
    }

    /** Overwrites the mirror with logs read from the rows seen and probes of the rows counted. */
    method Adopt(logs: EventLogs, lp: Probe, tp: Probe,
                 ghost seenLedger: seq<Row>, ghost seenTax: seq<Row>,
                 ghost countedLedger: seq<Row>, ghost countedTax: seq<Row>)
      requires sheets.Coherent() && LogsOf(seenLedger, seenTax) == Success(logs)
      requires seenLedger <= countedLedger <= sheets.ledger && seenTax <= countedTax <= sheets.tax
      requires lp.count == None || lp.count == Some(|countedLedger|)
      requires tp.count == None || tp.count == Some(|countedTax|)
      modifies this
      ensures Valid()
      ensures cache
        == Some(Cached(logs, FingerprintOf(lp, hashLedger(logs.ledger)), FingerprintOf(tp, hashTax(logs.tax))))
      ensures readLedger == seenLedger && readTax == seenTax && probedLedger == countedLedger && probedTax == countedTax
    {
      cache := Some(Cached(logs, FingerprintOf(lp, hashLedger(logs.ledger)), FingerprintOf(tp, hashTax(logs.tax))));
      readLedger, readTax, probedLedger, probedTax := seenLedger, seenTax, countedLedger, countedTax;
    }

    method Load() returns (r: Result<EventLogs, StoreError>, ghost seenLedger: seq<Row>, ghost seenTax: seq<Row>)
      requires Valid()
      modifies this, sheets
      ensures Valid() && sheets.Grown()
      ensures r.Success? ==>
        old(sheets.ledger) <= seenLedger <= sheets.ledger && old(sheets.tax) <= seenTax <= sheets.tax
      ensures r.Success? ==>
        LogsOf(seenLedger, seenTax) == r && cache.Some? && readLedger == seenLedger && readTax == seenTax
      ensures old(sheets.exclusive) && r.Success? ==> ReadWhole()
      ensures r.Failure? && old(ReadWhole()) ==> ReadWhole()
      ensures r.Failure? && old(sheets.exclusive) ==> !sheets.Calm() || !Loads()
    {
      r, seenLedger, seenTax := LoadLogs();
      if r.Failure? { return; }
      var rebuilt := RebuildCache(r.value, seenLedger, seenTax);
      if rebuilt.Failure? { r := Failure(rebuilt.error); }
    }

    /** Compares a fresh full read with the mirror by content hash, and rebuilds it on a
        difference. With hashes that tell different logs apart, agreement means the mirror
        is the full read. */
    method VerifyIntegrity() returns (r: Result<bool, StoreError>, ghost seenLedger: seq<Row>, ghost seenTax: seq<Row>)
      requires Valid()
      requires forall a, b :: hashLedger(a) == hashLedger(b) ==> a == b
      requires forall a, b :: hashTax(a) == hashTax(b) ==> a == b
      modifies this, sheets
      ensures Valid() && sheets.Grown()
      ensures r.Success? ==>
        old(sheets.ledger) <= seenLedger <= sheets.ledger && old(sheets.tax) <= seenTax <= sheets.tax
      ensures r.Success? ==> cache.Some? && LogsOf(seenLedger, seenTax) == Success(cache.value.logs)
      ensures r.Success? ==>
        (r.value <==> old(cache).None? || LogsOf(seenLedger, seenTax) != Success(old(cache).value.logs))
      ensures r.Failure? && old(sheets.exclusive) ==> !sheets.Calm() || !Loads()
    {
      var loaded;
      loaded, seenLedger, seenTax := LoadLogs();
      if loaded.Failure? { return Failure(loaded.error), [], []; }
      var logs := loaded.value;
      if cache.Some? && cache.value.ledgerFp.contentHash == hashLedger(logs.ledger)
         && cache.value.taxFp.contentHash == hashTax(logs.tax)
      {
        return Success(false), seenLedger, seenTax;
      }
      var rebuilt := RebuildCache(logs, seenLedger, seenTax);
      if rebuilt.Failure? { return Failure(rebuilt.error), [], []; }
      return Success(true), seenLedger, seenTax;
    }

    // --- Appending. ---

    /** Takes the write lock, or fails; a holder may take it again. */
    method Acquire() returns (ok: bool)
      requires Valid()
      modifies sheets`exclusive, sheets`faults
      ensures Valid() && old(sheets.faults) <= sheets.faults && (ok <==> sheets.Calm())
      ensures ok ==> sheets.exclusive
      ensures !ok ==> sheets.exclusive == old(sheets.exclusive)
    {
      var answer := sheets.AskLock();
      if !answer.Granted? { return false; }
      sheets.exclusive := true;
      return true;
    }

    /** The largest sequence number the live tab shows; never the mirror's. */
    method LiveMaxSeq(tab: Tab) returns (r: Result<nat, StoreError>)
      requires Valid()
      modifies sheets
      ensures Valid() && sheets.Grown()
      ensures r.Success? ==> r.value == MaxSeq(sheets.Rows(tab))
      ensures r.Failure? ==> !sheets.Calm()
    {
      var read := ReadRowsCold(tab);
      if read.Failure? { return Failure(read.error); }
      var rows := read.value;
      var max := 0;
      var i := 0;
      assert rows[..0] == [];
      while i < |rows|
        invariant 0 <= i <= |rows|
        invariant max == MaxSeq(rows[..i])
      {
        assert rows[..i + 1][..i] == rows[..i];
        var v := RowSeq(rows[i]);
        if v.Some? && v.value > max { max := v.value; }
        i := i + 1;
      }
      assert rows[..i] == rows;
      return Success(max);
    }

    /** Looks an id up on the ledger tab, then on the tax tab. */
    method FindRowByIdGlobal(id: string) returns (r: Result<Option<(Tab, Row)>, StoreError>)
      requires Valid() && sheets.exclusive
      modifies sheets
      ensures Valid() && sheets.Grown()
      ensures r == Success(None) ==> !HasId(sheets.ledger, id) && !HasId(sheets.tax, id)
      ensures r.Success? && r.value.Some? ==>
        r.value.value.1 in sheets.Rows(r.value.value.0) && Get(r.value.value.1, EventIdCol) == id
      ensures r.Failure? ==> !sheets.Calm()
    {
      var ledgerRows := ReadRowsCold(LedgerTab);
      if ledgerRows.Failure? { return Failure(ledgerRows.error); }
      var found := FindById(ledgerRows.value, id);
      if found.Some? { return Success(Some((LedgerTab, found.value))); }
      var taxRows := ReadRowsCold(TaxTab);
      if taxRows.Failure? { return Failure(taxRows.error); }
      found := FindById(taxRows.value, id);
      if found.Some? { return Success(Some((TaxTab, found.value))); }
      return Success(None);
    }

    /** Appends, creating a missing tab and retrying once. */
    method AppendRowBootstrapping(tab: Tab, row: Row) returns (r: Result<(), StoreError>, landed: Option<Row>)
      requires Valid() && sheets.exclusive
      modifies sheets
      ensures Valid() && sheets.exclusive && old(sheets.faults) <= sheets.faults
      ensures sheets.Calm() ==> r.Success? && landed == Some(row)
      ensures sheets.ledger == old(sheets.ledger) + (if tab.LedgerTab? && landed.Some? then [landed.value] else [])
      ensures sheets.tax == old(sheets.tax) + (if tab.TaxTab? && landed.Some? then [landed.value] else [])
      ensures landed.Some? ==> SameStamp(row, landed.value)
    {
      r, landed := sheets.AppendRow(tab, row);
      if r.Failure? && r.error == TabMissing {
        var ensured := sheets.EnsureTab(tab);
        if ensured.Failure? { return Failure(ensured.error), None; }
        r, landed := sheets.AppendRow(tab, row);
      }
    }

    /** Reads the row back by id: it must be on its tab, cell for cell as written. */
    method ReadBackVerify(tab: Tab, id: string, written: Row) returns (r: Result<(), StoreError>)
      requires Valid() && sheets.exclusive
      modifies sheets
      ensures Valid() && sheets.Grown()
      ensures r.Success? ==> written in sheets.Rows(tab) && Get(written, EventIdCol) == id
      ensures r.Failure? && Sound(sheets.ledger, sheets.tax) ==>
        !sheets.Calm() || written !in sheets.Rows(tab) || Get(written, EventIdCol) != id
    {
      var found := FindRowByIdGlobal(id);
      if found.Failure? { return Failure(found.error); }
      match found.value {
        case None => return Failure(Unreachable);
        case Some((foundTab, back)) =>
          if foundTab == tab && back == written { return Success(()); }
          if Sound(sheets.ledger, sheets.tax) && written in sheets.Rows(tab) && Get(written, EventIdCol) == id {
            OneRowPerId(sheets.ledger, sheets.tax, id, foundTab, back, tab, written);
          }
          return Failure(WriteVerifyMismatch);
      }
    }

    method LedgerIdempotentResult(e: Event, stored: Row) returns (r: Result<AppendOutcome, StoreError>)
      ensures r.Success? ==> r.value.eventId == e.id && r.value.idempotentSkip && StoredAs(e, stored, r.value.seqNo)
      ensures r.Failure? ==> RowToLedger(stored).Failure? || SansSeq(stored) != SansSeq(LedgerToRow(e))
      ensures r.Failure? && RowToLedger(stored).Success? ==> r.error == WriteVerifyMismatch
    {
      var read := RowToLedger(stored);
      if read.Failure? { return Failure(read.error); }
      var n := read.value.seqNo;
      var candidate := EncodeLedger(WithSeq(e, n));
      ContentIgnoresSeq(e, n);
      if SansSeq(candidate) == SansSeq(stored) { return Success(AppendOutcome(e.id, n, true)); }
      return Failure(WriteVerifyMismatch);
    }

    method TaxIdempotentResult(e: TaxEvent, id: string, stored: Row) returns (r: Result<AppendOutcome, StoreError>)
      ensures r.Success? ==>
        r.value.eventId == id && r.value.idempotentSkip && StoredAsTax(e, id, stored, r.value.seqNo)
      ensures r.Failure? ==> RowToTax(stored).Failure? || SansSeq(stored) != SansSeq(TaxToRow(e, id))
      ensures r.Failure? && RowToTax(stored).Success? ==> r.error == WriteVerifyMismatch
    {
      var read := RowToTax(stored);
      if read.Failure? { return Failure(read.error); }
      var n := read.value.0.seqNo;
      var candidate := EncodeTax(WithTaxSeq(e, n), id);
      TaxContentIgnoresSeq(e, id, n);
      if SansSeq(candidate) == SansSeq(stored) { return Success(AppendOutcome(id, n, true)); }
      return Failure(WriteVerifyMismatch);
    }

    /** The last step of an append: reload and rebuild the mirror. */
    method RefreshMirror() returns (r: Result<(), StoreError>)
      requires Valid() && sheets.exclusive
      modifies this, sheets
      ensures Valid() && sheets.Grown()
      ensures r.Success? ==> Loads()
      ensures r.Failure? ==> !sheets.Calm() || !Loads()
    {
      var loaded, seenLedger, seenTax := LoadLogs();
      if loaded.Failure? { return Failure(loaded.error); }
      assert Loads() by {
        Squeezed(sheets.ledger, seenLedger);
        Squeezed(sheets.tax, seenTax);
      }
      r := RebuildCache(loaded.value, seenLedger, seenTax);
    }

    /** Lands the stamped row and verifies it. */
    method LandLedger(e: Event, n: nat) returns (r: Result<(), StoreError>)
      requires Valid() && sheets.exclusive && Sound(sheets.ledger, sheets.tax)
      requires n == |sheets.ledger| + 1 <= ROOM && e.id != "" && !HasId(sheets.ledger, e.id) && !HasId(sheets.tax, e.id)
      modifies this, sheets
      ensures Valid() && sheets.exclusive && Sound(sheets.ledger, sheets.tax)
      ensures sheets.tax == old(sheets.tax)
      ensures LandedAtMost(old(sheets.ledger), sheets.ledger, sheets.tax, e.id)
      ensures r.Success? ==> sheets.ledger == old(sheets.ledger) + [LedgerToRow(WithSeq(e, n))]
      ensures old(sheets.faults) <= sheets.faults && (r.Failure? ==> !sheets.Calm())
    {
      var row := EncodeLedger(WithSeq(e, n));
      LedgerRowCell(WithSeq(e, n), SeqCol);
      LedgerRowCell(WithSeq(e, n), EventIdCol);
      ghost var before := sheets.ledger;
      var appended, landed := AppendRowBootstrapping(LedgerTab, row);
      LedgerLanding(before, sheets.ledger, sheets.tax, landed, row, e.id);
      if appended.Failure? { return Failure(appended.error); }
      r := ReadBackVerify(LedgerTab, e.id, row);
      if r.Success? { OnlyLandedHasId(before, sheets.ledger, landed, row, e.id); }
    }

    method LandTax(e: TaxEvent, id: string, n: nat) returns (r: Result<(), StoreError>)
      requires Valid() && sheets.exclusive && Sound(sheets.ledger, sheets.tax)
      requires n == |sheets.tax| + 1 <= ROOM && id != "" && !HasId(sheets.ledger, id) && !HasId(sheets.tax, id)
      modifies this, sheets
      ensures Valid() && sheets.exclusive && Sound(sheets.ledger, sheets.tax)
      ensures sheets.ledger == old(sheets.ledger)
      ensures LandedAtMost(old(sheets.tax), sheets.tax, sheets.ledger, id)
      ensures r.Success? ==> sheets.tax == old(sheets.tax) + [TaxToRow(WithTaxSeq(e, n), id)]
      ensures old(sheets.faults) <= sheets.faults && (r.Failure? ==> !sheets.Calm())
    {
      var row := EncodeTax(WithTaxSeq(e, n), id);
      TaxCells(WithTaxSeq(e, n), id);
      ghost var before := sheets.tax;
      var appended, landed := AppendRowBootstrapping(TaxTab, row);
      TaxLanding(sheets.ledger, before, sheets.tax, landed, row, id);
      if appended.Failure? { return Failure(appended.error); }
      r := ReadBackVerify(TaxTab, id, row);
      if r.Success? { OnlyLandedHasId(before, sheets.tax, landed, row, id); }
    }

    method AppendLedgerHeld(e: Event) returns (r: Result<AppendOutcome, StoreError>)
      requires Valid() && sheets.exclusive && Sound(sheets.ledger, sheets.tax)
      requires e.id != "" && |sheets.ledger| < ROOM
      modifies this, sheets
      ensures Valid() && sheets.exclusive && Sound(sheets.ledger, sheets.tax)
      ensures sheets.tax == old(sheets.tax)
      ensures LandedAtMost(old(sheets.ledger), sheets.ledger, sheets.tax, e.id)
      ensures r.Success? ==> Confirmed(e, old(sheets.ledger), sheets.ledger, r.value)
      ensures old(sheets.faults) <= sheets.faults
      ensures sheets.Calm() && old(Loads()) ==> Settles(e, old(sheets.ledger), sheets.tax, sheets.ledger, r)
    {
      var current := ConfirmCurrency();
      if current.Failure? { return Failure(current.error); }
      var found := FindRowByIdGlobal(e.id);
      if found.Failure? { return Failure(found.error); }
      if found.value.Some? {
        var (tab, stored) := found.value.value;
        TakenIsStored(e, sheets.ledger, sheets.tax, tab, stored);
        if tab != LedgerTab { return Failure(WriteVerifyMismatch); }
        r := LedgerIdempotentResult(e, stored);
        return;
      }
      r := AppendNewLedger(e);
    }

    /** An event whose id is on neither tab, under the number after the largest there. */
    method AppendNewLedger(e: Event) returns (r: Result<AppendOutcome, StoreError>)
      requires Valid() && sheets.exclusive && Sound(sheets.ledger, sheets.tax) && |sheets.ledger| < ROOM
      requires e.id != "" && !HasId(sheets.ledger, e.id) && !HasId(sheets.tax, e.id)
      modifies this, sheets
      ensures Valid() && sheets.exclusive && Sound(sheets.ledger, sheets.tax)
      ensures sheets.tax == old(sheets.tax)
      ensures LandedAtMost(old(sheets.ledger), sheets.ledger, sheets.tax, e.id)
      ensures r.Success? ==> Confirmed(e, old(sheets.ledger), sheets.ledger, r.value)
      ensures old(sheets.faults) <= sheets.faults
      ensures sheets.Calm() && old(Loads()) ==> Settles(e, old(sheets.ledger), sheets.tax, sheets.ledger, r)
    {
      var max := LiveMaxSeq(LedgerTab);
      if max.Failure? { return Failure(max.error); }
      MaxSeqIsCount(sheets.ledger);
      var landed := LandLedger(e, max.value + 1);
      if landed.Failure? { return Failure(landed.error); }
      var mirrored := RefreshMirror();
      if mirrored.Failure? { return Failure(mirrored.error); }
      return Success(AppendOutcome(e.id, max.value + 1, false));
    }

    /** Appends one ledger event. Whatever fails, the tabs stay sound, the tax tab is left
        alone, and at most one row lands, only if the id was new; success means exactly one
        row holds the event. */
    method AppendLedger(e: Event) returns (r: Result<AppendOutcome, StoreError>)
      requires Valid() && Sound(sheets.ledger, sheets.tax)
      requires e.id != "" && |sheets.ledger| < ROOM
      modifies this, sheets
      ensures Valid() && sheets.exclusive == old(sheets.exclusive)
      ensures Sound(sheets.ledger, sheets.tax) && sheets.tax == old(sheets.tax)
      ensures LandedAtMost(old(sheets.ledger), sheets.ledger, sheets.tax, e.id)
      ensures r.Success? ==> Confirmed(e, old(sheets.ledger), sheets.ledger, r.value)
      ensures old(sheets.faults) <= sheets.faults
      ensures sheets.Calm() && old(Loads()) ==> Settles(e, old(sheets.ledger), sheets.tax, sheets.ledger, r)
    {
      var was := sheets.exclusive;
      var ok := Acquire();
      if !ok { return Failure(Unreachable); }
      r := AppendLedgerHeld(e);
      sheets.exclusive := was;
    }

    method AppendTaxHeld(e: TaxEvent) returns (r: Result<AppendOutcome, StoreError>)
      requires Valid() && sheets.exclusive && Sound(sheets.ledger, sheets.tax)
      requires taxEventId(e) != "" && |sheets.tax| < ROOM
      modifies this, sheets
      ensures Valid() && sheets.exclusive && Sound(sheets.ledger, sheets.tax)
      ensures sheets.ledger == old(sheets.ledger)
      ensures LandedAtMost(old(sheets.tax), sheets.tax, sheets.ledger, taxEventId(e))
      ensures r.Success? ==> ConfirmedTax(e, taxEventId(e), old(sheets.tax), sheets.tax, r.value)
      ensures old(sheets.faults) <= sheets.faults
      ensures sheets.Calm() && old(Loads()) ==>
        SettlesTax(e, taxEventId(e), sheets.ledger, old(sheets.tax), sheets.tax, r)
    {
      var current := ConfirmCurrency();
      if current.Failure? { return Failure(current.error); }
      var id := taxEventId(e);
      var found := FindRowByIdGlobal(id);
      if found.Failure? { return Failure(found.error); }
      if found.value.Some? {
        var (tab, stored) := found.value.value;
        TakenIsStoredTax(e, id, sheets.ledger, sheets.tax, tab, stored);
        if tab != TaxTab { return Failure(WriteVerifyMismatch); }
        r := TaxIdempotentResult(e, id, stored);
        return;
      }
      r := AppendNewTax(e, id);
    }

    method AppendNewTax(e: TaxEvent, id: string) returns (r: Result<AppendOutcome, StoreError>)
      requires Valid() && sheets.exclusive && Sound(sheets.ledger, sheets.tax) && |sheets.tax| < ROOM
      requires id != "" && !HasId(sheets.ledger, id) && !HasId(sheets.tax, id)
      modifies this, sheets
      ensures Valid() && sheets.exclusive && Sound(sheets.ledger, sheets.tax)
      ensures sheets.ledger == old(sheets.ledger)
      ensures LandedAtMost(old(sheets.tax), sheets.tax, sheets.ledger, id)
      ensures r.Success? ==> ConfirmedTax(e, id, old(sheets.tax), sheets.tax, r.value)
      ensures old(sheets.faults) <= sheets.faults
      ensures sheets.Calm() && old(Loads()) ==>
        SettlesTax(e, id, sheets.ledger, old(sheets.tax), sheets.tax, r)
    {
      var max := LiveMaxSeq(TaxTab);
      if max.Failure? { return Failure(max.error); }
      MaxSeqIsCount(sheets.tax);
      var landed := LandTax(e, id, max.value + 1);
      if landed.Failure? { return Failure(landed.error); }
      var mirrored := RefreshMirror();
      if mirrored.Failure? { return Failure(mirrored.error); }
      return Success(AppendOutcome(id, max.value + 1, false));
    }

    method AppendTax(e: TaxEvent) returns (r: Result<AppendOutcome, StoreError>)
      requires Valid() && Sound(sheets.ledger, sheets.tax)
      requires taxEventId(e) != "" && |sheets.tax| < ROOM
      modifies this, sheets
      ensures Valid() && sheets.exclusive == old(sheets.exclusive)
      ensures Sound(sheets.ledger, sheets.tax) && sheets.ledger == old(sheets.ledger)
      ensures LandedAtMost(old(sheets.tax), sheets.tax, sheets.ledger, taxEventId(e))
      ensures r.Success? ==> ConfirmedTax(e, taxEventId(e), old(sheets.tax), sheets.tax, r.value)
      ensures old(sheets.faults) <= sheets.faults
      ensures sheets.Calm() && old(Loads()) ==>
        SettlesTax(e, taxEventId(e), sheets.ledger, old(sheets.tax), sheets.tax, r)
    {
      var was := sheets.exclusive;
      var ok := Acquire();
      if !ok { return Failure(Unreachable); }
      r := AppendTaxHeld(e);
      sheets.exclusive := was;
    }

    /** One event of a block, taking number `next` if it is not there yet. */
    method AppendNext(e: Event, next: nat) returns (r: Result<AppendOutcome, StoreError>)
      requires Valid() && sheets.exclusive && Sound(sheets.ledger, sheets.tax)
      requires next == |sheets.ledger| + 1 <= ROOM && e.id != ""
      modifies this, sheets
      ensures Valid() && sheets.exclusive && Sound(sheets.ledger, sheets.tax)
      ensures sheets.tax == old(sheets.tax)
      ensures old(sheets.ledger) <= sheets.ledger && |sheets.ledger| <= old(|sheets.ledger|) + 1
      ensures r.Success? ==> Confirmed(e, old(sheets.ledger), sheets.ledger, r.value)
      ensures old(sheets.faults) <= sheets.faults
      ensures r.Failure? ==> !sheets.Calm() || BlockedAt(e, old(sheets.ledger), sheets.ledger, sheets.tax)
      ensures r.Success? && r.value.idempotentSkip ==> HasId(old(sheets.ledger), e.id)
    {
      var found := FindRowByIdGlobal(e.id);
      if found.Failure? { return Failure(found.error); }
      if found.value.Some? {
        var (tab, stored) := found.value.value;
        TakenIsStored(e, sheets.ledger, sheets.tax, tab, stored);
        if tab != LedgerTab { return Failure(WriteVerifyMismatch); }
        r := LedgerIdempotentResult(e, stored);
        return;
      }
      var landed := LandLedger(e, next);
      if landed.Failure? { return Failure(landed.error); }
      return Success(AppendOutcome(e.id, next, false));
    }

    /** A block part way: `outs` reports the events landed or found so far. */
    ghost predicate PartWay(events: seq<Event>, start: seq<Row>, tax: seq<Row>, i: nat, next: nat,
                            outs: seq<AppendOutcome>)
      reads this, sheets
    {
      && Valid() && sheets.exclusive && Sound(sheets.ledger, sheets.tax) && sheets.tax == tax
      && i <= |events| && |outs| == i
      && start <= sheets.ledger && next == |sheets.ledger| + 1 <= |start| + i + 1
      && BlockConfirmed(events, outs, i, start, sheets.ledger)
    }

    method AppendEach(events: seq<Event>, first: nat, ghost start: seq<Row>, ghost tax: seq<Row>)
      returns (r: Result<seq<AppendOutcome>, StoreError>, ghost last: nat)
      requires PartWay(events, start, tax, 0, first, [])
      requires |start| + |events| < ROOM && forall i :: 0 <= i < |events| ==> events[i].id != ""
      modifies this, sheets
      ensures Valid() && sheets.exclusive && Sound(sheets.ledger, sheets.tax) && sheets.tax == tax
      ensures start <= sheets.ledger && |sheets.ledger| <= |start| + |events|
      ensures r.Success? ==> PartWay(events, start, tax, |events|, last, r.value)
      ensures old(sheets.faults) <= sheets.faults
      ensures r.Failure? ==> !sheets.Calm() || StoppedAt(events, start, sheets.ledger, tax)
    {
      var next := first;
      var outs: seq<AppendOutcome> := [];
      var i := 0;
      while i < |events|
        invariant PartWay(events, start, tax, i, next, outs)
        invariant old(sheets.faults) <= sheets.faults
      {
        var out := AppendAt(events, start, tax, i, next, outs);
        if out.Failure? { return Failure(out.error), 0; }
        next := if out.value.idempotentSkip then next else next + 1;
        outs, i := outs + [out.value], i + 1;
      }
      assert i == |events|;
      return Success(outs), next;
    }

    method AppendAt(events: seq<Event>, ghost start: seq<Row>, ghost tax: seq<Row>, i: nat, next: nat,
                    ghost outs: seq<AppendOutcome>)
      returns (r: Result<AppendOutcome, StoreError>)
      requires PartWay(events, start, tax, i, next, outs) && i < |events|
      requires |start| + |events| < ROOM && events[i].id != ""
      modifies this, sheets
      ensures Valid() && sheets.exclusive && Sound(sheets.ledger, sheets.tax) && sheets.tax == tax
      ensures start <= sheets.ledger && |sheets.ledger| <= |start| + i + 1
      ensures r.Success? ==>
        PartWay(events, start, tax, i + 1, if r.value.idempotentSkip then next else next + 1, outs + [r.value])
      ensures old(sheets.faults) <= sheets.faults
      ensures r.Failure? ==> !sheets.Calm() || StoppedAt(events, start, sheets.ledger, tax)
    {
      ghost var before := sheets.ledger;
      r := AppendNext(events[i], next);
      GrowsFurther(start, before, sheets.ledger);
      if r.Success? {
        BlockStep(events, outs, i, start, before, sheets.ledger, r.value);
      }
    }

    method AppendBlockHeld(events: seq<Event>) returns (r: Result<seq<AppendOutcome>, StoreError>)
      requires Valid() && sheets.exclusive && Sound(sheets.ledger, sheets.tax)
      requires |sheets.ledger| + |events| < ROOM && forall i :: 0 <= i < |events| ==> events[i].id != ""
      modifies this, sheets
      ensures Valid() && sheets.exclusive && Sound(sheets.ledger, sheets.tax)
      ensures sheets.tax == old(sheets.tax) && old(sheets.ledger) <= sheets.ledger
      ensures |sheets.ledger| <= old(|sheets.ledger|) + |events|
      ensures r.Success? ==>
        |r.value| == |events| && BlockConfirmed(events, r.value, |events|, old(sheets.ledger), sheets.ledger)
      ensures old(sheets.faults) <= sheets.faults
      ensures r.Success? ==> Loads()
      ensures r.Failure? ==> !sheets.Calm() || !Loads() || AnyBlocked(events, sheets.ledger, sheets.tax)
      ensures FreshIds(events, old(sheets.ledger), sheets.tax) && sheets.Calm() && old(Loads()) ==>
        |sheets.ledger| == old(|sheets.ledger|) + |events| && (r.Success? <==> Loads())
    {
      var current := ConfirmCurrency();
      if current.Failure? { return Failure(current.error); }
      var max := LiveMaxSeq(LedgerTab);
      if max.Failure? { return Failure(max.error); }
      MaxSeqIsCount(sheets.ledger);
      BlockStarts(events, sheets.ledger);
      ghost var last, start := 0, sheets.ledger;
      r, last := AppendEach(events, max.value + 1, start, sheets.tax);
      if FreshIds(events, start, sheets.tax) { NewAreNotBlocked(events, start, sheets.ledger, sheets.tax); }
      if r.Success? {
        if FreshIds(events, start, sheets.tax) { NewAreAdded(events, r.value, start, sheets.ledger, sheets.tax); }
        var mirrored := RefreshMirror();
        if mirrored.Failure? { return Failure(mirrored.error); }
      }
    }

    /** Appends a block under one hold of the lock. The fresh rows take consecutive numbers in
        block order, skipped events taking none; a partial landing leaves a sound prefix. */
    method AppendLedgerBlock(events: seq<Event>) returns (r: Result<seq<AppendOutcome>, StoreError>)
      requires Valid() && Sound(sheets.ledger, sheets.tax)
      requires |sheets.ledger| + |events| < ROOM && forall i :: 0 <= i < |events| ==> events[i].id != ""
      modifies this, sheets
      ensures Valid() && sheets.exclusive == old(sheets.exclusive)
      ensures Sound(sheets.ledger, sheets.tax)
      ensures sheets.tax == old(sheets.tax) && old(sheets.ledger) <= sheets.ledger
      ensures |sheets.ledger| <= old(|sheets.ledger|) + |events|
      ensures r.Success? ==>
        |r.value| == |events| && BlockConfirmed(events, r.value, |events|, old(sheets.ledger), sheets.ledger)
      ensures old(sheets.faults) <= sheets.faults
      ensures r.Success? ==> Loads()
      ensures r.Failure? ==> !sheets.Calm() || !Loads() || AnyBlocked(events, sheets.ledger, sheets.tax)
      ensures FreshIds(events, old(sheets.ledger), sheets.tax) && sheets.Calm() && old(Loads()) ==>
        |sheets.ledger| == old(|sheets.ledger|) + |events| && (r.Success? <==> Loads())
    {
      var was := sheets.exclusive;
      var ok := Acquire();
      if !ok { return Failure(Unreachable); }
      r := AppendBlockHeld(events);
      sheets.exclusive := was;
    }
  }

  /** Deserializes and checks the ledger tab's rows. */
  method ReadLedgerLog(rows: seq<Row>) returns (r: Result<seq<Event>, StoreError>)
    ensures r.Success? ==> DecodeLedger(rows) == r && Loadable(r.value)
    ensures r.Failure? ==>
      DecodeLedger(rows) == r || (DecodeLedger(rows).Success? && !Loadable(DecodeLedger(rows).value))
  {
    r := DecodeRows(rows, RowToLedger);
    if r.Success? {
      var sound := CheckLedgerIntegrity(r.value);
      if sound.Failure? { r := Failure(sound.error); }
    }
  }

  method ReadTaxLog(rows: seq<Row>) returns (r: Result<seq<(TaxEvent, string)>, StoreError>)
    ensures r.Success? ==> DecodeTax(rows) == r && Dense(TaxSeqNos(r.value))
    ensures r.Failure? ==>
      DecodeTax(rows) == r || (DecodeTax(rows).Success? && !Dense(TaxSeqNos(DecodeTax(rows).value)))
  {
    r := DecodeRows(rows, RowToTax);
    if r.Success? {
      var dense := CheckDenseSeq(TaxSeqNos(r.value));
      if dense.Failure? { r := Failure(dense.error); }
    }
  }

  method FindById(rows: seq<Row>, id: string) returns (r: Option<Row>)
    ensures r.None? ==> !HasId(rows, id)
    ensures r.Some? ==> r.value in rows && Get(r.value, EventIdCol) == id
  {
    var i := 0;
    while i < |rows|
      invariant 0 <= i <= |rows|
      invariant forall k :: 0 <= k < i ==> Get(rows[k], EventIdCol) != id
    {
      if Get(rows[i], EventIdCol) == id { return Some(rows[i]); }
      i := i + 1;
    }
    return None;
  }

  /** On sound tabs an id leads to one row. */
  lemma OneRowPerId(ledger: seq<Row>, tax: seq<Row>, id: string, tab: Tab, row: Row, tab': Tab, row': Row)
    requires Sound(ledger, tax) && Get(row, EventIdCol) == id == Get(row', EventIdCol)
    requires row in if tab.LedgerTab? then ledger else tax
    requires row' in if tab'.LedgerTab? then ledger else tax
    ensures tab == tab' && row == row'
  {
  }

  lemma LedgerLanding(before: seq<Row>, after: seq<Row>, tax: seq<Row>, landed: Option<Row>, row: Row, id: string)
    requires Sound(before, tax) && |before| < ROOM && id != "" && !HasId(before, id) && !HasId(tax, id)
    requires Get(row, SeqCol) == IntText(|before| + 1) && Get(row, EventIdCol) == id
    requires landed.Some? ==> SameStamp(row, landed.value)
    requires after == before + (if landed.Some? then [landed.value] else [])
    ensures Sound(after, tax) && LandedAtMost(before, after, tax, id)
  {
    if landed.Some? {
      ParseNatText(|before| + 1);
      LandedLedgerRow(before, tax, landed.value);
    } else {
      assert after == before;
    }
  }

  lemma TaxLanding(ledger: seq<Row>, before: seq<Row>, after: seq<Row>, landed: Option<Row>, row: Row, id: string)
    requires Sound(ledger, before) && |before| < ROOM && id != "" && !HasId(ledger, id) && !HasId(before, id)
    requires Get(row, SeqCol) == IntText(|before| + 1) && Get(row, EventIdCol) == id
    requires landed.Some? ==> SameStamp(row, landed.value)
    requires after == before + (if landed.Some? then [landed.value] else [])
    ensures Sound(ledger, after) && LandedAtMost(before, after, ledger, id)
  {
    if landed.Some? {
      ParseNatText(|before| + 1);
      LandedTaxRow(ledger, before, landed.value);
    } else {
      assert after == before;
    }
  }

  lemma OnlyLandedHasId(before: seq<Row>, after: seq<Row>, landed: Option<Row>, row: Row, id: string)
    requires after == before + (if landed.Some? then [landed.value] else [])
    requires !HasId(before, id) && row in after && Get(row, EventIdCol) == id
    ensures after == before + [row]
  {
    var i :| 0 <= i < |after| && after[i] == row;
    assert i >= |before|;
  }

  /** The rows the first `n` events of a block add: none for a skip, otherwise the row under
      the next number. */
  function RowsAdded<T>(events: seq<T>, outs: seq<AppendOutcome>, n: nat, base: nat, row: (T, nat) -> Row): seq<Row>
    requires n <= |events| && n <= |outs|
  {
    if n == 0 then []
    else
      var front := RowsAdded(events, outs, n - 1, base, row);
      var next: nat := base + |front| + 1;
      if outs[n - 1].idempotentSkip then front else front + [row(events[n - 1], next)]
  }

  function StampedRow(): (Event, nat) -> Row {
    (e: Event, n: nat) => LedgerToRow(WithSeq(e, n))
  }

  function BlockRows(events: seq<Event>, outs: seq<AppendOutcome>, n: nat, base: nat): seq<Row>
    requires n <= |events| && n <= |outs|
  {
    RowsAdded(events, outs, n, base, StampedRow())
  }

  /** Some row holds the event under the number reported. */
  ghost predicate HeldAs(rows: seq<Row>, e: Event, out: AppendOutcome) {
    exists i :: 0 <= i < |rows| && RowHolds(rows[i], e, out)
  }

  predicate RowHolds(row: Row, e: Event, out: AppendOutcome) {
    if out.idempotentSkip then StoredAs(e, row, out.seqNo) else row == LedgerToRow(WithSeq(e, out.seqNo))
  }

  /** The first `n` events of a block are accounted for: each held as reported, and nothing
      added but the rows of those not found. */
  ghost predicate BlockConfirmed(events: seq<Event>, outs: seq<AppendOutcome>, n: nat, before: seq<Row>,
                                 after: seq<Row>)
  {
    && n <= |events| && n <= |outs|
    && after == before + BlockRows(events, outs, n, |before|)
    && forall i :: 0 <= i < n ==> outs[i].eventId == events[i].id && HeldAs(after, events[i], outs[i])
  }

  lemma HeldStays(before: seq<Row>, after: seq<Row>, e: Event, out: AppendOutcome)
    requires before <= after && HeldAs(before, e, out)
    ensures HeldAs(after, e, out)
  {
    var i :| 0 <= i < |before| && RowHolds(before[i], e, out);
    assert after[i] == before[i];
  }

  lemma {:induction false} AddedIds(events: seq<Event>, outs: seq<AppendOutcome>, n: nat, base: nat, m: nat)
    returns (i: nat)
    requires n <= |events| && n <= |outs| && m < |BlockRows(events, outs, n, base)|
    ensures i < n && !outs[i].idempotentSkip && Get(BlockRows(events, outs, n, base)[m], EventIdCol) == events[i].id
  {
    var front := BlockRows(events, outs, n - 1, base);
    if m < |front| {
      i := AddedIds(events, outs, n - 1, base, m);
    } else {
      i := n - 1;
      LedgerRowCell(WithSeq(events[i], base + |front| + 1), EventIdCol);
    }
  }

  /** The rows a block of new events adds have no id but those of the events they are added for. */
  lemma AddedOnlyOwn(events: seq<Event>, outs: seq<AppendOutcome>, n: nat, start: seq<Row>, tax: seq<Row>, k: nat)
    requires n <= |outs| && n <= |events| && k < |events| && FreshIds(events, start, tax)
    requires k >= n || outs[k].idempotentSkip
    ensures !HasId(start + BlockRows(events, outs, n, |start|), events[k].id)
  {
    var added := BlockRows(events, outs, n, |start|);
    forall m | 0 <= m < |start + added| ensures Get((start + added)[m], EventIdCol) != events[k].id {
      if m >= |start| { var i := AddedIds(events, outs, n, |start|, m - |start|); }
    }
  }

  /** New events are never blocked. */
  lemma NewAreNotBlocked(events: seq<Event>, start: seq<Row>, ledger: seq<Row>, tax: seq<Row>)
    requires FreshIds(events, start, tax)
    ensures !StoppedAt(events, start, ledger, tax)
  {
    forall n: nat, outs | n < |events| && BlockConfirmed(events, outs, n, start, ledger)
      ensures !Blocked(events[n], ledger, tax)
    {
      AddedOnlyOwn(events, outs, n, start, tax, n);
    }
  }

  lemma {:induction false} NoneSkipped<T>(events: seq<T>, outs: seq<AppendOutcome>, n: nat, base: nat,
                                          row: (T, nat) -> Row)
    requires n <= |events| && n <= |outs| && forall i :: 0 <= i < n ==> !outs[i].idempotentSkip
    ensures |RowsAdded(events, outs, n, base, row)| == n
  {
    if n > 0 { NoneSkipped(events, outs, n - 1, base, row); }
  }

  /** All of them are added. */
  lemma NewAreAdded(events: seq<Event>, outs: seq<AppendOutcome>, start: seq<Row>, ledger: seq<Row>, tax: seq<Row>)
    requires FreshIds(events, start, tax) && |outs| == |events|
    requires BlockConfirmed(events, outs, |events|, start, ledger)
    ensures |ledger| == |start| + |events|
  {
    forall i | 0 <= i < |events| ensures !outs[i].idempotentSkip {
      if outs[i].idempotentSkip {
        AddedOnlyOwn(events, outs, |events|, start, tax, i);
        var m :| 0 <= m < |ledger| && RowHolds(ledger[m], events[i], outs[i]);
        StoredIsFiled(events[i], ledger[m], outs[i].seqNo);
      }
    }
    NoneSkipped(events, outs, |events|, |start|, StampedRow());
  }

  lemma BlockStarts(events: seq<Event>, start: seq<Row>)
    ensures BlockConfirmed(events, [], 0, start, start)
  {
    assert start + [] == start;
  }

  lemma GrowsFurther(start: seq<Row>, before: seq<Row>, after: seq<Row>)
    requires start <= before <= after
    ensures start <= after
  {
  }

  lemma ConfirmedIsHeld(e: Event, before: seq<Row>, after: seq<Row>, out: AppendOutcome)
    requires Confirmed(e, before, after, out)
    ensures HeldAs(after, e, out) && before <= after
  {
    if !out.idempotentSkip { assert after[|before|] == LedgerToRow(WithSeq(e, out.seqNo)); }
  }

  lemma {:induction false} LaterReportsIgnored<T>(events: seq<T>, outs: seq<AppendOutcome>, more: seq<AppendOutcome>,
                                                  n: nat, base: nat, row: (T, nat) -> Row)
    requires n <= |events| && n <= |outs| && outs <= more
    ensures RowsAdded(events, more, n, base, row) == RowsAdded(events, outs, n, base, row)
  {
    if n > 0 {
      LaterReportsIgnored(events, outs, more, n - 1, base, row);
      assert more[n - 1] == outs[n - 1];
    }
  }

  lemma {:induction false} RowsAddedNext<T>(events: seq<T>, outs: seq<AppendOutcome>, n: nat, base: nat,
                                            out: AppendOutcome, row: (T, nat) -> Row)
    requires n < |events| && n == |outs|
    ensures
      var front := RowsAdded(events, outs, n, base, row);
      RowsAdded(events, outs + [out], n + 1, base, row)
        == if out.idempotentSkip then front else front + [row(events[n], base + |front| + 1)]
  {
    LaterReportsIgnored(events, outs, outs + [out], n, base, row);
  }

  lemma AddedAtEnd(start: seq<Row>, rows: seq<Row>, row: Row)
    ensures start + (rows + [row]) == (start + rows) + [row]
  {
  }

  lemma RowsAddedStep<T>(events: seq<T>, outs: seq<AppendOutcome>, n: nat, start: seq<Row>, before: seq<Row>,
                         after: seq<Row>, out: AppendOutcome, row: (T, nat) -> Row)
    requires n < |events| && n == |outs|
    requires before == start + RowsAdded(events, outs, n, |start|, row)
    requires after == if out.idempotentSkip then before else before + [row(events[n], |before| + 1)]
    ensures after == start + RowsAdded(events, outs + [out], n + 1, |start|, row)
  {
    RowsAddedNext(events, outs, n, |start|, out, row);
    AddedAtEnd(start, RowsAdded(events, outs, n, |start|, row), row(events[n], |before| + 1));
  }

  lemma ConfirmedAdds(e: Event, before: seq<Row>, after: seq<Row>, out: AppendOutcome)
    requires Confirmed(e, before, after, out)
    ensures after == if out.idempotentSkip then before else before + [StampedRow()(e, |before| + 1)]
  {
  }

  lemma AllStillHeld(events: seq<Event>, outs: seq<AppendOutcome>, n: nat, before: seq<Row>, after: seq<Row>,
                     more: seq<AppendOutcome>)
    requires n <= |events| && n <= |outs| && outs <= more && before <= after
    requires forall i :: 0 <= i < n ==> outs[i].eventId == events[i].id && HeldAs(before, events[i], outs[i])
    ensures forall i :: 0 <= i < n ==> more[i].eventId == events[i].id && HeldAs(after, events[i], more[i])
  {
    forall i | 0 <= i < n ensures more[i].eventId == events[i].id && HeldAs(after, events[i], more[i]) {
      assert more[i] == outs[i];
      HeldStays(before, after, events[i], outs[i]);
    }
  }

  lemma BlockStep(events: seq<Event>, outs: seq<AppendOutcome>, n: nat, start: seq<Row>, before: seq<Row>,
                  after: seq<Row>, out: AppendOutcome)
    requires n < |events| && n == |outs|
    requires BlockConfirmed(events, outs, n, start, before)
    requires Confirmed(events[n], before, after, out)
    ensures BlockConfirmed(events, outs + [out], n + 1, start, after)
  {
    ConfirmedAdds(events[n], before, after, out);
    RowsAddedStep(events, outs, n, start, before, after, out, StampedRow());
    ConfirmedIsHeld(events[n], before, after, out);
    AllStillHeld(events, outs, n, before, after, outs + [out]);
    assert (outs + [out])[n] == out;
  }

  function FingerprintOf(p: Probe, contentHash: int): (fp: Fingerprint)
    ensures fp.contentHash == contentHash
    ensures fp.count == (match p.count case None => 0 case Some(n) => n)
  {
    Fingerprint(match p.count case None => 0 case Some(n) => n,
                match p.maxSeq case None => 0 case Some(n) => n,
                match p.checksum case None => 0 case Some(n) => n, contentHash)
  }
}
