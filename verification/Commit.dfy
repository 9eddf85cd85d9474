/** Committing a reconstructed log: interrupted any number of times and resumed, it leaves
    the tabs exactly as one uninterrupted commit would. */
module Commits {
  import opened Basics
  import opened Text
  import opened Ledger
  import opened Escape
  import opened Rows
  import opened TaxRows
  import opened Integrity
  import opened Workbook
  import opened Logs
  import opened Idempotency
  import opened Stores

  datatype ImportError =
    | OwnerAcceptanceRequired | CommitBlockedByReconciliation | TargetNotEmpty
    | StoreError(error: Escape.StoreError) | StoreAt(eventId: string, at: Escape.StoreError)

  datatype CommitReport = CommitReport(appended: seq<string>, skipped: seq<string>)

  // --- Where a commit stands. ---

  function RowAt(events: seq<Event>, i: nat): Row
    requires i < |events|
  {
    LedgerToRow(WithSeq(events[i], i + 1))
  }

  function LedgerRows(events: seq<Event>): (r: seq<Row>)
    ensures |r| == |events| && forall i :: 0 <= i < |events| ==> r[i] == RowAt(events, i)
  {
    seq(|events|, i requires 0 <= i < |events| => RowAt(events, i))
  }

  function TaxRowAt(events: seq<TaxEvent>, id: TaxEvent -> string, i: nat): Row
    requires i < |events|
  {
    TaxToRow(WithTaxSeq(events[i], i + 1), id(events[i]))
  }

  function TaxTabRows(events: seq<TaxEvent>, id: TaxEvent -> string): (r: seq<Row>)
    ensures |r| == |events| && forall i :: 0 <= i < |events| ==> r[i] == TaxRowAt(events, id, i)
  {
    seq(|events|, i requires 0 <= i < |events| => TaxRowAt(events, id, i))
  }

  /** A tab holding the first `k` rows intended, perhaps followed by the next one altered. */
  ghost predicate Stands(rows: seq<Row>, intended: seq<Row>, k: nat) {
    && k <= |intended| && k <= |rows| && rows[..k] == intended[..k]
    && (|rows| > k ==> |rows| == k + 1 <= |intended| && rows[k] != intended[k] && SameStamp(rows[k], intended[k]))
  }

  /** Every intended row has an id of its own and the number of its place. */
  ghost predicate Distinguished(intended: seq<Row>) {
    && DistinctIds(intended)
    && forall i :: 0 <= i < |intended| ==> Get(intended[i], SeqCol) == IntText(i + 1)
  }

  /** The ledger tab comes first; the tax tab is begun only once it is complete. */
  ghost predicate Resumable(ledger: seq<Row>, tax: seq<Row>, ledgerRows: seq<Row>, taxRows: seq<Row>) {
    exists j: nat, k: nat ::
      Stands(ledger, ledgerRows, j) && Stands(tax, taxRows, k) && (tax == [] || ledger == ledgerRows)
  }

  lemma FreshIsResumable(ledgerRows: seq<Row>, taxRows: seq<Row>)
    ensures Resumable([], [], ledgerRows, taxRows)
  {
    assert Stands([], ledgerRows, 0) && Stands([], taxRows, 0);
  }

  /** A row filed under the next id at the next number is the intended row or an alteration
      of it. */
  lemma LandingStands(before: seq<Row>, after: seq<Row>, other: seq<Row>, intended: seq<Row>, k: nat) returns (k': nat)
    requires Distinguished(intended) && k < |intended| && Stands(before, intended, k) && |before| == k
    requires LandedAtMost(before, after, other, Get(intended[k], EventIdCol))
    ensures Stands(after, intended, k') && k <= k'
    ensures |after| == k + 1 && after[k] == intended[k] ==> k' == k + 1
  {
    k' := if |after| == k + 1 && after[k] == intended[k] then k + 1 else k;
    assert intended[..k + 1] == intended[..k] + [intended[k]];
    if |after| == k + 1 {
      assert after[..k] == before[..k] == before;
      assert after[..k + 1] == after[..k] + [after[k]];
    }
  }

  /** Where the row filed under intended id `i` stands. */
  lemma FiledUnder(rows: seq<Row>, intended: seq<Row>, k: nat, i: nat, j: nat)
    requires Distinguished(intended) && Stands(rows, intended, k)
    requires i < |intended| && j < |rows| && Get(rows[j], EventIdCol) == Get(intended[i], EventIdCol)
    ensures j == i
  {
    assert j < k ==> rows[j] == rows[..k][j] == intended[j];
    assert j < |intended| && Get(rows[j], EventIdCol) == Get(intended[j], EventIdCol);
    assert forall m :: 0 <= m < |intended| && m != i ==> Get(intended[m], EventIdCol) != Get(intended[i], EventIdCol);
  }

  lemma LedgerRowsDistinguished(events: seq<Event>)
    requires forall i :: 0 <= i < |events| ==> events[i].id != ""
    requires forall i, j :: 0 <= i < j < |events| ==> events[i].id != events[j].id
    ensures Distinguished(LedgerRows(events))
    ensures forall i :: 0 <= i < |events| ==> Get(LedgerRows(events)[i], EventIdCol) == events[i].id
  {
    forall i | 0 <= i < |events|
      ensures Get(RowAt(events, i), EventIdCol) == events[i].id && Get(RowAt(events, i), SeqCol) == IntText(i + 1)
    {
      LedgerRowCell(WithSeq(events[i], i + 1), EventIdCol);
      LedgerRowCell(WithSeq(events[i], i + 1), SeqCol);
    }
  }

  lemma TaxRowsDistinguished(events: seq<TaxEvent>, id: TaxEvent -> string)
    requires forall i :: 0 <= i < |events| ==> id(events[i]) != ""
    requires forall i, j :: 0 <= i < j < |events| ==> id(events[i]) != id(events[j])
    ensures Distinguished(TaxTabRows(events, id))
    ensures forall i :: 0 <= i < |events| ==> Get(TaxTabRows(events, id)[i], EventIdCol) == id(events[i])
  {
    forall i | 0 <= i < |events|
      ensures Get(TaxRowAt(events, id, i), EventIdCol) == id(events[i])
      ensures Get(TaxRowAt(events, id, i), SeqCol) == IntText(i + 1)
    {
      TaxCells(WithTaxSeq(events[i], i + 1), id(events[i]));
    }
  }

  /** One append of a commit: the tab still stands, no earlier than before, and if the append
      is confirmed the row is there as intended. */
  lemma AppendStands(events: seq<Event>, before: seq<Row>, after: seq<Row>, other: seq<Row>, k: nat, i: nat,
                     out: Option<AppendOutcome>)
    returns (k': nat)
    requires i <= k && i < |events|
    requires Distinguished(LedgerRows(events)) && Get(LedgerRows(events)[i], EventIdCol) == events[i].id
    requires Stands(before, LedgerRows(events), k)
    requires LandedAtMost(before, after, other, events[i].id)
    requires out.Some? ==> Confirmed(events[i], before, after, out.value)
    ensures Stands(after, LedgerRows(events), k') && k <= k'
    ensures out.Some? ==> i < k'
  {
    var intended := LedgerRows(events);
    if i < k {
      assert before[i] == before[..k][i] == intended[i];
      k' := k;
    } else if |before| == k {
      k' := LandingStands(before, after, other, intended, k);
      if out.Some? && out.value.idempotentSkip {
        var j :| 0 <= j < |before| && StoredAs(events[i], before[j], out.value.seqNo);
        StoredIsFiled(events[i], before[j], out.value.seqNo);
        FiledUnder(before, intended, k, i, j);
      }
    } else {
      k' := k;
      assert Get(before[k], EventIdCol) == events[i].id;
      assert HasId(before, events[i].id);
      if out.Some? {
        assert out.value.idempotentSkip;
        var j :| 0 <= j < |before| && StoredAs(events[i], before[j], out.value.seqNo);
        StoredIsFiled(events[i], before[j], out.value.seqNo);
        FiledUnder(before, intended, k, i, j);
        ContentIgnoresSeq(events[i], i + 1);
        SameRow(before[k], intended[k]);
      }
    }
  }

  lemma AppendTaxStands(events: seq<TaxEvent>, id: TaxEvent -> string, before: seq<Row>, after: seq<Row>,
                        other: seq<Row>, k: nat, i: nat, out: Option<AppendOutcome>)
    returns (k': nat)
    requires i <= k && i < |events|
    requires Distinguished(TaxTabRows(events, id)) && Get(TaxTabRows(events, id)[i], EventIdCol) == id(events[i])
    requires Stands(before, TaxTabRows(events, id), k)
    requires LandedAtMost(before, after, other, id(events[i]))
    requires out.Some? ==> ConfirmedTax(events[i], id(events[i]), before, after, out.value)
    ensures Stands(after, TaxTabRows(events, id), k') && k <= k'
    ensures out.Some? ==> i < k'
  {
    var intended := TaxTabRows(events, id);
    if i < k {
      assert before[i] == before[..k][i] == intended[i];
      k' := k;
    } else if |before| == k {
      k' := LandingStands(before, after, other, intended, k);
      if out.Some? && out.value.idempotentSkip {
        var j :| 0 <= j < |before| && StoredAsTax(events[i], id(events[i]), before[j], out.value.seqNo);
        StoredTaxIsFiled(events[i], id(events[i]), before[j], out.value.seqNo);
        FiledUnder(before, intended, k, i, j);
      }
    } else {
      k' := k;
      assert Get(before[k], EventIdCol) == id(events[i]);
      assert HasId(before, id(events[i]));
      if out.Some? {
        assert out.value.idempotentSkip;
        var j :| 0 <= j < |before| && StoredAsTax(events[i], id(events[i]), before[j], out.value.seqNo);
        StoredTaxIsFiled(events[i], id(events[i]), before[j], out.value.seqNo);
        FiledUnder(before, intended, k, i, j);
        TaxContentIgnoresSeq(events[i], id(events[i]), i + 1);
        SameRow(before[k], intended[k]);
      }
    }
  }

  // --- The commit. ---

  /** What the reconstruction guarantees of the events to commit. */
  ghost predicate Committable(events: seq<Event>, taxes: seq<TaxEvent>, id: TaxEvent -> string) {
    && (forall i :: 0 <= i < |events| ==> events[i].id != "")
    && (forall i, j :: 0 <= i < j < |events| ==> events[i].id != events[j].id)
    && (forall i :: 0 <= i < |taxes| ==> id(taxes[i]) != "")
    && (forall i, j :: 0 <= i < j < |taxes| ==> id(taxes[i]) != id(taxes[j]))
    && |events| < ROOM && |taxes| < ROOM
  }

  function AllIds(events: seq<Event>): (r: set<string>)
    ensures forall x :: x in r <==> exists i :: 0 <= i < |events| && events[i].id == x
  {
    if events == [] then {} else {events[0].id} + AllIds(events[1..])
  }

  function AllTaxIds(events: seq<TaxEvent>, id: TaxEvent -> string): (r: set<string>)
    ensures forall x :: x in r <==> exists i :: 0 <= i < |events| && id(events[i]) == x
  {
    if events == [] then {} else {id(events[0])} + AllTaxIds(events[1..], id)
  }

  predicate OnlyOwn(rows: seq<Row>, ids: set<string>) {
    forall i :: 0 <= i < |rows| ==> Get(rows[i], EventIdCol) == "" || Get(rows[i], EventIdCol) in ids
  }

  method AllOwn(rows: seq<Row>, ids: set<string>) returns (ok: bool)
    ensures ok <==> OnlyOwn(rows, ids)
  {
    var i := 0;
    while i < |rows|
      invariant 0 <= i <= |rows|
      invariant OnlyOwn(rows[..i], ids)
    {
      if Get(rows[i], EventIdCol) != "" && Get(rows[i], EventIdCol) !in ids { return false; }
      i := i + 1;
    }
    return true;
  }

  /** The target must hold this import's own events and no others. */
  method CheckCommitTarget(store: Store, ledgerIds: set<string>, taxIds: set<string>)
    returns (r: Result<(), ImportError>)
    requires store.Valid() && store.sheets.exclusive
    modifies store.sheets
    ensures store.Valid() && store.sheets.Grown()
    ensures r.Success? ==> OnlyOwn(store.sheets.ledger, ledgerIds) && OnlyOwn(store.sheets.tax, taxIds)
    ensures r == Failure(TargetNotEmpty) ==>
      !OnlyOwn(store.sheets.ledger, ledgerIds) || !OnlyOwn(store.sheets.tax, taxIds)
    ensures r.Failure? ==> r.error.TargetNotEmpty? || (r.error.StoreError? && !store.sheets.Calm())
  {
    var ledgerRows := store.ReadRowsCold(LedgerTab);
    if ledgerRows.Failure? { return Failure(StoreError(ledgerRows.error)); }
    var own := AllOwn(ledgerRows.value, ledgerIds);
    if !own { return Failure(TargetNotEmpty); }
    var taxRows := store.ReadRowsCold(TaxTab);
    if taxRows.Failure? { return Failure(StoreError(taxRows.error)); }
    own := AllOwn(taxRows.value, taxIds);
    if !own { return Failure(TargetNotEmpty); }
    return Success(());
  }

  // --- What a commit reports, and when nothing stands in its way. ---

  function Ids(events: seq<Event>): (r: seq<string>)
    ensures |r| == |events| && forall i :: 0 <= i < |events| ==> r[i] == events[i].id
  {
    seq(|events|, i requires 0 <= i < |events| => events[i].id)
  }

  function TaxIds(events: seq<TaxEvent>, id: TaxEvent -> string): (r: seq<string>)
    ensures |r| == |events| && forall i :: 0 <= i < |events| ==> r[i] == id(events[i])
  {
    seq(|events|, i requires 0 <= i < |events| => id(events[i]))
  }

  /** One more event reported, as found there or as new. */
  function Reported(report: CommitReport, id: string, skipped: bool): CommitReport {
    if skipped then report.(skipped := report.skipped + [id]) else report.(appended := report.appended + [id])
  }

  /** A report with the first `i` of these added: the first `n` were there before, the others are new. */
  function ReportFrom(report: CommitReport, ids: seq<string>, n: nat, i: nat): CommitReport
    requires i <= |ids|
  {
    var m := if i < n then i else n;
    CommitReport(report.appended + ids[m..i], report.skipped + ids[..m])
  }

  lemma ReportNext(report: CommitReport, ids: seq<string>, n: nat, i: nat)
    requires i < |ids|
    ensures Reported(ReportFrom(report, ids, n, i), ids[i], i < n) == ReportFrom(report, ids, n, i + 1)
  {
    var m := if i < n then i else n;
    if i < n {
      assert ids[..i + 1] == ids[..i] + [ids[i]];
      assert report.skipped + ids[..i + 1] == report.skipped + ids[..i] + [ids[i]];
    } else {
      assert ids[m..i + 1] == ids[m..i] + [ids[i]];
      assert report.appended + ids[m..i + 1] == report.appended + ids[m..i] + [ids[i]];
    }
  }

  /** A confirmed append was skipped exactly if the tab reached its row already, and otherwise the
      tab ended just before it. */
  lemma SkippedIff(before: seq<Row>, after: seq<Row>, other: seq<Row>, intended: seq<Row>, k: nat, i: nat,
                   skipped: bool)
    requires Distinguished(intended) && i <= k && i < |intended| && Stands(before, intended, k)
    requires LandedAtMost(before, after, other, Get(intended[i], EventIdCol))
    requires if skipped then after == before && HasId(before, Get(intended[i], EventIdCol))
             else |after| == |before| + 1
    ensures skipped <==> i < |before|
    ensures !skipped ==> |before| == i
  {
    FiledAt(before, intended, k, i);
    if skipped {
      var m :| 0 <= m < |before| && Get(before[m], EventIdCol) == Get(intended[i], EventIdCol);
      FiledUnder(before, intended, k, i, m);
    }
  }

  lemma FiledAt(rows: seq<Row>, intended: seq<Row>, k: nat, i: nat)
    requires i <= k && i < |intended| && Stands(rows, intended, k)
    ensures i < |rows| ==> Get(rows[i], EventIdCol) == Get(intended[i], EventIdCol)
  {
    assert i < k ==> rows[i] == rows[..k][i] == intended[i];
  }

  ghost predicate LedgerLoadsAt(intended: seq<Row>, a: nat, tax: seq<Row>)
    requires a <= |intended|
  {
    LogsOf(intended[..a], tax).Success?
  }

  ghost predicate TaxLoadsAt(ledger: seq<Row>, intended: seq<Row>, a: nat)
    requires a <= |intended|
  {
    LogsOf(ledger, intended[..a]).Success?
  }

  predicate FreeOn(other: seq<Row>, row: Row) {
    !HasId(other, Get(row, EventIdCol))
  }

  lemma PrefixOf<T>(a: seq<T>, b: seq<T>)
    requires a <= b
    ensures a == b[..|a|]
  {
  }

  lemma CommittedIsStored(events: seq<Event>, rows: seq<Row>, i: nat)
    requires i < |events| && i < |rows| && rows[i] == RowAt(events, i) && DecodeLedger(rows).Success?
    ensures Stored(events[i], rows)
  {
    DecodedAt(rows, RowToLedger, i);
    ContentIgnoresSeq(events[i], i + 1);
    assert StoredAs(events[i], rows[i], RowToLedger(rows[i]).value.seqNo);
  }

  lemma CommittedTaxIsStored(taxes: seq<TaxEvent>, id: TaxEvent -> string, rows: seq<Row>, i: nat)
    requires i < |taxes| && i < |rows| && rows[i] == TaxRowAt(taxes, id, i) && DecodeTax(rows).Success?
    ensures StoredTax(taxes[i], id(taxes[i]), rows)
  {
    DecodedAt(rows, RowToTax, i);
    TaxContentIgnoresSeq(taxes[i], id(taxes[i]), i + 1);
    assert StoredAsTax(taxes[i], id(taxes[i]), rows[i], RowToTax(rows[i]).value.0.seqNo);
  }

  /** The tab reached the row already, or ends just before it. */
  lemma NextRow(before: seq<Row>, intended: seq<Row>, i: nat)
    requires Distinguished(intended) && before <= intended && i <= |before| && i < |intended|
    ensures HasId(before, Get(intended[i], EventIdCol)) <==> i < |before|
    ensures i < |before| ==> before[i] == intended[i]
    ensures i == |before| ==> before + [intended[i]] == intended[..i + 1] && before + [intended[i]] <= intended
  {
    if i < |before| { assert Get(before[i], EventIdCol) == Get(intended[i], EventIdCol); }
  }

  /** The ledger tab begins the intended rows, and neither loading nor the tax tab's ids stand in
      the way of the rest. */
  ghost predicate LedgerClear(ledger: seq<Row>, intended: seq<Row>, tax: seq<Row>) {
    && ledger <= intended
    && (forall a :: |ledger| <= a <= |intended| ==> LedgerLoadsAt(intended, a, tax))
    && (forall i :: |ledger| <= i < |intended| ==> FreeOn(tax, intended[i]))
  }

  ghost predicate TaxClear(ledger: seq<Row>, intended: seq<Row>, tax: seq<Row>) {
    && tax <= intended
    && (forall a :: |tax| <= a <= |intended| ==> TaxLoadsAt(ledger, intended, a))
    && (forall i :: |tax| <= i < |intended| ==> FreeOn(ledger, intended[i]))
  }

  lemma ClearLoads(ledger: seq<Row>, intended: seq<Row>, tax: seq<Row>)
    requires LedgerClear(ledger, intended, tax)
    ensures LogsOf(ledger, tax).Success?
  {
    PrefixOf(ledger, intended);
    assert LedgerLoadsAt(intended, |ledger|, tax);
  }

  lemma ClearTaxLoads(ledger: seq<Row>, intended: seq<Row>, tax: seq<Row>)
    requires TaxClear(ledger, intended, tax)
    ensures LogsOf(ledger, tax).Success?
  {
    PrefixOf(tax, intended);
    assert TaxLoadsAt(ledger, intended, |tax|);
  }

  /** Events with ids, and the rows intended for them. */
  ghost predicate Filed(events: seq<Event>) {
    && |events| < ROOM && Distinguished(LedgerRows(events))
    && forall i :: 0 <= i < |events| ==> events[i].id != "" && Get(LedgerRows(events)[i], EventIdCol) == events[i].id
  }

  ghost predicate FiledTax(taxes: seq<TaxEvent>, id: TaxEvent -> string) {
    && |taxes| < ROOM && Distinguished(TaxTabRows(taxes, id))
    && forall i :: 0 <= i < |taxes| ==> id(taxes[i]) != "" && Get(TaxTabRows(taxes, id)[i], EventIdCol) == id(taxes[i])
  }

  /** The tab part way through a commit that began at `start`, `i` events on. */
  ghost predicate Reached(rows: seq<Row>, intended: seq<Row>, start: seq<Row>, i: nat, k: nat) {
    i <= k && Stands(rows, intended, k) && |rows| == if i < |start| then |start| else i
  }

  lemma ReachedNext(before: seq<Row>, after: seq<Row>, intended: seq<Row>, start: seq<Row>, i: nat, k: nat, k': nat,
                    skipped: bool)
    requires Reached(before, intended, start, i, k) && Stands(after, intended, k') && i < k'
    requires skipped <==> i < |before|
    requires if skipped then after == before else |before| == i && |after| == i + 1
    ensures Reached(after, intended, start, i + 1, k')
    ensures skipped <==> i < |start|
  {
  }

  lemma ReportsSkip(events: seq<Event>, before: seq<Row>, after: seq<Row>, other: seq<Row>, k: nat, i: nat,
                    out: AppendOutcome)
    requires Filed(events) && i <= k && i < |events| && Stands(before, LedgerRows(events), k)
    requires LandedAtMost(before, after, other, events[i].id) && Confirmed(events[i], before, after, out)
    ensures out.idempotentSkip <==> i < |before|
    ensures if out.idempotentSkip then after == before else |before| == i && |after| == i + 1
  {
    if out.idempotentSkip {
      var m :| 0 <= m < |before| && StoredAs(events[i], before[m], out.seqNo);
      StoredIsFiled(events[i], before[m], out.seqNo);
    }
    SkippedIff(before, after, other, LedgerRows(events), k, i, out.idempotentSkip);
  }

  lemma ReportsTaxSkip(taxes: seq<TaxEvent>, id: TaxEvent -> string, before: seq<Row>, after: seq<Row>,
                       other: seq<Row>, k: nat, i: nat, out: AppendOutcome)
    requires FiledTax(taxes, id) && i <= k && i < |taxes| && Stands(before, TaxTabRows(taxes, id), k)
    requires LandedAtMost(before, after, other, id(taxes[i]))
    requires ConfirmedTax(taxes[i], id(taxes[i]), before, after, out)
    ensures out.idempotentSkip <==> i < |before|
    ensures if out.idempotentSkip then after == before else |before| == i && |after| == i + 1
  {
    if out.idempotentSkip {
      var m :| 0 <= m < |before| && StoredAsTax(taxes[i], id(taxes[i]), before[m], out.seqNo);
      StoredTaxIsFiled(taxes[i], id(taxes[i]), before[m], out.seqNo);
    }
    SkippedIff(before, after, other, TaxTabRows(taxes, id), k, i, out.idempotentSkip);
  }

  /** With nothing in its way an append of a commit meeting no fault succeeds. */
  lemma CalmAppend(events: seq<Event>, before: seq<Row>, tax: seq<Row>, after: seq<Row>, i: nat,
                   out: Result<AppendOutcome, Escape.StoreError>)
    requires Filed(events) && i < |events| && i <= |before| && LedgerClear(before, LedgerRows(events), tax)
    requires Settles(events[i], before, tax, after, out)
    ensures out.Success? && LedgerClear(after, LedgerRows(events), tax)
  {
    PrefixOf(before, LedgerRows(events));
    NextRow(before, LedgerRows(events), i);
    assert LedgerLoadsAt(LedgerRows(events), |before|, tax);
    if i < |before| {
      CommittedIsStored(events, before, i);
    } else {
      assert FreeOn(tax, LedgerRows(events)[i]) && LedgerLoadsAt(LedgerRows(events), i + 1, tax);
    }
  }

  lemma CalmTaxAppend(taxes: seq<TaxEvent>, id: TaxEvent -> string, ledger: seq<Row>, before: seq<Row>,
                      after: seq<Row>, i: nat, out: Result<AppendOutcome, Escape.StoreError>)
    requires FiledTax(taxes, id) && i < |taxes| && i <= |before| && TaxClear(ledger, TaxTabRows(taxes, id), before)
    requires SettlesTax(taxes[i], id(taxes[i]), ledger, before, after, out)
    ensures out.Success? && TaxClear(ledger, TaxTabRows(taxes, id), after)
  {
    PrefixOf(before, TaxTabRows(taxes, id));
    NextRow(before, TaxTabRows(taxes, id), i);
    assert TaxLoadsAt(ledger, TaxTabRows(taxes, id), |before|);
    if i < |before| {
      CommittedTaxIsStored(taxes, id, before, i);
    } else {
      assert FreeOn(ledger, TaxTabRows(taxes, id)[i]) && TaxLoadsAt(ledger, TaxTabRows(taxes, id), i + 1);
    }
  }

  /** One append of the ledger part, whatever came of it. */
  lemma AppendedOne(events: seq<Event>, before: seq<Row>, after: seq<Row>, tax: seq<Row>, start: seq<Row>, i: nat,
                    j: nat, calm: bool, out: Result<AppendOutcome, Escape.StoreError>)
    returns (j': nat)
    requires Filed(events) && i < |events| && Reached(before, LedgerRows(events), start, i, j)
    requires LandedAtMost(before, after, tax, events[i].id)
    requires out.Success? ==> Confirmed(events[i], before, after, out.value)
    requires calm ==> LedgerClear(before, LedgerRows(events), tax) && Settles(events[i], before, tax, after, out)
    ensures Stands(after, LedgerRows(events), j') && j <= j'
    ensures out.Success? ==>
      Reached(after, LedgerRows(events), start, i + 1, j') && (out.value.idempotentSkip <==> i < |start|)
    ensures calm ==> out.Success? && LedgerClear(after, LedgerRows(events), tax)
  {
    j' := AppendStands(events, before, after, tax, j, i, Told(out));
    if out.Success? {
      ReportsSkip(events, before, after, tax, j, i, out.value);
      ReachedNext(before, after, LedgerRows(events), start, i, j, j', out.value.idempotentSkip);
    }
    if calm { CalmAppend(events, before, tax, after, i, out); }
  }

  lemma AppendedOneTax(taxes: seq<TaxEvent>, id: TaxEvent -> string, ledger: seq<Row>, before: seq<Row>,
                       after: seq<Row>, start: seq<Row>, i: nat, k: nat, calm: bool,
                       out: Result<AppendOutcome, Escape.StoreError>)
    returns (k': nat)
    requires FiledTax(taxes, id) && i < |taxes| && Reached(before, TaxTabRows(taxes, id), start, i, k)
    requires LandedAtMost(before, after, ledger, id(taxes[i]))
    requires out.Success? ==> ConfirmedTax(taxes[i], id(taxes[i]), before, after, out.value)
    requires calm ==>
      TaxClear(ledger, TaxTabRows(taxes, id), before) && SettlesTax(taxes[i], id(taxes[i]), ledger, before, after, out)
    ensures Stands(after, TaxTabRows(taxes, id), k') && k <= k'
    ensures out.Success? ==>
      Reached(after, TaxTabRows(taxes, id), start, i + 1, k') && (out.value.idempotentSkip <==> i < |start|)
    ensures calm ==> out.Success? && TaxClear(ledger, TaxTabRows(taxes, id), after)
  {
    k' := AppendTaxStands(taxes, id, before, after, ledger, k, i, Told(out));
    if out.Success? {
      ReportsTaxSkip(taxes, id, before, after, ledger, k, i, out.value);
      ReachedNext(before, after, TaxTabRows(taxes, id), start, i, k, k', out.value.idempotentSkip);
    }
    if calm { CalmTaxAppend(taxes, id, ledger, before, after, i, out); }
  }

  ghost predicate Ready(store: Store)
    reads store, store.sheets
  {
    store.Valid() && store.sheets.exclusive && Sound(store.sheets.ledger, store.sheets.tax)
  }

  function Told(r: Result<AppendOutcome, Escape.StoreError>): Option<AppendOutcome> {
    match r case Success(out) => Some(out) case Failure(_) => None
  }

  /** The ledger part of a commit that began at `start`, `i` events on. */
  ghost predicate LedgerPart(store: Store, events: seq<Event>, start: seq<Row>, i: nat, j: nat, report: CommitReport)
    reads store, store.sheets
  {
    && Ready(store) && i <= |events| && Reached(store.sheets.ledger, LedgerRows(events), start, i, j)
    && report == ReportFrom(CommitReport([], []), Ids(events), |start|, i)
  }

  ghost predicate TaxPart(store: Store, taxes: seq<TaxEvent>, first: CommitReport, start: seq<Row>, i: nat, k: nat,
                          report: CommitReport)
    reads store, store.sheets
  {
    && Ready(store) && i <= |taxes| && Reached(store.sheets.tax, TaxTabRows(taxes, store.taxEventId), start, i, k)
    && report == ReportFrom(first, TaxIds(taxes, store.taxEventId), |start|, i)
  }

  /** One event of the ledger part. */
  method CommitNext(store: Store, events: seq<Event>, i: nat, report: CommitReport, ghost start: seq<Row>, ghost j: nat,
                    ghost clear: bool)
    returns (r: Result<CommitReport, ImportError>, ghost j': nat)
    requires LedgerPart(store, events, start, i, j, report) && Filed(events) && i < |events|
    requires clear ==> LedgerClear(store.sheets.ledger, LedgerRows(events), store.sheets.tax)
    modifies store, store.sheets
    ensures Ready(store) && store.sheets.tax == old(store.sheets.tax)
    ensures Stands(store.sheets.ledger, LedgerRows(events), j') && j <= j'
    ensures r.Success? ==> LedgerPart(store, events, start, i + 1, j', r.value)
    ensures old(store.sheets.faults) <= store.sheets.faults
    ensures clear && store.sheets.Calm() ==>
      r.Success? && LedgerClear(store.sheets.ledger, LedgerRows(events), store.sheets.tax)
  {
    ghost var before, tax := store.sheets.ledger, store.sheets.tax;
    RoomLeft(before, LedgerRows(events), j, i);
    if clear { ClearLoads(before, LedgerRows(events), tax); }
    var out := store.AppendLedger(events[i]);
    j' := AppendedOne(events, before, store.sheets.ledger, tax, start, i, j, clear && store.sheets.Calm(), out);
    ReportNext(CommitReport([], []), Ids(events), |start|, i);
    if out.Failure? { return Failure(StoreAt(events[i].id, out.error)), j'; }
    r := Success(if out.value.idempotentSkip then report.(skipped := report.skipped + [out.value.eventId])
                 else report.(appended := report.appended + [out.value.eventId]));
  }

  /** The ledger part: every event in order, stopping at the first failure. It reports which rows
      were there and which are new, and meeting no fault with a clear way it succeeds. */
  method CommitLedger(store: Store, events: seq<Event>, ghost j: nat, ghost clear: bool)
    returns (r: Result<CommitReport, ImportError>, ghost j': nat)
    requires Ready(store) && Filed(events) && Stands(store.sheets.ledger, LedgerRows(events), j)
    requires clear ==> LedgerClear(store.sheets.ledger, LedgerRows(events), store.sheets.tax)
    modifies store, store.sheets
    ensures Ready(store) && store.sheets.tax == old(store.sheets.tax)
    ensures Stands(store.sheets.ledger, LedgerRows(events), j') && j <= j'
    ensures r.Success? ==> store.sheets.ledger == LedgerRows(events)
    ensures r.Success? ==>
      r.value == ReportFrom(CommitReport([], []), Ids(events), |old(store.sheets.ledger)|, |events|)
    ensures old(store.sheets.faults) <= store.sheets.faults
    ensures clear && store.sheets.Calm() ==> r.Success?
  {
    ghost var start := store.sheets.ledger;
    var report := CommitReport([], []);
    j' := j;
    var i := 0;
    while i < |events|
      invariant LedgerPart(store, events, start, i, j', report)
      invariant j <= j' && store.sheets.tax == old(store.sheets.tax)
      invariant old(store.sheets.faults) <= store.sheets.faults
      invariant clear && store.sheets.Calm() ==>
        LedgerClear(store.sheets.ledger, LedgerRows(events), store.sheets.tax)
    {
      var next;
      next, j' := CommitNext(store, events, i, report, start, j', clear && store.sheets.Calm());
      if next.Failure? { return next, j'; }
      report, i := next.value, i + 1;
    }
    StandsWhole(store.sheets.ledger, LedgerRows(events), j');
    return Success(report), j';
  }

  /** One event of the tax part. */
  method CommitNextTax(store: Store, taxes: seq<TaxEvent>, i: nat, report: CommitReport, ghost first: CommitReport,
                       ghost start: seq<Row>, ghost k: nat, ghost clear: bool)
    returns (r: Result<CommitReport, ImportError>, ghost k': nat)
    requires TaxPart(store, taxes, first, start, i, k, report) && FiledTax(taxes, store.taxEventId) && i < |taxes|
    requires clear ==> TaxClear(store.sheets.ledger, TaxTabRows(taxes, store.taxEventId), store.sheets.tax)
    modifies store, store.sheets
    ensures Ready(store) && store.sheets.ledger == old(store.sheets.ledger)
    ensures Stands(store.sheets.tax, TaxTabRows(taxes, store.taxEventId), k') && k <= k'
    ensures r.Success? ==> TaxPart(store, taxes, first, start, i + 1, k', r.value)
    ensures old(store.sheets.faults) <= store.sheets.faults
    ensures clear && store.sheets.Calm() ==>
      r.Success? && TaxClear(store.sheets.ledger, TaxTabRows(taxes, store.taxEventId), store.sheets.tax)
  {
    ghost var before, ledger := store.sheets.tax, store.sheets.ledger;
    var id := store.taxEventId;
    RoomLeft(before, TaxTabRows(taxes, id), k, i);
    if clear { ClearTaxLoads(ledger, TaxTabRows(taxes, id), before); }
    var out := store.AppendTax(taxes[i]);
    k' := AppendedOneTax(taxes, id, ledger, before, store.sheets.tax, start, i, k, clear && store.sheets.Calm(), out);
    ReportNext(first, TaxIds(taxes, id), |start|, i);
    if out.Failure? { return Failure(StoreAt(id(taxes[i]), out.error)), k'; }
    r := Success(if out.value.idempotentSkip then report.(skipped := report.skipped + [out.value.eventId])
                 else report.(appended := report.appended + [out.value.eventId]));
  }

  method CommitTax(store: Store, taxes: seq<TaxEvent>, report: CommitReport, ghost k: nat, ghost clear: bool)
    returns (r: Result<CommitReport, ImportError>, ghost k': nat)
    requires Ready(store) && FiledTax(taxes, store.taxEventId)
    requires Stands(store.sheets.tax, TaxTabRows(taxes, store.taxEventId), k)
    requires clear ==> TaxClear(store.sheets.ledger, TaxTabRows(taxes, store.taxEventId), store.sheets.tax)
    modifies store, store.sheets
    ensures Ready(store) && store.sheets.ledger == old(store.sheets.ledger)
    ensures Stands(store.sheets.tax, TaxTabRows(taxes, store.taxEventId), k') && k <= k'
    ensures r.Success? ==> store.sheets.tax == TaxTabRows(taxes, store.taxEventId)
    ensures r.Success? ==>
      r.value == ReportFrom(report, TaxIds(taxes, store.taxEventId), |old(store.sheets.tax)|, |taxes|)
    ensures old(store.sheets.faults) <= store.sheets.faults
    ensures clear && store.sheets.Calm() ==> r.Success?
  {
    ghost var start := store.sheets.tax;
    var out := report;
    k' := k;
    var i := 0;
    while i < |taxes|
      invariant TaxPart(store, taxes, report, start, i, k', out)
      invariant k <= k' && store.sheets.ledger == old(store.sheets.ledger)
      invariant old(store.sheets.faults) <= store.sheets.faults
      invariant clear && store.sheets.Calm() ==>
        TaxClear(store.sheets.ledger, TaxTabRows(taxes, store.taxEventId), store.sheets.tax)
    {
      var next;
      next, k' := CommitNextTax(store, taxes, i, out, report, start, k', clear && store.sheets.Calm());
      if next.Failure? { return next, k'; }
      out, i := next.value, i + 1;
    }
    StandsWhole(store.sheets.tax, TaxTabRows(taxes, store.taxEventId), k');
    return Success(out), k';
  }

  lemma RoomLeft(rows: seq<Row>, intended: seq<Row>, k: nat, i: nat)
    requires Stands(rows, intended, k) && |intended| < ROOM
    ensures |rows| < ROOM
  {
  }

  lemma StandsWhole(rows: seq<Row>, intended: seq<Row>, k: nat)
    requires Stands(rows, intended, k) && |intended| <= k
    ensures rows == intended
  {
    assert rows[..k] == rows && intended[..k] == intended;
  }

  /** A complete tab stands complete, and nothing can be added to it. */
  lemma WholeStays(rows: seq<Row>, intended: seq<Row>, k: nat)
    requires Stands(rows, intended, k)
    ensures rows == intended ==> k == |intended|
  {
  }

  lemma StillResumable(ledger: seq<Row>, tax: seq<Row>, ledgerRows: seq<Row>, taxRows: seq<Row>, j: nat, k: nat)
    requires Stands(ledger, ledgerRows, j) && Stands(tax, taxRows, k)
    requires tax == [] || j == |ledgerRows|
    ensures Resumable(ledger, tax, ledgerRows, taxRows)
  {
    if tax != [] { StandsWhole(ledger, ledgerRows, j); }
  }

  /** Nothing stands in the way of the commit: the tabs hold only rows it would put there, and
      neither loading nor an id on the other tab stops the rest. */
  ghost predicate CommitClear(events: seq<Event>, taxes: seq<TaxEvent>, id: TaxEvent -> string, ledger: seq<Row>,
                              tax: seq<Row>)
  {
    LedgerClear(ledger, LedgerRows(events), tax) && TaxClear(LedgerRows(events), TaxTabRows(taxes, id), tax)
  }

  /** The report of a commit that found `m` ledger rows and `n` tax rows there. */
  function FullReport(events: seq<Event>, taxes: seq<TaxEvent>, id: TaxEvent -> string, m: nat, n: nat): CommitReport {
    ReportFrom(ReportFrom(CommitReport([], []), Ids(events), m, |events|), TaxIds(taxes, id), n, |taxes|)
  }

  method CommitBoth(store: Store, events: seq<Event>, taxes: seq<TaxEvent>, ghost j: nat, ghost k: nat,
                    ghost clear: bool)
    returns (r: Result<CommitReport, ImportError>)
    requires Ready(store) && Committable(events, taxes, store.taxEventId)
    requires Stands(store.sheets.ledger, LedgerRows(events), j)
    requires Stands(store.sheets.tax, TaxTabRows(taxes, store.taxEventId), k)
    requires store.sheets.tax == [] || j == |LedgerRows(events)|
    requires clear ==> CommitClear(events, taxes, store.taxEventId, store.sheets.ledger, store.sheets.tax)
    modifies store, store.sheets
    ensures Ready(store)
    ensures Resumable(store.sheets.ledger, store.sheets.tax, LedgerRows(events), TaxTabRows(taxes, store.taxEventId))
    ensures r.Success? ==>
      store.sheets.ledger == LedgerRows(events) && store.sheets.tax == TaxTabRows(taxes, store.taxEventId)
    ensures r.Success? ==>
      r.value == FullReport(events, taxes, store.taxEventId, |old(store.sheets.ledger)|, |old(store.sheets.tax)|)
    ensures old(store.sheets.faults) <= store.sheets.faults
    ensures clear && store.sheets.Calm() ==> r.Success?
  {
    LedgerRowsDistinguished(events);
    TaxRowsDistinguished(taxes, store.taxEventId);
    var ledgerPart;
    ghost var j', k';
    ledgerPart, j' := CommitLedger(store, events, j, clear);
    if ledgerPart.Failure? {
      StillResumable(store.sheets.ledger, store.sheets.tax, LedgerRows(events), TaxTabRows(taxes, store.taxEventId), j',
                     k);
      return Failure(ledgerPart.error);
    }
    WholeStays(store.sheets.ledger, LedgerRows(events), j');
    r, k' := CommitTax(store, taxes, ledgerPart.value, k, clear);
    StillResumable(store.sheets.ledger, store.sheets.tax, LedgerRows(events), TaxTabRows(taxes, store.taxEventId), j',
                   k');
  }

  lemma OwnRows(rows: seq<Row>, intended: seq<Row>, ids: set<string>)
    requires rows <= intended && forall i :: 0 <= i < |intended| ==> Get(intended[i], EventIdCol) in ids
    ensures OnlyOwn(rows, ids)
  {
  }

  lemma ClearIsOwn(events: seq<Event>, taxes: seq<TaxEvent>, id: TaxEvent -> string, ledger: seq<Row>, tax: seq<Row>)
    requires Committable(events, taxes, id) && CommitClear(events, taxes, id, ledger, tax)
    ensures OnlyOwn(ledger, AllIds(events)) && OnlyOwn(tax, AllTaxIds(taxes, id))
  {
    LedgerRowsDistinguished(events);
    TaxRowsDistinguished(taxes, id);
    OwnRows(ledger, LedgerRows(events), AllIds(events));
    OwnRows(tax, TaxTabRows(taxes, id), AllTaxIds(taxes, id));
  }

  method CommitHeld(store: Store, events: seq<Event>, taxes: seq<TaxEvent>, ghost clear: bool)
    returns (r: Result<CommitReport, ImportError>)
    requires Ready(store) && Committable(events, taxes, store.taxEventId)
    requires Resumable(store.sheets.ledger, store.sheets.tax, LedgerRows(events), TaxTabRows(taxes, store.taxEventId))
    requires clear ==> CommitClear(events, taxes, store.taxEventId, store.sheets.ledger, store.sheets.tax)
    modifies store, store.sheets
    ensures Ready(store)
    ensures Resumable(store.sheets.ledger, store.sheets.tax, LedgerRows(events), TaxTabRows(taxes, store.taxEventId))
    ensures r.Success? ==>
      store.sheets.ledger == LedgerRows(events) && store.sheets.tax == TaxTabRows(taxes, store.taxEventId)
    ensures r.Success? ==>
      r.value == FullReport(events, taxes, store.taxEventId, |old(store.sheets.ledger)|, |old(store.sheets.tax)|)
    ensures old(store.sheets.faults) <= store.sheets.faults
    ensures clear && store.sheets.Calm() ==> r.Success?
  {
    if clear { ClearIsOwn(events, taxes, store.taxEventId, store.sheets.ledger, store.sheets.tax); }
    var target := CheckCommitTarget(store, AllIds(events), AllTaxIds(taxes, store.taxEventId));
    if target.Failure? { return Failure(target.error); }
    ghost var j: nat, k: nat :| Stands(store.sheets.ledger, LedgerRows(events), j)
      && Stands(store.sheets.tax, TaxTabRows(taxes, store.taxEventId), k)
      && (store.sheets.tax == [] || store.sheets.ledger == LedgerRows(events));
    WholeStays(store.sheets.ledger, LedgerRows(events), j);
    r := CommitBoth(store, events, taxes, j, k, clear);
  }

  /** One commit: refused without the owner's acceptance or a clean reconciliation; otherwise
      it takes the lock for the whole run, checks the target and appends. Wherever it stops,
      the tabs can be resumed; if it finishes, they hold exactly the reconstruction, and it reports
      which events were there and which are new. Meeting no fault with a clear way it finishes. */
  method Commit(store: Store, accepted: bool, allowed: bool, events: seq<Event>, taxes: seq<TaxEvent>)
    returns (r: Result<CommitReport, ImportError>)
    requires store.Valid() && Sound(store.sheets.ledger, store.sheets.tax)
    requires Committable(events, taxes, store.taxEventId)
    requires Resumable(store.sheets.ledger, store.sheets.tax, LedgerRows(events), TaxTabRows(taxes, store.taxEventId))
    modifies store, store.sheets
    ensures store.Valid() && Sound(store.sheets.ledger, store.sheets.tax)
    ensures store.sheets.exclusive == old(store.sheets.exclusive)
    ensures Resumable(store.sheets.ledger, store.sheets.tax, LedgerRows(events), TaxTabRows(taxes, store.taxEventId))
    ensures r.Success? ==>
      accepted && allowed && store.sheets.ledger == LedgerRows(events)
        && store.sheets.tax == TaxTabRows(taxes, store.taxEventId)
    ensures r.Success? ==>
      r.value == FullReport(events, taxes, store.taxEventId, |old(store.sheets.ledger)|, |old(store.sheets.tax)|)
    ensures !accepted ==> r == Failure(OwnerAcceptanceRequired)
    ensures accepted && !allowed ==> r == Failure(CommitBlockedByReconciliation)
    ensures !accepted || !allowed ==>
      store.sheets.ledger == old(store.sheets.ledger) && store.sheets.tax == old(store.sheets.tax)
    ensures old(store.sheets.faults) <= store.sheets.faults
    ensures old(CommitClear(events, taxes, store.taxEventId, store.sheets.ledger, store.sheets.tax)) ==>
      store.sheets.Calm() && accepted && allowed ==> r.Success?
  {
    if !accepted { return Failure(OwnerAcceptanceRequired); }
    if !allowed { return Failure(CommitBlockedByReconciliation); }
    var was := store.sheets.exclusive;
    var ok := store.Acquire();
    if !ok { return Failure(StoreError(Unreachable)); }
    r := CommitHeld(store, events, taxes,
                    CommitClear(events, taxes, store.taxEventId, store.sheets.ledger, store.sheets.tax));
    store.sheets.exclusive := was;
  }

  /** Any number of interrupted commits followed by one that finishes leaves the tabs as a
      single commit of a fresh workbook would. If no fault is met and the way is clear, one
      attempt is enough. */
  method CommitRepeatedly(store: Store, events: seq<Event>, taxes: seq<TaxEvent>, attempts: nat) returns (done: bool)
    requires store.Valid() && store.sheets.ledger == [] && store.sheets.tax == []
    requires Committable(events, taxes, store.taxEventId)
    modifies store, store.sheets
    ensures Resumable(store.sheets.ledger, store.sheets.tax, LedgerRows(events), TaxTabRows(taxes, store.taxEventId))
    ensures done ==>
      store.sheets.ledger == LedgerRows(events) && store.sheets.tax == TaxTabRows(taxes, store.taxEventId)
    ensures attempts > 0 && CommitClear(events, taxes, store.taxEventId, [], []) && store.sheets.Calm() ==> done
  {
    FreshIsResumable(LedgerRows(events), TaxTabRows(taxes, store.taxEventId));
    done := false;
    var i := 0;
    while i < attempts && !done
      invariant store.Valid() && Sound(store.sheets.ledger, store.sheets.tax)
      invariant
        var taxRows := TaxTabRows(taxes, store.taxEventId);
        Resumable(store.sheets.ledger, store.sheets.tax, LedgerRows(events), taxRows)
      invariant done ==>
        store.sheets.ledger == LedgerRows(events) && store.sheets.tax == TaxTabRows(taxes, store.taxEventId)
      invariant i == 0 ==> store.sheets.ledger == [] && store.sheets.tax == []
      invariant old(store.sheets.faults) <= store.sheets.faults && 0 <= i
      invariant i > 0 && CommitClear(events, taxes, store.taxEventId, [], []) && store.sheets.Calm() ==> done
      decreases attempts - i
    {
      var r := Commit(store, true, true, events, taxes);
      done := r.Success?;
      i := i + 1;
    }
  }

  // --- Loading what was committed. ---

  lemma CommittedRow(events: seq<Event>, i: nat)
    requires i < |events| && events[i].seqNo == i + 1 && WellTyped(events[i]) && Storable(events[i])
    ensures RowToLedger(RowAt(events, i)) == Success(events[i])
  {
    assert WithSeq(events[i], i + 1) == events[i];
    LedgerRowRoundTrip(events[i]);
  }

  lemma CommittedDecodes(events: seq<Event>)
    requires forall i :: 0 <= i < |events| ==> events[i].seqNo == i + 1 && WellTyped(events[i]) && Storable(events[i])
    ensures DecodeLedger(LedgerRows(events)) == Success(events)
  {
    forall i | 0 <= i < |events|
      ensures RowToLedger(LedgerRows(events)[i]) == Success(events[i])
    {
      CommittedRow(events, i);
    }
    DecodesRowByRow(LedgerRows(events), events, RowToLedger);
  }

  lemma CountingIsDense(events: seq<Event>)
    requires forall i :: 0 <= i < |events| ==> events[i].seqNo == i + 1
    ensures Dense(SeqNos(events))
  {
    assert forall i :: 0 <= i < |events| ==> SeqNos(events)[i] == i + 1;
  }

  /** Loading a committed ledger returns the reconstruction, in order. */
  lemma {:induction false} CommittedLoads(events: seq<Event>, taxRows: seq<Row>)
    requires forall i :: 0 <= i < |events| ==> events[i].seqNo == i + 1 && WellTyped(events[i]) && Storable(events[i])
    requires forall i :: 0 <= i < |events| ==> !events[i].kind.Reversal?
    requires DecodeTax(taxRows).Success? && Dense(TaxSeqNos(DecodeTax(taxRows).value))
    ensures LogsOf(LedgerRows(events), taxRows).Success?
    ensures LogsOf(LedgerRows(events), taxRows).value.ledger == events
  {
    CommittedDecodes(events);
    InSeqOrderIsSorted(events, 1);
    CountingIsDense(events);
  }
}
