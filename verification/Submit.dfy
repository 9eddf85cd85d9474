/** Submitting one composed ledger event, and submitting it again after a failure. */
module Submits {
  import opened Basics
  import opened Text
  import L = Ledger
  import opened Escape
  import opened Rows
  import opened TaxRows
  import opened Workbook
  import opened Logs
  import opened Idempotency
  import opened Stores
  import EventIds

  datatype WriteFailure = VerifyMismatch | WorkbookUnreachable

  datatype SubmitOutcome =
    | Landed(outcome: AppendOutcome) | Refused(error: L.LedgerError) | LockHeld | WriteFailed(failure: WriteFailure)

  function WriteFailedBy(e: StoreError): SubmitOutcome {
    WriteFailed(if e == WriteVerifyMismatch then VerifyMismatch else WorkbookUnreachable)
  }

  /** The event's cells without its id and number. */
  function Content(e: L.Event): Row {
    LedgerToRow(e.(id := "", seqNo := 0)) - {SeqCol, EventIdCol}
  }

  lemma {:induction false} ContentIgnoresStamp(e: L.Event, id: string, n: nat)
    ensures Content(e.(id := id, seqNo := n)) == Content(e)
  {
  }

  /** Two events have the same content exactly if they do the same on the same day. */
  lemma {:induction false} SameContentIff(e: L.Event, f: L.Event)
    requires Submittable(e) && Submittable(f)
    ensures Content(e) == Content(f) <==> e.date == f.date && e.kind == f.kind
  {
    if e.date == f.date && e.kind == f.kind { assert e.(id := "", seqNo := 0) == f.(id := "", seqNo := 0); }
    if Content(e) == Content(f) {
      var x, y := e.(id := "x", seqNo := 1), f.(id := "x", seqNo := 1);
      ContentIgnoresStamp(e, "x", 1);
      ContentIgnoresStamp(f, "x", 1);
      SameStampedRow(x, y);
      LedgerRowRoundTrip(x);
      LedgerRowRoundTrip(y);
    }
  }

  lemma ContentCell(e: L.Event, c: Column)
    requires c != SeqCol && c != EventIdCol
    ensures Get(Content(e), c) == LedgerCell(e, c)
  {
    LedgerRowCell(e.(id := "", seqNo := 0), c);
  }

  lemma SameStampedRow(x: L.Event, y: L.Event)
    requires Content(x) == Content(y) && x.id == y.id && x.seqNo == y.seqNo
    ensures LedgerToRow(x) == LedgerToRow(y)
  {
    forall c: Column ensures Get(LedgerToRow(x), c) == LedgerCell(y, c) {
      LedgerRowCell(x, c);
      if c != SeqCol && c != EventIdCol {
        ContentCell(x, c);
        ContentCell(y, c);
      }
    }
    LedgerRowShape(x);
    RowOfCells(LedgerToRow(x), c => LedgerCell(y, c));
  }

  // --- Rows that read as the same event. ---

  /** Rows satisfying a test. */
  function Count(rows: seq<Row>, test: Row -> bool): nat {
    if rows == [] then 0 else Count(rows[..|rows| - 1], test) + if test(rows[|rows| - 1]) then 1 else 0
  }

  lemma {:induction false} CountPositive(rows: seq<Row>, test: Row -> bool)
    ensures Count(rows, test) > 0 <==> exists i :: 0 <= i < |rows| && test(rows[i])
  {
    if rows != [] {
      var front := rows[..|rows| - 1];
      CountPositive(front, test);
      if i :| 0 <= i < |front| && test(front[i]) { assert test(rows[i]); }
      if i :| 0 <= i < |rows| && test(rows[i]) {
        if i < |front| { assert test(front[i]); }
      }
    }
  }

  lemma CountAppend(rows: seq<Row>, row: Row, test: Row -> bool)
    ensures Count(rows + [row], test) == Count(rows, test) + if test(row) then 1 else 0
  {
    assert (rows + [row])[..|rows|] == rows;
  }

  /** The row reads as the candidate, under whatever id and number. */
  function ReadsAs(candidate: L.Event): Row -> bool {
    (row: Row) => RowToLedger(row).Success? && Content(RowToLedger(row).value) == Content(candidate)
  }

  function Copies(rows: seq<Row>, candidate: L.Event): nat {
    Count(rows, ReadsAs(candidate))
  }

  // --- What a full load shows. ---

  lemma {:induction false} InsertMembers(e: L.Event, s: seq<L.Event>)
    ensures forall x :: x in L.InsertBySeq(e, s) <==> x == e || x in s
  {
    if s != [] { InsertMembers(e, s[1..]); }
  }

  lemma {:induction false} SortedMembers(s: seq<L.Event>)
    ensures forall x :: x in L.SortBySeq(s) <==> x in s
  {
    if s != [] {
      SortedMembers(s[1..]);
      InsertMembers(s[0], L.SortBySeq(s[1..]));
    }
  }

  /** An event is in the loaded log exactly when some row reads as it. */
  lemma LoadedEvents(rows: seq<Row>, tax: seq<Row>, e: L.Event)
    requires LogsOf(rows, tax).Success?
    ensures e in LogsOf(rows, tax).value.ledger <==> exists i :: 0 <= i < |rows| && RowToLedger(rows[i]) == Success(e)
  {
    var events := DecodeLedger(rows).value;
    SortedMembers(events);
    if i :| 0 <= i < |events| && events[i] == e { DecodedAt(rows, RowToLedger, i); }
    if i :| 0 <= i < |rows| && RowToLedger(rows[i]) == Success(e) { DecodedAt(rows, RowToLedger, i); }
  }

  lemma RowKeepsId(row: Row)
    requires RowToLedger(row).Success?
    ensures Get(row, EventIdCol) == RowToLedger(row).value.id != ""
  {
  }

  // --- Choosing the id. ---

  method FindFirst(log: seq<L.Event>, test: L.Event -> bool) returns (r: Option<string>)
    ensures r.Some? ==> exists i :: 0 <= i < |log| && test(log[i]) && log[i].id == r.value
    ensures r.None? ==> forall i :: 0 <= i < |log| ==> !test(log[i])
  {
    var i := 0;
    while i < |log|
      invariant 0 <= i <= |log|
      invariant forall k :: 0 <= k < i ==> !test(log[k])
    {
      if test(log[i]) { return Some(log[i].id); }
      i := i + 1;
    }
    return None;
  }

  function SameContent(candidate: L.Event): L.Event -> bool {
    (e: L.Event) => Content(e) == Content(candidate)
  }

  method CrossTabIds(logs: EventLogs, store: Store) returns (ids: set<string>)
    ensures forall x :: x in ids <==>
      (exists i :: 0 <= i < |logs.ledger| && logs.ledger[i].id == x)
        || (exists i :: 0 <= i < |logs.tax| && store.taxEventId(logs.tax[i].0) == x)
  {
    ids := {};
    var i := 0;
    while i < |logs.ledger|
      invariant 0 <= i <= |logs.ledger|
      invariant forall x :: x in ids <==> exists k :: 0 <= k < i && logs.ledger[k].id == x
    {
      ids := ids + {logs.ledger[i].id};
      i := i + 1;
    }
    var j := 0;
    while j < |logs.tax|
      invariant 0 <= j <= |logs.tax|
      invariant forall x ::
        x in ids <==>
          (exists k :: 0 <= k < |logs.ledger| && logs.ledger[k].id == x)
            || (exists k :: 0 <= k < j && store.taxEventId(logs.tax[k].0) == x)
    {
      ids := ids + {store.taxEventId(logs.tax[j].0)};
      j := j + 1;
    }
  }

  /** An id that `e` may be given: its own, or one made from its content and a bump. */
  ghost predicate IdFor(e: L.Event, nonce: nat, id: string) {
    id == e.id || exists bump: nat :: id == EventIds.Candidate(nonce, bump)
  }

  /** Some loaded event goes by this id. */
  predicate Logged(logs: EventLogs, taxEventId: TaxEvent -> string, id: string) {
    || (exists i :: 0 <= i < |logs.ledger| && logs.ledger[i].id == id)
    || (exists i :: 0 <= i < |logs.tax| && taxEventId(logs.tax[i].0) == id)
  }

  /** The id of the first bump that no loaded event goes by. */
  ghost predicate FirstFree(logs: EventLogs, taxEventId: TaxEvent -> string, nonce: nat, id: string) {
    exists bump: nat ::
      id == EventIds.Candidate(nonce, bump) && !Logged(logs, taxEventId, id)
      && forall b: nat :: b < bump ==> Logged(logs, taxEventId, EventIds.Candidate(nonce, b))
  }

  /** An event already loaded keeps its id. That of a genuinely new one is on neither tab's log,
      and is the first of those made from its content that is not. */
  method AssignLedgerId(logs: EventLogs, store: Store, e: L.Event, nonce: nat) returns (id: string)
    ensures id != "" && IdFor(e, nonce, id)
    ensures
      if e.id != "" && Logged(logs, store.taxEventId, e.id) then id == e.id
      else FirstFree(logs, store.taxEventId, nonce, id)
    ensures id == e.id || forall i :: 0 <= i < |logs.ledger| ==> logs.ledger[i].id != id
    ensures id == e.id || forall i :: 0 <= i < |logs.tax| ==> store.taxEventId(logs.tax[i].0) != id
  {
    var ids := CrossTabIds(logs, store);
    if e.id != "" && e.id in ids { return e.id; }
    var bumps;
    id, bumps := EventIds.AssignEventId(ids, nonce);
  }

  // --- The submit. ---

  predicate Submittable(e: L.Event) {
    StorableKind(e.kind) && WellTyped(e.(seqNo := 0))
  }

  lemma {:induction false} StampedIsStorable(e: L.Event, id: string, n: nat)
    requires Submittable(e) && id != "" && FitsI64(n)
    ensures WellTyped(WithSeq(e.(id := id), n)) && Storable(WithSeq(e.(id := id), n))
  {
  }

  lemma {:induction false} ReadsAsOwn(candidate: L.Event, id: string, n: nat, row: Row)
    requires RowToLedger(row) == Success(WithSeq(candidate.(id := id), n))
    ensures ReadsAs(candidate)(row)
  {
    ContentIgnoresStamp(candidate, id, n);
  }

  lemma {:induction false} SkippedIsCopy(candidate: L.Event, id: string, row: Row, n: nat)
    requires Submittable(candidate) && id != "" && StoredAs(candidate.(id := id), row, n)
    ensures ReadsAs(candidate)(row)
  {
    ReadSeqFits(row);
    StampedIsStorable(candidate, id, n);
    SkippedRowIsEvent(candidate.(id := id), row, n);
    ReadsAsOwn(candidate, id, n, row);
  }

  lemma {:induction false} FreshIsCopy(candidate: L.Event, id: string, n: nat)
    requires Submittable(candidate) && id != "" && FitsI64(n)
    ensures ReadsAs(candidate)(LedgerToRow(WithSeq(candidate.(id := id), n)))
  {
    StampedIsStorable(candidate, id, n);
    LedgerRowRoundTrip(WithSeq(candidate.(id := id), n));
    ReadsAsOwn(candidate, id, n, LedgerToRow(WithSeq(candidate.(id := id), n)));
  }

  predicate LogHasId(log: seq<L.Event>, id: string) {
    exists i :: 0 <= i < |log| && log[i].id == id
  }

  /** The content lookup finds the row that reads as the candidate, if there is one. */
  lemma {:induction false} ContentFound(rows: seq<Row>, tax: seq<Row>, logs: EventLogs, candidate: L.Event,
                                        existing: Option<string>)
    requires LogsOf(rows, tax) == Success(logs)
    requires existing.Some? ==>
      exists i ::
        0 <= i < |logs.ledger| && SameContent(candidate)(logs.ledger[i]) && logs.ledger[i].id == existing.value
    requires existing.None? ==> forall i :: 0 <= i < |logs.ledger| ==> !SameContent(candidate)(logs.ledger[i])
    ensures existing.None? ==> Copies(rows, candidate) == 0
    ensures existing.Some? ==> HasId(rows, existing.value) && existing.value != "" && Copies(rows, candidate) > 0
  {
    if existing.Some? {
      var i :| 0 <= i < |logs.ledger| && SameContent(candidate)(logs.ledger[i]) && logs.ledger[i].id == existing.value;
      LoadedEvents(rows, tax, logs.ledger[i]);
      var j :| 0 <= j < |rows| && RowToLedger(rows[j]) == Success(logs.ledger[i]);
      RowKeepsId(rows[j]);
      assert ReadsAs(candidate)(rows[j]);
      CountPositive(rows, ReadsAs(candidate));
    } else {
      forall j | 0 <= j < |rows|
        ensures !ReadsAs(candidate)(rows[j])
      {
        NotLoadedNotRead(rows, tax, logs, candidate, j);
      }
      CountPositive(rows, ReadsAs(candidate));
    }
  }

  lemma NotLoadedNotRead(rows: seq<Row>, tax: seq<Row>, logs: EventLogs, candidate: L.Event, j: nat)
    requires LogsOf(rows, tax) == Success(logs) && j < |rows|
    requires forall i :: 0 <= i < |logs.ledger| ==> !SameContent(candidate)(logs.ledger[i])
    ensures !ReadsAs(candidate)(rows[j])
  {
    if RowToLedger(rows[j]).Success? {
      var e := RowToLedger(rows[j]).value;
      LoadedEvents(rows, tax, e);
      var i :| 0 <= i < |logs.ledger| && logs.ledger[i] == e;
      assert !SameContent(candidate)(logs.ledger[i]);
    }
  }

  /** A row landed under an id the log did not have. */
  lemma FreshWasNotRetry(before: seq<Row>, tax: seq<Row>, logs: EventLogs, id: string)
    requires LogsOf(before, tax) == Success(logs)
    requires !HasId(before, id)
    ensures !LogHasId(logs.ledger, id)
  {
    forall i | 0 <= i < |logs.ledger| ensures logs.ledger[i].id != id {
      LoadedEvents(before, tax, logs.ledger[i]);
      var j :| 0 <= j < |before| && RowToLedger(before[j]) == Success(logs.ledger[i]);
      RowKeepsId(before[j]);
    }
  }

  lemma {:induction false} InsertTaxMembers(e: (TaxEvent, string), s: seq<(TaxEvent, string)>)
    ensures forall x :: x in InsertTax(e, s) <==> x == e || x in s
  {
    if s != [] { InsertTaxMembers(e, s[1..]); }
  }

  lemma {:induction false} SortedTaxMembers(s: seq<(TaxEvent, string)>)
    ensures forall x :: x in SortTax(s) <==> x in s
  {
    if s != [] {
      SortedTaxMembers(s[1..]);
      InsertTaxMembers(s[0], SortTax(s[1..]));
    }
  }

  /** Every tax event is filed under the id of its content, as the store files them. */
  ghost predicate TaxIdsOwn(logs: EventLogs, taxEventId: TaxEvent -> string) {
    forall i :: 0 <= i < |logs.tax| ==> logs.tax[i].1 == taxEventId(logs.tax[i].0)
  }

  lemma TaxRowKeepsId(row: Row)
    requires RowToTax(row).Success?
    ensures Get(row, EventIdCol) == RowToTax(row).value.1
  {
  }

  /** An id no loaded event has is on neither tab. */
  lemma {:induction false} UnloggedIsFree(rows: seq<Row>, tax: seq<Row>, logs: EventLogs, id: string)
    requires LogsOf(rows, tax) == Success(logs)
    requires forall i :: 0 <= i < |logs.ledger| ==> logs.ledger[i].id != id
    requires forall i :: 0 <= i < |logs.tax| ==> logs.tax[i].1 != id
    ensures !HasId(rows, id) && !HasId(tax, id)
  {
    forall j | 0 <= j < |rows| ensures Get(rows[j], EventIdCol) != id {
      DecodedAt(rows, RowToLedger, j);
      RowKeepsId(rows[j]);
      LoadedEvents(rows, tax, RowToLedger(rows[j]).value);
    }
    forall j | 0 <= j < |tax| ensures Get(tax[j], EventIdCol) != id {
      DecodedAt(tax, RowToTax, j);
      TaxRowKeepsId(tax[j]);
      SortedTaxMembers(DecodeTax(tax).value);
      assert RowToTax(tax[j]).value in logs.tax;
    }
  }

  /** An id is logged exactly if some ledger row has it. */
  lemma {:induction false} LoggedIff(rows: seq<Row>, tax: seq<Row>, logs: EventLogs, id: string)
    requires LogsOf(rows, tax) == Success(logs)
    ensures LogHasId(logs.ledger, id) <==> HasId(rows, id)
  {
    if j :| 0 <= j < |rows| && Get(rows[j], EventIdCol) == id {
      DecodedAt(rows, RowToLedger, j);
      RowKeepsId(rows[j]);
      LoadedEvents(rows, tax, RowToLedger(rows[j]).value);
    } else {
      FreshWasNotRetry(rows, tax, logs, id);
    }
  }

  /** The id an event is submitted under: that of an event with the same content, else new. */
  method ChooseId(store: Store, candidate: L.Event, nonce: nat, logs: EventLogs, ghost rows: seq<Row>,
                  ghost tax: seq<Row>)
    returns (id: string)
    requires LogsOf(rows, tax) == Success(logs)
    ensures id != "" && (HasId(rows, id) || IdFor(candidate, nonce, id))
    ensures Copies(rows, candidate) > 0 ==> HasId(rows, id)
    ensures NewIdIsFree(store.taxEventId, candidate, rows, tax, id)
  {
    var existing := FindFirst(logs.ledger, SameContent(candidate));
    ContentFound(rows, tax, logs, candidate, existing);
    if existing.Some? { return existing.value; }
    id := AssignLedgerId(logs, store, candidate, nonce);
    if candidate.id == "" && TaxIdsOwn(logs, store.taxEventId) { UnloggedIsFree(rows, tax, logs, id); }
  }

  /** An event no row reads as, composed without an id, is given one that is on neither tab. */
  ghost predicate NewIdIsFree(taxEventId: TaxEvent -> string, candidate: L.Event, rows: seq<Row>, tax: seq<Row>,
                              id: string)
  {
    LogsOf(rows, tax).Success? && TaxIdsOwn(LogsOf(rows, tax).value, taxEventId)
      && candidate.id == "" && Copies(rows, candidate) == 0 ==>
      !HasId(rows, id) && !HasId(tax, id)
  }

  /** What one submit leaves: at most one row more, validated against the log it joined and
      under an id new to both tabs; none if it is refused, or if a row reads as the candidate
      already; and after a success a row confirmed to be the candidate's. */
  ghost predicate SubmitKeeps(candidate: L.Event, nonce: nat, before: seq<Row>, tax: seq<Row>, after: seq<Row>,
                              r: SubmitOutcome)
  {
    && (after == before || Joined(candidate, nonce, before, tax, after))
    && (Copies(before, candidate) > 0 || r.Refused? || r.LockHeld? ==> after == before)
    && (r.Landed? ==>
          r.outcome.eventId != "" && Confirmed(candidate.(id := r.outcome.eventId), before, after, r.outcome))
  }

  ghost predicate Joined(candidate: L.Event, nonce: nat, before: seq<Row>, tax: seq<Row>, after: seq<Row>) {
    Appended(candidate, before, tax, after) && IdFor(candidate, nonce, Get(after[|before|], EventIdCol))
  }

  ghost predicate Appended(candidate: L.Event, before: seq<Row>, tax: seq<Row>, after: seq<Row>) {
    && |after| == |before| + 1
    && var id := Get(after[|before|], EventIdCol);
       id != "" && LandedOne(before, after, tax, id) && ValidatedAgainst(candidate, before, tax, id)
  }

  /** The validator accepted the event, under its id, against the log it was appended to. */
  ghost predicate ValidatedAgainst(candidate: L.Event, rows: seq<Row>, tax: seq<Row>, id: string) {
    && LogsOf(rows, tax).Success?
    && L.Validate(LogsOf(rows, tax).value.ledger, candidate.(id := id)).Accepted?
  }

  /** No row has the id and no row reads as the candidate, and the validator rejects it, under its
      id, against the log as loaded. */
  ghost predicate RefusedBy(candidate: L.Event, rows: seq<Row>, tax: seq<Row>, id: string, error: L.LedgerError) {
    && LogsOf(rows, tax).Success? && !HasId(rows, id) && Copies(rows, candidate) == 0
    && L.Validate(LogsOf(rows, tax).value.ledger, candidate.(id := id)) == L.Rejected(error)
  }

  /** What a submit comes to on tabs that load if no fault is met. An id already taken lands
      nothing, and succeeds exactly if the event is stored under it. Under a new id the submit is
      refused if the validator rejects the event, and otherwise the event's row lands, and the
      submit succeeds exactly if the tabs then load. */
  ghost predicate SubmitSettles(candidate: L.Event, before: seq<Row>, tax: seq<Row>, after: seq<Row>,
                                r: SubmitOutcome, id: string)
    requires LogsOf(before, tax).Success?
  {
    var e := candidate.(id := id);
    var verdict := L.Validate(LogsOf(before, tax).value.ledger, e);
    if !HasId(before, id) && verdict.Rejected? then after == before && r == Refused(verdict.error)
    else if HasId(before, id) || HasId(tax, id) then
      after == before && if Stored(e, before) then r.Landed? else r == WriteFailed(VerifyMismatch)
    else
      && after == before + [LedgerToRow(WithSeq(e, |before| + 1))]
      && if LogsOf(after, tax).Success? then r.Landed? else r.WriteFailed?
  }

  /** The append step of a submit. */
  method AppendStamped(store: Store, candidate: L.Event, ghost nonce: nat, id: string, ghost tax: seq<Row>)
    returns (r: SubmitOutcome)
    requires store.Valid() && store.sheets.exclusive && Sound(store.sheets.ledger, store.sheets.tax)
    requires tax == store.sheets.tax
    requires |store.sheets.ledger| < ROOM && Submittable(candidate) && id != ""
    requires Copies(store.sheets.ledger, candidate) > 0 ==> HasId(store.sheets.ledger, id)
    requires HasId(store.sheets.ledger, id)
      || (IdFor(candidate, nonce, id) && ValidatedAgainst(candidate, store.sheets.ledger, tax, id))
    modifies store, store.sheets
    ensures store.Valid() && store.sheets.exclusive && Sound(store.sheets.ledger, store.sheets.tax)
    ensures store.sheets.tax == tax
    ensures SubmitKeeps(candidate, nonce, old(store.sheets.ledger), tax, store.sheets.ledger, r)
    ensures old(store.sheets.faults) <= store.sheets.faults && (r.Landed? || r.WriteFailed?)
    ensures store.sheets.Calm() && old(store.Loads()) ==>
      SubmitSettles(candidate, old(store.sheets.ledger), tax, store.sheets.ledger, r, id)
  {
    var appended := store.AppendLedger(candidate.(id := id));
    if appended.Failure? { return WriteFailedBy(appended.error); }
    return Landed(appended.value);
  }

  /** A retry of an event already there is let through; a new one must pass the validator. */
  method Revalidate(logs: EventLogs, candidate: L.Event, id: string, ghost rows: seq<Row>, ghost tax: seq<Row>)
    returns (refused: Option<L.LedgerError>)
    requires LogsOf(rows, tax) == Success(logs)
    ensures refused.None? ==> HasId(rows, id) || ValidatedAgainst(candidate, rows, tax, id)
    ensures refused.Some? ==>
      !HasId(rows, id) && L.Validate(logs.ledger, candidate.(id := id)) == L.Rejected(refused.value)
  {
    LoggedIff(rows, tax, logs, id);
    if !LogHasId(logs.ledger, id) {
      var verdict := L.Validate(logs.ledger, candidate.(id := id));
      if verdict.Rejected? { return Some(verdict.error); }
    }
    RetryOrValidated(rows, tax, logs, candidate, id);
    return None;
  }

  /** The id is that of an event with the same content, or the event is new and validated. */
  ghost predicate MayAppend(candidate: L.Event, nonce: nat, rows: seq<Row>, tax: seq<Row>, id: string) {
    && id != ""
    && (Copies(rows, candidate) > 0 ==> HasId(rows, id))
    && (HasId(rows, id) || (IdFor(candidate, nonce, id) && ValidatedAgainst(candidate, rows, tax, id)))
  }

  method Decide(store: Store, logs: EventLogs, candidate: L.Event, nonce: nat, ghost rows: seq<Row>,
                ghost tax: seq<Row>)
    returns (r: Result<string, SubmitOutcome>, ghost id: string)
    requires LogsOf(rows, tax) == Success(logs)
    ensures r.Success? ==> r.value == id && MayAppend(candidate, nonce, rows, tax, id)
    ensures r.Failure? ==> r.error.Refused? && RefusedBy(candidate, rows, tax, id, r.error.error)
    ensures id != "" && NewIdIsFree(store.taxEventId, candidate, rows, tax, id)
  {
    var chosen := ChooseId(store, candidate, nonce, logs, rows, tax);
    id := chosen;
    var refused := Revalidate(logs, candidate, chosen, rows, tax);
    if refused.Some? { return Failure(Refused(refused.value)), id; }
    r := Success(chosen);
  }

  /** Everything before the append: load, reuse the id of an event with the same content or
      take a fresh one, re-validate a new event, take the lock. */
  method Prepare(store: Store, candidate: L.Event, nonce: nat)
    returns (r: Result<string, SubmitOutcome>, ghost id: string)
    requires store.Valid() && store.sheets.exclusive
    modifies store, store.sheets
    ensures store.Valid() && store.sheets.exclusive
    ensures store.sheets.ledger == old(store.sheets.ledger) && store.sheets.tax == old(store.sheets.tax)
    ensures r.Success? ==>
      r.value == id && MayAppend(candidate, nonce, store.sheets.ledger, store.sheets.tax, id)
    ensures r.Failure? ==> !r.error.Landed?
    ensures r.Failure? && r.error.Refused? ==>
      RefusedBy(candidate, store.sheets.ledger, store.sheets.tax, id, r.error.error)
    ensures old(store.sheets.faults) <= store.sheets.faults
    ensures r.Failure? && !r.error.Refused? ==> !store.sheets.Calm() || (r.error.WriteFailed? && !store.Loads())
    ensures r.Failure? || store.Loads()
    ensures store.Loads() && store.sheets.Calm() ==>
      id != "" && NewIdIsFree(store.taxEventId, candidate, store.sheets.ledger, store.sheets.tax, id)
  {
    id := "";
    var loaded, rows, tax := store.Load();
    if loaded.Failure? { return Failure(WriteFailedBy(loaded.error)), id; }
    Squeezed(store.sheets.ledger, rows);
    Squeezed(store.sheets.tax, tax);
    r, id := Decide(store, loaded.value, candidate, nonce, rows, tax);
    if r.Success? {
      var answer := store.sheets.AskLock();
      if answer.HeldByOther? { return Failure(LockHeld), id; }
      if answer.Unwritable? { return Failure(WriteFailed(WorkbookUnreachable)), id; }
    }
  }

  /** One submit of `candidate`, no other writer appending meanwhile. It is refused only for an
      event that is new and that the validator rejects with that error, and what it comes to
      without faults is settled by the tabs, the event and the id it goes by. */
  method Submit(store: Store, candidate: L.Event, nonce: nat) returns (r: SubmitOutcome, ghost id: string)
    requires store.Valid() && store.sheets.exclusive && Sound(store.sheets.ledger, store.sheets.tax)
    requires |store.sheets.ledger| < ROOM && Submittable(candidate)
    modifies store, store.sheets
    ensures store.Valid() && store.sheets.exclusive && Sound(store.sheets.ledger, store.sheets.tax)
    ensures store.sheets.tax == old(store.sheets.tax)
    ensures SubmitKeeps(candidate, nonce, old(store.sheets.ledger), old(store.sheets.tax), store.sheets.ledger, r)
    ensures r.Refused? ==> RefusedBy(candidate, old(store.sheets.ledger), store.sheets.tax, id, r.error)
    ensures old(store.sheets.faults) <= store.sheets.faults
    ensures store.sheets.Calm() && !old(store.Loads()) ==> r.WriteFailed?
    ensures store.sheets.Calm() && old(store.Loads()) ==>
      && id != "" && SubmitSettles(candidate, old(store.sheets.ledger), store.sheets.tax, store.sheets.ledger, r, id)
      && NewIdIsFree(store.taxEventId, candidate, old(store.sheets.ledger), store.sheets.tax, id)
  {
    var prepared;
    prepared, id := Prepare(store, candidate, nonce);
    if prepared.Failure? { return prepared.error, id; }
    r := AppendStamped(store, candidate, nonce, prepared.value, store.sheets.tax);
  }

  lemma {:induction false} RetryOrValidated(before: seq<Row>, tax: seq<Row>, logs: EventLogs, candidate: L.Event,
                                            id: string)
    requires LogsOf(before, tax) == Success(logs)
    requires LogHasId(logs.ledger, id) || L.Validate(logs.ledger, candidate.(id := id)).Accepted?
    ensures HasId(before, id) || ValidatedAgainst(candidate, before, tax, id)
  {
    if !HasId(before, id) { FreshWasNotRetry(before, tax, logs, id); }
  }

  // --- Submitting again and again. ---

  /** The row is the candidate's exactly as written in place `n`, under the id it carries. */
  predicate Intact(candidate: L.Event, row: Row, n: nat) {
    row == LedgerToRow(WithSeq(candidate.(id := Get(row, EventIdCol)), n))
  }

  function IntactAs(candidate: L.Event): (Row, nat) -> bool {
    (row: Row, n: nat) => Intact(candidate, row, n)
  }

  /** Rows past the first `from` that fail a test of row and place. */
  function Failing(rows: seq<Row>, from: nat, passes: (Row, nat) -> bool): (n: nat)
    ensures from <= |rows| ==> n <= |rows| - from
    decreases |rows|
  {
    if |rows| <= from then 0
    else Failing(rows[..|rows| - 1], from, passes) + if passes(rows[|rows| - 1], |rows|) then 0 else 1
  }

  /** Rows past the first `from` that are not the candidate's as written. */
  function Altered(candidate: L.Event, rows: seq<Row>, from: nat): nat {
    Failing(rows, from, IntactAs(candidate))
  }

  lemma FailingNext(rows: seq<Row>, row: Row, from: nat, passes: (Row, nat) -> bool)
    requires from <= |rows|
    ensures Failing(rows + [row], from, passes)
      == Failing(rows, from, passes) + if passes(row, |rows| + 1) then 0 else 1
  {
    assert (rows + [row])[..|rows|] == rows;
  }

  lemma {:induction false} PassingAmong(rows: seq<Row>, from: nat, passes: (Row, nat) -> bool, j: nat)
    requires from <= j < |rows| && passes(rows[j], j + 1)
    ensures Failing(rows, from, passes) < |rows| - from
    decreases |rows|
  {
    if j < |rows| - 1 { PassingAmong(rows[..|rows| - 1], from, passes, j); }
  }

  /** How the tab stands after some submits of one candidate, `start` being the rows there at
      first: each row landed carries the number of its place, the candidate stands on one row
      at most, and an intact row is one that reads as it. */
  ghost predicate Stands(candidate: L.Event, start: seq<Row>, rows: seq<Row>, succeeded: bool) {
    && start <= rows && InPlaces(rows, |start|)
    && StandsBy(ReadsAs(candidate), IntactAs(candidate), start, rows, succeeded)
  }

  ghost predicate InPlaces(rows: seq<Row>, from: nat) {
    forall j :: from <= j < |rows| ==> Get(rows[j], SeqCol) == IntText(j + 1)
  }

  ghost predicate StandsBy(test: Row -> bool, intact: (Row, nat) -> bool, start: seq<Row>, rows: seq<Row>,
                           succeeded: bool)
  {
    && Count(start, test) == 0
    && |rows| - |start| - Failing(rows, |start|, intact) <= Count(rows, test) <= 1
    && (succeeded ==> |rows| - |start| - Failing(rows, |start|, intact) == 1)
  }

  /** A row more, satisfying the test if it is intact, where none did. */
  lemma OneMoreStands(test: Row -> bool, intact: (Row, nat) -> bool, start: seq<Row>, rows: seq<Row>, row: Row)
    requires |start| <= |rows| && StandsBy(test, intact, start, rows, false) && Count(rows, test) == 0
    requires intact(row, |rows| + 1) ==> test(row)
    ensures StandsBy(test, intact, start, rows + [row], false)
  {
    CountAppend(rows, row, test);
    FailingNext(rows, row, |start|, intact);
  }

  lemma IntactReads(candidate: L.Event, row: Row, n: nat)
    requires Submittable(candidate) && Get(row, EventIdCol) != "" && FitsI64(n)
    ensures IntactAs(candidate)(row, n) ==> ReadsAs(candidate)(row)
  {
    FreshIsCopy(candidate, Get(row, EventIdCol), n);
  }

  /** What a landing shows of the row it added. */
  lemma JoinedRow(candidate: L.Event, before: seq<Row>, tax: seq<Row>, after: seq<Row>)
    requires Appended(candidate, before, tax, after)
    ensures after == before + [after[|before|]]
    ensures Get(after[|before|], SeqCol) == IntText(|before| + 1) && Get(after[|before|], EventIdCol) != ""
  {
    LandedRow(before, after, tax, Get(after[|before|], EventIdCol));
  }

  lemma LandedRow(before: seq<Row>, after: seq<Row>, other: seq<Row>, id: string)
    requires LandedOne(before, after, other, id)
    ensures after == before + [after[|before|]] && Get(after[|before|], SeqCol) == IntText(|before| + 1)
  {
  }

  lemma PrefixLonger(a: seq<Row>, b: seq<Row>, row: Row)
    requires a <= b
    ensures a <= b + [row]
  {
  }

  lemma InPlacesNext(rows: seq<Row>, from: nat, row: Row)
    requires InPlaces(rows, from) && Get(row, SeqCol) == IntText(|rows| + 1)
    ensures InPlaces(rows + [row], from)
  {
  }

  lemma LandingStands(candidate: L.Event, start: seq<Row>, before: seq<Row>, row: Row)
    requires Submittable(candidate) && Stands(candidate, start, before, false) && |before| < ROOM
    requires Get(row, SeqCol) == IntText(|before| + 1) && Get(row, EventIdCol) != "" && Copies(before, candidate) == 0
    ensures Stands(candidate, start, before + [row], false)
  {
    assert StandsBy(ReadsAs(candidate), IntactAs(candidate), start, before + [row], false) by {
      IntactReads(candidate, row, |before| + 1);
      OneMoreStands(ReadsAs(candidate), IntactAs(candidate), start, before, row);
    }
    InPlacesNext(before, |start|, row);
    PrefixLonger(start, before, row);
  }

  lemma NoneCounted(rows: seq<Row>, test: Row -> bool, i: nat)
    requires Count(rows, test) == 0 && i < |rows|
    ensures !test(rows[i])
  {
    CountPositive(rows, test);
  }

  /** The row an append was skipped for is the event's as written, in its place. */
  lemma {:induction false} SkippedIsIntact(candidate: L.Event, id: string, row: Row, n: nat, place: nat)
    requires StoredAs(candidate.(id := id), row, n) && Get(row, SeqCol) == IntText(place)
    ensures Intact(candidate, row, place)
  {
    var e := candidate.(id := id);
    var written := LedgerToRow(WithSeq(e, place));
    LedgerRowCell(WithSeq(e, place), SeqCol);
    LedgerRowCell(WithSeq(e, place), EventIdCol);
    ContentIgnoresSeq(e, place);
    SameRow(row, written);
  }

  lemma {:induction false} FreshStands(candidate: L.Event, start: seq<Row>, before: seq<Row>, after: seq<Row>,
                                       out: AppendOutcome)
    requires Submittable(candidate) && Stands(candidate, start, before, false) && Stands(candidate, start, after, false)
    requires out.eventId != "" && Confirmed(candidate.(id := out.eventId), before, after, out) && !out.idempotentSkip
    ensures Stands(candidate, start, after, true)
  {
    var row := after[|before|];
    assert Get(row, EventIdCol) == out.eventId by {
      LedgerRowCell(WithSeq(candidate.(id := out.eventId), |before| + 1), EventIdCol);
    }
    assert Intact(candidate, row, |before| + 1);
    PassingAmong(after, |start|, IntactAs(candidate), |before|);
  }

  /** A row an append was skipped for is one that landed intact before. */
  lemma {:induction false} SkippedStands(candidate: L.Event, start: seq<Row>, rows: seq<Row>, out: AppendOutcome)
    requires Submittable(candidate) && Stands(candidate, start, rows, false) && |rows| < ROOM
    requires out.eventId != "" && Confirmed(candidate.(id := out.eventId), rows, rows, out) && out.idempotentSkip
    ensures Stands(candidate, start, rows, true)
  {
    var i :| 0 <= i < |rows| && StoredAs(candidate.(id := out.eventId), rows[i], out.seqNo);
    SkippedIsCopy(candidate, out.eventId, rows[i], out.seqNo);
    if i < |start| {
      assert start[i] == rows[i];
      NoneCounted(start, ReadsAs(candidate), i);
    }
    SkippedIsIntact(candidate, out.eventId, rows[i], out.seqNo, i + 1);
    PassingAmong(rows, |start|, IntactAs(candidate), i);
  }

  lemma SubmitStands(candidate: L.Event, nonce: nat, start: seq<Row>, before: seq<Row>, tax: seq<Row>, after: seq<Row>,
                     r: SubmitOutcome, succeeded: bool)
    requires Submittable(candidate) && Stands(candidate, start, before, succeeded) && |before| < ROOM
    requires SubmitKeeps(candidate, nonce, before, tax, after, r)
    ensures Stands(candidate, start, after, succeeded || r.Landed?)
  {
    if after != before {
      JoinedRow(candidate, before, tax, after);
      LandingStands(candidate, start, before, after[|before|]);
    }
    if r.Landed? {
      if r.outcome.idempotentSkip {
        SkippedStands(candidate, start, before, r.outcome);
      } else {
        FreshStands(candidate, start, before, after, r.outcome);
      }
    }
  }

  /** One frozen candidate submitted again and again, through any failures. The old rows stay,
      the rows landed are the altered ones and at most one more, and that one is there once any
      submit has succeeded: exactly one row lands if and only if no landing is altered. */
  method SubmitRepeatedly(store: Store, candidate: L.Event, nonce: nat, attempts: nat) returns (succeeded: bool)
    requires store.Valid() && store.sheets.exclusive && Sound(store.sheets.ledger, store.sheets.tax)
    requires |store.sheets.ledger| + attempts < ROOM && Submittable(candidate)
    requires Copies(store.sheets.ledger, candidate) == 0
    modifies store, store.sheets
    ensures old(store.sheets.ledger) <= store.sheets.ledger
    ensures
      var landed := |store.sheets.ledger| - |old(store.sheets.ledger)|;
      var altered := Altered(candidate, store.sheets.ledger, |old(store.sheets.ledger)|);
      && altered <= landed <= altered + 1
      && (succeeded ==> landed == altered + 1 && (landed == 1 <==> altered == 0))
    ensures Copies(store.sheets.ledger, candidate) <= 1
    ensures succeeded ==> Copies(store.sheets.ledger, candidate) == 1
  {
    ghost var start := store.sheets.ledger;
    succeeded := false;
    var i := 0;
    while i < attempts
      invariant 0 <= i <= attempts
      invariant store.Valid() && store.sheets.exclusive && Sound(store.sheets.ledger, store.sheets.tax)
      invariant |store.sheets.ledger| + attempts - i < ROOM
      invariant Stands(candidate, start, store.sheets.ledger, succeeded)
    {
      ghost var before, tax := store.sheets.ledger, store.sheets.tax;
      var r, _ := Submit(store, candidate, nonce);
      SubmitStands(candidate, nonce, start, before, tax, store.sheets.ledger, r, succeeded);
      succeeded := succeeded || r.Landed?;
      i := i + 1;
    }
  }
}
