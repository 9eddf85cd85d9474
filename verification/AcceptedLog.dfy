/** From the validator to the next load: what appending an accepted event does to the log
    that is loaded and replayed. */
module AcceptedLog {
  import opened Basics
  import opened Text
  import opened Apportion
  import opened Ledger
  import opened Escape
  import opened Rows
  import opened TaxRows
  import opened Integrity
  import opened Logs
  import opened ReversalTotality
  import opened Workbook
  import opened Stores
  import Submits
  import Idempotency

  /** Rows numbered in the order they landed, as the store writes them. */
  ghost predicate InOrder(rows: seq<Row>) {
    forall i :: 0 <= i < |rows| ==> Get(rows[i], SeqCol) == IntText(i + 1)
  }

  lemma InOrderSeq(rows: seq<Row>, events: seq<Event>, i: nat)
    requires InOrder(rows) && DecodeLedger(rows) == Success(events) && i < |rows|
    ensures events[i].seqNo == i + 1 && events[i].id == Get(rows[i], EventIdCol)
  {
    DecodedAt(rows, RowToLedger, i);
    ReadsSeqAndId(rows[i]);
    DecIntText(i + 1);
  }

  lemma ReadsSeqAndId(row: Row)
    requires RowToLedger(row).Success?
    ensures DecI64(Get(row, SeqCol)) == Success(RowToLedger(row).value.seqNo)
    ensures Get(row, EventIdCol) == RowToLedger(row).value.id
  {
  }

  /** Such a tab loads as its rows read one by one. */
  lemma LoadsInOrder(rows: seq<Row>, tax: seq<Row>)
    requires InOrder(rows) && LogsOf(rows, tax).Success?
    ensures DecodeLedger(rows) == Success(LogsOf(rows, tax).value.ledger) && Loadable(LogsOf(rows, tax).value.ledger)
  {
    var events := DecodeLedger(rows).value;
    forall i | 0 <= i < |events| ensures events[i].seqNo == 1 + i { InOrderSeq(rows, events, i); }
    InSeqOrderIsSorted(events, 1);
  }

  lemma DecodeOneMore(rows: seq<Row>, events: seq<Event>, e: Event)
    requires DecodeLedger(rows) == Success(events) && RowToLedger(LedgerToRow(e)) == Success(e)
    ensures DecodeLedger(rows + [LedgerToRow(e)]) == Success(events + [e])
  {
    OneMore(rows, events, LedgerToRow(e), e, RowToLedger);
  }

  lemma OneMore<T>(rows: seq<Row>, values: seq<T>, row: Row, value: T, decode: Row -> Result<T, StoreError>)
    requires DecodeAll(rows, decode) == Success(values) && decode(row) == Success(value)
    ensures DecodeAll(rows + [row], decode) == Success(values + [value])
  {
    assert (rows + [row])[..|rows|] == rows;
  }

  lemma NewToLog(rows: seq<Row>, log: seq<Event>, e: Event)
    requires InOrder(rows) && DecodeLedger(rows) == Success(log)
    requires e.seqNo == |rows| + 1 && !HasId(rows, e.id)
    ensures Fresh(log, e)
  {
    forall i | 0 <= i < |log| ensures log[i].id != e.id && log[i].seqNo < e.seqNo {
      InOrderSeq(rows, log, i);
    }
  }

  lemma GrowsBy(log: seq<Event>, e: Event)
    requires Grown(log) && Fresh(log, e) && Validate(log, e).Accepted?
    requires e.kind.Reversal? ==> SafeReversal(log, e)
    ensures Grown(log + [e])
  {
    assert (log + [e])[..|log|] == log;
  }

  /** Appending an accepted event to a log grown by validation: the next load succeeds
      exactly when the event does not reverse a reversal, and then it returns the old log
      with the event at its end, whose replay meets no error. A reversal must also meet the
      guards validation leaves open. */
  lemma {:induction false} AcceptedEventReplays(rows: seq<Row>, tax: seq<Row>, log: seq<Event>, e: Event)
    requires InOrder(rows) && LogsOf(rows, tax).Success? && log == LogsOf(rows, tax).value.ledger
    requires Grown(log) && Validate(log, e).Accepted? && (e.kind.Reversal? ==> SafeReversal(log, e))
    requires e.seqNo == |rows| + 1 && !HasId(rows, e.id) && WellTyped(e) && Storable(e)
    ensures LogsOf(rows + [LedgerToRow(e)], tax).Success? <==> !ReversesReversal(log, e)
    ensures LogsOf(rows + [LedgerToRow(e)], tax).Success? ==>
      LogsOf(rows + [LedgerToRow(e)], tax).value.ledger == log + [e]
    ensures InOrder(rows + [LedgerToRow(e)])
    ensures Grown(log + [e]) && Clean(EMPTY_BOOK, Surviving(log + [e]))
  {
    AcceptedLoadsIff(rows, tax, log, e);
    LoadsInOrder(rows, tax);
    NewToLog(rows, log, e);
    InOrderNext(rows, e);
    assert Grown(log + [e]) by { GrowsBy(log, e); }
    assert Clean(EMPTY_BOOK, Surviving(log + [e])) by { GrownReplaysClean(log + [e]); }
  }

  lemma InOrderNext(rows: seq<Row>, e: Event)
    requires InOrder(rows) && e.seqNo == |rows| + 1
    ensures InOrder(rows + [LedgerToRow(e)])
  {
    LedgerRowCell(e, SeqCol);
  }

  lemma LoadsAsDecoded(rows: seq<Row>, tax: seq<Row>, events: seq<Event>)
    requires DecodeLedger(rows) == Success(events)
    ensures LogsOf(rows, tax).Success? <==>
      Loadable(events) && DecodeTax(tax).Success? && Dense(TaxSeqNos(DecodeTax(tax).value))
    ensures LogsOf(rows, tax).Success? ==> LogsOf(rows, tax).value.ledger == SortBySeq(events)
  {
  }

  lemma LoadsOneMore(rows: seq<Row>, tax: seq<Row>, log: seq<Event>, e: Event)
    requires InOrder(rows) && LogsOf(rows, tax).Success? && e.seqNo == |rows| + 1
    requires DecodeLedger(rows) == Success(log) && DecodeLedger(rows + [LedgerToRow(e)]) == Success(log + [e])
    ensures LogsOf(rows + [LedgerToRow(e)], tax).Success? <==> Loadable(log + [e])
    ensures LogsOf(rows + [LedgerToRow(e)], tax).Success? ==>
      LogsOf(rows + [LedgerToRow(e)], tax).value.ledger == log + [e]
  {
    var more := log + [e];
    LoadsAsDecoded(rows, tax, log);
    LoadsAsDecoded(rows + [LedgerToRow(e)], tax, more);
    assert SortBySeq(more) == more by {
      forall i | 0 <= i < |more| ensures more[i].seqNo == 1 + i {
        if i < |log| { InOrderSeq(rows, log, i); }
      }
      InSeqOrderIsSorted(more, 1);
    }
  }

  // --- Whole runs of submits. ---

  /** The events landed since `from`, each filed in its place under its own id. */
  ghost predicate Filed(rows: seq<Row>, from: nat, landed: seq<Event>) {
    && |rows| == from + |landed|
    && forall k :: 0 <= k < |landed| ==>
         landed[k].seqNo == from + k + 1 && landed[k].id == Get(rows[from + k], EventIdCol)
           && Get(rows[from + k], SeqCol) == IntText(from + k + 1)
  }

  /** Each stands as written. */
  ghost predicate AllIntact(rows: seq<Row>, from: nat, landed: seq<Event>)
    requires |rows| == from + |landed|
  {
    forall k :: 0 <= k < |landed| ==> rows[from + k] == LedgerToRow(landed[k])
  }

  /** Every reversal landed was safe to replay and did not reverse a reversal. */
  ghost predicate Harmless(log: seq<Event>, landed: seq<Event>) {
    forall k :: 0 <= k < |landed| && landed[k].kind.Reversal? ==>
      SafeReversal(log + landed[..k], landed[k]) && !ReversesReversal(log + landed[..k], landed[k])
  }

  /** The log loads as the events landed on top of the old one, and replays without error. */
  ghost predicate LoadsClean(rows: seq<Row>, tax: seq<Row>, log: seq<Event>) {
    && LogsOf(rows, tax).Success? && LogsOf(rows, tax).value.ledger == log
    && Grown(log) && Clean(EMPTY_BOOK, Surviving(log))
  }

  lemma {:induction false} LandsClean(rows: seq<Row>, tax: seq<Row>, log: seq<Event>, candidate: Event, id: string)
    requires InOrder(rows) && LoadsClean(rows, tax, log) && |rows| < ROOM
    requires Submits.Submittable(candidate) && id != "" && !HasId(rows, id)
    requires Submits.ValidatedAgainst(candidate, rows, tax, id)
    requires var e := candidate.(id := id, seqNo := |rows| + 1);
             e.kind.Reversal? ==> SafeReversal(log, e) && !ReversesReversal(log, e)
    ensures
      var e := candidate.(id := id, seqNo := |rows| + 1);
      InOrder(rows + [LedgerToRow(e)]) && LoadsClean(rows + [LedgerToRow(e)], tax, log + [e])
  {
    var e := candidate.(id := id, seqNo := |rows| + 1);
    assert e == Idempotency.WithSeq(candidate.(id := id), |rows| + 1);
    Submits.StampedIsStorable(candidate, id, |rows| + 1);
    assert Validate(log, e) == Validate(log, candidate.(id := id));
    AcceptedEventReplays(rows, tax, log, e);
  }

  // --- A submit that meets no fault. ---

  /** The validator rejects the event and the submit is refused with that error, or it accepts it
      and one row lands, the submit succeeding unless the event reverses a reversal. */
  ghost predicate ValidatorDecides(log: seq<Event>, candidate: Event, before: seq<Row>, after: seq<Row>,
                                   r: Submits.SubmitOutcome)
  {
    match Validate(log, candidate)
    case Rejected(error) => after == before && r == Submits.Refused(error)
    case Accepted => |after| == |before| + 1 && (r.Landed? <==> !ReversesReversal(log, candidate))
  }

  /** Without faults the validator alone decides what becomes of an event no row reads as. */
  lemma {:induction false} LandsIffAccepted(taxEventId: TaxEvent -> string, candidate: Event, before: seq<Row>,
                                            tax: seq<Row>, after: seq<Row>, r: Submits.SubmitOutcome, id: string)
    requires InOrder(before) && LogsOf(before, tax).Success? && |before| < ROOM
    requires Submits.Submittable(candidate) && id != "" && candidate.id == "" && Submits.Copies(before, candidate) == 0
    requires Submits.TaxIdsOwn(LogsOf(before, tax).value, taxEventId)
    requires Submits.NewIdIsFree(taxEventId, candidate, before, tax, id)
    requires Submits.SubmitSettles(candidate, before, tax, after, r, id)
    ensures ValidatorDecides(LogsOf(before, tax).value.ledger, candidate, before, after, r)
  {
    var log := LogsOf(before, tax).value.ledger;
    var e := candidate.(id := id);
    VerdictIgnoresStamp(log, candidate, id);
    if Validate(log, e).Accepted? {
      StampedLoadsIff(before, tax, log, candidate, id);
      SettledByLoading(candidate, before, tax, after, r, id);
    }
  }

  /** The verdict is on what the event does. */
  lemma VerdictIgnoresStamp(log: seq<Event>, e: Event, id: string)
    ensures Validate(log, e.(id := id)) == Validate(log, e)
    ensures forall n :: Validate(log, e.(seqNo := n)) == Validate(log, e)
    ensures ReversesReversal(log, e.(id := id)) == ReversesReversal(log, e)
    ensures forall n :: ReversesReversal(log, e.(seqNo := n)) == ReversesReversal(log, e)
  {
  }

  lemma SettledByLoading(candidate: Event, before: seq<Row>, tax: seq<Row>, after: seq<Row>, r: Submits.SubmitOutcome,
                         id: string)
    requires LogsOf(before, tax).Success? && Submits.SubmitSettles(candidate, before, tax, after, r, id)
    requires !HasId(before, id) && !HasId(tax, id)
    requires Validate(LogsOf(before, tax).value.ledger, candidate.(id := id)).Accepted?
    ensures after == before + [LedgerToRow(Idempotency.WithSeq(candidate.(id := id), |before| + 1))]
    ensures r.Landed? <==> LogsOf(after, tax).Success?
  {
  }

  lemma StampedLoadsIff(rows: seq<Row>, tax: seq<Row>, log: seq<Event>, candidate: Event, id: string)
    requires InOrder(rows) && LogsOf(rows, tax).Success? && log == LogsOf(rows, tax).value.ledger && |rows| < ROOM
    requires Submits.Submittable(candidate) && id != "" && !HasId(rows, id)
    requires Validate(log, candidate.(id := id)).Accepted?
    ensures
      var row := LedgerToRow(Idempotency.WithSeq(candidate.(id := id), |rows| + 1));
      LogsOf(rows + [row], tax).Success? <==> !ReversesReversal(log, candidate)
  {
    var e := Idempotency.WithSeq(candidate.(id := id), |rows| + 1);
    VerdictIgnoresStamp(log, candidate.(id := id), id);
    VerdictIgnoresStamp(log, candidate, id);
    assert e == candidate.(id := id).(seqNo := |rows| + 1);
    Submits.StampedIsStorable(candidate, id, |rows| + 1);
    AcceptedLoadsIff(rows, tax, log, e);
  }

  lemma AcceptedLoadsIff(rows: seq<Row>, tax: seq<Row>, log: seq<Event>, e: Event)
    requires InOrder(rows) && LogsOf(rows, tax).Success? && log == LogsOf(rows, tax).value.ledger
    requires Validate(log, e).Accepted?
    requires e.seqNo == |rows| + 1 && !HasId(rows, e.id) && WellTyped(e) && Storable(e)
    ensures LogsOf(rows + [LedgerToRow(e)], tax).Success? <==> !ReversesReversal(log, e)
    ensures LogsOf(rows + [LedgerToRow(e)], tax).Success? ==>
      LogsOf(rows + [LedgerToRow(e)], tax).value.ledger == log + [e]
  {
    LoadsInOrder(rows, tax);
    NewToLog(rows, log, e);
    assert DecodeLedger(rows + [LedgerToRow(e)]) == Success(log + [e]) by {
      LedgerRowRoundTrip(e);
      DecodeOneMore(rows, log, e);
    }
    LoadsOneMore(rows, tax, log, e);
    AcceptedStaysLoadable(log, e);
  }

  /** Where a run of submits stands. */
  ghost predicate RunStands(start: seq<Row>, tax: seq<Row>, log: seq<Event>, rows: seq<Row>, landed: seq<Event>) {
    && start <= rows && Filed(rows, |start|, landed) && InOrder(rows)
    && (AllIntact(rows, |start|, landed) && Harmless(log, landed) ==> LoadsClean(rows, tax, log + landed))
  }

  /** The event a landed row was meant to be. */
  function Meant(candidate: Event, row: Row, n: nat): Event {
    candidate.(id := Get(row, EventIdCol), seqNo := n)
  }

  /** Every event is one of the candidates, but for its id and number. */
  ghost predicate MeantBy(landed: seq<Event>, candidates: seq<Event>) {
    forall k ::
      0 <= k < |landed| ==>
        exists i :: 0 <= i < |candidates| && landed[k] == candidates[i].(id := landed[k].id, seqNo := landed[k].seqNo)
  }

  lemma MeantNext(landed: seq<Event>, more: seq<Event>, candidates: seq<Event>, i: nat)
    requires MeantBy(landed, candidates) && i < |candidates|
    requires more == landed || NextMeant(landed, more, candidates[i])
    ensures MeantBy(more, candidates)
  {
    forall k | 0 <= k < |more|
      ensures exists i :: 0 <= i < |candidates| && more[k] == candidates[i].(id := more[k].id, seqNo := more[k].seqNo)
    {
      if k < |landed| { assert more[k] == landed[k]; }
    }
  }

  ghost predicate NextMeant(landed: seq<Event>, more: seq<Event>, candidate: Event) {
    |more| == |landed| + 1 && more[..|landed|] == landed
      && more[|landed|] == candidate.(id := more[|landed|].id, seqNo := more[|landed|].seqNo)
  }

  lemma FiledNext(rows: seq<Row>, from: nat, landed: seq<Event>, row: Row, e: Event)
    requires Filed(rows, from, landed)
    requires e.seqNo == |rows| + 1 && e.id == Get(row, EventIdCol) && Get(row, SeqCol) == IntText(|rows| + 1)
    ensures Filed(rows + [row], from, landed + [e])
  {
    var more, all := landed + [e], rows + [row];
    forall k | 0 <= k < |more|
      ensures more[k].seqNo == from + k + 1 && more[k].id == Get(all[from + k], EventIdCol)
      ensures Get(all[from + k], SeqCol) == IntText(from + k + 1)
    {
      if k < |landed| {
        assert more[k] == landed[k] && all[from + k] == rows[from + k];
      } else {
        assert more[k] == e && all[from + k] == row && from + k == |rows|;
      }
    }
  }

  lemma IntactBefore(rows: seq<Row>, from: nat, landed: seq<Event>, row: Row, e: Event)
    requires |rows| == from + |landed| && AllIntact(rows + [row], from, landed + [e])
    ensures AllIntact(rows, from, landed) && row == LedgerToRow(e)
  {
    var more, all := landed + [e], rows + [row];
    forall k | 0 <= k < |landed| ensures rows[from + k] == LedgerToRow(landed[k]) {
      assert all[from + k] == LedgerToRow(more[k]);
    }
    assert all[from + |landed|] == LedgerToRow(more[|landed|]);
  }

  lemma HarmlessBefore(log: seq<Event>, landed: seq<Event>, e: Event)
    requires Harmless(log, landed + [e])
    ensures Harmless(log, landed)
    ensures e.kind.Reversal? ==> SafeReversal(log + landed, e) && !ReversesReversal(log + landed, e)
  {
    var more := landed + [e];
    forall k | 0 <= k < |landed| && landed[k].kind.Reversal?
      ensures SafeReversal(log + landed[..k], landed[k]) && !ReversesReversal(log + landed[..k], landed[k])
    {
      assert more[k] == landed[k] && more[..k] == landed[..k];
    }
    assert more[|landed|] == e && more[..|landed|] == landed;
  }

  lemma {:induction false} IntactLoads(tax: seq<Row>, log: seq<Event>, before: seq<Row>, candidate: Event, row: Row,
                                       e: Event)
    requires InOrder(before) && LoadsClean(before, tax, log) && |before| < ROOM && Submits.Submittable(candidate)
    requires Submits.Appended(candidate, before, tax, before + [row])
    requires e == Meant(candidate, row, |before| + 1) && row == LedgerToRow(e)
    requires e.kind.Reversal? ==> SafeReversal(log, e) && !ReversesReversal(log, e)
    ensures LoadsClean(before + [row], tax, log + [e])
  {
    assert (before + [row])[|before|] == row;
    LandsClean(before, tax, log, candidate, Get(row, EventIdCol));
  }

  lemma LoadsAs(rows: seq<Row>, tax: seq<Row>, a: seq<Event>, b: seq<Event>, e: Event)
    requires LoadsClean(rows, tax, (a + b) + [e])
    ensures LoadsClean(rows, tax, a + (b + [e]))
  {
    assert (a + b) + [e] == a + (b + [e]);
  }

  lemma InOrderBy(rows: seq<Row>, row: Row)
    requires InOrder(rows) && Get(row, SeqCol) == IntText(|rows| + 1)
    ensures InOrder(rows + [row])
  {
  }

  lemma RunLanding(start: seq<Row>, tax: seq<Row>, log: seq<Event>, before: seq<Row>, landed: seq<Event>,
                   candidate: Event, row: Row)
    requires RunStands(start, tax, log, before, landed) && |before| < ROOM && Submits.Submittable(candidate)
    requires Submits.Appended(candidate, before, tax, before + [row])
    ensures RunStands(start, tax, log, before + [row], landed + [Meant(candidate, row, |before| + 1)])
  {
    var e := Meant(candidate, row, |before| + 1);
    assert (before + [row])[|before|] == row;
    FiledNext(before, |start|, landed, row, e);
    InOrderBy(before, row);
    if AllIntact(before + [row], |start|, landed + [e]) && Harmless(log, landed + [e]) {
      IntactBefore(before, |start|, landed, row, e);
      HarmlessBefore(log, landed, e);
      IntactLoads(tax, log + landed, before, candidate, row, e);
      LoadsAs(before + [row], tax, log, landed, e);
    }
  }

  lemma RunNext(start: seq<Row>, tax: seq<Row>, log: seq<Event>, before: seq<Row>, landed: seq<Event>,
                candidate: Event, after: seq<Row>)
    returns (more: seq<Event>)
    requires RunStands(start, tax, log, before, landed) && |before| < ROOM && Submits.Submittable(candidate)
    requires after == before || Submits.Appended(candidate, before, tax, after)
    ensures |after| <= |before| + 1 && RunStands(start, tax, log, after, more)
    ensures more == landed || NextMeant(landed, more, candidate)
  {
    more := landed;
    if after != before {
      Submits.JoinedRow(candidate, before, tax, after);
      RunLanding(start, tax, log, before, landed, candidate, after[|before|]);
      more := landed + [Meant(candidate, after[|before|], |before| + 1)];
    }
  }

  /** The candidate was composed without an id and no row reads as it, on tabs that load and whose
      tax events are filed under their own ids. */
  ghost predicate Composed(store: Store, candidate: Event)
    reads store, store.sheets
  {
    && LogsOf(store.sheets.ledger, store.sheets.tax).Success?
    && Submits.TaxIdsOwn(LogsOf(store.sheets.ledger, store.sheets.tax).value, store.taxEventId)
    && candidate.id == "" && Submits.Copies(store.sheets.ledger, candidate) == 0
  }

  /** One submit of the run. Without faults the validator alone decides it. */
  method SubmitNext(store: Store, candidate: Event, nonce: nat, ghost start: seq<Row>, ghost tax: seq<Row>,
                    ghost log: seq<Event>, ghost landed: seq<Event>)
    returns (r: Submits.SubmitOutcome, ghost more: seq<Event>)
    requires store.Valid() && store.sheets.exclusive && Sound(store.sheets.ledger, store.sheets.tax)
    requires store.sheets.tax == tax
    requires |store.sheets.ledger| < ROOM && Submits.Submittable(candidate)
    requires RunStands(start, tax, log, store.sheets.ledger, landed)
    modifies store, store.sheets
    ensures store.Valid() && store.sheets.exclusive && Sound(store.sheets.ledger, store.sheets.tax)
    ensures store.sheets.tax == tax
    ensures |store.sheets.ledger| <= old(|store.sheets.ledger|) + 1
    ensures RunStands(start, tax, log, store.sheets.ledger, more)
    ensures more == landed || NextMeant(landed, more, candidate)
    ensures old(store.sheets.faults) <= store.sheets.faults
    ensures store.sheets.Calm() && old(Composed(store, candidate)) ==>
      ValidatorDecides(LogsOf(old(store.sheets.ledger), tax).value.ledger, candidate, old(store.sheets.ledger),
                       store.sheets.ledger, r)
  {
    ghost var before := store.sheets.ledger;
    ghost var id;
    r, id := Submits.Submit(store, candidate, nonce);
    if store.sheets.Calm() && old(Composed(store, candidate)) {
      LandsIffAccepted(store.taxEventId, candidate, before, tax, store.sheets.ledger, r, id);
    }
    more := RunNext(start, tax, log, before, landed, candidate, store.sheets.ledger);
  }

  /** Any events submitted one after another, through any failures. Rows land in order, each
      filed for the event it was meant to be; and as long as none of them landed altered and
      every reversal among them was harmless, the tab loads as the old log with those events
      at its end and replays without error. */
  method SubmitAll(store: Store, candidates: seq<Event>, nonces: seq<nat>)
    returns (outcomes: seq<Submits.SubmitOutcome>, ghost landed: seq<Event>)
    requires store.Valid() && store.sheets.exclusive && Sound(store.sheets.ledger, store.sheets.tax)
    requires |store.sheets.ledger| + |candidates| < ROOM && |nonces| == |candidates|
    requires forall i :: 0 <= i < |candidates| ==> Submits.Submittable(candidates[i])
    requires InOrder(store.sheets.ledger) && LogsOf(store.sheets.ledger, store.sheets.tax).Success?
    requires
      var logs := LogsOf(store.sheets.ledger, store.sheets.tax).value;
      LoadsClean(store.sheets.ledger, store.sheets.tax, logs.ledger)
    modifies store, store.sheets
    ensures store.sheets.tax == old(store.sheets.tax) && Sound(store.sheets.ledger, store.sheets.tax)
    ensures |outcomes| == |candidates|
    ensures MeantBy(landed, candidates)
    ensures
      var log := old(LogsOf(store.sheets.ledger, store.sheets.tax)).value.ledger;
      RunStands(old(store.sheets.ledger), store.sheets.tax, log, store.sheets.ledger, landed)
  {
    ghost var start, tax := store.sheets.ledger, store.sheets.tax;
    ghost var log := LogsOf(start, tax).value.ledger;
    outcomes, landed := [], [];
    assert log + [] == log;
    for i := 0 to |candidates|
      invariant store.Valid() && store.sheets.exclusive && Sound(store.sheets.ledger, store.sheets.tax)
      invariant store.sheets.tax == tax
      invariant |store.sheets.ledger| + |candidates| - i < ROOM && |outcomes| == i
      invariant RunStands(start, tax, log, store.sheets.ledger, landed)
      invariant MeantBy(landed, candidates)
    {
      ghost var was := landed;
      var r;
      r, landed := SubmitNext(store, candidates[i], nonces[i], start, tax, log, was);
      outcomes := outcomes + [r];
      MeantNext(was, landed, candidates, i);
    }
  }
}
