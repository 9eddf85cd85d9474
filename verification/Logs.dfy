/** From rows to the logs the kernels replay, and what a sound pair of tabs is. */
module Logs {
  import opened Basics
  import opened Text
  import opened Apportion
  import opened Ledger
  import opened Escape
  import opened Rows
  import opened TaxRows
  import opened Integrity

  // --- Deserializing a tab. ---

  /** Every row decoded in order, or the first failure. */
  function DecodeAll<T>(rows: seq<Row>, decode: Row -> Result<T, StoreError>): (r: Result<seq<T>, StoreError>)
    ensures r.Success? ==> |r.value| == |rows|
  {
    if rows == [] then Success([])
    else
      var front :- DecodeAll(rows[..|rows| - 1], decode);
      var e :- decode(rows[|rows| - 1]);
      Success(front + [e])
  }

  function DecodeLedger(rows: seq<Row>): (r: Result<seq<Event>, StoreError>)
    ensures r.Success? ==> |r.value| == |rows|
  {
    DecodeAll(rows, RowToLedger)
  }

  function DecodeTax(rows: seq<Row>): (r: Result<seq<(TaxEvent, string)>, StoreError>)
    ensures r.Success? ==> |r.value| == |rows|
  {
    DecodeAll(rows, RowToTax)
  }

  lemma {:induction false} PrefixFails<T>(rows: seq<Row>, decode: Row -> Result<T, StoreError>, n: nat,
                                          error: StoreError)
    requires n <= |rows| && DecodeAll(rows[..n], decode) == Failure(error)
    ensures DecodeAll(rows, decode) == Failure(error)
    decreases |rows| - n
  {
    if n < |rows| {
      assert rows[..n + 1][..n] == rows[..n];
      PrefixFails(rows, decode, n + 1, error);
    } else {
      assert rows[..n] == rows;
    }
  }

  method DecodeRows<T>(rows: seq<Row>, decode: Row -> Result<T, StoreError>) returns (r: Result<seq<T>, StoreError>)
    ensures r == DecodeAll(rows, decode)
  {
    var out: seq<T> := [];
    var i := 0;
    assert rows[..0] == [];
    while i < |rows|
      invariant 0 <= i <= |rows|
      invariant DecodeAll(rows[..i], decode) == Success(out)
    {
      assert rows[..i + 1][..i] == rows[..i];
      var e := decode(rows[i]);
      if e.Failure? {
        PrefixFails(rows, decode, i + 1, e.error);
        return Failure(e.error);
      }
      out := out + [e.value];
      i := i + 1;
    }
    assert rows[..i] == rows;
    return Success(out);
  }

  /** If each row decodes to its value, the tab decodes to the values. */
  lemma {:induction false} DecodesRowByRow<T>(rows: seq<Row>, values: seq<T>, decode: Row -> Result<T, StoreError>)
    requires |rows| == |values| && forall i :: 0 <= i < |rows| ==> decode(rows[i]) == Success(values[i])
    ensures DecodeAll(rows, decode) == Success(values)
  {
    if rows != [] {
      var n := |rows| - 1;
      DecodesRowByRow(rows[..n], values[..n], decode);
      assert values == values[..n] + [values[n]];
    } else {
      assert values == [];
    }
  }

  /** And the other way round. */
  lemma {:induction false} DecodedAt<T>(rows: seq<Row>, decode: Row -> Result<T, StoreError>, i: nat)
    requires DecodeAll(rows, decode).Success? && i < |rows|
    ensures decode(rows[i]) == Success(DecodeAll(rows, decode).value[i])
  {
    if i < |rows| - 1 {
      DecodedAt(rows[..|rows| - 1], decode, i);
    }
  }

  /** The two logs in fold order; a tax event keeps its row's id beside it. */
  datatype EventLogs = EventLogs(ledger: seq<Event>, tax: seq<(TaxEvent, string)>)

  function InsertTax(e: (TaxEvent, string), s: seq<(TaxEvent, string)>): seq<(TaxEvent, string)> {
    if s == [] then [e]
    else if s[0].0.seqNo < e.0.seqNo then [s[0]] + InsertTax(e, s[1..])
    else [e] + s
  }

  function SortTax(s: seq<(TaxEvent, string)>): seq<(TaxEvent, string)> {
    if s == [] then [] else InsertTax(s[0], SortTax(s[1..]))
  }

  function TaxSeqNos(events: seq<(TaxEvent, string)>): (r: seq<nat>)
    ensures |r| == |events| && forall i :: 0 <= i < |events| ==> r[i] == events[i].0.seqNo
  {
    seq(|events|, i requires 0 <= i < |events| => events[i].0.seqNo)
  }

  /** What a full load of the two tabs returns. */
  ghost function LogsOf(ledger: seq<Row>, tax: seq<Row>): Result<EventLogs, StoreError> {
    var events :- DecodeLedger(ledger);
    if !Loadable(events) then Failure(if Dense(SeqNos(events)) then StoreError.BadReversal else NonDenseSeq)
    else
      var taxes :- DecodeTax(tax);
      if !Dense(TaxSeqNos(taxes)) then Failure(NonDenseSeq)
      else Success(EventLogs(SortBySeq(events), SortTax(taxes)))
  }

  lemma {:induction false} InsertBySeqLength(e: Event, s: seq<Event>)
    ensures |InsertBySeq(e, s)| == |s| + 1
  {
    if s != [] && s[0].seqNo < e.seqNo { InsertBySeqLength(e, s[1..]); }
  }

  lemma {:induction false} SortBySeqLength(s: seq<Event>)
    ensures |SortBySeq(s)| == |s|
  {
    if s != [] {
      SortBySeqLength(s[1..]);
      InsertBySeqLength(s[0], SortBySeq(s[1..]));
    }
  }

  lemma {:induction false} InsertTaxLength(e: (TaxEvent, string), s: seq<(TaxEvent, string)>)
    ensures |InsertTax(e, s)| == |s| + 1
  {
    if s != [] && s[0].0.seqNo < e.0.seqNo { InsertTaxLength(e, s[1..]); }
  }

  lemma {:induction false} SortTaxLength(s: seq<(TaxEvent, string)>)
    ensures |SortTax(s)| == |s|
  {
    if s != [] {
      SortTaxLength(s[1..]);
      InsertTaxLength(s[0], SortTax(s[1..]));
    }
  }

  /** A load returns one event per row. */
  lemma LogsCountRows(ledger: seq<Row>, tax: seq<Row>)
    requires LogsOf(ledger, tax).Success?
    ensures |LogsOf(ledger, tax).value.ledger| == |ledger|
    ensures |LogsOf(ledger, tax).value.tax| == |tax|
  {
    SortBySeqLength(DecodeLedger(ledger).value);
    SortTaxLength(DecodeTax(tax).value);
  }

  lemma {:induction false} InSeqOrderIsSorted(events: seq<Event>, from: nat)
    requires forall i :: 0 <= i < |events| ==> events[i].seqNo == from + i
    ensures SortBySeq(events) == events
  {
    if events != [] {
      InSeqOrderIsSorted(events[1..], from + 1);
      assert events == [events[0]] + events[1..];
    }
  }

  // --- The cached mirror. ---

  datatype Fingerprint = Fingerprint(count: int, maxSeq: int, checksum: int, contentHash: int)

  datatype Cached = Cached(logs: EventLogs, ledgerFp: Fingerprint, taxFp: Fingerprint)

  /** Older logs and newer rows: on tabs that only grow, the logs of the rows read before
      are those of the rows there now exactly when no row landed in between. */
  lemma {:induction false} OlderLogsAreCurrentIff(readLedger: seq<Row>, readTax: seq<Row>, ledger: seq<Row>,
                                                  tax: seq<Row>)
    requires readLedger <= ledger && readTax <= tax
    requires LogsOf(readLedger, readTax).Success? && LogsOf(ledger, tax).Success?
    ensures LogsOf(readLedger, readTax) == LogsOf(ledger, tax) <==> readLedger == ledger && readTax == tax
  {
    LogsCountRows(readLedger, readTax);
    LogsCountRows(ledger, tax);
  }

  lemma Squeezed(a: seq<Row>, b: seq<Row>)
    requires a <= b <= a
    ensures a == b
  {
  }

  // --- Sound tabs. ---

  function RowSeq(row: Row): Option<nat> {
    ParseU64(Trim(Get(row, SeqCol)))
  }

  function RowSeqs(rows: seq<Row>): (r: seq<nat>)
    ensures |r| == |rows|
    ensures forall i :: 0 <= i < |rows| ==> r[i] == match RowSeq(rows[i]) case None => 0 case Some(n) => n
  {
    seq(|rows|, i requires 0 <= i < |rows| => match RowSeq(rows[i]) case None => 0 case Some(n) => n)
  }

  /** The rows carry exactly the numbers 1 to n, in any order. */
  ghost predicate Numbered(rows: seq<Row>) {
    Dense(RowSeqs(rows))
  }

  predicate HasId(rows: seq<Row>, id: string) {
    exists i :: 0 <= i < |rows| && Get(rows[i], EventIdCol) == id
  }

  ghost predicate DistinctIds(rows: seq<Row>) {
    && (forall i :: 0 <= i < |rows| ==> Get(rows[i], EventIdCol) != "")
    && (forall i, j :: 0 <= i < j < |rows| ==> Get(rows[i], EventIdCol) != Get(rows[j], EventIdCol))
  }

  ghost predicate DisjointIds(a: seq<Row>, b: seq<Row>) {
    forall i, j :: 0 <= i < |a| && 0 <= j < |b| ==> Get(a[i], EventIdCol) != Get(b[j], EventIdCol)
  }

  /** Each tab numbered 1 to n, every row with an id of its own on both tabs. */
  ghost predicate Sound(ledger: seq<Row>, tax: seq<Row>) {
    Numbered(ledger) && Numbered(tax) && DistinctIds(ledger) && DistinctIds(tax) && DisjointIds(ledger, tax)
  }

  /** The largest sequence number a tab shows, 0 if none. */
  function MaxSeq(rows: seq<Row>): nat {
    if rows == [] then 0
    else
      var rest := MaxSeq(rows[..|rows| - 1]);
      match RowSeq(rows[|rows| - 1])
      case None => rest
      case Some(v) => if v > rest then v else rest
  }

  lemma MaxSeqLast(rows: seq<Row>)
    requires rows != []
    ensures
      var rest, last := MaxSeq(rows[..|rows| - 1]), RowSeqs(rows)[|rows| - 1];
      MaxSeq(rows) == if last > rest then last else rest
  {
  }

  lemma {:induction false} MaxSeqBounds(rows: seq<Row>, bound: nat)
    requires forall i :: 0 <= i < |rows| ==> RowSeqs(rows)[i] <= bound
    ensures MaxSeq(rows) <= bound
    ensures forall i :: 0 <= i < |rows| ==> RowSeqs(rows)[i] <= MaxSeq(rows)
  {
    if rows != [] {
      var front := rows[..|rows| - 1];
      assert RowSeqs(front) == RowSeqs(rows)[..|front|];
      assert forall i :: 0 <= i < |front| ==> RowSeqs(front)[i] == RowSeqs(rows)[i];
      MaxSeqBounds(front, bound);
      MaxSeqLast(rows);
    }
  }

  /** On a numbered tab the next free number is one past the row count. */
  lemma {:induction false} MaxSeqIsCount(rows: seq<Row>)
    requires Numbered(rows)
    ensures MaxSeq(rows) == |rows|
  {
    MaxSeqBounds(rows, |rows|);
    if rows != [] {
      DenseReachesLength(RowSeqs(rows));
      var i :| 0 <= i < |rows| && RowSeqs(rows)[i] == |rows|;
    }
  }

  lemma NumberedExtends(rows: seq<Row>, row: Row)
    requires Numbered(rows) && RowSeq(row) == Some(|rows| + 1)
    ensures Numbered(rows + [row])
  {
    DenseExtends(RowSeqs(rows));
    assert RowSeqs(rows + [row]) == RowSeqs(rows) + [|rows| + 1];
  }

  /** A row with the next number and an id neither tab has keeps the tabs sound. */
  lemma LandedLedgerRow(ledger: seq<Row>, tax: seq<Row>, row: Row)
    requires Sound(ledger, tax)
    requires RowSeq(row) == Some(|ledger| + 1)
    requires Get(row, EventIdCol) != "" && !HasId(ledger, Get(row, EventIdCol)) && !HasId(tax, Get(row, EventIdCol))
    ensures Sound(ledger + [row], tax)
  {
    NumberedExtends(ledger, row);
  }

  lemma LandedTaxRow(ledger: seq<Row>, tax: seq<Row>, row: Row)
    requires Sound(ledger, tax)
    requires RowSeq(row) == Some(|tax| + 1)
    requires Get(row, EventIdCol) != "" && !HasId(ledger, Get(row, EventIdCol)) && !HasId(tax, Get(row, EventIdCol))
    ensures Sound(ledger, tax + [row])
  {
    NumberedExtends(tax, row);
  }

  /** Rows carrying an id. */
  function CountId(rows: seq<Row>, id: string): nat {
    if rows == [] then 0 else (if Get(rows[0], EventIdCol) == id then 1 else 0) + CountId(rows[1..], id)
  }

  lemma {:induction false} CountIdNone(rows: seq<Row>, id: string)
    requires !HasId(rows, id)
    ensures CountId(rows, id) == 0
  {
    if rows != [] {
      assert forall i :: 0 <= i < |rows[1..]| ==> rows[1..][i] == rows[i + 1];
      assert Get(rows[0], EventIdCol) != id;
      CountIdNone(rows[1..], id);
    }
  }

  /** An event is on sound tabs at most once. */
  lemma {:induction false} AtMostOnce(rows: seq<Row>, id: string)
    requires DistinctIds(rows)
    ensures CountId(rows, id) == if HasId(rows, id) then 1 else 0
  {
    if rows != [] {
      var rest := rows[1..];
      assert forall i :: 0 <= i < |rest| ==> rest[i] == rows[i + 1];
      if Get(rows[0], EventIdCol) == id {
        CountIdNone(rest, id);
      } else {
        AtMostOnce(rest, id);
        if i :| 0 <= i < |rows| && Get(rows[i], EventIdCol) == id { assert Get(rest[i - 1], EventIdCol) == id; }
      }
    }
  }
}
