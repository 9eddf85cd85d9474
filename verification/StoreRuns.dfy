/** Whole runs: any number of writers, each with its own mirror, appending to one workbook in
    any order, through any failures and retries. */
module StoreRuns {
  import opened Basics
  import opened Text
  import opened Ledger
  import opened Escape
  import opened Rows
  import opened TaxRows
  import opened Workbook
  import opened Logs
  import opened Idempotency
  import opened Stores

  datatype Command = PutLedger(event: Event) | PutTax(taxEvent: TaxEvent) | PutBlock(events: seq<Event>)

  datatype Reply =
    | One(outcome: Result<AppendOutcome, StoreError>)
    | Many(outcomes: Result<seq<AppendOutcome>, StoreError>)

  /** Rows a command may add. */
  function Weight(c: Command): nat {
    match c case PutBlock(events) => |events| case _ => 1
  }

  function TotalWeight(plan: seq<(nat, Command)>): nat {
    if plan == [] then 0 else TotalWeight(plan[..|plan| - 1]) + Weight(plan[|plan| - 1].1)
  }

  lemma {:induction false} PrefixWeight(plan: seq<(nat, Command)>, n: nat)
    requires n < |plan|
    ensures TotalWeight(plan[..n + 1]) == TotalWeight(plan[..n]) + Weight(plan[n].1) <= TotalWeight(plan)
    decreases |plan|
  {
    var front := plan[..|plan| - 1];
    if n < |front| {
      PrefixWeight(front, n);
      assert front[..n] == plan[..n] && front[..n + 1] == plan[..n + 1];
    } else {
      assert plan[..n + 1] == plan;
    }
  }

  /** Events have ids; a tax event's id comes from its content. */
  ghost predicate WellFormed(stores: seq<Store>, c: (nat, Command)) {
    && c.0 < |stores|
    && match c.1
       case PutLedger(e) => e.id != ""
       case PutTax(e) => stores[c.0].taxEventId(e) != ""
       case PutBlock(events) => forall i :: 0 <= i < |events| ==> events[i].id != ""
  }

  /** What a successful reply promises of the tabs, then and from then on. */
  ghost predicate Kept(store: Store, c: Command, r: Reply, ledger: seq<Row>, tax: seq<Row>) {
    match (c, r)
    case (PutLedger(e), One(Success(out))) => HeldAs(ledger, e, out)
    case (PutTax(e), One(Success(out))) => HeldTaxAs(tax, e, store.taxEventId(e), out)
    case (PutBlock(events), Many(Success(outs))) =>
      |outs| == |events| && forall i :: 0 <= i < |events| ==> HeldAs(ledger, events[i], outs[i])
    case (PutLedger(_), One(Failure(_))) => true
    case (PutTax(_), One(Failure(_))) => true
    case (PutBlock(_), Many(Failure(_))) => true
    case _ => false
  }

  ghost predicate HeldTaxAs(rows: seq<Row>, e: TaxEvent, id: string, out: AppendOutcome) {
    exists i :: 0 <= i < |rows| && RowHoldsTax(rows[i], e, id, out)
  }

  predicate RowHoldsTax(row: Row, e: TaxEvent, id: string, out: AppendOutcome) {
    if out.idempotentSkip then StoredAsTax(e, id, row, out.seqNo) else row == TaxToRow(WithTaxSeq(e, out.seqNo), id)
  }

  lemma HeldTaxStays(before: seq<Row>, after: seq<Row>, e: TaxEvent, id: string, out: AppendOutcome)
    requires before <= after && HeldTaxAs(before, e, id, out)
    ensures HeldTaxAs(after, e, id, out)
  {
    var i :| 0 <= i < |before| && RowHoldsTax(before[i], e, id, out);
    assert after[i] == before[i];
  }

  lemma KeptStays(store: Store, c: Command, r: Reply, ledger: seq<Row>, tax: seq<Row>, ledger': seq<Row>,
                  tax': seq<Row>)
    requires ledger <= ledger' && tax <= tax' && Kept(store, c, r, ledger, tax)
    ensures Kept(store, c, r, ledger', tax')
  {
    match (c, r) {
      case (PutLedger(e), One(Success(out))) => HeldStays(ledger, ledger', e, out);
      case (PutTax(e), One(Success(out))) => HeldTaxStays(tax, tax', e, store.taxEventId(e), out);
      case (PutBlock(events), Many(Success(outs))) =>
        forall i | 0 <= i < |events|
          ensures HeldAs(ledger', events[i], outs[i])
        {
          HeldStays(ledger, ledger', events[i], outs[i]);
        }
      case _ =>
    }
  }

  lemma ConfirmedTaxIsHeld(e: TaxEvent, id: string, before: seq<Row>, after: seq<Row>, out: AppendOutcome)
    requires ConfirmedTax(e, id, before, after, out)
    ensures HeldTaxAs(after, e, id, out)
  {
    if !out.idempotentSkip { assert after[|before|] == TaxToRow(WithTaxSeq(e, out.seqNo), id); }
  }

  /** Another writer's mirror is not hurt by rows landing. */
  twostate lemma MirrorSurvives(s: Store)
    requires old(s.Valid()) && unchanged(s) && s.sheets.Coherent()
    requires old(s.sheets.ledger) <= s.sheets.ledger && old(s.sheets.tax) <= s.sheets.tax
    ensures s.Valid()
  {
  }

  method Execute(store: Store, c: Command) returns (r: Reply)
    requires store.Valid() && Sound(store.sheets.ledger, store.sheets.tax)
    requires WellFormed([store], (0, c))
    requires |store.sheets.ledger| + Weight(c) < ROOM && |store.sheets.tax| + Weight(c) < ROOM
    modifies store, store.sheets
    ensures store.Valid() && Sound(store.sheets.ledger, store.sheets.tax)
    ensures old(store.sheets.ledger) <= store.sheets.ledger && old(store.sheets.tax) <= store.sheets.tax
    ensures |store.sheets.ledger| <= old(|store.sheets.ledger|) + Weight(c)
    ensures |store.sheets.tax| <= old(|store.sheets.tax|) + Weight(c)
    ensures Kept(store, c, r, store.sheets.ledger, store.sheets.tax)
  {
    ghost var ledger, tax := store.sheets.ledger, store.sheets.tax;
    match c {
      case PutLedger(e) =>
        var out := store.AppendLedger(e);
        if out.Success? { ConfirmedIsHeld(e, ledger, store.sheets.ledger, out.value); }
        r := One(out);
      case PutTax(e) =>
        var out := store.AppendTax(e);
        if out.Success? { ConfirmedTaxIsHeld(e, store.taxEventId(e), tax, store.sheets.tax, out.value); }
        r := One(out);
      case PutBlock(events) =>
        var outs := store.AppendLedgerBlock(events);
        r := Many(outs);
    }
  }

  /** A row another writer may land between commands: one under the next number of its tab and
      an id on neither. */
  method Visit(sheets: Sheets)
    requires sheets.Coherent() && Sound(sheets.ledger, sheets.tax)
    modifies sheets
    ensures sheets.Coherent() && Sound(sheets.ledger, sheets.tax)
    ensures old(sheets.ledger) <= sheets.ledger && old(sheets.tax) <= sheets.tax
    ensures |sheets.ledger| <= old(|sheets.ledger|) + 1 && |sheets.tax| <= old(|sheets.tax|) + 1
  {
    var row: Row := *;
    var id := Get(row, EventIdCol);
    if sheets.exclusive || id == "" || HasId(sheets.ledger, id) || HasId(sheets.tax, id) { return; }
    if * {
      if RowSeq(row) == Some(|sheets.ledger| + 1) {
        LandedLedgerRow(sheets.ledger, sheets.tax, row);
        sheets.ledger, sheets.ledgerMissing := sheets.ledger + [row], false;
      }
    } else if RowSeq(row) == Some(|sheets.tax| + 1) {
      LandedTaxRow(sheets.ledger, sheets.tax, row);
      sheets.tax, sheets.taxMissing := sheets.tax + [row], false;
    }
  }

  /** Some of the rows other writers land in the whole run, `most` of them being still to come. */
  method Visits(sheets: Sheets, stores: seq<Store>, most: nat) returns (left: nat)
    requires forall k :: 0 <= k < |stores| ==> stores[k].sheets == sheets && stores[k].Valid()
    requires sheets.Coherent() && Sound(sheets.ledger, sheets.tax)
    modifies sheets
    ensures forall k :: 0 <= k < |stores| ==> stores[k].Valid()
    ensures sheets.Coherent() && Sound(sheets.ledger, sheets.tax)
    ensures old(sheets.ledger) <= sheets.ledger && old(sheets.tax) <= sheets.tax
    ensures left <= most
    ensures |sheets.ledger| + left <= old(|sheets.ledger|) + most && |sheets.tax| + left <= old(|sheets.tax|) + most
  {
    left := most;
    while left > 0
      invariant left <= most
      invariant sheets.Coherent() && Sound(sheets.ledger, sheets.tax)
      invariant old(sheets.ledger) <= sheets.ledger && old(sheets.tax) <= sheets.tax
      invariant |sheets.ledger| + left <= old(|sheets.ledger|) + most && |sheets.tax| + left <= old(|sheets.tax|) + most
    {
      if * { break; }
      Visit(sheets);
      left := left - 1;
    }
    forall k | 0 <= k < |stores| ensures stores[k].Valid() { MirrorSurvives(stores[k]); }
  }

  /** Over every run, other writers' sound rows landing between the commands: the tabs stay
      sound, each tab's numbers being exactly 1 to n and ids unique across both, nothing
      recorded is lost, and every success reported still holds at the end, on exactly one row. */
  method Run(sheets: Sheets, stores: seq<Store>, plan: seq<(nat, Command)>, foreign: nat) returns (replies: seq<Reply>)
    requires forall k :: 0 <= k < |stores| ==> stores[k].sheets == sheets && stores[k].Valid()
    requires sheets.Coherent() && Sound(sheets.ledger, sheets.tax)
    requires forall k :: 0 <= k < |plan| ==> WellFormed(stores, plan[k])
    requires |sheets.ledger| + TotalWeight(plan) + foreign < ROOM && |sheets.tax| + TotalWeight(plan) + foreign < ROOM
    modifies stores, sheets
    ensures Sound(sheets.ledger, sheets.tax)
    ensures old(sheets.ledger) <= sheets.ledger && old(sheets.tax) <= sheets.tax
    ensures |replies| == |plan|
    ensures forall k :: 0 <= k < |plan| ==>
      plan[k].0 < |stores| && Kept(stores[plan[k].0], plan[k].1, replies[k], sheets.ledger, sheets.tax)
  {
    replies := [];
    var i, left := 0, foreign;
    assert plan[..0] == [];
    while i < |plan|
      invariant 0 <= i <= |plan| && |replies| == i
      invariant forall k :: 0 <= k < |stores| ==> stores[k].Valid()
      invariant sheets.Coherent() && Sound(sheets.ledger, sheets.tax)
      invariant old(sheets.ledger) <= sheets.ledger && old(sheets.tax) <= sheets.tax
      invariant |sheets.ledger| + left <= old(|sheets.ledger|) + TotalWeight(plan[..i]) + foreign
      invariant |sheets.tax| + left <= old(|sheets.tax|) + TotalWeight(plan[..i]) + foreign
      invariant KeptSoFar(stores, plan, replies, sheets.ledger, sheets.tax)
    {
      PrefixWeight(plan, i);
      assert WellFormed(stores, plan[i]);
      ghost var ledger, tax := sheets.ledger, sheets.tax;
      var r;
      r, left := Turn(sheets, stores, plan[i], left);
      AllKeptStays(stores, plan, replies, ledger, tax, sheets.ledger, sheets.tax);
      replies := replies + [r];
      i := i + 1;
    }
  }

  ghost predicate KeptSoFar(stores: seq<Store>, plan: seq<(nat, Command)>, replies: seq<Reply>, ledger: seq<Row>,
                            tax: seq<Row>)
  {
    && |replies| <= |plan|
    && forall k :: 0 <= k < |replies| ==>
         plan[k].0 < |stores| && Kept(stores[plan[k].0], plan[k].1, replies[k], ledger, tax)
  }

  lemma AllKeptStays(stores: seq<Store>, plan: seq<(nat, Command)>, replies: seq<Reply>,
                     ledger: seq<Row>, tax: seq<Row>, ledger': seq<Row>, tax': seq<Row>)
    requires ledger <= ledger' && tax <= tax' && KeptSoFar(stores, plan, replies, ledger, tax)
    ensures KeptSoFar(stores, plan, replies, ledger', tax')
  {
    forall k | 0 <= k < |replies| ensures Kept(stores[plan[k].0], plan[k].1, replies[k], ledger', tax') {
      KeptStays(stores[plan[k].0], plan[k].1, replies[k], ledger, tax, ledger', tax');
    }
  }

  /** Other writers' rows and then one command. */
  method Turn(sheets: Sheets, stores: seq<Store>, c: (nat, Command), most: nat) returns (r: Reply, left: nat)
    requires forall k :: 0 <= k < |stores| ==> stores[k].sheets == sheets && stores[k].Valid()
    requires sheets.Coherent() && Sound(sheets.ledger, sheets.tax) && WellFormed(stores, c)
    requires |sheets.ledger| + Weight(c.1) + most < ROOM && |sheets.tax| + Weight(c.1) + most < ROOM
    modifies stores, sheets
    ensures forall k :: 0 <= k < |stores| ==> stores[k].Valid()
    ensures sheets.Coherent() && Sound(sheets.ledger, sheets.tax)
    ensures old(sheets.ledger) <= sheets.ledger && old(sheets.tax) <= sheets.tax
    ensures |sheets.ledger| + left <= old(|sheets.ledger|) + Weight(c.1) + most
    ensures |sheets.tax| + left <= old(|sheets.tax|) + Weight(c.1) + most
    ensures Kept(stores[c.0], c.1, r, sheets.ledger, sheets.tax)
  {
    left := Visits(sheets, stores, most);
    r := ExecuteNext(sheets, stores, c);
  }

  /** One command, by the store it is for; the other stores' mirrors stay as good as they were. */
  method ExecuteNext(sheets: Sheets, stores: seq<Store>, c: (nat, Command)) returns (r: Reply)
    requires forall k :: 0 <= k < |stores| ==> stores[k].sheets == sheets && stores[k].Valid()
    requires sheets.Coherent() && Sound(sheets.ledger, sheets.tax) && WellFormed(stores, c)
    requires |sheets.ledger| + Weight(c.1) < ROOM && |sheets.tax| + Weight(c.1) < ROOM
    modifies stores, sheets
    ensures forall k :: 0 <= k < |stores| ==> stores[k].Valid()
    ensures sheets.Coherent() && Sound(sheets.ledger, sheets.tax)
    ensures old(sheets.ledger) <= sheets.ledger && old(sheets.tax) <= sheets.tax
    ensures |sheets.ledger| <= old(|sheets.ledger|) + Weight(c.1) && |sheets.tax| <= old(|sheets.tax|) + Weight(c.1)
    ensures Kept(stores[c.0], c.1, r, sheets.ledger, sheets.tax)
  {
    r := Execute(stores[c.0], c.1);
    forall k | 0 <= k < |stores| ensures stores[k].Valid() {
      if stores[k] != stores[c.0] { MirrorSurvives(stores[k]); }
    }
  }

  /** On sound tabs a held event sits on exactly one row, and that row reads back as it. */
  lemma {:induction false} HeldExactlyOnce(ledger: seq<Row>, tax: seq<Row>, e: Event, out: AppendOutcome)
    requires Sound(ledger, tax) && HeldAs(ledger, e, out)
    requires WellTyped(WithSeq(e, out.seqNo)) && Storable(WithSeq(e, out.seqNo))
    ensures CountId(ledger, e.id) == 1 && CountId(tax, e.id) == 0
    ensures exists i ::
      0 <= i < |ledger| && Get(ledger[i], EventIdCol) == e.id
        && RowToLedger(ledger[i]) == Success(WithSeq(e, out.seqNo))
  {
    var i :| 0 <= i < |ledger| && RowHolds(ledger[i], e, out);
    if out.idempotentSkip {
      SkippedRowIsEvent(e, ledger[i], out.seqNo);
      SansSeqCells(ledger[i], LedgerToRow(e));
      LedgerRowCell(e, EventIdCol);
    } else {
      LedgerRowRoundTrip(WithSeq(e, out.seqNo));
      LedgerRowCell(WithSeq(e, out.seqNo), EventIdCol);
    }
    assert Get(ledger[i], EventIdCol) == e.id;
    AtMostOnce(ledger, e.id);
    forall j | 0 <= j < |tax| ensures Get(tax[j], EventIdCol) != e.id {
      assert Get(ledger[i], EventIdCol) != Get(tax[j], EventIdCol);
    }
    CountIdNone(tax, e.id);
  }
}
