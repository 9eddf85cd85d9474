/** Tabs on which a promise of the store fails: an entry resubmitted after its first row landed
    altered, which lands twice if it is a sale and not if it is an opening, and a mirror one row
    behind. */
module TabExceptions {
  import opened Basics
  import opened Rounding
  import opened Text
  import opened Ledger
  import opened Escape
  import opened Rows
  import opened TaxRows
  import opened Workbook
  import opened Integrity
  import opened Logs
  import opened Idempotency
  import opened Stores
  import opened Submits
  import opened ReversalTotality
  import opened AcceptedLog
  import EventIds
  import Exceptions

  // --- An opening whose altered row keeps its lot is refused. ---

  function LotOpened(e: Event): Option<string> {
    match e.kind
    case Buy(lotId, _, _, _, _, _, _) => Some(lotId)
    case Vest(lotId, _, _, _, _, _) => Some(lotId)
    case _ => None
  }

  /** The fold after a fresh accepted event. */
  lemma FoldsOne(log: seq<Event>, e: Event)
    requires Grown(log) && Fresh(log, e) && !e.kind.Reversal?
    ensures StateOf(log + [e]) == ApplyEvent(StateOf(log), e).0
  {
    GrownReplaysClean(log);
    FreshKeeps(log, e);
    FoldAppend(EMPTY_BOOK, Surviving(log), [e]);
    assert [e][1..] == [];
  }

  lemma OpensLast(b: Book, opening: Event)
    requires LotOpened(opening).Some? && ApplyEvent(b, opening).1.Accepted?
    ensures FindLot(ApplyEvent(b, opening).0.lots, LotOpened(opening).value).Some?
  {
    assert ApplyEvent(b, opening).0.lots[|b.lots|].id == LotOpened(opening).value;
  }

  lemma {:induction false} OpenedTwiceRejected(log: seq<Event>, opening: Event, candidate: Event)
    requires Grown(log) && Fresh(log, opening) && ApplyEvent(StateOf(log), opening).1.Accepted?
    requires LotOpened(opening).Some? && LotOpened(candidate) == LotOpened(opening)
    ensures Validate(log + [opening], candidate).Rejected?
  {
    FoldsOne(log, opening);
    OpensLast(StateOf(log), opening);
  }

  /** However the row of an opening landed, if it reads as an opening of the same lot that
      replay carries out, resubmitting the entry lands nothing and does not succeed. */
  lemma {:induction false} AlteredOpeningStaysAlone(before: seq<Row>, tax: seq<Row>, log: seq<Event>, opening: Event,
                                                    candidate: Event, nonce: nat, after: seq<Row>, r: SubmitOutcome)
    requires LogsOf(before, tax).Success? && LogsOf(before, tax).value.ledger == log + [opening]
    requires Grown(log) && Fresh(log, opening) && ApplyEvent(StateOf(log), opening).1.Accepted?
    requires LotOpened(opening).Some? && LotOpened(candidate) == LotOpened(opening)
    requires Submittable(candidate) && Copies(before, candidate) == 0 && |before| < ROOM
    requires SubmitKeeps(candidate, nonce, before, tax, after, r)
    ensures after == before && !r.Landed?
  {
    if after != before {
      JoinedRow(candidate, before, tax, after);
      OpenedTwiceRejected(log, opening, candidate.(id := Get(after[|before|], EventIdCol)));
    }
    if r.Landed? {
      LandedIsCopied(candidate, before, after, r.outcome);
    }
  }

  lemma {:induction false} LandedIsCopied(candidate: Event, before: seq<Row>, after: seq<Row>, out: AppendOutcome)
    requires Submittable(candidate) && out.eventId != "" && |before| < ROOM
    requires Confirmed(candidate.(id := out.eventId), before, after, out)
    ensures after != before || Copies(before, candidate) > 0
  {
    if out.idempotentSkip {
      var i :| 0 <= i < |before| && StoredAs(candidate.(id := out.eventId), before[i], out.seqNo);
      SkippedIsCopy(candidate, out.eventId, before[i], out.seqNo);
      CountPositive(before, ReadsAs(candidate));
    }
  }

  // --- A sale that lands twice. ---

  const BUY := Event("b", 1, 0, Buy("L", "AMZN", 10_000_000, 100, 0, "P", None))
  const SALE := Event("", 0, 1, Sell("S", "AMZN", 1_000_000, 100, 0, [LotRef("L", 1_000_000)], None, "P", None))
  const MISREAD := Sell("S", "AMZN", 1_000_000, 100, 1, [LotRef("L", 1_000_000)], None, "P", None)

  /** The sale with one cent in its fees cell, as it landed the first time. */
  function Misread(id: string): Event {
    Event(id, 2, 1, MISREAD)
  }

  function Intended(id: string, n: nat): Event {
    SALE.(id := id, seqNo := n)
  }

  const FIRST := [LedgerToRow(BUY)]

  function Second(s: string): seq<Row> {
    FIRST + [LedgerToRow(Misread(s))]
  }

  function Third(s: string, t: string): seq<Row> {
    Second(s) + [LedgerToRow(Intended(t, 3))]
  }

  /** An id that is not the buy's. */
  predicate Other(id: string) {
    id != "" && id != BUY.id
  }

  lemma Submittables(s: string)
    ensures Submittable(BUY) && Submittable(SALE) && Submittable(Misread(s))
  {
    assert SALE.kind.lotRefs[0] == LotRef("L", 1_000_000);
    assert GoodRef(LotRef("L", 1_000_000));
  }

  lemma CentsDiffer()
    ensures IntText(0) != IntText(1)
  {
    ParseIntText(0);
    ParseIntText(1);
  }

  predicate SameButFees(e: Event, f: Event) {
    && e.kind.Sell? && f.kind.Sell? && e.id == f.id && e.seqNo == f.seqNo && e.date == f.date
    && f.kind == Sell(e.kind.saleId, e.kind.symbol, e.kind.qty, e.kind.unitPrice, f.kind.fees, e.kind.lotRefs,
                      e.kind.accruesToState, e.kind.platform, e.kind.trackingCode)
  }

  lemma FeesCell(e: Event, f: Event, c: Column)
    requires SameButFees(e, f)
    ensures c != FeesCol ==> Get(LedgerToRow(e), c) == Get(LedgerToRow(f), c)
    ensures Get(LedgerToRow(e), FeesCol) == IntText(e.kind.fees)
  {
    LedgerRowCell(e, c);
    LedgerRowCell(f, c);
    if c != FeesCol { OtherCell(e, f, c); }
    LedgerRowCell(e, FeesCol);
    assert LedgerCell(e, FeesCol) == SellCell(e.kind, FeesCol);
  }

  lemma OtherCell(e: Event, f: Event, c: Column)
    requires SameButFees(e, f) && c != FeesCol
    ensures LedgerCell(e, c) == LedgerCell(f, c)
  {
    assert SellCell(e.kind, c) == SellCell(f.kind, c);
  }

  /** Only the fees cell of the row differs from what was written. */
  lemma {:induction false} OnlyFeesAltered(s: string, c: Column)
    ensures Get(LedgerToRow(Misread(s)), c) == Get(LedgerToRow(Intended(s, 2)), c) <==> c != FeesCol
  {
    FeesCell(Intended(s, 2), Misread(s), c);
    FeesCell(Misread(s), Intended(s, 2), c);
    CentsDiffer();
  }

  lemma {:induction false} DifferentContent(a: Event, b: Event, c: Column)
    requires c != SeqCol && c != EventIdCol
    requires LedgerCell(a.(id := "", seqNo := 0), c) != LedgerCell(b.(id := "", seqNo := 0), c)
    ensures Content(a) != Content(b)
  {
    LedgerRowCell(a.(id := "", seqNo := 0), c);
    LedgerRowCell(b.(id := "", seqNo := 0), c);
    assert Get(Content(a), c) == Get(LedgerToRow(a.(id := "", seqNo := 0)), c);
    assert Get(Content(b), c) == Get(LedgerToRow(b.(id := "", seqNo := 0)), c);
  }

  lemma NotCopied(e: Event)
    requires RowToLedger(LedgerToRow(e)) == Success(e) && Content(e) != Content(SALE)
    ensures !ReadsAs(SALE)(LedgerToRow(e))
  {
  }

  lemma BuyNotCopied()
    ensures !ReadsAs(SALE)(LedgerToRow(BUY))
  {
    Submittables("");
    StampedIsStorable(BUY, "b", 1);
    LedgerRowRoundTrip(BUY);
    assert "Buy"[0] != "Sell"[0];
    DifferentContent(BUY, SALE, KindCol);
    NotCopied(BUY);
  }

  lemma MisreadReads(s: string)
    requires s != ""
    ensures RowToLedger(LedgerToRow(Misread(s))) == Success(Misread(s))
  {
    Submittables(s);
    StampedIsStorable(Misread(s), s, 2);
    assert WithSeq(Misread(s).(id := s), 2) == Misread(s);
    LedgerRowRoundTrip(Misread(s));
  }

  lemma MisreadDiffers(s: string)
    ensures Content(Misread(s)) != Content(SALE)
  {
    CentsDiffer();
    DifferentContent(Misread(s), SALE, FeesCol);
  }

  lemma MisreadNotCopied(s: string)
    requires s != ""
    ensures !ReadsAs(SALE)(LedgerToRow(Misread(s)))
  {
    MisreadReads(s);
    MisreadDiffers(s);
    NotCopied(Misread(s));
  }

  lemma NoneReadsAsSale(s: string)
    requires s != ""
    ensures Copies(FIRST, SALE) == 0 && Copies(Second(s), SALE) == 0
  {
    BuyNotCopied();
    MisreadNotCopied(s);
    CountAppend([], LedgerToRow(BUY), ReadsAs(SALE));
    CountAppend(FIRST, LedgerToRow(Misread(s)), ReadsAs(SALE));
    assert [] + [LedgerToRow(BUY)] == FIRST;
  }

  const LOT := Lot("L", "AMZN", 0, 1, FromBuy, 10_000_000, 1000, "P", None, "b", false)
  const HOLDING := Book([LOT], [], {"AMZN"}, {})

  /** Either sale fits the lot, and either fits after the other. */
  lemma SalesFit(e: Event, b: Book)
    requires e.kind == SALE.kind || e.kind == MISREAD
    requires |b.lots| == 1 && b.lots[0].id == "L" && b.lots[0].symbol == "AMZN" && b.lots[0].platform == "P"
    requires !b.lots[0].closed && b.lots[0].qty > 1_000_000
    ensures ApplyEvent(b, e).1.Accepted?
    ensures ApplyEvent(b, e).0.lots == [Sold(b.lots[0], 1_000_000)]
  {
    RoundUnique(1_000_000 * 100, SHARE_SCALE, 100);
    Exceptions.SellFrom(b, e, 0);
  }

  lemma BuyGrows()
    ensures Grown([BUY]) && Surviving([BUY]) == [BUY] && StateOf([BUY]) == HOLDING
  {
    RoundUnique(10_000_000 * 100, SHARE_SCALE, 1000);
    var b := ApplyEvent(EMPTY_BOOK, BUY).0;
    assert b.lots == [LOT] && b.symbolsSeen == {"AMZN"};
    Exceptions.FirstGrows(BUY);
  }

  lemma MisreadGrows(s: string)
    requires Other(s)
    ensures Grown([BUY, Misread(s)]) && Surviving([BUY, Misread(s)]) == [BUY, Misread(s)]
    ensures StateOf([BUY, Misread(s)]).lots == [Sold(LOT, 1_000_000)]
  {
    BuyGrows();
    SalesFit(Misread(s), HOLDING);
    GrowByOne([BUY], Misread(s), HOLDING);
    assert [BUY] + [Misread(s)] == [BUY, Misread(s)];
  }

  lemma EmptyLoads()
    ensures LoadsClean([], [], [])
  {
    assert LogsOf([], []) == Success(EventLogs([], []));
  }

  lemma Lands(rows: seq<Row>, log: seq<Event>, e: Event)
    requires InOrder(rows) && LoadsClean(rows, [], log) && |rows| < ROOM
    requires Submittable(e) && !e.kind.Reversal? && e.id != "" && !HasId(rows, e.id) && e.seqNo == |rows| + 1
    requires Validate(log, e).Accepted?
    ensures InOrder(rows + [LedgerToRow(e)]) && LoadsClean(rows + [LedgerToRow(e)], [], log + [e])
  {
    assert e.(id := e.id) == e && e.(id := e.id, seqNo := |rows| + 1) == e;
    LandsClean(rows, [], log, e, e.id);
  }

  lemma BuyValidates()
    ensures Validate([], BUY).Accepted?
  {
    RoundUnique(10_000_000 * 100, SHARE_SCALE, 1000);
    assert StateOf([]) == EMPTY_BOOK;
  }

  lemma FirstLoads()
    ensures InOrder(FIRST) && LoadsClean(FIRST, [], [BUY])
  {
    EmptyLoads();
    Submittables("");
    BuyValidates();
    Lands([], [], BUY);
    assert [] + [LedgerToRow(BUY)] == FIRST && [] + [BUY] == [BUY];
  }

  lemma FirstValidates(s: string)
    requires Other(s)
    ensures ValidatedAgainst(SALE, FIRST, [], s) && ValidatedAgainst(Misread(s), FIRST, [], s)
  {
    FirstLoads();
    BuyGrows();
    SalesFit(SALE.(id := s), HOLDING);
    SalesFit(Misread(s), HOLDING);
    ValidatorAgrees([BUY], SALE.(id := s));
    ValidatorAgrees([BUY], Misread(s));
  }

  lemma IdOf(e: Event)
    ensures Get(LedgerToRow(e), EventIdCol) == e.id
  {
    LedgerRowCell(e, EventIdCol);
  }

  lemma Lone(s: string)
    requires Other(s)
    ensures !HasId(FIRST, s)
  {
    IdOf(BUY);
  }

  lemma SecondLoads(s: string)
    requires Other(s)
    ensures InOrder(Second(s)) && LoadsClean(Second(s), [], [BUY, Misread(s)])
  {
    FirstLoads();
    FirstValidates(s);
    Submittables(s);
    Lone(s);
    Lands(FIRST, [BUY], Misread(s));
    assert [BUY] + [Misread(s)] == [BUY, Misread(s)];
  }

  lemma SecondValidates(s: string, t: string)
    requires Other(s) && Other(t)
    ensures ValidatedAgainst(SALE, Second(s), [], t)
  {
    SecondLoads(s);
    MisreadGrows(s);
    SalesFit(SALE.(id := t), StateOf([BUY, Misread(s)]));
    ValidatorAgrees([BUY, Misread(s)], SALE.(id := t));
  }

  lemma FirstSound()
    ensures Sound(FIRST, [])
  {
    LedgerRowCell(BUY, EventIdCol);
    LedgerRowCell(BUY, SeqCol);
    ParseNatText(1);
    assert RowSeqs(FIRST) == [1];
  }

  /** Joining the tab, from what the row shows. */
  lemma Joins(rows: seq<Row>, row: Row, nonce: nat, id: string)
    requires id != "" && !HasId(rows, id) && Get(row, EventIdCol) == id && Get(row, SeqCol) == IntText(|rows| + 1)
    requires ValidatedAgainst(SALE, rows, [], id) && IdFor(SALE, nonce, id)
    ensures Joined(SALE, nonce, rows, [], rows + [row])
  {
    assert (rows + [row])[|rows|] == row;
  }

  lemma EventJoins(rows: seq<Row>, nonce: nat, e: Event)
    requires e.id != "" && !HasId(rows, e.id) && e.seqNo == |rows| + 1
    requires ValidatedAgainst(SALE, rows, [], e.id) && IdFor(SALE, nonce, e.id)
    ensures Joined(SALE, nonce, rows, [], rows + [LedgerToRow(e)])
  {
    LedgerRowCell(e, EventIdCol);
    LedgerRowCell(e, SeqCol);
    Joins(rows, LedgerToRow(e), nonce, e.id);
  }

  lemma MisreadJoins(nonce: nat, s: string)
    requires Other(s) && IdFor(SALE, nonce, s)
    ensures Joined(SALE, nonce, FIRST, [], Second(s))
  {
    FirstValidates(s);
    Lone(s);
    EventJoins(FIRST, nonce, Misread(s));
  }

  lemma SecondIds(s: string, t: string)
    requires Other(t) && s != t
    ensures !HasId(Second(s), t)
  {
    IdOf(BUY);
    IdOf(Misread(s));
  }

  lemma SaleJoins(nonce: nat, s: string, t: string)
    requires Other(s) && Other(t) && s != t && IdFor(SALE, nonce, t)
    ensures Joined(SALE, nonce, Second(s), [], Third(s, t))
  {
    SecondValidates(s, t);
    SecondIds(s, t);
    EventJoins(Second(s), nonce, Intended(t, 3));
  }

  lemma SaleConfirmed(s: string, t: string)
    ensures Confirmed(SALE.(id := t), Second(s), Third(s, t), AppendOutcome(t, 3, false))
  {
    assert WithSeq(SALE.(id := t), 3) == Intended(t, 3);
    assert |Second(s)| == 2 && Third(s, t)[2] == LedgerToRow(Intended(t, 3));
  }

  lemma {:induction false} IntactCopy(rows: seq<Row>, e: Event)
    requires Submittable(SALE) && Copies(rows, SALE) == 0 && |rows| < ROOM
    requires e.id != "" && e == SALE.(id := e.id, seqNo := |rows| + 1)
    ensures Copies(rows + [LedgerToRow(e)], SALE) == 1 && IntactAs(SALE)(LedgerToRow(e), |rows| + 1)
  {
    FreshIsCopy(SALE, e.id, |rows| + 1);
    assert e == WithSeq(SALE.(id := e.id), |rows| + 1);
    CountAppend(rows, LedgerToRow(e), ReadsAs(SALE));
    LedgerRowCell(e, EventIdCol);
  }

  lemma ThirdCopied(s: string, t: string)
    requires s != "" && t != ""
    ensures Copies(Third(s, t), SALE) == 1 && IntactAs(SALE)(LedgerToRow(Intended(t, 3)), 3)
  {
    assert Submittable(SALE) by { Submittables(s); }
    assert Copies(Second(s), SALE) == 0 by { NoneReadsAsSale(s); }
    assert |Second(s)| == 2;
    IntactCopy(Second(s), Intended(t, 3));
  }

  lemma MisreadNotIntact(s: string)
    ensures !IntactAs(SALE)(LedgerToRow(Misread(s)), 2)
  {
    LedgerRowCell(Misread(s), EventIdCol);
    OnlyFeesAltered(s, FeesCol);
    assert WithSeq(SALE.(id := s), 2) == Intended(s, 2);
  }

  lemma ThirdCounted(s: string, t: string)
    requires s != "" && t != ""
    ensures Altered(SALE, Third(s, t), 1) == 1 && Copies(Third(s, t), SALE) == 1
  {
    ThirdCopied(s, t);
    MisreadNotIntact(s);
    FailingNext(FIRST, LedgerToRow(Misread(s)), 1, IntactAs(SALE));
    FailingNext(Second(s), LedgerToRow(Intended(t, 3)), 1, IntactAs(SALE));
  }

  /** The ids such a sale is given: the first made from its content, and once that is taken
      the second. */
  lemma SaleIds(nonce: nat)
    ensures
      var s, t := EventIds.Candidate(nonce, 0), EventIds.Candidate(nonce, 1);
      Other(s) && Other(t) && s != t && IdFor(SALE, nonce, s) && IdFor(SALE, nonce, t)
  {
    EventIds.DifferentBumps(nonce, 0, 1);
    assert EventIds.Candidate(nonce, 0)[0] == 'e' && EventIds.Candidate(nonce, 1)[0] == 'e' && BUY.id[0] == 'b';
  }

  /** A sale whose row landed with a cent in its fees cell, and the same sale submitted again:
      whatever its content hashes to, the first submit can leave the second tab, not having
      succeeded, and the second submit then succeeds and leaves the third, on which the sale
      stands twice. */
  lemma {:induction false} AlteredSaleLandsTwice(nonce: nat)
    ensures LoadsClean(FIRST, [], [BUY]) && Sound(FIRST, [])
    ensures
      var s, t := EventIds.Candidate(nonce, 0), EventIds.Candidate(nonce, 1);
      && SubmitKeeps(SALE, nonce, FIRST, [], Second(s), WriteFailed(VerifyMismatch))
      && SubmitKeeps(SALE, nonce, Second(s), [], Third(s, t), Landed(AppendOutcome(t, 3, false)))
      && |Third(s, t)| == |FIRST| + 2
      && Altered(SALE, Third(s, t), |FIRST|) == 1 && Copies(Third(s, t), SALE) == 1
  {
    FirstLoads();
    FirstSound();
    SaleIds(nonce);
    var s, t := EventIds.Candidate(nonce, 0), EventIds.Candidate(nonce, 1);
    FirstKeeps(nonce, s);
    SecondKeeps(nonce, s, t);
    ThirdCounted(s, t);
  }

  lemma FirstKeeps(nonce: nat, s: string)
    requires Other(s) && IdFor(SALE, nonce, s)
    ensures SubmitKeeps(SALE, nonce, FIRST, [], Second(s), WriteFailed(VerifyMismatch))
  {
    NoneReadsAsSale(s);
    MisreadJoins(nonce, s);
  }

  lemma SecondKeeps(nonce: nat, s: string, t: string)
    requires Other(s) && Other(t) && s != t && IdFor(SALE, nonce, t)
    ensures SubmitKeeps(SALE, nonce, Second(s), [], Third(s, t), Landed(AppendOutcome(t, 3, false)))
  {
    NoneReadsAsSale(s);
    SaleJoins(nonce, s, t);
    SaleConfirmed(s, t);
  }

  // --- A mirror one row behind. ---

  /** Tabs that read empty, and the same with the buy landed. */
  lemma {:induction false} LogsOneBehind()
    ensures Sound(FIRST, []) && LogsOf([], []) == Success(EventLogs([], []))
    ensures LogsOf(FIRST, []).Success? && LogsOf(FIRST, []) != LogsOf([], [])
  {
    FirstSound();
    EmptyLoads();
    FirstLoads();
    OlderLogsAreCurrentIff([], [], FIRST, []);
  }

  /** A store whose tabs read empty, a buy landing before the rows were counted: nothing is
      wrong with it, its fingerprint is that of the rows there, and its logs are not. */
  lemma {:induction false} MirrorOneBehind(store: Store)
    requires store.Valid() && store.cache.Some? && store.cache.value.logs == EventLogs([], [])
    requires store.sheets.ledger == FIRST && store.sheets.tax == []
    requires store.readLedger == [] && store.probedLedger == FIRST
    ensures !store.ReadWhole()
    ensures
      var full := LogsOf(store.sheets.ledger, store.sheets.tax);
      full.Success? && full.value != store.cache.value.logs
  {
    LogsOneBehind();
    assert |FIRST| == 1;
  }

  lemma NothingReads()
    ensures DecodeLedger([]) == Success([]) && DecodeTax([]) == Success([])
    ensures Loadable([]) && Dense(TaxSeqNos([])) && LogsOf([], []) == Success(EventLogs([], []))
  {
  }

  /** The steps of a load of a workbook never written to, a buy of another writer landing after
      the tabs were read and before they are counted. */
  method LoadOneBehind(checksum: seq<Row> -> int, hashLedger: seq<Event> -> int,
                       hashTax: seq<(TaxEvent, string)> -> int, taxEventId: TaxEvent -> string) returns (store: Store)
    ensures fresh(store) && store.Valid() && !store.ReadWhole() && store.cache.Some?
    ensures store.cache.value.ledgerFp.count == |store.sheets.ledger|
    ensures
      var full := LogsOf(store.sheets.ledger, store.sheets.tax);
      full.Success? && full.value != store.cache.value.logs
  {
    var sheets := new Sheets(checksum);
    store := new Store(sheets, hashLedger, hashTax, taxEventId);
    var ledger := ReadLedgerLog([]);
    var tax := ReadTaxLog([]);
    NothingReads();
    sheets.ledger, sheets.ledgerMissing := FIRST, false;
    var counted := Probe(Some(|sheets.ledger|), Some(LargestSeq(sheets.ledger)), Some(checksum(sheets.ledger)));
    store.Adopt(EventLogs(SortBySeq(ledger.value), SortTax(tax.value)), counted, Probe(None, None, None), [], [],
                sheets.ledger, []);
    MirrorOneBehind(store);
  }
}
