/** The tax tab's rows: a tax event together with the id the store gave it. */
module TaxRows {
  import opened Basics
  import opened Text
  import opened Escape
  import opened Rows

  datatype TaxKind =
    | Allocate(key: AccrualKey, accountLabel: string)
    | Move(key: AccrualKey, amount: int, date: int)
    | Pay(jurisdiction: Jurisdiction, taxYear: int, period: Quarter, amount: int, date: int, covers: seq<AccrualKey>)
    | AmountOverride(key: AccrualKey, appliedAmount: int, reason: string)
    | SeedMigration(jurisdiction: Jurisdiction, taxYear: int, appliedAmount: int, reason: string)

  datatype TaxEvent = TaxEvent(seqNo: nat, kind: TaxKind)

  // --- Tax event to row. ---

  predicate KeyColumn(c: Column) {
    c == AccrualSaleIdCol || c == AccrualLotIdCol || c == JurisdictionCol || c == TaxYearCol
  }

  function KeyCell(key: AccrualKey, c: Column): string {
    if c == AccrualSaleIdCol then key.saleId
    else if c == AccrualLotIdCol then key.lotId
    else if c == JurisdictionCol then EncJurisdiction(key.jurisdiction)
    else if c == TaxYearCol then IntText(key.taxYear)
    else ""
  }

  function AllocateCell(k: TaxKind, c: Column): string
    requires k.Allocate?
  {
    if KeyColumn(c) then KeyCell(k.key, c)
    else if c == KindCol then "Allocate"
    else if c == AccountLabelCol then k.accountLabel
    else ""
  }

  function MoveCell(k: TaxKind, c: Column): string
    requires k.Move?
  {
    if KeyColumn(c) then KeyCell(k.key, c)
    else if c == KindCol then "Move"
    else if c == AmountCol then IntText(k.amount)
    else if c == DateCol then IntText(k.date)
    else ""
  }

  function PayCell(k: TaxKind, c: Column): string
    requires k.Pay?
  {
    if c == KindCol then "Pay"
    else if c == JurisdictionCol then EncJurisdiction(k.jurisdiction)
    else if c == TaxYearCol then IntText(k.taxYear)
    else if c == PeriodCol then EncQuarter(k.period)
    else if c == AmountCol then IntText(k.amount)
    else if c == DateCol then IntText(k.date)
    else if c == CoversCol then EncCovers(k.covers)
    else ""
  }

  function AmountOverrideCell(k: TaxKind, c: Column): string
    requires k.AmountOverride?
  {
    if KeyColumn(c) then KeyCell(k.key, c)
    else if c == KindCol then "AmountOverride"
    else if c == AppliedAmountCol then IntText(k.appliedAmount)
    else if c == ReasonCol then k.reason
    else ""
  }

  function SeedMigrationCell(k: TaxKind, c: Column): string
    requires k.SeedMigration?
  {
    if c == KindCol then "SeedMigration"
    else if c == JurisdictionCol then EncJurisdiction(k.jurisdiction)
    else if c == TaxYearCol then IntText(k.taxYear)
    else if c == AppliedAmountCol then IntText(k.appliedAmount)
    else if c == ReasonCol then k.reason
    else ""
  }

  function TaxKindCell(k: TaxKind, c: Column): string {
    match k
    case Allocate(_, _) => AllocateCell(k, c)
    case Move(_, _, _) => MoveCell(k, c)
    case Pay(_, _, _, _, _, _) => PayCell(k, c)
    case AmountOverride(_, _, _) => AmountOverrideCell(k, c)
    case SeedMigration(_, _, _, _) => SeedMigrationCell(k, c)
  }

  /** What each cell of the event's row holds; the date is the kind's own, if it has one. */
  function TaxCell(e: TaxEvent, id: string, c: Column): string {
    if c == SeqCol then IntText(e.seqNo)
    else if c == EventIdCol then id
    else TaxKindCell(e.kind, c)
  }

  function TaxToRow(e: TaxEvent, id: string): Row {
    RowOf(c => TaxCell(e, id, c))
  }

  predicate StampColumn(c: Column) {
    c == SeqCol || c == EventIdCol
  }

  ghost predicate OnlyStamp(row: Row) {
    forall c :: !StampColumn(c) ==> Get(row, c) == ""
  }

  method WriteKey(row: Row, key: AccrualKey) returns (out: Row)
    requires Sparse(row)
    ensures Sparse(out)
    ensures forall c :: Get(out, c) == if KeyColumn(c) then KeyCell(key, c) else Get(row, c)
  {
    out := WriteTwo(row, AccrualSaleIdCol, key.saleId, AccrualLotIdCol, key.lotId);
    out := WriteTwo(out, JurisdictionCol, EncJurisdiction(key.jurisdiction), TaxYearCol, IntText(key.taxYear));
  }

  method WriteAllocate(row: Row, k: TaxKind) returns (out: Row)
    requires k.Allocate? && Sparse(row) && OnlyStamp(row)
    ensures Sparse(out)
    ensures forall c :: Get(out, c) == if StampColumn(c) then Get(row, c) else AllocateCell(k, c)
  {
    out := WriteOne(row, KindCol, "Allocate");
    out := WriteKey(out, k.key);
    out := WriteOne(out, AccountLabelCol, k.accountLabel);
  }

  method WriteMove(row: Row, k: TaxKind) returns (out: Row)
    requires k.Move? && Sparse(row) && OnlyStamp(row)
    ensures Sparse(out)
    ensures forall c :: Get(out, c) == if StampColumn(c) then Get(row, c) else MoveCell(k, c)
  {
    out := WriteOne(row, KindCol, "Move");
    out := WriteKey(out, k.key);
    out := WriteTwo(out, AmountCol, IntText(k.amount), DateCol, IntText(k.date));
  }

  predicate PayTail(c: Column) {
    c == AmountCol || c == DateCol || c == CoversCol
  }

  method WritePayHead(row: Row, k: TaxKind) returns (out: Row)
    requires k.Pay? && Sparse(row) && OnlyStamp(row)
    ensures Sparse(out)
    ensures forall c :: !PayTail(c) ==> Get(out, c) == if StampColumn(c) then Get(row, c) else PayCell(k, c)
  {
    out := WriteTwo(row, KindCol, "Pay", JurisdictionCol, EncJurisdiction(k.jurisdiction));
    out := WriteTwo(out, TaxYearCol, IntText(k.taxYear), PeriodCol, EncQuarter(k.period));
  }

  method WritePayTail(row: Row, k: TaxKind, covers: string) returns (out: Row)
    requires k.Pay? && Sparse(row) && covers == EncCovers(k.covers)
    ensures Sparse(out)
    ensures forall c :: Get(out, c) == if PayTail(c) then PayCell(k, c) else Get(row, c)
  {
    out := WriteTwo(row, AmountCol, IntText(k.amount), DateCol, IntText(k.date));
    out := WriteOne(out, CoversCol, covers);
  }

  method WritePay(row: Row, k: TaxKind) returns (out: Row)
    requires k.Pay? && Sparse(row) && OnlyStamp(row)
    ensures Sparse(out)
    ensures forall c :: Get(out, c) == if StampColumn(c) then Get(row, c) else PayCell(k, c)
  {
    out := WritePayHead(row, k);
    out := WritePayTail(out, k, EncCovers(k.covers));
  }

  method WriteAmountOverride(row: Row, k: TaxKind) returns (out: Row)
    requires k.AmountOverride? && Sparse(row) && OnlyStamp(row)
    ensures Sparse(out)
    ensures forall c :: Get(out, c) == if StampColumn(c) then Get(row, c) else AmountOverrideCell(k, c)
  {
    out := WriteOne(row, KindCol, "AmountOverride");
    out := WriteKey(out, k.key);
    out := WriteTwo(out, AppliedAmountCol, IntText(k.appliedAmount), ReasonCol, k.reason);
  }

  method WriteSeedMigration(row: Row, k: TaxKind) returns (out: Row)
    requires k.SeedMigration? && Sparse(row) && OnlyStamp(row)
    ensures Sparse(out)
    ensures forall c :: Get(out, c) == if StampColumn(c) then Get(row, c) else SeedMigrationCell(k, c)
  {
    out := WriteTwo(row, KindCol, "SeedMigration", JurisdictionCol, EncJurisdiction(k.jurisdiction));
    out := WriteTwo(out, TaxYearCol, IntText(k.taxYear), AppliedAmountCol, IntText(k.appliedAmount));
    out := WriteOne(out, ReasonCol, k.reason);
  }

  method WriteTaxKind(row: Row, k: TaxKind) returns (out: Row)
    requires Sparse(row) && OnlyStamp(row)
    ensures Sparse(out)
    ensures forall c :: Get(out, c) == if StampColumn(c) then Get(row, c) else TaxKindCell(k, c)
  {
    match k {
      case Allocate(_, _) => out := WriteAllocate(row, k);
      case Move(_, _, _) => out := WriteMove(row, k);
      case Pay(_, _, _, _, _, _) => out := WritePay(row, k);
      case AmountOverride(_, _, _) => out := WriteAmountOverride(row, k);
      case SeedMigration(_, _, _, _) => out := WriteSeedMigration(row, k);
    }
  }

  method EncodeTax(e: TaxEvent, id: string) returns (row: Row)
    ensures row == TaxToRow(e, id)
  {
    var base := Set(Set(map[], SeqCol, IntText(e.seqNo)), EventIdCol, id);
    forall c ensures Get(base, c) == if StampColumn(c) then TaxCell(e, id, c) else "" {
      StampCells(e, id, c);
    }
    row := WriteTaxKind(base, e.kind);
    RowOfCells(row, c => TaxCell(e, id, c));
  }

  lemma {:induction false} StampCells(e: TaxEvent, id: string, c: Column)
    ensures
      var base := Set(Set(map[], SeqCol, IntText(e.seqNo)), EventIdCol, id);
      Get(base, c) == if StampColumn(c) then TaxCell(e, id, c) else ""
  {
  }

  // --- Row to tax event. ---

  function DecKeyCells(row: Row): Result<AccrualKey, StoreError> {
    var jurisdiction :- DecJurisdiction(Get(row, JurisdictionCol));
    var year :- DecTaxYear(Get(row, TaxYearCol));
    Success(AccrualKey(Get(row, AccrualSaleIdCol), Get(row, AccrualLotIdCol), jurisdiction, year))
  }

  function DecAllocate(row: Row): Result<TaxKind, StoreError> {
    var key :- DecKeyCells(row);
    var account :- ReqStr(row, AccountLabelCol);
    Success(Allocate(key, account))
  }

  function DecMove(row: Row): Result<TaxKind, StoreError> {
    var key :- DecKeyCells(row);
    var amount :- DecI64(Get(row, AmountCol));
    var date :- DecDate(Get(row, DateCol));
    Success(Move(key, amount, date))
  }

  function DecPay(row: Row): Result<TaxKind, StoreError> {
    var jurisdiction :- DecJurisdiction(Get(row, JurisdictionCol));
    var year :- DecTaxYear(Get(row, TaxYearCol));
    var period :- DecQuarter(Get(row, PeriodCol));
    var amount :- DecI64(Get(row, AmountCol));
    var date :- DecDate(Get(row, DateCol));
    var covers :- DecCovers(Get(row, CoversCol));
    Success(Pay(jurisdiction, year, period, amount, date, covers))
  }

  function DecAmountOverride(row: Row): Result<TaxKind, StoreError> {
    var key :- DecKeyCells(row);
    var applied :- DecI64(Get(row, AppliedAmountCol));
    Success(AmountOverride(key, applied, Get(row, ReasonCol)))
  }

  function DecSeedMigration(row: Row): Result<TaxKind, StoreError> {
    var jurisdiction :- DecJurisdiction(Get(row, JurisdictionCol));
    var year :- DecTaxYear(Get(row, TaxYearCol));
    var applied :- DecI64(Get(row, AppliedAmountCol));
    Success(SeedMigration(jurisdiction, year, applied, Get(row, ReasonCol)))
  }

  function DecTaxKind(row: Row): Result<TaxKind, StoreError> {
    var k := Get(row, KindCol);
    if k == "Allocate" then DecAllocate(row)
    else if k == "Move" then DecMove(row)
    else if k == "Pay" then DecPay(row)
    else if k == "AmountOverride" then DecAmountOverride(row)
    else if k == "SeedMigration" then DecSeedMigration(row)
    else if k == "" then Failure(MissingField)
    else Failure(UnknownKind)
  }

  function RowToTax(row: Row): Result<(TaxEvent, string), StoreError> {
    var seqNo :- DecSeq(Get(row, SeqCol));
    var id :- ReqStr(row, EventIdCol);
    var kind :- DecTaxKind(row);
    Success((TaxEvent(seqNo, kind), id))
  }

  // --- Which tax events survive the round trip. ---

  predicate WellTypedTax(e: TaxEvent) {
    && e.seqNo < 0x1_0000_0000_0000_0000
    && match e.kind
       case Allocate(key, _) => GoodKey(key)
       case Move(key, amount, date) => GoodKey(key) && FitsI64(amount) && FitsI32(date)
       case Pay(_, year, _, amount, date, covers) =>
         FitsI32(year) && FitsI64(amount) && FitsI32(date) && forall i :: 0 <= i < |covers| ==> GoodKey(covers[i])
       case AmountOverride(key, applied, _) => GoodKey(key) && FitsI64(applied)
       case SeedMigration(_, year, applied, _) => FitsI32(year) && FitsI64(applied)
  }

  predicate StorableTaxKind(k: TaxKind) {
    k.Allocate? ==> k.accountLabel != ""
  }

  ghost predicate HasTaxCells(row: Row, k: TaxKind) {
    forall c :: !StampColumn(c) ==> Get(row, c) == TaxKindCell(k, c)
  }

  ghost predicate KeyWritten(row: Row, key: AccrualKey) {
    forall c :: KeyColumn(c) ==> Get(row, c) == KeyCell(key, c)
  }

  lemma KeyCellsRoundTrip(row: Row, key: AccrualKey)
    requires GoodKey(key) && KeyWritten(row, key)
    ensures DecKeyCells(row) == Success(key)
  {
    assert Get(row, AccrualSaleIdCol) == key.saleId && Get(row, AccrualLotIdCol) == key.lotId;
    assert Get(row, JurisdictionCol) == EncJurisdiction(key.jurisdiction)
      && Get(row, TaxYearCol) == IntText(key.taxYear);
    JurisdictionRoundTrip(key.jurisdiction);
    TaxYearRoundTrip(key.taxYear);
  }

  lemma AllocateCells(row: Row, k: TaxKind)
    requires k.Allocate? && HasTaxCells(row, k)
    ensures Get(row, KindCol) == "Allocate"
    ensures KeyWritten(row, k.key)
    ensures Get(row, AccountLabelCol) == k.accountLabel
  {
    assert forall c :: !StampColumn(c) ==> Get(row, c) == AllocateCell(k, c);
  }

  lemma DecAllocateBack(row: Row, k: TaxKind)
    requires k.Allocate? && GoodKey(k.key)
    requires KeyWritten(row, k.key)
    requires Get(row, AccountLabelCol) == k.accountLabel
    ensures DecAllocate(row) == Success(k) <==> StorableTaxKind(k)
  {
    KeyCellsRoundTrip(row, k.key);
  }

  lemma ChooseAllocate(row: Row)
    requires Get(row, KindCol) == "Allocate"
    ensures DecTaxKind(row) == DecAllocate(row)
  {
  }

  lemma MoveCells(row: Row, k: TaxKind)
    requires k.Move? && HasTaxCells(row, k)
    ensures Get(row, KindCol) == "Move"
    ensures KeyWritten(row, k.key)
    ensures Get(row, AmountCol) == IntText(k.amount)
    ensures Get(row, DateCol) == IntText(k.date)
  {
    assert forall c :: !StampColumn(c) ==> Get(row, c) == MoveCell(k, c);
  }

  lemma DecMoveBack(row: Row, k: TaxKind)
    requires k.Move? && GoodKey(k.key) && FitsI64(k.amount) && FitsI32(k.date)
    requires KeyWritten(row, k.key)
    requires Get(row, AmountCol) == IntText(k.amount)
    requires Get(row, DateCol) == IntText(k.date)
    ensures DecMove(row) == Success(k) <==> StorableTaxKind(k)
  {
    KeyCellsRoundTrip(row, k.key);
    DecIntText(k.amount);
    DecIntText(k.date);
  }

  lemma ChooseMove(row: Row)
    requires Get(row, KindCol) == "Move"
    ensures DecTaxKind(row) == DecMove(row)
  {
  }

  lemma PayCells(row: Row, k: TaxKind)
    requires k.Pay? && HasTaxCells(row, k)
    ensures Get(row, KindCol) == "Pay"
    ensures Get(row, JurisdictionCol) == EncJurisdiction(k.jurisdiction)
    ensures Get(row, TaxYearCol) == IntText(k.taxYear)
    ensures Get(row, PeriodCol) == EncQuarter(k.period)
    ensures Get(row, AmountCol) == IntText(k.amount)
    ensures Get(row, DateCol) == IntText(k.date)
    ensures Get(row, CoversCol) == EncCovers(k.covers)
  {
    PayHeadColumns(k);
    PayTailColumns(k);
  }

  lemma PayHeadColumns(k: TaxKind)
    requires k.Pay?
    ensures TaxKindCell(k, KindCol) == "Pay" && TaxKindCell(k, JurisdictionCol) == EncJurisdiction(k.jurisdiction)
    ensures TaxKindCell(k, TaxYearCol) == IntText(k.taxYear) && TaxKindCell(k, PeriodCol) == EncQuarter(k.period)
  {
  }

  lemma PayTailColumns(k: TaxKind)
    requires k.Pay?
    ensures TaxKindCell(k, AmountCol) == IntText(k.amount) && TaxKindCell(k, DateCol) == IntText(k.date)
    ensures TaxKindCell(k, CoversCol) == EncCovers(k.covers)
  {
  }

  lemma DecPayBack(row: Row, k: TaxKind)
    requires k.Pay? && FitsI32(k.taxYear) && FitsI64(k.amount) && FitsI32(k.date) && forall i :: 0 <= i < |k.covers| ==>
      GoodKey(k.covers[i])
    requires Get(row, JurisdictionCol) == EncJurisdiction(k.jurisdiction)
    requires Get(row, TaxYearCol) == IntText(k.taxYear)
    requires Get(row, PeriodCol) == EncQuarter(k.period)
    requires Get(row, AmountCol) == IntText(k.amount)
    requires Get(row, DateCol) == IntText(k.date)
    requires Get(row, CoversCol) == EncCovers(k.covers)
    ensures DecPay(row) == Success(k) <==> StorableTaxKind(k)
  {
    JurisdictionRoundTrip(k.jurisdiction);
    TaxYearRoundTrip(k.taxYear);
    QuarterRoundTrip(k.period);
    DecIntText(k.amount);
    DecIntText(k.date);
    CoversRoundTrip(k.covers);
  }

  lemma ChoosePay(row: Row)
    requires Get(row, KindCol) == "Pay"
    ensures DecTaxKind(row) == DecPay(row)
  {
  }

  lemma AmountOverrideCells(row: Row, k: TaxKind)
    requires k.AmountOverride? && HasTaxCells(row, k)
    ensures Get(row, KindCol) == "AmountOverride"
    ensures KeyWritten(row, k.key)
    ensures Get(row, AppliedAmountCol) == IntText(k.appliedAmount)
    ensures Get(row, ReasonCol) == k.reason
  {
    AmountOverrideColumns(k);
    assert KeyWritten(row, k.key) by { KeyIsWritten(row, k, k.key); }
  }

  lemma AmountOverrideColumns(k: TaxKind)
    requires k.AmountOverride?
    ensures TaxKindCell(k, KindCol) == "AmountOverride"
    ensures TaxKindCell(k, AppliedAmountCol) == IntText(k.appliedAmount) && TaxKindCell(k, ReasonCol) == k.reason
  {
  }

  lemma KeyIsWritten(row: Row, k: TaxKind, key: AccrualKey)
    requires k.AmountOverride? && key == k.key && HasTaxCells(row, k)
    ensures KeyWritten(row, key)
  {
    forall c | KeyColumn(c) ensures Get(row, c) == KeyCell(key, c) {
      assert !StampColumn(c);
    }
  }

  lemma DecAmountOverrideBack(row: Row, k: TaxKind)
    requires k.AmountOverride? && GoodKey(k.key) && FitsI64(k.appliedAmount)
    requires KeyWritten(row, k.key)
    requires Get(row, AppliedAmountCol) == IntText(k.appliedAmount)
    requires Get(row, ReasonCol) == k.reason
    ensures DecAmountOverride(row) == Success(k) <==> StorableTaxKind(k)
  {
    KeyCellsRoundTrip(row, k.key);
    DecIntText(k.appliedAmount);
  }

  lemma ChooseAmountOverride(row: Row)
    requires Get(row, KindCol) == "AmountOverride"
    ensures DecTaxKind(row) == DecAmountOverride(row)
  {
  }

  lemma SeedMigrationCells(row: Row, k: TaxKind)
    requires k.SeedMigration? && HasTaxCells(row, k)
    ensures Get(row, KindCol) == "SeedMigration"
    ensures Get(row, JurisdictionCol) == EncJurisdiction(k.jurisdiction)
    ensures Get(row, TaxYearCol) == IntText(k.taxYear)
    ensures Get(row, AppliedAmountCol) == IntText(k.appliedAmount)
    ensures Get(row, ReasonCol) == k.reason
  {
    SeedMigrationColumns(k);
  }

  lemma SeedMigrationColumns(k: TaxKind)
    requires k.SeedMigration?
    ensures TaxKindCell(k, KindCol) == "SeedMigration"
    ensures TaxKindCell(k, JurisdictionCol) == EncJurisdiction(k.jurisdiction)
    ensures TaxKindCell(k, TaxYearCol) == IntText(k.taxYear)
    ensures TaxKindCell(k, AppliedAmountCol) == IntText(k.appliedAmount)
    ensures TaxKindCell(k, ReasonCol) == k.reason
  {
  }

  lemma DecSeedMigrationBack(row: Row, k: TaxKind)
    requires k.SeedMigration? && FitsI32(k.taxYear) && FitsI64(k.appliedAmount)
    requires Get(row, JurisdictionCol) == EncJurisdiction(k.jurisdiction)
    requires Get(row, TaxYearCol) == IntText(k.taxYear)
    requires Get(row, AppliedAmountCol) == IntText(k.appliedAmount)
    requires Get(row, ReasonCol) == k.reason
    ensures DecSeedMigration(row) == Success(k) <==> StorableTaxKind(k)
  {
    JurisdictionRoundTrip(k.jurisdiction);
    TaxYearRoundTrip(k.taxYear);
    DecIntText(k.appliedAmount);
  }

  lemma ChooseSeedMigration(row: Row)
    requires Get(row, KindCol) == "SeedMigration"
    ensures DecTaxKind(row) == DecSeedMigration(row)
  {
  }

  lemma TaxKindRoundTrip(row: Row, e: TaxEvent)
    requires HasTaxCells(row, e.kind) && WellTypedTax(e)
    ensures DecTaxKind(row) == Success(e.kind) <==> StorableTaxKind(e.kind)
  {
    match e.kind {
      case Allocate(_, _) => AllocateCells(row, e.kind); DecAllocateBack(row, e.kind); ChooseAllocate(row);
      case Move(_, _, _) => MoveCells(row, e.kind); DecMoveBack(row, e.kind); ChooseMove(row);
      case Pay(_, _, _, _, _, _) => PayCells(row, e.kind); DecPayBack(row, e.kind); ChoosePay(row);
      case AmountOverride(_, _, _) =>
        AmountOverrideCells(row, e.kind);
        DecAmountOverrideBack(row, e.kind);
        ChooseAmountOverride(row);
      case SeedMigration(_, _, _, _) =>
        SeedMigrationCells(row, e.kind);
        DecSeedMigrationBack(row, e.kind);
        ChooseSeedMigration(row);
    }
  }

  lemma TaxCells(e: TaxEvent, id: string)
    ensures Get(TaxToRow(e, id), SeqCol) == IntText(e.seqNo)
    ensures Get(TaxToRow(e, id), EventIdCol) == id
    ensures HasTaxCells(TaxToRow(e, id), e.kind)
  {
    forall c ensures Get(TaxToRow(e, id), c) == TaxCell(e, id, c) {}
  }

  lemma DecodeTaxParts(row: Row, e: TaxEvent, id: string)
    requires e.seqNo < 0x1_0000_0000_0000_0000
    requires Get(row, SeqCol) == IntText(e.seqNo) && Get(row, EventIdCol) == id
    ensures RowToTax(row) == Success((e, id)) <==> FitsI64(e.seqNo) && id != "" && DecTaxKind(row) == Success(e.kind)
  {
    DecIntText(e.seqNo);
    var kind := DecTaxKind(row);
  }

  /** A tax event and its id read back from their row as themselves exactly when the id is
      not empty, the sequence number is below 2^63, and an allocation names an account. */
  lemma {:induction false} TaxRowRoundTrip(e: TaxEvent, id: string)
    requires WellTypedTax(e)
    ensures RowToTax(TaxToRow(e, id)) == Success((e, id)) <==> id != "" && FitsI64(e.seqNo) && StorableTaxKind(e.kind)
  {
    TaxCells(e, id);
    TaxKindRoundTrip(TaxToRow(e, id), e);
    DecodeTaxParts(TaxToRow(e, id), e, id);
  }

  predicate TaxColumn(c: Column) {
    StampColumn(c) || c == DateCol || c == KindCol || !LedgerColumn(c)
  }

  lemma TaxHeaderHas(c: Column)
    requires TaxColumn(c)
    ensures c in TAX_HEADER
  {
    var i := match c
      case SeqCol => 0 case EventIdCol => 1 case DateCol => 2 case KindCol => 3 case AccrualSaleIdCol => 4
      case AccrualLotIdCol => 5 case JurisdictionCol => 6 case TaxYearCol => 7 case AccountLabelCol => 8
      case AmountCol => 9
      case AppliedAmountCol => 10 case PeriodCol => 11 case CoversCol => 12 case _ => 13;
    assert TAX_HEADER[i] == c;
  }

  lemma NonEmptyIsTax(k: TaxKind, c: Column)
    ensures TaxKindCell(k, c) != "" ==> TaxColumn(c)
  {
  }

  lemma TaxRowShape(e: TaxEvent, id: string)
    ensures Sparse(TaxToRow(e, id))
    ensures forall c :: c in TaxToRow(e, id) ==> c in TAX_HEADER
  {
    forall c | TaxCell(e, id, c) != "" ensures c in TAX_HEADER {
      NonEmptyIsTax(e.kind, c);
      TaxHeaderHas(c);
    }
  }

  /** The same for a tax event and its id. */
  method TaxThroughSheet(e: TaxEvent, id: string, kept: nat) returns (back: Result<(TaxEvent, string), StoreError>)
    requires WellTypedTax(e)
    requires kept <= |TAX_HEADER| && forall i :: kept <= i < |TAX_HEADER| ==>
      ToCells(TAX_HEADER, TaxToRow(e, id))[i] == ""
    ensures back == Success((e, id)) <==> id != "" && FitsI64(e.seqNo) && StorableTaxKind(e.kind)
  {
    var row := EncodeTax(e, id);
    HeadersHaveNoRepeats();
    TaxRowShape(e, id);
    var again := FromCells(TAX_HEADER, ToCells(TAX_HEADER, row)[..kept]);
    CellsDetermineRow(TAX_HEADER, row, again, kept);
    TaxRowRoundTrip(e, id);
    back := RowToTax(again);
  }
}
