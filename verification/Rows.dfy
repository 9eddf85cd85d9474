/** The workbook row: sparse cells by column, and the ledger event it stands for. */
module Rows {
  import opened Basics
  import opened Text
  import opened Ledger
  import opened Escape

  /** The columns of both tabs; every name is a different header string. */
  datatype Column =
    | SeqCol | EventIdCol | DateCol | KindCol
    | LotIdCol | SaleIdCol | SymbolCol | QtyCol | UnitPriceCol | FeesCol | FmvCol | LotRefsCol
    | AccruesToStateCol | PlatformCol | TrackingCodeCol | RatioNumCol | RatioDenCol | TargetEventIdCol
    | AccrualSaleIdCol | AccrualLotIdCol | JurisdictionCol | TaxYearCol | AccountLabelCol | AmountCol
    | AppliedAmountCol | PeriodCol | CoversCol | ReasonCol

  const LEDGER_HEADER: seq<Column> :=
    [SeqCol, EventIdCol, DateCol, KindCol, LotIdCol, SaleIdCol, SymbolCol, QtyCol, UnitPriceCol, FeesCol, FmvCol,
     LotRefsCol, AccruesToStateCol, PlatformCol, TrackingCodeCol, RatioNumCol, RatioDenCol, TargetEventIdCol]

  const TAX_HEADER: seq<Column> :=
    [SeqCol, EventIdCol, DateCol, KindCol, AccrualSaleIdCol, AccrualLotIdCol, JurisdictionCol, TaxYearCol,
     AccountLabelCol, AmountCol, AppliedAmountCol, PeriodCol, CoversCol, ReasonCol]

  type Row = map<Column, string>

  function Get(row: Row, col: Column): string {
    if col in row then row[col] else ""
  }

  /** Writing an empty value clears the cell: a grid cannot tell empty from absent. */
  function Set(row: Row, col: Column, val: string): Row {
    if val == "" then row - {col} else row[col := val]
  }

  /** No cell holds the empty string. */
  ghost predicate Sparse(row: Row) {
    forall c :: c in row ==> row[c] != ""
  }

  /** The sparse row with the given cell contents. */
  function RowOf(cell: Column -> string): Row {
    map c: Column | cell(c) != "" :: cell(c)
  }

  lemma RowOfCells(row: Row, cell: Column -> string)
    requires Sparse(row) && forall c :: Get(row, c) == cell(c)
    ensures row == RowOf(cell)
  {
    assert forall c :: c in row <==> Get(row, c) != "";
    assert row.Keys == RowOf(cell).Keys;
  }

  // --- Cells in header order. ---

  function ToCells(header: seq<Column>, row: Row): (r: seq<string>)
    ensures |r| == |header| && forall i :: 0 <= i < |header| ==> r[i] == Get(row, header[i])
  {
    seq(|header|, i requires 0 <= i < |header| => Get(row, header[i]))
  }

  /** Rows as the sheet gives them back; cells past the end of a short row are empty. */
  method FromCells(header: seq<Column>, cells: seq<string>) returns (row: Row)
    requires forall i, j :: 0 <= i < j < |header| ==> header[i] != header[j]
    ensures Sparse(row)
    ensures forall c :: c in row ==> c in header
    ensures forall i :: 0 <= i < |header| ==> Get(row, header[i]) == if i < |cells| then cells[i] else ""
  {
    row := map[];
    var i := 0;
    while i < |header| && i < |cells|
      invariant 0 <= i <= |header| && i <= |cells|
      invariant Sparse(row)
      invariant forall c :: c in row ==> c in header
      invariant forall j :: 0 <= j < |header| ==> Get(row, header[j]) == if j < i then cells[j] else ""
    {
      if cells[i] != "" {
        row := Set(row, header[i], cells[i]);
      }
      i := i + 1;
    }
  }

  /** A sparse row within the header is determined by its cells in header order, so writing
      it out and reading it back gives the same row, whether or not the sheet drops
      trailing empty cells. */
  lemma {:induction false} CellsDetermineRow(header: seq<Column>, row: Row, back: Row, kept: nat)
    requires Sparse(row) && Sparse(back)
    requires forall c :: c in row ==> c in header
    requires forall c :: c in back ==> c in header
    requires kept <= |header| && forall i :: kept <= i < |header| ==> ToCells(header, row)[i] == ""
    requires forall i :: 0 <= i < |header| ==> Get(back, header[i]) == if i < kept then ToCells(header, row)[i] else ""
    ensures back == row
  {
    forall c ensures Get(back, c) == Get(row, c) {
      if c in header {
        var i :| 0 <= i < |header| && header[i] == c;
        assert ToCells(header, row)[i] == Get(row, c);
      }
    }
    RowOfCells(row, c => Get(row, c));
    RowOfCells(back, c => Get(row, c));
  }

  lemma HeadersHaveNoRepeats()
    ensures forall i, j :: 0 <= i < j < |LEDGER_HEADER| ==> LEDGER_HEADER[i] != LEDGER_HEADER[j]
    ensures forall i, j :: 0 <= i < j < |TAX_HEADER| ==> TAX_HEADER[i] != TAX_HEADER[j]
  {
  }

  // --- Ledger event to row. ---

  function OptText(o: Option<string>): string {
    match o case None => "" case Some(s) => s
  }

  function BuyCell(k: EventKind, c: Column): string
    requires k.Buy?
  {
    if c == KindCol then "Buy"
    else if c == LotIdCol then k.lotId
    else if c == SymbolCol then k.symbol
    else if c == QtyCol then IntText(k.qty)
    else if c == UnitPriceCol then IntText(k.unitPrice)
    else if c == FeesCol then IntText(k.fees)
    else if c == PlatformCol then k.platform
    else if c == TrackingCodeCol then OptText(k.trackingCode)
    else ""
  }

  function VestCell(k: EventKind, c: Column): string
    requires k.Vest?
  {
    if c == KindCol then "Vest"
    else if c == LotIdCol then k.lotId
    else if c == SymbolCol then k.symbol
    else if c == QtyCol then IntText(k.qty)
    else if c == FmvCol then IntText(k.fmv)
    else if c == PlatformCol then k.platform
    else if c == TrackingCodeCol then OptText(k.trackingCode)
    else ""
  }

  function SellCell(k: EventKind, c: Column): string
    requires k.Sell?
  {
    if c == KindCol then "Sell"
    else if c == SaleIdCol then k.saleId
    else if c == SymbolCol then k.symbol
    else if c == QtyCol then IntText(k.qty)
    else if c == UnitPriceCol then IntText(k.unitPrice)
    else if c == FeesCol then IntText(k.fees)
    else if c == LotRefsCol then EncLotRefs(k.lotRefs)
    else if c == AccruesToStateCol then OptText(k.accruesToState)
    else if c == PlatformCol then k.platform
    else if c == TrackingCodeCol then OptText(k.trackingCode)
    else ""
  }

  function SplitCell(k: EventKind, c: Column): string
    requires k.Split?
  {
    if c == KindCol then "Split"
    else if c == SymbolCol then k.symbol
    else if c == RatioNumCol then IntText(k.num)
    else if c == RatioDenCol then IntText(k.den)
    else ""
  }

  function ReversalCell(k: EventKind, c: Column): string
    requires k.Reversal?
  {
    if c == KindCol then "Reversal"
    else if c == TargetEventIdCol then k.target
    else ""
  }

  function KindCell(k: EventKind, c: Column): string {
    match k
    case Buy(_, _, _, _, _, _, _) => BuyCell(k, c)
    case Vest(_, _, _, _, _, _) => VestCell(k, c)
    case Sell(_, _, _, _, _, _, _, _, _) => SellCell(k, c)
    case Split(_, _, _) => SplitCell(k, c)
    case Reversal(_) => ReversalCell(k, c)
  }

  /** What each cell of an event's row holds. */
  function LedgerCell(e: Event, c: Column): string {
    if c == SeqCol then IntText(e.seqNo)
    else if c == EventIdCol then e.id
    else if c == DateCol then IntText(e.date)
    else KindCell(e.kind, c)
  }

  function LedgerToRow(e: Event): Row {
    RowOf(c => LedgerCell(e, c))
  }

  lemma LedgerRowCell(e: Event, c: Column)
    ensures Get(LedgerToRow(e), c) == LedgerCell(e, c)
  {
  }

  lemma SetCell(row: Row, col: Column, val: string, c: Column)
    requires Sparse(row)
    ensures Sparse(Set(row, col, val))
    ensures Get(Set(row, col, val), c) == if c == col then val else Get(row, c)
  {
  }

  predicate UniversalColumn(c: Column) {
    c == SeqCol || c == EventIdCol || c == DateCol
  }

  ghost predicate OnlyUniversal(row: Row) {
    forall c :: !UniversalColumn(c) ==> Get(row, c) == ""
  }

  method WriteOne(row: Row, a: Column, x: string) returns (out: Row)
    requires Sparse(row)
    ensures Sparse(out)
    ensures forall c :: Get(out, c) == if c == a then x else Get(row, c)
  {
    out := Set(row, a, x);
  }

  method WriteTwo(row: Row, a: Column, x: string, b: Column, y: string) returns (out: Row)
    requires Sparse(row) && a != b
    ensures Sparse(out)
    ensures forall c :: Get(out, c) == if c == a then x else if c == b then y else Get(row, c)
  {
    out := Set(Set(row, a, x), b, y);
    forall c ensures Get(out, c) == if c == a then x else if c == b then y else Get(row, c) {
      SetCell(row, a, x, c);
      SetCell(Set(row, a, x), b, y, c);
    }
  }

  method WriteThree(row: Row, a: Column, x: string, b: Column, y: string, p: Column, u: string) returns (out: Row)
    requires Sparse(row) && a != b && p != a && p != b
    ensures Sparse(out)
    ensures forall c :: Get(out, c) == if c == a then x else if c == b then y else if c == p then u else Get(row, c)
  {
    out := WriteTwo(row, a, x, b, y);
    out := WriteOne(out, p, u);
  }

  method WriteFour(row: Row, a: Column, x: string, b: Column, y: string, p: Column, u: string, q: Column, v: string)
    returns (out: Row)
    requires Sparse(row) && a != b && p != q && p != a && p != b && q != a && q != b
    ensures Sparse(out)
    ensures forall c ::
      Get(out, c) == if c == a then x else if c == b then y else if c == p then u else if c == q then v else Get(row, c)
  {
    out := WriteTwo(row, a, x, b, y);
    out := WriteTwo(out, p, u, q, v);
  }

  method WriteBuy(row: Row, k: EventKind) returns (out: Row)
    requires k.Buy? && Sparse(row) && OnlyUniversal(row)
    ensures Sparse(out)
    ensures forall c :: Get(out, c) == if UniversalColumn(c) then Get(row, c) else BuyCell(k, c)
  {
    var opening := WriteFour(row, KindCol, "Buy", LotIdCol, k.lotId, SymbolCol, k.symbol, QtyCol, IntText(k.qty));
    out := WriteFour(opening, UnitPriceCol, IntText(k.unitPrice), FeesCol, IntText(k.fees),
                     PlatformCol, k.platform, TrackingCodeCol, OptText(k.trackingCode));
    forall c ensures Get(out, c) == if UniversalColumn(c) then Get(row, c) else BuyCell(k, c) {
      BuyFilled(k, c, Get(row, c), Get(opening, c), Get(out, c));
    }
  }

  /** One cell of a buy's row: before, after the first four are set, and after the rest. */
  lemma BuyFilled(k: EventKind, c: Column, before: string, opening: string, after: string)
    requires k.Buy? && (!UniversalColumn(c) ==> before == "")
    requires opening ==
      if c == KindCol then "Buy" else if c == LotIdCol then k.lotId else if c == SymbolCol then k.symbol
      else if c == QtyCol then IntText(k.qty) else before
    requires after ==
      if c == UnitPriceCol then IntText(k.unitPrice) else if c == FeesCol then IntText(k.fees)
      else if c == PlatformCol then k.platform else if c == TrackingCodeCol then OptText(k.trackingCode) else opening
    ensures after == if UniversalColumn(c) then before else BuyCell(k, c)
  {
  }

  method WriteVest(row: Row, k: EventKind) returns (out: Row)
    requires k.Vest? && Sparse(row) && OnlyUniversal(row)
    ensures Sparse(out)
    ensures forall c :: Get(out, c) == if UniversalColumn(c) then Get(row, c) else VestCell(k, c)
  {
    var opening := WriteFour(row, KindCol, "Vest", LotIdCol, k.lotId, SymbolCol, k.symbol, QtyCol, IntText(k.qty));
    out := WriteThree(opening, FmvCol, IntText(k.fmv), PlatformCol, k.platform, TrackingCodeCol,
                      OptText(k.trackingCode));
    forall c ensures Get(out, c) == if UniversalColumn(c) then Get(row, c) else VestCell(k, c) {
      VestFilled(k, c, Get(row, c), Get(opening, c), Get(out, c));
    }
  }

  lemma VestFilled(k: EventKind, c: Column, before: string, opening: string, after: string)
    requires k.Vest? && (!UniversalColumn(c) ==> before == "")
    requires opening ==
      if c == KindCol then "Vest" else if c == LotIdCol then k.lotId else if c == SymbolCol then k.symbol
      else if c == QtyCol then IntText(k.qty) else before
    requires after ==
      if c == FmvCol then IntText(k.fmv) else if c == PlatformCol then k.platform
      else if c == TrackingCodeCol then OptText(k.trackingCode) else opening
    ensures after == if UniversalColumn(c) then before else VestCell(k, c)
  {
  }

  predicate SellTail(c: Column) {
    c == LotRefsCol || c == AccruesToStateCol || c == PlatformCol || c == TrackingCodeCol
  }

  method WriteSellHead(row: Row, k: EventKind) returns (out: Row)
    requires k.Sell? && Sparse(row) && OnlyUniversal(row)
    ensures Sparse(out)
    ensures forall c :: !SellTail(c) ==> Get(out, c) == if UniversalColumn(c) then Get(row, c) else SellCell(k, c)
  {
    out := WriteTwo(row, KindCol, "Sell", SaleIdCol, k.saleId);
    out := WriteTwo(out, SymbolCol, k.symbol, QtyCol, IntText(k.qty));
    out := WriteTwo(out, UnitPriceCol, IntText(k.unitPrice), FeesCol, IntText(k.fees));
  }

  method WriteSellTail(row: Row, k: EventKind, refs: string) returns (out: Row)
    requires k.Sell? && Sparse(row) && refs == EncLotRefs(k.lotRefs)
    ensures Sparse(out)
    ensures forall c :: Get(out, c) == if SellTail(c) then SellCell(k, c) else Get(row, c)
  {
    out := WriteTwo(row, LotRefsCol, refs, AccruesToStateCol, OptText(k.accruesToState));
    out := WriteTwo(out, PlatformCol, k.platform, TrackingCodeCol, OptText(k.trackingCode));
  }

  method WriteSell(row: Row, k: EventKind) returns (out: Row)
    requires k.Sell? && Sparse(row) && OnlyUniversal(row)
    ensures Sparse(out)
    ensures forall c :: Get(out, c) == if UniversalColumn(c) then Get(row, c) else SellCell(k, c)
  {
    out := WriteSellHead(row, k);
    out := WriteSellTail(out, k, EncLotRefs(k.lotRefs));
  }

  method WriteSplit(row: Row, k: EventKind) returns (out: Row)
    requires k.Split? && Sparse(row) && OnlyUniversal(row)
    ensures Sparse(out)
    ensures forall c :: Get(out, c) == if UniversalColumn(c) then Get(row, c) else SplitCell(k, c)
  {
    out := WriteTwo(row, KindCol, "Split", SymbolCol, k.symbol);
    out := WriteTwo(out, RatioNumCol, IntText(k.num), RatioDenCol, IntText(k.den));
  }

  method WriteReversal(row: Row, k: EventKind) returns (out: Row)
    requires k.Reversal? && Sparse(row) && OnlyUniversal(row)
    ensures Sparse(out)
    ensures forall c :: Get(out, c) == if UniversalColumn(c) then Get(row, c) else ReversalCell(k, c)
  {
    out := WriteTwo(row, KindCol, "Reversal", TargetEventIdCol, k.target);
  }

  /** The row an event is written as, filled cell by cell; an absent optional value writes
      nothing. */
  method EncodeLedger(e: Event) returns (row: Row)
    ensures row == LedgerToRow(e)
  {
    var base := Set(Set(Set(map[], SeqCol, IntText(e.seqNo)), EventIdCol, e.id), DateCol, IntText(e.date));
    match e.kind {
      case Buy(_, _, _, _, _, _, _) => row := WriteBuy(base, e.kind);
      case Vest(_, _, _, _, _, _) => row := WriteVest(base, e.kind);
      case Sell(_, _, _, _, _, _, _, _, _) => row := WriteSell(base, e.kind);
      case Split(_, _, _) => row := WriteSplit(base, e.kind);
      case Reversal(_) => row := WriteReversal(base, e.kind);
    }
    forall c ensures Get(row, c) == LedgerCell(e, c) {
      BaseCells(e, c);
      NoUniversalCells(e.kind, c);
    }
    RowOfCells(row, c => LedgerCell(e, c));
  }

  lemma {:induction false} BaseCells(e: Event, c: Column)
    ensures
      var base := Set(Set(Set(map[], SeqCol, IntText(e.seqNo)), EventIdCol, e.id), DateCol, IntText(e.date));
      Get(base, c) == if UniversalColumn(c) then LedgerCell(e, c) else ""
  {
  }

  lemma NoUniversalCells(k: EventKind, c: Column)
    ensures UniversalColumn(c) ==> KindCell(k, c) == ""
  {
  }

  // --- Row to ledger event. ---

  function DecSeq(s: string): Result<nat, StoreError> {
    var v :- DecI64(s);
    if v < 0 then Failure(MissingField) else Success(v)
  }

  function DecDate(s: string): Result<int, StoreError> {
    var v :- DecI64(s);
    Success(AsI32(v))
  }

  function ReqStr(row: Row, col: Column): Result<string, StoreError> {
    if Get(row, col) == "" then Failure(MissingField) else Success(Get(row, col))
  }

  function DecOpt(s: string): Option<string> {
    if s == "" then None else Some(s)
  }

  function DecBuy(row: Row): Result<EventKind, StoreError> {
    var lotId :- ReqStr(row, LotIdCol);
    var symbol :- ReqStr(row, SymbolCol);
    var qty :- DecI64(Get(row, QtyCol));
    var unitPrice :- DecI64(Get(row, UnitPriceCol));
    var fees :- DecI64(Get(row, FeesCol));
    var platform :- ReqStr(row, PlatformCol);
    Success(Buy(lotId, symbol, qty, unitPrice, fees, platform, DecOpt(Get(row, TrackingCodeCol))))
  }

  function DecVest(row: Row): Result<EventKind, StoreError> {
    var lotId :- ReqStr(row, LotIdCol);
    var symbol :- ReqStr(row, SymbolCol);
    var qty :- DecI64(Get(row, QtyCol));
    var fmv :- DecI64(Get(row, FmvCol));
    var platform :- ReqStr(row, PlatformCol);
    Success(Vest(lotId, symbol, qty, fmv, platform, DecOpt(Get(row, TrackingCodeCol))))
  }

  function DecSell(row: Row): Result<EventKind, StoreError> {
    var saleId :- ReqStr(row, SaleIdCol);
    var symbol :- ReqStr(row, SymbolCol);
    var qty :- DecI64(Get(row, QtyCol));
    var unitPrice :- DecI64(Get(row, UnitPriceCol));
    var fees :- DecI64(Get(row, FeesCol));
    var lotRefs :- DecLotRefs(Get(row, LotRefsCol));
    var platform :- ReqStr(row, PlatformCol);
    Success(Sell(saleId, symbol, qty, unitPrice, fees, lotRefs, DecOpt(Get(row, AccruesToStateCol)), platform,
                 DecOpt(Get(row, TrackingCodeCol))))
  }

  function DecSplit(row: Row): Result<EventKind, StoreError> {
    var symbol :- ReqStr(row, SymbolCol);
    var num :- DecI64(Get(row, RatioNumCol));
    var den :- DecI64(Get(row, RatioDenCol));
    Success(Split(symbol, num, den))
  }

  function DecReversal(row: Row): Result<EventKind, StoreError> {
    var target :- ReqStr(row, TargetEventIdCol);
    Success(Reversal(target))
  }

  function DecKind(row: Row): Result<EventKind, StoreError> {
    var k := Get(row, KindCol);
    if k == "Buy" then DecBuy(row)
    else if k == "Vest" then DecVest(row)
    else if k == "Sell" then DecSell(row)
    else if k == "Split" then DecSplit(row)
    else if k == "Reversal" then DecReversal(row)
    else if k == "" then Failure(MissingField)
    else Failure(UnknownKind)
  }

  function RowToLedger(row: Row): Result<Event, StoreError> {
    var seqNo :- DecSeq(Get(row, SeqCol));
    var id :- ReqStr(row, EventIdCol);
    var date :- DecDate(Get(row, DateCol));
    var kind :- DecKind(row);
    Success(Event(id, seqNo, date, kind))
  }

  // --- Which events survive the round trip. ---

  /** The integer widths and text encoding the source's types already give. */
  predicate WellTyped(e: Event) {
    && e.seqNo < 0x1_0000_0000_0000_0000 && FitsI32(e.date)
    && match e.kind
       case Buy(_, _, qty, unitPrice, fees, _, _) => FitsI64(qty) && FitsI64(unitPrice) && FitsI64(fees)
       case Vest(_, _, qty, fmv, _, _) => FitsI64(qty) && FitsI64(fmv)
       case Sell(_, _, qty, unitPrice, fees, lotRefs, _, _, _) =>
         FitsI64(qty) && FitsI64(unitPrice) && FitsI64(fees) && forall i :: 0 <= i < |lotRefs| ==> GoodRef(lotRefs[i])
       case Split(_, num, den) => FitsI64(num) && FitsI64(den)
       case Reversal(_) => true
  }

  predicate StorableKind(kind: EventKind) {
    match kind
    case Buy(lotId, symbol, _, _, _, platform, trackingCode) =>
      lotId != "" && symbol != "" && platform != "" && trackingCode != Some("")
    case Vest(lotId, symbol, _, _, platform, trackingCode) =>
      lotId != "" && symbol != "" && platform != "" && trackingCode != Some("")
    case Sell(saleId, symbol, _, _, _, _, accruesToState, platform, trackingCode) =>
      saleId != "" && symbol != "" && platform != "" && accruesToState != Some("") && trackingCode != Some("")
    case Split(symbol, _, _) => symbol != ""
    case Reversal(target) => target != ""
  }

  /** Every required string non-empty, no optional one present but empty, and a sequence
      number below 2^63. */
  predicate Storable(e: Event) {
    e.id != "" && FitsI64(e.seqNo) && StorableKind(e.kind)
  }

  ghost predicate HasKindCells(row: Row, k: EventKind) {
    forall c :: !UniversalColumn(c) ==> Get(row, c) == KindCell(k, c)
  }

  lemma BuyCells(row: Row, k: EventKind)
    requires k.Buy? && HasKindCells(row, k)
    ensures Get(row, KindCol) == "Buy"
    ensures Get(row, LotIdCol) == k.lotId
    ensures Get(row, SymbolCol) == k.symbol
    ensures Get(row, QtyCol) == IntText(k.qty)
    ensures Get(row, UnitPriceCol) == IntText(k.unitPrice)
    ensures Get(row, FeesCol) == IntText(k.fees)
    ensures Get(row, PlatformCol) == k.platform
    ensures Get(row, TrackingCodeCol) == OptText(k.trackingCode)
  {
    BuyHeadColumns(k);
    BuyTailColumns(k);
  }

  lemma BuyHeadColumns(k: EventKind)
    requires k.Buy?
    ensures KindCell(k, KindCol) == "Buy" && KindCell(k, LotIdCol) == k.lotId
    ensures KindCell(k, SymbolCol) == k.symbol && KindCell(k, QtyCol) == IntText(k.qty)
  {
  }

  lemma BuyTailColumns(k: EventKind)
    requires k.Buy?
    ensures KindCell(k, UnitPriceCol) == IntText(k.unitPrice) && KindCell(k, FeesCol) == IntText(k.fees)
    ensures KindCell(k, PlatformCol) == k.platform && KindCell(k, TrackingCodeCol) == OptText(k.trackingCode)
  {
  }

  lemma DecBuyBack(row: Row, k: EventKind)
    requires k.Buy? && FitsI64(k.qty) && FitsI64(k.unitPrice) && FitsI64(k.fees)
    requires Get(row, LotIdCol) == k.lotId
    requires Get(row, SymbolCol) == k.symbol
    requires Get(row, QtyCol) == IntText(k.qty)
    requires Get(row, UnitPriceCol) == IntText(k.unitPrice)
    requires Get(row, FeesCol) == IntText(k.fees)
    requires Get(row, PlatformCol) == k.platform
    requires Get(row, TrackingCodeCol) == OptText(k.trackingCode)
    ensures DecBuy(row) == Success(k) <==> StorableKind(k)
  {
    DecIntText(k.qty);
    DecIntText(k.unitPrice);
    DecIntText(k.fees);
  }

  lemma ChooseBuy(row: Row)
    requires Get(row, KindCol) == "Buy"
    ensures DecKind(row) == DecBuy(row)
  {
  }

  lemma VestCells(row: Row, k: EventKind)
    requires k.Vest? && HasKindCells(row, k)
    ensures Get(row, KindCol) == "Vest"
    ensures Get(row, LotIdCol) == k.lotId
    ensures Get(row, SymbolCol) == k.symbol
    ensures Get(row, QtyCol) == IntText(k.qty)
    ensures Get(row, FmvCol) == IntText(k.fmv)
    ensures Get(row, PlatformCol) == k.platform
    ensures Get(row, TrackingCodeCol) == OptText(k.trackingCode)
  {
    VestHeadColumns(k);
    VestTailColumns(k);
  }

  lemma VestHeadColumns(k: EventKind)
    requires k.Vest?
    ensures KindCell(k, KindCol) == "Vest" && KindCell(k, LotIdCol) == k.lotId
    ensures KindCell(k, SymbolCol) == k.symbol && KindCell(k, QtyCol) == IntText(k.qty)
  {
  }

  lemma VestTailColumns(k: EventKind)
    requires k.Vest?
    ensures KindCell(k, FmvCol) == IntText(k.fmv)
    ensures KindCell(k, PlatformCol) == k.platform && KindCell(k, TrackingCodeCol) == OptText(k.trackingCode)
  {
  }

  lemma DecVestBack(row: Row, k: EventKind)
    requires k.Vest? && FitsI64(k.qty) && FitsI64(k.fmv)
    requires Get(row, LotIdCol) == k.lotId
    requires Get(row, SymbolCol) == k.symbol
    requires Get(row, QtyCol) == IntText(k.qty)
    requires Get(row, FmvCol) == IntText(k.fmv)
    requires Get(row, PlatformCol) == k.platform
    requires Get(row, TrackingCodeCol) == OptText(k.trackingCode)
    ensures DecVest(row) == Success(k) <==> StorableKind(k)
  {
    DecIntText(k.qty);
    DecIntText(k.fmv);
  }

  lemma ChooseVest(row: Row)
    requires Get(row, KindCol) == "Vest"
    ensures DecKind(row) == DecVest(row)
  {
  }

  lemma SellHeadCells(row: Row, k: EventKind)
    requires k.Sell? && HasKindCells(row, k)
    ensures Get(row, KindCol) == "Sell"
    ensures Get(row, SaleIdCol) == k.saleId
    ensures Get(row, SymbolCol) == k.symbol
    ensures Get(row, QtyCol) == IntText(k.qty)
    ensures Get(row, UnitPriceCol) == IntText(k.unitPrice)
    ensures Get(row, FeesCol) == IntText(k.fees)
  {
    SellHeadColumns(k);
    SellAmountColumns(k);
  }

  lemma SellHeadColumns(k: EventKind)
    requires k.Sell?
    ensures KindCell(k, KindCol) == "Sell" && KindCell(k, SaleIdCol) == k.saleId && KindCell(k, SymbolCol) == k.symbol
  {
  }

  lemma SellAmountColumns(k: EventKind)
    requires k.Sell?
    ensures KindCell(k, QtyCol) == IntText(k.qty)
    ensures KindCell(k, UnitPriceCol) == IntText(k.unitPrice) && KindCell(k, FeesCol) == IntText(k.fees)
  {
  }

  lemma SellTailCells(row: Row, k: EventKind)
    requires k.Sell? && HasKindCells(row, k)
    ensures Get(row, LotRefsCol) == EncLotRefs(k.lotRefs)
    ensures Get(row, AccruesToStateCol) == OptText(k.accruesToState)
    ensures Get(row, PlatformCol) == k.platform
    ensures Get(row, TrackingCodeCol) == OptText(k.trackingCode)
  {
    assert forall c :: !UniversalColumn(c) ==> Get(row, c) == SellCell(k, c);
  }

  lemma DecSellBack(row: Row, k: EventKind)
    requires k.Sell? && FitsI64(k.qty) && FitsI64(k.unitPrice) && FitsI64(k.fees)
    requires forall i :: 0 <= i < |k.lotRefs| ==> GoodRef(k.lotRefs[i])
    requires Get(row, SaleIdCol) == k.saleId
    requires Get(row, SymbolCol) == k.symbol
    requires Get(row, QtyCol) == IntText(k.qty)
    requires Get(row, UnitPriceCol) == IntText(k.unitPrice)
    requires Get(row, FeesCol) == IntText(k.fees)
    requires Get(row, LotRefsCol) == EncLotRefs(k.lotRefs)
    requires Get(row, AccruesToStateCol) == OptText(k.accruesToState)
    requires Get(row, PlatformCol) == k.platform
    requires Get(row, TrackingCodeCol) == OptText(k.trackingCode)
    ensures DecSell(row) == Success(k) <==> StorableKind(k)
  {
    DecIntText(k.qty);
    DecIntText(k.unitPrice);
    DecIntText(k.fees);
    LotRefsRoundTrip(k.lotRefs);
  }

  lemma ChooseSell(row: Row)
    requires Get(row, KindCol) == "Sell"
    ensures DecKind(row) == DecSell(row)
  {
  }

  lemma SplitCells(row: Row, k: EventKind)
    requires k.Split? && HasKindCells(row, k)
    ensures Get(row, KindCol) == "Split"
    ensures Get(row, SymbolCol) == k.symbol
    ensures Get(row, RatioNumCol) == IntText(k.num)
    ensures Get(row, RatioDenCol) == IntText(k.den)
  {
    assert KindCell(k, KindCol) == "Split";
    assert KindCell(k, SymbolCol) == k.symbol;
    assert KindCell(k, RatioNumCol) == IntText(k.num);
    assert KindCell(k, RatioDenCol) == IntText(k.den);
  }

  lemma DecSplitBack(row: Row, k: EventKind)
    requires k.Split? && FitsI64(k.num) && FitsI64(k.den)
    requires Get(row, SymbolCol) == k.symbol
    requires Get(row, RatioNumCol) == IntText(k.num)
    requires Get(row, RatioDenCol) == IntText(k.den)
    ensures DecSplit(row) == Success(k) <==> StorableKind(k)
  {
    DecIntText(k.num);
    DecIntText(k.den);
  }

  lemma ChooseSplit(row: Row)
    requires Get(row, KindCol) == "Split"
    ensures DecKind(row) == DecSplit(row)
  {
  }

  lemma ReversalCells(row: Row, k: EventKind)
    requires k.Reversal? && HasKindCells(row, k)
    ensures Get(row, KindCol) == "Reversal"
    ensures Get(row, TargetEventIdCol) == k.target
  {
    assert KindCell(k, KindCol) == "Reversal";
    assert KindCell(k, TargetEventIdCol) == k.target;
  }

  lemma DecReversalBack(row: Row, k: EventKind)
    requires k.Reversal?
    requires Get(row, TargetEventIdCol) == k.target
    ensures DecReversal(row) == Success(k) <==> StorableKind(k)
  {
  }

  lemma ChooseReversal(row: Row)
    requires Get(row, KindCol) == "Reversal"
    ensures DecKind(row) == DecReversal(row)
  {
  }

  lemma KindRoundTrip(row: Row, e: Event)
    requires HasKindCells(row, e.kind) && WellTyped(e)
    ensures DecKind(row) == Success(e.kind) <==> StorableKind(e.kind)
  {
    match e.kind {
      case Buy(_, _, _, _, _, _, _) => BuyCells(row, e.kind); DecBuyBack(row, e.kind); ChooseBuy(row);
      case Vest(_, _, _, _, _, _) => VestCells(row, e.kind); DecVestBack(row, e.kind); ChooseVest(row);
      case Sell(_, _, _, _, _, _, _, _, _) =>
        SellHeadCells(row, e.kind);
        SellTailCells(row, e.kind);
        DecSellBack(row, e.kind);
        ChooseSell(row);
      case Split(_, _, _) => SplitCells(row, e.kind); DecSplitBack(row, e.kind); ChooseSplit(row);
      case Reversal(_) => ReversalCells(row, e.kind); DecReversalBack(row, e.kind); ChooseReversal(row);
    }
  }

  lemma LedgerCells(e: Event)
    ensures Get(LedgerToRow(e), SeqCol) == IntText(e.seqNo)
    ensures Get(LedgerToRow(e), EventIdCol) == e.id
    ensures Get(LedgerToRow(e), DateCol) == IntText(e.date)
    ensures HasKindCells(LedgerToRow(e), e.kind)
  {
    LedgerRowCell(e, SeqCol);
    LedgerRowCell(e, EventIdCol);
    LedgerRowCell(e, DateCol);
    forall c | !UniversalColumn(c) ensures Get(LedgerToRow(e), c) == KindCell(e.kind, c) { LedgerRowCell(e, c); }
  }

  lemma DecodeParts(row: Row, e: Event)
    requires e.seqNo < 0x1_0000_0000_0000_0000 && FitsI32(e.date)
    requires Get(row, SeqCol) == IntText(e.seqNo) && Get(row, EventIdCol) == e.id
    requires Get(row, DateCol) == IntText(e.date)
    ensures RowToLedger(row) == Success(e) <==> FitsI64(e.seqNo) && e.id != "" && DecKind(row) == Success(e.kind)
  {
    DecIntText(e.seqNo);
    DecIntText(e.date);
    var kind := DecKind(row);
  }

  /** An event reads back from its row as itself exactly when it is storable. */
  lemma {:induction false} LedgerRowRoundTrip(e: Event)
    requires WellTyped(e)
    ensures RowToLedger(LedgerToRow(e)) == Success(e) <==> Storable(e)
  {
    LedgerCells(e);
    KindRoundTrip(LedgerToRow(e), e);
    DecodeParts(LedgerToRow(e), e);
  }

  /** A ledger row is sparse and within its header, so it also survives the sheet. */
  lemma LedgerRowShape(e: Event)
    ensures Sparse(LedgerToRow(e))
    ensures forall c :: c in LedgerToRow(e) ==> c in LEDGER_HEADER
  {
    forall c | LedgerCell(e, c) != "" ensures c in LEDGER_HEADER {
      NonEmptyIsLedger(e.kind, c);
      LedgerHeaderHas(c);
    }
  }

  lemma NonEmptyIsLedger(k: EventKind, c: Column)
    ensures KindCell(k, c) != "" ==> LedgerColumn(c)
  {
  }

  predicate LedgerColumn(c: Column) {
    !(c.AccrualSaleIdCol? || c.AccrualLotIdCol? || c.JurisdictionCol? || c.TaxYearCol? || c.AccountLabelCol?
      || c.AmountCol?
      || c.AppliedAmountCol? || c.PeriodCol? || c.CoversCol? || c.ReasonCol?)
  }

  lemma LedgerHeaderHas(c: Column)
    requires LedgerColumn(c)
    ensures c in LEDGER_HEADER
  {
    var i := match c
      case SeqCol => 0 case EventIdCol => 1 case DateCol => 2 case KindCol => 3 case LotIdCol => 4 case SaleIdCol => 5
      case SymbolCol => 6 case QtyCol => 7 case UnitPriceCol => 8 case FeesCol => 9 case FmvCol => 10
      case LotRefsCol => 11
      case AccruesToStateCol => 12 case PlatformCol => 13 case TrackingCodeCol => 14 case RatioNumCol => 15
      case RatioDenCol => 16 case _ => 17;
    assert LEDGER_HEADER[i] == c;
  }

  /** Written to the sheet and read back, whether or not the sheet drops trailing empty
      cells, an event comes back as itself exactly when it is storable. */
  method LedgerThroughSheet(e: Event, kept: nat) returns (back: Result<Event, StoreError>)
    requires WellTyped(e)
    requires kept <= |LEDGER_HEADER| && forall i :: kept <= i < |LEDGER_HEADER| ==>
      ToCells(LEDGER_HEADER, LedgerToRow(e))[i] == ""
    ensures back == Success(e) <==> Storable(e)
  {
    var row := EncodeLedger(e);
    HeadersHaveNoRepeats();
    LedgerRowShape(e);
    var again := FromCells(LEDGER_HEADER, ToCells(LEDGER_HEADER, row)[..kept]);
    CellsDetermineRow(LEDGER_HEADER, row, again, kept);
    LedgerRowRoundTrip(e);
    back := RowToLedger(again);
  }
}
