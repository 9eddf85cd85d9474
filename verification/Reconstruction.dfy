/** The importer's reconstruction: legacy rows become ledger events in fold order, and the
    profit difference predicted from them is the one replay shows. */
module Reconstructions {
  import opened Basics
  import opened Rounding
  import opened Keys
  import opened Apportion
  import opened Ledger
  import opened Conservation
  import opened Snapshots
  import opened Permutation
  import opened ImportDelta
  import opened LegacyCash
  import Residency

  // --- The legacy rows. ---

  /** `place` numbers the row coordinates in their order: by tab, then by row. */
  datatype ActionRow = ActionRow(place: int, eventId: string, isVest: bool, lotId: string, symbol: string, qty: int,
                                 price: string, fees: string, date: int, platform: string, trackingCode: Option<string>)

  datatype LegacySale = LegacySale(place: int, saleId: string, symbol: string, trancheId: string, qty: int,
                                   price: string, fees: string, date: int, platform: string)

  datatype SplitAction = SplitAction(eventId: string, symbol: string, date: int, num: int, den: int)

  datatype Correction = Correction(date: Option<int>, qty: Option<int>, alreadyPostSplit: bool)

  datatype Legacy = Legacy(actions: seq<ActionRow>, splits: seq<SplitAction>, sales: seq<LegacySale>,
                           corrections: map<int, Correction>, residency: seq<Residency.Entry>)

  datatype ImportError = UnrecoverableVestFmv(place: int)

  /** An event with its sort key; its number comes last. */
  datatype Item = Item(date: int, rank: int, place: int, event: Event)

  datatype Reconstruction = Reconstruction(ledger: seq<Event>, malformed: seq<int>, stc: map<string, int>)

  function ValueOr<T>(o: Option<T>, x: T): T {
    match o case None => x case Some(v) => v
  }

  function CorrectionAt(wb: Legacy, place: int): Correction {
    if place in wb.corrections then wb.corrections[place] else Correction(None, None, false)
  }

  // --- Opens. ---

  datatype ActionRead = Opens(item: Item) | Malformed(place: int) | NoVestPrice(place: int)

  /** A buy needs a price that parses, a vest one that is positive. */
  function ReadAction(wb: Legacy, a: ActionRow): ActionRead {
    var c := CorrectionAt(wb, a.place);
    var date, qty := ValueOr(c.date, a.date), ValueOr(c.qty, a.qty);
    match ParseDollars(a.price)
    case None => if a.isVest then NoVestPrice(a.place) else Malformed(a.place)
    case Some(price) =>
      if !a.isVest then
        Opens(Item(date, 0, a.place, Event(a.eventId, 0, date,
          Buy(a.lotId, a.symbol, qty, price, CentsOr0(a.fees), a.platform, a.trackingCode))))
      else if price <= 0 then NoVestPrice(a.place)
      else
        Opens(Item(date, 0, a.place, Event(a.eventId, 0, date,
          Vest(a.lotId, a.symbol, qty, price, a.platform, a.trackingCode))))
  }

  function ActionReads(wb: Legacy): (r: seq<ActionRead>)
    ensures |r| == |wb.actions| && forall i :: 0 <= i < |r| ==> r[i] == ReadAction(wb, wb.actions[i])
  {
    seq(|wb.actions|, i requires 0 <= i < |wb.actions| => ReadAction(wb, wb.actions[i]))
  }

  function OpenItems(rows: seq<ActionRead>): seq<Item> {
    if rows == [] then []
    else
      var last := rows[|rows| - 1];
      OpenItems(rows[..|rows| - 1]) + if last.Opens? then [last.item] else []
  }

  function BadActions(rows: seq<ActionRead>): seq<int> {
    if rows == [] then []
    else
      var last := rows[|rows| - 1];
      BadActions(rows[..|rows| - 1]) + if last.Malformed? then [last.place] else []
  }

  /** The price of each vested tranche, that of its last row. */
  function VestPrices(rows: seq<ActionRead>): map<string, int> {
    if rows == [] then map[]
    else
      var front, last := VestPrices(rows[..|rows| - 1]), rows[|rows| - 1];
      if last.Opens? && last.item.event.kind.Vest? then front[last.item.event.kind.lotId := last.item.event.kind.fmv]
        else front
  }

  predicate EveryVestPriced(wb: Legacy) {
    forall i :: 0 <= i < |wb.actions| ==> !ActionReads(wb)[i].NoVestPrice?
  }

  /** The totals of the pass so far: items, vest prices and places of malformed rows. */
  datatype Collected = Collected(items: seq<Item>, vestFmv: map<string, int>, malformed: seq<int>)

  function CollectedFrom(rows: seq<ActionRead>): Collected {
    Collected(OpenItems(rows), VestPrices(rows), BadActions(rows))
  }

  method Collect(so: Collected, read: ActionRead, ghost rows: seq<ActionRead>) returns (more: Collected)
    requires so == CollectedFrom(rows) && !read.NoVestPrice?
    ensures more == CollectedFrom(rows + [read])
  {
    assert (rows + [read])[..|rows|] == rows;
    match read
    case Malformed(place) => more := so.(malformed := so.malformed + [place]);
    case Opens(item) =>
      more := so.(items := so.items + [item]);
      if item.event.kind.Vest? { more := more.(vestFmv := more.vestFmv[item.event.kind.lotId := item.event.kind.fmv]); }
  }

  /** The pass over the action rows stops at a vest without a price. */
  method CollectActions(rows: seq<ActionRead>) returns (r: Result<Collected, ImportError>)
    ensures r.Success? <==> forall i :: 0 <= i < |rows| ==> !rows[i].NoVestPrice?
    ensures r.Success? ==> r.value == CollectedFrom(rows)
    ensures r.Failure? ==> exists i :: 0 <= i < |rows| && rows[i] == NoVestPrice(r.error.place)
  {
    var so := Collected([], map[], []);
    for i := 0 to |rows|
      invariant so == CollectedFrom(rows[..i])
      invariant forall k :: 0 <= k < i ==> !rows[k].NoVestPrice?
    {
      assert rows[..i] + [rows[i]] == rows[..i + 1];
      if rows[i].NoVestPrice? { return Failure(UnrecoverableVestFmv(rows[i].place)); }
      so := Collect(so, rows[i], rows[..i]);
    }
    assert rows[..|rows|] == rows;
    return Success(so);
  }

  // --- Splits. ---

  function SplitItem(splits: seq<SplitAction>, i: nat): Item
    requires i < |splits|
  {
    var s := splits[i];
    Item(s.date, 1, i + 1, Event(s.eventId, 0, s.date, Split(s.symbol, s.num, s.den)))
  }

  function SplitItems(splits: seq<SplitAction>): (r: seq<Item>)
    ensures |r| == |splits| && forall i :: 0 <= i < |splits| ==> r[i] == SplitItem(splits, i)
  {
    seq(|splits|, i requires 0 <= i < |splits| => SplitItem(splits, i))
  }

  // --- Sales. ---

  /** The earliest split of the symbol after the date. */
  function PostSplitDate(splits: seq<SplitAction>, symbol: string, date: int): Option<int> {
    if splits == [] then None
    else
      var s, rest := splits[0], PostSplitDate(splits[1..], symbol, date);
      if s.symbol != symbol || s.date <= date then rest
      else match rest case None => Some(s.date) case Some(d) => Some(if s.date <= d then s.date else d)
  }

  /** A sale is dated after its split if its quantity is already in the split's frame. */
  function SaleDate(wb: Legacy, s: LegacySale): int {
    var c := CorrectionAt(wb, s.place);
    var date := ValueOr(c.date, s.date);
    if c.alreadyPostSplit then ValueOr(PostSplitDate(wb.splits, s.symbol, date), date) else date
  }

  function ReadSale(wb: Legacy, s: LegacySale): Option<SaleRow> {
    match ParseDollars(s.price)
    case None => None
    case Some(price) =>
      var date := SaleDate(wb, s);
      var qty := ValueOr(CorrectionAt(wb, s.place).qty, s.qty);
      Some(SaleRow(s.saleId, s.symbol, s.trancheId, qty, price, CentsOr0(s.fees),
                   Residency.ResidencyOn(wb.residency, date), s.platform, date))
  }

  function SaleReads(wb: Legacy): (r: seq<(int, Option<SaleRow>)>)
    ensures |r| == |wb.sales| && forall i :: 0 <= i < |r| ==> r[i] == (wb.sales[i].place, ReadSale(wb, wb.sales[i]))
  {
    seq(|wb.sales|, i requires 0 <= i < |wb.sales| => (wb.sales[i].place, ReadSale(wb, wb.sales[i])))
  }

  /** The rows that read, with their places. */
  function Readable(rows: seq<(int, Option<SaleRow>)>): seq<(int, SaleRow)> {
    if rows == [] then []
    else
      var last := rows[|rows| - 1];
      Readable(rows[..|rows| - 1]) + if last.1.Some? then [(last.0, last.1.value)] else []
  }

  function BadSales(rows: seq<(int, Option<SaleRow>)>): seq<int> {
    if rows == [] then []
    else
      var last := rows[|rows| - 1];
      BadSales(rows[..|rows| - 1]) + if last.1.None? then [last.0] else []
  }

  method CollectSales(rows: seq<(int, Option<SaleRow>)>) returns (readable: seq<(int, SaleRow)>, malformed: seq<int>)
    ensures readable == Readable(rows) && malformed == BadSales(rows)
  {
    readable, malformed := [], [];
    assert rows[..0] == [];
    for i := 0 to |rows|
      invariant readable == Readable(rows[..i]) && malformed == BadSales(rows[..i])
    {
      assert rows[..i + 1][..i] == rows[..i];
      if rows[i].1.Some? {
        readable := readable + [(rows[i].0, rows[i].1.value)];
      } else {
        malformed := malformed + [rows[i].0];
      }
    }
    assert rows[..|rows|] == rows;
  }

  function RowsOf(rows: seq<(int, SaleRow)>): (r: seq<SaleRow>)
    ensures |r| == |rows| && forall i :: 0 <= i < |rows| ==> r[i] == rows[i].1
  {
    seq(|rows|, i requires 0 <= i < |rows| => rows[i].1)
  }

  function SaleItem(rows: seq<(int, SaleRow)>, vestFmv: map<string, int>, i: nat): Item
    requires i < |rows|
  {
    Item(rows[i].1.date, 2, rows[i].0, SaleEvent(rows[i].1, vestFmv))
  }

  function SaleItems(rows: seq<(int, SaleRow)>, vestFmv: map<string, int>): (r: seq<Item>)
    ensures |r| == |rows| && forall i :: 0 <= i < |rows| ==> r[i] == SaleItem(rows, vestFmv, i)
  {
    seq(|rows|, i requires 0 <= i < |rows| => SaleItem(rows, vestFmv, i))
  }

  method SubstituteAndFile(rows: seq<(int, SaleRow)>, vestFmv: map<string, int>)
    returns (items: seq<Item>, stc: map<string, int>)
    ensures items == SaleItems(rows, vestFmv)
    ensures forall sym :: Get(stc, sym) == Total(RowsOf(rows), SubstitutedValue(vestFmv, sym))
  {
    var sales;
    sales, stc := ReconstructSales(RowsOf(rows), vestFmv);
    items := [];
    for i := 0 to |rows|
      invariant items == SaleItems(rows, vestFmv)[..i]
    {
      items := items + [Item(rows[i].1.date, 2, rows[i].0, sales[i])];
    }
    assert items == SaleItems(rows, vestFmv);
  }

  // --- Fold order. ---

  function ItemKeys(items: seq<Item>): (r: seq<Key>)
    ensures |r| == |items|
    ensures forall i :: 0 <= i < |items| ==> r[i] == Key(items[i].date, items[i].rank, items[i].place, i)
  {
    seq(|items|, i requires 0 <= i < |items| => Key(items[i].date, items[i].rank, items[i].place, i))
  }

  function EventAt(items: seq<Item>): Key -> Event {
    (k: Key) => if k.idx < |items| then items[k.idx].event else Event("", 0, 0, Reversal(""))
  }

  /** The events by date, then opens before splits before sales, then by place. */
  function Arranged(items: seq<Item>): (r: seq<Event>)
    ensures |r| == |items|
  {
    Image(Sort(ItemKeys(items)), EventAt(items))
  }

  function EventsOf(items: seq<Item>): (r: seq<Event>)
    ensures |r| == |items| && forall i :: 0 <= i < |items| ==> r[i] == items[i].event
  {
    seq(|items|, i requires 0 <= i < |items| => items[i].event)
  }

  /** Arranging moves events, none added or lost. */
  lemma {:induction false} ArrangedPermutes(items: seq<Item>)
    ensures multiset(Arranged(items)) == multiset(EventsOf(items))
  {
    var keys := ItemKeys(items);
    SortAscending(keys);
    ImagePermuted(Sort(keys), keys, EventAt(items));
    assert Image(keys, EventAt(items)) == EventsOf(items);
  }

  /** Numbered from 1 in that order. */
  function Numbered(events: seq<Event>): (r: seq<Event>)
    ensures |r| == |events| && forall i :: 0 <= i < |events| ==> r[i] == events[i].(seqNo := i + 1)
  {
    seq(|events|, i requires 0 <= i < |events| => events[i].(seqNo := i + 1))
  }

  lemma SortedInRange(items: seq<Item>)
    ensures forall k :: k in Sort(ItemKeys(items)) ==> k.idx < |items|
  {
    SortMembers(ItemKeys(items));
  }

  method KeysOf(items: seq<Item>) returns (keys: seq<Key>)
    ensures keys == ItemKeys(items)
  {
    keys := [];
    for i := 0 to |items|
      invariant keys == ItemKeys(items)[..i]
    {
      keys := keys + [Key(items[i].date, items[i].rank, items[i].place, i)];
    }
  }

  method NumberInOrder(items: seq<Item>, order: seq<Key>) returns (ledger: seq<Event>)
    requires forall k :: 0 <= k < |order| ==> order[k].idx < |items|
    ensures |ledger| == |order|
    ensures forall i :: 0 <= i < |order| ==> ledger[i] == items[order[i].idx].event.(seqNo := i + 1)
  {
    ledger := [];
    for i := 0 to |order|
      invariant |ledger| == i
      invariant forall k :: 0 <= k < i ==> ledger[k] == items[order[k].idx].event.(seqNo := k + 1)
    {
      ledger := ledger + [items[order[i].idx].event.(seqNo := i + 1)];
    }
  }

  method Arrange(items: seq<Item>) returns (ledger: seq<Event>)
    ensures ledger == Numbered(Arranged(items))
  {
    var keys := KeysOf(items);
    SortedInRange(items);
    ledger := NumberInOrder(items, Sort(keys));
    assert ledger == Numbered(Arranged(items));
  }

  // --- The whole pass. ---

  function Items(wb: Legacy): seq<Item> {
    OpenItems(ActionReads(wb)) + SplitItems(wb.splits) + SaleItems(Readable(SaleReads(wb)), VestPrices(ActionReads(wb)))
  }

  function ReconstructedLedger(wb: Legacy): seq<Event> {
    Numbered(Arranged(Items(wb)))
  }

  method Reconstruct(wb: Legacy) returns (r: Result<Reconstruction, ImportError>)
    ensures r.Success? <==> EveryVestPriced(wb)
    ensures r.Success? ==>
              && r.value.ledger == ReconstructedLedger(wb)
              && r.value.malformed == BadActions(ActionReads(wb)) + BadSales(SaleReads(wb))
              && forall sym :: Get(r.value.stc, sym)
                   == Total(RowsOf(Readable(SaleReads(wb))), SubstitutedValue(VestPrices(ActionReads(wb)), sym))
  {
    var read := CollectActions(ActionReads(wb));
    if read.Failure? { return Failure(read.error); }
    var Collected(opens, vestFmv, badActions) := read.value;
    var rows, badSales := CollectSales(SaleReads(wb));
    var sales, stc := SubstituteAndFile(rows, vestFmv);
    var ledger := Arrange(opens + SplitItems(wb.splits) + sales);
    return Success(Reconstruction(ledger, badActions + badSales, stc));
  }

  // --- The substituted value, found again in the ledger. ---

  /** Ids of the sales whose price was substituted. */
  function SellToCoverIds(rows: seq<SaleRow>, vestFmv: map<string, int>): (r: set<string>)
    ensures forall id ::
      id in r <==> exists i :: 0 <= i < |rows| && rows[i].saleId == id && IsSellToCover(rows[i], vestFmv)
  {
    set i | 0 <= i < |rows| && IsSellToCover(rows[i], vestFmv) :: rows[i].saleId
  }

  ghost predicate DistinctSales(rows: seq<SaleRow>) {
    forall i, j :: 0 <= i < j < |rows| ==> rows[i].saleId != rows[j].saleId
  }

  lemma {:induction false} SameTotals<T, U>(s: seq<T>, t: seq<U>, f: T -> int, g: U -> int)
    requires |s| == |t| && forall i :: 0 <= i < |s| ==> f(s[i]) == g(t[i])
    ensures Total(s, f) == Total(t, g)
  {
    if s != [] {
      assert forall i :: 0 <= i < |s| - 1 ==> s[1..][i] == s[i + 1] && t[1..][i] == t[i + 1];
      SameTotals(s[1..], t[1..], f, g);
    }
  }

  lemma {:induction false} NothingTotals<T>(s: seq<T>, f: T -> int)
    requires forall i :: 0 <= i < |s| ==> f(s[i]) == 0
    ensures Total(s, f) == 0
  {
    if s != [] {
      assert forall i :: 0 <= i < |s| - 1 ==> s[1..][i] == s[i + 1];
      NothingTotals(s[1..], f);
    }
  }

  lemma {:induction false} OpensAreNotSales(rows: seq<ActionRead>)
    requires forall i :: 0 <= i < |rows| && rows[i].Opens? ==> !rows[i].item.event.kind.Sell?
    ensures forall i :: 0 <= i < |OpenItems(rows)| ==> !OpenItems(rows)[i].event.kind.Sell?
  {
    if rows != [] { OpensAreNotSales(rows[..|rows| - 1]); }
  }

  /** What the sale pass adds up row by row is what the sales it substituted are worth in any
      arrangement of them among other events. */
  lemma {:induction false} SalesKeepValue(rows: seq<(int, SaleRow)>, vestFmv: map<string, int>, sym: string)
    requires DistinctSales(RowsOf(rows))
    ensures Total(EventsOf(SaleItems(rows, vestFmv)), StcValue(SellToCoverIds(RowsOf(rows), vestFmv), sym))
         == Total(RowsOf(rows), SubstitutedValue(vestFmv, sym))
  {
    var ids := SellToCoverIds(RowsOf(rows), vestFmv);
    var events := EventsOf(SaleItems(rows, vestFmv));
    forall i | 0 <= i < |rows|
      ensures StcValue(ids, sym)(events[i]) == SubstitutedValue(vestFmv, sym)(RowsOf(rows)[i])
    {
      var row := rows[i].1;
      assert events[i] == SaleEvent(row, vestFmv);
      SubstitutedIff(rows, vestFmv, i);
      TwinRestoresRow(events[i], row, vestFmv, ids);
    }
    SameTotals(events, RowsOf(rows), StcValue(ids, sym), SubstitutedValue(vestFmv, sym));
  }

  /** Ids of the substituted sales of the workbook. */
  function SubstitutedIds(wb: Legacy): set<string> {
    SellToCoverIds(RowsOf(Readable(SaleReads(wb))), VestPrices(ActionReads(wb)))
  }

  lemma EventsJoin(a: seq<Item>, b: seq<Item>)
    ensures EventsOf(a + b) == EventsOf(a) + EventsOf(b)
  {
  }

  lemma LedgerTotals(items: seq<Item>, stc: set<string>, sym: string)
    ensures Total(Numbered(Arranged(items)), StcValue(stc, sym)) == Total(EventsOf(items), StcValue(stc, sym))
  {
    var f := StcValue(stc, sym);
    SameTotals(Numbered(Arranged(items)), Arranged(items), f, f);
    ArrangedPermutes(items);
    TotalPermuted(Arranged(items), EventsOf(items), f);
  }

  lemma ItemsKeepValue(others: seq<Item>, rows: seq<(int, SaleRow)>, vestFmv: map<string, int>, sym: string)
    requires DistinctSales(RowsOf(rows)) && forall i :: 0 <= i < |others| ==> !others[i].event.kind.Sell?
    ensures Total(EventsOf(others + SaleItems(rows, vestFmv)), StcValue(SellToCoverIds(RowsOf(rows), vestFmv), sym))
         == Total(RowsOf(rows), SubstitutedValue(vestFmv, sym))
  {
    var f := StcValue(SellToCoverIds(RowsOf(rows), vestFmv), sym);
    EventsJoin(others, SaleItems(rows, vestFmv));
    TotalAppend(EventsOf(others), EventsOf(SaleItems(rows, vestFmv)), f);
    NothingTotals(EventsOf(others), f);
    SalesKeepValue(rows, vestFmv, sym);
  }

  lemma {:induction false} LedgerKeepsValue(wb: Legacy, sym: string)
    requires DistinctSales(RowsOf(Readable(SaleReads(wb))))
    ensures Total(ReconstructedLedger(wb), StcValue(SubstitutedIds(wb), sym))
         == Total(RowsOf(Readable(SaleReads(wb))), SubstitutedValue(VestPrices(ActionReads(wb)), sym))
  {
    OpensAreNotSales(ActionReads(wb));
    LedgerTotals(Items(wb), SubstitutedIds(wb), sym);
    ItemsKeepValue(OpenItems(ActionReads(wb)) + SplitItems(wb.splits), Readable(SaleReads(wb)),
                   VestPrices(ActionReads(wb)), sym);
  }

  // --- The legacy twin of the ledger. ---

  /** A vest as the legacy books had it, without value. */
  function WithoutVestValue(item: Item): Item {
    if item.event.kind.Vest? then item.(event := item.event.(kind := item.event.kind.(fmv := 0))) else item
  }

  function WithoutVestValues(items: seq<Item>): (r: seq<Item>)
    ensures |r| == |items| && forall i :: 0 <= i < |items| ==> r[i] == WithoutVestValue(items[i])
  {
    seq(|items|, i requires 0 <= i < |items| => WithoutVestValue(items[i]))
  }

  /** What the pass would file if vests had no value and no sale's price were substituted. */
  function LegacyItems(wb: Legacy): seq<Item> {
    WithoutVestValues(OpenItems(ActionReads(wb))) + SplitItems(wb.splits) + SaleItems(Readable(SaleReads(wb)), map[])
  }

  ghost predicate TwinItems(items: seq<Item>, others: seq<Item>, stc: set<string>) {
    && |items| == |others|
    && forall i :: 0 <= i < |items| ==> others[i] == items[i].(event := LegacyTwin(items[i].event, stc))
  }

  lemma {:induction false} TwinAt(events: seq<Event>, stc: set<string>, i: nat)
    requires i < |events|
    ensures LegacyTwins(events, stc)[i] == LegacyTwin(events[i], stc)
  {
    if i > 0 { TwinAt(events[1..], stc, i - 1); }
  }

  lemma ArrangedAt(items: seq<Item>, i: nat)
    requires i < |items|
    ensures var k := Sort(ItemKeys(items))[i];
      k.idx < |items| && Numbered(Arranged(items))[i] == items[k.idx].event.(seqNo := i + 1)
  {
    SortedInRange(items);
    assert Sort(ItemKeys(items))[i] in Sort(ItemKeys(items));
  }

  lemma {:induction false} ArrangedTwins(items: seq<Item>, others: seq<Item>, stc: set<string>)
    requires TwinItems(items, others, stc)
    ensures LegacyTwins(Numbered(Arranged(items)), stc) == Numbered(Arranged(others))
  {
    assert ItemKeys(items) == ItemKeys(others);
    forall i | 0 <= i < |items|
      ensures LegacyTwins(Numbered(Arranged(items)), stc)[i] == Numbered(Arranged(others))[i]
    {
      TwinPlace(items, others, stc, i);
    }
  }

  lemma TwinKeepsNumber(e: Event, n: nat, stc: set<string>)
    ensures LegacyTwin(e.(seqNo := n), stc) == LegacyTwin(e, stc).(seqNo := n)
  {
  }

  lemma TwinPlace(items: seq<Item>, others: seq<Item>, stc: set<string>, i: nat)
    requires TwinItems(items, others, stc) && ItemKeys(items) == ItemKeys(others) && i < |items|
    ensures LegacyTwins(Numbered(Arranged(items)), stc)[i] == Numbered(Arranged(others))[i]
  {
    var k := Sort(ItemKeys(items))[i].idx;
    var e := Numbered(Arranged(items))[i];
    assert LegacyTwins(Numbered(Arranged(items)), stc)[i] == LegacyTwin(e, stc) by {
      TwinAt(Numbered(Arranged(items)), stc, i);
    }
    assert k < |items| && e == items[k].event.(seqNo := i + 1) by { ArrangedAt(items, i); }
    assert Numbered(Arranged(others))[i] == others[k].event.(seqNo := i + 1) by { ArrangedAt(others, i); }
    TwinKeepsNumber(items[k].event, i + 1, stc);
  }

  /** A sale's price is substituted exactly if its id is among those recorded. */
  lemma SubstitutedIff(rows: seq<(int, SaleRow)>, vestFmv: map<string, int>, i: nat)
    requires DistinctSales(RowsOf(rows)) && i < |rows|
    ensures rows[i].1.saleId in SellToCoverIds(RowsOf(rows), vestFmv) <==> IsSellToCover(rows[i].1, vestFmv)
  {
    var plain := RowsOf(rows);
    assert plain[i] == rows[i].1;
    if plain[i].saleId in SellToCoverIds(plain, vestFmv) {
      var k :| 0 <= k < |plain| && plain[k].saleId == plain[i].saleId && IsSellToCover(plain[k], vestFmv);
      assert k == i;
    }
  }

  lemma SaleTwins(rows: seq<(int, SaleRow)>, vestFmv: map<string, int>)
    requires DistinctSales(RowsOf(rows))
    ensures TwinItems(SaleItems(rows, vestFmv), SaleItems(rows, map[]), SellToCoverIds(RowsOf(rows), vestFmv))
  {
    var ids := SellToCoverIds(RowsOf(rows), vestFmv);
    forall i | 0 <= i < |rows|
      ensures SaleItem(rows, map[], i).event == LegacyTwin(SaleItem(rows, vestFmv, i).event, ids)
    {
      SubstitutedIff(rows, vestFmv, i);
      TwinRestoresRow(SaleEvent(rows[i].1, vestFmv), rows[i].1, vestFmv, ids);
    }
  }

  lemma TwinsJoin(a: seq<Item>, b: seq<Item>, c: seq<Item>, d: seq<Item>, stc: set<string>)
    requires TwinItems(a, b, stc) && TwinItems(c, d, stc)
    ensures TwinItems(a + c, b + d, stc)
  {
  }

  /** The legacy twin the prediction is measured against is the ledger that the same rows give
      with no value on a vest and every sale at the price the spreadsheet had. */
  lemma {:induction false} TwinIsLegacyLedger(wb: Legacy)
    requires DistinctSales(RowsOf(Readable(SaleReads(wb))))
    ensures LegacyTwins(ReconstructedLedger(wb), SubstitutedIds(wb)) == Numbered(Arranged(LegacyItems(wb)))
  {
    var stc := SubstitutedIds(wb);
    var opens, splits := OpenItems(ActionReads(wb)), SplitItems(wb.splits);
    OpensAreNotSales(ActionReads(wb));
    assert TwinItems(opens, WithoutVestValues(opens), stc);
    assert TwinItems(splits, splits, stc);
    SaleTwins(Readable(SaleReads(wb)), VestPrices(ActionReads(wb)));
    TwinsJoin(opens, WithoutVestValues(opens), splits, splits, stc);
    TwinsJoin(opens + splits, WithoutVestValues(opens) + splits,
              SaleItems(Readable(SaleReads(wb)), VestPrices(ActionReads(wb))),
              SaleItems(Readable(SaleReads(wb)), map[]), stc);
    ArrangedTwins(Items(wb), LegacyItems(wb), stc);
  }

  // --- The prediction. ---

  /** Reconstruct, predict, and compare: with a mark, the profit of the reconstruction less
      that of its legacy twin is the delta predicted plus the vested basis stranded in lots of
      no shares. */
  method PredictForMarked(wb: Legacy, marks: Marks, sym: string) returns (r: Result<(Reconstruction, int), ImportError>)
    requires DistinctSales(RowsOf(Readable(SaleReads(wb))))
    ensures r.Success? ==> r.value.0.ledger == ReconstructedLedger(wb)
    ensures r.Success? && Clean(EMPTY_BOOK, r.value.0.ledger) && AllFeesCapped(r.value.0.ledger, SubstitutedIds(wb)) ==>
              var (recon, delta) := r.value;
              var a := Fold(EMPTY_BOOK, recon.ledger);
              var p := PositionOf(a, marks, sym);
              var q := PositionOf(Fold(EMPTY_BOOK, LegacyTwins(recon.ledger, SubstitutedIds(wb))), marks, sym);
              p.unrealized.Some? ==>
                && q.unrealized.Some?
                && (p.realized + p.unrealized.value) - (q.realized + q.unrealized.value)
                  == delta + Total(a.lots, StrandedVest(sym))
  {
    var recon := Reconstruct(wb);
    if recon.Failure? { return Failure(recon.error); }
    var ledger := recon.value.ledger;
    var delta := PredictIntendedDelta(ledger, recon.value.stc, sym);
    LedgerKeepsValue(wb, sym);
    if Clean(EMPTY_BOOK, ledger) && AllFeesCapped(ledger, SubstitutedIds(wb))
       && PositionOf(Fold(EMPTY_BOOK, ledger), marks, sym).unrealized.Some?
    {
      PredictionExact(ledger, SubstitutedIds(wb), marks, sym);
    }
    return Success((recon.value, delta));
  }

  /** Basis consumed from vested lots, as the dry run adds it up over the gains. */
  method VestBasis(gains: seq<Gain>, lots: seq<Lot>, sym: string) returns (consumed: int)
    ensures consumed == Total(gains, VestBasisConsumed(lots, sym))
  {
    consumed := 0;
    assert gains[0..] == gains;
    for i := 0 to |gains|
      invariant consumed + Total(gains[i..], VestBasisConsumed(lots, sym)) == Total(gains, VestBasisConsumed(lots, sym))
    {
      assert gains[i..][0] == gains[i] && gains[i..][1..] == gains[i + 1..];
      if gains[i].symbol == sym && VestedLot(lots, gains[i].lotId) { consumed := consumed + gains[i].basis; }
    }
  }

  /** Without a mark only realized profit is compared, and its prediction is exact. */
  method PredictForUnmarked(wb: Legacy, marks: Marks, sym: string)
    returns (r: Result<(Reconstruction, int), ImportError>)
    requires DistinctSales(RowsOf(Readable(SaleReads(wb))))
    ensures r.Success? ==> r.value.0.ledger == ReconstructedLedger(wb)
    ensures r.Success? && Clean(EMPTY_BOOK, r.value.0.ledger) && AllFeesCapped(r.value.0.ledger, SubstitutedIds(wb)) ==>
              var (recon, delta) := r.value;
              var p := PositionOf(Fold(EMPTY_BOOK, recon.ledger), marks, sym);
              var q := PositionOf(Fold(EMPTY_BOOK, LegacyTwins(recon.ledger, SubstitutedIds(wb))), marks, sym);
              p.realized - q.realized == delta
  {
    var recon := Reconstruct(wb);
    if recon.Failure? { return Failure(recon.error); }
    var ledger := recon.value.ledger;
    var b := Fold(EMPTY_BOOK, ledger);
    var consumed := VestBasis(b.gains, b.lots, sym);
    LedgerKeepsValue(wb, sym);
    if Clean(EMPTY_BOOK, ledger) && AllFeesCapped(ledger, SubstitutedIds(wb)) {
      RealizedPredictionExact(ledger, SubstitutedIds(wb), marks, sym);
    }
    return Success((recon.value, -(consumed - Get(recon.value.stc, sym))));
  }

  // --- The order events are folded in. ---

  predicate Before(x: Item, y: Item) {
    x.date < y.date || (x.date == y.date && (x.rank < y.rank || (x.rank == y.rank && x.place <= y.place)))
  }

  /** Events are folded by date, opens of a day before its splits before its sales, and rows of
      one kind in their order: each event comes from an item no later event's comes before. */
  lemma {:induction false} FoldOrder(items: seq<Item>, i: nat, j: nat) returns (p: nat, q: nat)
    requires i < j < |items|
    ensures p < |items| && q < |items| && p != q && Before(items[p], items[q])
    ensures Numbered(Arranged(items))[i] == items[p].event.(seqNo := i + 1)
    ensures Numbered(Arranged(items))[j] == items[q].event.(seqNo := j + 1)
  {
    var keys := ItemKeys(items);
    var sorted := Sort(keys);
    SortAscending(keys);
    SortMembers(keys);
    AscendingAt(sorted, i, j);
    assert sorted[i] in keys && sorted[j] in keys;
    p, q := sorted[i].idx, sorted[j].idx;
    SortDistinct(keys);
  }
}
