/** What the reconstruction files and in which order, said of the workbook's rows and the
    ledger's events. */
module LedgerOrder {
  import opened Basics
  import opened Keys
  import opened Ledger
  import opened Conservation
  import opened Permutation
  import opened ImportDelta
  import opened LegacyCash
  import opened Reconstructions
  import Residency

  // --- The event a row is filed as. ---

  /** The value a row had, or the one the owner corrected it to. */
  predicate CorrectedTo(correction: Option<int>, given: int, v: int) {
    v == if correction.Some? then correction.value else given
  }

  predicate CorrectedDay(wb: Legacy, place: int, given: int, v: int) {
    CorrectedTo(if place in wb.corrections then wb.corrections[place].date else None, given, v)
  }

  predicate CorrectedQty(wb: Legacy, place: int, given: int, v: int) {
    CorrectedTo(if place in wb.corrections then wb.corrections[place].qty else None, given, v)
  }

  ghost predicate FromAction(wb: Legacy, a: ActionRow, e: Event) {
    && e.id == a.eventId && CorrectedDay(wb, a.place, a.date, e.date) && ParseDollars(a.price).Some?
    && if a.isVest then
         && e.kind.Vest? && e.kind.lotId == a.lotId && e.kind.symbol == a.symbol && e.kind.platform == a.platform
         && e.kind.trackingCode == a.trackingCode && CorrectedQty(wb, a.place, a.qty, e.kind.qty)
         && e.kind.fmv == ParseDollars(a.price).value > 0
       else
         && e.kind.Buy? && e.kind.lotId == a.lotId && e.kind.symbol == a.symbol && e.kind.platform == a.platform
         && e.kind.trackingCode == a.trackingCode && CorrectedQty(wb, a.place, a.qty, e.kind.qty)
         && e.kind.unitPrice == ParseDollars(a.price).value
         && (if ParseDollars(a.fees).Some? then e.kind.fees == ParseDollars(a.fees).value else e.kind.fees == 0)
  }

  ghost predicate FromSplit(s: SplitAction, e: Event) {
    e.id == s.eventId && e.date == s.date && e.kind == Split(s.symbol, s.num, s.den)
  }

  /** The row's own day, or, for a quantity the owner says is already split, the day of the first
      split of the symbol after it if there is one. */
  ghost predicate SaleDay(wb: Legacy, s: LegacySale, day: int) {
    exists own :: CorrectedDay(wb, s.place, s.date, own) &&
      if s.place in wb.corrections && wb.corrections[s.place].alreadyPostSplit
      then SplitDay(wb.splits, s.symbol, own, day) else day == own
  }

  ghost predicate SplitDay(splits: seq<SplitAction>, symbol: string, own: int, day: int) {
    && (forall k ::
          0 <= k < |splits| && splits[k].symbol == symbol && splits[k].date > own ==> own < day <= splits[k].date)
    && (day == own || exists k :: 0 <= k < |splits| && splits[k].symbol == symbol && splits[k].date == day > own)
  }

  /** The price at which the row vests the tranche, if it does. */
  ghost function VestedFor(a: ActionRow, tranche: string): Option<int> {
    if a.isVest && a.lotId == tranche && ParseDollars(a.price).Some? && ParseDollars(a.price).value > 0
    then ParseDollars(a.price) else None
  }

  ghost function Vestings(rows: seq<ActionRow>, tranche: string): (r: seq<Option<int>>)
    ensures |r| == |rows| && forall k :: 0 <= k < |rows| ==> r[k] == VestedFor(rows[k], tranche)
  {
    seq(|rows|, k requires 0 <= k < |rows| => VestedFor(rows[k], tranche))
  }

  /** The last of these that is anything. */
  ghost predicate IsLast(s: seq<Option<int>>, v: int) {
    exists k :: 0 <= k < |s| && s[k] == Some(v) && forall m :: k < m < |s| ==> s[m] == None
  }

  ghost predicate Nothing(s: seq<Option<int>>) {
    forall k :: 0 <= k < |s| ==> s[k] == None
  }

  /** A sale of a vested tranche recorded at no price is filed at the vest's. */
  ghost predicate SalePrice(wb: Legacy, s: LegacySale, price: int) {
    && ParseDollars(s.price).Some?
    && if ParseDollars(s.price).value != 0 then price == ParseDollars(s.price).value
       else
         var vestings := Vestings(wb.actions, s.trancheId);
         IsLast(vestings, price) || (Nothing(vestings) && price == 0)
  }

  ghost predicate FromSale(wb: Legacy, s: LegacySale, e: Event) {
    && e.id == s.saleId && SaleDay(wb, s, e.date)
    && e.kind.Sell? && e.kind.saleId == s.saleId && e.kind.symbol == s.symbol && e.kind.platform == s.platform
    && CorrectedQty(wb, s.place, s.qty, e.kind.qty) && SalePrice(wb, s, e.kind.unitPrice)
    && (if ParseDollars(s.fees).Some? then e.kind.fees == ParseDollars(s.fees).value else e.kind.fees == 0)
    && e.kind.lotRefs == [LotRef(s.trancheId, e.kind.qty)] && e.kind.trackingCode == None
    && e.kind.accruesToState == Residency.ResidencyOn(wb.residency, e.date)
  }

  /** The event is filed from the row at this place of its kind. */
  ghost predicate FiledFrom(wb: Legacy, e: Event, place: int) {
    || (exists k :: 0 <= k < |wb.actions| && wb.actions[k].place == place && FromAction(wb, wb.actions[k], e))
    || (exists k :: 0 <= k < |wb.splits| && place == k + 1 && FromSplit(wb.splits[k], e))
    || (exists k :: 0 <= k < |wb.sales| && wb.sales[k].place == place && FromSale(wb, wb.sales[k], e))
  }

  // --- Each item is one row's. ---

  lemma ActionFiled(wb: Legacy, a: ActionRow)
    requires ReadAction(wb, a).Opens?
    ensures FromAction(wb, a, ReadAction(wb, a).item.event)
    ensures var item := ReadAction(wb, a).item; item.place == a.place && item.rank == 0 && item.date == item.event.date
  {
  }

  lemma {:induction false} OpenItemsAt(rows: seq<ActionRead>, i: nat) returns (k: nat)
    requires i < |OpenItems(rows)|
    ensures k < |rows| && rows[k].Opens? && OpenItems(rows)[i] == rows[k].item
  {
    var front := rows[..|rows| - 1];
    if i < |OpenItems(front)| { k := OpenItemsAt(front, i); } else { k := |rows| - 1; }
  }

  lemma {:induction false} OpenItemsHave(rows: seq<ActionRead>, k: nat) returns (i: nat)
    requires k < |rows| && rows[k].Opens?
    ensures i < |OpenItems(rows)| && OpenItems(rows)[i] == rows[k].item
  {
    var front := rows[..|rows| - 1];
    if k < |front| { i := OpenItemsHave(front, k); } else { i := |OpenItems(front)|; }
  }

  lemma {:induction false} PostSplitIsFirst(splits: seq<SplitAction>, symbol: string, own: int)
    ensures SplitDay(splits, symbol, own, ValueOr(PostSplitDate(splits, symbol, own), own))
    ensures PostSplitDate(splits, symbol, own).Some? ==> PostSplitDate(splits, symbol, own).value > own
  {
    if splits != [] {
      var rest := splits[1..];
      PostSplitIsFirst(rest, symbol, own);
      var r, d := ValueOr(PostSplitDate(rest, symbol, own), own), ValueOr(PostSplitDate(splits, symbol, own), own);
      forall k | 0 <= k < |splits| && splits[k].symbol == symbol && splits[k].date > own
        ensures own < d <= splits[k].date
      {
        if k > 0 { assert rest[k - 1] == splits[k]; }
      }
      if d == r && r != own {
        var k :| 0 <= k < |rest| && rest[k].symbol == symbol && rest[k].date == r > own;
        assert splits[k + 1] == rest[k];
      }
    }
  }

  lemma SaleDated(wb: Legacy, s: LegacySale)
    ensures SaleDay(wb, s, SaleDate(wb, s))
  {
    var own := ValueOr(CorrectionAt(wb, s.place).date, s.date);
    assert CorrectedDay(wb, s.place, s.date, own);
    PostSplitIsFirst(wb.splits, s.symbol, own);
  }

  /** The price recorded for a tranche by the rows read so far is that of the last to vest it. */
  ghost predicate PricesAre(vestings: seq<Option<int>>, prices: map<string, int>, tranche: string) {
    if tranche in prices then IsLast(vestings, prices[tranche]) else Nothing(vestings)
  }

  lemma OneMoreVesting(s: seq<Option<int>>, x: Option<int>, before: map<string, int>, after: map<string, int>,
                       tranche: string)
    requires PricesAre(s, before, tranche)
    requires x.Some? ==> tranche in after && after[tranche] == x.value
    requires x.None? ==> (tranche in after <==> tranche in before)
    requires x.None? && tranche in before ==> after[tranche] == before[tranche]
    ensures PricesAre(s + [x], after, tranche)
  {
    if x.Some? {
      assert (s + [x])[|s|] == Some(after[tranche]);
    } else if tranche in before {
      var k :| 0 <= k < |s| && s[k] == Some(before[tranche]) && forall m :: k < m < |s| ==> s[m] == None;
      assert (s + [x])[k] == s[k];
    }
  }

  function VestRead(row: ActionRead, tranche: string): Option<int> {
    if row.Opens? && row.item.event.kind.Vest? && row.item.event.kind.lotId == tranche
    then Some(row.item.event.kind.fmv) else None
  }

  function VestReads(rows: seq<ActionRead>, tranche: string): (r: seq<Option<int>>)
    ensures |r| == |rows| && forall k :: 0 <= k < |rows| ==> r[k] == VestRead(rows[k], tranche)
  {
    seq(|rows|, k requires 0 <= k < |rows| => VestRead(rows[k], tranche))
  }

  lemma {:induction false} VestPriceOf(rows: seq<ActionRead>, tranche: string)
    ensures PricesAre(VestReads(rows, tranche), VestPrices(rows), tranche)
  {
    if rows != [] {
      var n := |rows| - 1;
      VestPriceOf(rows[..n], tranche);
      assert VestReads(rows, tranche) == VestReads(rows[..n], tranche) + [VestRead(rows[n], tranche)];
      OneMoreVesting(VestReads(rows[..n], tranche), VestRead(rows[n], tranche), VestPrices(rows[..n]),
                     VestPrices(rows), tranche);
    }
  }

  lemma SalePriced(wb: Legacy, s: LegacySale, row: SaleRow)
    requires ReadSale(wb, s) == Some(row)
    ensures SalePrice(wb, s, SaleKind(row, VestPrices(ActionReads(wb))).unitPrice)
  {
    VestPriceOf(ActionReads(wb), s.trancheId);
    assert VestReads(ActionReads(wb), s.trancheId) == Vestings(wb.actions, s.trancheId);
  }

  lemma SaleFiled(wb: Legacy, s: LegacySale)
    requires ReadSale(wb, s).Some?
    ensures FromSale(wb, s, SaleEvent(ReadSale(wb, s).value, VestPrices(ActionReads(wb))))
  {
    SaleDated(wb, s);
    SalePriced(wb, s, ReadSale(wb, s).value);
  }

  lemma {:induction false} ReadableAt(rows: seq<(int, Option<SaleRow>)>, i: nat) returns (k: nat)
    requires i < |Readable(rows)|
    ensures k < |rows| && rows[k].1.Some? && Readable(rows)[i] == (rows[k].0, rows[k].1.value)
  {
    var front := rows[..|rows| - 1];
    if i < |Readable(front)| { k := ReadableAt(front, i); } else { k := |rows| - 1; }
  }

  lemma {:induction false} ReadableHave(rows: seq<(int, Option<SaleRow>)>, k: nat) returns (i: nat)
    requires k < |rows| && rows[k].1.Some?
    ensures i < |Readable(rows)| && Readable(rows)[i] == (rows[k].0, rows[k].1.value)
  {
    var front := rows[..|rows| - 1];
    if k < |front| { i := ReadableHave(front, k); } else { i := |Readable(front)|; }
  }

  function RankOf(k: EventKind): int {
    if k.Sell? then 2 else if k.Split? then 1 else 0
  }

  ghost predicate RowItem(wb: Legacy, item: Item) {
    && FiledFrom(wb, item.event, item.place)
    && item.date == item.event.date && item.rank == RankOf(item.event.kind) && !item.event.kind.Reversal?
  }

  lemma OpenItemOfRow(wb: Legacy, i: nat)
    requires i < |OpenItems(ActionReads(wb))|
    ensures RowItem(wb, OpenItems(ActionReads(wb))[i])
  {
    var k := OpenItemsAt(ActionReads(wb), i);
    ActionFiled(wb, wb.actions[k]);
  }

  lemma SaleItemOfRow(wb: Legacy, i: nat)
    requires i < |Readable(SaleReads(wb))|
    ensures RowItem(wb, SaleItems(Readable(SaleReads(wb)), VestPrices(ActionReads(wb)))[i])
  {
    var k := ReadableAt(SaleReads(wb), i);
    SaleFiled(wb, wb.sales[k]);
  }

  lemma SplitItemOfRow(wb: Legacy, i: nat)
    requires i < |wb.splits|
    ensures RowItem(wb, SplitItems(wb.splits)[i])
  {
    assert FromSplit(wb.splits[i], SplitItem(wb.splits, i).event);
  }

  lemma OfEither<T>(s: seq<T>, t: seq<T>, p: T -> bool)
    requires forall i :: 0 <= i < |s| ==> p(s[i])
    requires forall i :: 0 <= i < |t| ==> p(t[i])
    ensures forall i :: 0 <= i < |s + t| ==> p((s + t)[i])
  {
  }

  lemma ItemOfRow(wb: Legacy, i: nat)
    requires i < |Items(wb)|
    ensures RowItem(wb, Items(wb)[i])
  {
    var p := (item: Item) => RowItem(wb, item);
    var opens, splits := OpenItems(ActionReads(wb)), SplitItems(wb.splits);
    var sales := SaleItems(Readable(SaleReads(wb)), VestPrices(ActionReads(wb)));
    forall k | 0 <= k < |opens| ensures p(opens[k]) { OpenItemOfRow(wb, k); }
    forall k | 0 <= k < |splits| ensures p(splits[k]) { SplitItemOfRow(wb, k); }
    forall k | 0 <= k < |sales| ensures p(sales[k]) { SaleItemOfRow(wb, k); }
    OfEither(opens, splits, p);
    OfEither(opens + splits, sales, p);
    assert p(Items(wb)[i]);
  }

  // --- The order. ---

  lemma NumberAside(wb: Legacy, e: Event, n: nat, place: int)
    requires FiledFrom(wb, e, place)
    ensures FiledFrom(wb, e.(seqNo := n), place)
  {
    var f := e.(seqNo := n);
    if k :| 0 <= k < |wb.actions| && wb.actions[k].place == place && FromAction(wb, wb.actions[k], e) {
      assert FromAction(wb, wb.actions[k], f);
    } else if k :| 0 <= k < |wb.splits| && place == k + 1 && FromSplit(wb.splits[k], e) {
      assert FromSplit(wb.splits[k], f);
    } else {
      var k :| 0 <= k < |wb.sales| && wb.sales[k].place == place && FromSale(wb, wb.sales[k], e);
      assert FromSale(wb, wb.sales[k], f);
    }
  }

  /** An event may stand before another: on an earlier day, or on the same day unless it is a sale
      and the other is not, or a split and the other opens a lot. */
  predicate MayPrecede(e: Event, f: Event) {
    && e.date <= f.date
    && (e.date == f.date && e.kind.Sell? ==> f.kind.Sell?)
    && (e.date == f.date && e.kind.Split? ==> f.kind.Split? || f.kind.Sell?)
  }

  /** Both open lots, or both are splits, or both are sales. */
  predicate SameKind(e: Event, f: Event) {
    e.kind.Sell? == f.kind.Sell? && e.kind.Split? == f.kind.Split?
  }

  /** What the order says of two events and their places. */
  ghost predicate InOrder(wb: Legacy, e: Event, f: Event, p: int, q: int) {
    && FiledFrom(wb, e, p) && FiledFrom(wb, f, q)
    && MayPrecede(e, f) && (e.date == f.date && SameKind(e, f) ==> p <= q)
  }

  lemma RowsInOrder(wb: Legacy, x: Item, y: Item, e: Event, f: Event)
    requires RowItem(wb, x) && RowItem(wb, y) && Before(x, y)
    requires e == x.event.(seqNo := e.seqNo) && f == y.event.(seqNo := f.seqNo)
    ensures InOrder(wb, e, f, x.place, y.place)
  {
    NumberAside(wb, x.event, e.seqNo, x.place);
    NumberAside(wb, y.event, f.seqNo, y.place);
  }

  /** The ledger runs by day. On one day vests and buys come before splits and splits before
      sales, and events of one kind follow the places of the rows they are filed from. */
  lemma {:induction false} LedgerInOrder(wb: Legacy, i: nat, j: nat) returns (p: int, q: int)
    requires i < j < |ReconstructedLedger(wb)|
    ensures InOrder(wb, ReconstructedLedger(wb)[i], ReconstructedLedger(wb)[j], p, q)
  {
    var m, n := FoldOrder(Items(wb), i, j);
    ItemOfRow(wb, m);
    ItemOfRow(wb, n);
    RowsInOrder(wb, Items(wb)[m], Items(wb)[n], ReconstructedLedger(wb)[i], ReconstructedLedger(wb)[j]);
    return Items(wb)[m].place, Items(wb)[n].place;
  }

  // --- Every row that reads is filed. ---

  lemma {:induction false} ItemIsFiled(items: seq<Item>, k: nat) returns (i: nat)
    requires k < |items|
    ensures i < |items| && Numbered(Arranged(items))[i] == items[k].event.(seqNo := i + 1)
  {
    var keys := ItemKeys(items);
    SortMembers(keys);
    assert keys[k] in Sort(keys);
    i :| 0 <= i < |keys| && Sort(keys)[i] == keys[k];
    ArrangedAt(items, i);
  }

  /** Every buy with a price and vest with a positive one is in the ledger, numbered by its position. */
  lemma {:induction false} ActionIsFiled(wb: Legacy, k: nat) returns (i: nat)
    requires k < |wb.actions|
    requires ParseDollars(wb.actions[k].price).Some?
    requires wb.actions[k].isVest ==> ParseDollars(wb.actions[k].price).value > 0
    ensures i < |ReconstructedLedger(wb)| && ReconstructedLedger(wb)[i].seqNo == i + 1
    ensures FromAction(wb, wb.actions[k], ReconstructedLedger(wb)[i])
  {
    assert ActionReads(wb)[k].Opens?;
    ActionFiled(wb, wb.actions[k]);
    var m := OpenItemsHave(ActionReads(wb), k);
    assert Items(wb)[m] == ReadAction(wb, wb.actions[k]).item;
    i := ItemIsFiled(Items(wb), m);
  }

  /** Every split is. */
  lemma {:induction false} SplitIsFiled(wb: Legacy, k: nat) returns (i: nat)
    requires k < |wb.splits|
    ensures i < |ReconstructedLedger(wb)| && ReconstructedLedger(wb)[i].seqNo == i + 1
    ensures FromSplit(wb.splits[k], ReconstructedLedger(wb)[i])
  {
    var m := |OpenItems(ActionReads(wb))| + k;
    assert Items(wb)[m] == SplitItem(wb.splits, k);
    i := ItemIsFiled(Items(wb), m);
  }

  lemma AfterBoth<T>(s: seq<T>, t: seq<T>, u: seq<T>, m: nat)
    requires m < |u|
    ensures (s + t + u)[|s| + |t| + m] == u[m]
  {
  }

  lemma SaleItemAt(wb: Legacy, k: nat) returns (at: nat)
    requires k < |wb.sales| && ReadSale(wb, wb.sales[k]).Some?
    ensures at < |Items(wb)|
    ensures Items(wb)[at].event == SaleEvent(ReadSale(wb, wb.sales[k]).value, VestPrices(ActionReads(wb)))
  {
    var m := ReadableHave(SaleReads(wb), k);
    var sales := SaleItems(Readable(SaleReads(wb)), VestPrices(ActionReads(wb)));
    AfterBoth(OpenItems(ActionReads(wb)), SplitItems(wb.splits), sales, m);
    at := |OpenItems(ActionReads(wb))| + |wb.splits| + m;
  }

  /** And so is every sale with a price. */
  lemma {:induction false} SaleIsFiled(wb: Legacy, k: nat) returns (i: nat)
    requires k < |wb.sales| && ParseDollars(wb.sales[k].price).Some?
    ensures i < |ReconstructedLedger(wb)| && ReconstructedLedger(wb)[i].seqNo == i + 1
    ensures FromSale(wb, wb.sales[k], ReconstructedLedger(wb)[i])
  {
    var at := SaleItemAt(wb, k);
    SaleFiled(wb, wb.sales[k]);
    i := ItemIsFiled(Items(wb), at);
  }

  // --- Nothing else is filed, and the rest is listed. ---

  predicate Files(a: ActionRow) {
    ParseDollars(a.price).Some? && (a.isVest ==> ParseDollars(a.price).value > 0)
  }

  function FiledOpens(): ActionRow -> int {
    (a: ActionRow) => if Files(a) then 1 else 0
  }

  function FiledSales(): LegacySale -> int {
    (s: LegacySale) => if ParseDollars(s.price).Some? then 1 else 0
  }

  lemma {:induction false} OpensCount(wb: Legacy, n: nat)
    requires n <= |wb.actions|
    ensures |OpenItems(ActionReads(wb)[..n])| == Total(wb.actions[..n], FiledOpens())
  {
    if n > 0 {
      OpensCount(wb, n - 1);
      assert ActionReads(wb)[..n][..n - 1] == ActionReads(wb)[..n - 1];
      TotalLast(wb.actions[..n], FiledOpens());
      assert wb.actions[..n][..n - 1] == wb.actions[..n - 1];
      assert ReadAction(wb, wb.actions[n - 1]).Opens? <==> Files(wb.actions[n - 1]);
    }
  }

  lemma {:induction false} SalesCount(wb: Legacy, n: nat)
    requires n <= |wb.sales|
    ensures |Readable(SaleReads(wb)[..n])| == Total(wb.sales[..n], FiledSales())
  {
    if n > 0 {
      SalesCount(wb, n - 1);
      assert SaleReads(wb)[..n][..n - 1] == SaleReads(wb)[..n - 1];
      TotalLast(wb.sales[..n], FiledSales());
      assert wb.sales[..n][..n - 1] == wb.sales[..n - 1];
    }
  }

  lemma TotalLast<T>(s: seq<T>, f: T -> int)
    requires s != []
    ensures Total(s, f) == Total(s[..|s| - 1], f) + f(s[|s| - 1])
  {
    var n := |s| - 1;
    TotalAppend(s[..n], [s[n]], f);
    assert s == s[..n] + [s[n]] && [s[n]][1..] == [];
  }

  /** The ledger has one event per row that reads, and no more. */
  lemma {:induction false} OneEventPerRow(wb: Legacy)
    ensures |ReconstructedLedger(wb)|
         == Total(wb.actions, FiledOpens()) + |wb.splits| + Total(wb.sales, FiledSales())
  {
    OpensCount(wb, |wb.actions|);
    SalesCount(wb, |wb.sales|);
    assert ActionReads(wb)[..|wb.actions|] == ActionReads(wb) && wb.actions[..|wb.actions|] == wb.actions;
    assert SaleReads(wb)[..|wb.sales|] == SaleReads(wb) && wb.sales[..|wb.sales|] == wb.sales;
  }

  lemma {:induction false} BadActionsAre(rows: seq<ActionRead>, place: int)
    ensures place in BadActions(rows) <==> Malformed(place) in rows
  {
    if rows != [] {
      var n := |rows| - 1;
      BadActionsAre(rows[..n], place);
      assert rows == rows[..n] + [rows[n]];
    }
  }

  lemma {:induction false} BadSalesAre(rows: seq<(int, Option<SaleRow>)>, place: int)
    ensures place in BadSales(rows) <==> (place, None) in rows
  {
    if rows != [] {
      var n := |rows| - 1;
      BadSalesAre(rows[..n], place);
      assert rows == rows[..n] + [rows[n]];
    }
  }

  ghost predicate BuyHasNoPrice(wb: Legacy, place: int) {
    exists k :: 0 <= k < |wb.actions| && wb.actions[k].place == place
      && !wb.actions[k].isVest && ParseDollars(wb.actions[k].price).None?
  }

  ghost predicate SaleHasNoPrice(wb: Legacy, place: int) {
    exists k :: 0 <= k < |wb.sales| && wb.sales[k].place == place && ParseDollars(wb.sales[k].price).None?
  }

  lemma MalformedBuys(wb: Legacy, place: int)
    ensures place in BadActions(ActionReads(wb)) <==> BuyHasNoPrice(wb, place)
  {
    var rows := ActionReads(wb);
    BadActionsAre(rows, place);
    if BuyHasNoPrice(wb, place) {
      var k :| 0 <= k < |wb.actions| && wb.actions[k].place == place
        && !wb.actions[k].isVest && ParseDollars(wb.actions[k].price).None?;
      assert rows[k] == Malformed(place);
    }
  }

  lemma MalformedSales(wb: Legacy, place: int)
    ensures place in BadSales(SaleReads(wb)) <==> SaleHasNoPrice(wb, place)
  {
    var rows := SaleReads(wb);
    BadSalesAre(rows, place);
    if SaleHasNoPrice(wb, place) {
      var k :| 0 <= k < |wb.sales| && wb.sales[k].place == place && ParseDollars(wb.sales[k].price).None?;
      assert rows[k] == (place, None);
    }
  }

  /** The reconstruction succeeds exactly if every vest has a positive price. */
  lemma {:induction false} PricedIff(wb: Legacy)
    ensures EveryVestPriced(wb) <==> forall k :: 0 <= k < |wb.actions| && wb.actions[k].isVest ==> Files(wb.actions[k])
  {
    forall k | 0 <= k < |wb.actions|
      ensures ActionReads(wb)[k].NoVestPrice? <==> wb.actions[k].isVest && !Files(wb.actions[k])
    {
    }
  }

  /** It lists as malformed exactly the places of the buys and sales whose price does not read. */
  lemma {:induction false} MalformedIff(wb: Legacy, place: int)
    ensures place in BadActions(ActionReads(wb)) + BadSales(SaleReads(wb))
       <==> BuyHasNoPrice(wb, place) || SaleHasNoPrice(wb, place)
  {
    MalformedBuys(wb, place);
    MalformedSales(wb, place);
  }
}
