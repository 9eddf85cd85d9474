/** What each event does to the book and when it is accepted, said of shares, cents and lots. A
    share is a million micro-shares, and amounts are stored up to 2 to the 40th cents. */
module Effects {
  import opened Basics
  import opened Rounding
  import opened Keys
  import opened Apportion
  import opened Ledger
  import opened Selection
  import opened Conservation
  import opened Dominance
  import opened Permutation
  import opened Sales

  predicate InCap(v: int) {
    -0x100_0000_0000 <= v <= 0x100_0000_0000
  }

  /** The amount is what so many micro-shares come to at so many cents a share, to the nearest
      cent, a tie going to the even one. */
  ghost predicate Worth(qty: int, price: int, amount: int) {
    IsRounded(qty * price, 1_000_000, amount)
  }

  lemma WorthIs(qty: int, price: int, amount: int)
    requires Worth(qty, price, amount)
    ensures Scale(qty * price) == amount
  {
    RoundUnique(qty * price, 1_000_000, amount);
  }

  predicate NamesLot(lots: seq<Lot>, id: string) {
    exists i :: 0 <= i < |lots| && lots[i].id == id
  }

  // --- Opening a lot. ---

  /** One open lot more, its symbol seen, and nothing else. */
  predicate Opens(b: Book, after: Book, l: Lot) {
    && after.lots == b.lots + [l] && !l.closed && after.symbolsSeen == b.symbolsSeen + {l.symbol}
    && after.gains == b.gains && after.dependedOn == b.dependedOn
  }

  /** The lot is the event's: its day, its number and its name. */
  predicate OpenedBy(l: Lot, e: Event) {
    l.acquireDate == e.date && l.openSeq == e.seqNo && l.openEvent == e.id
  }

  /** A buy is accepted if it buys something under a new lot name and neither its price nor its
      price and fees pass the cap, and opens a lot at price and fees. */
  lemma {:induction false} BuyOpens(b: Book, e: Event, gross: int)
    requires e.kind.Buy? && Worth(e.kind.qty, e.kind.unitPrice, gross)
    ensures
      var (k, after, o) := (e.kind, ApplyEvent(b, e).0, ApplyEvent(b, e).1);
      && (o.Accepted? <==>
            k.qty > 0 && !NamesLot(b.lots, k.lotId) && InCap(gross) && InCap(gross + k.fees))
      && (o.Rejected? ==> after == b)
      && (o == Rejected(NonPositiveQty) <==> k.qty <= 0)
      && (o == Rejected(DuplicateLotId) <==> k.qty > 0 && NamesLot(b.lots, k.lotId))
      && (o.Rejected? ==> o.error in {NonPositiveQty, DuplicateLotId, AmountOutOfRange})
      && (o.Accepted? ==>
            var l := after.lots[|after.lots| - 1];
            && Opens(b, after, l) && OpenedBy(l, e) && l.source == FromBuy
            && l.id == k.lotId && l.symbol == k.symbol && l.qty == k.qty && l.basis == gross + k.fees
            && l.platform == k.platform && l.trackingCode == k.trackingCode)
  {
    WorthIs(e.kind.qty, e.kind.unitPrice, gross);
  }

  /** A vest opens one at the vested value. */
  lemma {:induction false} VestOpens(b: Book, e: Event, gross: int)
    requires e.kind.Vest? && Worth(e.kind.qty, e.kind.fmv, gross)
    ensures
      var (k, after, o) := (e.kind, ApplyEvent(b, e).0, ApplyEvent(b, e).1);
      && (o.Accepted? <==> k.qty > 0 && !NamesLot(b.lots, k.lotId) && InCap(gross))
      && (o.Rejected? ==> after == b)
      && (o == Rejected(NonPositiveQty) <==> k.qty <= 0)
      && (o == Rejected(DuplicateLotId) <==> k.qty > 0 && NamesLot(b.lots, k.lotId))
      && (o.Rejected? ==> o.error in {NonPositiveQty, DuplicateLotId, AmountOutOfRange})
      && (o.Accepted? ==>
            var l := after.lots[|after.lots| - 1];
            && Opens(b, after, l) && OpenedBy(l, e) && l.source == FromVest
            && l.id == k.lotId && l.symbol == k.symbol && l.qty == k.qty && l.basis == gross
            && l.platform == k.platform && l.trackingCode == k.trackingCode)
  {
    WorthIs(e.kind.qty, e.kind.fmv, gross);
  }

  // --- Selling. ---

  /** A sale is accepted if it sells something, finds its shares, and neither its price nor its
      price less fees passes the cap; it is rejected for the first of these that fails. */
  lemma {:induction false} SaleAccepted(b: Book, e: Event, gross: int)
    requires e.kind.Sell? && Worth(e.kind.qty, e.kind.unitPrice, gross)
    ensures
      var (k, after, o) := (e.kind, ApplyEvent(b, e).0, ApplyEvent(b, e).1);
      var found := SelectLots(b.lots, k.symbol, k.qty, k.lotRefs, k.platform);
      && (o.Accepted? <==> k.qty > 0 && found.Success? && InCap(gross) && InCap(gross - k.fees))
      && (o.Rejected? ==> after == b)
      && (k.qty <= 0 ==> o == Rejected(NonPositiveQty))
      && (k.qty > 0 && found.Failure? ==> o == Rejected(found.error))
      && (k.qty > 0 && found.Success? && o.Rejected? ==> o.error == AmountOutOfRange)
  {
    WorthIs(e.kind.qty, e.kind.unitPrice, gross);
  }

  /** The part of the net that falls to so many of the shares, rounded down or up. */
  predicate PartOf(net: int, part: int, whole: int, share: int)
    requires whole > 0
  {
    share == net * part / whole || share == net * part / whole + 1
  }

  /** What leaves the lot as basis: all of it with the last share, else the part of it that the
      shares sold are, to the nearest cent. */
  ghost predicate BasisLeaves(l: Lot, after: Lot) {
    if after.qty == 0 then after.basis == 0 && after.closed
    else 0 < l.qty && IsRounded(l.basis * (l.qty - after.qty), l.qty, l.basis - after.basis) && after.closed == l.closed
  }

  lemma SoldLeaves(l: Lot, c: int)
    requires 0 < c <= l.qty
    ensures BasisLeaves(l, Sold(l, c)) && Sold(l, c).qty == l.qty - c
    ensures Sold(l, c) == l.(qty := Sold(l, c).qty, basis := Sold(l, c).basis, closed := Sold(l, c).closed)
  {
  }

  /** The gain is of the lot and the sale: its part of the net, what left the lot as basis, and
      nothing else of the lot is changed. */
  ghost predicate GainIs(g: Gain, e: Event, net: int, l: Lot, after: Lot)
    requires e.kind.Sell? && e.kind.qty > 0
  {
    && RecordsSale(g, e, l, after) && BasisLeaves(l, after)
    && PartOf(net, l.qty - after.qty, e.kind.qty, g.proceeds)
    && after == l.(qty := after.qty, basis := after.basis, closed := after.closed)
  }

  lemma GainOfTakeIs(l: Lot, c: int, alloc: int, e: Event, net: int)
    requires e.kind.Sell? && e.kind.qty > 0 && 0 < c <= l.qty && PartOf(net, c, e.kind.qty, alloc)
    ensures GainIs(GainOf(l, c, alloc, e), e, net, l, Sold(l, c))
  {
    SoldLeaves(l, c);
    GainRecordsSale(l, c, alloc, e);
  }

  /** Each gain of an accepted sale is of one lot. */
  lemma {:induction false} SaleGainIs(b: Book, e: Event, gross: int, k: nat) returns (i: nat)
    requires e.kind.Sell? && Worth(e.kind.qty, e.kind.unitPrice, gross)
    requires ApplyEvent(b, e).1.Accepted? && k < |SaleGains(b, e)|
    ensures |ApplyEvent(b, e).0.lots| == |b.lots| && i < |b.lots| && e.kind.qty > 0
    ensures GainIs(SaleGains(b, e)[k], e, gross - e.kind.fees, b.lots[i], ApplyEvent(b, e).0.lots[i])
  {
    var net, plan := gross - e.kind.fees, SalePlan(b, e);
    assert Net(e) == net by { WorthIs(e.kind.qty, e.kind.unitPrice, gross); }
    var c;
    i, c := GainOfSale(b, e, k);
    var alloc := Proceeds(b.lots, plan, net, e.kind.qty)[k];
    assert PartOf(net, c, e.kind.qty, alloc) by { ProceedsExact(b.lots, plan, net, e.kind.qty); }
    GainOfTakeIs(b.lots[i], c, alloc, e, net);
  }

  /** Opening events a sale marks as depended on: those of the lots it takes from. */
  lemma {:induction false} SaleMarks(b: Book, e: Event, x: string)
    requires SoundLots(b.lots) && e.kind.Sell? && ApplyEvent(b, e).1.Accepted?
    ensures
      var after := ApplyEvent(b, e).0;
      && |after.lots| == |b.lots| && after.symbolsSeen == b.symbolsSeen
      && (x in after.dependedOn <==> x in b.dependedOn || TakenFrom(b.lots, after.lots, x))
  {
    var plan := SalePlan(b, e);
    SelectedFeasible(b.lots, e.kind.symbol, e.kind.qty, e.kind.lotRefs, e.kind.platform);
    SaleQuantities(b, e);
    PlanMarks(b, plan, Proceeds(b.lots, plan, Net(e), e.kind.qty), e, x);
    PlanTakes(b.lots, ApplyEvent(b, e).0.lots, plan, x);
  }

  /** Some lot the event opened has fewer shares than before. */
  predicate TakenFrom(lots: seq<Lot>, after: seq<Lot>, x: string)
    requires |after| == |lots|
  {
    exists i :: 0 <= i < |lots| && lots[i].openEvent == x && after[i].qty < lots[i].qty
  }

  predicate PlanNames(lots: seq<Lot>, plan: Plan, x: string) {
    exists k :: 0 <= k < |plan| && plan[k].idx < |lots| && lots[plan[k].idx].openEvent == x
  }

  lemma PlanTakes(lots: seq<Lot>, after: seq<Lot>, plan: Plan, x: string)
    requires Feasible(lots, plan) && |after| == |lots|
    requires forall i :: 0 <= i < |lots| ==> after[i].qty == lots[i].qty - Taken(plan, i)
    ensures TakenFrom(lots, after, x) <==> PlanNames(lots, plan, x)
  {
    if k :| 0 <= k < |plan| && lots[plan[k].idx].openEvent == x { TakenOne(plan, k); }
    if i :| 0 <= i < |lots| && lots[i].openEvent == x && after[i].qty < lots[i].qty {
      if forall k :: 0 <= k < |plan| ==> plan[k].idx != i { TakenNone(plan, i); }
    }
  }

  lemma {:induction false} PlanMarks(b: Book, plan: Plan, proceeds: seq<int>, e: Event, x: string)
    requires e.kind.Sell? && |proceeds| == |plan| && Feasible(b.lots, plan)
    ensures
      var after := ConsumePlan(b, plan, proceeds, e);
      && after.symbolsSeen == b.symbolsSeen
      && (x in after.dependedOn <==> x in b.dependedOn || PlanNames(b.lots, plan, x))
    decreases |plan|
  {
    if plan != [] {
      var b' := ConsumeTake(b, plan[0], proceeds[0], e);
      FeasibleTail(b, plan, proceeds[0], e);
      PlanMarks(b', plan[1..], proceeds[1..], e, x);
      NamesHeadOrTail(b, b', plan, x);
    }
  }

  lemma NamesHeadOrTail(b: Book, b': Book, plan: Plan, x: string)
    requires plan != [] && Feasible(b.lots, plan) && SameLots(b.lots, b'.lots)
    ensures PlanNames(b.lots, plan, x) <==> b.lots[plan[0].idx].openEvent == x || PlanNames(b'.lots, plan[1..], x)
  {
    if k :| 0 <= k < |plan| && plan[k].idx < |b.lots| && b.lots[plan[k].idx].openEvent == x {
      if k > 0 { assert plan[1..][k - 1] == plan[k]; }
    }
    if k :| 0 <= k < |plan| - 1 && plan[1..][k].idx < |b'.lots| && b'.lots[plan[1..][k].idx].openEvent == x {
      assert plan[k + 1] == plan[1..][k];
    }
  }

  // --- Splitting. ---

  /** An open lot of the symbol with shares. */
  predicate HasShares(l: Lot, symbol: string) {
    !l.closed && l.symbol == symbol && l.qty != 0
  }

  /** The lot has shares, and more of them after the split than can be stored. */
  ghost predicate Overflows(l: Lot, e: Event)
    requires e.kind.Split? && e.kind.den >= 1
  {
    HasShares(l, e.kind.symbol)
    && exists q :: IsRounded(l.qty * e.kind.num, e.kind.den, q) && !InCap(q)
  }

  /** Every lot before this one and itself can be rescaled. */
  ghost predicate Reached(lots: seq<Lot>, e: Event, i: nat)
    requires e.kind.Split? && e.kind.den >= 1 && i < |lots|
  {
    forall j :: 0 <= j <= i ==> !Overflows(lots[j], e)
  }

  lemma OverflowsIs(l: Lot, e: Event)
    requires e.kind.Split? && e.kind.den >= 1
    ensures Overflows(l, e) <==> OverCap(l, e.kind.symbol, e.kind.num, e.kind.den)
  {
    var q := Rescaled(l.qty, e.kind.num, e.kind.den);
    forall x | IsRounded(l.qty * e.kind.num, e.kind.den, x) ensures x == q {
      RoundUnique(l.qty * e.kind.num, e.kind.den, x);
    }
  }

  /** A split with a ratio of positive numbers is accepted exactly if no lot overflows. It gives
      every lot with shares, up to the first that would overflow, its shares times the ratio, to
      the nearest micro-share, marks the events that opened those, and changes nothing else. */
  lemma {:induction false} SplitRescales(b: Book, e: Event, i: nat)
    requires e.kind.Split? && e.kind.num >= 1 && e.kind.den >= 1 && i < |b.lots|
    ensures
      var (after, o) := ApplyEvent(b, e);
      && |after.lots| == |b.lots| && after.gains == b.gains && after.symbolsSeen == b.symbolsSeen
      && (o.Accepted? <==> forall j :: 0 <= j < |b.lots| ==> !Overflows(b.lots[j], e))
      && (o.Rejected? ==> o.error == AmountOutOfRange)
      && if HasShares(b.lots[i], e.kind.symbol) && Reached(b.lots, e, i) then
           && after.lots[i] == b.lots[i].(qty := after.lots[i].qty)
           && IsRounded(b.lots[i].qty * e.kind.num, e.kind.den, after.lots[i].qty)
           && b.lots[i].openEvent in after.dependedOn
         else after.lots[i] == b.lots[i]
  {
    var k := e.kind;
    SplitLotsAt(b.lots, k.symbol, k.num, k.den);
    forall j | 0 <= j < |b.lots| ensures Overflows(b.lots[j], e) <==> OverCap(b.lots[j], k.symbol, k.num, k.den) {
      OverflowsIs(b.lots[j], e);
    }
    SplitReaches(b.lots, k.symbol, k.num, k.den, i);
  }

  lemma {:induction false} SplitReaches(lots: seq<Lot>, symbol: string, num: int, den: int, i: nat)
    requires den >= 1 && i < |lots|
    ensures
      var (r, deps, ok) := SplitLots(lots, symbol, num, den);
      if !SplitSkips(lots[i], symbol) && forall j :: 0 <= j <= i ==> !OverCap(lots[j], symbol, num, den) then
        r[i] == lots[i].(qty := Rescaled(lots[i].qty, num, den)) && lots[i].openEvent in deps
      else r[i] == lots[i]
  {
    var rest := lots[1..];
    if OverCap(lots[0], symbol, num, den) {
    } else if i > 0 {
      SplitReaches(rest, symbol, num, den, i - 1);
      assert forall j :: 0 <= j < |rest| ==> rest[j] == lots[j + 1];
      if forall j :: 0 <= j <= i - 1 ==> !OverCap(rest[j], symbol, num, den) {
        forall j | 0 <= j <= i ensures !OverCap(lots[j], symbol, num, den) {
          if j > 0 { assert lots[j] == rest[j - 1]; }
        }
      }
    }
  }

  /** And no others are marked. */
  lemma {:induction false} SplitMarks(b: Book, e: Event, x: string)
    requires e.kind.Split? && e.kind.num >= 1 && e.kind.den >= 1
    ensures x in ApplyEvent(b, e).0.dependedOn <==> x in b.dependedOn || RescaledFrom(b.lots, e, x)
  {
    var k := e.kind;
    forall j | 0 <= j < |b.lots| ensures Overflows(b.lots[j], e) <==> OverCap(b.lots[j], k.symbol, k.num, k.den) {
      OverflowsIs(b.lots[j], e);
    }
    SplitMarksOnly(b.lots, k.symbol, k.num, k.den, x);
    if i :| 0 <= i < |b.lots| && b.lots[i].openEvent == x && HasShares(b.lots[i], k.symbol) && Reached(b.lots, e, i) {
      SplitReaches(b.lots, k.symbol, k.num, k.den, i);
    }
  }

  ghost predicate RescaledFrom(lots: seq<Lot>, e: Event, x: string)
    requires e.kind.Split? && e.kind.den >= 1
  {
    exists i :: 0 <= i < |lots| && lots[i].openEvent == x && HasShares(lots[i], e.kind.symbol) && Reached(lots, e, i)
  }

  lemma {:induction false} SplitMarksOnly(lots: seq<Lot>, symbol: string, num: int, den: int, x: string)
    requires den >= 1
    ensures x in SplitLots(lots, symbol, num, den).1 ==>
      exists i :: 0 <= i < |lots| && lots[i].openEvent == x && !SplitSkips(lots[i], symbol)
        && forall j :: 0 <= j <= i ==> !OverCap(lots[j], symbol, num, den)
  {
    if x in SplitLots(lots, symbol, num, den).1 {
      var rest := lots[1..];
      assert forall j :: 0 <= j < |rest| ==> rest[j] == lots[j + 1];
      if !SplitSkips(lots[0], symbol) && lots[0].openEvent == x {
        assert forall j :: 0 <= j <= 0 ==> !OverCap(lots[j], symbol, num, den);
      } else {
        SplitMarksOnly(rest, symbol, num, den, x);
        var i :| 0 <= i < |rest| && rest[i].openEvent == x && !SplitSkips(rest[i], symbol)
          && forall j :: 0 <= j <= i ==> !OverCap(rest[j], symbol, num, den);
        assert lots[i + 1] == rest[i];
        forall j | 0 <= j <= i + 1 ensures !OverCap(lots[j], symbol, num, den) {
          if j > 0 { assert lots[j] == rest[j - 1]; }
        }
      }
    }
  }

  /** Any other ratio is rejected and changes nothing; a reversal is not applied at all. */
  lemma {:induction false} OtherwiseNothing(b: Book, e: Event)
    requires e.kind.Reversal? || (e.kind.Split? && (e.kind.num < 1 || e.kind.den < 1))
    ensures ApplyEvent(b, e).0 == b
    ensures ApplyEvent(b, e).1 == if e.kind.Split? then Rejected(BadSplitRatio) else Accepted
  {
  }

  // --- What survives. ---

  predicate IsReversed(events: seq<Event>, id: string) {
    exists i :: 0 <= i < |events| && events[i].kind == Reversal(id)
  }

  /** The survivors are the events that are no reversals and have not been reversed, each as often
      as in the log, by number. */
  lemma {:induction false} SurvivorsAre(events: seq<Event>, e: Event)
    ensures multiset(Surviving(events))[e]
         == if e.kind.Reversal? || IsReversed(events, e.id) then 0 else multiset(events)[e]
    ensures ByNumber(Surviving(events))
  {
    var reversed := ReversedTargets(events);
    KeptAre(events, reversed, e);
    SortedAre(Unreversed(events, reversed));
    if i :| 0 <= i < |events| && events[i].kind.Reversal? && events[i].kind.target == e.id {
      assert events[i].kind == Reversal(e.id);
    }
  }

  lemma {:induction false} KeptAre(events: seq<Event>, reversed: set<string>, e: Event)
    ensures multiset(Unreversed(events, reversed))[e]
         == if e.kind.Reversal? || e.id in reversed then 0 else multiset(events)[e]
  {
    if events != [] {
      KeptAre(events[1..], reversed, e);
      assert events == [events[0]] + events[1..];
    }
  }

  lemma {:induction false} InsertedAre(e: Event, s: seq<Event>)
    ensures multiset(InsertBySeq(e, s)) == multiset{e} + multiset(s)
  {
    if s != [] && s[0].seqNo < e.seqNo {
      InsertedAre(e, s[1..]);
      assert s == [s[0]] + s[1..];
    }
  }

  ghost predicate ByNumber(s: seq<Event>) {
    forall i, j :: 0 <= i < j < |s| ==> s[i].seqNo <= s[j].seqNo
  }

  lemma LeastFirst(e: Event, s: seq<Event>)
    requires ByNumber(s) && forall x :: x in s ==> e.seqNo <= x.seqNo
    ensures ByNumber([e] + s)
  {
  }

  lemma {:induction false} InsertedByNumber(e: Event, s: seq<Event>)
    requires ByNumber(s)
    ensures ByNumber(InsertBySeq(e, s))
  {
    if s != [] && s[0].seqNo < e.seqNo {
      InsertedByNumber(e, s[1..]);
      InsertedAre(e, s[1..]);
      forall x | x in InsertBySeq(e, s[1..]) ensures s[0].seqNo <= x.seqNo {
        assert x in multiset(InsertBySeq(e, s[1..]));
      }
      LeastFirst(s[0], InsertBySeq(e, s[1..]));
    } else {
      LeastFirst(e, s);
    }
  }

  lemma {:induction false} SortedAre(s: seq<Event>)
    ensures multiset(SortBySeq(s)) == multiset(s) && ByNumber(SortBySeq(s))
  {
    if s != [] {
      SortedAre(s[1..]);
      InsertedAre(s[0], SortBySeq(s[1..]));
      InsertedByNumber(s[0], SortBySeq(s[1..]));
      assert s == [s[0]] + s[1..];
    }
  }

  // --- What can be reversed. ---

  /** The event takes shares from a lot that `x` opened, or rescales one. */
  ghost predicate Touches(b: Book, e: Event, x: string) {
    match e.kind
    case Sell(_, _, _, _, _, _, _, _, _) =>
      ApplyEvent(b, e).1.Accepted? && |ApplyEvent(b, e).0.lots| == |b.lots|
      && TakenFrom(b.lots, ApplyEvent(b, e).0.lots, x)
    case Split(_, num, den) => num >= 1 && den >= 1 && RescaledFrom(b.lots, e, x)
    case _ => false
  }

  lemma TouchedNow(b: Book, e: Event, x: string)
    requires SoundLots(b.lots)
    ensures x in ApplyEvent(b, e).0.dependedOn <==> x in b.dependedOn || Touches(b, e, x)
  {
    match e.kind
    case Sell(_, _, _, _, _, _, _, _, _) => if ApplyEvent(b, e).1.Accepted? { SaleMarks(b, e, x); }
    case Split(_, num, den) => if num >= 1 && den >= 1 { SplitMarks(b, e, x); }
    case _ =>
  }

  /** What a run depends on: the openings of the lots some event of it took from or rescaled. */
  lemma {:induction false} DependedOnIff(b: Book, events: seq<Event>, x: string)
    requires SoundLots(b.lots)
    ensures x in Fold(b, events).dependedOn <==>
      x in b.dependedOn || exists k :: 0 <= k < |events| && Touches(Fold(b, events[..k]), events[k], x)
    decreases |events|
  {
    if events != [] {
      var b', rest := ApplyEvent(b, events[0]).0, events[1..];
      TouchedNow(b, events[0], x);
      EventSound(b, events[0]);
      DependedOnIff(b', rest, x);
      forall k | 0 <= k < |rest| ensures Fold(b', rest[..k]) == Fold(b, events[..k + 1]) {
        assert events[..k + 1][0] == events[0] && events[..k + 1][1..] == rest[..k];
      }
      if Touches(b, events[0], x) { assert Fold(b, events[..0]) == b; }
      if k :| 0 <= k < |rest| && Touches(Fold(b', rest[..k]), rest[k], x) {
        assert Touches(Fold(b, events[..k + 1]), events[k + 1], x);
      }
      if k :| 0 <= k < |events| && Touches(Fold(b, events[..k]), events[k], x) {
        if k > 0 { assert Touches(Fold(b', rest[..k - 1]), rest[k - 1], x); }
      }
    }
  }

  /** A reversal is accepted if its target is in the log, is not reversed yet, and no event that
      survives took shares from a lot it opened or rescaled one. */
  lemma {:induction false} ReversalAccepted(events: seq<Event>, c: Event)
    requires c.kind.Reversal?
    ensures
      var (x, kept) := (c.kind.target, Surviving(events));
      Validate(events, c) ==
        if (exists i :: 0 <= i < |events| && events[i].id == x) && !IsReversed(events, x)
           && !exists k :: 0 <= k < |kept| && Touches(Fold(EMPTY_BOOK, kept[..k]), kept[k], x)
        then Accepted else Rejected(BadReversal)
  {
    var x := c.kind.target;
    DependedOnIff(EMPTY_BOOK, Surviving(events), x);
    if i :| 0 <= i < |events| && events[i].kind.Reversal? && events[i].kind.target == x {
      assert events[i].kind == Reversal(x);
    }
  }
}
