/** Replaying without an opening nobody depends on: every other lot, every gain and every
    dependency comes out the same. */
module Removal {
  import opened Basics
  import opened Rounding
  import opened Keys
  import opened Apportion
  import opened Ledger
  import opened Selection
  import opened Dominance

  function Cut<T>(s: seq<T>, p: nat): (r: seq<T>)
    requires p < |s|
    ensures |r| == |s| - 1
  {
    s[..p] + s[p + 1..]
  }

  lemma CutAt<T>(s: seq<T>, p: nat, i: nat)
    requires p < |s| && i < |s| && i != p
    ensures Shifted(i, p) < |Cut(s, p)| && Cut(s, p)[Shifted(i, p)] == s[i]
  {
  }

  /** `b` is `a` without the lot at position `p`. */
  ghost predicate LacksLot(a: Book, b: Book, p: nat) {
    && p < |a.lots|
    && b.lots == Cut(a.lots, p)
    && b.gains == a.gains
    && b.dependedOn == a.dependedOn
  }

  function ShiftPlan(plan: Plan, p: nat): (r: Plan)
    ensures |r| == |plan|
    ensures forall k :: 0 <= k < |plan| ==> r[k] == Take(Shifted(plan[k].idx, p), plan[k].qty)
  {
    if plan == [] then [] else [Take(Shifted(plan[0].idx, p), plan[0].qty)] + ShiftPlan(plan[1..], p)
  }

  lemma {:induction false} ShiftPlanQty(plan: Plan, p: nat)
    ensures PlanQty(ShiftPlan(plan, p)) == PlanQty(plan)
  {
    if plan != [] {
      ShiftPlanQty(plan[1..], p);
      assert ShiftPlan(plan, p)[1..] == ShiftPlan(plan[1..], p);
    }
  }

  lemma FindLotIs(lots: seq<Lot>, id: string, i: nat)
    requires i < |lots| && lots[i].id == id
    requires forall j :: 0 <= j < i ==> lots[j].id != id
    ensures FindLot(lots, id) == Some(i)
  {
  }

  lemma FindLotCut(lots: seq<Lot>, p: nat, id: string)
    requires p < |lots|
    requires FindLot(lots, id) != Some(p)
    ensures FindLot(lots, id).None? ==> FindLot(Cut(lots, p), id).None?
    ensures FindLot(lots, id).Some? ==> FindLot(Cut(lots, p), id) == Some(Shifted(FindLot(lots, id).value, p))
  {
    var cut := Cut(lots, p);
    match FindLot(lots, id)
    case None =>
      forall i | 0 <= i < |cut| ensures cut[i].id != id {
        assert cut[i] == lots[if i < p then i else i + 1];
      }
    case Some(f) =>
      var at := Shifted(f, p);
      CutAt(lots, p, f);
      forall i | 0 <= i < at ensures cut[i].id != id {
        assert cut[i] == lots[if i < p then i else i + 1];
      }
      FindLotIs(cut, id, at);
  }

  lemma CheckRefCut(lots: seq<Lot>, p: nat, symbol: string, platform: string, seen: set<string>, r: LotRef)
    requires p < |lots|
    requires CheckRef(lots, symbol, platform, seen, r).Success?
    requires CheckRef(lots, symbol, platform, seen, r).value.idx != p
    ensures CheckRef(Cut(lots, p), symbol, platform, seen, r)
         == Success(Take(Shifted(CheckRef(lots, symbol, platform, seen, r).value.idx, p), r.qty))
  {
    FindLotCut(lots, p, r.lotId);
    CutAt(lots, p, FindLot(lots, r.lotId).value);
  }

  lemma {:induction false} DesignatedCut(lots: seq<Lot>, p: nat, symbol: string, platform: string, seen: set<string>,
                                         refs: seq<LotRef>)
    requires p < |lots|
    requires DesignatedPlan(lots, symbol, platform, seen, refs).Success?
    requires forall k :: 0 <= k < |DesignatedPlan(lots, symbol, platform, seen, refs).value| ==>
               DesignatedPlan(lots, symbol, platform, seen, refs).value[k].idx != p
    ensures DesignatedPlan(Cut(lots, p), symbol, platform, seen, refs)
         == Success(ShiftPlan(DesignatedPlan(lots, symbol, platform, seen, refs).value, p))
    decreases |refs|
  {
    if refs != [] {
      var plan := DesignatedPlan(lots, symbol, platform, seen, refs).value;
      var rest := DesignatedPlan(lots, symbol, platform, seen + {refs[0].lotId}, refs[1..]).value;
      assert plan == [plan[0]] + rest;
      assert forall k :: 0 <= k < |rest| ==> rest[k] == plan[k + 1];
      assert plan[0].idx != p;
      CheckRefCut(lots, p, symbol, platform, seen, refs[0]);
      DesignatedCut(lots, p, symbol, platform, seen + {refs[0].lotId}, refs[1..]);
      assert plan[1..] == rest;
    }
  }

  ghost function OtherThan(n: nat, p: nat): set<nat> {
    UpTo(n) - {p}
  }

  lemma KeepHead(head: seq<Key>, rest: seq<Key>, keep: set<nat>)
    requires |head| <= 1
    ensures Keep(head + rest, keep) == (if head != [] && head[0].idx in keep then head else []) + Keep(rest, keep)
  {
    if head == [] {
      assert head + rest == rest;
      assert [] + Keep(rest, keep) == Keep(rest, keep);
    } else {
      assert (head + rest)[1..] == rest;
      assert head == [head[0]];
      assert [] + Keep(rest, keep) == Keep(rest, keep);
    }
  }

  lemma RenumberHead(head: seq<Key>, rest: seq<Key>, p: nat)
    requires |head| <= 1
    ensures Renumber(head + rest, p) == Renumber(head, p) + Renumber(rest, p)
  {
    if head == [] {
      assert head + rest == rest;
      assert [] + Renumber(rest, p) == Renumber(rest, p);
    } else {
      assert (head + rest)[1..] == rest;
      assert head[1..] == [];
    }
  }

  lemma FifoHeadCut(lots: seq<Lot>, p: nat, symbol: string, platform: string, i: nat)
    requires p < |lots| && i < |lots| && i != p
    ensures FifoHead(Cut(lots, p), symbol, platform, Shifted(i, p)) == Renumber(FifoHead(lots, symbol, platform, i), p)
  {
    if Eligible(lots[i], symbol, platform) {
      assert Renumber([FifoKey(lots, i)], p) == [FifoKey(lots, i).(idx := Shifted(i, p))];
    }
  }

  lemma KeepRenumberHead(head: seq<Key>, rest: seq<Key>, keep: set<nat>, p: nat)
    requires |head| <= 1
    ensures head != [] && head[0].idx !in keep ==> Renumber(Keep(head + rest, keep), p) == Renumber(Keep(rest, keep), p)
    ensures head == [] || head[0].idx in keep ==>
      Renumber(Keep(head + rest, keep), p) == Renumber(head, p) + Renumber(Keep(rest, keep), p)
  {
    KeepHead(head, rest, keep);
    var kept := Keep(rest, keep);
    assert [] + kept == kept;
    RenumberHead(head, kept, p);
    assert [] + Renumber(kept, p) == Renumber(kept, p);
  }

  /** The keys of the cut lots, from position `from` of the uncut ones. */
  ghost predicate CutKeysFrom(lots: seq<Lot>, p: nat, symbol: string, platform: string, from: nat)
    requires p < |lots| && from <= |lots|
  {
    FifoKeys(Cut(lots, p), symbol, platform, Shifted(from, p))
      == Renumber(Keep(FifoKeys(lots, symbol, platform, from), OtherThan(|lots|, p)), p)
  }

  lemma FifoKeysCutHere(lots: seq<Lot>, p: nat, symbol: string, platform: string)
    requires p < |lots|
    requires CutKeysFrom(lots, p, symbol, platform, p + 1)
    ensures CutKeysFrom(lots, p, symbol, platform, p)
  {
    var head, rest := FifoHead(lots, symbol, platform, p), FifoKeys(lots, symbol, platform, p + 1);
    KeepRenumberHead(head, rest, OtherThan(|lots|, p), p);
    assert Shifted(p + 1, p) == Shifted(p, p);
    assert head == [] ==> head + rest == rest;
  }

  lemma FifoKeysUnfold(lots: seq<Lot>, symbol: string, platform: string, i: nat)
    requires i < |lots|
    ensures FifoKeys(lots, symbol, platform, i)
      == FifoHead(lots, symbol, platform, i) + FifoKeys(lots, symbol, platform, i + 1)
  {
  }

  lemma FifoKeysCutElsewhere(lots: seq<Lot>, p: nat, symbol: string, platform: string, from: nat)
    requires p < |lots| && from < |lots| && from != p
    requires CutKeysFrom(lots, p, symbol, platform, from + 1)
    ensures CutKeysFrom(lots, p, symbol, platform, from)
  {
    var head, rest := FifoHead(lots, symbol, platform, from), FifoKeys(lots, symbol, platform, from + 1);
    var at := Shifted(from, p);
    assert Shifted(from + 1, p) == at + 1;
    var keep := OtherThan(|lots|, p);
    var below := FifoKeys(Cut(lots, p), symbol, platform, at + 1);
    calc {
      FifoKeys(Cut(lots, p), symbol, platform, at);
    == { FifoKeysUnfold(Cut(lots, p), symbol, platform, at); }
      FifoHead(Cut(lots, p), symbol, platform, at) + below;
    == { FifoHeadCut(lots, p, symbol, platform, from); }
      Renumber(head, p) + below;
    == // the rest, already cut
      Renumber(head, p) + Renumber(Keep(rest, keep), p);
    == { assert head == [] || head[0].idx == from; KeepRenumberHead(head, rest, keep, p); }
      Renumber(Keep(head + rest, keep), p);
    == { FifoKeysUnfold(lots, symbol, platform, from); }
      Renumber(Keep(FifoKeys(lots, symbol, platform, from), keep), p);
    }
  }

  lemma FifoKeysCutStep(lots: seq<Lot>, p: nat, symbol: string, platform: string, from: nat)
    requires p < |lots| && from < |lots|
    requires CutKeysFrom(lots, p, symbol, platform, from + 1)
    ensures CutKeysFrom(lots, p, symbol, platform, from)
  {
    if from == p {
      FifoKeysCutHere(lots, p, symbol, platform);
    } else {
      FifoKeysCutElsewhere(lots, p, symbol, platform, from);
    }
  }

  lemma FifoKeysCutEnd(lots: seq<Lot>, p: nat, symbol: string, platform: string)
    requires p < |lots|
    ensures CutKeysFrom(lots, p, symbol, platform, |lots|)
  {
    var n := |Cut(lots, p)|;
    assert Shifted(|lots|, p) == n;
    assert FifoKeys(lots, symbol, platform, |lots|) == [];
  }

  lemma {:induction false} FifoKeysCut(lots: seq<Lot>, p: nat, symbol: string, platform: string, from: nat)
    requires p < |lots| && from <= |lots|
    ensures CutKeysFrom(lots, p, symbol, platform, from)
    decreases |lots| - from
  {
    if from < |lots| {
      FifoKeysCut(lots, p, symbol, platform, from + 1);
      FifoKeysCutStep(lots, p, symbol, platform, from);
    } else {
      FifoKeysCutEnd(lots, p, symbol, platform);
    }
  }

  lemma {:induction false} GreedyPassesOver(lots: seq<Lot>, order: seq<Key>, need: int, keep: set<nat>)
    requires forall i :: 0 <= i < |order| ==> order[i].idx < |lots| && lots[order[i].idx].qty > 0
    requires forall k :: 0 <= k < |Greedy(lots, order, need)| ==> Greedy(lots, order, need)[k].idx in keep
    requires forall i :: 0 <= i < |Keep(order, keep)| ==> Keep(order, keep)[i].idx < |lots|
    ensures Greedy(lots, Keep(order, keep), need) == Greedy(lots, order, need)
    decreases |order|
  {
    if need > 0 && order != [] {
      var rest := order[1..];
      assert forall i :: 0 <= i < |rest| ==> rest[i] == order[i + 1];
      var avail := lots[order[0].idx].qty;
      var take := if avail >= need then need else avail;
      var plan, tail := Greedy(lots, order, need), Greedy(lots, rest, need - take);
      assert plan == [Take(order[0].idx, take)] + tail;
      assert plan[0].idx in keep;
      assert forall k :: 0 <= k < |tail| ==> tail[k] == plan[k + 1];
      var kept := Keep(rest, keep);
      assert Keep(order, keep) == [order[0]] + kept;
      assert forall i :: 0 <= i < |kept| ==> kept[i] == Keep(order, keep)[i + 1];
      GreedyPassesOver(lots, rest, need - take, keep);
      assert ([order[0]] + kept)[1..] == kept;
    }
  }

  lemma {:induction false} GreedyRenumbered(lots: seq<Lot>, p: nat, order: seq<Key>, need: int)
    requires p < |lots|
    requires forall i :: 0 <= i < |order| ==> order[i].idx < |lots| && order[i].idx != p
    ensures Greedy(Cut(lots, p), Renumber(order, p), need) == ShiftPlan(Greedy(lots, order, need), p)
    decreases |order|
  {
    if need > 0 && order != [] {
      var rest := order[1..];
      assert forall i :: 0 <= i < |rest| ==> rest[i] == order[i + 1];
      var avail := lots[order[0].idx].qty;
      var take := if avail >= need then need else avail;
      CutAt(lots, p, order[0].idx);
      GreedyRenumbered(lots, p, rest, need - take);
      ShiftPlanHead(Take(order[0].idx, take), Greedy(lots, rest, need - take), p);
      assert Renumber(order, p)[1..] == Renumber(rest, p);
    }
  }

  lemma ShiftPlanHead(t: Take, tail: Plan, p: nat)
    ensures ShiftPlan([t] + tail, p) == [Take(Shifted(t.idx, p), t.qty)] + ShiftPlan(tail, p)
  {
    assert ([t] + tail)[1..] == tail;
  }

  lemma FifoPlanIn(lots: seq<Lot>, symbol: string, platform: string, qty: int, p: nat)
    requires p < |lots|
    requires forall k ::
      0 <= k < |FifoPlan(lots, symbol, platform, qty)| ==> FifoPlan(lots, symbol, platform, qty)[k].idx != p
    ensures forall k ::
      0 <= k < |FifoPlan(lots, symbol, platform, qty)| ==>
        FifoPlan(lots, symbol, platform, qty)[k].idx in OtherThan(|lots|, p)
  {
    FifoFeasible(lots, symbol, platform, qty);
  }

  lemma FifoCut(lots: seq<Lot>, p: nat, symbol: string, platform: string, qty: int)
    requires p < |lots|
    requires forall k ::
      0 <= k < |FifoPlan(lots, symbol, platform, qty)| ==> FifoPlan(lots, symbol, platform, qty)[k].idx != p
    ensures FifoPlan(Cut(lots, p), symbol, platform, qty) == ShiftPlan(FifoPlan(lots, symbol, platform, qty), p)
  {
    var ks := FifoKeys(lots, symbol, platform, 0);
    var others := OtherThan(|lots|, p);
    FifoKeysCut(lots, p, symbol, platform, 0);
    KeepMembers(ks, others);
    SortRenumber(Keep(ks, others), p);
    SortKeep(ks, others);
    assert FifoOrder(Cut(lots, p), symbol, platform) == Renumber(Keep(FifoOrder(lots, symbol, platform), others), p);
    var plan := FifoPlan(lots, symbol, platform, qty);
    var order := FifoOrder(lots, symbol, platform);
    var kept := Keep(order, others);
    KeepMembers(order, others);
    forall i | 0 <= i < |kept| ensures kept[i].idx < |lots| && kept[i].idx != p {
      assert kept[i] in kept;
      assert kept[i].idx in others;
    }
    FifoPlanIn(lots, symbol, platform, qty, p);
    GreedyPassesOver(lots, order, qty, others);
    GreedyRenumbered(lots, p, kept, qty);
  }

  lemma {:induction false} ProceedsCut(lots: seq<Lot>, p: nat, plan: Plan, net: int, total: int)
    requires p < |lots| && total > 0
    requires forall k :: 0 <= k < |plan| ==> plan[k].idx < |lots| && plan[k].idx != p
    ensures Proceeds(Cut(lots, p), ShiftPlan(plan, p), net, total) == Proceeds(lots, plan, net, total)
  {
    var cut, shifted := Cut(lots, p), ShiftPlan(plan, p);
    assert ProceedNums(shifted, net) == ProceedNums(plan, net);
    var rems := Remainders(ProceedNums(plan, net), total);
    assert ProceedKeys(cut, shifted, rems) == ProceedKeys(lots, plan, rems);
  }

  lemma CutUpdate<T>(s: seq<T>, p: nat, i: nat, x: T)
    requires p < |s| && i < |s| && i != p
    ensures Cut(s[i := x], p) == Cut(s, p)[Shifted(i, p) := x]
  {
  }

  lemma {:induction false} ConsumeCut(a: Book, b: Book, p: nat, plan: Plan, proceeds: seq<int>, e: Event)
    requires e.kind.Sell? && |proceeds| == |plan|
    requires LacksLot(a, b, p)
    requires Feasible(a.lots, plan)
    requires forall k :: 0 <= k < |plan| ==> plan[k].idx != p
    ensures Feasible(b.lots, ShiftPlan(plan, p))
    ensures LacksLot(ConsumePlan(a, plan, proceeds, e), ConsumePlan(b, ShiftPlan(plan, p), proceeds, e), p)
    ensures ConsumePlan(a, plan, proceeds, e).lots[p] == a.lots[p]
    decreases |plan|
  {
    var shifted := ShiftPlan(plan, p);
    ShiftFeasible(a.lots, p, plan);
    if plan != [] {
      var t, t' := plan[0], shifted[0];
      var a', b' := ConsumeTake(a, t, proceeds[0], e), ConsumeTake(b, t', proceeds[0], e);
      CutUpdate(a.lots, p, t.idx, Sold(a.lots[t.idx], t.qty));
      assert LacksLot(a', b', p);
      FeasibleTail(a, plan, proceeds[0], e);
      assert forall k :: 0 <= k < |plan[1..]| ==> plan[1..][k] == plan[k + 1];
      ConsumeCut(a', b', p, plan[1..], proceeds[1..], e);
      assert shifted[1..] == ShiftPlan(plan[1..], p);
    }
  }

  lemma ShiftFeasible(lots: seq<Lot>, p: nat, plan: Plan)
    requires p < |lots|
    requires Feasible(lots, plan)
    requires forall k :: 0 <= k < |plan| ==> plan[k].idx != p
    ensures Feasible(Cut(lots, p), ShiftPlan(plan, p))
  {
    var shifted := ShiftPlan(plan, p);
    forall k | 0 <= k < |shifted|
      ensures shifted[k].idx < |Cut(lots, p)| && 0 < shifted[k].qty <= Cut(lots, p)[shifted[k].idx].qty
    {
      CutAt(lots, p, plan[k].idx);
    }
    forall j, k | 0 <= j < k < |shifted| ensures shifted[j].idx != shifted[k].idx {
      ShiftedApart(plan[j].idx, plan[k].idx, p);
    }
  }

  lemma ShiftedApart(i: nat, j: nat, p: nat)
    requires i != j && i != p && j != p
    ensures Shifted(i, p) != Shifted(j, p)
  {
  }

  lemma {:induction false} SplitCut(lots: seq<Lot>, p: nat, symbol: string, num: int, den: int)
    requires p < |lots| && den >= 1
    requires SplitLots(lots, symbol, num, den).2
    requires lots[p].openEvent !in SplitLots(lots, symbol, num, den).1
    ensures SplitLots(Cut(lots, p), symbol, num, den).2
    ensures SplitLots(Cut(lots, p), symbol, num, den).0 == Cut(SplitLots(lots, symbol, num, den).0, p)
    ensures SplitLots(Cut(lots, p), symbol, num, den).1 == SplitLots(lots, symbol, num, den).1
    ensures SplitLots(lots, symbol, num, den).0[p] == lots[p]
  {
    var cut := Cut(lots, p);
    var (r, deps, _) := SplitLots(lots, symbol, num, den);
    var (r', deps', _) := SplitLots(lots[1..], symbol, num, den);
    assert r == [r[0]] + r';
    if p == 0 {
      assert cut == lots[1..];
      assert Cut(r, 0) == r';
    } else {
      assert cut[0] == lots[0] && cut[1..] == Cut(lots[1..], p - 1);
      SplitCut(lots[1..], p - 1, symbol, num, den);
      assert Cut(r, p) == [r[0]] + Cut(r', p - 1);
    }
  }

  /** One event accepted with the lot present, and not touching it, is accepted without it. */
  lemma {:induction false} EventWithoutLot(a: Book, b: Book, p: nat, e: Event)
    requires LacksLot(a, b, p)
    requires ApplyEvent(a, e).1.Accepted?
    requires a.lots[p].openEvent !in ApplyEvent(a, e).0.dependedOn
    ensures ApplyEvent(b, e).1.Accepted?
    ensures LacksLot(ApplyEvent(a, e).0, ApplyEvent(b, e).0, p)
    ensures ApplyEvent(a, e).0.lots[p] == a.lots[p]
  {
    match e.kind
    case Buy(lotId, _, _, _, _, _, _) => OpenWithoutLot(a, b, p, lotId);
    case Vest(lotId, _, _, _, _, _) => OpenWithoutLot(a, b, p, lotId);
    case Sell(_, _, _, _, _, _, _, _, _) => SaleWithoutLot(a, b, p, e);
    case Split(symbol, num, den) => SplitCut(a.lots, p, symbol, num, den);
    case Reversal(_) =>
  }

  lemma OpenWithoutLot(a: Book, b: Book, p: nat, lotId: string)
    requires LacksLot(a, b, p)
    requires FindLot(a.lots, lotId).None?
    ensures FindLot(b.lots, lotId).None?
    ensures forall l :: Cut(a.lots + [l], p) == b.lots + [l]
  {
    FindLotCut(a.lots, p, lotId);
    forall l ensures Cut(a.lots + [l], p) == b.lots + [l] {
      assert (a.lots + [l])[..p] == a.lots[..p];
      assert (a.lots + [l])[p + 1..] == a.lots[p + 1..] + [l];
    }
  }

  lemma SaleWithoutLot(a: Book, b: Book, p: nat, e: Event)
    requires LacksLot(a, b, p)
    requires e.kind.Sell? && ApplyEvent(a, e).1.Accepted?
    requires a.lots[p].openEvent !in ApplyEvent(a, e).0.dependedOn
    ensures ApplyEvent(b, e).1.Accepted?
    ensures LacksLot(ApplyEvent(a, e).0, ApplyEvent(b, e).0, p)
    ensures ApplyEvent(a, e).0.lots[p] == a.lots[p]
  {
    var k := e.kind;
    SelectedFeasible(a.lots, k.symbol, k.qty, k.lotRefs, k.platform);
    var plan := SalePlan(a, e);
    var proceeds := Proceeds(a.lots, plan, Net(e), k.qty);
    ConsumeDependsOn(a, plan, proceeds, e);
    assert forall j :: 0 <= j < |plan| ==> plan[j].idx != p;
    if k.lotRefs != [] {
      DesignatedCut(a.lots, p, k.symbol, k.platform, {}, k.lotRefs);
    } else {
      FifoCut(a.lots, p, k.symbol, k.platform, k.qty);
    }
    ShiftPlanQty(plan, p);
    ProceedsCut(a.lots, p, plan, Net(e), k.qty);
    ConsumeCut(a, b, p, plan, proceeds, e);
  }

  lemma {:induction false} DependedOnGrows(b: Book, events: seq<Event>)
    ensures b.dependedOn <= Fold(b, events).dependedOn
    decreases |events|
  {
    if events != [] {
      var e := events[0];
      if e.kind.Sell? && ApplyEvent(b, e).1.Accepted? {
        var k := e.kind;
        SelectedFeasible(b.lots, k.symbol, k.qty, k.lotRefs, k.platform);
        ConsumeDependsOn(b, SalePlan(b, e), Proceeds(b.lots, SalePlan(b, e), Net(e), k.qty), e);
      }
      DependedOnGrows(ApplyEvent(b, e).0, events[1..]);
    }
  }

  /** A whole run without the unused lot: free of errors, and equal but for that lot. */
  lemma {:induction false} FoldWithoutLot(a: Book, b: Book, p: nat, events: seq<Event>)
    requires LacksLot(a, b, p)
    requires Clean(a, events)
    requires a.lots[p].openEvent !in Fold(a, events).dependedOn
    ensures Clean(b, events)
    ensures LacksLot(Fold(a, events), Fold(b, events), p)
    ensures Fold(a, events).lots[p] == a.lots[p]
    decreases |events|
  {
    if events != [] {
      var a' := ApplyEvent(a, events[0]).0;
      DependedOnGrows(a', events[1..]);
      EventWithoutLot(a, b, p, events[0]);
      FoldWithoutLot(a', ApplyEvent(b, events[0]).0, p, events[1..]);
    }
  }
}
