/** The order in which a sale names its lots does not matter: whatever the order, each lot
    gets the same proceeds, basis and gain, and the lots end up the same. */
module Permutation {
  import opened Basics
  import opened Rounding
  import opened Keys
  import opened Apportion
  import opened Ledger
  import opened Selection
  import opened Dominance
  import opened Conservation
  import opened ReversalTotality

  // --- Sorting under relabelled positions. ---

  function Relabel(s: seq<Key>, labels: seq<nat>): (r: seq<Key>)
    requires forall i :: 0 <= i < |s| ==> s[i].idx < |labels|
    ensures |r| == |s|
    ensures forall i :: 0 <= i < |s| ==> r[i] == s[i].(idx := labels[s[i].idx])
  {
    if s == [] then [] else [s[0].(idx := labels[s[0].idx])] + Relabel(s[1..], labels)
  }

  /** No two keys tie before the position is compared. */
  ghost predicate Untied(s: seq<Key>) {
    forall i, j :: 0 <= i < j < |s| ==> (s[i].a, s[i].b, s[i].c) != (s[j].a, s[j].b, s[j].c)
  }

  ghost predicate UntiedWith(k: Key, s: seq<Key>) {
    forall x :: x in s ==> (x.a, x.b, x.c) != (k.a, k.b, k.c)
  }

  lemma {:induction false} InsertRelabel(k: Key, s: seq<Key>, labels: seq<nat>)
    requires k.idx < |labels| && forall i :: 0 <= i < |s| ==> s[i].idx < |labels|
    requires UntiedWith(k, s)
    ensures forall i :: 0 <= i < |Insert(k, s)| ==> Insert(k, s)[i].idx < |labels|
    ensures Relabel(Insert(k, s), labels) == Insert(k.(idx := labels[k.idx]), Relabel(s, labels))
  {
    if s != [] {
      var rest := s[1..];
      assert forall i :: 0 <= i < |rest| ==> rest[i] == s[i + 1];
      InsertRelabel(k, rest, labels);
      assert Relabel(s, labels)[1..] == Relabel(rest, labels);
      if Less(s[0], k) {
        assert Insert(k, s)[1..] == Insert(k, rest);
      } else {
        assert Insert(k, s)[1..] == s;
      }
    }
  }

  lemma {:induction false} SortRelabel(s: seq<Key>, labels: seq<nat>)
    requires forall i :: 0 <= i < |s| ==> s[i].idx < |labels|
    requires Untied(s)
    ensures forall i :: 0 <= i < |Sort(s)| ==> Sort(s)[i].idx < |labels|
    ensures Relabel(Sort(s), labels) == Sort(Relabel(s, labels))
  {
    if s != [] {
      var rest := s[1..];
      assert forall i :: 0 <= i < |rest| ==> rest[i] == s[i + 1];
      SortRelabel(rest, labels);
      SortMembers(rest);
      forall x | x in Sort(rest) ensures (x.a, x.b, x.c) != (s[0].a, s[0].b, s[0].c) {
        var i :| 0 <= i < |rest| && rest[i] == x;
        assert s[i + 1] == x;
      }
      InsertRelabel(s[0], Sort(rest), labels);
      assert Relabel(s, labels)[1..] == Relabel(rest, labels);
    }
  }

  // --- Plans that differ in order only. ---

  ghost predicate DistinctOpenings(lots: seq<Lot>) {
    forall i, j :: 0 <= i < j < |lots| ==> lots[i].openSeq != lots[j].openSeq
  }

  function LotPositions(plan: Plan): (r: seq<nat>)
    ensures |r| == |plan|
    ensures forall k :: 0 <= k < |plan| ==> r[k] == plan[k].idx
  {
    seq(|plan|, k requires 0 <= k < |plan| => plan[k].idx)
  }

  // --- Rearranging a list leaves totals and images unchanged. ---

  function Image<T, U>(s: seq<T>, f: T -> U): (r: seq<U>)
    ensures |r| == |s|
    ensures forall i :: 0 <= i < |s| ==> r[i] == f(s[i])
  {
    if s == [] then [] else [f(s[0])] + Image(s[1..], f)
  }

  lemma ImageAround<T, U>(s: seq<T>, i: nat, f: T -> U)
    requires i < |s|
    ensures multiset(Image(s, f)) == multiset(Image(s[..i] + s[i + 1..], f)) + multiset{f(s[i])}
  {
    var image := Image(s, f);
    ImageWithout(s, i, f);
    Around(image, i);
  }

  lemma ImageWithout<T, U>(s: seq<T>, i: nat, f: T -> U)
    requires i < |s|
    ensures Image(s, f)[..i] + Image(s, f)[i + 1..] == Image(s[..i] + s[i + 1..], f)
  {
    var a, b := Image(s, f)[..i] + Image(s, f)[i + 1..], Image(s[..i] + s[i + 1..], f);
    forall k | 0 <= k < |s| - 1 ensures a[k] == b[k] {
      assert (s[..i] + s[i + 1..])[k] == if k < i then s[k] else s[k + 1];
    }
  }

  lemma Around<T>(s: seq<T>, i: nat)
    requires i < |s|
    ensures multiset(s) == multiset(s[..i] + s[i + 1..]) + multiset{s[i]}
  {
    assert s == s[..i] + [s[i]] + s[i + 1..];
  }

  /** Where the first of `p` stands in a rearrangement of it. */
  lemma Pull<T>(p: seq<T>, q: seq<T>) returns (i: nat)
    requires p != [] && multiset(p) == multiset(q)
    ensures i < |q| && q[i] == p[0]
    ensures multiset(p[1..]) == multiset(q[..i] + q[i + 1..])
  {
    assert p[0] in multiset(q);
    i :| 0 <= i < |q| && q[i] == p[0];
    Around(q, i);
    assert p == [p[0]] + p[1..];
    assert multiset(p[1..]) == multiset(p) - multiset{p[0]};
    assert multiset(q[..i] + q[i + 1..]) == multiset(q) - multiset{p[0]};
  }

  lemma {:induction false} ImagePermuted<T, U>(p: seq<T>, q: seq<T>, f: T -> U)
    requires multiset(p) == multiset(q)
    ensures multiset(Image(p, f)) == multiset(Image(q, f))
    decreases |p|
  {
    assert |p| == |multiset(p)| && |q| == |multiset(q)|;
    if p != [] {
      var i := Pull(p, q);
      ImagePermuted(p[1..], q[..i] + q[i + 1..], f);
      assert multiset(Image(q, f)) == multiset(Image(q[..i] + q[i + 1..], f)) + multiset{f(p[0])} by {
        ImageAround(q, i, f);
      }
      assert multiset(Image(p, f)) == multiset(Image(p[1..], f)) + multiset{f(p[0])} by {
        ImageAround(p, 0, f);
        assert p[..0] + p[1..] == p[1..];
      }
    }
  }

  lemma {:induction false} TotalPermuted<T>(p: seq<T>, q: seq<T>, f: T -> int)
    requires multiset(p) == multiset(q)
    ensures Total(p, f) == Total(q, f)
    decreases |p|
  {
    assert |p| == |multiset(p)| && |q| == |multiset(q)|;
    if p != [] {
      var i := Pull(p, q);
      TotalPermuted(p[1..], q[..i] + q[i + 1..], f);
      TotalAppend(q[..i], q[i + 1..], f);
      TotalAppend(q[..i], [q[i]] + q[i + 1..], f);
      assert q == q[..i] + ([q[i]] + q[i + 1..]);
      assert ([q[i]] + q[i + 1..])[1..] == q[i + 1..];
    }
  }

  // --- Ranking the plan's lots. ---

  /** The ranking key of one take, labelled by its lot rather than by its place in the plan. */
  function LotKey(lots: seq<Lot>, net: int, total: int): Take -> Key
    requires total > 0
  {
    (t: Take) => if t.idx < |lots| then Key(-(net * t.qty % total), lots[t.idx].acquireDate, lots[t.idx].openSeq, t.idx)
                 else Key(0, 0, 0, t.idx)
  }

  /** The lots in the order units are handed out. */
  function LotRanking(lots: seq<Lot>, plan: Plan, net: int, total: int): seq<nat>
    requires total > 0
  {
    Positions(Sort(Image(plan, LotKey(lots, net, total))))
  }

  lemma {:induction false} KeyByLot(lots: seq<Lot>, plan: Plan, net: int, total: int, k: nat)
    requires total > 0 && Feasible(lots, plan) && k < |plan|
    ensures
      var key := ProceedKeys(lots, plan, Remainders(ProceedNums(plan, net), total))[k];
      && key.idx == k && key.c == lots[plan[k].idx].openSeq
      && key.(idx := plan[k].idx) == LotKey(lots, net, total)(plan[k])
  {
  }

  lemma {:induction false} RelabelIs(ks: seq<Key>, plan: Plan, f: Take -> Key)
    requires |ks| == |plan|
    requires forall k :: 0 <= k < |plan| ==> ks[k].idx == k && ks[k].(idx := plan[k].idx) == f(plan[k])
    ensures Relabel(ks, LotPositions(plan)) == Image(plan, f)
  {
    var labels := LotPositions(plan);
    forall k | 0 <= k < |plan| ensures Relabel(ks, labels)[k] == Image(plan, f)[k] {
      assert labels[ks[k].idx] == plan[k].idx;
    }
  }

  lemma UntiedByLot(ks: seq<Key>, lots: seq<Lot>, plan: Plan)
    requires Feasible(lots, plan) && DistinctOpenings(lots) && |ks| == |plan|
    requires forall k :: 0 <= k < |plan| ==> ks[k].c == lots[plan[k].idx].openSeq
    ensures Untied(ks)
  {
    forall i, j | 0 <= i < j < |ks| ensures ks[i].c != ks[j].c {
      assert plan[i].idx != plan[j].idx;
    }
  }

  lemma {:induction false} KeysByLot(lots: seq<Lot>, plan: Plan, net: int, total: int)
    requires total > 0 && Feasible(lots, plan) && DistinctOpenings(lots)
    ensures
      var ks := ProceedKeys(lots, plan, Remainders(ProceedNums(plan, net), total));
      && (forall i :: 0 <= i < |ks| ==> ks[i].idx < |LotPositions(plan)|)
      && Untied(ks)
      && Relabel(ks, LotPositions(plan)) == Image(plan, LotKey(lots, net, total))
  {
    var ks := ProceedKeys(lots, plan, Remainders(ProceedNums(plan, net), total));
    assert forall k :: 0 <= k < |plan| ==>
             ks[k].idx == k && ks[k].c == lots[plan[k].idx].openSeq
               && ks[k].(idx := plan[k].idx) == LotKey(lots, net, total)(plan[k])
    by {
      forall k | 0 <= k < |plan|
        ensures ks[k].idx == k && ks[k].c == lots[plan[k].idx].openSeq
        ensures ks[k].(idx := plan[k].idx) == LotKey(lots, net, total)(plan[k])
      {
        KeyByLot(lots, plan, net, total, k);
      }
    }
    UntiedByLot(ks, lots, plan);
    RelabelIs(ks, plan, LotKey(lots, net, total));
  }

  lemma PositionsRelabelled(ks: seq<Key>, labels: seq<nat>)
    requires (forall i :: 0 <= i < |ks| ==> ks[i].idx < |labels|) && Untied(ks)
    ensures |Positions(Sort(ks))| == |Positions(Sort(Relabel(ks, labels)))| == |ks|
    ensures forall i :: 0 <= i < |ks| ==>
              Positions(Sort(ks))[i] < |labels|
                && Positions(Sort(Relabel(ks, labels)))[i] == labels[Positions(Sort(ks))[i]]
  {
    SortRelabel(ks, labels);
  }

  lemma RankingByLot(lots: seq<Lot>, plan: Plan, net: int, total: int)
    requires total > 0 && Feasible(lots, plan) && DistinctOpenings(lots)
    ensures |ProceedOrder(lots, plan, net, total)| == |LotRanking(lots, plan, net, total)| == |plan|
    ensures forall i :: 0 <= i < |plan| ==>
              LotRanking(lots, plan, net, total)[i] == plan[ProceedOrder(lots, plan, net, total)[i]].idx
  {
    KeysByLot(lots, plan, net, total);
    PositionsRelabelled(ProceedKeys(lots, plan, Remainders(ProceedNums(plan, net), total)), LotPositions(plan));
  }

  function FloorOf(net: int, total: int): Take -> int
    requires total > 0
  {
    (t: Take) => net * t.qty / total
  }

  lemma {:induction false} FloorsTotal(plan: Plan, net: int, total: int)
    requires total > 0
    ensures Sum(Floors(ProceedNums(plan, net), total)) == Total(plan, FloorOf(net, total))
  {
    if plan != [] {
      FloorsTotal(plan[1..], net, total);
      assert Floors(ProceedNums(plan, net), total)[1..] == Floors(ProceedNums(plan[1..], net), total);
    }
  }

  function QtyOf(): Take -> int {
    (t: Take) => t.qty
  }

  lemma {:induction false} PlanQtyTotal(plan: Plan)
    ensures PlanQty(plan) == Total(plan, QtyOf())
  {
    if plan != [] { PlanQtyTotal(plan[1..]); }
  }

  /** A place in the plan gains a unit exactly when its lot is among the first ranked. */
  /** A take is among the first ranked exactly if its lot is. */
  lemma RankedAlike(lots: seq<Lot>, plan: Plan, order: seq<nat>, ranking: seq<nat>, n: nat, k: nat)
    requires Feasible(lots, plan) && k < |plan| && n <= |order| == |ranking| && InRange(order, |plan|)
    requires forall i :: 0 <= i < |order| ==> ranking[i] == plan[order[i]].idx
    ensures k in order[..n] <==> plan[k].idx in ranking[..n]
  {
    if k in order[..n] {
      var i :| 0 <= i < n && order[..n][i] == k;
      assert order[i] == k;
      assert ranking[..n][i] == plan[k].idx;
    }
    if plan[k].idx in ranking[..n] {
      var i :| 0 <= i < n && ranking[..n][i] == plan[k].idx;
      assert ranking[i] == plan[order[i]].idx;
      assert order[i] == k;
      assert order[..n][i] == k;
    }
  }

  lemma {:induction false} ShareByRanking(lots: seq<Lot>, plan: Plan, net: int, total: int, k: nat)
    requires total > 0 && Feasible(lots, plan) && DistinctOpenings(lots)
    requires PlanQty(plan) == total
    requires k < |plan|
    ensures
      var residual := Residual(ProceedNums(plan, net), total, net);
      var ranking := LotRanking(lots, plan, net, total);
      && 0 <= residual <= |plan| == |ranking|
      && Proceeds(lots, plan, net, total)[k]
           == net * plan[k].qty / total + (if plan[k].idx in ranking[..residual] then 1 else 0)
  {
    var nums := ProceedNums(plan, net);
    var order := ProceedOrder(lots, plan, net, total);
    var ranking := LotRanking(lots, plan, net, total);
    ProceedNumsSum(plan, net);
    ProceedOrderRanks(lots, plan, net, total);
    ResidualBounds(nums, total, net, order);
    RankingByLot(lots, plan, net, total);
    var residual := Residual(nums, total, net);
    AwardEffect(Floors(nums, total), order, residual);
    RankedAlike(lots, plan, order, ranking, residual, k);
  }

  lemma SameResidual(p: Plan, q: Plan, net: int, total: int)
    requires total > 0 && multiset(p) == multiset(q)
    ensures PlanQty(p) == PlanQty(q)
    ensures Residual(ProceedNums(p, net), total, net) == Residual(ProceedNums(q, net), total, net)
  {
    FloorsTotal(p, net, total);
    FloorsTotal(q, net, total);
    TotalPermuted(p, q, FloorOf(net, total));
    PlanQtyTotal(p);
    PlanQtyTotal(q);
    TotalPermuted(p, q, QtyOf());
  }

  /** Reordering the plan leaves each lot's proceeds unchanged. */
  lemma {:induction false} ProceedsPermuted(lots: seq<Lot>, p: Plan, q: Plan, net: int, total: int, j: nat, k: nat)
    requires total > 0 && Feasible(lots, p) && Feasible(lots, q) && DistinctOpenings(lots)
    requires multiset(p) == multiset(q) && PlanQty(p) == total
    requires j < |p| && k < |q| && p[j] == q[k]
    ensures Proceeds(lots, p, net, total)[j] == Proceeds(lots, q, net, total)[k]
  {
    var key := LotKey(lots, net, total);
    ImagePermuted(p, q, key);
    SortAscending(Image(p, key));
    SortAscending(Image(q, key));
    AscendingUnique(Sort(Image(p, key)), Sort(Image(q, key)));
    SameResidual(p, q, net, total);
    ShareByRanking(lots, p, net, total, j);
    ShareByRanking(lots, q, net, total, k);
  }

  // --- Designations that differ in order only. ---

  /** A designation stands on its own: open lot of the symbol on the platform, covered. */
  ghost predicate GoodRef(lots: seq<Lot>, symbol: string, platform: string, r: LotRef) {
    CheckRef(lots, symbol, platform, {}, r).Success?
  }

  function TakeOf(lots: seq<Lot>): LotRef -> Take {
    (r: LotRef) => Take(match FindLot(lots, r.lotId) case None => 0 case Some(i) => i, r.qty)
  }

  ghost predicate DistinctRefs(refs: seq<LotRef>) {
    forall i, j :: 0 <= i < j < |refs| ==> refs[i].lotId != refs[j].lotId
  }

  ghost predicate GoodRefs(lots: seq<Lot>, symbol: string, platform: string, seen: set<string>, refs: seq<LotRef>) {
    && (forall i :: 0 <= i < |refs| ==> GoodRef(lots, symbol, platform, refs[i]) && refs[i].lotId !in seen)
    && DistinctRefs(refs)
  }

  /** Designation succeeds exactly when every reference is good and no lot is named twice. */
  lemma {:induction false} DesignatedIff(lots: seq<Lot>, symbol: string, platform: string, seen: set<string>,
                                         refs: seq<LotRef>)
    ensures DesignatedPlan(lots, symbol, platform, seen, refs).Success? <==>
      GoodRefs(lots, symbol, platform, seen, refs)
    ensures DesignatedPlan(lots, symbol, platform, seen, refs).Success? ==>
              DesignatedPlan(lots, symbol, platform, seen, refs).value == Image(refs, TakeOf(lots))
    decreases |refs|
  {
    if refs != [] {
      DesignatedIff(lots, symbol, platform, seen + {refs[0].lotId}, refs[1..]);
      GoodRefsStep(lots, symbol, platform, seen, refs);
    }
  }

  lemma GoodRefsStep(lots: seq<Lot>, symbol: string, platform: string, seen: set<string>, refs: seq<LotRef>)
    requires refs != []
    ensures GoodRefs(lots, symbol, platform, seen, refs) <==>
            CheckRef(lots, symbol, platform, seen, refs[0]).Success?
              && GoodRefs(lots, symbol, platform, seen + {refs[0].lotId}, refs[1..])
  {
    var rest := refs[1..];
    assert forall i :: 0 <= i < |rest| ==> rest[i] == refs[i + 1];
    assert forall i :: 1 <= i < |refs| ==> refs[i] == rest[i - 1];
  }

  lemma OnceInDistinct(refs: seq<LotRef>, m: nat)
    requires DistinctRefs(refs) && m < |refs|
    ensures multiset(refs)[refs[m]] == 1
  {
    var others := refs[..m] + refs[m + 1..];
    forall k | 0 <= k < |others| ensures others[k] != refs[m] {
      assert others[k] == if k < m then refs[k] else refs[k + 1];
    }
    Around(refs, m);
    assert refs[m] !in multiset(others);
  }

  lemma OnceOnly(s: seq<LotRef>, i: nat, j: nat)
    requires i < j < |s| && multiset(s)[s[i]] <= 1
    ensures s[i] != s[j]
  {
    Around(s, j);
    assert (s[..j] + s[j + 1..])[i] == s[i];
    assert s[i] in multiset(s[..j] + s[j + 1..]);
  }

  lemma DistinctPermuted(refs: seq<LotRef>, refs': seq<LotRef>)
    requires DistinctRefs(refs) && multiset(refs) == multiset(refs')
    ensures DistinctRefs(refs')
  {
    forall i, j | 0 <= i < j < |refs'| ensures refs'[i].lotId != refs'[j].lotId {
      assert refs'[i] in multiset(refs) && refs'[j] in multiset(refs);
      var m :| 0 <= m < |refs| && refs[m] == refs'[i];
      var n :| 0 <= n < |refs| && refs[n] == refs'[j];
      OnceInDistinct(refs, m);
      OnceOnly(refs', i, j);
    }
  }

  /** Reordering designations selects the same takes in another order. */
  lemma {:induction false} SelectionPermuted(lots: seq<Lot>, symbol: string, qty: int, refs: seq<LotRef>,
                                             refs': seq<LotRef>, platform: string)
    requires qty > 0 && refs != [] && multiset(refs) == multiset(refs')
    requires SelectLots(lots, symbol, qty, refs, platform).Success?
    ensures SelectLots(lots, symbol, qty, refs', platform).Success?
    ensures multiset(SelectLots(lots, symbol, qty, refs, platform).value)
      == multiset(SelectLots(lots, symbol, qty, refs', platform).value)
  {
    assert |refs| == |multiset(refs)| && |refs'| == |multiset(refs')|;
    DesignatedIff(lots, symbol, platform, {}, refs);
    DesignatedIff(lots, symbol, platform, {}, refs');
    DistinctPermuted(refs, refs');
    forall i | 0 <= i < |refs'| ensures GoodRef(lots, symbol, platform, refs'[i]) {
      assert refs'[i] in multiset(refs);
      var j :| 0 <= j < |refs| && refs[j] == refs'[i];
    }
    ImagePermuted(refs, refs', TakeOf(lots));
    SameResidual(Image(refs, TakeOf(lots)), Image(refs', TakeOf(lots)), 0, 1);
  }

  // --- The book after the sale. ---

  /** A lot no take names is left as it was. */
  lemma {:induction false} OtherLotKept(b: Book, plan: Plan, proceeds: seq<int>, e: Event, i: nat)
    requires e.kind.Sell? && |proceeds| == |plan|
    requires Feasible(b.lots, plan) && i < |b.lots|
    requires forall k :: 0 <= k < |plan| ==> plan[k].idx != i
    ensures |ConsumePlan(b, plan, proceeds, e).lots| == |b.lots|
    ensures ConsumePlan(b, plan, proceeds, e).lots[i] == b.lots[i]
    decreases |plan|
  {
    if plan != [] {
      FeasibleTail(b, plan, proceeds[0], e);
      OtherLotKept(ConsumeTake(b, plan[0], proceeds[0], e), plan[1..], proceeds[1..], e, i);
    }
  }

  /** A named lot is sold once, by the quantity named. */
  lemma {:induction false} NamedLotSold(b: Book, plan: Plan, proceeds: seq<int>, e: Event, k: nat)
    requires e.kind.Sell? && |proceeds| == |plan|
    requires Feasible(b.lots, plan) && k < |plan|
    ensures |ConsumePlan(b, plan, proceeds, e).lots| == |b.lots|
    ensures ConsumePlan(b, plan, proceeds, e).lots[plan[k].idx] == Sold(b.lots[plan[k].idx], plan[k].qty)
    decreases |plan|
  {
    var rest := plan[1..];
    assert forall j :: 0 <= j < |rest| ==> rest[j] == plan[j + 1];
    var b' := ConsumeTake(b, plan[0], proceeds[0], e);
    FeasibleTail(b, plan, proceeds[0], e);
    if k == 0 {
      OtherLotKept(b', rest, proceeds[1..], e, plan[0].idx);
    } else {
      assert plan[0].idx != plan[k].idx;
      NamedLotSold(b', rest, proceeds[1..], e, k - 1);
    }
  }

  lemma {:induction false} GainsKept(b: Book, plan: Plan, proceeds: seq<int>, e: Event)
    requires e.kind.Sell? && |proceeds| == |plan|
    requires Feasible(b.lots, plan)
    ensures |ConsumePlan(b, plan, proceeds, e).gains| == |b.gains| + |plan|
    ensures b.gains <= ConsumePlan(b, plan, proceeds, e).gains
    decreases |plan|
  {
    if plan != [] {
      FeasibleTail(b, plan, proceeds[0], e);
      GainsKept(ConsumeTake(b, plan[0], proceeds[0], e), plan[1..], proceeds[1..], e);
    }
  }

  /** Each gain is computed from its lot as it stood before the sale. */
  lemma {:induction false} GainOfTake(b: Book, plan: Plan, proceeds: seq<int>, e: Event, k: nat)
    requires e.kind.Sell? && |proceeds| == |plan|
    requires Feasible(b.lots, plan) && k < |plan|
    ensures |ConsumePlan(b, plan, proceeds, e).gains| == |b.gains| + |plan|
    ensures ConsumePlan(b, plan, proceeds, e).gains[|b.gains| + k]
      == GainOf(b.lots[plan[k].idx], plan[k].qty, proceeds[k], e)
    decreases |plan|
  {
    var b' := ConsumeTake(b, plan[0], proceeds[0], e);
    GainsKept(b, plan, proceeds, e);
    FeasibleTail(b, plan, proceeds[0], e);
    if k == 0 {
      GainsKept(b', plan[1..], proceeds[1..], e);
      assert b'.gains[|b.gains|] == GainOf(b.lots[plan[0].idx], plan[0].qty, proceeds[0], e);
    } else {
      assert plan[1..][k - 1] == plan[k] && plan[0].idx != plan[k].idx;
      GainOfTake(b', plan[1..], proceeds[1..], e, k - 1);
    }
  }

  /** The gains an accepted sale adds. */
  function SaleGains(b: Book, e: Event): seq<Gain> {
    var gains := ApplyEvent(b, e).0.gains;
    if |gains| < |b.gains| then [] else gains[|b.gains|..]
  }

  /** An accepted sale adds one gain per take. */
  lemma {:induction false} SaleGain(b: Book, e: Event, k: nat)
    requires e.kind.Sell? && ApplyEvent(b, e).1.Accepted?
    ensures Feasible(b.lots, SalePlan(b, e))
    ensures |SaleGains(b, e)| == |SalePlan(b, e)|
    ensures k < |SaleGains(b, e)| ==>
              var p := SalePlan(b, e);
              SaleGains(b, e)[k] == GainOf(b.lots[p[k].idx], p[k].qty, Proceeds(b.lots, p, Net(e), e.kind.qty)[k], e)
  {
    var p := SalePlan(b, e);
    SelectedFeasible(b.lots, e.kind.symbol, e.kind.qty, e.kind.lotRefs, e.kind.platform);
    GainsKept(b, p, Proceeds(b.lots, p, Net(e), e.kind.qty), e);
    if k < |p| {
      GainOfTake(b, p, Proceeds(b.lots, p, Net(e), e.kind.qty), e, k);
    }
  }

  predicate SameButRefs(e: Event, f: Event)
    requires e.kind.Sell?
  {
    f.kind.Sell? && f == e.(kind := e.kind.(lotRefs := f.kind.lotRefs))
  }

  lemma PlansPermuted(b: Book, e: Event, f: Event)
    requires e.kind.Sell? && SameButRefs(e, f)
    requires e.kind.lotRefs != [] && multiset(f.kind.lotRefs) == multiset(e.kind.lotRefs)
    requires ApplyEvent(b, e).1.Accepted?
    ensures ApplyEvent(b, f).1.Accepted?
    ensures multiset(SalePlan(b, e)) == multiset(SalePlan(b, f)) && PlanQty(SalePlan(b, e)) == e.kind.qty
    ensures Feasible(b.lots, SalePlan(b, e)) && Feasible(b.lots, SalePlan(b, f))
  {
    var k := e.kind;
    SelectionPermuted(b.lots, k.symbol, k.qty, k.lotRefs, f.kind.lotRefs, k.platform);
    SelectedFeasible(b.lots, k.symbol, k.qty, k.lotRefs, k.platform);
    SelectedFeasible(b.lots, k.symbol, k.qty, f.kind.lotRefs, k.platform);
  }

  /** Two sales naming the same lots and quantities in different orders are accepted alike
      and leave the same lots. */
  lemma {:induction false} SalePermutedLots(b: Book, e: Event, f: Event)
    requires e.kind.Sell? && SameButRefs(e, f)
    requires e.kind.lotRefs != [] && multiset(f.kind.lotRefs) == multiset(e.kind.lotRefs)
    requires ApplyEvent(b, e).1.Accepted?
    ensures ApplyEvent(b, f).1.Accepted?
    ensures ApplyEvent(b, e).0.lots == ApplyEvent(b, f).0.lots
  {
    PlansPermuted(b, e, f);
    var p, q := SalePlan(b, e), SalePlan(b, f);
    SameLotsAfter(b, p, q, Proceeds(b.lots, p, Net(e), e.kind.qty), Proceeds(b.lots, q, Net(f), f.kind.qty), e, f);
  }

  /** And lot by lot they realize the same gain: proceeds, basis and all. */
  lemma {:induction false} SalePermutedGains(b: Book, e: Event, f: Event, j: nat, k: nat)
    requires SoundLots(b.lots) && DistinctOpenings(b.lots)
    requires e.kind.Sell? && SameButRefs(e, f)
    requires e.kind.lotRefs != [] && multiset(f.kind.lotRefs) == multiset(e.kind.lotRefs)
    requires ApplyEvent(b, e).1.Accepted?
    requires j < |SaleGains(b, e)| && k < |SaleGains(b, f)| && SaleGains(b, e)[j].lotId == SaleGains(b, f)[k].lotId
    ensures SaleGains(b, e)[j] == SaleGains(b, f)[k]
  {
    PlansPermuted(b, e, f);
    SaleGain(b, e, j);
    SaleGain(b, f, k);
    SameTakeGain(b, e, f, j, k);
  }

  lemma {:induction false} SalePermutedCount(b: Book, e: Event, f: Event)
    requires e.kind.Sell? && SameButRefs(e, f)
    requires e.kind.lotRefs != [] && multiset(f.kind.lotRefs) == multiset(e.kind.lotRefs)
    requires ApplyEvent(b, e).1.Accepted?
    ensures |SaleGains(b, e)| == |SaleGains(b, f)|
  {
    PlansPermuted(b, e, f);
    assert |SalePlan(b, e)| == |multiset(SalePlan(b, e))| && |SalePlan(b, f)| == |multiset(SalePlan(b, f))|;
    SaleGain(b, e, 0);
    SaleGain(b, f, 0);
  }

  lemma SameTakeGain(b: Book, e: Event, f: Event, j: nat, k: nat)
    requires SoundLots(b.lots) && DistinctOpenings(b.lots)
    requires e.kind.Sell? && SameButRefs(e, f) && e.kind.qty > 0
    requires ApplyEvent(b, e).1.Accepted? && ApplyEvent(b, f).1.Accepted?
    requires multiset(SalePlan(b, e)) == multiset(SalePlan(b, f)) && PlanQty(SalePlan(b, e)) == e.kind.qty
    requires Feasible(b.lots, SalePlan(b, e)) && Feasible(b.lots, SalePlan(b, f))
    requires j < |SalePlan(b, e)| && k < |SalePlan(b, f)|
    requires b.lots[SalePlan(b, e)[j].idx].id == b.lots[SalePlan(b, f)[k].idx].id
    ensures
      var (p, q) := (SalePlan(b, e), SalePlan(b, f));
      GainOf(b.lots[p[j].idx], p[j].qty, Proceeds(b.lots, p, Net(e), e.kind.qty)[j], e)
      == GainOf(b.lots[q[k].idx], q[k].qty, Proceeds(b.lots, q, Net(f), f.kind.qty)[k], f)
  {
    SameTakeOf(b.lots, SalePlan(b, e), SalePlan(b, f), Net(e), e.kind.qty, j, k);
    assert Net(e) == Net(f) && e.kind.qty == f.kind.qty;
    var t := SalePlan(b, e)[j];
    GainIgnoresRefs(b.lots[t.idx], t.qty, Proceeds(b.lots, SalePlan(b, e), Net(e), e.kind.qty)[j], e, f);
  }

  lemma SameTakeOf(lots: seq<Lot>, p: Plan, q: Plan, net: int, total: int, j: nat, k: nat)
    requires SoundLots(lots) && DistinctOpenings(lots) && total > 0
    requires multiset(p) == multiset(q) && PlanQty(p) == total && Feasible(lots, p) && Feasible(lots, q)
    requires j < |p| && k < |q| && lots[p[j].idx].id == lots[q[k].idx].id
    ensures p[j] == q[k] && Proceeds(lots, p, net, total)[j] == Proceeds(lots, q, net, total)[k]
  {
    SameTake(p, q, j, k);
    ProceedsPermuted(lots, p, q, net, total, j, k);
  }

  lemma GainIgnoresRefs(l: Lot, c: int, alloc: int, e: Event, f: Event)
    requires e.kind.Sell? && SameButRefs(e, f) && 0 < c <= l.qty
    ensures GainOf(l, c, alloc, e) == GainOf(l, c, alloc, f)
  {
  }

  /** Takes from the same lot are the same take. */
  lemma SameTake(p: Plan, q: Plan, x: nat, y: nat)
    requires multiset(p) == multiset(q) && x < |p| && y < |q| && p[x].idx == q[y].idx
    requires forall i, j :: 0 <= i < j < |p| ==> p[i].idx != p[j].idx
    ensures p[x] == q[y]
  {
    assert forall z :: 0 <= z < |p| && z != x ==> p[z].idx != p[x].idx;
    assert q[y] in multiset(p);
    var z :| 0 <= z < |p| && p[z] == q[y];
  }

  lemma {:induction false} SameNumberOfLots(b: Book, plan: Plan, proceeds: seq<int>, e: Event)
    requires e.kind.Sell? && |proceeds| == |plan|
    requires Feasible(b.lots, plan)
    ensures |ConsumePlan(b, plan, proceeds, e).lots| == |b.lots|
    decreases |plan|
  {
    if plan != [] {
      FeasibleTail(b, plan, proceeds[0], e);
      SameNumberOfLots(ConsumeTake(b, plan[0], proceeds[0], e), plan[1..], proceeds[1..], e);
    }
  }

  lemma SameLotsAfter(b: Book, p: Plan, q: Plan, ps: seq<int>, qs: seq<int>, e: Event, f: Event)
    requires e.kind.Sell? && f.kind.Sell? && |ps| == |p| && |qs| == |q|
    requires Feasible(b.lots, p) && Feasible(b.lots, q) && multiset(p) == multiset(q)
    ensures ConsumePlan(b, p, ps, e).lots == ConsumePlan(b, q, qs, f).lots
  {
    var r, s := ConsumePlan(b, p, ps, e), ConsumePlan(b, q, qs, f);
    SameNumberOfLots(b, p, ps, e);
    SameNumberOfLots(b, q, qs, f);
    forall i | 0 <= i < |b.lots| ensures r.lots[i] == s.lots[i] {
      if j :| 0 <= j < |p| && p[j].idx == i {
        assert p[j] in multiset(q);
        var m :| 0 <= m < |q| && q[m] == p[j];
        NamedLotSold(b, p, ps, e, j);
        NamedLotSold(b, q, qs, f, m);
      } else {
        forall m | 0 <= m < |q| ensures q[m].idx != i {
          assert q[m] in multiset(p);
          var j :| 0 <= j < |p| && p[j] == q[m];
        }
        OtherLotKept(b, p, ps, e, i);
        OtherLotKept(b, q, qs, f, i);
      }
    }
  }

  // --- Lots of a log have distinct openings. ---

  ghost predicate OpenedBelow(lots: seq<Lot>, n: nat) {
    forall i :: 0 <= i < |lots| ==> lots[i].openSeq < n
  }

  lemma OneMoreOpening(b: Book, e: Event)
    requires SoundLots(b.lots) && DistinctOpenings(b.lots) && OpenedBelow(b.lots, e.seqNo)
    ensures
      var r := ApplyEvent(b, e).0;
      SoundLots(r.lots) && DistinctOpenings(r.lots) && OpenedBelow(r.lots, e.seqNo + 1)
  {
    var r := ApplyEvent(b, e).0;
    EventSound(b, e);
    if e.kind.Sell? && ApplyEvent(b, e).1.Accepted? { SaleQuantities(b, e); }
    assert |r.lots| > |b.lots| ==> |r.lots| == |b.lots| + 1 && r.lots[|b.lots|].openSeq == e.seqNo;
    forall i | 0 <= i < |b.lots| ensures r.lots[i].openSeq == b.lots[i].openSeq {
      assert SameLot(b.lots[i], r.lots[..|b.lots|][i]);
    }
  }

  /** Folding events of rising numbers, as replay does, each lot is opened under a number of its
      own. */
  lemma {:induction false} LogHasDistinctOpenings(b: Book, events: seq<Event>)
    requires SoundLots(b.lots) && DistinctOpenings(b.lots) && RisingSeq(events)
    requires events != [] ==> OpenedBelow(b.lots, events[0].seqNo)
    ensures SoundLots(Fold(b, events).lots) && DistinctOpenings(Fold(b, events).lots)
    decreases |events|
  {
    if events != [] {
      OneMoreOpening(b, events[0]);
      assert forall i :: 0 <= i < |events| - 1 ==> events[1..][i] == events[i + 1];
      LogHasDistinctOpenings(ApplyEvent(b, events[0]).0, events[1..]);
    }
  }

  /** So in replay the order of the names changes nothing a sale realizes from a lot. */
  lemma {:induction false} ReplayedSalePermuted(events: seq<Event>, e: Event, f: Event, j: nat, k: nat)
    requires RisingSeq(events)
    requires e.kind.Sell? && SameButRefs(e, f)
    requires e.kind.lotRefs != [] && multiset(f.kind.lotRefs) == multiset(e.kind.lotRefs)
    requires ApplyEvent(Fold(EMPTY_BOOK, events), e).1.Accepted?
    ensures
      var b := Fold(EMPTY_BOOK, events);
      && ApplyEvent(b, f).1.Accepted? && ApplyEvent(b, e).0.lots == ApplyEvent(b, f).0.lots
      && |SaleGains(b, e)| == |SaleGains(b, f)|
      && (j < |SaleGains(b, e)| && k < |SaleGains(b, f)| && SaleGains(b, e)[j].lotId == SaleGains(b, f)[k].lotId ==>
            SaleGains(b, e)[j] == SaleGains(b, f)[k])
  {
    var b := Fold(EMPTY_BOOK, events);
    LogHasDistinctOpenings(EMPTY_BOOK, events);
    SalePermutedLots(b, e, f);
    SalePermutedCount(b, e, f);
    if j < |SaleGains(b, e)| && k < |SaleGains(b, f)| && SaleGains(b, e)[j].lotId == SaleGains(b, f)[k].lotId {
      SalePermutedGains(b, e, f, j, k);
    }
  }
}
