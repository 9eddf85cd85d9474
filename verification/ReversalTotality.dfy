/** When replay never takes an error branch. Validation guards each append, but a
    reversal re-folds the whole log without its target; this module says exactly which
    accepted reversals keep the re-fold free of errors, and that logs grown with such
    reversals replay without error. */
module ReversalTotality {
  import opened Basics
  import opened Rounding
  import opened Apportion
  import opened Ledger
  import opened Selection
  import opened Dominance
  import opened Removal

  // --- Logs. ---

  ghost predicate UniqueIds(log: seq<Event>) {
    forall i, j :: 0 <= i < j < |log| ==> log[i].id != log[j].id
  }

  ghost predicate RisingSeq(log: seq<Event>) {
    forall i, j :: 0 <= i < j < |log| ==> log[i].seqNo < log[j].seqNo
  }

  ghost predicate TargetsExist(log: seq<Event>) {
    ReversedTargets(log) <= EventIds(log)
  }

  /** What the store keeps true of a log, whatever was appended. */
  ghost predicate WellKept(log: seq<Event>) {
    UniqueIds(log) && RisingSeq(log) && TargetsExist(log)
  }

  /** A new id and a sequence number above all others, as the store assigns them. */
  ghost predicate Fresh(log: seq<Event>, e: Event) {
    e.id !in EventIds(log) && forall i :: 0 <= i < |log| ==> log[i].seqNo < e.seqNo
  }

  /** What the validator asks of a reversal: a known target, not reversed yet, whose lot, if
      it opened one, nothing has touched. */
  predicate Admitted(log: seq<Event>, r: Event) {
    && r.kind.Reversal?
    && r.kind.target in EventIds(log)
    && r.kind.target !in ReversedTargets(log)
    && r.kind.target !in StateOf(log).dependedOn
  }

  lemma AcceptedIsAdmitted(log: seq<Event>, r: Event)
    requires r.kind.Reversal?
    ensures Validate(log, r).Accepted? <==> Admitted(log, r)
  {
  }

  // --- Folds over concatenations. ---

  lemma {:induction false} FoldAppend(b: Book, s: seq<Event>, t: seq<Event>)
    ensures Fold(b, s + t) == Fold(Fold(b, s), t)
    ensures Clean(b, s + t) <==> Clean(b, s) && Clean(Fold(b, s), t)
    ensures SplitsWithinCap(b, s + t) <==> SplitsWithinCap(b, s) && SplitsWithinCap(Fold(b, s), t)
    ensures SalesCovered(b, s + t) <==> SalesCovered(b, s) && SalesCovered(Fold(b, s), t)
    decreases |s|
  {
    if s == [] {
      assert s + t == t;
    } else {
      assert (s + t)[1..] == s[1..] + t;
      FoldAppend(ApplyEvent(b, s[0]).0, s[1..], t);
    }
  }

  lemma {:induction false} CleanMeetsGuards(b: Book, events: seq<Event>)
    requires Clean(b, events)
    ensures SplitsWithinCap(b, events) && SalesCovered(b, events)
    decreases |events|
  {
    if events != [] {
      var e := events[0];
      if e.kind.Split? && e.kind.den >= 1 { SplitLotsAt(b.lots, e.kind.symbol, e.kind.num, e.kind.den); }
      CleanMeetsGuards(ApplyEvent(b, e).0, events[1..]);
    }
  }

  // --- Survivors of a log in order. ---

  lemma {:induction false} UnreversedMembers(log: seq<Event>, reversed: set<string>)
    ensures forall e :: e in Unreversed(log, reversed) <==> e in log && !e.kind.Reversal? && e.id !in reversed
  {
    if log != [] { UnreversedMembers(log[1..], reversed); }
  }

  lemma {:induction false} UnreversedKept(log: seq<Event>, reversed: set<string>)
    requires UniqueIds(log) && RisingSeq(log)
    ensures UniqueIds(Unreversed(log, reversed)) && RisingSeq(Unreversed(log, reversed))
  {
    if log != [] {
      var rest := log[1..];
      assert forall i :: 0 <= i < |rest| ==> rest[i] == log[i + 1];
      UnreversedKept(rest, reversed);
      FirstIsLower(log, reversed);
      FirstKept(log[0], Unreversed(rest, reversed));
    }
  }

  lemma FirstIsLower(log: seq<Event>, reversed: set<string>)
    requires log != [] && UniqueIds(log) && RisingSeq(log)
    ensures forall x :: x in Unreversed(log[1..], reversed) ==> log[0].id != x.id && log[0].seqNo < x.seqNo
  {
    UnreversedMembers(log[1..], reversed);
    forall x | x in Unreversed(log[1..], reversed) ensures log[0].id != x.id && log[0].seqNo < x.seqNo {
      var j :| 0 <= j < |log[1..]| && log[1..][j] == x;
      assert log[j + 1] == x;
    }
  }

  lemma FirstKept(e: Event, rest: seq<Event>)
    requires UniqueIds(rest) && RisingSeq(rest)
    requires forall x :: x in rest ==> e.id != x.id && e.seqNo < x.seqNo
    ensures UniqueIds([e] + rest) && RisingSeq([e] + rest)
  {
    var all := [e] + rest;
    forall i, j | 0 <= i < j < |all| ensures all[i].id != all[j].id && all[i].seqNo < all[j].seqNo {
      assert all[j] == rest[j - 1] && rest[j - 1] in rest;
      assert i > 0 ==> all[i] == rest[i - 1];
    }
  }

  lemma {:induction false} SortRising(s: seq<Event>)
    requires RisingSeq(s)
    ensures SortBySeq(s) == s
  {
    if s != [] {
      var rest := s[1..];
      assert forall i :: 0 <= i < |rest| ==> rest[i] == s[i + 1];
      SortRising(rest);
    }
  }

  lemma SurvivingInOrder(log: seq<Event>)
    requires UniqueIds(log) && RisingSeq(log)
    ensures Surviving(log) == Unreversed(log, ReversedTargets(log))
    ensures UniqueIds(Surviving(log))
  {
    UnreversedKept(log, ReversedTargets(log));
    SortRising(Unreversed(log, ReversedTargets(log)));
  }

  lemma {:induction false} TargetsAppend(log: seq<Event>, e: Event)
    ensures ReversedTargets(log + [e]) == ReversedTargets(log) + if e.kind.Reversal? then {e.kind.target} else {}
    ensures EventIds(log + [e]) == EventIds(log) + {e.id}
  {
    if log == [] {
      assert log + [e] == [e];
    } else {
      assert (log + [e])[1..] == log[1..] + [e];
      TargetsAppend(log[1..], e);
    }
  }

  lemma {:induction false} UnreversedAppend(log: seq<Event>, e: Event, reversed: set<string>)
    ensures Unreversed(log + [e], reversed)
         == Unreversed(log, reversed) + if !e.kind.Reversal? && e.id !in reversed then [e] else []
  {
    if log == [] {
      assert log + [e] == [e];
    } else {
      assert (log + [e])[1..] == log[1..] + [e];
      UnreversedAppend(log[1..], e, reversed);
    }
  }

  function DropId(s: seq<Event>, id: string): seq<Event> {
    if s == [] then [] else (if s[0].id == id then [] else [s[0]]) + DropId(s[1..], id)
  }

  lemma {:induction false} UnreversedMore(log: seq<Event>, reversed: set<string>, id: string)
    ensures Unreversed(log, reversed + {id}) == DropId(Unreversed(log, reversed), id)
  {
    if log != [] {
      UnreversedMore(log[1..], reversed, id);
      var rest := DropId(Unreversed(log[1..], reversed), id);
      assert [] + rest == rest;
      if !log[0].kind.Reversal? && log[0].id !in reversed {
        assert Unreversed(log, reversed)[1..] == Unreversed(log[1..], reversed);
      }
    }
  }

  lemma {:induction false} DropAbsent(s: seq<Event>, id: string)
    requires forall e :: e in s ==> e.id != id
    ensures DropId(s, id) == s
  {
    if s != [] { DropAbsent(s[1..], id); }
  }

  lemma {:induction false} DropPresent(s: seq<Event>, p: nat)
    requires UniqueIds(s) && p < |s|
    ensures DropId(s, s[p].id) == s[..p] + s[p + 1..]
  {
    var rest := s[1..];
    assert forall i :: 0 <= i < |rest| ==> rest[i] == s[i + 1];
    if p == 0 {
      DropAbsent(rest, s[0].id);
      assert [] + rest == rest;
    } else {
      DropPresent(rest, p - 1);
      assert s[..p] == [s[0]] + rest[..p - 1];
      assert s[p + 1..] == rest[p..];
    }
  }

  lemma FreshWellKept(log: seq<Event>, e: Event)
    requires WellKept(log) && Fresh(log, e)
    requires e.kind.Reversal? ==> e.kind.target in EventIds(log)
    ensures WellKept(log + [e])
  {
    TargetsAppend(log, e);
    var all := log + [e];
    forall i | 0 <= i < |log| ensures log[i].id != e.id { assert log[i].id in EventIds(log); }
    assert forall i :: 0 <= i < |log| ==> all[i] == log[i];
    assert UniqueIds(all) && RisingSeq(all);
  }

  lemma FreshSurvives(log: seq<Event>, e: Event)
    requires WellKept(log) && WellKept(log + [e]) && e.id !in EventIds(log)
    ensures !e.kind.Reversal? ==> Surviving(log + [e]) == Surviving(log) + [e]
    ensures e.kind.Reversal? ==> Surviving(log + [e]) == DropId(Surviving(log), e.kind.target)
  {
    TargetsAppend(log, e);
    var reversed := ReversedTargets(log);
    SurvivingInOrder(log);
    SurvivingInOrder(log + [e]);
    UnreversedAppend(log, e, ReversedTargets(log + [e]));
    if e.kind.Reversal? {
      UnreversedMore(log, reversed, e.kind.target);
      var kept := Unreversed(log, ReversedTargets(log + [e]));
      assert kept + [] == kept;
    } else {
      assert reversed + {} == reversed;
    }
  }

  lemma FreshKeeps(log: seq<Event>, e: Event)
    requires WellKept(log) && Fresh(log, e)
    requires e.kind.Reversal? ==> e.kind.target in EventIds(log)
    ensures WellKept(log + [e])
    ensures !e.kind.Reversal? ==> Surviving(log + [e]) == Surviving(log) + [e]
    ensures e.kind.Reversal? ==> Surviving(log + [e]) == DropId(Surviving(log), e.kind.target)
  {
    FreshWellKept(log, e);
    FreshSurvives(log, e);
  }

  // --- The target's kind decides what its removal can break. ---

  datatype TargetKind = Opening | Disposal | Consolidation | ForwardSplit | Inert

  /** An opening, a sale, a split that does not raise share counts, one that does, or a
      reversal, which has no effect to remove. */
  function KindOfTarget(e: Event): TargetKind {
    match e.kind
    case Buy(_, _, _, _, _, _, _) => Opening
    case Vest(_, _, _, _, _, _) => Opening
    case Sell(_, _, _, _, _, _, _, _, _) => Disposal
    case Split(_, num, den) => if num <= den then Consolidation else ForwardSplit
    case Reversal(_) => Inert
  }

  function TargetOf(log: seq<Event>, id: string): (r: Option<Event>)
    ensures r.Some? ==> r.value in log && r.value.id == id
    ensures r.None? ==> id !in EventIds(log)
  {
    if log == [] then None
    else if log[0].id == id then Some(log[0])
    else TargetOf(log[1..], id)
  }

  /** The guards left to check once a reversal is accepted: none for an opening; the cap of
      every surviving split for a sale or a consolidation; also the cover of every surviving
      sale for a forward split. */
  predicate SafeReversal(log: seq<Event>, r: Event)
    requires r.kind.Reversal?
  {
    var after := Surviving(log + [r]);
    match TargetOf(log, r.kind.target)
    case None => false
    case Some(t) =>
      (match KindOfTarget(t)
       case Opening => true
       case Inert => true
       case Disposal => SplitsWithinCap(EMPTY_BOOK, after)
       case Consolidation => SplitsWithinCap(EMPTY_BOOK, after)
       case ForwardSplit => SplitsWithinCap(EMPTY_BOOK, after) && SalesCovered(EMPTY_BOOK, after))
  }

  lemma {:induction false} TakenNonNegative(plan: Plan, i: nat)
    requires forall k :: 0 <= k < |plan| ==> plan[k].qty > 0
    ensures Taken(plan, i) >= 0
  {
    if plan != [] { TakenNonNegative(plan[1..], i); }
  }

  lemma DisposalLowers(b: Book, e: Event)
    requires SoundLots(b.lots)
    requires ApplyEvent(b, e).1.Accepted?
    requires KindOfTarget(e).Disposal? || KindOfTarget(e).Consolidation?
    ensures Dominated(ApplyEvent(b, e).0.lots, b.lots)
  {
    if e.kind.Sell? {
      var k := e.kind;
      SaleQuantities(b, e);
      SelectedFeasible(b.lots, k.symbol, k.qty, k.lotRefs, k.platform);
      forall i | 0 <= i < |b.lots| ensures Taken(SalePlan(b, e), i) >= 0 {
        TakenNonNegative(SalePlan(b, e), i);
      }
    } else {
      SplitSound(b.lots, e.kind.symbol, e.kind.num, e.kind.den);
      SplitLotsAt(b.lots, e.kind.symbol, e.kind.num, e.kind.den);
      forall i | 0 <= i < |b.lots| ensures ApplyEvent(b, e).0.lots[i].qty <= b.lots[i].qty {
        RescaledBounds(b.lots[i].qty, e.kind.num, e.kind.den);
      }
    }
  }

  /** The re-fold without one event of an error-free run. */
  lemma CleanWithout(b: Book, t: Event, post: seq<Event>)
    requires SoundLots(b.lots)
    requires Clean(b, [t] + post)
    requires KindOfTarget(t).Opening? ==> t.id !in Fold(b, [t] + post).dependedOn
    ensures KindOfTarget(t).Opening? ==> Clean(b, post) && LacksLot(Fold(b, [t] + post), Fold(b, post), |b.lots|)
    ensures KindOfTarget(t).Opening? ==> Fold(b, [t] + post).lots[|b.lots|].openEvent == t.id
    ensures KindOfTarget(t).Disposal? || KindOfTarget(t).Consolidation? ==>
      (Clean(b, post) <==> SplitsWithinCap(b, post))
    ensures KindOfTarget(t).ForwardSplit? ==> (Clean(b, post) <==> SplitsWithinCap(b, post) && SalesCovered(b, post))
  {
    var run := [t] + post;
    assert run[0] == t && run[1..] == post;
    var a := ApplyEvent(b, t).0;
    EventSound(b, t);
    match KindOfTarget(t)
    case Opening =>
      assert Cut(a.lots, |b.lots|) == b.lots;
      FoldWithoutLot(a, b, |b.lots|, post);
    case Disposal =>
      DisposalLowers(b, t);
      CleanDominates(a, b, post);
    case Consolidation =>
      DisposalLowers(b, t);
      CleanDominates(a, b, post);
    case ForwardSplit =>
      SplitSound(b.lots, t.kind.symbol, t.kind.num, t.kind.den);
      CleanOverSameLots(a, b, post);
    case Inert =>
  }

  /** Position of the target among the survivors. */
  lemma TargetPosition(log: seq<Event>, r: Event) returns (p: nat)
    requires WellKept(log) && Admitted(log, r)
    requires !KindOfTarget(TargetOf(log, r.kind.target).value).Inert?
    ensures p < |Surviving(log)| && Surviving(log)[p] == TargetOf(log, r.kind.target).value
  {
    var t := TargetOf(log, r.kind.target).value;
    SurvivingInOrder(log);
    UnreversedMembers(log, ReversedTargets(log));
    assert t in Surviving(log);
    p :| 0 <= p < |Surviving(log)| && Surviving(log)[p] == t;
  }

  lemma TargetSurvives(log: seq<Event>, r: Event) returns (p: nat)
    requires WellKept(log) && Fresh(log, r)
    requires Admitted(log, r)
    requires !KindOfTarget(TargetOf(log, r.kind.target).value).Inert?
    ensures p < |Surviving(log)|
    ensures Surviving(log)[p] == TargetOf(log, r.kind.target).value
    ensures Surviving(log + [r]) == Surviving(log)[..p] + Surviving(log)[p + 1..]
  {
    p := TargetPosition(log, r);
    FreshKeeps(log, r);
    SurvivingInOrder(log);
    DropPresent(Surviving(log), p);
  }

  lemma InertReversal(log: seq<Event>, r: Event)
    requires WellKept(log) && Fresh(log, r)
    requires Admitted(log, r)
    requires KindOfTarget(TargetOf(log, r.kind.target).value).Inert?
    ensures Surviving(log + [r]) == Surviving(log)
  {
    var t := TargetOf(log, r.kind.target).value;
    FreshKeeps(log, r);
    SurvivingInOrder(log);
    UnreversedMembers(log, ReversedTargets(log));
    forall e | e in Surviving(log) ensures e.id != t.id {
      OneEventPerId(log, e, t);
    }
    DropAbsent(Surviving(log), t.id);
  }

  lemma OneEventPerId(log: seq<Event>, a: Event, b: Event)
    requires UniqueIds(log) && a in log && b in log
    ensures a.id == b.id ==> a == b
  {
    var i :| 0 <= i < |log| && log[i] == a;
    var j :| 0 <= j < |log| && log[j] == b;
  }

  /** What replays either way: the survivors before the target, the target, those after. */
  lemma AroundTarget(log: seq<Event>, r: Event) returns (pre: seq<Event>, t: Event, post: seq<Event>)
    requires WellKept(log) && Fresh(log, r) && Admitted(log, r)
    requires Clean(EMPTY_BOOK, Surviving(log))
    requires !KindOfTarget(TargetOf(log, r.kind.target).value).Inert?
    ensures t == TargetOf(log, r.kind.target).value
    ensures Surviving(log) == pre + ([t] + post) && Surviving(log + [r]) == pre + post
    ensures SoundLots(Fold(EMPTY_BOOK, pre).lots) && Clean(EMPTY_BOOK, pre) && Clean(Fold(EMPTY_BOOK, pre), [t] + post)
    ensures StateOf(log) == Fold(Fold(EMPTY_BOOK, pre), [t] + post)
  {
    var p := TargetSurvives(log, r);
    pre, t, post := SplitAt(Surviving(log), p);
    FoldAppend(EMPTY_BOOK, pre, [t] + post);
    FoldSound(EMPTY_BOOK, pre);
  }

  lemma SplitAt(run: seq<Event>, p: nat) returns (pre: seq<Event>, t: Event, post: seq<Event>)
    requires p < |run|
    ensures pre == run[..p] && t == run[p] && post == run[p + 1..] && run == pre + ([t] + post)
  {
    pre, t, post := run[..p], run[p], run[p + 1..];
  }

  lemma AdmittedReversalIff(log: seq<Event>, r: Event)
    requires WellKept(log) && Fresh(log, r) && Admitted(log, r)
    requires Clean(EMPTY_BOOK, Surviving(log))
    ensures Clean(EMPTY_BOOK, Surviving(log + [r])) <==> SafeReversal(log, r)
  {
    var t := TargetOf(log, r.kind.target).value;
    if KindOfTarget(t).Inert? {
      InertReversal(log, r);
    } else {
      var pre, _, post := AroundTarget(log, r);
      FoldAppend(EMPTY_BOOK, pre, post);
      CleanMeetsGuards(EMPTY_BOOK, pre);
      CleanWithout(Fold(EMPTY_BOOK, pre), t, post);
    }
  }

  /** An accepted reversal keeps replay free of errors exactly when its guards hold. */
  lemma {:induction false} AcceptedReversalIff(log: seq<Event>, r: Event)
    requires WellKept(log) && Fresh(log, r)
    requires Clean(EMPTY_BOOK, Surviving(log))
    requires r.kind.Reversal? && Validate(log, r).Accepted?
    ensures Clean(EMPTY_BOOK, Surviving(log + [r])) <==> SafeReversal(log, r)
  {
    AcceptedIsAdmitted(log, r);
    AdmittedReversalIff(log, r);
  }

  lemma AdmittedOpeningReversal(log: seq<Event>, r: Event) returns (p: nat)
    requires WellKept(log) && Fresh(log, r) && Admitted(log, r)
    requires Clean(EMPTY_BOOK, Surviving(log))
    requires KindOfTarget(TargetOf(log, r.kind.target).value).Opening?
    ensures Clean(EMPTY_BOOK, Surviving(log + [r]))
    ensures LacksLot(StateOf(log), StateOf(log + [r]), p)
    ensures StateOf(log).lots[p].openEvent == r.kind.target
  {
    var pre, t, post := AroundTarget(log, r);
    FoldAppend(EMPTY_BOOK, pre, post);
    CleanWithout(Fold(EMPTY_BOOK, pre), t, post);
    p := |Fold(EMPTY_BOOK, pre).lots|;
  }

  /** Reversing an opening no surviving sale or split has touched leaves every other lot,
      every gain and every dependency exactly as they were. */
  lemma {:induction false} UnusedOpeningReversal(log: seq<Event>, r: Event) returns (p: nat)
    requires WellKept(log) && Fresh(log, r)
    requires Clean(EMPTY_BOOK, Surviving(log))
    requires r.kind.Reversal? && Validate(log, r).Accepted?
    requires KindOfTarget(TargetOf(log, r.kind.target).value).Opening?
    ensures Clean(EMPTY_BOOK, Surviving(log + [r]))
    ensures LacksLot(StateOf(log), StateOf(log + [r]), p)
    ensures StateOf(log).lots[p].openEvent == r.kind.target
  {
    AcceptedIsAdmitted(log, r);
    p := AdmittedOpeningReversal(log, r);
  }

  // --- Logs grown by validation. ---

  /** The validator accepts a non-reversal exactly when the fold does, with the same error. */
  lemma {:induction false} ValidatorAgrees(log: seq<Event>, e: Event)
    requires !e.kind.Reversal?
    ensures Validate(log, e) == ApplyEvent(StateOf(log), e).1
  {
    if e.kind.Split? && e.kind.den >= 1 {
      SplitLotsAt(StateOf(log).lots, e.kind.symbol, e.kind.num, e.kind.den);
    }
  }

  /** Grown one accepted event at a time, every reversal being safe. */
  ghost predicate Grown(log: seq<Event>)
    decreases |log|
  {
    log != [] ==>
      var pre, e := log[..|log| - 1], log[|log| - 1];
      && Grown(pre)
      && Fresh(pre, e)
      && Validate(pre, e).Accepted?
      && (e.kind.Reversal? ==> SafeReversal(pre, e))
  }

  /** Replay over a log grown by validation never meets an event it must reject. */
  lemma {:induction false} GrownReplaysClean(log: seq<Event>)
    requires Grown(log)
    ensures WellKept(log)
    ensures Clean(EMPTY_BOOK, Surviving(log))
    decreases |log|
  {
    if log != [] {
      var pre, e := log[..|log| - 1], log[|log| - 1];
      assert log == pre + [e];
      GrownReplaysClean(pre);
      if e.kind.Reversal? { AcceptedIsAdmitted(pre, e); }
      FreshKeeps(pre, e);
      if e.kind.Reversal? {
        AdmittedReversalIff(pre, e);
      } else {
        ValidatorAgrees(pre, e);
        FoldAppend(EMPTY_BOOK, Surviving(pre), [e]);
        assert Clean(StateOf(pre), [e]);
      }
    }
  }

  // --- Without splits validation alone suffices. ---

  ghost predicate NoSplits(events: seq<Event>) {
    forall e :: e in events ==> !e.kind.Split?
  }

  lemma {:induction false} NoSplitsCapped(b: Book, events: seq<Event>)
    requires NoSplits(events)
    ensures SplitsWithinCap(b, events)
    decreases |events|
  {
    if events != [] {
      assert events[0] in events;
      NoSplitsCapped(ApplyEvent(b, events[0]).0, events[1..]);
    }
  }

  /** Every event fresh and accepted, nothing said about reversals. */
  ghost predicate Validated(log: seq<Event>)
    decreases |log|
  {
    log != [] ==>
      var pre, e := log[..|log| - 1], log[|log| - 1];
      Validated(pre) && Fresh(pre, e) && Validate(pre, e).Accepted?
  }

  lemma SafeWithoutSplits(log: seq<Event>, r: Event)
    requires WellKept(log) && Fresh(log, r) && NoSplits(log)
    requires Admitted(log, r)
    ensures SafeReversal(log, r)
  {
    FreshKeeps(log, r);
    SurvivorsSplitFree(log, r);
    NoSplitsCapped(EMPTY_BOOK, Surviving(log + [r]));
    var t := TargetOf(log, r.kind.target).value;
    assert !t.kind.Split?;
  }

  lemma SurvivorsSplitFree(log: seq<Event>, r: Event)
    requires NoSplits(log) && !r.kind.Split?
    requires WellKept(log + [r])
    ensures NoSplits(Surviving(log + [r]))
  {
    var all := log + [r];
    SurvivingInOrder(all);
    UnreversedMembers(all, ReversedTargets(all));
    forall e | e in Surviving(all) ensures !e.kind.Split? {
      assert e in all;
      assert e in log || e == r;
    }
  }

  /** In a log without splits every accepted reversal is safe, so validation at append
      time is enough for replay to be total. */
  lemma {:induction false} SplitFreeLogsGrow(log: seq<Event>)
    requires Validated(log) && NoSplits(log)
    ensures Grown(log)
    decreases |log|
  {
    if log != [] {
      var pre, e := log[..|log| - 1], log[|log| - 1];
      assert log == pre + [e];
      assert NoSplits(pre);
      SplitFreeLogsGrow(pre);
      GrownReplaysClean(pre);
      if e.kind.Reversal? {
        AcceptedIsAdmitted(pre, e);
        SafeWithoutSplits(pre, e);
      }
    }
  }

  // --- The one family that fails, on its smallest member. ---

  const BUY_TEN := Event("b", 1, 0, Buy("L", "AMZN", 10_000_000, 100, 0, "P", None))
  const SPLIT_TWENTY := Event("s", 2, 1, Split("AMZN", 20, 1))
  const SELL_150 := Event("x", 3, 2, Sell("S", "AMZN", 150_000_000, 5, 0, [], None, "P", None))
  const UNDO_SPLIT := Event("r", 4, 3, Reversal("s"))

  const BOUGHT := Book([Lot("L", "AMZN", 0, 1, FromBuy, 10_000_000, 1000, "P", None, "b", false)], [], {"AMZN"}, {})
  const SPLIT_UP := BOUGHT.(lots := [BOUGHT.lots[0].(qty := 200_000_000)], dependedOn := {"b"})

  lemma BuyTenOpens()
    ensures ApplyEvent(EMPTY_BOOK, BUY_TEN) == (BOUGHT, Accepted)
  {
    RoundUnique(10_000_000 * 100, SHARE_SCALE, 1000);
    var b := ApplyEvent(EMPTY_BOOK, BUY_TEN).0;
    assert b.lots == BOUGHT.lots;
    assert b.symbolsSeen == BOUGHT.symbolsSeen;
  }

  lemma SplitTwentyScales()
    ensures ApplyEvent(BOUGHT, SPLIT_TWENTY) == (SPLIT_UP, Accepted)
  {
    RoundUnique(10_000_000 * 20, 1, 200_000_000);
    assert BOUGHT.lots[1..] == [];
    assert SplitLots([], "AMZN", 20, 1) == ([], {}, true);
    var (lots, deps, ok) := SplitLots(BOUGHT.lots, "AMZN", 20, 1);
    assert lots == SPLIT_UP.lots && deps == {"b"} && ok;
    assert BOUGHT.dependedOn + deps == SPLIT_UP.dependedOn;
  }

  /** With one eligible lot the plan is a single take. */
  lemma LonePlan(l: Lot, symbol: string, platform: string, qty: int)
    requires Eligible(l, symbol, platform) && qty > 0
    ensures FifoPlan([l], symbol, platform, qty) == [Take(0, if l.qty >= qty then qty else l.qty)]
  {
    var lots := [l];
    var k := FifoKey(lots, 0);
    assert FifoKeys(lots, symbol, platform, 1) == [];
    assert FifoKeys(lots, symbol, platform, 0) == [k];
    assert FifoOrder(lots, symbol, platform) == [k];
    assert [k][1..] == [];
    var take := if l.qty >= qty then qty else l.qty;
    assert Greedy(lots, [], qty - take) == [];
  }

  lemma Sell150Fits()
    ensures ApplyEvent(SPLIT_UP, SELL_150).1 == Accepted
  {
    var l := SPLIT_UP.lots[0];
    LonePlan(l, "AMZN", "P", 150_000_000);
    assert SPLIT_UP.lots == [l];
    assert PlanQty([Take(0, 150_000_000)][1..]) == 0;
    assert PlanQty([Take(0, 150_000_000)]) == 150_000_000;
    RoundUnique(150_000_000 * 5, SHARE_SCALE, 750);
  }

  lemma Sell150Short()
    ensures ApplyEvent(BOUGHT, SELL_150) == (BOUGHT, Rejected(InsufficientShares))
  {
    LonePlan(BOUGHT.lots[0], "AMZN", "P", 150_000_000);
    assert PlanQty([Take(0, 10_000_000)][1..]) == 0;
    assert PlanQty([Take(0, 10_000_000)]) == 10_000_000;
  }

  const SPLIT_LOG := [BUY_TEN, SPLIT_TWENTY, SELL_150]

  lemma SplitLogGrows()
    ensures Grown(SPLIT_LOG)
    ensures Surviving(SPLIT_LOG) == SPLIT_LOG
    ensures StateOf(SPLIT_LOG) == ApplyEvent(SPLIT_UP, SELL_150).0
  {
    SplitLogStarts();
    var log2 := [BUY_TEN, SPLIT_TWENTY];
    Sell150Fits();
    GrowByOne(log2, SELL_150, SPLIT_UP);
    assert log2 + [SELL_150] == SPLIT_LOG;
  }

  lemma SplitLogStarts()
    ensures Grown([BUY_TEN, SPLIT_TWENTY])
    ensures Surviving([BUY_TEN, SPLIT_TWENTY]) == [BUY_TEN, SPLIT_TWENTY]
    ensures StateOf([BUY_TEN, SPLIT_TWENTY]) == SPLIT_UP
  {
    BuyTenOpens();
    SplitTwentyScales();
    GrowByOne([], BUY_TEN, EMPTY_BOOK);
    assert [] + [BUY_TEN] == [BUY_TEN];
    GrowByOne([BUY_TEN], SPLIT_TWENTY, BOUGHT);
    assert [BUY_TEN] + [SPLIT_TWENTY] == [BUY_TEN, SPLIT_TWENTY];
  }

  lemma SplitNotDependedOn()
    ensures "s" !in ApplyEvent(SPLIT_UP, SELL_150).0.dependedOn
  {
    Sell150Fits();
    SaleDependsOnly(SPLIT_UP, SELL_150);
    assert "s" != "b";
  }

  lemma UndoFresh()
    ensures Fresh(SPLIT_LOG, UNDO_SPLIT)
  {
    forall i | 0 <= i < 3 ensures SPLIT_LOG[i].id != "r" && SPLIT_LOG[i].seqNo < 4 {
      assert SPLIT_LOG[i] == BUY_TEN || SPLIT_LOG[i] == SPLIT_TWENTY || SPLIT_LOG[i] == SELL_150;
    }
  }

  lemma UndoAdmitted()
    ensures Admitted(SPLIT_LOG, UNDO_SPLIT)
  {
    SplitLogGrows();
    SplitNotDependedOn();
    NoReversals(SPLIT_LOG);
    assert SPLIT_LOG[1].id == UNDO_SPLIT.kind.target;
  }

  lemma UndoAccepted()
    ensures Validate(SPLIT_LOG, UNDO_SPLIT).Accepted?
    ensures Fresh(SPLIT_LOG, UNDO_SPLIT)
  {
    UndoFresh();
    UndoAdmitted();
    AcceptedIsAdmitted(SPLIT_LOG, UNDO_SPLIT);
  }

  lemma UndoLeaves()
    ensures DropId(SPLIT_LOG, "s") == [BUY_TEN, SELL_150]
  {
    SplitLogGrows();
    GrownReplaysClean(SPLIT_LOG);
    DropPresent(SPLIT_LOG, 1);
    assert SPLIT_LOG[..1] + SPLIT_LOG[2..] == [BUY_TEN, SELL_150];
  }

  lemma UndoneFold()
    ensures Fold(EMPTY_BOOK, [BUY_TEN, SELL_150]) == BOUGHT
    ensures !Clean(EMPTY_BOOK, [BUY_TEN, SELL_150])
  {
    var left := [BUY_TEN, SELL_150];
    BuyTenOpens();
    Sell150Short();
    assert left[1..] == [SELL_150];
    assert [SELL_150][1..] == [];
    assert Fold(BOUGHT, [SELL_150]) == BOUGHT;
    assert !Clean(BOUGHT, [SELL_150]);
  }

  /** Buy 10, split 20:1, sell 150: replayed without error. Reversing the split is
      accepted, and the next replay drops the sale. */
  lemma {:induction false} ReversedSplitDropsSale()
    ensures Grown(SPLIT_LOG)
    ensures Validate(SPLIT_LOG, UNDO_SPLIT).Accepted?
    ensures !SafeReversal(SPLIT_LOG, UNDO_SPLIT)
    ensures Surviving(SPLIT_LOG + [UNDO_SPLIT]) == [BUY_TEN, SELL_150]
    ensures StateOf(SPLIT_LOG + [UNDO_SPLIT]) == BOUGHT
  {
    SplitLogGrows();
    UndoAccepted();
    GrownReplaysClean(SPLIT_LOG);
    FreshKeeps(SPLIT_LOG, UNDO_SPLIT);
    UndoLeaves();
    UndoneFold();
    AcceptedReversalIff(SPLIT_LOG, UNDO_SPLIT);
  }

  lemma GrowByOne(log: seq<Event>, e: Event, b: Book)
    requires Grown(log) && Fresh(log, e) && !e.kind.Reversal?
    requires StateOf(log) == b && Surviving(log) == log
    requires ApplyEvent(b, e).1.Accepted?
    ensures Grown(log + [e])
    ensures Surviving(log + [e]) == log + [e]
    ensures StateOf(log + [e]) == ApplyEvent(b, e).0
  {
    var all := log + [e];
    assert all[..|all| - 1] == log;
    ValidatorAgrees(log, e);
    GrownReplaysClean(log);
    FreshKeeps(log, e);
    FoldAppend(EMPTY_BOOK, log, [e]);
    assert [e][1..] == [];
  }

  lemma {:induction false} NoReversals(log: seq<Event>)
    requires forall e :: e in log ==> !e.kind.Reversal?
    ensures ReversedTargets(log) == {}
  {
    if log != [] { assert log[0] in log; NoReversals(log[1..]); }
  }

  /** A sale marks only the opening events of the lots there are. */
  lemma SaleDependsOnly(b: Book, e: Event)
    requires e.kind.Sell? && ApplyEvent(b, e).1.Accepted?
    ensures forall d ::
      d in ApplyEvent(b, e).0.dependedOn ==>
        d in b.dependedOn || exists i :: 0 <= i < |b.lots| && b.lots[i].openEvent == d
  {
    var k := e.kind;
    SelectedFeasible(b.lots, k.symbol, k.qty, k.lotRefs, k.platform);
    ConsumeMarks(b, SalePlan(b, e), Proceeds(b.lots, SalePlan(b, e), Net(e), k.qty), e);
  }

  lemma {:induction false} ConsumeMarks(b: Book, plan: Plan, proceeds: seq<int>, e: Event)
    requires e.kind.Sell? && |proceeds| == |plan|
    requires Feasible(b.lots, plan)
    ensures forall d :: d in ConsumePlan(b, plan, proceeds, e).dependedOn ==>
              d in b.dependedOn || exists i :: 0 <= i < |b.lots| && b.lots[i].openEvent == d
    decreases |plan|
  {
    if plan != [] {
      FeasibleTail(b, plan, proceeds[0], e);
      var b' := ConsumeTake(b, plan[0], proceeds[0], e);
      ConsumeMarks(b', plan[1..], proceeds[1..], e);
      forall i | 0 <= i < |b.lots| ensures b'.lots[i].openEvent == b.lots[i].openEvent {}
    }
  }
}
