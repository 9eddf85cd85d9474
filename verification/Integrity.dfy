/** The structural checks a log must pass before it is replayed. */
module Integrity {
  import opened Basics
  import opened Apportion
  import opened Ledger
  import opened Escape

  // --- Dense sequence numbers. ---

  function InsertNat(x: nat, s: seq<nat>): seq<nat> {
    if s == [] || x <= s[0] then [x] + s else [s[0]] + InsertNat(x, s[1..])
  }

  function SortNats(s: seq<nat>): seq<nat> {
    if s == [] then [] else InsertNat(s[0], SortNats(s[1..]))
  }

  ghost predicate Rising(s: seq<nat>) {
    forall i, j :: 0 <= i < j < |s| ==> s[i] <= s[j]
  }

  lemma {:induction false} InsertNatMembers(x: nat, s: seq<nat>)
    ensures multiset(InsertNat(x, s)) == multiset(s) + multiset{x}
    ensures forall y :: y in InsertNat(x, s) ==> y == x || y in s
  {
    if !(s == [] || x <= s[0]) {
      InsertNatMembers(x, s[1..]);
      assert s == [s[0]] + s[1..];
    }
  }

  lemma {:induction false} InsertNatSorts(x: nat, s: seq<nat>)
    requires Rising(s)
    ensures Rising(InsertNat(x, s)) && multiset(InsertNat(x, s)) == multiset(s) + multiset{x}
  {
    InsertNatMembers(x, s);
    if !(s == [] || x <= s[0]) {
      var rest := s[1..];
      var r := InsertNat(x, rest);
      assert forall i :: 0 <= i < |rest| ==> rest[i] == s[i + 1];
      InsertNatSorts(x, rest);
      InsertNatMembers(x, rest);
      forall i | 0 <= i < |r| ensures s[0] <= r[i] {
        assert r[i] in r;
      }
      RisingFront(s[0], r);
    }
  }

  lemma RisingFront(x: nat, s: seq<nat>)
    requires Rising(s) && forall i :: 0 <= i < |s| ==> x <= s[i]
    ensures Rising([x] + s)
  {
  }

  lemma {:induction false} SortNatsSorts(s: seq<nat>)
    ensures Rising(SortNats(s)) && multiset(SortNats(s)) == multiset(s) && |SortNats(s)| == |s|
  {
    if s != [] {
      SortNatsSorts(s[1..]);
      InsertNatSorts(s[0], SortNats(s[1..]));
      assert s == [s[0]] + s[1..];
    }
    assert |SortNats(s)| == |multiset(SortNats(s))| && |s| == |multiset(s)|;
  }

  /** Exactly the numbers 1 to n, each once, in any order. */
  ghost predicate Dense(s: seq<nat>) {
    && Distinct(s)
    && forall i :: 0 <= i < |s| ==> 1 <= s[i] <= |s|
  }

  ghost predicate CountsUp(s: seq<nat>) {
    forall i :: 0 <= i < |s| ==> s[i] == i + 1
  }

  lemma {:induction false} DistinctOccurs(s: seq<nat>, x: nat)
    requires Distinct(s)
    ensures multiset(s)[x] <= 1
  {
    if s != [] {
      var rest := s[1..];
      assert forall i :: 0 <= i < |rest| ==> rest[i] == s[i + 1];
      DistinctOccurs(rest, x);
      assert s == [s[0]] + rest;
      assert s[0] !in rest;
      assert s[0] !in multiset(rest);
    }
  }

  lemma TwoOccur(s: seq<nat>, i: nat, j: nat)
    requires i < j < |s| && multiset(s)[s[i]] <= 1
    ensures s[i] != s[j]
  {
    var others := s[..j] + s[j + 1..];
    assert s == s[..j] + [s[j]] + s[j + 1..];
    assert multiset(s) == multiset(others) + multiset{s[j]};
    assert others[i] == s[i];
    assert s[i] in multiset(others);
  }

  lemma SameMembersDistinct(s: seq<nat>, t: seq<nat>)
    requires multiset(s) == multiset(t) && Distinct(s)
    ensures Distinct(t)
  {
    forall i, j | 0 <= i < j < |t| ensures t[i] != t[j] {
      DistinctOccurs(s, t[i]);
      TwoOccur(t, i, j);
    }
  }

  lemma {:induction false} StrictlyRisingBounds(s: seq<nat>, n: nat, i: nat)
    requires Rising(s) && Distinct(s) && i < |s| == n
    requires forall k :: 0 <= k < |s| ==> 1 <= s[k] <= n
    ensures i + 1 <= s[i]
    decreases i
  {
    if i > 0 {
      StrictlyRisingBounds(s, n, i - 1);
      assert s[i - 1] != s[i];
    }
  }

  lemma {:induction false} StrictlyRisingTops(s: seq<nat>, n: nat, i: nat)
    requires Rising(s) && Distinct(s) && i < |s| == n
    requires forall k :: 0 <= k < |s| ==> 1 <= s[k] <= n
    ensures s[i] <= i + 1
    decreases n - i
  {
    if i + 1 < n {
      StrictlyRisingTops(s, n, i + 1);
      assert s[i] != s[i + 1];
    }
  }

  /** Sorted, dense numbers count up from 1, and only they do. */
  lemma {:induction false} DenseIffSortedCountsUp(s: seq<nat>)
    ensures Dense(s) <==> CountsUp(SortNats(s))
  {
    var t := SortNats(s);
    SortNatsSorts(s);
    if Dense(s) {
      SameMembersDistinct(s, t);
      MembersWithin(s, t, |s|);
      forall i | 0 <= i < |t| ensures t[i] == i + 1 {
        StrictlyRisingBounds(t, |t|, i);
        StrictlyRisingTops(t, |t|, i);
      }
    }
    if CountsUp(t) {
      SameMembersDistinct(t, s);
      MembersWithin(t, s, |s|);
    }
  }

  lemma MembersWithin(s: seq<nat>, t: seq<nat>, n: nat)
    requires multiset(s) == multiset(t)
    requires forall i :: 0 <= i < |s| ==> 1 <= s[i] <= n
    ensures forall i :: 0 <= i < |t| ==> 1 <= t[i] <= n
  {
    forall i | 0 <= i < |t| ensures 1 <= t[i] <= n {
      assert t[i] in multiset(s);
      var j :| 0 <= j < |s| && s[j] == t[i];
    }
  }

  /** One identity catches gaps, duplicates, a wrong start and a wrong count. */
  method CheckDenseSeq(seqs: seq<nat>) returns (r: Result<(), StoreError>)
    ensures r == if Dense(seqs) then Success(()) else Failure(NonDenseSeq)
  {
    if |seqs| == 0 { return Success(()); }
    var values := SortNats(seqs);
    DenseIffSortedCountsUp(seqs);
    var i := 0;
    while i < |values|
      invariant 0 <= i <= |values|
      invariant forall k :: 0 <= k < i ==> values[k] == k + 1
    {
      if values[i] != i + 1 { return Failure(NonDenseSeq); }
      i := i + 1;
    }
    return Success(());
  }

  /** A dense list's largest number is its length. */
  lemma DenseReachesLength(s: seq<nat>)
    requires Dense(s) && s != []
    ensures |s| in s
  {
    SortNatsSorts(s);
    DenseIffSortedCountsUp(s);
    var t := SortNats(s);
    assert t[|t| - 1] == |s|;
    assert |s| in multiset(t);
  }

  lemma DenseExtends(s: seq<nat>)
    requires Dense(s)
    ensures Dense(s + [|s| + 1])
  {
  }

  // --- Ledger integrity. ---

  function SeqNos(events: seq<Event>): (r: seq<nat>)
    ensures |r| == |events| && forall i :: 0 <= i < |events| ==> r[i] == events[i].seqNo
  {
    seq(|events|, i requires 0 <= i < |events| => events[i].seqNo)
  }

  /** The last event filed under an id. */
  function LastById(events: seq<Event>, id: string): Option<Event> {
    if events == [] then None
    else if events[|events| - 1].id == id then Some(events[|events| - 1])
    else LastById(events[..|events| - 1], id)
  }

  predicate ReversalSound(events: seq<Event>, e: Event) {
    e.kind.Reversal? ==>
      match LastById(events, e.kind.target)
      case None => false
      case Some(t) => t.seqNo < e.seqNo && !t.kind.Reversal?
  }

  ghost predicate Loadable(events: seq<Event>) {
    && Dense(SeqNos(events))
    && forall i :: 0 <= i < |events| ==> ReversalSound(events, events[i])
  }

  method IndexById(events: seq<Event>) returns (byId: map<string, (nat, bool)>)
    ensures forall id :: id in byId <==> LastById(events, id).Some?
    ensures forall id ::
      id in byId ==> byId[id] == (LastById(events, id).value.seqNo, LastById(events, id).value.kind.Reversal?)
  {
    byId := map[];
    var i := 0;
    assert events[..0] == [];
    while i < |events|
      invariant 0 <= i <= |events|
      invariant forall id :: id in byId <==> LastById(events[..i], id).Some?
      invariant forall id ::
        id in byId ==>
          byId[id] == (LastById(events[..i], id).value.seqNo, LastById(events[..i], id).value.kind.Reversal?)
    {
      assert events[..i + 1][..i] == events[..i];
      byId := byId[events[i].id := (events[i].seqNo, events[i].kind.Reversal?)];
      i := i + 1;
    }
    assert events[..i] == events;
  }

  /** Passes exactly the logs with dense sequence numbers whose reversals each name an
      earlier event that is not itself a reversal. */
  method CheckLedgerIntegrity(events: seq<Event>) returns (r: Result<(), StoreError>)
    ensures r.Success? <==> Loadable(events)
    ensures r.Failure? ==> r.error == if Dense(SeqNos(events)) then StoreError.BadReversal else NonDenseSeq
  {
    var dense := CheckDenseSeq(SeqNos(events));
    if dense.Failure? { return dense; }
    var byId := IndexById(events);
    var i := 0;
    while i < |events|
      invariant 0 <= i <= |events|
      invariant forall k :: 0 <= k < i ==> ReversalSound(events, events[k])
    {
      if events[i].kind.Reversal? {
        var target := events[i].kind.target;
        if target !in byId { return Failure(StoreError.BadReversal); }
        var (targetSeq, targetIsReversal) := byId[target];
        if targetSeq >= events[i].seqNo || targetIsReversal { return Failure(StoreError.BadReversal); }
      }
      i := i + 1;
    }
    return Success(());
  }

  // --- Validation and loading disagree about reversing a reversal. ---

  lemma {:induction false} LastByIdIs(events: seq<Event>, id: string)
    ensures LastById(events, id).Some? <==> exists i :: 0 <= i < |events| && events[i].id == id
    ensures LastById(events, id).Some? ==> LastById(events, id).value in events && LastById(events, id).value.id == id
  {
    if events != [] {
      var front := events[..|events| - 1];
      assert events == front + [events[|events| - 1]];
      LastByIdIs(front, id);
    }
  }

  lemma LastByIdGrows(events: seq<Event>, c: Event, id: string)
    ensures LastById(events + [c], id) == if c.id == id then Some(c) else LastById(events, id)
  {
    assert (events + [c])[..|events|] == events;
  }

  predicate ReversesReversal(events: seq<Event>, c: Event) {
    c.kind.Reversal? && LastById(events, c.kind.target).Some? && LastById(events, c.kind.target).value.kind.Reversal?
  }

  lemma AcceptedTargetExists(events: seq<Event>, c: Event)
    requires Validate(events, c).Accepted? && c.kind.Reversal?
    ensures LastById(events, c.kind.target).Some?
  {
    assert c.kind.target in EventIds(events);
    LastByIdIs(events, c.kind.target);
  }

  /** A validator-accepted event appended with the next sequence number and a fresh id keeps
      the log loadable exactly when it does not reverse a reversal. */
  lemma {:induction false} AcceptedStaysLoadable(events: seq<Event>, c: Event)
    requires Loadable(events)
    requires Validate(events, c).Accepted?
    requires c.seqNo == |events| + 1 && c.id !in EventIds(events)
    ensures Loadable(events + [c]) <==> !ReversesReversal(events, c)
  {
    if c.kind.Reversal? { AcceptedTargetExists(events, c); }
    ExtendedLoadable(events, c);
  }

  lemma ExtendedLoadable(events: seq<Event>, c: Event)
    requires Loadable(events)
    requires c.kind.Reversal? ==> LastById(events, c.kind.target).Some?
    requires c.seqNo == |events| + 1 && c.id !in EventIds(events)
    ensures Loadable(events + [c]) <==> !ReversesReversal(events, c)
  {
    var log := events + [c];
    assert Dense(SeqNos(log)) by {
      assert SeqNos(log) == SeqNos(events) + [|events| + 1];
      DenseExtends(SeqNos(events));
    }
    forall i | 0 <= i < |events| ensures ReversalSound(log, events[i]) { OldReversalStaysSound(events, c, i); }
    LoadableByLast(events, c);
    NewReversalSound(events, c);
  }

  lemma LoadableByLast(events: seq<Event>, c: Event)
    requires Dense(SeqNos(events + [c]))
    requires forall i :: 0 <= i < |events| ==> ReversalSound(events + [c], events[i])
    ensures Loadable(events + [c]) <==> ReversalSound(events + [c], c)
  {
    var log := events + [c];
    assert log[|events|] == c;
    assert forall i :: 0 <= i < |events| ==> log[i] == events[i];
  }

  lemma OldReversalStaysSound(events: seq<Event>, c: Event, i: nat)
    requires Loadable(events) && i < |events| && c.id !in EventIds(events)
    ensures ReversalSound(events + [c], events[i])
  {
    if events[i].kind.Reversal? {
      var target := events[i].kind.target;
      assert ReversalSound(events, events[i]);
      LastByIdGrows(events, c, target);
      LastByIdIs(events, target);
    }
  }

  lemma NewReversalSound(events: seq<Event>, c: Event)
    requires Dense(SeqNos(events))
    requires c.kind.Reversal? ==> LastById(events, c.kind.target).Some?
    requires c.seqNo == |events| + 1 && c.id !in EventIds(events)
    ensures ReversalSound(events + [c], c) <==> !ReversesReversal(events, c)
  {
    if c.kind.Reversal? {
      var target := c.kind.target;
      LastByIdGrows(events, c, target);
      LastByIdIs(events, target);
      var t := LastById(events, target).value;
      var i :| 0 <= i < |events| && events[i] == t;
      assert SeqNos(events)[i] <= |events|;
    }
  }
}
