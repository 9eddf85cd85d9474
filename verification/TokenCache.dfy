/** The coalesced token cache: any number of threads asking for a bearer, one mutex, one
    condition variable, and the mint run outside the lock. */
module TokenCaches {
  import opened Basics

  datatype Token = Token(bearer: string, expiresAt: int)

  predicate Expired(t: Token, now: int) {
    now >= t.expiresAt
  }

  /** Where a call is: about to run the locked section, asleep on the condition variable
      (notified or not), minting outside the lock, or over. */
  datatype Thread =
    | Idle
    | Deciding(now: int)
    | Waiting(now: int, notified: bool)
    | Minting(now: int)
    | Returned(now: int, bearer: string, minted: bool)
    | Failed
    | Panicked

  datatype State = State(token: Option<Token>, refreshing: bool, threads: seq<Thread>)

  datatype Label =
    | Call(i: nat, now: int)
    | Decide(i: nat)
    | Wake(i: nat)
    | Finish(i: nat, minted: Option<Token>)
    | Panic(i: nat)

  function With(s: State, i: nat, t: Thread): State
    requires i < |s.threads|
  {
    s.(threads := s.threads[i := t])
  }

  function Notified(t: Thread): Thread {
    if t.Waiting? then t.(notified := true) else t
  }

  function NotifyAll(threads: seq<Thread>): (r: seq<Thread>)
    ensures |r| == |threads| && forall i :: 0 <= i < |threads| ==> r[i] == Notified(threads[i])
  {
    seq(|threads|, i requires 0 <= i < |threads| => Notified(threads[i]))
  }

  /** The locked section: a fresh token is returned, a mint in flight is waited for, and
      otherwise this call becomes the one minting. */
  function AfterDecide(s: State, i: nat): State
    requires i < |s.threads| && s.threads[i].Deciding?
  {
    var now := s.threads[i].now;
    if s.token.Some? && !Expired(s.token.value, now) then With(s, i, Returned(now, s.token.value.bearer, false))
    else if s.refreshing then With(s, i, Waiting(now, false))
    else With(s, i, Minting(now)).(refreshing := true)
  }

  /** The second locked section, after the mint: clear the flag, wake everyone, keep the
      token if there is one. */
  function AfterFinish(s: State, i: nat, minted: Option<Token>): State
    requires i < |s.threads| && s.threads[i].Minting?
  {
    var woken := State(s.token, false, NotifyAll(s.threads));
    match minted
    case None => With(woken, i, Failed)
    case Some(t) => With(woken, i, Returned(s.threads[i].now, t.bearer, true)).(token := Some(t))
  }

  /** One step; a sleeper may also wake unnotified. */
  function Next(s: State, l: Label): Option<State> {
    if l.i >= |s.threads| then None
    else
      match (l, s.threads[l.i])
      case (Call(i, now), Idle) => Some(With(s, i, Deciding(now)))
      case (Decide(i), Deciding(_)) => Some(AfterDecide(s, i))
      case (Wake(i), Waiting(now, _)) => Some(With(s, i, Deciding(now)))
      case (Finish(i, minted), Minting(_)) => Some(AfterFinish(s, i, minted))
      case (Panic(i), Minting(_)) => Some(With(s, i, Panicked))
      case _ => None
  }

  function Run(s: State, labels: seq<Label>): Option<State>
    decreases |labels|
  {
    if labels == [] then Some(s)
    else match Run(s, labels[..|labels| - 1])
      case None => None
      case Some(t) => Next(t, labels[|labels| - 1])
  }

  /** A step of another thread at most notifies this one. */
  lemma OtherStep(s: State, l: Label, i: nat)
    requires Next(s, l).Some? && l.i != i && i < |s.threads|
    ensures |Next(s, l).value.threads| == |s.threads|
    ensures Next(s, l).value.threads[i] == s.threads[i] || Next(s, l).value.threads[i] == Notified(s.threads[i])
  {
  }

  lemma RunStep(s: State, labels: seq<Label>, l: Label, t: State)
    requires Run(s, labels) == Some(t)
    ensures Run(s, labels + [l]) == Next(t, l)
  {
    assert (labels + [l])[..|labels|] == labels;
  }

  // --- Single flight. ---

  /** The flag is up exactly while a thread is minting, and never two are. */
  ghost predicate SingleFlight(s: State) {
    && (s.refreshing <==> exists i :: 0 <= i < |s.threads| && s.threads[i].Minting?)
    && (forall i, j :: 0 <= i < j < |s.threads| ==> !(s.threads[i].Minting? && s.threads[j].Minting?))
  }

  /** Nobody sleeps unnotified without a mint in flight to wake it. */
  ghost predicate NoLostWakeup(s: State) {
    forall i :: 0 <= i < |s.threads| && s.threads[i].Waiting? && !s.threads[i].notified ==> s.refreshing
  }

  ghost predicate AtRest(s: State) {
    !s.refreshing && forall i :: 0 <= i < |s.threads| ==> s.threads[i] == Idle
  }

  predicate NoPanic(labels: seq<Label>) {
    forall k :: 0 <= k < |labels| ==> !labels[k].Panic?
  }

  lemma {:induction false} FlightStep(s: State, l: Label)
    requires SingleFlight(s) && NoLostWakeup(s) && Next(s, l).Some? && !l.Panic?
    ensures SingleFlight(Next(s, l).value) && NoLostWakeup(Next(s, l).value)
  {
    var t := Next(s, l).value;
    forall j | 0 <= j < |t.threads| && j != l.i
      ensures t.threads[j] == s.threads[j] || t.threads[j] == Notified(s.threads[j])
    {}
    assert t.refreshing ==> exists i :: 0 <= i < |t.threads| && t.threads[i].Minting? by {
      if t.refreshing {
        if s.refreshing {
          var i :| 0 <= i < |s.threads| && s.threads[i].Minting?;
          assert t.threads[i].Minting?;
        } else {
          assert t.threads[l.i].Minting?;
        }
      }
    }
  }

  /** Over every interleaving of calls, wakeups, spurious or not, and mints that end: one
      mint in flight at a time, and no sleeper forgotten. */
  lemma {:induction false} OneMintAtATime(s: State, labels: seq<Label>)
    requires AtRest(s) && Run(s, labels).Some? && NoPanic(labels)
    ensures SingleFlight(Run(s, labels).value) && NoLostWakeup(Run(s, labels).value)
    decreases |labels|
  {
    if labels != [] {
      OneMintAtATime(s, labels[..|labels| - 1]);
      FlightStep(Run(s, labels[..|labels| - 1]).value, labels[|labels| - 1]);
    }
  }

  /** The mint of thread `i` came back with the token in this run. */
  ghost predicate MintedBy(labels: seq<Label>, i: nat, t: Token) {
    Finish(i, Some(t)) in labels
  }

  /** The token was there at first or came back from some mint of the run. */
  ghost predicate Known(s: State, labels: seq<Label>, t: Token) {
    s.token == Some(t) || exists i :: MintedBy(labels, i, t)
  }

  /** The call was made at its time, and its bearer is that of a token it minted, or of a known
      token unexpired at that time. */
  ghost predicate WellReturned(s: State, labels: seq<Label>, i: nat, r: Thread)
    requires r.Returned?
  {
    && Call(i, r.now) in labels
    && exists t: Token ::
         t.bearer == r.bearer
         && if r.minted then MintedBy(labels, i, t) else (Known(s, labels, t) && r.now < t.expiresAt)
  }

  function NowOf(t: Thread): Option<int> {
    match t
    case Deciding(now) => Some(now)
    case Waiting(now, _) => Some(now)
    case Minting(now) => Some(now)
    case Returned(now, _, _) => Some(now)
    case _ => None
  }

  /** What a run from rest keeps. */
  ghost predicate WellServed(s: State, labels: seq<Label>, t: State) {
    && (t.token.Some? ==> Known(s, labels, t.token.value))
    && (forall i :: 0 <= i < |t.threads| && NowOf(t.threads[i]).Some? ==> Call(i, NowOf(t.threads[i]).value) in labels)
    && (forall i :: 0 <= i < |t.threads| && t.threads[i].Returned? ==> WellReturned(s, labels, i, t.threads[i]))
  }

  lemma KnownStill(s: State, labels: seq<Label>, l: Label, t: Token)
    requires Known(s, labels, t)
    ensures Known(s, labels + [l], t)
  {
    if s.token != Some(t) {
      var i :| MintedBy(labels, i, t);
      assert MintedBy(labels + [l], i, t);
    }
  }

  lemma WellReturnedStill(s: State, labels: seq<Label>, l: Label, i: nat, r: Thread)
    requires r.Returned? && WellReturned(s, labels, i, r)
    ensures WellReturned(s, labels + [l], i, r)
  {
    var t: Token :|
      t.bearer == r.bearer
      && if r.minted then MintedBy(labels, i, t) else (Known(s, labels, t) && r.now < t.expiresAt);
    if !r.minted { KnownStill(s, labels, l, t); }
  }

  lemma ServedStep(s: State, labels: seq<Label>, t: State, l: Label)
    requires WellServed(s, labels, t) && Next(t, l).Some?
    ensures WellServed(s, labels + [l], Next(t, l).value)
  {
    var u, more := Next(t, l).value, labels + [l];
    assert l in more && forall x :: x in labels ==> x in more;
    if u.token.Some? {
      if u.token == t.token {
        KnownStill(s, labels, l, u.token.value);
      } else {
        assert MintedBy(more, l.i, u.token.value);
      }
    }
    forall i | 0 <= i < |u.threads| && u.threads[i].Returned? ensures WellReturned(s, more, i, u.threads[i]) {
      if t.threads[i].Returned? {
        WellReturnedStill(s, labels, l, i, t.threads[i]);
      } else if l.Finish? {
        assert MintedBy(more, i, l.minted.value);
      } else {
        KnownStill(s, labels, l, t.token.value);
      }
    }
  }

  /** Over every interleaving, panics included: a call that has returned gives the bearer of a
      token its own mint brought back, or of one there at first or minted by some call of the
      run, unexpired at the time this call was made with. */
  lemma {:induction false} ReturnsFreshOrMinted(s: State, labels: seq<Label>)
    requires AtRest(s) && Run(s, labels).Some?
    ensures WellServed(s, labels, Run(s, labels).value)
    decreases |labels|
  {
    if labels != [] {
      var front, l := labels[..|labels| - 1], labels[|labels| - 1];
      ReturnsFreshOrMinted(s, front);
      ServedStep(s, front, Run(s, front).value, l);
      assert front + [l] == labels;
    }
  }

  /** The call of thread `j`, made at `now`, is on its way to a token it does not mint: woken,
      deciding with a fresh token there, or returned with one. */
  ghost predicate Reusing(s: State, labels: seq<Label>, t: State, j: nat, now: int) {
    && j < |t.threads| && t.token.Some? && now < t.token.value.expiresAt && Known(s, labels, t.token.value)
    && match t.threads[j]
       case Waiting(n, notified) => n == now && notified
       case Deciding(n) => n == now
       case Returned(n, bearer, minted) => n == now && !minted && GoodFor(s, labels, bearer, now)
       case _ => false
  }

  ghost predicate GoodFor(s: State, labels: seq<Label>, bearer: string, now: int) {
    exists t: Token :: t.bearer == bearer && Known(s, labels, t) && now < t.expiresAt
  }

  /** Every token minted in the run is fresh at that time. */
  predicate AllCover(labels: seq<Label>, now: int) {
    forall k ::
      0 <= k < |labels| && labels[k].Finish? && labels[k].minted.Some? ==> now < labels[k].minted.value.expiresAt
  }

  lemma ReusingStep(s: State, labels: seq<Label>, t: State, l: Label, j: nat, now: int)
    requires Reusing(s, labels, t, j, now) && Next(t, l).Some? && AllCover([l], now)
    ensures Reusing(s, labels + [l], Next(t, l).value, j, now)
  {
    var u, more := Next(t, l).value, labels + [l];
    if u.token == t.token {
      KnownStill(s, labels, l, u.token.value);
    } else {
      assert [l][0] == l && MintedBy(more, l.i, u.token.value);
    }
    if t.threads[j].Returned? {
      var tok: Token :| tok.bearer == t.threads[j].bearer && Known(s, labels, tok) && now < tok.expiresAt;
      KnownStill(s, labels, l, tok);
    }
  }

  /** From the end of a mint whose token covers a waiting call, over every run in which the
      tokens minted cover it too: the call never mints and never sleeps again, and once it has
      had its turn it has returned that token or a later one. */
  lemma {:induction false} WaitersReuse(s: State, i: nat, t: Token, j: nat, labels: seq<Label>)
    requires i < |s.threads| && s.threads[i].Minting? && j < |s.threads| && s.threads[j].Waiting?
    requires s.threads[j].now < t.expiresAt && AllCover(labels, s.threads[j].now)
    requires
      var woken := AfterFinish(s, i, Some(t));
      Run(woken, labels).Some?
    ensures Next(s, Finish(i, Some(t))) == Some(AfterFinish(s, i, Some(t)))
    ensures
      var woken := AfterFinish(s, i, Some(t));
      Reusing(woken, labels, Run(woken, labels).value, j, s.threads[j].now)
    decreases |labels|
  {
    if labels != [] {
      var front, l := labels[..|labels| - 1], labels[|labels| - 1];
      var woken := AfterFinish(s, i, Some(t));
      WaitersReuse(s, i, t, j, front);
      ReusingStep(woken, front, Run(woken, front).value, l, j, s.threads[j].now);
      assert front + [l] == labels;
    }
  }

  /** Such a call returns the token there at its very next turn. */
  lemma {:induction false} ReusingReturns(s: State, labels: seq<Label>, t: State, j: nat, now: int)
    requires Reusing(s, labels, t, j, now) && !t.threads[j].Returned?
    ensures
      var turns := if t.threads[j].Waiting? then [Wake(j), Decide(j)] else [Decide(j)];
      Run(t, turns) == Some(With(t, j, Returned(now, t.token.value.bearer, false)))
  {
    var done := Returned(now, t.token.value.bearer, false);
    assert [Wake(j)][..0] == [] && [Wake(j), Decide(j)][..1] == [Wake(j)] && [Decide(j)][..0] == [];
    if t.threads[j].Waiting? {
      assert Run(t, [Wake(j)]) == Some(With(t, j, Deciding(now)));
      assert t.threads[j := Deciding(now)][j := done] == t.threads[j := done];
    }
  }

  // --- A mint that never comes back. ---

  ghost predicate Wedged(s: State) {
    s.refreshing && forall i :: 0 <= i < |s.threads| ==> !s.threads[i].Minting?
  }

  /** If the mint panics, the flag stays up for good: nothing is ever minted again, and a call
      the cached token is too old for can only go back to sleep. */
  lemma {:induction false} PanicWedges(s: State, l: Label, labels: seq<Label>)
    requires SingleFlight(s) && l.Panic? && Next(s, l).Some? && Run(Next(s, l).value, labels).Some?
    ensures
      var t := Run(Next(s, l).value, labels).value;
      && Wedged(t) && t.token == s.token
      && forall i ::
           (0 <= i < |t.threads| && t.threads[i].Deciding?
            && (t.token.Some? ==> t.threads[i].now >= t.token.value.expiresAt)) ==>
             Next(t, Decide(i)) == Some(With(t, i, Waiting(t.threads[i].now, false)))
    decreases |labels|
  {
    if labels != [] {
      PanicWedges(s, l, labels[..|labels| - 1]);
    }
  }

  // --- One call, between any steps of the other threads. ---

  /** From the step numbered `from` on, only thread `i` moves. */
  ghost predicate OnlyBy(trace: seq<Label>, from: nat, i: nat) {
    forall k :: from <= k < |trace| ==> trace[k].i == i
  }

  lemma OnlyByPart(part: seq<Label>, whole: seq<Label>, n: nat, from: nat, i: nat)
    requires part <= whole && n <= from && OnlyBy(whole, n, i)
    ensures OnlyBy(part, from, i)
  {
  }

  /** What a turn of a call made at `now` comes to if no other thread moves: a fresh token is reused,
      a mint in flight is waited for, and otherwise one is made, for better or worse. */
  predicate TurnOutcome(s: State, now: int, r: Option<Result<string, ()>>, t: State) {
    if s.token.Some? && now < s.token.value.expiresAt then
      r == Some(Success(s.token.value.bearer)) && t.token == s.token
    else if s.refreshing then r.None?
    else r.Some? && (r.value.Failure? ==> t.token == s.token) && !t.refreshing
  }

  class Cache {
    var state: State
    ghost const start: State
    ghost var trace: seq<Label>

    constructor (s: State)
      ensures Valid() && state == s && start == s && trace == []
    {
      state, start, trace := s, s, [];
    }

    ghost predicate Valid()
      reads this
    {
      Run(start, trace) == Some(state)
    }

    method Take(l: Label)
      requires Valid() && Next(state, l).Some?
      modifies this
      ensures Valid() && Next(old(state), l) == Some(state) && trace == old(trace) + [l]
      ensures |state.threads| == |old(state).threads|
    {
      RunStep(start, trace, l, state);
      state := Next(state, l).value;
      trace := trace + [l];
    }

    method Others(i: nat)
      requires Valid() && i < |state.threads|
      modifies this
      ensures Valid() && |state.threads| == |old(state).threads|
      ensures state.threads[i] == old(state).threads[i] || state.threads[i] == Notified(old(state).threads[i])
      ensures old(trace) <= trace && (OnlyBy(trace, |old(trace)|, i) ==> state == old(state))
    {
      var n: nat := *;
      var k := 0;
      while k < n
        invariant Valid() && |state.threads| == |old(state).threads|
        invariant state.threads[i] == old(state).threads[i] || state.threads[i] == Notified(old(state).threads[i])
        invariant old(trace) <= trace && (OnlyBy(trace, |old(trace)|, i) ==> state == old(state))
      {
        var l: Label := *;
        if l.i != i && Next(state, l).Some? {
          OtherStep(state, l, i);
          ghost var before := trace;
          Take(l);
          assert trace[|before|] == l;
        }
        k := k + 1;
      }
    }

    /** What a call that has ended says of its thread. */
    ghost predicate Ended(i: nat, now: int, r: Result<string, ()>)
      reads this
    {
      && i < |state.threads|
      && if r.Failure? then state.threads[i] == Failed
         else
           && state.threads[i].Returned? && state.threads[i].now == now && state.threads[i].bearer == r.value
           && state.token.Some? && state.token.value.bearer == r.value
           && (state.threads[i].minted || now < state.token.value.expiresAt)
    }

    /** The mint, outside the lock, and the locked section after it. */
    method Mint(i: nat) returns (r: Result<string, ()>)
      requires Valid() && i < |state.threads| && state.threads[i].Minting?
      modifies this
      ensures Valid() && |state.threads| == |old(state).threads| && old(trace) <= trace
      ensures Ended(i, old(state.threads[i].now), r)
      ensures !state.refreshing
      ensures OnlyBy(trace, |old(trace)|, i) && r.Failure? ==> state.token == old(state).token
    {
      ghost var n := |trace|;
      Others(i);
      ghost var first := trace;
      var minted: Option<Token> := *;
      Take(Finish(i, minted));
      if OnlyBy(trace, n, i) { OnlyByPart(first, trace, n, n, i); }
      r := if state.threads[i].Failed? then Failure(()) else Success(state.threads[i].bearer);
    }

    /** Asleep until notified, or for no reason. */
    method Sleep(i: nat)
      requires Valid() && i < |state.threads| && state.threads[i].Waiting?
      modifies this
      ensures Valid() && |state.threads| == |old(state).threads| && old(trace) <= trace
      ensures state.threads[i] == Deciding(old(state.threads[i].now))
    {
      Others(i);
      Take(Wake(i));
    }

    /** One turn at the lock: a fresh token is returned, a mint is waited for or made. */
    method Turn(i: nat) returns (r: Option<Result<string, ()>>)
      requires Valid() && i < |state.threads| && state.threads[i].Deciding?
      modifies this
      ensures Valid() && |state.threads| == |old(state).threads| && old(trace) <= trace
      ensures r.Some? ==> Ended(i, old(state.threads[i].now), r.value)
      ensures r.None? ==> state.threads[i] == Deciding(old(state.threads[i].now))
      ensures OnlyBy(trace, |old(trace)|, i) ==> TurnOutcome(old(state), old(state.threads[i].now), r, state)
    {
      ghost var n := |trace|;
      Others(i);
      ghost var first := trace;
      Take(Decide(i));
      ghost var second := trace;
      if state.threads[i].Returned? {
        r := Some(Success(state.threads[i].bearer));
      } else if state.threads[i].Minting? {
        var minted := Mint(i);
        r := Some(minted);
      } else {
        Sleep(i);
        r := None;
      }
      if OnlyBy(trace, n, i) {
        OnlyByPart(first, trace, n, n, i);
        OnlyByPart(trace, trace, n, |second|, i);
      }
    }

    /** A call for a bearer as of `now`, followed for up to `rounds` turns at the lock; `None`
        if it still waits then. The mint's outcome is whatever the token endpoint says. */
    method FreshBearer(i: nat, now: int, rounds: nat) returns (r: Option<Result<string, ()>>)
      requires Valid() && i < |state.threads| && state.threads[i].Idle?
      modifies this
      ensures Valid() && |state.threads| == |old(state).threads|
      ensures r.Some? ==> Ended(i, now, r.value)
      ensures r.None? ==> state.threads[i] == Deciding(now)
      ensures old(trace) <= trace
      ensures rounds > 0 && OnlyBy(trace, |old(trace)|, i) && !old(state).refreshing ==>
        TurnOutcome(old(state), now, r, state)
    {
      ghost var n := |trace|;
      Take(Call(i, now));
      var k := 0;
      while k < rounds
        invariant Valid() && |state.threads| == |old(state).threads| && state.threads[i] == Deciding(now)
        invariant old(trace) <= trace
        invariant k == 0 ==> state.token == old(state).token && state.refreshing == old(state).refreshing
        invariant k > 0 && OnlyBy(trace, n, i) ==> old(state).refreshing
      {
        ghost var before := trace;
        r := Turn(i);
        if OnlyBy(trace, n, i) {
          OnlyByPart(before, trace, n, n, i);
          OnlyByPart(trace, trace, n, |before|, i);
        }
        if r.Some? { return; }
        k := k + 1;
      }
      return None;
    }
  }
}
