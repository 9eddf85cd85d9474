/** When exclusion of the advisory lock is lost: a judgement that a lockfile is stale loses it
    exactly when it is reckless. Runs in which it is lost, and runs in which a lock is
    recovered safely. */
module LockRaces {
  import opened Basics
  import opened Locks

  // --- What can still happen without another judgement. ---

  /** No step of the run judges a file stale. */
  ghost predicate NothingJudged(s: State, labels: seq<Label>)
    decreases |labels|
  {
    labels == [] ||
    (var front := labels[..|labels| - 1];
     NothingJudged(s, front) && Run(s, front).Some? && !Judges(Run(s, front).value, labels[|labels| - 1]))
  }

  ghost predicate Leads(s: State, labels: seq<Label>, t: State) {
    Run(s, labels) == Some(t) && NothingJudged(s, labels)
  }

  /** With no file judged stale from here on. */
  ghost predicate Reaches(s: State, t: State) {
    exists labels :: Leads(s, labels, t)
  }

  lemma Stays(s: State)
    ensures Reaches(s, s)
  {
    assert Leads(s, [], s);
  }

  lemma LeadsOn(s: State, labels: seq<Label>, t: State, l: Label)
    requires Leads(s, labels, t) && Next(t, l).Some? && !Judges(t, l)
    ensures Leads(s, labels + [l], Next(t, l).value)
  {
    assert (labels + [l])[..|labels|] == labels;
  }

  lemma OneStep(s: State, t: State, l: Label)
    requires Reaches(s, t) && Next(t, l).Some? && !Judges(t, l)
    ensures Reaches(s, Next(t, l).value)
  {
    var labels :| Leads(s, labels, t);
    LeadsOn(s, labels, t, l);
  }

  lemma {:induction false} LeadsAlong(s: State, t: State, labels: seq<Label>, u: State)
    requires Reaches(s, t) && Leads(t, labels, u)
    ensures Reaches(s, u)
    decreases |labels|
  {
    if labels != [] {
      var front := labels[..|labels| - 1];
      LeadsAlong(s, t, front, Run(t, front).value);
      OneStep(s, Run(t, front).value, labels[|labels| - 1]);
    }
  }

  lemma Further(s: State, t: State, u: State)
    requires Reaches(s, t) && Reaches(t, u)
    ensures Reaches(s, u)
  {
    var labels :| Leads(t, labels, u);
    LeadsAlong(s, t, labels, u);
  }

  lemma {:induction false} LeadsSound(s: State, labels: seq<Label>, t: State)
    requires Sound(s) && Leads(s, labels, t)
    ensures Sound(t)
    decreases |labels|
  {
    if labels != [] {
      var front := labels[..|labels| - 1];
      LeadsSound(s, front, Run(s, front).value);
      SoundStep(Run(s, front).value, labels[|labels| - 1]);
    }
  }

  /** Two processes have the lock in some state still to come. */
  ghost predicate CanLose(s: State) {
    exists t :: Reaches(s, t) && !Exclusive(t)
  }

  lemma SoundCannotLose(s: State)
    requires Sound(s)
    ensures !CanLose(s)
  {
    forall t | Reaches(s, t) ensures Exclusive(t) {
      var labels :| Leads(s, labels, t);
      LeadsSound(s, labels, t);
      SoundIsExclusive(t);
    }
  }

  lemma LosesLater(s: State, t: State)
    requires Reaches(s, t) && CanLose(t)
    ensures CanLose(s)
  {
    var u :| Reaches(t, u) && !Exclusive(u);
    Further(s, t, u);
  }

  lemma BothHold(s: State, t: State, p: nat, q: nat)
    requires Reaches(s, t) && p != q && p < |t.procs| && q < |t.procs|
    requires t.procs[p].handles != [] && t.procs[q].handles != []
    ensures CanLose(s)
  {
    assert !Exclusive(t);
  }

  // --- What one process can do on its own. ---

  /** The others are where they were, and so is the clock. */
  ghost predicate OnlyMoved(s: State, t: State, p: nat) {
    && |t.procs| == |s.procs| && t.clock == s.clock && t.ttl == s.ttl
    && forall q :: 0 <= q < |s.procs| && q != p ==> t.procs[q] == s.procs[q]
  }

  lemma Steps(s: State, l: Label) returns (t: State)
    requires Next(s, l).Some? && !Judges(s, l) && !l.Tick?
    ensures Next(s, l) == Some(t) && Reaches(s, t) && OnlyMoved(s, t, l.p)
  {
    t := Next(s, l).value;
    Stays(s);
    OneStep(s, s, l);
    Frame(s, l);
  }

  lemma Then(s: State, t: State, l: Label) returns (u: State)
    requires Reaches(s, t) && Next(t, l).Some? && !Judges(t, l) && !l.Tick?
    ensures Next(t, l) == Some(u) && Reaches(s, u) && OnlyMoved(t, u, l.p)
  {
    u := Next(t, l).value;
    OneStep(s, t, l);
    Frame(t, l);
  }

  /** Where a process may begin or resume an acquire. */
  predicate CanTry(pc: Pc) {
    pc.Idle? || pc.Trying?
  }

  /** With no file there, a process that may try creates it, afresh if it is out of rounds. */
  lemma {:induction false} Creates(s: State, p: nat) returns (t: State)
    requires p < |s.procs| && s.file.Absent? && CanTry(s.procs[p].pc)
    ensures Reaches(s, t) && OnlyMoved(s, t, p) && t.file == Empty(p, s.clock)
    ensures t.procs[p].pc.Created? && t.procs[p].handles == s.procs[p].handles
  {
    t := s;
    Stays(s);
    if t.procs[p].pc.Trying? { t := Then(s, t, Abandon(p)); }
    t := Then(s, t, Begin(p));
    t := Then(s, t, Create(p));
  }

  lemma {:induction false} Acquires(s: State, p: nat) returns (t: State)
    requires p < |s.procs| && s.file.Absent? && CanTry(s.procs[p].pc)
    ensures Reaches(s, t) && OnlyMoved(s, t, p) && t.procs[p].handles != []
    ensures t.procs[p].pc.Idle? && |t.procs[p].handles| == |s.procs[p].handles| + 1
  {
    t := Creates(s, p);
    t := Then(s, t, Write(p));
  }

  /** A process about to remove what is there removes it. */
  lemma {:induction false} Removes(s: State, p: nat) returns (t: State)
    requires p < |s.procs| && s.procs[p].pc.Removing?
    ensures Reaches(s, t) && OnlyMoved(s, t, p) && t.file.Absent?
    ensures t.procs[p].pc.Trying? && t.procs[p].handles == s.procs[p].handles
  {
    t := Steps(s, Remove(p, true));
  }

  /** A process about to remove what is there, while another has the lock, takes it too. */
  lemma {:induction false} RemoverTakesIt(s: State, p: nat, q: nat)
    requires p < |s.procs| && q < |s.procs| && p != q
    requires s.procs[p].pc.Removing? && s.procs[q].handles != []
    ensures CanLose(s)
  {
    var t := Removes(s, p);
    var u := Acquires(t, p);
    Further(s, t, u);
    BothHold(s, u, p, q);
  }

  // --- Each way of being reckless. ---

  /** Two processes about to remove: the second removes the file of the first. */
  lemma {:induction false} TwoRemoversLose(s: State, p: nat, q: nat)
    requires p < |s.procs| && q < |s.procs| && p != q
    requires s.procs[p].pc.Removing? && s.procs[q].pc.Removing?
    ensures CanLose(s)
  {
    var t := Removes(s, p);
    var u := Acquires(t, p);
    Further(s, t, u);
    RemoverTakesIt(u, q, p);
    LosesLater(s, u);
  }

  /** A creator about to write has a handle, whatever happens to its file. */
  lemma {:induction false} CreatorLoses(s: State, p: nat, q: nat)
    requires p < |s.procs| && q < |s.procs| && p != q
    requires s.procs[p].pc.Removing? && s.procs[q].pc.Created?
    ensures CanLose(s)
  {
    var t := Steps(s, Write(q));
    RemoverTakesIt(t, p, q);
    LosesLater(s, t);
  }

  /** A holder still trying, by a time at which its record is live, borrows the lock. */
  lemma {:induction false} BorrowerLoses(s: State, p: nat, q: nat)
    requires p < |s.procs| && q < |s.procs| && p != q && s.procs[p].pc.Removing?
    requires s.file.Record? && s.file.holder == q && WouldFindLive(s, s.procs[q].pc, s.file.since)
    ensures CanLose(s)
  {
    var t := s;
    Stays(s);
    if s.procs[q].pc.Trying? { t := Then(s, t, CreateFails(q)); }
    t := Then(s, t, Read(q));
    RemoverTakesIt(t, p, q);
    LosesLater(s, t);
  }

  /** With no file there, another process that is trying gets one. */
  lemma {:induction false} NewcomerLoses(s: State, p: nat, q: nat)
    requires p < |s.procs| && q < |s.procs| && p != q && s.procs[p].pc.Removing? && s.file.Absent?
    requires CanTry(s.procs[q].pc) || s.procs[q].pc.Reading?
    ensures CanLose(s)
  {
    var t := s;
    Stays(s);
    if s.procs[q].pc.Reading? { t := Then(s, t, Read(q)); }
    var u := Acquires(t, q);
    Further(s, t, u);
    RemoverTakesIt(u, p, q);
    LosesLater(s, u);
  }

  /** A holder that removes its own expired record keeps its handle, and another process that
      is not dating a file takes the lock. */
  lemma {:induction false} OwnRemoverLoses(s: State, p: nat, q: nat)
    requires p < |s.procs| && q < |s.procs| && p != q && s.procs[p].pc.Removing? && s.procs[p].handles != []
    requires CanTry(s.procs[q].pc) || s.procs[q].pc.Reading?
    ensures CanLose(s)
  {
    var t := Removes(s, p);
    if t.procs[q].pc.Reading? { t := Then(s, t, Read(q)); }
    var u := Acquires(t, q);
    Further(s, t, u);
    BothHold(s, u, p, q);
  }

  /** One that is dating a file finds the new one recent, and takes the lock once the holder
      has released the new handle and kept the old. */
  lemma {:induction false} OwnRemoverOutlivesDating(s: State, p: nat, q: nat)
    requires p < |s.procs| && q < |s.procs| && p != q && s.procs[p].pc.Removing? && s.procs[p].handles != []
    requires s.procs[q].pc.Aging? && s.procs[q].pc.now <= s.clock && s.ttl > 0
    ensures CanLose(s)
  {
    var t := Removes(s, p);
    var u := Creates(t, p);
    Further(s, t, u);
    u := Then(s, u, Age(q));
    var v := ReleasesNew(u, p);
    Further(s, u, v);
    var w := Acquires(v, q);
    Further(s, v, w);
    BothHold(s, w, p, q);
  }

  /** A creator writes its record and releases it again. */
  lemma {:induction false} ReleasesNew(s: State, p: nat) returns (t: State)
    requires p < |s.procs| && s.procs[p].pc.Created? && s.file.Empty? && s.file.creator == p
    ensures Reaches(s, t) && OnlyMoved(s, t, p) && t.file.Absent? && t.procs[p].handles == s.procs[p].handles
  {
    t := Steps(s, Write(p));
    t := Then(s, t, Drop(p));
    t := Then(s, t, Release(p, true));
    assert t.procs[p].handles == s.procs[p].handles;
  }

  // --- The exact condition. ---

  lemma JudgeRemoves(s: State, l: Label)
    requires Judges(s, l)
    ensures Next(s, l).Some? && l.p < |s.procs| && Next(s, l).value == Goto(s, l.p, Next(s, l).value.procs[l.p].pc)
    ensures Next(s, l).value.procs[l.p].pc.Removing?
    ensures s.procs[l.p].pc.Reading? ==> s.file.Record? && Older(s.procs[l.p].pc.now, s.file.since, s.ttl)
    ensures s.procs[l.p].pc.Reading? || s.procs[l.p].pc.Aging?
  {
  }

  /** A judgement while another process is about to remove a file. */
  lemma {:induction false} CrowdedLoses(s: State, l: Label)
    requires Judges(s, l) && !NobodyElseRemoving(s, l.p)
    ensures CanLose(Next(s, l).value)
  {
    JudgeRemoves(s, l);
    var q :| 0 <= q < |s.procs| && q != l.p && s.procs[q].pc.Removing?;
    TwoRemoversLose(Next(s, l).value, l.p, q);
  }

  /** A judgement of a file somebody relies on. */
  lemma {:induction false} ClaimedLoses(s: State, l: Label)
    requires Guarded(s) && !Alone(s) && s.ttl > 0 && Judges(s, l)
    requires !Unclaimed(s, l.p) && NobodyElseRemoving(s, l.p)
    ensures CanLose(Next(s, l).value)
  {
    JudgeRemoves(s, l);
    var p, t := l.p, Next(s, l).value;
    match s.file
    case Absent =>
      var q :| 0 <= q < |s.procs| && q != p && !s.procs[q].pc.Dead? && !s.procs[q].pc.Aging?;
      assert ProcGuarded(s, q);
      NewcomerLoses(t, p, q);
    case Empty(creator, _) =>
      CreatorLoses(t, p, creator);
    case Record(holder, _, _) =>
      if holder == p {
        OwnRecordLoses(s, l);
      } else if s.procs[holder].handles != [] {
        RemoverTakesIt(t, p, holder);
      } else {
        BorrowerLoses(t, p, holder);
      }
  }

  lemma {:induction false} OwnRecordLoses(s: State, l: Label)
    requires Guarded(s) && !Alone(s) && s.ttl > 0 && Judges(s, l)
    requires s.file.Record? && s.file.holder == l.p && !Unclaimed(s, l.p) && NobodyElseRemoving(s, l.p)
    ensures CanLose(Next(s, l).value)
  {
    JudgeRemoves(s, l);
    var p, t := l.p, Next(s, l).value;
    assert s.procs[p].handles != [];
    var q := AnotherAlive(s, p);
    assert ProcGuarded(s, q);
    if s.procs[q].pc.Aging? { OwnRemoverOutlivesDating(t, p, q); } else { OwnRemoverLoses(t, p, q); }
  }

  lemma AnotherAlive(s: State, p: nat) returns (q: nat)
    requires !Alone(s)
    ensures q < |s.procs| && q != p && !s.procs[q].pc.Dead?
  {
    var a, b :| 0 <= a < |s.procs| && 0 <= b < |s.procs| && a != b && !s.procs[a].pc.Dead? && !s.procs[b].pc.Dead?;
    q := if a != p then a else b;
  }

  /** In every state that keeps the invariant, whatever was reclaimed before: after a file is
      judged stale, two processes can come to have the lock with nothing more judged stale if
      and only if the judgement is reckless. */
  lemma {:induction false} RecklessIff(s: State, l: Label)
    requires Sound(s) && s.ttl > 0 && Judges(s, l)
    ensures Reckless(s, l) <==> CanLose(Next(s, l).value)
  {
    if Reckless(s, l) {
      if NobodyElseRemoving(s, l.p) { ClaimedLoses(s, l); } else { CrowdedLoses(s, l); }
    } else {
      SoundStep(s, l);
      SoundCannotLose(Next(s, l).value);
    }
  }

  /** At no moment of the run could exclusion be lost with nothing more judged stale. */
  ghost predicate NeverCanLose(s: State, labels: seq<Label>)
    decreases |labels|
  {
    && Run(s, labels).Some? && !CanLose(Run(s, labels).value)
    && (labels != [] ==> NeverCanLose(s, labels[..|labels| - 1]))
  }

  lemma TimeToLiveStays(s: State, labels: seq<Label>)
    requires Run(s, labels).Some?
    ensures Run(s, labels).value.ttl == s.ttl
    decreases |labels|
  {
    if labels != [] { TimeToLiveStays(s, labels[..|labels| - 1]); }
  }

  /** Over every run from rest: nothing reckless was done if and only if exclusion was never in
      danger. */
  lemma {:induction false} NothingRecklessIff(s: State, labels: seq<Label>)
    requires AtRest(s) && s.ttl > 0 && Run(s, labels).Some?
    ensures NothingReckless(s, labels) <==> NeverCanLose(s, labels)
    decreases |labels|
  {
    if NothingReckless(s, labels) {
      MutualExclusion(s, labels);
      SoundCannotLose(Run(s, labels).value);
    }
    if labels != [] {
      var front, last := labels[..|labels| - 1], labels[|labels| - 1];
      NothingRecklessIff(s, front);
      if NothingReckless(s, front) && Reckless(Run(s, front).value, last) {
        MutualExclusion(s, front);
        TimeToLiveStays(s, front);
        RecklessIff(Run(s, front).value, last);
      }
    }
  }

  // --- Recovering safely. ---

  lemma Follow(s: State, labels: seq<Label>, t: State, l: Label) returns (labels': seq<Label>, t': State)
    requires Run(s, labels) == Some(t) && Next(t, l).Some?
    ensures labels' == labels + [l] && Run(s, labels') == Some(t') && Next(t, l) == Some(t')
  {
    labels' := labels + [l];
    t' := Next(t, l).value;
    RunStep(s, labels, l, t);
  }

  lemma FollowSafely(s: State, labels: seq<Label>, t: State, l: Label) returns (labels': seq<Label>, t': State)
    requires Run(s, labels) == Some(t) && NothingReckless(s, labels) && Next(t, l).Some? && !Reckless(t, l)
    ensures labels' == labels + [l] && Run(s, labels') == Some(t') && Next(t, l) == Some(t')
    ensures NothingReckless(s, labels')
  {
    labels', t' := Follow(s, labels, t, l);
    assert labels'[..|labels|] == labels;
  }

  lemma FollowQuietly(s: State, labels: seq<Label>, t: State, l: Label) returns (labels': seq<Label>, t': State)
    requires Run(s, labels) == Some(t) && NothingReckless(s, labels) && Next(t, l).Some? && !Judges(t, l)
    ensures labels' == labels + [l] && Run(s, labels') == Some(t') && Next(t, l) == Some(t')
    ensures NothingReckless(s, labels')
  {
    labels', t' := FollowSafely(s, labels, t, l);
  }

  /** The file's time is out. */
  predicate Expired(s: State) {
    Reclaimable(s.file, s.clock, s.ttl)
  }

  /** A file past its time that nobody relies on: any idle process can reclaim it and take the
      lock, with nothing reckless done, `labels` being how the state came about. */
  lemma {:induction false} UnclaimedIsRecovered(s: State, labels: seq<Label>, t: State, p: nat)
    returns (labels': seq<Label>, t': State)
    requires Run(s, labels) == Some(t) && NothingReckless(s, labels)
    requires p < |t.procs| && t.procs[p].pc.Idle? && Expired(t) && Unclaimed(t, p) && NobodyElseRemoving(t, p)
    ensures labels <= labels' && Run(s, labels') == Some(t') && NothingReckless(s, labels')
    ensures OnlyMoved(t, t', p) && t'.file == Record(p, t.clock, t.clock)
    ensures t'.procs[p] == Proc(Idle, t.procs[p].handles + [Handle(t.clock, false)])
  {
    labels', t' := JudgesUnclaimed(s, labels, t, p);
    labels', t' := FollowQuietly(s, labels', t', Remove(p, true));
    labels', t' := FollowQuietly(s, labels', t', Create(p));
    labels', t' := FollowQuietly(s, labels', t', Write(p));
  }

  lemma {:induction false} JudgesUnclaimed(s: State, labels: seq<Label>, t: State, p: nat)
    returns (labels': seq<Label>, t': State)
    requires Run(s, labels) == Some(t) && NothingReckless(s, labels)
    requires p < |t.procs| && t.procs[p].pc.Idle? && Expired(t) && Unclaimed(t, p) && NobodyElseRemoving(t, p)
    ensures labels <= labels' && Run(s, labels') == Some(t') && NothingReckless(s, labels')
    ensures t' == Goto(t, p, Removing(t.clock, 0))
  {
    labels', t' := FollowQuietly(s, labels, t, Begin(p));
    labels', t' := FollowQuietly(s, labels', t', CreateFails(p));
    assert t' == Goto(t, p, Reading(t.clock, 0));
    labels', t' := LooksAndJudges(s, labels', t, t', p);
  }

  lemma {:induction false} LooksAndJudges(s: State, labels: seq<Label>, t: State, at: State, p: nat)
    returns (labels': seq<Label>, t': State)
    requires Run(s, labels) == Some(at) && NothingReckless(s, labels)
    requires p < |t.procs| && t.procs[p].pc.Idle? && Expired(t) && Unclaimed(t, p) && NobodyElseRemoving(t, p)
    requires at == Goto(t, p, Reading(t.clock, 0))
    ensures labels <= labels' && Run(s, labels') == Some(t') && NothingReckless(s, labels')
    ensures t' == Goto(t, p, Removing(t.clock, 0))
  {
    StillUnclaimed(t, p, Reading(t.clock, 0));
    labels', t' := FollowSafely(s, labels, at, Read(p));
    if t.file.Empty? {
      StillUnclaimed(t, p, Aging(t.clock, 0));
      assert t' == Goto(t, p, Aging(t.clock, 0));
      labels', t' := FollowSafely(s, labels', t', Age(p));
    }
  }

  lemma StillUnclaimed(t: State, p: nat, pc: Pc)
    requires p < |t.procs| && Expired(t) && Unclaimed(t, p) && NobodyElseRemoving(t, p)
    requires pc == Reading(t.clock, 0) || pc == Aging(t.clock, 0)
    ensures Unclaimed(Goto(t, p, pc), p) && NobodyElseRemoving(Goto(t, p, pc), p)
  {
  }

  const IDLE := Proc(Idle, [])
  const REST := State(Absent, 100, 10, [IDLE, IDLE])

  /** One process takes the lock. */
  lemma {:induction false} FirstTakesIt() returns (labels: seq<Label>, t: State)
    ensures Run(REST, labels) == Some(t) && NothingReckless(REST, labels)
    ensures labels == [Begin(0), Create(0), Write(0)]
    ensures t == State(Record(0, 100, 100), 100, 10, [Proc(Idle, [Handle(100, false)]), IDLE])
  {
    labels, t := FollowQuietly(REST, [], REST, Begin(0));
    assert t == State(Absent, 100, 10, [Proc(Trying(100, 0), []), IDLE]);
    labels, t := FollowQuietly(REST, labels, t, Create(0));
    assert t == State(Empty(0, 100), 100, 10, [Proc(Created(100), []), IDLE]);
    assert [] + [Handle(100, false)] == [Handle(100, false)];
    labels, t := FollowQuietly(REST, labels, t, Write(0));
  }

  /** What the other process finds once the first is out of it and time has passed. */
  lemma {:induction false} SecondRecovers(before: seq<Label>, at: State) returns (labels: seq<Label>, t: State)
    requires Run(REST, before) == Some(at) && NothingReckless(REST, before)
    requires |at.procs| == 2 && at.procs[0].handles == [] && (at.procs[0].pc.Idle? || at.procs[0].pc.Dead?)
    requires at.procs[1] == IDLE && at.clock == 100 && at.ttl == 10
    requires at.file == Empty(0, 100) || at.file == Record(0, 100, 100)
    ensures Run(REST, labels) == Some(t) && NothingReckless(REST, labels)
    ensures |t.procs| == 2 && t.procs[0] == at.procs[0] && t.procs[1].handles != []
  {
    labels, t := FollowQuietly(REST, before, at, Tick(10));
    assert t == at.(clock := 110);
    labels, t := UnclaimedIsRecovered(REST, labels, t, 1);
    assert OnlyMoved(at.(clock := 110), t, 1);
    assert |t.procs[1].handles| == 1;
  }

  /** A holder crashes; once its time is out another process has the lock. */
  lemma {:induction false} CrashIsRecovered() returns (labels: seq<Label>, t: State)
    ensures AtRest(REST) && Run(REST, labels) == Some(t) && NothingReckless(REST, labels)
    ensures |t.procs| == 2 && t.procs[0].pc.Dead? && t.procs[1].handles != []
  {
    labels, t := FirstTakesIt();
    labels, t := FollowQuietly(REST, labels, t, Crash(0));
    labels, t := SecondRecovers(labels, t);
  }

  /** A process creates the file, fails to write it and goes on running. */
  lemma {:induction false} FailedWriteIsRecovered() returns (labels: seq<Label>, t: State)
    ensures AtRest(REST) && Run(REST, labels) == Some(t) && NothingReckless(REST, labels)
    ensures |t.procs| == 2 && t.procs[0] == IDLE && t.procs[1].handles != []
  {
    labels, t := [], REST;
    labels, t := FollowQuietly(REST, labels, t, Begin(0));
    labels, t := FollowQuietly(REST, labels, t, Create(0));
    labels, t := FollowQuietly(REST, labels, t, WriteFails(0));
    labels, t := SecondRecovers(labels, t);
  }

  lemma {:induction false} ReleaseFails(before: seq<Label>, at: State) returns (labels: seq<Label>, t: State)
    requires Run(REST, before) == Some(at) && NothingReckless(REST, before)
    requires at == State(Record(0, 100, 100), 100, 10, [Proc(Idle, [Handle(100, false)]), IDLE])
    ensures Run(REST, labels) == Some(t) && NothingReckless(REST, labels)
    ensures t == at.(procs := [IDLE, IDLE])
  {
    labels, t := FollowQuietly(REST, before, at, Drop(0));
    assert t == at.(procs := [Proc(Releasing, [Handle(100, false)]), IDLE]);
    labels, t := FollowQuietly(REST, labels, t, Release(0, false));
  }

  /** A holder drops its handle, fails to remove the file and goes on running. */
  lemma {:induction false} FailedReleaseIsRecovered() returns (labels: seq<Label>, t: State)
    ensures AtRest(REST) && Run(REST, labels) == Some(t) && NothingReckless(REST, labels)
    ensures |t.procs| == 2 && t.procs[0] == IDLE && t.procs[1].handles != []
  {
    labels, t := FirstTakesIt();
    labels, t := ReleaseFails(labels, t);
    labels, t := SecondRecovers(labels, t);
  }

  // --- Runs in which exclusion is lost. ---

  /** Nobody crashes and only one process reclaims: it asks for a lock that its holder has kept
      past its time to live. */
  lemma {:induction false} SlowHolderLosesIt() returns (labels: seq<Label>, t: State)
    ensures AtRest(REST) && Run(REST, labels) == Some(t) && !Exclusive(t)
    ensures labels ==
      [Begin(0), Create(0), Write(0), Tick(10), Begin(1), CreateFails(1), Read(1), Remove(1, true), Create(1), Write(1)]
  {
    labels, t := FirstTakesIt();
    labels, t := SecondFindsItStale(labels, t);
    labels, t := RemovesAndTakes(REST, labels, t, 1);
    assert t.procs[0].handles != [] && t.procs[1].handles != [];
  }

  lemma {:induction false} SecondFindsItStale(before: seq<Label>, at: State) returns (labels: seq<Label>, t: State)
    requires Run(REST, before) == Some(at)
    requires at == State(Record(0, 100, 100), 100, 10, [Proc(Idle, [Handle(100, false)]), IDLE])
    ensures labels == before + [Tick(10), Begin(1), CreateFails(1), Read(1)] && Run(REST, labels) == Some(t)
    ensures t == at.(clock := 110, procs := [at.procs[0], Proc(Removing(110, 0), [])])
  {
    labels, t := Follow(REST, before, at, Tick(10));
    labels, t := Follow(REST, labels, t, Begin(1));
    labels, t := Follow(REST, labels, t, CreateFails(1));
    labels, t := Follow(REST, labels, t, Read(1));
  }

  lemma {:induction false} RemovesAndTakes(s: State, labels: seq<Label>, t: State, p: nat)
    returns (labels': seq<Label>, t': State)
    requires Run(s, labels) == Some(t) && p < |t.procs| && t.procs[p].pc.Removing? && t.procs[p].pc.attempt == 0
    ensures labels' == labels + [Remove(p, true), Create(p), Write(p)]
    ensures Run(s, labels') == Some(t') && OnlyMoved(t, t', p) && t'.procs[p].handles != []
    ensures t'.procs[p].pc.Idle? && t'.file.Record?
  {
    TakesOver(t, p, t.procs[p].pc.now);
    labels', t' := Follow(s, labels, t, Remove(p, true));
    labels', t' := Follow(s, labels', t', Create(p));
    labels', t' := Follow(s, labels', t', Write(p));
  }

  /** The three steps, state by state. */
  lemma TakesOver(t: State, p: nat, now: int)
    requires p < |t.procs| && t.procs[p].pc == Removing(now, 0)
    ensures
      var freed := Goto(t, p, Trying(now, 1)).(file := Absent);
      var made := Goto(t, p, Created(now)).(file := Empty(p, t.clock));
      var taken := With(t, p, Proc(Idle, t.procs[p].handles + [Handle(now, false)])).(file := Record(p, now, t.clock));
      && Next(t, Remove(p, true)) == Some(freed) && Next(freed, Create(p)) == Some(made)
      && Next(made, Write(p)) == Some(taken)
  {
    var freed, made := Goto(t, p, Trying(now, 1)), Goto(t, p, Created(now));
    var taken := With(t, p, Proc(Idle, t.procs[p].handles + [Handle(now, false)]));
    assert freed.procs[p := made.procs[p]] == made.procs && made.procs[p := taken.procs[p]] == taken.procs;
  }

  const CRASHED := State(Record(2, 0, 0), 100, 10, [IDLE, IDLE, Proc(Dead, [])])

  /** Two processes find the same dead process's lock stale. The second removes, without
      looking again, the file the first has just created, and both have the lock. */
  lemma {:induction false} StaleReclaimRace() returns (labels: seq<Label>, t: State)
    ensures Run(CRASHED, labels) == Some(t) && !Exclusive(t)
  {
    labels, t := Follow(CRASHED, [], CRASHED, Begin(0));
    labels, t := Follow(CRASHED, labels, t, Begin(1));
    labels, t := Follow(CRASHED, labels, t, CreateFails(0));
    labels, t := Follow(CRASHED, labels, t, CreateFails(1));
    labels, t := Follow(CRASHED, labels, t, Read(0));
    labels, t := Follow(CRASHED, labels, t, Read(1));
    assert t.procs[0].pc == Removing(100, 0) && t.procs[1].pc == Removing(100, 0);
    labels, t := RemovesAndTakes(CRASHED, labels, t, 0);
    labels, t := RemovesAndTakes(CRASHED, labels, t, 1);
    assert t.procs[0].handles != [] && t.procs[1].handles != [];
  }

  const THREE := State(Absent, 100, 10, [IDLE, IDLE, IDLE])

  /** No lock need ever have outlived its time: a process that saw another's file before it
      was written, and cannot date it because it is gone by then, removes whatever lock is
      there next. All of this at one instant. */
  lemma {:induction false} UndatedFileRace() returns (labels: seq<Label>, t: State)
    ensures AtRest(THREE) && Run(THREE, labels) == Some(t) && !Exclusive(t)
    ensures forall i :: 0 <= i < |labels| ==> !labels[i].Tick?
  {
    labels, t := SeenUnwritten();
    labels, t := WrittenAndReleased(labels, t);
    labels, t := Follow(THREE, labels, t, Age(1));
    assert t == State(Absent, 100, 10, [IDLE, Proc(Removing(100, 0), []), IDLE]);
    labels, t := ThirdTakesIt(labels, t);
    labels, t := RemovesAndTakes(THREE, labels, t, 1);
    assert t.procs[1].handles != [] && t.procs[2].handles != [];
  }

  lemma {:induction false} SeenUnwritten() returns (labels: seq<Label>, t: State)
    ensures Run(THREE, labels) == Some(t) && labels == [Begin(0), Create(0), Begin(1), CreateFails(1), Read(1)]
    ensures t == State(Empty(0, 100), 100, 10, [Proc(Created(100), []), Proc(Aging(100, 0), []), IDLE])
  {
    labels, t := Follow(THREE, [], THREE, Begin(0));
    labels, t := Follow(THREE, labels, t, Create(0));
    labels, t := Follow(THREE, labels, t, Begin(1));
    labels, t := Follow(THREE, labels, t, CreateFails(1));
    labels, t := Follow(THREE, labels, t, Read(1));
  }

  lemma {:induction false} WrittenAndReleased(before: seq<Label>, at: State) returns (labels: seq<Label>, t: State)
    requires Run(THREE, before) == Some(at)
    requires at == State(Empty(0, 100), 100, 10, [Proc(Created(100), []), Proc(Aging(100, 0), []), IDLE])
    ensures labels == before + [Write(0), Drop(0), Release(0, true)] && Run(THREE, labels) == Some(t)
    ensures t == State(Absent, 100, 10, [IDLE, Proc(Aging(100, 0), []), IDLE])
  {
    labels, t := Follow(THREE, before, at, Write(0));
    assert [] + [Handle(100, false)] == [Handle(100, false)];
    assert t == at.(file := Record(0, 100, 100), procs := at.procs[0 := Proc(Idle, [Handle(100, false)])]);
    labels, t := Follow(THREE, labels, t, Drop(0));
    assert t.procs == at.procs[0 := Proc(Releasing, [Handle(100, false)])];
    labels, t := Follow(THREE, labels, t, Release(0, true));
  }

  lemma {:induction false} ThirdTakesIt(before: seq<Label>, at: State) returns (labels: seq<Label>, t: State)
    requires Run(THREE, before) == Some(at) && at == State(Absent, 100, 10, [IDLE, Proc(Removing(100, 0), []), IDLE])
    ensures labels == before + [Begin(2), Create(2), Write(2)] && Run(THREE, labels) == Some(t)
    ensures |t.procs| == 3 && t.procs[1] == at.procs[1] && t.procs[2].handles != []
  {
    labels, t := Follow(THREE, before, at, Begin(2));
    labels, t := Follow(THREE, labels, t, Create(2));
    labels, t := Follow(THREE, labels, t, Write(2));
  }
}
