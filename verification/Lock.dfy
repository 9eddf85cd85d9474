/** The advisory write lock: a lockfile created exclusively, read to tell live from stale,
    and removed on release. Each filesystem call is one step of one of any number of
    distinctly named processes. */
module Locks {
  import opened Basics

  // --- The state and its steps. ---

  /** The file at the lock path; a process is named by its number. An empty file was created
      but not written yet, or never. */
  datatype File =
    | Absent
    | Empty(creator: nat, mtime: int)
    | Record(holder: nat, since: int, mtime: int)

  /** A handle on the lock; a re-entrant one borrows a lock its process already has. */
  datatype Handle = Handle(since: int, reentrant: bool)

  /** Where a process is in an acquire (with the time it read and the attempts made) or a
      release. */
  datatype Pc =
    | Idle
    | Trying(now: int, attempt: nat)
    | Created(now: int)
    | Reading(now: int, attempt: nat)
    | Aging(now: int, attempt: nat)
    | Removing(now: int, attempt: nat)
    | Releasing
    | Dead

  /** A process and its handles, innermost last. */
  datatype Proc = Proc(pc: Pc, handles: seq<Handle>)

  datatype State = State(file: File, clock: int, ttl: int, procs: seq<Proc>)

  datatype Label =
    | Tick(seconds: nat)
    | Begin(p: nat) | Abandon(p: nat)
    | Create(p: nat) | CreateFails(p: nat) | Write(p: nat) | WriteFails(p: nat)
    | Read(p: nat) | Age(p: nat) | Remove(p: nat, removed: bool) | GiveUp(p: nat)
    | Drop(p: nat) | Release(p: nat, removed: bool) | Crash(p: nat)

  const ATTEMPTS: nat := 8

  /** The process that moves; the clock is nobody. */
  function Mover(l: Label): Option<nat> {
    match l case Tick(_) => None case _ => Some(l.p)
  }

  function With(s: State, p: nat, q: Proc): State
    requires p < |s.procs|
  {
    s.(procs := s.procs[p := q])
  }

  function Goto(s: State, p: nat, pc: Pc): State
    requires p < |s.procs|
  {
    With(s, p, s.procs[p].(pc := pc))
  }

  /** Age in whole seconds, a time in the future counting as none. */
  predicate Older(now: int, time: int, ttl: int) {
    (if now > time then now - time else 0) >= ttl
  }

  /** Reads the file: gone, undecodable, stale, our own or another's. */
  function AfterRead(s: State, p: nat): State
    requires p < |s.procs| && s.procs[p].pc.Reading?
  {
    var q := s.procs[p];
    match s.file
    case Absent => Goto(s, p, Trying(q.pc.now, q.pc.attempt + 1))
    case Empty(_, _) => Goto(s, p, Aging(q.pc.now, q.pc.attempt))
    case Record(holder, since, _) =>
      if Older(q.pc.now, since, s.ttl) then Goto(s, p, Removing(q.pc.now, q.pc.attempt))
      else if holder == p then With(s, p, Proc(Idle, q.handles + [Handle(since, true)]))
      else Goto(s, p, Idle)
  }

  /** An undecodable file is reclaimable if its modification time is old or cannot be had. */
  predicate AgedOut(s: State, now: int) {
    match s.file
    case Absent => true
    case Empty(_, mtime) => Older(now, mtime, s.ttl)
    case Record(_, _, mtime) => Older(now, mtime, s.ttl)
  }

  /** One step, if the process is where the step starts. */
  function Next(s: State, l: Label): Option<State> {
    if l.Tick? then Some(s.(clock := s.clock + l.seconds))
    else if l.p >= |s.procs| then None
    else
      var p, q := l.p, s.procs[l.p];
      match (l, q.pc)
      case (Begin(_), Idle) => Some(Goto(s, p, Trying(s.clock, 0)))
      case (Abandon(_), Trying(_, _)) => Some(Goto(s, p, Idle))
      case (Create(_), Trying(now, attempt)) =>
        if attempt < ATTEMPTS && s.file.Absent? then Some(Goto(s, p, Created(now)).(file := Empty(p, s.clock)))
          else None
      case (CreateFails(_), Trying(now, attempt)) =>
        if attempt < ATTEMPTS && !s.file.Absent? then Some(Goto(s, p, Reading(now, attempt))) else None
      case (Write(_), Created(now)) =>
        var done := With(s, p, Proc(Idle, q.handles + [Handle(now, false)]));
        // Writing goes to the file created, wherever the path points by now.
        Some(if s.file.Empty? && s.file.creator == p then done.(file := Record(p, now, s.clock)) else done)
      case (WriteFails(_), Created(_)) => Some(Goto(s, p, Idle))
      case (Read(_), Reading(_, _)) => Some(AfterRead(s, p))
      case (Age(_), Aging(now, attempt)) => Some(Goto(s, p, if AgedOut(s, now) then Removing(now, attempt) else Idle))
      case (Remove(_, removed), Removing(now, attempt)) =>
        var done := Goto(s, p, Trying(now, attempt + 1));
        Some(if removed then done.(file := Absent) else done)
      case (GiveUp(_), Trying(_, attempt)) => if attempt >= ATTEMPTS then Some(Goto(s, p, Idle)) else None
      case (Drop(_), Idle) =>
        if q.handles == [] then None
        else
          var h := q.handles[|q.handles| - 1];
          if h.reentrant then Some(With(s, p, Proc(Idle, q.handles[..|q.handles| - 1])))
          else if s.file.Record? && s.file.holder == p && s.file.since == h.since then Some(Goto(s, p, Releasing))
          else Some(With(s, p, Proc(Idle, q.handles[..|q.handles| - 1])))
      case (Release(_, removed), Releasing) =>
        if q.handles == [] then None
        else
          var done := With(s, p, Proc(Idle, q.handles[..|q.handles| - 1]));
          Some(if removed then done.(file := Absent) else done)
      case (Crash(_), _) => if q.pc.Dead? then None else Some(With(s, p, Proc(Dead, [])))
      case _ => None
  }

  /** The step finds a lockfile stale, or counts one it cannot date as stale. */
  predicate Judges(s: State, l: Label) {
    && Next(s, l).Some?
    && !l.Tick? && l.p < |s.procs|
    && match l
       case Read(p) => s.procs[p].pc.Reading? && s.file.Record? && Older(s.procs[p].pc.now, s.file.since, s.ttl)
       case Age(p) => s.procs[p].pc.Aging? && AgedOut(s, s.procs[p].pc.now)
       case _ => false
  }

  function Run(s: State, labels: seq<Label>): Option<State>
    decreases |labels|
  {
    if labels == [] then Some(s)
    else match Run(s, labels[..|labels| - 1])
      case None => None
      case Some(t) => Next(t, labels[|labels| - 1])
  }

  /** At most one process is still alive. */
  ghost predicate Alone(s: State) {
    forall p, q ::
      0 <= p < |s.procs| && 0 <= q < |s.procs| && p != q ==> s.procs[p].pc.Dead? || s.procs[q].pc.Dead?
  }

  predicate NobodyElseRemoving(s: State, p: nat) {
    forall q :: 0 <= q < |s.procs| && q != p ==> !s.procs[q].pc.Removing?
  }

  /** An attempt under way that would find a record of that time live. */
  predicate WouldFindLive(s: State, pc: Pc, since: int) {
    match pc
    case Trying(now, attempt) => attempt < ATTEMPTS && !Older(now, since, s.ttl)
    case Reading(now, _) => !Older(now, since, s.ttl)
    case _ => false
  }

  /** Nobody relies on the path staying as it is until `p` removes what is there: an unwritten
      file that nobody is about to write, a record whose holder has no handle and none coming,
      or no file and nobody else on the way to creating one. */
  predicate Unclaimed(s: State, p: nat) {
    match s.file
    case Absent => forall q :: 0 <= q < |s.procs| && q != p ==> s.procs[q].pc.Dead? || s.procs[q].pc.Aging?
    case Empty(creator, _) => creator < |s.procs| ==> !s.procs[creator].pc.Created?
    case Record(holder, since, _) =>
      holder < |s.procs| ==>
        s.procs[holder].handles == [] && !WouldFindLive(s, s.procs[holder].pc, since)
  }

  /** The step judges stale what is claimed, or does so while another process is about to
      remove a file. */
  predicate Hasty(s: State, l: Label) {
    Judges(s, l) && !(Unclaimed(s, l.p) && NobodyElseRemoving(s, l.p))
  }

  /** A hasty step that there is somebody to suffer from. */
  ghost predicate Reckless(s: State, l: Label) {
    Hasty(s, l) && !Alone(s)
  }

  /** No step of the run is reckless. */
  ghost predicate NothingReckless(s: State, labels: seq<Label>)
    decreases |labels|
  {
    labels == [] ||
    (var front := labels[..|labels| - 1];
     NothingReckless(s, front) && Run(s, front).Some? && !Reckless(Run(s, front).value, labels[|labels| - 1]))
  }

  // --- What holds while only unclaimed files are reclaimed, one process at a time. ---

  function StartOf(pc: Pc): Option<int> {
    match pc
    case Trying(now, _) => Some(now)
    case Created(now) => Some(now)
    case Reading(now, _) => Some(now)
    case Aging(now, _) => Some(now)
    case Removing(now, _) => Some(now)
    case _ => None
  }

  ghost predicate ProcGuarded(s: State, p: nat)
    requires p < |s.procs|
  {
    var q := s.procs[p];
    && (q.pc.Removing? ==> Unclaimed(s, p) && NobodyElseRemoving(s, p))
    && (q.pc.Removing? && s.file.Record? ==> Older(s.clock, s.file.since, s.ttl))
    && (q.pc.Created? ==> s.file.Empty? && s.file.creator == p)
    && (q.handles != [] ==> s.file.Record? && s.file.holder == p)
    && (forall i :: 0 <= i < |q.handles| && !q.handles[i].reentrant ==> i == 0 && q.handles[i].since == s.file.since)
    && (q.pc.Releasing? ==> q.handles != [] && !q.handles[|q.handles| - 1].reentrant)
    && (q.pc.Dead? ==> q.handles == [])
    && (StartOf(q.pc).Some? ==> StartOf(q.pc).value <= s.clock)
  }

  /** A record was written no earlier than the acquire it records began. */
  predicate RecordedInTime(s: State) {
    s.file.Record? ==> s.file.since <= s.file.mtime <= s.clock
  }

  /** Whoever has a handle, owning or borrowed, has its record in the file; whoever is about
      to write made the file; whoever is about to remove one is alone in that, and nobody
      relies on the file. No process has read a time that is yet to come. */
  ghost predicate Guarded(s: State) {
    RecordedInTime(s) && forall p :: 0 <= p < |s.procs| ==> ProcGuarded(s, p)
  }

  /** A single living process needs no guarding. */
  ghost predicate Sound(s: State) {
    Guarded(s) || (Alone(s) && forall p :: 0 <= p < |s.procs| && s.procs[p].pc.Dead? ==> s.procs[p].handles == [])
  }

  ghost predicate Exclusive(s: State) {
    forall p, q ::
      0 <= p < |s.procs| && 0 <= q < |s.procs| && s.procs[p].handles != [] && s.procs[q].handles != [] ==> p == q
  }

  lemma SoundIsExclusive(s: State)
    requires Sound(s)
    ensures Exclusive(s)
  {
    if Guarded(s) {
      forall p, q | 0 <= p < |s.procs| && 0 <= q < |s.procs| && s.procs[p].handles != [] && s.procs[q].handles != []
        ensures p == q
      {
        assert ProcGuarded(s, p) && ProcGuarded(s, q);
      }
    }
  }

  predicate Inspects(l: Label) {
    l.Read? || l.Age? || l.Remove? || l.CreateFails?
  }

  /** The process that steps stays guarded: a look at the file, or the removal of one. */
  lemma OwnLook(s: State, l: Label)
    requires Guarded(s) && Next(s, l).Some? && !Hasty(s, l) && Inspects(l)
    ensures ProcGuarded(Next(s, l).value, l.p)
  {
    assert ProcGuarded(s, l.p);
  }

  /** Any other step of its own. */
  lemma OwnMove(s: State, l: Label)
    requires Guarded(s) && Next(s, l).Some? && !l.Tick? && !Inspects(l)
    ensures ProcGuarded(Next(s, l).value, l.p)
  {
    assert ProcGuarded(s, l.p);
  }

  /** Only the process that steps and the file change. */
  lemma Frame(s: State, l: Label)
    requires Next(s, l).Some? && !l.Tick?
    ensures var t := Next(s, l).value;
      && l.p < |s.procs| && t == s.(procs := s.procs[l.p := t.procs[l.p]], file := t.file)
      && (s.procs[l.p].pc.Dead? ==> t.procs[l.p] == s.procs[l.p])
  {
  }

  /** So do the others: no step of one process disturbs what another relies on. It leaves the
      file alone, */
  lemma OtherMove(s: State, l: Label, p: nat)
    requires Guarded(s) && Next(s, l).Some? && !Hasty(s, l) && !l.Tick?
    requires p < |s.procs| && p != l.p && Next(s, l).value.file == s.file
    ensures ProcGuarded(Next(s, l).value, p)
  {
    Frame(s, l);
    assert ProcGuarded(s, p) && ProcGuarded(s, l.p);
  }

  /** or creates, writes or removes it. */
  lemma OtherFile(s: State, l: Label, p: nat)
    requires Guarded(s) && Next(s, l).Some? && !Hasty(s, l) && !l.Tick?
    requires p < |s.procs| && p != l.p && Next(s, l).value.file != s.file
    ensures ProcGuarded(Next(s, l).value, p)
  {
    Frame(s, l);
    assert ProcGuarded(s, p) && ProcGuarded(s, l.p);
  }

  lemma RecordStep(s: State, l: Label)
    requires Guarded(s) && Next(s, l).Some?
    ensures RecordedInTime(Next(s, l).value)
  {
    if !l.Tick? { assert ProcGuarded(s, l.p); }
  }

  lemma {:induction false} GuardedStep(s: State, l: Label)
    requires Guarded(s) && Next(s, l).Some? && !Hasty(s, l)
    ensures Guarded(Next(s, l).value)
  {
    var t := Next(s, l).value;
    RecordStep(s, l);
    forall p | 0 <= p < |t.procs| ensures ProcGuarded(t, p) {
      if l.Tick? {
        assert ProcGuarded(s, p);
      } else if p == l.p {
        if Inspects(l) { OwnLook(s, l); } else { OwnMove(s, l); }
      } else if t.file == s.file {
        OtherMove(s, l, p);
      } else {
        OtherFile(s, l, p);
      }
    }
  }

  /** Nobody comes back to life. */
  lemma AloneStep(s: State, l: Label)
    requires Alone(s) && Next(s, l).Some?
    requires forall p :: 0 <= p < |s.procs| && s.procs[p].pc.Dead? ==> s.procs[p].handles == []
    ensures Alone(Next(s, l).value) && Sound(Next(s, l).value)
  {
    if !l.Tick? { Frame(s, l); }
  }

  lemma DeadHandNothing(s: State)
    requires Sound(s)
    ensures forall p :: 0 <= p < |s.procs| && s.procs[p].pc.Dead? ==> s.procs[p].handles == []
  {
    if Guarded(s) {
      forall p | 0 <= p < |s.procs| && s.procs[p].pc.Dead? ensures s.procs[p].handles == [] {
        assert ProcGuarded(s, p);
      }
    }
  }

  lemma {:induction false} SoundStep(s: State, l: Label)
    requires Sound(s) && Next(s, l).Some? && !Reckless(s, l)
    ensures Sound(Next(s, l).value)
  {
    if Alone(s) {
      DeadHandNothing(s);
      AloneStep(s, l);
    } else {
      GuardedStep(s, l);
    }
  }

  ghost predicate AtRest(s: State) {
    s.file.Absent? && forall p :: 0 <= p < |s.procs| ==> s.procs[p] == Proc(Idle, [])
  }

  /** Over every interleaving, crashes and failed writes and releases included, in which files
      are judged stale only when nobody relies on them, and by one process at a time until it
      has removed them, at most one process has a handle on the lock. */
  lemma {:induction false} MutualExclusion(s: State, labels: seq<Label>)
    requires AtRest(s) && Run(s, labels).Some? && NothingReckless(s, labels)
    ensures Sound(Run(s, labels).value) && Exclusive(Run(s, labels).value)
    decreases |labels|
  {
    if labels != [] {
      var front := labels[..|labels| - 1];
      MutualExclusion(s, front);
      SoundStep(Run(s, front).value, labels[|labels| - 1]);
    }
    SoundIsExclusive(Run(s, labels).value);
  }

  /** In such runs, while a second process is alive, the file is only ever removed by the
      release of the owning handle it records, or by the reclaim of one nobody relies on;
      dropping a re-entrant handle leaves it alone. */
  lemma {:induction false} OnlyOwnersRemove(s: State, l: Label)
    requires Sound(s) && !Alone(s) && Next(s, l).Some?
    requires !s.file.Absent? && Next(s, l).value.file.Absent?
    ensures (l.Release? || l.Remove?) && l.p < |s.procs|
    ensures l.Release? ==>
      && |s.procs[l.p].handles| == 1 && s.file.Record? && s.file.holder == l.p
      && s.procs[l.p].handles[0] == Handle(s.file.since, false)
    ensures l.Remove? ==> Unclaimed(s, l.p) && forall p :: 0 <= p < |s.procs| ==> s.procs[p].handles == []
  {
    if !l.Tick? { assert ProcGuarded(s, l.p); }
    if l.Remove? {
      forall p | 0 <= p < |s.procs| ensures s.procs[p].handles == [] { assert ProcGuarded(s, p); }
    }
  }

  // --- A live lock is not stolen. ---

  /** A record `r` stands, and nobody is about to remove it. */
  ghost predicate Recorded(s: State, r: File) {
    && s.file == r && r.Record? && Guarded(s)
    && forall p :: 0 <= p < |s.procs| ==> !s.procs[p].pc.Removing?
  }

  /** One step while the record is within its time and its holder does not release it. */
  lemma HeldStep(s: State, r: File, l: Label)
    requires Recorded(s, r) && Next(s, l).Some?
    requires !Older(Next(s, l).value.clock, r.since, s.ttl) && !Older(Next(s, l).value.clock, r.mtime, s.ttl)
    requires !(l.Release? && l.p == r.holder)
    ensures Recorded(Next(s, l).value, r) && Next(s, l).value.ttl == s.ttl
  {
    if !l.Tick? { assert ProcGuarded(s, l.p); }
    assert !Judges(s, l);
    GuardedStep(s, l);
  }

  /** From a record of another process, over every run in which that process does not release
      it and its time does not run out, whatever acquires the others attempt: the record is
      still there and none of them has a handle. */
  lemma {:induction false} LiveIsNotStolen(s: State, labels: seq<Label>)
    requires s.file.Record? && Recorded(s, s.file) && Run(s, labels).Some?
    requires
      var clock := Run(s, labels).value.clock;
      0 < s.ttl && clock - s.file.since < s.ttl && clock - s.file.mtime < s.ttl
    requires forall i :: 0 <= i < |labels| ==> !(labels[i].Release? && labels[i].p == s.file.holder)
    ensures Recorded(Run(s, labels).value, s.file) && Run(s, labels).value.ttl == s.ttl
    ensures
      var t := Run(s, labels).value;
      forall p :: 0 <= p < |t.procs| && p != s.file.holder ==> t.procs[p].handles == []
    decreases |labels|
  {
    var t := Run(s, labels).value;
    if labels != [] {
      var front := labels[..|labels| - 1];
      var before := Run(s, front).value;
      ClockAdvances(before, labels[|labels| - 1]);
      LiveIsNotStolen(s, front);
      HeldStep(before, s.file, labels[|labels| - 1]);
    }
    forall p | 0 <= p < |t.procs| && p != s.file.holder ensures t.procs[p].handles == [] { assert ProcGuarded(t, p); }
  }

  lemma ClockAdvances(s: State, l: Label)
    requires Next(s, l).Some?
    ensures s.clock <= Next(s, l).value.clock
  {
  }

  lemma StepKeeps(s: State, l: Label, t: State)
    requires Next(s, l) == Some(t)
    ensures |t.procs| == |s.procs| && t.ttl == s.ttl
  {
    if !l.Tick? { Frame(s, l); }
  }

  lemma RunStep(s: State, labels: seq<Label>, l: Label, t: State)
    requires Run(s, labels) == Some(t)
    ensures Run(s, labels + [l]) == Next(t, l)
  {
    assert (labels + [l])[..|labels|] == labels;
  }

  // --- The acquire as the code runs it, between any steps of the other processes. ---

  datatype LockOutcome = Acquired(handle: Handle) | Held(holder: Option<nat>, since: int) | Error

  /** The clock's step, or one of `p`'s own in which no call fails. */
  predicate SmoothStep(l: Label, p: nat) {
    || l.Tick?
    || (l.p == p && !l.Abandon? && !l.WriteFails? && !(l.Remove? && !l.removed) && !(l.Release? && !l.removed))
  }

  /** From the step numbered `from` on, nobody but `p` moves and none of its calls fails. */
  ghost predicate Smooth(trace: seq<Label>, from: nat, p: nat) {
    forall i :: from <= i < |trace| ==> SmoothStep(trace[i], p)
  }

  lemma SmoothPart(part: seq<Label>, whole: seq<Label>, n: nat, from: nat, p: nat)
    requires part <= whole && n <= from && Smooth(whole, n, p)
    ensures Smooth(part, from, p)
  {
  }

  /** The file can be taken over at that time: its record, or without one its last change, is the
      time to live ago. */
  predicate Reclaimable(file: File, now: int, ttl: int) {
    match file
    case Absent => false
    case Empty(_, mtime) => now - mtime >= ttl || ttl <= 0
    case Record(_, since, _) => now - since >= ttl || ttl <= 0
  }

  /** The record written by `p` for an acquire begun at that time. */
  predicate RecordOf(file: File, p: nat, since: int) {
    file.Record? && file.holder == p && file.since == since
  }

  /** What an acquire begun in `s` comes to if nobody else moves and no call fails: a free or
      reclaimable lock is taken, the process's own is taken again, another's is reported with its
      holder, and a recent file without a record as held by nobody known. */
  predicate SoloOutcome(s: State, p: nat, r: LockOutcome, t: State) {
    if s.file.Absent? || Reclaimable(s.file, s.clock, s.ttl) then
      r == Acquired(Handle(s.clock, false)) && RecordOf(t.file, p, s.clock)
    else
      && t.file == s.file
      && r == if s.file.Empty? then Held(None, s.clock)
              else if s.file.holder == p then Acquired(Handle(s.file.since, true))
              else Held(Some(s.file.holder), s.file.since)
  }

  /** Undisturbed, the first round finds the file as it was, and a second one only starts once a
      reclaimable file is gone. */
  predicate FirstOrFreed(s: State, attempt: nat, t: State) {
    && s.ttl == t.ttl
    && (attempt == 0 ==> t.file == s.file)
    && (attempt > 0 ==> attempt == 1 && t.file.Absent? && Reclaimable(s.file, s.clock, s.ttl))
  }

  /** What one look at the file of `s` comes to, by a process that began at `now`. */
  predicate LookOutcome(s: State, p: nat, now: int, stop: bool, r: LockOutcome, t: State) {
    if s.file.Absent? || Reclaimable(s.file, now, s.ttl) then !stop && t.file.Absent?
    else
      && stop && t.file == s.file
      && r == if s.file.Empty? then Held(None, now)
              else if s.file.holder == p then Acquired(Handle(s.file.since, true))
              else Held(Some(s.file.holder), s.file.since)
  }

  /** The machine all processes share, recording the steps taken. */
  class Machine {
    var state: State
    ghost const start: State
    ghost var trace: seq<Label>

    constructor (s: State)
      ensures Valid() && state == s && start == s && trace == []
    {
      state, start, trace := s, s, [];
    }

    ghost predicate Valid()
      reads this
    {
      Run(start, trace) == Some(state)
    }

    /** However its processes came here: if they started at rest and nothing reckless was done,
        a process with a handle is the only one. */
    lemma {:induction false} OneHolder(p: nat)
      requires Valid() && AtRest(start) && NothingReckless(start, trace)
      requires p < |state.procs| && state.procs[p].handles != []
      ensures forall q :: 0 <= q < |state.procs| && q != p ==> state.procs[q].handles == []
    {
      MutualExclusion(start, trace);
    }

    /** The steps recorded only grow; the processes and the time to live stay. */
    twostate predicate Went()
      reads this
    {
      old(trace) <= trace && |state.procs| == |old(state).procs| && state.ttl == old(state).ttl
    }

    method Take(l: Label)
      requires Valid() && Next(state, l).Some?
      modifies this
      ensures Valid() && Went() && Next(old(state), l) == Some(state) && trace == old(trace) + [l]
    {
      RunStep(start, trace, l, state);
      var t := Next(state, l).value;
      StepKeeps(state, l, t);
      state, trace := t, trace + [l];
    }

    /** Any number of steps of the clock and of other processes. */
    method Others(p: nat)
      requires Valid() && p < |state.procs|
      modifies this
      ensures Valid() && Went() && p < |state.procs| && state.procs[p] == old(state.procs[p])
      ensures Smooth(trace, |old(trace)|, p) ==> state.file == old(state).file
    {
      var n: nat := *;
      var i := 0;
      while i < n
        invariant Valid() && Went() && p < |state.procs| && state.procs[p] == old(state.procs[p])
        invariant Smooth(trace, |old(trace)|, p) ==> state.file == old(state).file
      {
        var l: Label := *;
        if Mover(l) != Some(p) && Next(state, l).Some? {
          ghost var before := trace;
          Take(l);
          if Smooth(trace, |old(trace)|, p) {
            SmoothPart(before, trace, |old(trace)|, |old(trace)|, p);
            assert trace[|before|] == l;
          }
        }
        i := i + 1;
      }
    }

    /** One acquire by process `p`: at most eight rounds of create, read and judge, never
        waiting. Every step it takes is a step of the protocol, and if nothing reckless was done
        by anyone since all were at rest, the lock acquired is held by nobody else. */
    method TryAcquire(p: nat) returns (r: LockOutcome)
      requires Valid() && p < |state.procs| && state.procs[p].pc.Idle?
      modifies this
      ensures Valid() && Went() && p < |state.procs| && state.procs[p].pc.Idle?
      ensures state.procs[p].handles == old(state.procs[p].handles) + (if r.Acquired? then [r.handle] else [])
      ensures r.Held? && r.holder.Some? ==> r.holder != Some(p)
      ensures r.Acquired? && AtRest(start) && NothingReckless(start, trace) ==>
        forall q :: 0 <= q < |state.procs| && q != p ==> state.procs[q].handles == []
      ensures Smooth(trace, |old(trace)|, p) ==> SoloOutcome(old(state), p, r, state)
    {
      r := Attempt(p);
      if r.Acquired? && AtRest(start) && NothingReckless(start, trace) { OneHolder(p); }
    }

    method Attempt(p: nat) returns (r: LockOutcome)
      requires Valid() && p < |state.procs| && state.procs[p].pc.Idle?
      modifies this
      ensures Valid() && Went() && p < |state.procs| && state.procs[p].pc.Idle?
      ensures state.procs[p].handles == old(state.procs[p].handles) + (if r.Acquired? then [r.handle] else [])
      ensures r.Held? && r.holder.Some? ==> r.holder != Some(p)
      ensures Smooth(trace, |old(trace)|, p) ==> SoloOutcome(old(state), p, r, state)
    {
      ghost var handles, n := state.procs[p].handles, |trace|;
      Take(Begin(p));
      var now := state.procs[p].pc.now;
      var attempt := 0;
      while attempt < ATTEMPTS
        invariant attempt <= ATTEMPTS
        invariant Valid() && Went() && p < |state.procs| && state.procs[p] == Proc(Trying(now, attempt), handles)
        invariant Smooth(trace, n, p) ==> FirstOrFreed(old(state), attempt, state)
        decreases ATTEMPTS - attempt
      {
        ghost var before, m := trace, |trace|;
        var stop;
        stop, r := Round(p);
        if Smooth(trace, n, p) {
          SmoothPart(before, trace, n, n, p);
          SmoothPart(trace, trace, n, m, p);
        }
        if stop { return; }
        attempt := attempt + 1;
      }
      ghost var before := trace;
      Take(GiveUp(p));
      if Smooth(trace, n, p) { SmoothPart(before, trace, n, n, p); }
      return Held(None, now);
    }

    /** One round: create the file, or look at the one that is there. */
    method Round(p: nat) returns (stop: bool, r: LockOutcome)
      requires Valid() && p < |state.procs| && state.procs[p].pc.Trying? && state.procs[p].pc.attempt < ATTEMPTS
      modifies this
      ensures Valid() && Went() && p < |state.procs|
      ensures stop ==> state.procs[p].pc.Idle?
      ensures stop ==> state.procs[p].handles == old(state.procs[p].handles) + (if r.Acquired? then [r.handle] else [])
      ensures r.Held? && r.holder.Some? ==> r.holder != Some(p)
      ensures !stop ==>
        var q := old(state.procs[p]);
        state.procs[p] == Proc(Trying(q.pc.now, q.pc.attempt + 1), q.handles)
      ensures Smooth(trace, |old(trace)|, p) ==>
        var now := old(state.procs[p].pc.now);
        if old(state).file.Absent? then
          stop && r == Acquired(Handle(now, false)) && RecordOf(state.file, p, now)
        else LookOutcome(old(state), p, now, stop, r, state)
    {
      ghost var n := |trace|;
      Others(p);
      ghost var first := trace;
      if * {
        Take(Abandon(p));
        assert trace[|first|] == Abandon(p);
        return true, Error;
      }
      if state.file.Absent? {
        r := Finish(p);
        if Smooth(trace, n, p) {
          SmoothPart(first, trace, n, n, p);
          SmoothPart(trace, trace, n, |first|, p);
        }
        return true, r;
      }
      Take(CreateFails(p));
      ghost var second := trace;
      stop, r := Inspect(p);
      if Smooth(trace, n, p) {
        SmoothPart(first, trace, n, n, p);
        SmoothPart(trace, trace, n, |second|, p);
      }
    }

    /** The exclusive create won: write the record. */
    method Finish(p: nat) returns (r: LockOutcome)
      requires Valid() && p < |state.procs| && state.file.Absent?
      requires state.procs[p].pc.Trying? && state.procs[p].pc.attempt < ATTEMPTS
      modifies this
      ensures Valid() && Went() && p < |state.procs| && state.procs[p].pc.Idle?
      ensures r == Error || r == Acquired(Handle(old(state.procs[p].pc.now), false))
      ensures state.procs[p].handles == old(state.procs[p].handles) + (if r.Acquired? then [r.handle] else [])
      ensures Smooth(trace, |old(trace)|, p) ==> r.Acquired? && RecordOf(state.file, p, old(state.procs[p].pc.now))
    {
      var now := state.procs[p].pc.now;
      ghost var n := |trace|;
      Take(Create(p));
      ghost var first := trace;
      Others(p);
      ghost var second := trace;
      if * {
        Take(WriteFails(p));
        assert trace[|second|] == WriteFails(p);
        return Error;
      }
      Take(Write(p));
      if Smooth(trace, n, p) { SmoothPart(second, trace, n, |first|, p); }
      return Acquired(Handle(now, false));
    }

    /** The create lost: read the file and decide, or remove it and try again. */
    method Inspect(p: nat) returns (stop: bool, r: LockOutcome)
      requires Valid() && p < |state.procs| && state.procs[p].pc.Reading?
      modifies this
      ensures Valid() && Went() && p < |state.procs|
      ensures stop ==> state.procs[p].pc.Idle?
      ensures if stop then (r.Acquired? && r.handle.reentrant) || (r.Held? && r.holder != Some(p))
        else r.Held? && r.holder.None?
      ensures stop ==> state.procs[p].handles == old(state.procs[p].handles) + (if r.Acquired? then [r.handle] else [])
      ensures !stop ==>
        var q := old(state.procs[p]);
        state.procs[p] == Proc(Trying(q.pc.now, q.pc.attempt + 1), q.handles)
      ensures Smooth(trace, |old(trace)|, p) ==>
        LookOutcome(old(state), p, old(state.procs[p].pc.now), stop, r, state)
    {
      var now := state.procs[p].pc.now;
      ghost var n := |trace|;
      r := Held(None, now);
      Others(p);
      ghost var first := trace;
      var seen := state.file;
      Take(Read(p));
      ghost var second := trace;
      if Smooth(trace, n, p) { SmoothPart(first, trace, n, n, p); }
      if state.procs[p].pc.Idle? {
        r := if seen.holder == p then Acquired(Handle(seen.since, true)) else Held(Some(seen.holder), seen.since);
        return true, r;
      }
      if state.procs[p].pc.Trying? { return false, r; }
      stop := Reclaim(p);
      if Smooth(trace, n, p) {
        SmoothPart(first, trace, n, n, p);
        SmoothPart(second, trace, n, n, p);
        SmoothPart(trace, trace, n, |second|, p);
      }
    }

    /** The file was stale or undecodable: remove it, unless it turns out recent. */
    method Reclaim(p: nat) returns (stop: bool)
      requires Valid() && p < |state.procs| && (state.procs[p].pc.Aging? || state.procs[p].pc.Removing?)
      modifies this
      ensures Valid() && Went() && p < |state.procs| && state.procs[p].handles == old(state.procs[p].handles)
      ensures stop ==> state.procs[p].pc.Idle?
      ensures !stop ==> state.procs[p].pc == Trying(old(state.procs[p].pc.now), old(state.procs[p].pc.attempt) + 1)
      ensures Smooth(trace, |old(trace)|, p) ==>
        if old(state.procs[p].pc.Removing? || AgedOut(state, state.procs[p].pc.now)) then !stop && state.file.Absent?
        else stop && state.file == old(state).file
    {
      ghost var n := |trace|;
      if state.procs[p].pc.Aging? {
        Others(p);
        ghost var first := trace;
        Take(Age(p));
        if Smooth(trace, n, p) { SmoothPart(first, trace, n, n, p); }
        if state.procs[p].pc.Idle? { return true; }
      }
      ghost var second := trace;
      Others(p);
      ghost var third := trace;
      var removed: bool := *;
      Take(Remove(p, removed));
      if Smooth(trace, n, p) {
        SmoothPart(second, trace, n, n, p);
        assert trace[|third|] == Remove(p, removed);
      }
      return false;
    }

    /** The innermost handle dropped. If nobody else moves and no call fails, the owner's frees the
        lock if the file still records the acquire it came from; a borrowed one, or one whose record
        is gone, leaves the file alone. */
    method DropHandle(p: nat)
      requires Valid() && p < |state.procs| && state.procs[p].pc.Idle? && state.procs[p].handles != []
      modifies this
      ensures Valid() && Went() && p < |state.procs|
      ensures
        var q := old(state.procs[p]);
        state.procs[p] == Proc(Idle, q.handles[..|q.handles| - 1])
      ensures Smooth(trace, |old(trace)|, p) ==>
        var h := old(state.procs[p].handles[|state.procs[p].handles| - 1]);
        state.file == if !h.reentrant && RecordOf(old(state).file, p, h.since) then Absent else old(state).file
    {
      ghost var n := |trace|;
      Others(p);
      ghost var first := trace;
      Take(Drop(p));
      if Smooth(trace, n, p) { SmoothPart(first, trace, n, n, p); }
      if state.procs[p].pc.Releasing? {
        ghost var second := trace;
        Others(p);
        ghost var third := trace;
        var removed: bool := *;
        Take(Release(p, removed));
        if Smooth(trace, n, p) {
          SmoothPart(first, trace, n, n, p);
          SmoothPart(third, trace, n, |second|, p);
          assert trace[|third|] == Release(p, removed);
        }
      }
    }
  }
}
