/**
 The lock file that guards the incus.cfg/incus.json pair, as steps of competing processes and a
 clock. An agent is one call of acquireCfgLock with its own random token; it may be delayed or die
 between any two steps.
 */
module CfgLock {
  import opened Text

  const STALE_MS: nat := 15000
  const RETRY_MS: nat := 200

  type Agent = nat

  datatype LockFile = LockFile(token: Agent, ino: nat, mtime: nat)

  /** Where a call stands: the exclusive create, the stat, the second look before a steal, ... */
  datatype Pc =
    | Creating
    | Stating
    | Stealing(ino: nat, mtime: nat)
    | Unlinking(ino: nat, mtime: nat)
    | Sleeping(until: nat)
    | Holding(since: nat)
    | GaveUp
    | Released
    | Dead

  datatype Call = Call(pc: Pc, attempt: nat, maxRetries: nat, sleeps: nat)

  /**
   `atomicSteal`: the second stat and the unlink happen as one step. The source can only narrow the
   window between them; the other value opens it.
   */
  datatype State = State(now: nat, file: Option<LockFile>, nextIno: nat, calls: map<Agent, Call>, atomicSteal: bool)

  datatype Step =
    | Start(a: Agent, maxRetries: nat)
    | Create(a: Agent)
    | CreateFails(a: Agent)
    | Stat(a: Agent)
    | StatFails(a: Agent)
    | Steal(a: Agent)
    | Unlink(a: Agent)
    | Wake(a: Agent)
    | Release(a: Agent)
    | Die(a: Agent)
    | Tick(ms: nat)

  function Initial(atomicSteal: bool): State { State(0, None, 0, map[], atomicSteal) }

  function Goto(s: State, a: Agent, pc: Pc): State
    requires a in s.calls
  {
    s.(calls := s.calls[a := s.calls[a].(pc := pc)])
  }

  /** One step; a step that is not enabled changes nothing. */
  function Exec(s: State, step: Step): State {
    match step
    case Tick(ms) => s.(now := s.now + ms)
    case Start(a, max) => if a in s.calls then s else s.(calls := s.calls[a := Call(Creating, 0, max, 0)])
    case Create(a) => if At(s, a) == Some(Creating) then ExecCreate(s, a) else s
    case CreateFails(a) => if At(s, a) == Some(Creating) then Goto(s, a, GaveUp) else s
    case Stat(a) => if At(s, a) == Some(Stating) then ExecStat(s, a) else s
    case StatFails(a) =>
      if At(s, a) == Some(Stating) || IsStealing(s, a) || IsUnlinking(s, a) then Goto(s, a, Creating) else s
    case Steal(a) => if IsStealing(s, a) then ExecSteal(s, a) else s
    case Unlink(a) => if IsUnlinking(s, a) then Goto(s.(file := None), a, Creating) else s
    case Wake(a) => if IsRested(s, a) then Goto(s, a, Creating) else s
    case Release(a) => if IsHolding(s, a) then ExecRelease(s, a) else s
    case Die(a) => if a in s.calls then Goto(s, a, Dead) else s
  }

  function At(s: State, a: Agent): Option<Pc> { if a in s.calls then Some(s.calls[a].pc) else None }

  predicate IsHolding(s: State, a: Agent) { a in s.calls && s.calls[a].pc.Holding? }

  predicate IsStealing(s: State, a: Agent) { a in s.calls && s.calls[a].pc.Stealing? }

  predicate IsUnlinking(s: State, a: Agent) { a in s.calls && s.calls[a].pc.Unlinking? }

  predicate IsRested(s: State, a: Agent) { a in s.calls && s.calls[a].pc.Sleeping? && s.now >= s.calls[a].pc.until }

  /** writeFileSync with flag wx: creates the file with a fresh inode, or reports that it exists. */
  function ExecCreate(s: State, a: Agent): State
    requires a in s.calls
  {
    if s.file.None?
    then Goto(s.(file := Some(LockFile(a, s.nextIno, s.now)), nextIno := s.nextIno + 1), a, Holding(s.now))
    else Goto(s, a, Stating)
  }

  /** The first stat: gone, stale, or fresh; a fresh lock costs an attempt and a sleep. */
  function ExecStat(s: State, a: Agent): State
    requires a in s.calls
  {
    var c := s.calls[a];
    if s.file.None? then Goto(s, a, Creating)
    else if s.now - s.file.value.mtime > STALE_MS then Goto(s, a, Stealing(s.file.value.ino, s.file.value.mtime))
    else if c.attempt >= c.maxRetries then Goto(s, a, GaveUp)
    else s.(calls := s.calls[a := Call(Sleeping(s.now + RETRY_MS), c.attempt + 1, c.maxRetries, c.sleeps + 1)])
  }

  /** The second stat: the file is removed only if it is still the one seen before. */
  function ExecSteal(s: State, a: Agent): State
    requires IsStealing(s, a)
  {
    var seen := s.calls[a].pc;
    if s.file.Some? && s.file.value.ino == seen.ino && s.file.value.mtime == seen.mtime then
      if s.atomicSteal then Goto(s.(file := None), a, Creating) else Goto(s, a, Unlinking(seen.ino, seen.mtime))
    else Goto(s, a, Creating)
  }

  /** releaseCfgLock: unlink only a file that carries the own token. */
  function ExecRelease(s: State, a: Agent): State
    requires IsHolding(s, a)
  {
    Goto(if s.file.Some? && s.file.value.token == a then s.(file := None) else s, a, Released)
  }

  function Run(s: State, steps: seq<Step>): State {
    if steps == [] then s else Exec(Run(s, steps[..|steps| - 1]), steps[|steps| - 1])
  }

  // ---------------------------------------------------------------- the invariant

  /** A live holder that has had the lock for longer than the stale timeout. */
  predicate Overdue(s: State, a: Agent) {
    IsHolding(s, a) && s.now - s.calls[a].pc.since > STALE_MS
  }

  predicate Owns(s: State, a: Agent) { s.file.Some? && s.file.value.token == a }

  /**
   The file a call is about to steal: it was stale when it was looked at, and its inode is not given to
   another file.
   */
  predicate SeenInv(s: State, ino: nat, mtime: nat) {
    && s.now - mtime > STALE_MS && ino < s.nextIno
    && (s.file.Some? && s.file.value.ino == ino ==> s.file.value.mtime == mtime)
  }

  /** What holds of one call at any time. */
  predicate CallInv(s: State, a: Agent)
    requires a in s.calls
  {
    var c := s.calls[a];
    && c.sleeps == c.attempt <= c.maxRetries
    && (c.pc.Holding? ==> c.pc.since <= s.now && (Owns(s, a) || Overdue(s, a)))
    && (c.pc.Holding? && Owns(s, a) ==> s.file.value.mtime == c.pc.since)
    && (c.pc.Stealing? || c.pc.Unlinking? ==> SeenInv(s, c.pc.ino, c.pc.mtime))
    && (Owns(s, a) ==> c.pc.Holding? || c.pc.Dead?)
  }

  predicate FileInv(s: State) {
    s.file.Some? ==> s.file.value.token in s.calls && s.file.value.ino < s.nextIno
  }

  predicate Inv(s: State) {
    FileInv(s) && forall a :: a in s.calls ==> CallInv(s, a)
  }

  /** An unlink removes the file that the second stat saw, or finds none. */
  predicate Hits(s: State, step: Step) {
    step.Unlink? && IsUnlinking(s, step.a) && s.file.Some? ==> s.file.value.ino == s.calls[step.a].pc.ino
  }

  predicate AllHit(s: State, steps: seq<Step>) {
    steps == [] || (AllHit(s, steps[..|steps| - 1]) && Hits(Run(s, steps[..|steps| - 1]), steps[|steps| - 1]))
  }

  lemma CreateKeepsCall(s: State, a: Agent, b: Agent)
    requires Inv(s) && At(s, a) == Some(Creating) && b in s.calls
    ensures CallInv(ExecCreate(s, a), b)
  {
    assert CallInv(s, a) && CallInv(s, b);
  }

  lemma StatKeepsCall(s: State, a: Agent, b: Agent)
    requires Inv(s) && At(s, a) == Some(Stating) && b in s.calls
    ensures CallInv(ExecStat(s, a), b)
  {
    assert CallInv(s, a) && CallInv(s, b);
  }

  lemma StealKeepsCall(s: State, a: Agent, b: Agent)
    requires Inv(s) && IsStealing(s, a) && b in s.calls
    ensures CallInv(ExecSteal(s, a), b)
  {
    assert CallInv(s, a) && CallInv(s, b);
  }

  lemma UnlinkKeepsCall(s: State, a: Agent, b: Agent)
    requires Inv(s) && IsUnlinking(s, a) && Hits(s, Unlink(a)) && b in s.calls
    ensures CallInv(Exec(s, Unlink(a)), b)
  {
    assert CallInv(s, a) && CallInv(s, b);
  }

  lemma ReleaseKeepsCall(s: State, a: Agent, b: Agent)
    requires Inv(s) && IsHolding(s, a) && b in s.calls
    ensures CallInv(ExecRelease(s, a), b)
  {
    assert CallInv(s, a) && CallInv(s, b);
  }

  /** Only a start adds a call. */
  lemma StepKeepsCalls(s: State, step: Step, b: Agent)
    ensures b in Exec(s, step).calls <==> b in s.calls || (step.Start? && step.a == b)
  {
  }

  /** A step of one call that touches neither the file nor the clock and takes no lock. */
  lemma MoveKeepsCall(s: State, a: Agent, pc: Pc, b: Agent)
    requires Inv(s) && a in s.calls && b in s.calls && !pc.Holding? && !pc.Stealing? && !pc.Unlinking?
    requires Owns(s, a) ==> pc.Dead?
    ensures CallInv(Goto(s, a, pc), b)
  {
    assert CallInv(s, a) && CallInv(s, b);
  }

  lemma TickKeepsCall(s: State, ms: nat, b: Agent)
    requires Inv(s) && b in s.calls
    ensures CallInv(Exec(s, Tick(ms)), b)
  {
    assert CallInv(s, b);
  }

  lemma StartKeepsCall(s: State, a: Agent, max: nat, b: Agent)
    requires Inv(s) && b in Exec(s, Start(a, max)).calls
    ensures CallInv(Exec(s, Start(a, max)), b)
  {
    if b in s.calls { assert CallInv(s, b); }
  }

  lemma OwnerHolds(s: State, a: Agent)
    requires Inv(s) && a in s.calls && Owns(s, a)
    ensures s.calls[a].pc.Holding? || s.calls[a].pc.Dead?
  {
    assert CallInv(s, a);
  }

  lemma QuietKeepsCall(s: State, step: Step, b: Agent)
    requires Inv(s) && b in s.calls && (step.CreateFails? || step.StatFails? || step.Wake? || step.Die?)
    ensures CallInv(Exec(s, step), b)
  {
    assert CallInv(s, b);
    if step.a in s.calls {
      if Owns(s, step.a) { OwnerHolds(s, step.a); }
      var t := Exec(s, step);
      if t != s { MoveKeepsCall(s, step.a, t.calls[step.a].pc, b); }
    }
  }

  lemma StepKeepsCall(s: State, step: Step, b: Agent)
    requires Inv(s) && Hits(s, step) && b in Exec(s, step).calls
    ensures CallInv(Exec(s, step), b)
  {
    StepKeepsCalls(s, step, b);
    if b in s.calls { assert CallInv(s, b); }
    match step
    case Start(a, max) => StartKeepsCall(s, a, max, b);
    case Tick(ms) => TickKeepsCall(s, ms, b);
    case Create(a) => if At(s, a) == Some(Creating) { CreateKeepsCall(s, a, b); }
    case Stat(a) => if At(s, a) == Some(Stating) { StatKeepsCall(s, a, b); }
    case Steal(a) => if IsStealing(s, a) { StealKeepsCall(s, a, b); }
    case Unlink(a) => if IsUnlinking(s, a) { UnlinkKeepsCall(s, a, b); }
    case Release(a) => if IsHolding(s, a) { ReleaseKeepsCall(s, a, b); }
    case _ => QuietKeepsCall(s, step, b);
  }

  lemma StepKeepsInv(s: State, step: Step)
    requires Inv(s) && Hits(s, step)
    ensures Inv(Exec(s, step))
  {
    forall a | a in Exec(s, step).calls ensures CallInv(Exec(s, step), a) {
      StepKeepsCall(s, step, a);
    }
  }

  /** Over every run whose unlinks all hit, whether the steal is one step or two. */
  lemma {:induction false} RunKeepsInv(atomic: bool, steps: seq<Step>)
    requires AllHit(Initial(atomic), steps)
    ensures Inv(Run(Initial(atomic), steps))
  {
    if steps == [] {
    } else {
      RunKeepsInv(atomic, steps[..|steps| - 1]);
      StepKeepsInv(Run(Initial(atomic), steps[..|steps| - 1]), steps[|steps| - 1]);
    }
  }

  /** With the second stat and the unlink in one step no call is ever between the two. */
  predicate NeverBetween(s: State) {
    s.atomicSteal && forall a :: a in s.calls ==> !s.calls[a].pc.Unlinking?
  }

  lemma StaysNeverBetween(s: State, step: Step)
    requires NeverBetween(s)
    ensures Hits(s, step) && NeverBetween(Exec(s, step))
  {
  }

  lemma {:induction false} AtomicAllHit(steps: seq<Step>)
    ensures AllHit(Initial(true), steps) && NeverBetween(Run(Initial(true), steps))
  {
    if steps == [] {
    } else {
      AtomicAllHit(steps[..|steps| - 1]);
      StaysNeverBetween(Run(Initial(true), steps[..|steps| - 1]), steps[|steps| - 1]);
    }
  }

  // ---------------------------------------------------------------- what follows for every run

  /**
   Of two live holders at least one is overdue, in every run whose unlinks remove the file they saw:
   while holders release in time there is only one.
   */
  lemma ExclusionWhileUnlinksHit(atomic: bool, steps: seq<Step>, a: Agent, b: Agent)
    requires AllHit(Initial(atomic), steps)
    requires var s := Run(Initial(atomic), steps); IsHolding(s, a) && IsHolding(s, b) && a != b
    ensures var s := Run(Initial(atomic), steps); Overdue(s, a) || Overdue(s, b)
  {
    RunKeepsInv(atomic, steps);
    var s := Run(Initial(atomic), steps);
    assert CallInv(s, a) && CallInv(s, b);
  }

  /** With the second stat and the unlink in one step this is every run. */
  lemma MutualExclusion(steps: seq<Step>, a: Agent, b: Agent)
    requires var s := Run(Initial(true), steps); IsHolding(s, a) && IsHolding(s, b) && a != b
    ensures var s := Run(Initial(true), steps); Overdue(s, a) || Overdue(s, b)
  {
    AtomicAllHit(steps);
    ExclusionWhileUnlinksHit(true, steps, a, b);
  }

  /** A holder that is not overdue keeps its file through every step but its release, unless an unlink misses. */
  lemma HolderKeepsFile(s: State, step: Step, a: Agent)
    requires Inv(s) && IsHolding(s, a) && Owns(s, a)
    ensures Owns(Exec(s, step), a) || Overdue(s, a) || step == Release(a) || !Hits(s, step)
  {
    assert CallInv(s, a);
    match step
    case Steal(b) => assert b in s.calls ==> CallInv(s, b);
    case Unlink(b) => assert b in s.calls ==> CallInv(s, b);
    case _ =>
  }

  lemma LosesOnlyBy(atomic: bool, steps: seq<Step>, step: Step, a: Agent)
    requires AllHit(Initial(atomic), steps)
    requires var s := Run(Initial(atomic), steps); IsHolding(s, a) && Owns(s, a) && !Owns(Exec(s, step), a)
    ensures var s := Run(Initial(atomic), steps); step == Release(a) || Overdue(s, a) || !Hits(s, step)
  {
    RunKeepsInv(atomic, steps);
    HolderKeepsFile(Run(Initial(atomic), steps), step, a);
  }

  /** A live holder loses its file only to its own release, or after it is overdue. */
  lemma OnlyOverdueLoses(steps: seq<Step>, step: Step, a: Agent)
    requires var s := Run(Initial(true), steps); IsHolding(s, a) && Owns(s, a) && !Owns(Exec(s, step), a)
    ensures step == Release(a) || Overdue(Run(Initial(true), steps), a)
  {
    AtomicAllHit(steps);
    LosesOnlyBy(true, steps, step, a);
  }

  /** In any state: a release removes no file but the one with the releaser's token. */
  lemma ReleaseKeepsOthers(s: State, a: Agent)
    requires s.file.Some? && s.file.value.token != a
    ensures Exec(s, Release(a)).file == s.file
  {
  }

  predicate Counted(s: State, a: Agent) {
    a in s.calls ==> s.calls[a].sleeps == s.calls[a].attempt <= s.calls[a].maxRetries
  }

  lemma StepKeepsCount(s: State, step: Step, a: Agent)
    requires Counted(s, a)
    ensures Counted(Exec(s, step), a)
  {
  }

  /** An acquire sleeps at most maxRetries times, in every run, whatever the unlinks hit. */
  lemma {:induction false} SleepsAreBounded(atomic: bool, steps: seq<Step>, a: Agent)
    ensures Counted(Run(Initial(atomic), steps), a)
  {
    if steps == [] {
    } else {
      SleepsAreBounded(atomic, steps[..|steps| - 1], a);
      StepKeepsCount(Run(Initial(atomic), steps[..|steps| - 1]), steps[|steps| - 1], a);
    }
  }

  /** A lock left behind for longer than the timeout does not wedge the next caller. */
  lemma StaleLockIsTaken(s: State, a: Agent)
    requires s.atomicSteal && At(s, a) == Some(Creating)
    requires s.file.Some? && s.now - s.file.value.mtime > STALE_MS
    ensures IsHolding(Exec(Exec(Exec(Exec(s, Create(a)), Stat(a)), Steal(a)), Create(a)), a)
  {
    var s1 := Exec(s, Create(a));
    var s2 := Exec(s1, Stat(a));
    var s3 := Exec(s2, Steal(a));
    assert s3.file.None? && At(s3, a) == Some(Creating);
  }

  // ---------------------------------------------------------------- after a crash

  /** Every call made so far has died. */
  predicate AllDead(s: State) { forall a :: a in s.calls ==> s.calls[a].pc.Dead? }

  /** No call is past the point where it could touch the lock file. */
  predicate NoneNear(s: State) {
    forall a :: a in s.calls ==> !s.calls[a].pc.Holding? && !s.calls[a].pc.Stealing? && !s.calls[a].pc.Unlinking?
  }

  lemma EarlyStep(s: State, step: Step)
    requires NoneNear(s) && s.file.Some? && Exec(s, step).now - s.file.value.mtime <= STALE_MS
    ensures NoneNear(Exec(s, step)) && Exec(s, step).file == s.file
  {
  }

  lemma ClockStep(s: State, step: Step)
    ensures s.now <= Exec(s, step).now
  {
  }

  /** The lock of a dead holder keeps everybody out until it is stale, whatever calls are made. */
  lemma {:induction false} DeadLockStays(s: State, steps: seq<Step>)
    requires AllDead(s) && s.file.Some? && Run(s, steps).now - s.file.value.mtime <= STALE_MS
    ensures Run(s, steps).file == s.file && NoneNear(Run(s, steps))
  {
    if steps == [] {
    } else {
      ClockStep(Run(s, steps[..|steps| - 1]), steps[|steps| - 1]);
      DeadLockStays(s, steps[..|steps| - 1]);
      EarlyStep(Run(s, steps[..|steps| - 1]), steps[|steps| - 1]);
    }
  }

  /** One attempt without retries, alone and without errors; the unlink is a step of its own only if it was split off. */
  function LoneCall(a: Agent): seq<Step> {
    [Start(a, 0), Create(a), Stat(a), Steal(a), Unlink(a), Create(a)]
  }

  lemma RunLone(s: State, a: Agent)
    ensures Run(s, LoneCall(a)) == Exec(Exec(Exec(Exec(Exec(Exec(s, Start(a, 0)), Create(a)), Stat(a)), Steal(a)), Unlink(a)), Create(a))
  {
    var steps := Snoc(s, [], Start(a, 0));
    steps := Snoc(s, steps, Create(a));
    steps := Snoc(s, steps, Stat(a));
    steps := Snoc(s, steps, Steal(a));
    steps := Snoc(s, steps, Unlink(a));
    steps := Snoc(s, steps, Create(a));
    assert steps == LoneCall(a);
  }

  lemma LoneStale(s: State, a: Agent)
    requires a !in s.calls && s.file.Some? && s.now - s.file.value.mtime > STALE_MS
    ensures IsHolding(Run(s, LoneCall(a)), a)
  {
    RunLone(s, a);
    var f := s.file.value;
    var s3 := Exec(Exec(Exec(s, Start(a, 0)), Create(a)), Stat(a));
    assert At(s3, a) == Some(Stealing(f.ino, f.mtime)) && s3.file == s.file;
    var s5 := Exec(Exec(s3, Steal(a)), Unlink(a));
    assert At(s5, a) == Some(Creating) && s5.file.None?;
  }

  lemma LoneFresh(s: State, a: Agent)
    requires a !in s.calls && s.file.Some? && s.now - s.file.value.mtime <= STALE_MS
    ensures At(Run(s, LoneCall(a)), a) == Some(GaveUp) && Run(s, LoneCall(a)).file == s.file
  {
    RunLone(s, a);
    var s2 := Exec(Exec(s, Start(a, 0)), Create(a));
    assert At(s2, a) == Some(Stating) && s2.file == s.file;
    assert At(Exec(s2, Stat(a)), a) == Some(GaveUp);
  }

  lemma LoneFree(s: State, a: Agent)
    requires a !in s.calls && s.file.None?
    ensures IsHolding(Run(s, LoneCall(a)), a)
  {
    RunLone(s, a);
    var s2 := Exec(Exec(s, Start(a, 0)), Create(a));
    assert At(s2, a) == Some(Holding(s.now));
  }

  /** The lock file is older than the timeout. */
  predicate IsStale(s: State) { s.file.Some? && s.now - s.file.value.mtime > STALE_MS }

  /** A single attempt gets the lock exactly when there is none or it is stale; otherwise it gives up and the file stays. */
  lemma LoneCallIff(s: State, a: Agent)
    requires a !in s.calls
    ensures IsHolding(Run(s, LoneCall(a)), a) <==> s.file.None? || IsStale(s)
    ensures !IsHolding(Run(s, LoneCall(a)), a) ==> At(Run(s, LoneCall(a)), a) == Some(GaveUp) && Run(s, LoneCall(a)).file == s.file
  {
    if s.file.None? {
      LoneFree(s, a);
    } else if s.now - s.file.value.mtime > STALE_MS {
      LoneStale(s, a);
    } else {
      LoneFresh(s, a);
    }
  }

  /** A holder that has just died. */
  lemma FreshlyDead(atomic: bool) returns (steps: seq<Step>)
    ensures var s := Run(Initial(atomic), steps); AllDead(s) && s.file.Some? && s.now == s.file.value.mtime && 1 !in s.calls
  {
    var s0 := Initial(atomic);
    steps := Snoc(s0, [], Start(0, 50));
    steps := Snoc(s0, steps, Create(0));
    steps := Snoc(s0, steps, Die(0));
  }

  // ---------------------------------------------------------------- waiting for a busy lock

  /** A lock file that is not stale. */
  predicate IsBusy(s: State) { s.file.Some? && s.now - s.file.value.mtime <= STALE_MS }

  /** A call ends without the lock only on an error of the create, or on a busy lock with its attempts used up. */
  lemma GivesUpOnlyBy(s: State, step: Step, a: Agent)
    requires At(s, a) != Some(GaveUp) && At(Exec(s, step), a) == Some(GaveUp)
    ensures step == CreateFails(a) || (step == Stat(a) && IsBusy(s) && s.calls[a].attempt >= s.calls[a].maxRetries)
  {
  }

  /** The call as it stands before its create, after so many attempts. */
  predicate About(s: State, a: Agent, attempt: nat) {
    At(s, a) == Some(Creating) && s.calls[a].attempt == attempt
  }

  /** One round on a busy lock: look, sleep 200 ms, wake. */
  function Round(a: Agent): seq<Step> { [Create(a), Stat(a), Tick(RETRY_MS), Wake(a)] }

  function Rounds(a: Agent, n: nat): seq<Step> { if n == 0 then [] else Rounds(a, n - 1) + Round(a) }

  lemma RunRound(s: State, a: Agent)
    ensures Run(s, Round(a)) == Exec(Exec(Exec(Exec(s, Create(a)), Stat(a)), Tick(RETRY_MS)), Wake(a))
  {
    var steps := Snoc(s, [], Create(a));
    steps := Snoc(s, steps, Stat(a));
    steps := Snoc(s, steps, Tick(RETRY_MS));
    steps := Snoc(s, steps, Wake(a));
    assert steps == Round(a);
  }

  /** While attempts are left a call that finds the lock busy sleeps for 200 ms, no less, and tries again. */
  lemma BusyRound(s: State, a: Agent, attempt: nat)
    requires IsBusy(s) && About(s, a, attempt) && attempt < s.calls[a].maxRetries
    ensures var asleep := Exec(Exec(s, Create(a)), Stat(a));
      && At(asleep, a) == Some(Sleeping(s.now + RETRY_MS)) && asleep.file == s.file
      && (forall ms: nat :: ms < RETRY_MS ==> At(Exec(Exec(asleep, Tick(ms)), Wake(a)), a) == Some(Sleeping(s.now + RETRY_MS)))
    ensures var t := Run(s, Round(a));
      About(t, a, attempt + 1) && t.file == s.file && t.now == s.now + RETRY_MS && t.calls[a].maxRetries == s.calls[a].maxRetries
  {
    RunRound(s, a);
  }

  lemma {:induction false} BusyRounds(s: State, a: Agent, n: nat)
    requires IsBusy(s) && About(s, a, 0) && n <= s.calls[a].maxRetries
    requires n > 0 ==> s.now + RETRY_MS * (n - 1) - s.file.value.mtime <= STALE_MS
    ensures var t := Run(s, Rounds(a, n));
      About(t, a, n) && t.file == s.file && t.now == s.now + RETRY_MS * n && t.calls[a].maxRetries == s.calls[a].maxRetries
  {
    if n == 0 {
    } else {
      BusyRounds(s, a, n - 1);
      RunAppend(s, Rounds(a, n - 1), Round(a));
      BusyRound(Run(s, Rounds(a, n - 1)), a, n - 1);
    }
  }

  /** A call alone on a lock that stays busy tries maxRetries times more, sleeps as often, and only then gives up. */
  lemma BusyUntilTheEnd(s: State, a: Agent)
    requires IsBusy(s) && About(s, a, 0)
    requires s.now + RETRY_MS * s.calls[a].maxRetries - s.file.value.mtime <= STALE_MS
    ensures var t := Run(s, Rounds(a, s.calls[a].maxRetries));
      && About(t, a, s.calls[a].maxRetries) && t.now == s.now + RETRY_MS * s.calls[a].maxRetries
      && At(Exec(Exec(t, Create(a)), Stat(a)), a) == Some(GaveUp) && Exec(Exec(t, Create(a)), Stat(a)).file == s.file
  {
    BusyRounds(s, a, s.calls[a].maxRetries);
  }

  /** A create that fails for another reason ends the call. */
  lemma CreateErrorEnds(s: State, a: Agent)
    requires At(s, a) == Some(Creating)
    ensures At(Exec(s, CreateFails(a)), a) == Some(GaveUp) && Exec(s, CreateFails(a)).file == s.file
  {
  }

  /** A file that is gone, that a stat fails on, or that is no longer the one seen is tried again at once, and left alone. */
  lemma RetriesAtOnce(s: State, a: Agent)
    requires At(s, a) == Some(Stating) || IsStealing(s, a) || IsUnlinking(s, a)
    ensures At(Exec(s, StatFails(a)), a) == Some(Creating) && Exec(s, StatFails(a)).file == s.file
    ensures At(s, a) == Some(Stating) && s.file.None? ==> At(Exec(s, Stat(a)), a) == Some(Creating)
    ensures IsStealing(s, a) && (s.file.None? || s.file.value.ino != s.calls[a].pc.ino) ==>
              At(Exec(s, Steal(a)), a) == Some(Creating) && Exec(s, Steal(a)).file == s.file
  {
  }

  /** A release by the owner removes the file, and the next to try has the lock. */
  lemma ReleaseFrees(s: State, a: Agent, b: Agent)
    requires IsHolding(s, a) && Owns(s, a) && At(s, b) == Some(Creating)
    ensures var t := Exec(s, Release(a));
      t.file == None && At(t, a) == Some(Released) && IsHolding(Exec(t, Create(b)), b) && Owns(Exec(t, Create(b)), b)
  {
  }

  // ---------------------------------------------------------------- where the guarantee ends

  lemma RunSnoc(s: State, steps: seq<Step>, step: Step)
    ensures Run(s, steps + [step]) == Exec(Run(s, steps), step)
  {
    assert (steps + [step])[..|steps|] == steps;
  }

  lemma RunAppend(s: State, a: seq<Step>, b: seq<Step>)
    ensures Run(s, a + b) == Run(Run(s, a), b)
  {
    if b == [] {
      assert a + b == a;
    } else {
      var n := |b| - 1;
      RunAppend(s, a, b[..n]);
      RunSnoc(s, a + b[..n], b[n]);
      assert a + b == a + b[..n] + [b[n]];
    }
  }

  /** From a state whose lock is stale, a fresh call takes the lock over. */
  lemma TakeOver(s: State, a: Agent) returns (steps: seq<Step>)
    requires s.atomicSteal && a !in s.calls
    requires s.file.Some? && s.now - s.file.value.mtime > STALE_MS
    ensures IsHolding(Run(s, steps), a)
    ensures forall b :: b != a ==> At(Run(s, steps), b) == At(s, b)
  {
    var s1 := Exec(s, Start(a, 0));
    StaleLockIsTaken(s1, a);
    steps := Snoc(s, [], Start(a, 0));
    steps := Snoc(s, steps, Create(a));
    steps := Snoc(s, steps, Stat(a));
    steps := Snoc(s, steps, Steal(a));
    steps := Snoc(s, steps, Create(a));
  }

  lemma Snoc(s: State, steps: seq<Step>, step: Step) returns (more: seq<Step>)
    ensures more == steps + [step] && Run(s, more) == Exec(Run(s, steps), step)
  {
    more := steps + [step];
    RunSnoc(s, steps, step);
  }

  /** The bound is needed: a live holder that stays longer than the timeout gets company. */
  lemma OverrunGivesTwoHolders() returns (steps: seq<Step>)
    ensures var s := Run(Initial(true), steps); IsHolding(s, 0) && IsHolding(s, 1)
  {
    var s0 := Initial(true);
    var first := Snoc(s0, [], Start(0, 0));
    first := Snoc(s0, first, Create(0));
    first := Snoc(s0, first, Tick(STALE_MS + 1));
    var s := Run(s0, first);
    assert At(s, 0) == Some(Holding(0));
    var rest := TakeOver(s, 1);
    steps := first + rest;
    RunAppend(s0, first, rest);
  }

  /**
   The window is real. `a` is about to unlink and then creates; `b` holds the lock file. Then both hold,
   neither overdue, exactly when `b` was not overdue before; and then the unlink misses what it saw.
   */
  lemma SplitStealBreaksExclusion(atomic: bool, steps: seq<Step>, a: Agent, b: Agent)
    requires AllHit(Initial(atomic), steps)
    requires var s := Run(Initial(atomic), steps); IsUnlinking(s, a) && IsHolding(s, b) && Owns(s, b)
    ensures var s := Run(Initial(atomic), steps);
      var t := Exec(Exec(s, Unlink(a)), Create(a));
      && IsHolding(t, a) && IsHolding(t, b)
      && (!Overdue(t, a) && !Overdue(t, b) <==> !Overdue(s, b))
      && (!Overdue(s, b) ==> !Hits(s, Unlink(a)))
  {
    var s := Run(Initial(atomic), steps);
    var s1 := Exec(s, Unlink(a));
    assert s1.file.None? && At(s1, a) == Some(Creating) && At(s1, b) == At(s, b);
    RunKeepsInv(atomic, steps);
    HolderKeepsFile(s, Unlink(a), b);
  }

  /** From a stale lock, two calls racing to steal it: one takes over while the other is about to unlink. */
  lemma SplitStealIsReachable(s: State, a: Agent, b: Agent)
    requires !s.atomicSteal && a != b && At(s, a) == Some(Creating) && At(s, b) == Some(Creating)
    requires s.file.Some? && s.now - s.file.value.mtime > STALE_MS
    ensures var s1 := Exec(Exec(Exec(s, Create(a)), Stat(a)), Steal(a));
      var s2 := Exec(Exec(Exec(s1, Create(b)), Stat(b)), Steal(b));
      var t := Exec(Exec(s2, Unlink(b)), Create(b));
      IsUnlinking(t, a) && At(t, b) == Some(Holding(t.now)) && Owns(t, b)
  {
    var f := s.file.value;
    var s1 := Exec(Exec(Exec(s, Create(a)), Stat(a)), Steal(a));
    assert s1 == Goto(s, a, Unlinking(f.ino, f.mtime));
    var s2 := Exec(Exec(Exec(s1, Create(b)), Stat(b)), Steal(b));
    assert s2 == Goto(s1, b, Unlinking(f.ino, f.mtime));
  }

  /** A run from the start: a third call dies holding the lock, and the two that race to steal it both get it. */
  lemma SplitStealRun() returns (steps: seq<Step>)
    ensures var s := Run(Initial(false), steps);
      IsHolding(s, 0) && IsHolding(s, 1) && !Overdue(s, 0) && !Overdue(s, 1)
  {
    var s0 := Initial(false);
    var before := StaleLockRun();
    var s := Run(s0, before);
    SplitStealIsReachable(s, 0, 1);
    var race := Snoc(s, [], Create(0));
    race := Snoc(s, race, Stat(0));
    race := Snoc(s, race, Steal(0));
    race := Snoc(s, race, Create(1));
    race := Snoc(s, race, Stat(1));
    race := Snoc(s, race, Steal(1));
    race := Snoc(s, race, Unlink(1));
    race := Snoc(s, race, Create(1));
    var t := Run(s, race);
    race := Snoc(s, race, Unlink(0));
    race := Snoc(s, race, Create(0));
    BothHold(t, 0, 1);
    steps := before + race;
    RunAppend(s0, before, race);
  }

  lemma BothHold(s: State, a: Agent, b: Agent)
    requires a != b && IsUnlinking(s, a) && At(s, b) == Some(Holding(s.now))
    ensures var t := Exec(Exec(s, Unlink(a)), Create(a));
      IsHolding(t, a) && IsHolding(t, b) && !Overdue(t, a) && !Overdue(t, b)
  {
    var s1 := Exec(s, Unlink(a));
    assert s1.file.None? && At(s1, a) == Some(Creating) && At(s1, b) == At(s, b);
  }

  /** A holder that died, its lock older than the timeout, and two calls that have just begun. */
  lemma StaleLockRun() returns (steps: seq<Step>)
    ensures var s := Run(Initial(false), steps);
      && !s.atomicSteal && At(s, 0) == Some(Creating) && At(s, 1) == Some(Creating)
      && s.file.Some? && s.now - s.file.value.mtime > STALE_MS
  {
    var s0 := Initial(false);
    steps := Snoc(s0, [], Start(2, 0));
    steps := Snoc(s0, steps, Create(2));
    steps := Snoc(s0, steps, Die(2));
    steps := Snoc(s0, steps, Tick(STALE_MS + 1));
    steps := Snoc(s0, steps, Start(0, 0));
    steps := Snoc(s0, steps, Start(1, 0));
  }
}
