/**
 runBuild: one distrobuilder child, settled exactly once by whichever comes first of its close, its
 error, a log error, or the chain of three timers.
 */
module BuildRun {
  import opened Text

  const BUILD_TIMEOUT_MS: nat := 60 * 60 * 1000
  const BUILD_KILL_GRACE_MS: nat := 10000
  const BUILD_HARD_SETTLE_MS: nat := 5000

  /** Time from the spawn to the last moment at which finish can run. */
  const DEADLINE_MS: nat := BUILD_TIMEOUT_MS + BUILD_KILL_GRACE_MS + BUILD_HARD_SETTLE_MS

  datatype Failure = TimedOut | LogUnavailable | ChildFailed | Exited(code: Option<int>) | RegistryFailed

  datatype Status = InProgress | Success | Failed(why: Failure)

  /** What the body of finish was called with: exit code, error argument, forced error at that time. */
  datatype Settlement = Settlement(code: Option<int>, error: Option<Failure>, forced: Option<Failure>, at: nat)

  /**
   `timeout`, `killTimer` and `hardSettleTimer` hold the due time while armed. `registry` is the result
   of recordImageBuilt; `finishes` counts executions of finish's body.
   */
  datatype State = State(
    now: nat,
    settled: bool,
    forcedError: Option<Failure>,
    timeout: Option<nat>,
    killTimer: Option<nat>,
    hardSettleTimer: Option<nat>,
    recording: bool,
    status: Status,
    finishedAt: Option<nat>,
    settlement: Option<Settlement>,
    registry: Option<bool>,
    finishes: nat,
    seen: set<Once>)

  /** Listeners added with once. */
  datatype Once = Close | ChildError | LogError

  datatype Event =
    | ChildCloses(code: Option<int>)
    | ChildErrors
    | LogErrors
    | TimeoutFires
    | KillFires
    | HardSettleFires
    | RegistryDone(ok: bool)
    | Tick(ms: nat)

  /** Right after the spawn, at time `start`. */
  function Spawned(start: nat): State {
    State(start, false, None, Some(start + BUILD_TIMEOUT_MS), None, None, false, InProgress, None, None, None, 0, {})
  }

  function Complete(s: State, status: Status): State {
    s.(status := status, finishedAt := Some(s.now), recording := false)
  }

  /** finish, up to the point where it waits for the registry. */
  function Finish(s: State, code: Option<int>, error: Option<Failure>): State {
    if s.settled then s else
    var s1 := s.(settled := true, timeout := None, killTimer := None, hardSettleTimer := None,
                 finishes := s.finishes + 1, settlement := Some(Settlement(code, error, s.forcedError, s.now)));
    var failure := if error.Some? then error else s.forcedError;
    if failure.Some? then Complete(s1, Failed(failure.value))
    else if code == Some(0) then s1.(status := Success, recording := true)
    else Complete(s1, Failed(Exited(code)))
  }

  /** A timer runs at its due time or later. */
  predicate Due(s: State, timer: Option<nat>) { timer.Some? && s.now >= timer.value }

  /** Timers fire on time: the clock does not move past one that is armed. */
  predicate MayPass(s: State, timer: Option<nat>, ms: nat) { timer.Some? ==> s.now + ms <= timer.value }

  function Exec(s: State, e: Event): State {
    match e
    case ChildCloses(code) =>
      if Close in s.seen then s else Finish(s.(seen := s.seen + {Close}), code, None)
    case ChildErrors =>
      if ChildError in s.seen then s else Finish(s.(seen := s.seen + {ChildError}), None, Some(ChildFailed))
    case LogErrors =>
      if LogError in s.seen then s
      else Finish(s.(seen := s.seen + {LogError}, forcedError := Some(LogUnavailable)), None, Some(LogUnavailable))
    case TimeoutFires =>
      if !Due(s, s.timeout) then s
      else s.(timeout := None, forcedError := Some(TimedOut), killTimer := Some(s.now + BUILD_KILL_GRACE_MS))
    case KillFires =>
      if !Due(s, s.killTimer) then s
      else s.(killTimer := None, hardSettleTimer := Some(s.now + BUILD_HARD_SETTLE_MS))
    case HardSettleFires =>
      if !Due(s, s.hardSettleTimer) then s
      else Finish(s.(hardSettleTimer := None), None, s.forcedError)
    case RegistryDone(ok) =>
      if !s.recording then s
      else Complete(s.(registry := Some(ok)), if ok then Success else Failed(RegistryFailed))
    case Tick(ms) =>
      if MayPass(s, s.timeout, ms) && MayPass(s, s.killTimer, ms) && MayPass(s, s.hardSettleTimer, ms)
      then s.(now := s.now + ms) else s
  }

  function Run(s: State, events: seq<Event>): State {
    if events == [] then s else Exec(Run(s, events[..|events| - 1]), events[|events| - 1])
  }

  // ---------------------------------------------------------------- the invariant

  /** Until it settles, exactly one link of the timer chain is armed, and the clock is not past it. */
  predicate TimersInv(start: nat, s: State) {
    if s.settled then s.timeout == None && s.killTimer == None && s.hardSettleTimer == None
    else
      || (s.timeout == Some(start + BUILD_TIMEOUT_MS) && s.killTimer == None && s.hardSettleTimer == None
          && s.now <= s.timeout.value && s.forcedError == None)
      || (s.timeout == None && s.killTimer == Some(start + BUILD_TIMEOUT_MS + BUILD_KILL_GRACE_MS)
          && s.hardSettleTimer == None && s.now <= s.killTimer.value && s.forcedError == Some(TimedOut))
      || (s.timeout == None && s.killTimer == None && s.hardSettleTimer == Some(start + DEADLINE_MS)
          && s.now <= s.hardSettleTimer.value && s.forcedError == Some(TimedOut))
  }

  /** What the fields say about the one execution of finish. */
  predicate OutcomeInv(start: nat, s: State) {
    && s.finishes == (if s.settled then 1 else 0)
    && (s.settlement.Some? <==> s.settled)
    && (s.settled ==> s.settlement.value.at <= start + DEADLINE_MS && s.settlement.value.at <= s.now)
    && (!s.settled ==> s.status == InProgress && s.finishedAt == None && !s.recording && s.registry == None && s.seen == {})
    && (s.settled ==> (s.recording <==> s.finishedAt == None))
    && (s.recording ==> s.registry == None && s.status == Success)
    && (s.settled && s.status == Success ==>
          s.settlement.value.code == Some(0) && s.settlement.value.error == None && s.settlement.value.forced == None)
    && (s.finishedAt.Some? && s.status == Success ==> s.registry == Some(true))
    && (s.finishedAt.Some? ==> s.status != InProgress)
  }

  predicate Inv(start: nat, s: State) { TimersInv(start, s) && OutcomeInv(start, s) }

  lemma StepKeepsInv(start: nat, s: State, e: Event)
    requires Inv(start, s)
    ensures Inv(start, Exec(s, e))
  {
  }

  lemma {:induction false} RunKeepsInv(start: nat, events: seq<Event>)
    ensures Inv(start, Run(Spawned(start), events))
  {
    if events == [] {
    } else {
      RunKeepsInv(start, events[..|events| - 1]);
      StepKeepsInv(start, Run(Spawned(start), events[..|events| - 1]), events[|events| - 1]);
    }
  }

  // ---------------------------------------------------------------- what follows for every order of events

  /** The body of finish runs at most once, and by the deadline it has run. */
  lemma SettlesOnceInTime(start: nat, events: seq<Event>)
    ensures var s := Run(Spawned(start), events);
      && s.finishes <= 1
      && (s.finishes == 1 ==> s.settlement.Some? && s.settlement.value.at <= start + DEADLINE_MS)
      && (s.now > start + DEADLINE_MS ==> s.finishes == 1)
  {
    RunKeepsInv(start, events);
  }

  /** A finished build is a success exactly when the child exited with 0, nothing forced an error before, and the registry took it. */
  lemma SuccessMeans(start: nat, events: seq<Event>)
    requires Run(Spawned(start), events).finishedAt.Some?
    ensures var s := Run(Spawned(start), events);
      s.settlement.Some? && (s.status == Success <==>
        && s.settlement.value.code == Some(0) && s.settlement.value.error == None && s.settlement.value.forced == None
        && s.registry == Some(true))
  {
    RunKeepsInv(start, events);
    FinishedStatus(start, events);
  }

  /** What a finished build's status is made of. */
  predicate StatusIs(s: State) {
    s.finishedAt.Some? && s.settlement.Some? ==>
      var t := s.settlement.value;
      if t.error.Some? then s.status == Failed(t.error.value)
      else if t.forced.Some? then s.status == Failed(t.forced.value)
      else if t.code != Some(0) then s.status == Failed(Exited(t.code))
      else s.registry.Some? && s.status == if s.registry.value then Success else Failed(RegistryFailed)
  }

  predicate Expecting(s: State) {
    s.recording && s.settlement.Some? ==>
      s.settlement.value.error == None && s.settlement.value.forced == None && s.settlement.value.code == Some(0)
  }

  lemma {:induction false} FinishedStatus(start: nat, events: seq<Event>)
    ensures StatusIs(Run(Spawned(start), events)) && Expecting(Run(Spawned(start), events))
  {
    if events == [] {
    } else {
      FinishedStatus(start, events[..|events| - 1]);
      RunKeepsInv(start, events[..|events| - 1]);
      StepKeepsStatus(start, Run(Spawned(start), events[..|events| - 1]), events[|events| - 1]);
    }
  }

  lemma StepKeepsStatus(start: nat, s: State, e: Event)
    requires Inv(start, s) && StatusIs(s) && Expecting(s)
    ensures StatusIs(Exec(s, e)) && Expecting(Exec(s, e))
  {
  }

  // ---------------------------------------------------------------- which events make a success

  /** The event neither reports the end of the child or of the log nor is the timeout, fired when it is due. */
  predicate IsCalm(start: nat, now: nat, e: Event) {
    match e
    case ChildCloses(_) => false
    case ChildErrors => false
    case LogErrors => false
    case TimeoutFires => now < start + BUILD_TIMEOUT_MS
    case _ => true
  }

  predicate Calm(start: nat, events: seq<Event>, j: nat)
    requires j < |events|
  {
    IsCalm(start, Run(Spawned(start), events[..j]).now, events[j])
  }

  predicate CalmUntil(start: nat, events: seq<Event>, k: nat)
    requires k <= |events|
  {
    forall j :: 0 <= j < k ==> Calm(start, events, j)
  }

  /** Event `k` is the child's exit with 0, with nothing before it, and the registry has not answered since. */
  predicate ExitedAt(start: nat, events: seq<Event>, k: nat)
    requires k < |events|
  {
    && events[k] == ChildCloses(Some(0)) && CalmUntil(start, events, k)
    && NoAnswerAfter(events, k)
  }

  predicate NoAnswerAfter(events: seq<Event>, k: nat) {
    forall j :: k < j < |events| ==> !events[j].RegistryDone?
  }

  ghost predicate Exited0(start: nat, events: seq<Event>) {
    exists k :: 0 <= k < |events| && ExitedAt(start, events, k)
  }

  /** Event `m` is the registry's first answer to such an exit, and it took the record. */
  ghost predicate RecordedAt(start: nat, events: seq<Event>, m: nat)
    requires m < |events|
  {
    events[m] == RegistryDone(true) && Exited0(start, events[..m])
  }

  ghost predicate Recorded(start: nat, events: seq<Event>) {
    exists m :: 0 <= m < |events| && RecordedAt(start, events, m)
  }

  predicate Succeeded(s: State) { s.finishedAt.Some? && s.status == Success }

  /**
   A build ends as a success exactly when the child exits with 0 before any child error, log error, other
   exit or due timeout, and the registry's answer to that is positive.
   */
  lemma {:induction false} SuccessEvents(start: nat, events: seq<Event>)
    ensures Succeeded(Run(Spawned(start), events)) <==> Recorded(start, events)
  {
    if events == [] {
    } else {
      var less, last := events[..|events| - 1], events[|events| - 1];
      SuccessEvents(start, less);
      RunKeepsInv(start, less);
      FinishedStatus(start, less);
      ExitedEvents(start, less);
      SuccessStep(start, Run(Spawned(start), less), last);
      RecordedPush(start, events, less, last);
    }
  }

  lemma RecordedPush(start: nat, events: seq<Event>, less: seq<Event>, last: Event)
    requires events == less + [last]
    ensures Recorded(start, events) <==> Recorded(start, less) || (last == RegistryDone(true) && Exited0(start, less))
  {
    var n := |less|;
    forall m | 0 <= m < n ensures RecordedAt(start, events, m) <==> RecordedAt(start, less, m) {
      assert less[..m] == events[..m];
    }
    assert events[..n] == less;
    assert RecordedAt(start, events, n) <==> last == RegistryDone(true) && Exited0(start, less);
  }

  lemma SuccessStep(start: nat, s: State, e: Event)
    requires Inv(start, s) && StatusIs(s) && Expecting(s)
    ensures Succeeded(Exec(s, e)) <==> Succeeded(s) || (s.recording && e == RegistryDone(true))
  {
  }

  lemma {:induction false} ExitedEvents(start: nat, events: seq<Event>)
    ensures Run(Spawned(start), events).recording <==> Exited0(start, events)
  {
    if events == [] {
    } else {
      var less, last := events[..|events| - 1], events[|events| - 1];
      ExitedEvents(start, less);
      RunKeepsInv(start, less);
      CalmEvents(start, less);
      RecordingStep(start, Run(Spawned(start), less), last);
      ExitedPush(start, events, less, last);
    }
  }

  lemma ExitedPush(start: nat, events: seq<Event>, less: seq<Event>, last: Event)
    requires events == less + [last]
    ensures Exited0(start, events)
       <==> (Exited0(start, less) && !last.RegistryDone?)
            || (last == ChildCloses(Some(0)) && CalmUntil(start, less, |less|))
  {
    var n := |less|;
    forall k | 0 <= k < n ensures ExitedAt(start, events, k) <==> ExitedAt(start, less, k) && !last.RegistryDone? {
      CalmPrefix(start, events, less, k);
      NoAnswerPush(events, less, last, k);
    }
    CalmPrefix(start, events, less, n);
    assert ExitedAt(start, events, n) <==> last == ChildCloses(Some(0)) && CalmUntil(start, less, n);
  }

  lemma NoAnswerPush(events: seq<Event>, less: seq<Event>, last: Event, k: nat)
    requires events == less + [last] && k < |less|
    ensures NoAnswerAfter(events, k) <==> NoAnswerAfter(less, k) && !last.RegistryDone?
  {
    assert events[|less|] == last;
    assert forall j :: 0 <= j < |less| ==> less[j] == events[j];
  }

  lemma RecordingStep(start: nat, s: State, e: Event)
    requires Inv(start, s)
    ensures Exec(s, e).recording <==> (s.recording && !e.RegistryDone?) || (Undecided(s) && e == ChildCloses(Some(0)))
  {
  }

  /** finish has not run and nothing forced an error. */
  predicate Undecided(s: State) { !s.settled && s.forcedError == None }

  lemma {:induction false} CalmEvents(start: nat, events: seq<Event>)
    ensures Undecided(Run(Spawned(start), events)) <==> CalmUntil(start, events, |events|)
  {
    if events == [] {
    } else {
      var less, last := events[..|events| - 1], events[|events| - 1];
      CalmEvents(start, less);
      RunKeepsInv(start, less);
      UndecidedStep(start, Run(Spawned(start), less), last);
      CalmPrefix(start, events, less, |less|);
      CalmPush(start, events, |less|);
    }
  }

  lemma CalmPush(start: nat, events: seq<Event>, k: nat)
    requires k < |events|
    ensures CalmUntil(start, events, k + 1) <==> CalmUntil(start, events, k) && Calm(start, events, k)
  {
  }

  lemma UndecidedStep(start: nat, s: State, e: Event)
    requires Inv(start, s)
    ensures Undecided(Exec(s, e)) <==> Undecided(s) && IsCalm(start, s.now, e)
  {
  }

  /** Whether the first `k` events are calm depends on them alone. */
  lemma CalmPrefix(start: nat, events: seq<Event>, less: seq<Event>, k: nat)
    requires k <= |less| && less <= events
    ensures CalmUntil(start, events, k) <==> CalmUntil(start, less, k)
  {
    forall j | 0 <= j < k ensures Calm(start, events, j) <==> Calm(start, less, j) {
      assert less[..j] == events[..j];
    }
  }

  /**
   The first report decides. After calm events: exit 0 waits for the registry, any other exit, a child error
   and a log error fail the build at once, each under its own name; the timeout fails nothing yet, but from
   then on a child that closes, with whatever code, has timed out.
   */
  lemma FirstReportDecides(start: nat, events: seq<Event>, e: Event)
    requires CalmUntil(start, events, |events|)
    ensures var s := Run(Spawned(start), events);
      var t := Exec(s, e);
      match e
      case ChildCloses(code) =>
        if code == Some(0) then t.status == Success && t.recording && t.finishedAt == None
        else t.status == Failed(Exited(code)) && t.finishedAt == Some(s.now)
      case ChildErrors => t.status == Failed(ChildFailed) && t.finishedAt == Some(s.now)
      case LogErrors => t.status == Failed(LogUnavailable) && t.finishedAt == Some(s.now)
      case TimeoutFires =>
        if s.now < start + BUILD_TIMEOUT_MS then t == s
        else t.status == InProgress && forall code :: TimesOut(Exec(t, ChildCloses(code)), s.now)
      case _ => t.status == InProgress && t.finishedAt == None
  {
    CalmEvents(start, events);
    RunKeepsInv(start, events);
  }

  predicate TimesOut(s: State, at: nat) { s.status == Failed(TimedOut) && s.finishedAt == Some(at) }

  /** The registry's answer ends a build that waits for it. */
  lemma RegistryDecides(start: nat, events: seq<Event>, ok: bool)
    requires Run(Spawned(start), events).recording
    ensures var s := Run(Spawned(start), events);
      var t := Exec(s, RegistryDone(ok));
      t.status == (if ok then Success else Failed(RegistryFailed)) && t.finishedAt == Some(s.now)
  {
  }

  /** Once finishedAt is set, no later event changes it or the status. */
  lemma {:induction false} FinishedIsFinal(start: nat, before: seq<Event>, after: seq<Event>)
    requires Run(Spawned(start), before).finishedAt.Some?
    ensures var s, t := Run(Spawned(start), before), Run(Run(Spawned(start), before), after);
      t.status == s.status && t.finishedAt == s.finishedAt && Inv(start, t)
  {
    RunKeepsInv(start, before);
    if after == [] {
    } else {
      FinishedIsFinal(start, before, after[..|after| - 1]);
      StepKeepsInv(start, Run(Run(Spawned(start), before), after[..|after| - 1]), after[|after| - 1]);
    }
  }

  /** The timers alone settle a child that never reports: no slot stays occupied for ever. */
  lemma SilentChildSettles(start: nat)
    ensures var killing := Exec(Exec(Spawned(start), Tick(BUILD_TIMEOUT_MS)), TimeoutFires);
      var waiting := Exec(Exec(killing, Tick(BUILD_KILL_GRACE_MS)), KillFires);
      var s := Exec(Exec(waiting, Tick(BUILD_HARD_SETTLE_MS)), HardSettleFires);
      s.status == Failed(TimedOut) && s.finishedAt == Some(start + DEADLINE_MS)
  {
    var killing := Exec(Exec(Spawned(start), Tick(BUILD_TIMEOUT_MS)), TimeoutFires);
    assert killing.killTimer == Some(start + BUILD_TIMEOUT_MS + BUILD_KILL_GRACE_MS);
    var waiting := Exec(Exec(killing, Tick(BUILD_KILL_GRACE_MS)), KillFires);
    assert waiting.hardSettleTimer == Some(start + DEADLINE_MS) && waiting.now == start + BUILD_TIMEOUT_MS + BUILD_KILL_GRACE_MS;
  }

  // ---------------------------------------------------------------- the callbacks

  /** The locals of one runBuild call, which its callbacks update. */
  class BuildProcess {
    var now: nat
    var settled: bool
    var forcedError: Option<Failure>
    var timeout: Option<nat>
    var killTimer: Option<nat>
    var hardSettleTimer: Option<nat>
    var recording: bool
    var status: Status
    var finishedAt: Option<nat>
    var seen: set<Once>
    ghost var settlement: Option<Settlement>
    ghost var registry: Option<bool>
    ghost var finishes: nat

    ghost function Abstract(): State
      reads this
    {
      State(now, settled, forcedError, timeout, killTimer, hardSettleTimer, recording, status, finishedAt,
            settlement, registry, finishes, seen)
    }

    constructor (start: nat)
      ensures Abstract() == Spawned(start)
    {
      now, settled, forcedError := start, false, None;
      timeout, killTimer, hardSettleTimer := Some(start + BUILD_TIMEOUT_MS), None, None;
      recording, status, finishedAt, seen := false, InProgress, None, {};
      settlement, registry, finishes := None, None, 0;
    }

    /** The first part of finish: nobody else settles, and no timer fires any more. */
    method Settle(code: Option<int>, error: Option<Failure>)
      modifies this`settled, this`timeout, this`killTimer, this`hardSettleTimer, this`settlement, this`finishes
      ensures Abstract() == old(Abstract()).(
                settled := true, timeout := None, killTimer := None, hardSettleTimer := None,
                finishes := old(finishes) + 1, settlement := Some(Settlement(code, error, forcedError, now)))
    {
      settlement := Some(Settlement(code, error, forcedError, now));
      finishes := finishes + 1;
      settled := true;
      timeout, killTimer, hardSettleTimer := None, None, None;
    }

    /** The last part of finish: the status is final. */
    method Conclude(status: Status)
      modifies this`status, this`recording, this`finishedAt
      ensures Abstract() == Complete(old(Abstract()), status)
    {
      this.status := status;
      recording := false;
      finishedAt := Some(now);
    }

    /** finish: the first caller settles; success waits for the registry before it is final. */
    method FinishBuild(code: Option<int>, error: Option<Failure>)
      modifies this
      ensures Abstract() == Finish(old(Abstract()), code, error)
      ensures settled && (old(settled) ==> Abstract() == old(Abstract()))
      ensures !old(settled) ==> timeout == None && killTimer == None && hardSettleTimer == None && finishes == old(finishes) + 1
    {
      if settled {
        return;
      }
      Settle(code, error);
      var failure := if error.Some? then error else forcedError;
      if failure.Some? {
        Conclude(Failed(failure.value));
      } else if code == Some(0) {
        status := Success;
        recording := true;
      } else {
        Conclude(Failed(Exited(code)));
      }
    }

    method OnClose(code: Option<int>)
      modifies this
      ensures Abstract() == Exec(old(Abstract()), ChildCloses(code))
    {
      if Close !in seen {
        seen := seen + {Close};
        FinishBuild(code, None);
      }
    }

    method OnChildError()
      modifies this
      ensures Abstract() == Exec(old(Abstract()), ChildErrors)
    {
      if ChildError !in seen {
        seen := seen + {ChildError};
        FinishBuild(None, Some(ChildFailed));
      }
    }

    method OnLogError()
      modifies this
      ensures Abstract() == Exec(old(Abstract()), LogErrors)
    {
      if LogError !in seen {
        seen := seen + {LogError};
        forcedError := Some(LogUnavailable);
        FinishBuild(None, forcedError);
      }
    }

    method OnTimeout()
      requires Due(Abstract(), timeout)
      modifies this
      ensures Abstract() == Exec(old(Abstract()), TimeoutFires)
    {
      timeout := None;
      forcedError := Some(TimedOut);
      killTimer := Some(now + BUILD_KILL_GRACE_MS);
    }

    method OnKillTimer()
      requires Due(Abstract(), killTimer)
      modifies this
      ensures Abstract() == Exec(old(Abstract()), KillFires)
    {
      killTimer := None;
      hardSettleTimer := Some(now + BUILD_HARD_SETTLE_MS);
    }

    method OnHardSettle()
      requires Due(Abstract(), hardSettleTimer)
      modifies this
      ensures Abstract() == Exec(old(Abstract()), HardSettleFires)
    {
      hardSettleTimer := None;
      FinishBuild(None, forcedError);
    }

    /** The continuation of finish after recordImageBuilt. */
    method OnRegistryDone(ok: bool)
      requires recording
      modifies this
      ensures Abstract() == Exec(old(Abstract()), RegistryDone(ok))
    {
      registry := Some(ok);
      Conclude(if ok then Success else Failed(RegistryFailed));
    }
  }
}
