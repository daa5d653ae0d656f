/**
 startPolling: repeats an asynchronous task without overlap until it is stopped. Every callback of the
 controller is one step; the promise's catch and finally callbacks are separate ones.
 */
module Polling {
  import opened Text

  /** The promise in `inFlight`: none, the task still running, or settled with finally to come. */
  datatype Flight = Idle | Running | Settling

  /**
   `timer` is the handle of the last timer set, `armed` the timers that will still fire; they differ
   because the handle is overwritten without clearing the timer behind it.
   */
  datatype State = State(
    stopped: bool,
    flight: Flight,
    timer: Option<nat>,
    armed: set<nat>,
    nextTimer: nat,
    hidden: bool,
    starts: nat,
    settles: nat,
    errors: nat)

  datatype Event =
    | TimerFires(id: nat)
    | Trigger
    | VisibilityChange(hidden: bool)
    | TaskSettles(ok: bool)
    | Finally
    | Stop

  function Schedule(s: State): State {
    if s.stopped then s
    else s.(timer := Some(s.nextTimer), armed := s.armed + {s.nextTimer}, nextTimer := s.nextTimer + 1)
  }

  function RunTask(s: State): State {
    if s.stopped then s
    else if s.hidden then Schedule(s)
    else if !s.flight.Idle? then s
    else s.(flight := Running, starts := s.starts + 1)
  }

  function ClearTimer(s: State): State {
    s.(armed := if s.timer.Some? then s.armed - {s.timer.value} else s.armed, timer := None)
  }

  /** `startPolling` itself, in a document that is hidden or not. */
  function Started(immediate: bool, hidden: bool): State {
    var s := State(false, Idle, None, {}, 0, hidden, 0, 0, 0);
    if immediate then RunTask(s) else Schedule(s)
  }

  /** One callback; one that cannot happen changes nothing. */
  function Exec(s: State, e: Event): State {
    match e
    case TimerFires(id) => if id in s.armed then RunTask(s.(armed := s.armed - {id})) else s
    case Trigger => RunTask(s)
    case VisibilityChange(hidden) =>
      var s1 := s.(hidden := hidden);
      if !hidden && !s.stopped && s.flight.Idle? then RunTask(ClearTimer(s1)) else s1
    case TaskSettles(ok) =>
      if !s.flight.Running? then s
      else s.(flight := Settling, settles := s.settles + 1, errors := if !ok && !s.stopped then s.errors + 1 else s.errors)
    case Finally =>
      if !s.flight.Settling? then s else Schedule(s.(flight := Idle))
    case Stop => ClearTimer(s.(stopped := true))
  }

  function Run(s: State, events: seq<Event>): State {
    if events == [] then s else Exec(Run(s, events[..|events| - 1]), events[|events| - 1])
  }

  // ---------------------------------------------------------------- the invariant

  /** One task at a time, and until it is stopped the poller has something to wake it. */
  predicate Inv(s: State) {
    && s.starts == s.settles + (if s.flight.Running? then 1 else 0)
    && (!s.stopped ==> !s.flight.Idle? || s.armed != {})
    && (forall id :: id in s.armed ==> id < s.nextTimer)
  }

  lemma ScheduleArms(s: State)
    requires !s.stopped
    ensures s.nextTimer in Schedule(s).armed
  {
  }

  lemma StepKeepsInv(s: State, e: Event)
    requires Inv(s)
    ensures Inv(Exec(s, e))
  {
    if !s.stopped {
      ScheduleArms(s);
      ScheduleArms(s.(flight := Idle));
      ScheduleArms(ClearTimer(s));
      match e
      case TimerFires(id) => ScheduleArms(s.(armed := s.armed - {id}));
      case _ =>
    }
  }

  lemma {:induction false} RunKeepsInv(immediate: bool, hidden: bool, events: seq<Event>)
    ensures Inv(Run(Started(immediate, hidden), events))
  {
    if events == [] {
      ScheduleArms(State(false, Idle, None, {}, 0, hidden, 0, 0, 0));
    } else {
      RunKeepsInv(immediate, hidden, events[..|events| - 1]);
      StepKeepsInv(Run(Started(immediate, hidden), events[..|events| - 1]), events[|events| - 1]);
    }
  }

  // ---------------------------------------------------------------- what follows for every run

  /** Invocations never overlap: at most one started task has not settled. */
  lemma NoOverlap(immediate: bool, hidden: bool, events: seq<Event>)
    ensures var s := Run(Started(immediate, hidden), events); s.settles <= s.starts <= s.settles + 1
  {
    RunKeepsInv(immediate, hidden, events);
  }

  /**
   Polling never dies: in every reachable state of a poller that is not stopped there is a task or its
   finally callback to come, or a timer; and when that timer fires on a visible page the task starts.
   */
  lemma NeverDies(immediate: bool, hidden: bool, events: seq<Event>) returns (next: Event)
    requires !Run(Started(immediate, hidden), events).stopped
    ensures var s := Run(Started(immediate, hidden), events);
      match s.flight
      case Running => next == TaskSettles(true) && Exec(s, next).flight.Settling?
      case Settling => next == Finally && Exec(s, next).flight.Idle? && Exec(s, next).armed != {}
      case Idle => next.TimerFires? && next.id in s.armed && (!s.hidden ==> Exec(s, next).starts == s.starts + 1)
  {
    var s := Run(Started(immediate, hidden), events);
    RunKeepsInv(immediate, hidden, events);
    match s.flight
    case Running => next := TaskSettles(true);
    case Settling =>
      next := Finally;
      ScheduleArms(s.(flight := Idle));
    case Idle =>
      var id :| id in s.armed;
      next := TimerFires(id);
  }

  /** After stop no task starts, no timer is set and onError is not called, whatever still fires. */
  lemma {:induction false} StopIsFinal(s: State, events: seq<Event>)
    requires s.stopped
    ensures var t := Run(s, events);
      t.stopped && t.starts == s.starts && t.errors == s.errors && t.armed <= s.armed
  {
    if events == [] {
    } else {
      StopIsFinal(s, events[..|events| - 1]);
    }
  }

  /** A page that comes back runs the task at once unless one is in flight. */
  lemma ComingBackRuns(s: State)
    requires !s.stopped && s.flight.Idle?
    ensures Exec(s, VisibilityChange(false)).starts == s.starts + 1
  {
  }

  // ---- exactly when a task starts, and when an error is reported

  /** Polling starts with a task if it is to run at once and the page is visible, and with a timer otherwise. */
  lemma StartRunsOrWaits(immediate: bool, hidden: bool)
    ensures var s := Started(immediate, hidden);
      if immediate && !hidden then s.starts == 1 && s.flight.Running? && s.armed == {}
      else s.starts == 0 && s.flight.Idle? && |s.armed| == 1 && s.timer.Some? && s.timer.value in s.armed
  {
    OneTimerSet(State(false, Idle, None, {}, 0, hidden, 0, 0, 0));
  }

  lemma OneTimerSet(s: State)
    requires !s.stopped && s.armed == {}
    ensures Schedule(s).armed == {s.nextTimer}
  {
  }

  /** What wakes the poller: a timer that fires, trigger, or the page coming back. */
  predicate Wakes(s: State, e: Event) {
    match e
    case TimerFires(id) => id in s.armed && !s.hidden
    case Trigger => !s.hidden
    case VisibilityChange(hidden) => !hidden
    case _ => false
  }

  /** A task starts exactly when something wakes a poller that is idle and not stopped, on a visible page. */
  lemma StartsExactlyWhen(s: State, e: Event)
    ensures var t := Exec(s, e);
      if !s.stopped && s.flight.Idle? && Wakes(s, e) then t.starts == s.starts + 1 && t.flight.Running? else t.starts == s.starts
  {
  }

  /** onError is called once for a rejection that comes before stop, and for nothing else. */
  lemma ErrorsExactlyWhen(s: State, e: Event)
    ensures Exec(s, e).errors == s.errors + if e == TaskSettles(false) && s.flight.Running? && !s.stopped then 1 else 0
  {
  }

  /** When a task and its finally callback are over, exactly one timer is set, resolved or rejected; after stop none is. */
  lemma SettlingSetsTimer(s: State, ok: bool)
    requires s.flight.Running?
    ensures var t := Exec(Exec(s, TaskSettles(ok)), Finally);
      && t.flight.Idle? && t.settles == s.settles + 1
      && t.armed == (if s.stopped then s.armed else s.armed + {s.nextTimer})
      && (!s.stopped ==> t.timer == Some(s.nextTimer))
  {
  }

  /** stop takes the pending timer away. */
  lemma StopClears(s: State)
    ensures var t := Exec(s, Stop);
      t.stopped && t.timer == None && t.armed == if s.timer.Some? then s.armed - {s.timer.value} else s.armed
  {
  }

  // ---------------------------------------------------------------- one pending timer

  /** The only timer that will fire is the one the handle names, and there is none while a task is in flight. */
  predicate Tidy(s: State) {
    && s.armed <= (if s.timer.Some? then {s.timer.value} else {})
    && (!s.flight.Idle? ==> s.armed == {})
  }

  /** The calls of trigger that arm nothing: after stop, or joining the task in flight on a visible page. */
  predicate Harmless(s: State, e: Event) {
    e.Trigger? ==> s.stopped || (!s.hidden && !s.flight.Idle?)
  }

  predicate AllHarmless(s: State, events: seq<Event>) {
    events == [] || (AllHarmless(s, events[..|events| - 1]) && Harmless(Run(s, events[..|events| - 1]), events[|events| - 1]))
  }

  lemma StepKeepsTidy(s: State, e: Event)
    requires Tidy(s) && Harmless(s, e)
    ensures Tidy(Exec(s, e))
  {
  }

  lemma TidyMeans(s: State)
    requires Tidy(s)
    ensures |s.armed| <= 1
  {
    if s.timer.Some? { SubsetOfOne(s.armed, s.timer.value); }
  }

  lemma SubsetOfOne(a: set<nat>, x: nat)
    requires a <= {x}
    ensures |a| <= 1
  {
    if x in a { assert a == {x}; } else { assert a == {}; }
  }

  /** At most one timer is pending in every run whose triggers are harmless, and so in every run without one. */
  lemma {:induction false} OneTimerWhileHarmless(immediate: bool, hidden: bool, events: seq<Event>)
    requires AllHarmless(Started(immediate, hidden), events)
    ensures var s := Run(Started(immediate, hidden), events); Tidy(s) && |s.armed| <= 1
  {
    if events == [] {
    } else {
      OneTimerWhileHarmless(immediate, hidden, events[..|events| - 1]);
      StepKeepsTidy(Run(Started(immediate, hidden), events[..|events| - 1]), events[|events| - 1]);
    }
    TidyMeans(Run(Started(immediate, hidden), events));
  }

  lemma {:induction false} OneTimerWithoutTrigger(immediate: bool, hidden: bool, events: seq<Event>)
    requires forall k :: 0 <= k < |events| ==> events[k] != Trigger
    ensures |Run(Started(immediate, hidden), events).armed| <= 1
  {
    NoTriggerIsHarmless(Started(immediate, hidden), events);
    OneTimerWhileHarmless(immediate, hidden, events);
  }

  lemma {:induction false} NoTriggerIsHarmless(s: State, events: seq<Event>)
    requires forall k :: 0 <= k < |events| ==> events[k] != Trigger
    ensures AllHarmless(s, events)
  {
    if events == [] {
    } else {
      NoTriggerIsHarmless(s, events[..|events| - 1]);
    }
  }

  /**
   Any other trigger breaks this: once the task it started or joined has settled, two timers are
   pending. It leaves the one that is armed, or arms one beside the task in flight on a hidden page.
   */
  lemma TriggerLeavesTimerIff(s: State)
    requires Inv(s) && Tidy(s)
    ensures var t := Exec(Exec(Exec(s, Trigger), TaskSettles(true)), Finally);
      |t.armed| == 2 <==> !Harmless(s, Trigger)
  {
    var t := Exec(Exec(Exec(s, Trigger), TaskSettles(true)), Finally);
    if Harmless(s, Trigger) {
      StepKeepsTidy(s, Trigger);
      StepKeepsTidy(Exec(s, Trigger), TaskSettles(true));
      StepKeepsTidy(Exec(Exec(s, Trigger), TaskSettles(true)), Finally);
      TidyMeans(t);
    } else if s.flight.Idle? {
      assert s.armed == {s.timer.value};
      assert t.armed == {s.timer.value, s.nextTimer};
    } else {
      assert t.armed == {s.nextTimer, s.nextTimer + 1};
    }
  }

  /** For instance straight after the start. */
  lemma TriggerLeavesTimer()
    ensures var s0 := Started(false, false);
      var s := Exec(Exec(Exec(s0, Trigger), TaskSettles(true)), Finally);
      0 in s.armed && 1 in s.armed && s.timer == Some(1)
  {
  }

  // ---------------------------------------------------------------- the controller

  class PollController {
    var stopped: bool
    var flight: Flight
    var timer: Option<nat>
    var armed: set<nat>
    var nextTimer: nat
    var hidden: bool
    ghost var starts: nat
    ghost var settles: nat
    ghost var errors: nat

    ghost function Abstract(): State
      reads this
    {
      State(stopped, flight, timer, armed, nextTimer, hidden, starts, settles, errors)
    }

    constructor (immediate: bool, hidden: bool)
      ensures Abstract() == Started(immediate, hidden)
    {
      stopped, flight, timer, armed, nextTimer := false, Idle, None, {}, 0;
      this.hidden := hidden;
      starts, settles, errors := 0, 0, 0;
      new;
      if immediate {
        RunOnce();
      } else {
        SetTimer();
      }
    }

    /** schedule */
    method SetTimer()
      modifies this
      ensures Abstract() == Schedule(old(Abstract()))
    {
      if stopped {
        return;
      }
      timer := Some(nextTimer);
      armed := armed + {nextTimer};
      nextTimer := nextTimer + 1;
    }

    /** run, which is also trigger */
    method RunOnce()
      modifies this
      ensures Abstract() == RunTask(old(Abstract()))
      ensures starts == old(starts) + (if !stopped && !hidden && old(flight) == Idle then 1 else 0)
      ensures stopped || hidden || flight != Idle
      ensures armed == old(armed) + if !stopped && hidden then {old(nextTimer)} else {}
    {
      if stopped {
        return;
      }
      if hidden {
        SetTimer();
        return;
      }
      if flight != Idle {
        return;
      }
      flight := Running;
      starts := starts + 1;
    }

    method DropTimer()
      modifies this
      ensures Abstract() == ClearTimer(old(Abstract()))
    {
      if timer.Some? {
        armed := armed - {timer.value};
      }
      timer := None;
    }

    method OnTimer(id: nat)
      requires id in armed
      modifies this
      ensures Abstract() == Exec(old(Abstract()), TimerFires(id))
    {
      armed := armed - {id};
      RunOnce();
    }

    method OnVisibilityChange(nowHidden: bool)
      modifies this
      ensures Abstract() == Exec(old(Abstract()), VisibilityChange(nowHidden))
    {
      hidden := nowHidden;
      if !hidden && !stopped && flight == Idle {
        DropTimer();
        RunOnce();
      }
    }

    /** The task's promise settles; a rejection is reported only while the poller is active. */
    method OnSettled(ok: bool)
      requires flight == Running
      modifies this
      ensures Abstract() == Exec(old(Abstract()), TaskSettles(ok))
    {
      flight := Settling;
      settles := settles + 1;
      if !ok && !stopped {
        errors := errors + 1;
      }
    }

    method OnFinally()
      requires flight == Settling
      modifies this
      ensures Abstract() == Exec(old(Abstract()), Finally)
    {
      flight := Idle;
      SetTimer();
    }

    method StopPolling()
      modifies this
      ensures Abstract() == Exec(old(Abstract()), Stop)
    {
      stopped := true;
      DropTimer();
    }
  }
}
