/**
 enqueue: image builds run two at a time, the rest wait in a queue. Task k is the k-th one handed to
 enqueue.
 */
module BuildScheduler {

  const MAX_CONCURRENT_BUILDS: nat := 2

  type Task = nat

  /** A task is handed in, or a running one settles, whether it was fulfilled or rejected. */
  datatype Event = Enqueue | Settle(task: Task)

  datatype State = State(active: nat, queue: seq<Task>, enqueued: nat, started: seq<Task>, finished: set<Task>)

  const INITIAL: State := State(0, [], 0, [], {})

  predicate Running(s: State, t: Task) { t in s.started && t !in s.finished }

  function Begin(s: State, t: Task): State { s.(active := s.active + 1, started := s.started + [t]) }

  /** One event; a task that is not running cannot settle. */
  function Exec(s: State, e: Event): State {
    match e
    case Enqueue =>
      var t, s1 := s.enqueued, s.(enqueued := s.enqueued + 1);
      if s.active < MAX_CONCURRENT_BUILDS then Begin(s1, t) else s1.(queue := s.queue + [t])
    case Settle(t) =>
      if !Running(s, t) || s.active == 0 then s else
      var s1 := s.(active := s.active - 1, finished := s.finished + {t});
      if s1.queue == [] then s1 else Begin(s1.(queue := s1.queue[1..]), s1.queue[0])
  }

  function Run(s: State, events: seq<Event>): State {
    if events == [] then s else Exec(Run(s, events[..|events| - 1]), events[|events| - 1])
  }

  function UpTo(n: nat): (r: seq<Task>)
    ensures |r| == n && forall i :: 0 <= i < n ==> r[i] == i
  {
    seq(n, i => i)
  }

  /**
   At most two builds run; nothing waits while a slot is free; the started tasks followed by the
   queued ones are all tasks in the order they came, so no task overtakes another, starts twice or is
   lost; every start is either finished or holds a slot.
   */
  predicate Valid(s: State) {
    && s.active <= MAX_CONCURRENT_BUILDS
    && (s.queue != [] ==> s.active == MAX_CONCURRENT_BUILDS)
    && s.started + s.queue == UpTo(s.enqueued)
    && |s.started| == |s.finished| + s.active
    && (forall t :: t in s.finished ==> t in s.started)
  }

  lemma EnqueueKeepsValid(s: State)
    requires Valid(s)
    ensures Valid(Exec(s, Enqueue))
  {
    var t := Exec(s, Enqueue);
    assert t.started + t.queue == s.started + s.queue + [s.enqueued];
    assert UpTo(s.enqueued + 1) == UpTo(s.enqueued) + [s.enqueued];
  }

  lemma {:induction false} RunIsValid(events: seq<Event>)
    ensures Valid(Run(INITIAL, events))
  {
    if events == [] {
    } else {
      RunIsValid(events[..|events| - 1]);
      match events[|events| - 1]
      case Enqueue => EnqueueKeepsValid(Run(INITIAL, events[..|events| - 1]));
      case Settle(t) =>
    }
  }

  /** Tasks start in the order they were handed in, each at most once. */
  lemma StartsInOrder(events: seq<Event>, i: nat)
    requires i < |Run(INITIAL, events).started|
    ensures Run(INITIAL, events).started[i] == i
  {
    RunIsValid(events);
    var s := Run(INITIAL, events);
    assert s.started[i] == (s.started + s.queue)[i];
  }

  /** While a task waits, two others are running, and either one settling starts the head of the queue. */
  lemma SettlingStartsTheHead(events: seq<Event>, t: Task)
    requires var s := Run(INITIAL, events); s.queue != [] && Running(s, t)
    ensures var s := Run(INITIAL, events);
      Exec(s, Settle(t)).started == s.started + [s.queue[0]] && Exec(s, Settle(t)).active == MAX_CONCURRENT_BUILDS
  {
    RunIsValid(events);
  }

  class BuildQueue {
    var activeBuilds: nat
    var queue: seq<Task>
    ghost var enqueued: nat
    ghost var started: seq<Task>
    ghost var finished: set<Task>

    ghost function Abstract(): State
      reads this
    {
      State(activeBuilds, queue, enqueued, started, finished)
    }

    constructor ()
      ensures Abstract() == INITIAL
    {
      activeBuilds, queue := 0, [];
      enqueued, started, finished := 0, [], {};
    }

    method Start(task: Task)
      modifies this`activeBuilds, this`started
      ensures Abstract() == Begin(old(Abstract()), task)
    {
      activeBuilds := activeBuilds + 1;
      started := started + [task];
    }

    method EnqueueTask(task: Task)
      requires task == enqueued
      modifies this
      ensures Abstract() == Exec(old(Abstract()), Enqueue)
    {
      enqueued := enqueued + 1;
      if activeBuilds < MAX_CONCURRENT_BUILDS {
        Start(task);
      } else {
        queue := queue + [task];
      }
    }

    /** The finally callback of a running task. */
    method OnSettled(task: Task)
      requires Valid(Abstract()) && Running(Abstract(), task)
      modifies this
      ensures Abstract() == Exec(old(Abstract()), Settle(task))
    {
      RunningHoldsSlot(Abstract(), task);
      activeBuilds := activeBuilds - 1;
      finished := finished + {task};
      if queue != [] {
        var head := queue[0];
        queue := queue[1..];
        Start(head);
      }
    }
  }

  function Elements(ts: seq<Task>): set<Task> { set t | t in ts }

  /** A running task occupies a slot. */
  lemma RunningHoldsSlot(s: State, t: Task)
    requires Valid(s) && Running(s, t)
    ensures s.active > 0
  {
    var all := Elements(s.started);
    ElementsCount(s.started);
    SubsetSize(s.finished, all - {t});
    assert |all - {t}| == |all| - 1;
  }

  lemma {:induction false} ElementsCount(ts: seq<Task>)
    ensures |Elements(ts)| <= |ts|
  {
    if ts == [] {
    } else {
      ElementsCount(ts[1..]);
      assert Elements(ts) == {ts[0]} + Elements(ts[1..]);
    }
  }

  lemma {:induction false} SubsetSize(a: set<Task>, b: set<Task>)
    requires a <= b
    ensures |a| <= |b|
  {
    if a == {} {
    } else {
      var x :| x in a;
      assert x in b;
      SubsetSize(a - {x}, b - {x});
      assert |a - {x}| == |a| - 1 && |b - {x}| == |b| - 1;
    }
  }
}
