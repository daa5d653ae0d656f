/**
 JsonArrayStore: read-modify-write cycles on one file, chained on a single promise. Modelled as the
 steps the event loop can interleave; reads outside the chain may happen between any two of them.
 */
module JsonStore {
  import opened Text

  /** The registry file: absent, a valid array, or something that does not parse or validate. */
  datatype Disk<T> = Missing | Records(items: seq<T>) | Corrupt

  /** What read() returns, or nothing when it throws. */
  function Contents<T>(d: Disk<T>): Option<seq<T>> {
    match d
    case Missing => Some([])
    case Records(items) => Some(items)
    case Corrupt => None
  }

  /** A mutator edits the items it is given and returns a result for the caller, or throws. */
  type Mutator<!T, R> = seq<T> -> Option<(seq<T>, R)>

  /** How far an update() call is: chained, reading, mutating, writing, renamed, or settled. */
  datatype Phase<T, R> =
    | Waiting
    | Reading
    | Loaded(items: seq<T>)
    | Mutated(items: seq<T>, result: R)
    | Renamed(result: R)
    | Settled(outcome: Option<R>)

  /** `waitsFor` is the call whose settlement this one is chained to. */
  datatype Call<!T, R> = Call(mutate: Mutator<T, R>, waitsFor: Option<nat>, phase: Phase<T, R>)

  /** `mutation` is the promise the next call will chain on: the last call made. */
  datatype State<!T, R> = State(disk: Disk<T>, calls: seq<Call<T, R>>, mutation: Option<nat>)

  datatype Step<!T, R> =
    | Update(mutate: Mutator<T, R>)
    | Begin(i: nat)
    | Read(i: nat)
    | ReadFails(i: nat)
    | Mutate(i: nat)
    | WriteFails(i: nat)
    | Rename(i: nat)
    | Finish(i: nat)

  function Initial<T, R>(disk: Disk<T>): State<T, R> { State(disk, [], None) }

  predicate IsSettled<T, R>(s: State<T, R>, i: nat) { i < |s.calls| && s.calls[i].phase.Settled? }

  /** The chained callback may run: the call before it has settled, either way. */
  predicate MayBegin<T, R>(s: State<T, R>, i: nat) {
    i < |s.calls| && s.calls[i].phase.Waiting? && (s.calls[i].waitsFor.None? || IsSettled(s, s.calls[i].waitsFor.value))
  }

  function Goto<T, R>(s: State<T, R>, i: nat, phase: Phase<T, R>): State<T, R>
    requires i < |s.calls|
  {
    s.(calls := s.calls[i := s.calls[i].(phase := phase)])
  }

  /** One step; a step that is not enabled changes nothing. */
  function Exec<T, R>(s: State<T, R>, step: Step<T, R>): State<T, R> {
    match step
    case Update(mutate) =>
      State(s.disk, s.calls + [Call(mutate, s.mutation, Waiting)], Some(|s.calls|))
    case Begin(i) =>
      if MayBegin(s, i) then Goto(s, i, Reading) else s
    case Read(i) =>
      if i < |s.calls| && s.calls[i].phase.Reading? then
        match Contents(s.disk)
        case Some(items) => Goto(s, i, Loaded(items))
        case None => Goto(s, i, Settled(None))
      else s
    case ReadFails(i) =>
      if i < |s.calls| && s.calls[i].phase.Reading? then Goto(s, i, Settled(None)) else s
    case Mutate(i) =>
      if i < |s.calls| && s.calls[i].phase.Loaded? then
        match s.calls[i].mutate(s.calls[i].phase.items)
        case Some((items, result)) => Goto(s, i, Mutated(items, result))
        case None => Goto(s, i, Settled(None))
      else s
    case WriteFails(i) =>
      if i < |s.calls| && s.calls[i].phase.Mutated? then Goto(s, i, Settled(None)) else s
    case Rename(i) =>
      if i < |s.calls| && s.calls[i].phase.Mutated?
      then Goto(s.(disk := Records(s.calls[i].phase.items)), i, Renamed(s.calls[i].phase.result))
      else s
    case Finish(i) =>
      if i < |s.calls| && s.calls[i].phase.Renamed? then Goto(s, i, Settled(Some(s.calls[i].phase.result))) else s
  }

  function Run<T, R>(s: State<T, R>, steps: seq<Step<T, R>>): State<T, R> {
    if steps == [] then s else Exec(Run(s, steps[..|steps| - 1]), steps[|steps| - 1])
  }

  // ---------------------------------------------------------------- the sequential specification

  /** The call has replaced the file. */
  predicate Committed<T, R>(c: Call<T, R>) { c.phase.Renamed? || (c.phase.Settled? && c.phase.outcome.Some?) }

  /** One call executed alone, if it went through. */
  function Effect<T, R>(d: Disk<T>, c: Call<T, R>): Disk<T> {
    if !Committed(c) || Contents(d).None? then d
    else match c.mutate(Contents(d).value) case Some((items, _)) => Records(items) case None => d
  }

  /** The successful mutators applied one after the other in call order. */
  function Sequential<T, R>(d: Disk<T>, calls: seq<Call<T, R>>): Disk<T> {
    if calls == [] then d else Effect(Sequential(d, calls[..|calls| - 1]), calls[|calls| - 1])
  }

  // ---------------------------------------------------------------- the invariant

  /** Calls run one at a time in order: whatever precedes a call that has begun has settled. */
  predicate InOrder<T, R>(s: State<T, R>) {
    && s.mutation == (if s.calls == [] then None else Some(|s.calls| - 1))
    && (forall i :: 0 <= i < |s.calls| ==> s.calls[i].waitsFor == if i == 0 then None else Some(i - 1))
    && (forall i, j :: 0 <= i < j < |s.calls| ==> Ordered(s, i, j))
  }

  predicate Ordered<T, R>(s: State<T, R>, i: nat, j: nat)
    requires i < |s.calls| && j < |s.calls|
  {
    s.calls[j].phase.Waiting? || s.calls[i].phase.Settled?
  }

  /** What a call has read and computed is up to date. */
  ghost predicate Fresh<T, R>(s: State<T, R>, i: nat)
    requires i < |s.calls|
  {
    var c := s.calls[i];
    && (c.phase.Loaded? ==> Contents(s.disk) == Some(c.phase.items))
    && (c.phase.Mutated? ==> Contents(s.disk).Some? && c.mutate(Contents(s.disk).value) == Some((c.phase.items, c.phase.result)))
  }

  function ResultOf<T, R>(c: Call<T, R>): R
    requires Committed(c)
  {
    if c.phase.Renamed? then c.phase.result else c.phase.outcome.value
  }

  /** The result of a call that went through is what its mutator returns on the fold of those before it. */
  ghost predicate Explained<T, R>(d: Disk<T>, calls: seq<Call<T, R>>, i: nat)
    requires i < |calls|
  {
    Committed(calls[i]) ==>
      var before := Contents(Sequential(d, calls[..i]));
      && before.Some? && calls[i].mutate(before.value).Some?
      && calls[i].mutate(before.value).value.1 == ResultOf(calls[i])
  }

  ghost predicate Inv<T, R>(d: Disk<T>, s: State<T, R>) {
    && InOrder(s)
    && s.disk == Sequential(d, s.calls)
    && (forall i :: 0 <= i < |s.calls| ==> Fresh(s, i))
    && (forall i :: 0 <= i < |s.calls| ==> Explained(d, s.calls, i))
  }

  /** Calls that have not committed leave the sequential result alone. */
  lemma {:induction false} IdleTail<T, R>(d: Disk<T>, calls: seq<Call<T, R>>, k: nat)
    requires k <= |calls| && forall i :: k <= i < |calls| ==> !Committed(calls[i])
    ensures Sequential(d, calls) == Sequential(d, calls[..k])
  {
    if |calls| == k {
      assert calls[..k] == calls;
    } else {
      var n := |calls| - 1;
      IdleTail(d, calls[..n], k);
      assert calls[..n][..k] == calls[..k];
    }
  }

  /** Replacing one call by one that is committed or not just as before changes nothing. */
  lemma {:induction false} SameCommits<T, R>(d: Disk<T>, a: seq<Call<T, R>>, b: seq<Call<T, R>>)
    requires |a| == |b|
    requires forall i :: 0 <= i < |a| ==> a[i].mutate == b[i].mutate && (Committed(a[i]) <==> Committed(b[i]))
    ensures Sequential(d, a) == Sequential(d, b)
  {
    if a == [] {
    } else {
      SameCommits(d, a[..|a| - 1], b[..|b| - 1]);
    }
  }

  lemma SequentialAt<T, R>(d: Disk<T>, calls: seq<Call<T, R>>, i: nat)
    requires i < |calls|
    ensures Sequential(d, calls[..i + 1]) == Effect(Sequential(d, calls[..i]), calls[i])
  {
    assert calls[..i + 1][..i] == calls[..i];
  }

  /** The rename step appends one committed mutator to the sequential history. */
  lemma RenameCommits<T, R>(d: Disk<T>, s: State<T, R>, i: nat)
    requires Inv(d, s) && i < |s.calls| && s.calls[i].phase.Mutated?
    ensures var t := Exec(s, Rename(i)); t.disk == Sequential(d, t.calls)
  {
    var t := Exec(s, Rename(i));
    OrderAround(s, i);
    assert Fresh(s, i);
    IdleTail(d, s.calls, i);
    IdleTail(d, t.calls, i + 1);
    assert t.calls[..i] == s.calls[..i];
    SequentialAt(d, t.calls, i);
    assert Effect(s.disk, t.calls[i]) == t.disk;
  }

  /** Around an unsettled call that has begun, everything earlier has settled and everything later waits. */
  lemma OrderAround<T, R>(s: State<T, R>, i: nat)
    requires InOrder(s) && i < |s.calls|
    ensures !s.calls[i].phase.Waiting? ==> forall j :: 0 <= j < i ==> s.calls[j].phase.Settled?
    ensures !s.calls[i].phase.Settled? ==> forall j :: i < j < |s.calls| ==> s.calls[j].phase.Waiting?
  {
    forall j | 0 <= j < i ensures s.calls[i].phase.Waiting? || s.calls[j].phase.Settled? {
      assert Ordered(s, j, i);
    }
    forall j | i < j < |s.calls| ensures s.calls[j].phase.Waiting? || s.calls[i].phase.Settled? {
      assert Ordered(s, i, j);
    }
  }

  lemma StepKeepsOrdered<T, R>(s: State<T, R>, step: Step<T, R>, i: nat, j: nat)
    requires InOrder(s) && i < j < |Exec(s, step).calls|
    ensures Ordered(Exec(s, step), i, j)
  {
    if j < |s.calls| {
      assert Ordered(s, i, j);
      if i < j - 1 {
        assert Ordered(s, i, j - 1);
      }
    }
  }

  lemma StepKeepsOrder<T, R>(s: State<T, R>, step: Step<T, R>)
    requires InOrder(s)
    ensures InOrder(Exec(s, step))
  {
    forall i, j | 0 <= i < j < |Exec(s, step).calls| {
      StepKeepsOrdered(s, step, i, j);
    }
  }

  lemma IdleCall<T, R>(d: Disk<T>, calls: seq<Call<T, R>>, c: Call<T, R>)
    requires !Committed(c)
    ensures Sequential(d, calls + [c]) == Sequential(d, calls)
  {
    assert (calls + [c])[..|calls|] == calls;
  }

  /** A new call leaves the fold alone: it has not gone through. */
  lemma UpdateKeepsDisk<T, R>(d: Disk<T>, s: State<T, R>, step: Step<T, R>)
    requires s.disk == Sequential(d, s.calls) && step.Update?
    ensures var t := Exec(s, step); t.disk == Sequential(d, t.calls) && t.disk == s.disk
  {
    IdleCall(d, s.calls, Call(step.mutate, s.mutation, Waiting));
  }

  lemma CommitsStay<T, R>(s: State<T, R>, step: Step<T, R>)
    requires !step.Rename? && !step.Update?
    ensures var t := Exec(s, step);
      && t.disk == s.disk && |t.calls| == |s.calls|
      && forall i :: 0 <= i < |s.calls| ==> s.calls[i].mutate == t.calls[i].mutate && (Committed(s.calls[i]) <==> Committed(t.calls[i]))
  {
  }

  /** A step that does not rename leaves the disk and the committed calls alone. */
  lemma StepKeepsDisk<T, R>(d: Disk<T>, s: State<T, R>, step: Step<T, R>)
    requires s.disk == Sequential(d, s.calls) && !step.Rename?
    ensures var t := Exec(s, step); t.disk == Sequential(d, t.calls) && t.disk == s.disk
  {
    if step.Update? {
      UpdateKeepsDisk(d, s, step);
    } else {
      CommitsStay(s, step);
      SameCommits(d, s.calls, Exec(s, step).calls);
    }
  }

  lemma StepKeepsFresh<T, R>(s: State<T, R>, step: Step<T, R>, i: nat)
    requires InOrder(s) && forall j :: 0 <= j < |s.calls| ==> Fresh(s, j)
    requires i < |Exec(s, step).calls|
    ensures Fresh(Exec(s, step), i)
  {
    if i < |s.calls| {
      assert Fresh(s, i);
      OrderAround(s, i);
    }
  }

  /** A step leaves every call that has settled as it is. */
  lemma SettledStays<T, R>(s: State<T, R>, step: Step<T, R>, j: nat)
    requires j < |s.calls| && s.calls[j].phase.Settled?
    ensures Exec(s, step).calls[j] == s.calls[j]
  {
  }

  lemma SettledPrefix<T, R>(s: State<T, R>, step: Step<T, R>, i: nat)
    requires i <= |s.calls| && forall j :: 0 <= j < i ==> s.calls[j].phase.Settled?
    ensures i <= |Exec(s, step).calls| && Exec(s, step).calls[..i] == s.calls[..i]
  {
    forall j | 0 <= j < i ensures Exec(s, step).calls[j] == s.calls[j] { SettledStays(s, step, j); }
  }

  /** A call becomes committed only by its own rename; then its mutator has run on the fold so far. */
  lemma RenameExplains<T, R>(d: Disk<T>, s: State<T, R>, i: nat)
    requires Inv(d, s) && i < |s.calls| && s.calls[i].phase.Mutated?
    ensures Explained(d, Exec(s, Rename(i)).calls, i)
  {
    var t := Exec(s, Rename(i));
    OrderAround(s, i);
    assert Fresh(s, i);
    IdleTail(d, s.calls, i);
    assert t.calls[..i] == s.calls[..i];
  }

  lemma CommitsBy<T, R>(s: State<T, R>, step: Step<T, R>, i: nat)
    requires i < |Exec(s, step).calls| && Committed(Exec(s, step).calls[i])
    ensures i < |s.calls|
    ensures var c, c' := s.calls[i], Exec(s, step).calls[i];
      (Committed(c) && c'.mutate == c.mutate && ResultOf(c') == ResultOf(c)) || (step == Rename(i) && c.phase.Mutated?)
  {
  }

  lemma StepKeepsExplained<T, R>(d: Disk<T>, s: State<T, R>, step: Step<T, R>, i: nat)
    requires Inv(d, s) && i < |Exec(s, step).calls|
    ensures Explained(d, Exec(s, step).calls, i)
  {
    if Committed(Exec(s, step).calls[i]) {
      CommitsBy(s, step, i);
      if Committed(s.calls[i]) {
        assert Explained(d, s.calls, i);
        OrderAround(s, i);
        SettledPrefix(s, step, i);
      } else {
        RenameExplains(d, s, i);
      }
    }
  }

  lemma StepKeepsInv<T, R>(d: Disk<T>, s: State<T, R>, step: Step<T, R>)
    requires Inv(d, s)
    ensures Inv(d, Exec(s, step))
  {
    StepKeepsOrder(s, step);
    if step.Rename? && step.i < |s.calls| && s.calls[step.i].phase.Mutated? {
      RenameCommits(d, s, step.i);
    } else if !step.Rename? {
      StepKeepsDisk(d, s, step);
    }
    forall i | 0 <= i < |Exec(s, step).calls| ensures Fresh(Exec(s, step), i) {
      StepKeepsFresh(s, step, i);
    }
    forall i | 0 <= i < |Exec(s, step).calls| ensures Explained(d, Exec(s, step).calls, i) {
      StepKeepsExplained(d, s, step, i);
    }
  }

  // ---------------------------------------------------------------- what follows for every run

  /** Linearizability: at every moment the file is the fold, in call order, of the mutators that succeeded. */
  lemma {:induction false} RunKeepsInv<T, R>(d: Disk<T>, steps: seq<Step<T, R>>)
    ensures Inv(d, Run(Initial(d), steps))
  {
    if steps == [] {
    } else {
      RunKeepsInv(d, steps[..|steps| - 1]);
      StepKeepsInv(d, Run(Initial(d), steps[..|steps| - 1]), steps[|steps| - 1]);
    }
  }

  /** The call is between the start of its read and the end of its write. */
  predicate Active<T, R>(c: Call<T, R>) { !c.phase.Waiting? && !c.phase.Settled? }

  /**
   A read at any moment, with or without an update under way, sees the fold of the updates that have gone
   through, and nothing of one that has not.
   */
  lemma ReadSeesTheFold<T, R>(d: Disk<T>, steps: seq<Step<T, R>>, k: nat)
    requires var s := Run(Initial(d), steps);
      k <= |s.calls| && forall i :: k <= i < |s.calls| ==> !Committed(s.calls[i])
    ensures var s := Run(Initial(d), steps);
      && Contents(s.disk) == Contents(Sequential(d, s.calls))
      && Contents(s.disk) == Contents(Sequential(d, s.calls[..k]))
  {
    RunKeepsInv(d, steps);
    IdleTail(d, Run(Initial(d), steps).calls, k);
  }

  /** No two updates overlap, so none is lost; what they read is the fold of the finished ones. */
  lemma NoOverlap<T, R>(d: Disk<T>, steps: seq<Step<T, R>>, i: nat, j: nat)
    requires var s := Run(Initial(d), steps);
      i < |s.calls| && j < |s.calls| && Active(s.calls[i]) && Active(s.calls[j])
    ensures i == j
    ensures var s := Run(Initial(d), steps); Contents(s.disk) == Contents(Sequential(d, s.calls))
  {
    RunKeepsInv(d, steps);
    OrderAround(Run(Initial(d), steps), i);
  }

  /** What update() resolves with is what its mutator returns when the calls that went through run one by one. */
  lemma ResultIsSequential<T, R>(d: Disk<T>, steps: seq<Step<T, R>>, i: nat)
    requires var s := Run(Initial(d), steps); i < |s.calls| && s.calls[i].phase.Settled? && s.calls[i].phase.outcome.Some?
    ensures var s := Run(Initial(d), steps);
      var before := Contents(Sequential(d, s.calls[..i]));
      && before.Some? && s.calls[i].mutate(before.value).Some?
      && s.calls[i].phase.outcome == Some(s.calls[i].mutate(before.value).value.1)
  {
    RunKeepsInv(d, steps);
    assert Explained(d, Run(Initial(d), steps).calls, i);
  }

  /** An update that throws, wherever it does, leaves the file as it was. */
  lemma FailureChangesNothing<T, R>(s: State<T, R>, step: Step<T, R>, i: nat)
    requires i < |s.calls| && !s.calls[i].phase.Settled?
    requires Exec(s, step).calls[i].phase == Settled(None)
    ensures Exec(s, step).disk == s.disk
  {
  }

  /** ... and does not block the next: the first unsettled call always has a step to take. */
  lemma NeverBlocked<T, R>(d: Disk<T>, steps: seq<Step<T, R>>, i: nat) returns (step: Step<T, R>)
    requires var s := Run(Initial(d), steps);
      && i < |s.calls| && !s.calls[i].phase.Settled?
      && forall j :: 0 <= j < i ==> s.calls[j].phase.Settled?
    ensures var s := Run(Initial(d), steps);
      Exec(s, step).calls[i].phase != s.calls[i].phase && Exec(s, step).calls[i].mutate == s.calls[i].mutate
  {
    var s := Run(Initial(d), steps);
    RunKeepsInv(d, steps);
    match s.calls[i].phase
    case Waiting => step := Begin(i);
    case Reading => step := Read(i);
    case Loaded(_) => step := Mutate(i);
    case Mutated(_, _) => step := Rename(i);
    case Renamed(_) => step := Finish(i);
  }

  /** The file can be read as these records; an absent one has none. */
  ghost predicate Holds<T>(d: Disk<T>, items: seq<T>) { d == Records(items) || (d == Missing && items == []) }

  /** The steps of one update that nothing goes wrong in. */
  function OneUpdate<T, R>(i: nat): seq<Step<T, R>> { [Begin(i), Read(i), Mutate(i), Rename(i), Finish(i)] }

  lemma RunOneUpdate<T, R>(s: State<T, R>, i: nat)
    ensures Run(s, OneUpdate(i)) == Exec(Exec(Exec(Exec(Exec(s, Begin(i)), Read(i)), Mutate(i)), Rename(i)), Finish(i))
  {
    var steps: seq<Step<T, R>> := OneUpdate(i);
    assert steps[..4][..3] == steps[..3] && steps[..3][..2] == steps[..2] && steps[..2][..1] == steps[..1];
    assert steps[..1][..0] == [];
    assert Run(s, steps[..1]) == Exec(s, Begin(i));
    assert Run(s, steps[..2]) == Exec(Run(s, steps[..1]), Read(i));
    assert Run(s, steps[..3]) == Exec(Run(s, steps[..2]), Mutate(i));
    assert Run(s, steps[..4]) == Exec(Run(s, steps[..3]), Rename(i));
  }

  /**
   An update whose turn has come and in which nothing goes wrong goes through: the file is replaced by what
   its mutator made of the records there, the call resolves with its result, and no other call is touched.
   */
  lemma UpdateGoesThrough<T, R>(d: Disk<T>, steps: seq<Step<T, R>>, i: nat, items: seq<T>, after: seq<T>, result: R)
    requires var s := Run(Initial(d), steps);
      && i < |s.calls| && s.calls[i].phase.Waiting? && (forall j :: 0 <= j < i ==> s.calls[j].phase.Settled?)
      && Holds(s.disk, items) && s.calls[i].mutate(items) == Some((after, result))
    ensures var s := Run(Initial(d), steps);
      Run(s, OneUpdate(i)) == s.(disk := Records(after), calls := s.calls[i := s.calls[i].(phase := Settled(Some(result)))])
  {
    RunKeepsInv(d, steps);
    TurnCompletes(Run(Initial(d), steps), i, items, after, result);
  }

  lemma TurnCompletes<T, R>(s: State<T, R>, i: nat, items: seq<T>, after: seq<T>, result: R)
    requires MayBegin(s, i) && Holds(s.disk, items) && s.calls[i].mutate(items) == Some((after, result))
    ensures Run(s, OneUpdate(i)) == s.(disk := Records(after), calls := s.calls[i := s.calls[i].(phase := Settled(Some(result)))])
  {
    RunOneUpdate(s, i);
    var c := s.calls[i];
    var s1 := Exec(s, Begin(i));
    var s2 := Exec(s1, Read(i));
    assert s2 == s.(calls := s.calls[i := c.(phase := Loaded(items))]);
    var s3 := Exec(s2, Mutate(i));
    assert s3 == s.(calls := s.calls[i := c.(phase := Mutated(after, result))]);
    var s4 := Exec(s3, Rename(i));
    assert s4 == s.(disk := Records(after), calls := s.calls[i := c.(phase := Renamed(result))]);
  }

  /** An update on a file that cannot be read, or whose mutator throws, rejects and leaves the file as it is. */
  lemma UpdateRejects<T, R>(d: Disk<T>, steps: seq<Step<T, R>>, i: nat, items: seq<T>)
    requires var s := Run(Initial(d), steps);
      && i < |s.calls| && s.calls[i].phase.Waiting? && (forall j :: 0 <= j < i ==> s.calls[j].phase.Settled?)
      && (s.disk == Corrupt || (Holds(s.disk, items) && s.calls[i].mutate(items) == None))
    ensures var s := Run(Initial(d), steps);
      Exec(Exec(Exec(s, Begin(i)), Read(i)), Mutate(i)) == s.(calls := s.calls[i := s.calls[i].(phase := Settled(None))])
  {
    var s := Run(Initial(d), steps);
    RunKeepsInv(d, steps);
    var s2 := Exec(Exec(s, Begin(i)), Read(i));
    assert s2 == s.(calls := s.calls[i := s.calls[i].(phase := if s.disk == Corrupt then Settled(None) else Loaded(items))]);
  }

  /** So does one whose read or write fails. */
  lemma FailedAccessRejects<T, R>(s: State<T, R>, i: nat)
    requires i < |s.calls|
    ensures var rejected := s.(calls := s.calls[i := s.calls[i].(phase := Settled(None))]);
      && (s.calls[i].phase.Reading? ==> Exec(s, ReadFails(i)) == rejected)
      && (s.calls[i].phase.Mutated? ==> Exec(s, WriteFails(i)) == rejected)
  {
  }

  /** An update rejects only because the file cannot be read, its mutator throws, or the write fails. */
  lemma RejectsOnlyBy<T, R>(d: Disk<T>, steps: seq<Step<T, R>>, step: Step<T, R>, i: nat)
    requires var s := Run(Initial(d), steps);
      i < |s.calls| && !s.calls[i].phase.Settled? && Exec(s, step).calls[i].phase == Settled(None)
    ensures var s := Run(Initial(d), steps);
      || step == ReadFails(i) || step == WriteFails(i)
      || (step == Read(i) && s.disk == Corrupt)
      || (step == Mutate(i) && exists items :: Holds(s.disk, items) && s.calls[i].mutate(items) == None)
  {
    var s := Run(Initial(d), steps);
    RunKeepsInv(d, steps);
    assert Fresh(s, i);
    if step == Mutate(i) {
      assert Holds(s.disk, s.calls[i].phase.items);
    }
  }

  /** A property every mutator keeps holds of the file at every moment. */
  lemma {:induction false} SequentialKeeps<T(!new), R>(d: Disk<T>, calls: seq<Call<T, R>>, p: seq<T> -> bool)
    requires Contents(d).Some? ==> p(Contents(d).value)
    requires forall i, items :: 0 <= i < |calls| && p(items) && calls[i].mutate(items).Some? ==> p(calls[i].mutate(items).value.0)
    ensures Contents(Sequential(d, calls)).Some? ==> p(Contents(Sequential(d, calls)).value)
  {
    if calls == [] {
    } else {
      SequentialKeeps(d, calls[..|calls| - 1], p);
    }
  }
}
