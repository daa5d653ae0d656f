/**
 The table of calls the app-server client is waiting on, across the sockets it opens one after the
 other. Calls, answers, socket events, the reconnect timer and the disposal of the hook interleave freely.
 */
module RpcTable {
  import opened Text
  import opened InsertionMaps

  /** WebSocket.readyState. */
  datatype Ready = Connecting | Open | Closing | Closed

  datatype How = Resolved(result: string) | Rejected(message: string) | Disconnected

  /** The promise of one call is settled. */
  datatype Settlement = Settlement(call: nat, how: How)

  /**
   `sockets` lists every socket ever made, the current one last. `sentOn[n - 1]` is the socket call n
   went out on; `settlements` is what has happened to promises, in order.
   */
  datatype State = State(
    nextId: nat,
    pending: InsertionMap<string, nat>,
    sockets: seq<Ready>,
    timer: bool,
    disposed: bool,
    sentOn: seq<nat>,
    settlements: seq<Settlement>)

  datatype Step =
    | Rpc
    | Response(key: string, how: How)
    | Opened(socket: nat)
    | Leaving(socket: nat)
    | Close(socket: nat)
    | TimerFires
    | Dispose

  const INITIAL: State := State(1, InsertionMap([], map[]), [Connecting], false, false, [], [])

  /** String(id) of a whole number. */
  function Decimal(n: nat): (s: string)
    ensures s != []
  {
    if n < 10 then [Digit(n)] else Decimal(n / 10) + [Digit(n % 10)]
  }

  function Digit(d: nat): char
    requires d < 10
  {
    ('0' as int + d) as char
  }

  /** Two calls never share a key. */
  lemma {:induction false} DecimalInjective(a: nat, b: nat)
    requires Decimal(a) == Decimal(b)
    ensures a == b
  {
    if a >= 10 && b >= 10 {
      assert Decimal(a)[..|Decimal(a)| - 1] == Decimal(a / 10);
      assert Decimal(b)[..|Decimal(b)| - 1] == Decimal(b / 10);
      DecimalInjective(a / 10, b / 10);
    }
  }

  function Current(s: State): (i: nat)
    requires s.sockets != []
    ensures i < |s.sockets|
  {
    |s.sockets| - 1
  }

  /** The rejections of the close handler, in the order the calls were made. */
  function RejectAll(order: seq<string>, values: map<string, nat>): seq<Settlement>
    requires forall k :: k in order ==> k in values
  {
    if order == [] then []
    else RejectAll(order[..|order| - 1], values) + [Settlement(values[order[|order| - 1]], Disconnected)]
  }

  ghost predicate Shaped(s: State) { s.pending.Valid() && s.sockets != [] }

  lemma OrderIsMapped(m: InsertionMap<string, nat>)
    requires m.Valid()
    ensures forall k :: k in m.order ==> k in m.values
  {
    forall k | k in m.order ensures k in m.values { assert Listed(m.order, m.values, k); }
  }

  function ExecRpc(s: State): State
    requires Shaped(s)
  {
    if s.sockets[Current(s)] != Open then s
    else s.(nextId := s.nextId + 1, pending := s.pending.Set(Decimal(s.nextId), s.nextId), sentOn := s.sentOn + [Current(s)])
  }

  function ExecResponse(s: State, key: string, how: How): State
    requires Shaped(s)
  {
    if key !in s.pending.values then s
    else s.(pending := s.pending.Delete(key), settlements := s.settlements + [Settlement(s.pending.values[key], how)])
  }

  function ExecClose(s: State, socket: nat): State
    requires Shaped(s)
  {
    if socket >= |s.sockets| || s.sockets[socket] == Closed then s
    else
      var t := s.(sockets := s.sockets[socket := Closed]);
      OrderIsMapped(s.pending);
      if s.disposed then t
      else t.(pending := InsertionMap([], map[]), timer := true,
              settlements := s.settlements + RejectAll(s.pending.order, s.pending.values))
  }

  function Leave(r: Ready): Ready { if r == Closed then Closed else Closing }

  /** One step; one that cannot happen changes nothing. */
  function Exec(s: State, step: Step): (t: State)
    requires Shaped(s)
    ensures Shaped(t)
  {
    EmptyIsValid();
    match step
    case Rpc => ExecRpc(s)
    case Response(key, how) => ExecResponse(s, key, how)
    case Opened(i) => if i < |s.sockets| && s.sockets[i] == Connecting then s.(sockets := s.sockets[i := Open]) else s
    case Leaving(i) => if i < |s.sockets| then s.(sockets := s.sockets[i := Leave(s.sockets[i])]) else s
    case Close(i) => ExecClose(s, i)
    case TimerFires =>
      if !s.timer then s
      else if s.disposed then s.(timer := false)
      else s.(timer := false, sockets := s.sockets + [Connecting])
    case Dispose => s.(disposed := true, timer := false, sockets := s.sockets[Current(s) := Leave(s.sockets[Current(s)])])
  }

  lemma EmptyIsValid()
    ensures InsertionMap<string, nat>.InsertionMap([], map[]).Valid()
  {
    var m := InsertionMap<string, nat>.InsertionMap([], map[]);
    forall k ensures Listed(m.order, m.values, k) {}
  }

  function Run(steps: seq<Step>): (s: State)
    ensures Shaped(s)
  {
    EmptyIsValid();
    if steps == [] then INITIAL else Exec(Run(steps[..|steps| - 1]), steps[|steps| - 1])
  }

  // ---------------------------------------------------------------- the invariant

  /** How often the promise of a call has been settled. */
  function Times(settlements: seq<Settlement>, call: nat): nat {
    if settlements == [] then 0
    else Times(settlements[..|settlements| - 1], call) + if settlements[|settlements| - 1].call == call then 1 else 0
  }

  function One(b: bool): nat { if b then 1 else 0 }

  /** Every call made is waiting or settled once, never both; no other call is either. */
  predicate CallInv(s: State, n: nat) {
    Times(s.settlements, n) + One(Decimal(n) in s.pending.values) == One(1 <= n < s.nextId)
  }

  /** The call under a key has that key as its id and went out on the current socket. */
  predicate KeyInv(s: State, k: string) {
    k in s.pending.values ==>
      var n := s.pending.values[k];
      k == Decimal(n) && 1 <= n <= |s.sentOn| && s.sentOn[n - 1] + 1 == |s.sockets|
  }

  predicate SocketInv(s: State) {
    && s.sockets != []
    && |s.sentOn| + 1 == s.nextId
    && (forall i :: 0 <= i < |s.sockets| - 1 ==> s.sockets[i] == Closed)
    && (s.disposed ==> s.sockets[|s.sockets| - 1].Closing? || s.sockets[|s.sockets| - 1].Closed?)
    && (s.timer ==> !s.disposed && s.sockets[|s.sockets| - 1] == Closed)
    && (!s.disposed && s.pending.order != [] ==> s.sockets[|s.sockets| - 1] != Closed)
  }

  ghost predicate Inv(s: State) {
    && Shaped(s) && SocketInv(s)
    && (forall n :: CallInv(s, n))
    && (forall k :: KeyInv(s, k))
  }

  lemma {:induction false} TimesConcat(a: seq<Settlement>, b: seq<Settlement>, n: nat)
    ensures Times(a + b, n) == Times(a, n) + Times(b, n)
  {
    if b == [] {
      assert a + b == a;
    } else {
      assert (a + b)[..|a + b| - 1] == a + b[..|b| - 1];
      TimesConcat(a, b[..|b| - 1], n);
    }
  }

  lemma TimesOne(call: nat, how: How, n: nat)
    ensures Times([Settlement(call, how)], n) == One(call == n)
  {
    assert [Settlement(call, how)][..0] == [];
  }

  predicate Keyed(values: map<string, nat>, k: string) { k in values ==> k == Decimal(values[k]) }

  lemma PrefixIsDistinct(s: seq<string>)
    requires s != [] && Distinct(s)
    ensures Distinct(s[..|s| - 1]) && s[|s| - 1] !in s[..|s| - 1]
  {
    var t, last := s[..|s| - 1], s[|s| - 1];
    forall i, j | 0 <= i < j < |t| ensures Differ(t, i, j) { assert Differ(s, i, j); }
    forall i | 0 <= i < |t| ensures t[i] != last { assert Differ(s, i, |s| - 1); }
  }

  lemma KeyOfCall(values: map<string, nat>, k: string, n: nat)
    requires k in values && Keyed(values, k)
    ensures values[k] == n <==> k == Decimal(n)
  {
    if k == Decimal(n) { DecimalInjective(values[k], n); }
  }

  /** The close handler rejects each waiting call once and no other. */
  lemma {:induction false} RejectAllTimes(order: seq<string>, values: map<string, nat>, n: nat)
    requires Distinct(order) && (forall k :: k in order ==> k in values) && (forall k :: Keyed(values, k))
    ensures Times(RejectAll(order, values), n) == One(Decimal(n) in order)
  {
    if order == [] {
    } else {
      var init, last := order[..|order| - 1], order[|order| - 1];
      assert order == init + [last];
      PrefixIsDistinct(order);
      RejectAllTimes(init, values, n);
      TimesConcat(RejectAll(init, values), [Settlement(values[last], Disconnected)], n);
      TimesOne(values[last], Disconnected, n);
      assert Keyed(values, last);
      KeyOfCall(values, last, n);
    }
  }

  lemma RpcKeepsCall(s: State, n: nat)
    requires Inv(s)
    ensures CallInv(ExecRpc(s), n)
  {
    assert CallInv(s, n);
    if Decimal(n) == Decimal(s.nextId) { DecimalInjective(n, s.nextId); }
  }

  lemma NextIsNew(s: State)
    requires Inv(s)
    ensures Decimal(s.nextId) !in s.pending.values
  {
    assert CallInv(s, s.nextId);
  }

  lemma RpcKeepsKey(s: State, k: string)
    requires Inv(s)
    ensures KeyInv(ExecRpc(s), k)
  {
    assert KeyInv(s, k);
  }

  lemma RpcKeepsInv(s: State)
    requires Inv(s)
    ensures Inv(ExecRpc(s))
  {
    forall n ensures CallInv(ExecRpc(s), n) { RpcKeepsCall(s, n); }
    forall k ensures KeyInv(ExecRpc(s), k) { RpcKeepsKey(s, k); }
  }

  lemma ResponseKeepsCall(s: State, key: string, how: How, n: nat)
    requires Inv(s)
    ensures CallInv(ExecResponse(s, key, how), n)
  {
    assert CallInv(s, n);
    if key in s.pending.values {
      var call := s.pending.values[key];
      TimesConcat(s.settlements, [Settlement(call, how)], n);
      TimesOne(call, how, n);
      assert KeyInv(s, key);
      KeyOfCall(s.pending.values, key, n);
    }
  }

  lemma EmptyOrder(m: InsertionMap<string, nat>)
    requires m.Valid()
    ensures m.order == [] <==> m.values == map[]
  {
    forall k ensures k in m.order <==> k in m.values { assert Listed(m.order, m.values, k); }
    if m.order != [] { assert m.order[0] in m.values; }
  }

  lemma ResponseKeepsKey(s: State, key: string, how: How, k: string)
    requires Inv(s)
    ensures KeyInv(ExecResponse(s, key, how), k)
  {
    assert KeyInv(s, k);
  }

  lemma CloseKeepsCall(s: State, socket: nat, n: nat)
    requires Inv(s)
    ensures CallInv(ExecClose(s, socket), n)
  {
    assert CallInv(s, n);
    var t := ExecClose(s, socket);
    if t.settlements != s.settlements {
      OrderIsMapped(s.pending);
      forall k ensures Keyed(s.pending.values, k) { assert KeyInv(s, k); }
      TimesConcat(s.settlements, RejectAll(s.pending.order, s.pending.values), n);
      RejectAllTimes(s.pending.order, s.pending.values, n);
      assert Listed(s.pending.order, s.pending.values, Decimal(n));
    } else if t.pending != s.pending {
      NothingRejected(s);
      EmptyOrder(s.pending);
    }
  }

  lemma NothingRejected(s: State)
    requires Shaped(s)
    ensures forall k :: k in s.pending.order ==> k in s.pending.values
    ensures s.settlements + RejectAll(s.pending.order, s.pending.values) == s.settlements ==> s.pending.order == []
  {
    OrderIsMapped(s.pending);
    if s.pending.order != [] {
      assert |s.settlements + RejectAll(s.pending.order, s.pending.values)| > |s.settlements|;
    }
  }

  lemma CloseKeepsInv(s: State, socket: nat)
    requires Inv(s)
    ensures Inv(ExecClose(s, socket))
  {
    var t := ExecClose(s, socket);
    forall n ensures CallInv(t, n) { CloseKeepsCall(s, socket, n); }
    forall k ensures KeyInv(t, k) { assert KeyInv(s, k); }
    EmptyIsValid();
  }

  lemma SameTable(s: State, t: State)
    requires Inv(s) && SocketInv(t) && t.pending == s.pending && t.settlements == s.settlements && t.sentOn == s.sentOn && t.nextId == s.nextId
    requires |t.sockets| == |s.sockets| || s.pending.order == []
    ensures Inv(t)
  {
    EmptyOrder(s.pending);
    forall n ensures CallInv(t, n) { assert CallInv(s, n); }
    forall k ensures KeyInv(t, k) { assert KeyInv(s, k); }
  }

  lemma StepKeepsInv(s: State, step: Step)
    requires Inv(s)
    ensures Inv(Exec(s, step))
  {
    match step
    case Rpc => RpcKeepsInv(s);
    case Response(key, how) =>
      forall n ensures CallInv(ExecResponse(s, key, how), n) { ResponseKeepsCall(s, key, how, n); }
      forall k ensures KeyInv(ExecResponse(s, key, how), k) { ResponseKeepsKey(s, key, how, k); }
    case Close(i) => CloseKeepsInv(s, i);
    case Opened(_) => SameTable(s, Exec(s, step));
    case Leaving(_) => SameTable(s, Exec(s, step));
    case TimerFires => SameTable(s, Exec(s, step));
    case Dispose => SameTable(s, Exec(s, step));
  }

  lemma {:induction false} RunKeepsInv(steps: seq<Step>)
    ensures Inv(Run(steps))
  {
    if steps == [] {
    } else {
      RunKeepsInv(steps[..|steps| - 1]);
      StepKeepsInv(Run(steps[..|steps| - 1]), steps[|steps| - 1]);
    }
  }

  // ---------------------------------------------------------------- what follows for every run

  /** Every call ever made is waiting or has been settled exactly once; a number never called is neither. */
  lemma SettledAtMostOnce(steps: seq<Step>, n: nat)
    ensures var s := Run(steps);
      Times(s.settlements, n) == if 1 <= n < s.nextId && Decimal(n) !in s.pending.values then 1 else 0
  {
    RunKeepsInv(steps);
    assert CallInv(Run(steps), n);
  }

  /** A new call gets a number, and so a key, that was never used before. */
  lemma IdsAreNeverReused(steps: seq<Step>)
    ensures var s, t := Run(steps), Exec(Run(steps), Rpc);
      if s.sockets[Current(s)] == Open then
        && t.nextId == s.nextId + 1 && Times(s.settlements, s.nextId) == 0
        && Decimal(s.nextId) !in s.pending.values
        && t.pending.values == s.pending.values[Decimal(s.nextId) := s.nextId]
      else t == s
  {
    RunKeepsInv(steps);
    NextIsNew(Run(steps));
    assert CallInv(Run(steps), Run(steps).nextId);
  }

  /**
   No call survives a close: while the hook is not disposed, a waiting call went out on the current
   socket, and that socket is not closed.
   */
  lemma NoCallSurvivesAClose(steps: seq<Step>, k: string)
    requires k in Run(steps).pending.values && !Run(steps).disposed
    ensures var s := Run(steps);
      var n := s.pending.values[k];
      k == Decimal(n) && 1 <= n <= |s.sentOn| && s.sentOn[n - 1] == Current(s) && s.sockets[Current(s)] != Closed
  {
    RunKeepsInv(steps);
    WaitingOnOpenSocket(Run(steps), k);
  }

  lemma WaitingOnOpenSocket(s: State, k: string)
    requires Inv(s) && k in s.pending.values && !s.disposed
    ensures var n := s.pending.values[k];
      k == Decimal(n) && 1 <= n <= |s.sentOn| && s.sentOn[n - 1] == Current(s) && s.sockets[Current(s)] != Closed
  {
    assert KeyInv(s, k);
    EmptyOrder(s.pending);
  }

  /** A promise settles only by the response carrying its id, or by the close of the socket it went out on. */
  lemma SettledOnlyBy(steps: seq<Step>, step: Step, n: nat)
    requires Times(Exec(Run(steps), step).settlements, n) > Times(Run(steps).settlements, n)
    ensures var s, t := Run(steps), Exec(Run(steps), step);
      || (step.Response? && step.key == Decimal(n) && t.settlements == s.settlements + [Settlement(n, step.how)])
      || (step.Close? && !s.disposed && 1 <= n <= |s.sentOn| && s.sentOn[n - 1] == step.socket)
  {
    var s := Run(steps);
    RunKeepsInv(steps);
    assert CallInv(s, n);
    StepKeepsInv(s, step);
    assert CallInv(Exec(s, step), n);
    assert KeyInv(s, Decimal(n));
    if step.Response? && step.key in s.pending.values {
      TimesConcat(s.settlements, [Settlement(s.pending.values[step.key], step.how)], n);
      TimesOne(s.pending.values[step.key], step.how, n);
      assert KeyInv(s, step.key);
    }
    if step.Close? { WaitingIsCurrent(s, step.socket, n); }
  }

  lemma WaitingIsCurrent(s: State, socket: nat, n: nat)
    requires Inv(s) && Decimal(n) in s.pending.values && socket < |s.sockets| && s.sockets[socket] != Closed
    ensures 1 <= n <= |s.sentOn| && s.sentOn[n - 1] == socket
  {
    assert KeyInv(s, Decimal(n));
    DecimalInjective(s.pending.values[Decimal(n)], n);
  }

  /**
   A response settles the call that waits under its id, at once and with what it carries, and no other:
   every other call waits on as before. A response nobody waits for changes nothing.
   */
  lemma ResponseSettles(steps: seq<Step>, key: string, how: How, n: nat)
    requires key == Decimal(n)
    ensures var s, t := Run(steps), Exec(Run(steps), Response(key, how));
      if key in s.pending.values then
        && t.settlements == s.settlements + [Settlement(n, how)] && key !in t.pending.values
        && (forall k :: k != key ==> (k in t.pending.values <==> k in s.pending.values))
        && (forall k :: k != key && k in s.pending.values ==> t.pending.values[k] == s.pending.values[k])
        && t.nextId == s.nextId && t.sockets == s.sockets && t.timer == s.timer && t.disposed == s.disposed
      else t == s
  {
    var s := Run(steps);
    RunKeepsInv(steps);
    assert KeyInv(s, key);
    if key in s.pending.values { DecimalInjective(s.pending.values[key], n); }
  }

  /** So a call made on an open socket is settled by its response, whatever the response says. */
  lemma CallIsAnswered(steps: seq<Step>, how: How)
    requires var s := Run(steps); s.sockets[Current(s)] == Open
    ensures var s := Run(steps);
      var t := Exec(Exec(s, Rpc), Response(Decimal(s.nextId), how));
      && t.settlements == s.settlements + [Settlement(s.nextId, how)] && t.pending.values == s.pending.values
  {
    var s := Run(steps);
    IdsAreNeverReused(steps);
    RunSnoc(steps, Rpc);
    ResponseSettles(steps + [Rpc], Decimal(s.nextId), how, s.nextId);
    var after := Exec(Exec(s, Rpc), Response(Decimal(s.nextId), how)).pending.values;
    assert forall k :: k in after <==> k in s.pending.values;
  }

  /**
   After the close of its socket a hook that is not disposed opens the next one when the timer fires, and
   once that is open calls can be made again.
   */
  lemma Reconnects(steps: seq<Step>)
    requires var s := Run(steps); !s.disposed && s.sockets[Current(s)] != Closed
    ensures var s := Run(steps);
      var closed := Exec(s, Close(Current(s)));
      var again := Exec(closed, TimerFires);
      && closed.timer && closed.sockets[Current(closed)] == Closed
      && !again.timer && |again.sockets| == |s.sockets| + 1 && again.sockets[Current(again)] == Connecting
      && Exec(again, Opened(Current(again))).sockets[Current(again)] == Open
      && Exec(closed, Rpc) == closed && Exec(again, Rpc) == again
  {
  }

  /** A socket that is leaving takes no call. */
  lemma LeavingRefuses(steps: seq<Step>)
    ensures var t := Exec(Run(steps), Leaving(Current(Run(steps))));
      t.sockets[Current(t)] != Open && Exec(t, Rpc) == t && t.pending == Run(steps).pending
  {
  }

  /** Disposing clears the timer and starts closing the socket, so no call can be made any more. */
  lemma DisposeCloses(steps: seq<Step>)
    ensures var s, t := Run(steps), Exec(Run(steps), Dispose);
      && t.disposed && !t.timer && t.pending == s.pending && t.settlements == s.settlements
      && (s.sockets[Current(s)] == Closed || t.sockets == s.sockets[Current(s) := Closing]) && Exec(t, Rpc) == t
  {
  }

  /** Closing the current socket leaves no call waiting, unless the hook was disposed: then it settles none. */
  lemma CloseSettlesAll(steps: seq<Step>)
    requires var s := Run(steps); s.sockets[Current(s)] != Closed
    ensures var s := Run(steps);
      var t := Exec(s, Close(Current(s)));
      if s.disposed then t.pending == s.pending && t.settlements == s.settlements
      else t.pending.values == map[] && t.timer && |t.settlements| == |s.settlements| + |s.pending.order|
  {
    var s := Run(steps);
    OrderIsMapped(s.pending);
    RejectAllLength(s.pending.order, s.pending.values);
  }

  lemma {:induction false} RejectAllLength(order: seq<string>, values: map<string, nat>)
    requires forall k :: k in order ==> k in values
    ensures |RejectAll(order, values)| == |order|
  {
    if order == [] {
    } else {
      RejectAllLength(order[..|order| - 1], values);
    }
  }

  lemma FirstCall() returns (steps: seq<Step>)
    ensures var s := Run(steps); Decimal(1) in s.pending.values && s.settlements == [] && s.sockets == [Open]
  {
    RunSnoc([], Opened(0));
    RunSnoc([] + [Opened(0)], Rpc);
    steps := [] + [Opened(0)] + [Rpc];
  }

  lemma DisposeThenClose(s: State)
    requires Shaped(s)
    ensures var t := Exec(Exec(s, Dispose), Close(Current(s))); t.pending == s.pending && t.settlements == s.settlements
  {
  }

  /** A call waiting when the hook is disposed is not settled by the close that follows. */
  lemma DisposalLeavesWaiting() returns (steps: seq<Step>)
    ensures var s := Run(steps);
      s.disposed && s.sockets == [Closed] && Decimal(1) in s.pending.values && Times(s.settlements, 1) == 0
  {
    var first := FirstCall();
    DisposeThenClose(Run(first));
    RunSnoc(first, Dispose);
    RunSnoc(first + [Dispose], Close(0));
    steps := first + [Dispose] + [Close(0)];
  }

  lemma RunSnoc(steps: seq<Step>, step: Step)
    ensures Run(steps + [step]) == Exec(Run(steps), step)
  {
    assert (steps + [step])[..|steps|] == steps;
  }

  /** A disposed hook opens no further socket and makes no further call. */
  lemma DisposedIsFinal(steps: seq<Step>, step: Step)
    requires Run(steps).disposed
    ensures var s, t := Run(steps), Exec(Run(steps), step);
      t.disposed && |t.sockets| == |s.sockets| && !t.timer && t.nextId == s.nextId
  {
    RunKeepsInv(steps);
  }

  // ---------------------------------------------------------------- the client

  class AppServerClient {
    var nextId: nat
    var pending: InsertionMap<string, nat>
    var sockets: seq<Ready>
    var timer: bool
    var disposed: bool
    ghost var sentOn: seq<nat>
    ghost var settlements: seq<Settlement>

    ghost function Abstract(): State
      reads this
    {
      State(nextId, pending, sockets, timer, disposed, sentOn, settlements)
    }

    ghost predicate Valid()
      reads this
    {
      Shaped(Abstract())
    }

    constructor ()
      ensures Valid() && Abstract() == INITIAL
    {
      EmptyIsValid();
      nextId, pending, sockets, timer, disposed := 1, InsertionMap([], map[]), [Connecting], false, false;
      sentOn, settlements := [], [];
    }

    /** rpc: refused at once unless the current socket is open. */
    method Call() returns (id: Option<nat>)
      requires Valid()
      modifies this
      ensures Valid() && Abstract() == Exec(old(Abstract()), Rpc)
      ensures id == if old(sockets[|sockets| - 1]) == Open then Some(old(nextId)) else None
    {
      if sockets[|sockets| - 1] != Open {
        return None;
      }
      id := Some(nextId);
      nextId := nextId + 1;
      pending := pending.Set(Decimal(id.value), id.value);
      sentOn := sentOn + [|sockets| - 1];
    }

    /** handleMessage for a message with an id and no method. */
    method OnResponse(key: string, how: How)
      requires Valid()
      modifies this
      ensures Valid() && Abstract() == Exec(old(Abstract()), Response(key, how))
    {
      if key in pending.values {
        settlements := settlements + [Settlement(pending.values[key], how)];
        pending := pending.Delete(key);
      }
    }

    /** The close handler: rejects every waiting call and arms the reconnect timer. */
    method OnClose(socket: nat)
      requires Valid() && socket < |sockets| && sockets[socket] != Closed
      modifies this
      ensures Valid() && Abstract() == Exec(old(Abstract()), Close(socket))
    {
      EmptyIsValid();
      OrderIsMapped(pending);
      sockets := sockets[socket := Closed];
      if disposed {
        return;
      }
      var i := 0;
      while i < |pending.order|
        invariant 0 <= i <= |pending.order|
        invariant settlements == old(settlements) + RejectAll(pending.order[..i], pending.values)
        modifies this`settlements
      {
        RejectAllStep(pending.order, pending.values, i);
        settlements := settlements + [Settlement(pending.values[pending.order[i]], Disconnected)];
        i := i + 1;
      }
      assert pending.order[..i] == pending.order;
      pending := InsertionMap([], map[]);
      timer := true;
    }

    /** The reconnect timer: connect again. */
    method OnTimer()
      requires Valid() && timer
      modifies this
      ensures Valid() && Abstract() == Exec(old(Abstract()), TimerFires)
    {
      timer := false;
      if disposed {
        return;
      }
      sockets := sockets + [Connecting];
    }

    /** The clean-up of the effect. */
    method OnDispose()
      requires Valid()
      modifies this
      ensures Valid() && Abstract() == Exec(old(Abstract()), Dispose)
    {
      disposed := true;
      if timer {
        timer := false;
      }
      sockets := sockets[|sockets| - 1 := Leave(sockets[|sockets| - 1])];
    }
  }

  lemma RejectAllStep(order: seq<string>, values: map<string, nat>, i: nat)
    requires i < |order| && forall k :: k in order ==> k in values
    ensures RejectAll(order[..i + 1], values) == RejectAll(order[..i], values) + [Settlement(values[order[i]], Disconnected)]
  {
    assert order[..i + 1][..i] == order[..i];
  }
}
