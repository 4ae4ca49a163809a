/** Closing one relay connection from many tasks at once.

    `handle_close` is called by `close`, `abort`, the open timeout, a failed send, the give-up rule and
    the handlers of CLOSE and ERROR frames. Each call is a task with its own steps: take the state
    lock, raise the `closed` flag, take the callbacks, run them one by one, leave the connection table.
    Tasks interleave freely with each other and with OPEN_ACK, `close` and callback registration. */
module RelayLifecycle {
  import opened Common
  import opened RelayEndpoint

  datatype Task =
    | Entering(why: CloseReason)
    | Won(why: CloseReason)
    | Flagged(why: CloseReason)
    | Running(why: CloseReason, todo: seq<nat>)
    | Leaving
    | Finished(winner: bool)

  datatype Call = Call(callback: nat, why: CloseReason, task: nat)

  /** `registered` logs every callback given to `on_close`, `calls` every callback run. */
  datatype Life = Life(
    state: ConnState, closed: bool, listed: bool, callbacks: seq<nat>,
    tasks: map<nat, Task>, registered: seq<nat>, calls: seq<Call>)

  datatype Event =
    | OpenAckArrives
    | CloseBegins
    | Register(callback: nat)
    | Start(task: nat, why: CloseReason)
    | LockState(task: nat)
    | RaiseClosed(task: nat)
    | TakeCallbacks(task: nat)
    | RunCallback(task: nat)
    | LeaveTable(task: nat)

  function At(l: Life, t: nat): Task {
    if t in l.tasks then l.tasks[t] else Finished(false)
  }

  function Goto(l: Life, t: nat, p: Task): Life {
    l.(tasks := l.tasks[t := p])
  }

  function Next(l: Life, ev: Event): Life {
    match ev
    case OpenAckArrives => if l.state == Opening then l.(state := Open) else l
    case CloseBegins => if l.state == Open then l.(state := Closing) else l
    case Register(c) => l.(callbacks := l.callbacks + [c], registered := l.registered + [c])
    case Start(t, why) => if t in l.tasks then l else Goto(l, t, Entering(why))
    case LockState(t) =>
      var p := At(l, t);
      if !p.Entering? then l
      else if l.state == Closed then Goto(l, t, Finished(false))
      else Goto(l.(state := Closed), t, Won(p.why))
    case RaiseClosed(t) =>
      var p := At(l, t);
      if p.Won? then Goto(l.(closed := true), t, Flagged(p.why)) else l
    case TakeCallbacks(t) =>
      var p := At(l, t);
      if p.Flagged? then Goto(l.(callbacks := []), t, Running(p.why, l.callbacks)) else l
    case RunCallback(t) =>
      var p := At(l, t);
      if !p.Running? then l
      else if p.todo == [] then Goto(l, t, Task.Leaving)
      else Goto(l.(calls := l.calls + [Call(p.todo[0], p.why, t)]), t, Running(p.why, p.todo[1..]))
    case LeaveTable(t) =>
      if At(l, t).Leaving? then Goto(l.(listed := false), t, Finished(true)) else l
  }

  function Run(l: Life, trace: seq<Event>): Life {
    if trace == [] then l else Next(Run(l, trace[..|trace| - 1]), trace[|trace| - 1])
  }

  /** A new connection, in the table, with no task closing it. */
  function New(state: ConnState): Life {
    Life(state, false, true, [], map[], [], [])
  }

  predicate Winner(p: Task) {
    p.Won? || p.Flagged? || p.Running? || p.Leaving? || p == Finished(true)
  }

  predicate Done(p: Task) {
    p.Leaving? || p == Finished(true)
  }

  predicate Wins(l: Life, t: nat) {
    t in l.tasks && Winner(l.tasks[t])
  }

  predicate TookCallbacks(p: Task) {
    p.Running? || Done(p)
  }

  function Callbacks(calls: seq<Call>): seq<nat> {
    seq(|calls|, i requires 0 <= i < |calls| => calls[i].callback)
  }

  /** What the winning task `w` has taken and still has to run. */
  function InHand(l: Life, w: nat): seq<nat> {
    if At(l, w).Running? then At(l, w).todo else []
  }

  /** With winner `w`: it is the only one, everything run was run by it for its own reason, and no
      registered callback is lost, duplicated or reordered. */
  ghost predicate WonBy(l: Life, w: nat) {
    && l.state == Closed
    && Wins(l, w)
    && (forall t :: Wins(l, t) ==> t == w)
    && (l.closed <==> !l.tasks[w].Won?)
    && (l.listed <==> l.tasks[w] != Finished(true))
    && (l.calls != [] ==> TookCallbacks(l.tasks[w]))
    && (forall i :: 0 <= i < |l.calls| ==> l.calls[i].task == w)
    && (forall i :: 0 <= i < |l.calls| && l.tasks[w].Running? ==> l.calls[i].why == l.tasks[w].why)
    && (forall i, j :: 0 <= i < |l.calls| && 0 <= j < |l.calls| ==> l.calls[i].why == l.calls[j].why)
    && l.registered == Callbacks(l.calls) + InHand(l, w) + l.callbacks
  }

  ghost predicate NobodyYet(l: Life) {
    && l.state != Closed && !l.closed && l.listed
    && (forall t :: !Wins(l, t))
    && l.calls == [] && l.callbacks == l.registered
  }

  lemma AppendCall(calls: seq<Call>, c: Call)
    ensures Callbacks(calls + [c]) == Callbacks(calls) + [c.callback]
  {
  }

  /** The only way to become a winner is to get the lock before the state is Closed. */
  lemma NewWinner(l: Life, ev: Event)
    ensures forall t :: Wins(Next(l, ev), t) ==> Wins(l, t) || (ev == LockState(t) && l.state != Closed)
  {
  }

  lemma FirstToLock(l: Life, ev: Event) returns (w: nat)
    requires NobodyYet(l)
    ensures NobodyYet(Next(l, ev)) || WonBy(Next(l, ev), w)
  {
    w := if ev.LockState? then ev.task else 0;
    NewWinner(l, ev);
    match ev
    case LockState(t) =>
      if At(l, t).Entering? {
        assert Wins(Next(l, ev), t);
        assert [] + [] + l.callbacks == l.callbacks;
      }
    case RaiseClosed(t) => assert !Wins(l, t);
    case TakeCallbacks(t) => assert !Wins(l, t);
    case RunCallback(t) => assert !Wins(l, t);
    case LeaveTable(t) => assert !Wins(l, t);
    case _ =>
  }

  lemma WinnerCalls(l: Life, w: nat)
    requires WonBy(l, w)
    ensures WonBy(Next(l, RunCallback(w)), w)
  {
    NewWinner(l, RunCallback(w));
    var p := At(l, w);
    if p.Running? && p.todo != [] {
      AppendCall(l.calls, Call(p.todo[0], p.why, w));
      assert p.todo == [p.todo[0]] + p.todo[1..];
    }
  }

  lemma WinnerTakes(l: Life, w: nat, t: nat)
    requires WonBy(l, w)
    ensures WonBy(Next(l, TakeCallbacks(t)), w)
  {
    NewWinner(l, TakeCallbacks(t));
    assert Wins(l, t) ==> t == w;
    assert l.calls != [] ==> !l.tasks[w].Flagged?;
    assert Callbacks([]) == [];
  }

  lemma LocksAndLeaves(l: Life, w: nat, ev: Event)
    requires WonBy(l, w) && (ev.LockState? || ev.RaiseClosed? || ev.LeaveTable?)
    ensures WonBy(Next(l, ev), w)
  {
    NewWinner(l, ev);
    assert Wins(l, ev.task) ==> ev.task == w;
  }

  lemma WinnerStays(l: Life, w: nat, ev: Event)
    requires WonBy(l, w)
    ensures WonBy(Next(l, ev), w)
  {
    match ev
    case RunCallback(t) =>
      if t == w {
        WinnerCalls(l, w);
      } else {
        assert !Wins(l, t);
        assert Next(l, ev) == l;
      }
    case TakeCallbacks(t) => WinnerTakes(l, w, t);
    case LockState(_) => LocksAndLeaves(l, w, ev);
    case RaiseClosed(_) => LocksAndLeaves(l, w, ev);
    case LeaveTable(_) => LocksAndLeaves(l, w, ev);
    case _ => NewWinner(l, ev);
  }

  /** In every interleaving: before the first `handle_close` gets the lock nothing is closed; from then
      on exactly one task is the winner, it alone runs callbacks, and the callbacks run, those in its
      hands and those registered too late make up the registrations in order. */
  lemma {:induction false} OneWinner(state: ConnState, trace: seq<Event>) returns (w: nat)
    requires state != Closed
    ensures var l := Run(New(state), trace); NobodyYet(l) || WonBy(l, w)
  {
    if trace == [] {
      w := 0;
    } else {
      var l := Run(New(state), trace[..|trace| - 1]);
      w := OneWinner(state, trace[..|trace| - 1]);
      if NobodyYet(l) {
        w := FirstToLock(l, trace[|trace| - 1]);
      } else {
        WinnerStays(l, w, trace[|trace| - 1]);
      }
    }
  }

  lemma {:induction false} WinnerForever(l: Life, w: nat, trace: seq<Event>)
    requires WonBy(l, w)
    ensures WonBy(Run(l, trace), w)
  {
    if trace != [] {
      WinnerForever(l, w, trace[..|trace| - 1]);
      WinnerStays(Run(l, trace[..|trace| - 1]), w, trace[|trace| - 1]);
    }
  }

  lemma OthersLeaveWinner(l: Life, w: nat, ev: Event)
    requires WonBy(l, w) && TookCallbacks(l.tasks[w]) && ev != RunCallback(w)
    ensures var m := Next(l, ev);
      m.calls == l.calls && InHand(m, w) == InHand(l, w) && TookCallbacks(At(m, w))
  {
    if ev.RunCallback? {
      assert !Wins(l, ev.task);
    }
  }

  lemma WinnerCallsNext(l: Life, w: nat)
    requires At(l, w).Running?
    ensures var m := Next(l, RunCallback(w));
      && TookCallbacks(At(m, w))
      && Callbacks(m.calls) + InHand(m, w) == Callbacks(l.calls) + InHand(l, w)
  {
  }

  lemma NextKeepsTaken(l: Life, w: nat, ev: Event)
    requires WonBy(l, w) && TookCallbacks(l.tasks[w])
    ensures var m := Next(l, ev);
      && WonBy(m, w) && TookCallbacks(m.tasks[w])
      && Callbacks(m.calls) + InHand(m, w) == Callbacks(l.calls) + InHand(l, w)
  {
    WinnerStays(l, w, ev);
    if ev != RunCallback(w) {
      OthersLeaveWinner(l, w, ev);
    } else if At(l, w).Running? {
      WinnerCallsNext(l, w);
    }
    hide Next, TookCallbacks;
  }

  /** A callback registered after the winner took the list never runs, and one registered before runs
      exactly once: from that moment the list of callbacks to run is fixed. */
  lemma {:induction false} TakenIsFinal(l: Life, w: nat, trace: seq<Event>)
    requires WonBy(l, w) && TookCallbacks(l.tasks[w])
    ensures var m := Run(l, trace);
      && WonBy(m, w) && TookCallbacks(m.tasks[w])
      && Callbacks(m.calls) + InHand(m, w) == Callbacks(l.calls) + InHand(l, w)
      && (Done(m.tasks[w]) ==> Callbacks(m.calls) == Callbacks(l.calls) + InHand(l, w))
  {
    if trace != [] {
      TakenIsFinal(l, w, trace[..|trace| - 1]);
      NextKeepsTaken(Run(l, trace[..|trace| - 1]), w, trace[|trace| - 1]);
    }
    var m := Run(l, trace);
    if Done(m.tasks[w]) {
      assert Callbacks(m.calls) + [] == Callbacks(m.calls);
    }
  }

  // ----- The reasons that callbacks hear -----

  predicate StartAt(trace: seq<Event>, k: nat, t: nat, why: CloseReason) {
    && k < |trace| && trace[k] == Start(t, why)
    && forall j :: 0 <= j < k ==> !(trace[j].Start? && trace[j].task == t)
  }

  /** The reason for which task `t` was started. */
  ghost predicate StartedFor(trace: seq<Event>, t: nat, why: CloseReason) {
    exists k: nat :: StartAt(trace, k, t, why)
  }

  predicate NeverStarted(trace: seq<Event>, t: nat) {
    forall k :: 0 <= k < |trace| ==> !(trace[k].Start? && trace[k].task == t)
  }

  lemma StartedOnce(trace: seq<Event>, t: nat, why: CloseReason, other: CloseReason)
    requires StartedFor(trace, t, why) && StartedFor(trace, t, other)
    ensures why == other
  {
    var k: nat :| StartAt(trace, k, t, why);
    var m: nat :| StartAt(trace, m, t, other);
    assert k == m;
  }

  lemma StartedStays(trace: seq<Event>, ev: Event, t: nat, why: CloseReason)
    requires StartedFor(trace, t, why)
    ensures StartedFor(trace + [ev], t, why)
  {
    var k: nat :| StartAt(trace, k, t, why);
    assert StartAt(trace + [ev], k, t, why);
  }

  function ReasonOf(p: Task): Option<CloseReason> {
    if p.Entering? || p.Won? || p.Flagged? || p.Running? then Some(p.why) else None
  }

  ghost predicate TaskTrue(l: Life, trace: seq<Event>, t: nat) {
    && (t !in l.tasks ==> NeverStarted(trace, t))
    && (t in l.tasks && ReasonOf(l.tasks[t]).Some? ==> StartedFor(trace, t, ReasonOf(l.tasks[t]).value))
  }

  ghost predicate CallsTrue(l: Life, trace: seq<Event>) {
    forall i :: 0 <= i < |l.calls| ==> StartedFor(trace, l.calls[i].task, l.calls[i].why)
  }

  lemma NextTaskTrue(l: Life, trace: seq<Event>, ev: Event, t: nat)
    requires TaskTrue(l, trace, t)
    ensures TaskTrue(Next(l, ev), trace + [ev], t)
  {
    var more := trace + [ev];
    if t in l.tasks && ReasonOf(l.tasks[t]).Some? {
      StartedStays(trace, ev, t, ReasonOf(l.tasks[t]).value);
    }
    if ev.Start? && ev.task == t && t !in l.tasks {
      assert StartAt(more, |trace|, t, ev.why);
    }
    if t !in Next(l, ev).tasks {
      assert NeverStarted(more, t);
    }
    hide StartedFor;
  }

  lemma NextCallsTrue(l: Life, trace: seq<Event>, ev: Event)
    requires CallsTrue(l, trace) && (ev.RunCallback? ==> TaskTrue(l, trace, ev.task))
    ensures CallsTrue(Next(l, ev), trace + [ev])
  {
    var m := Next(l, ev);
    forall i | 0 <= i < |m.calls| ensures StartedFor(trace + [ev], m.calls[i].task, m.calls[i].why) {
      StartedStays(trace, ev, m.calls[i].task, m.calls[i].why);
    }
  }

  lemma {:induction false} ReasonsAreTrue(state: ConnState, trace: seq<Event>, t: nat)
    ensures TaskTrue(Run(New(state), trace), trace, t) && CallsTrue(Run(New(state), trace), trace)
  {
    if trace != [] {
      var front, ev := trace[..|trace| - 1], trace[|trace| - 1];
      ReasonsAreTrue(state, front, t);
      if ev.RunCallback? {
        ReasonsAreTrue(state, front, ev.task);
      }
      NextTaskTrue(Run(New(state), front), front, ev, t);
      NextCallsTrue(Run(New(state), front), front, ev);
      assert trace == front + [ev];
      hide Next, TaskTrue, CallsTrue;
    }
  }

  /** Whatever closes the connection, and however many tasks try: every callback that is run is run by
      the winner and hears the reason for which this very task was started. */
  lemma CallbacksHearTheReason(state: ConnState, trace: seq<Event>) returns (w: nat)
    requires state != Closed
    ensures var l := Run(New(state), trace);
      && (l.state == Closed ==> WonBy(l, w))
      && forall i :: 0 <= i < |l.calls| ==> l.calls[i].task == w && StartedFor(trace, w, l.calls[i].why)
  {
    w := OneWinner(state, trace);
    ReasonsAreTrue(state, trace, w);
    hide Run, StartedFor;
  }

  // ----- Progress -----

  function Turns(trace: seq<Event>, w: nat): nat {
    if trace == [] then 0
    else Turns(trace[..|trace| - 1], w) + if trace[|trace| - 1] == RunCallback(w) then 1 else 0
  }

  function CallsOf(todo: seq<nat>, why: CloseReason, w: nat): (s: seq<Call>)
    ensures |s| == |todo| && forall i :: 0 <= i < |s| ==> s[i] == Call(todo[i], why, w)
  {
    seq(|todo|, i requires 0 <= i < |todo| => Call(todo[i], why, w))
  }

  /** Of the callbacks `todo` taken by the winner, the first `k` have been run, or all of them. */
  predicate RunSoFar(before: seq<Call>, m: Life, w: nat, todo: seq<nat>, why: CloseReason, k: nat) {
    && m.calls == before + CallsOf(todo[..Min(k, |todo|)], why, w)
    && (k <= |todo| ==> At(m, w) == Running(why, todo[k..]))
    && (k > |todo| ==> Done(At(m, w)))
  }

  lemma NextTurn(before: seq<Call>, m: Life, w: nat, todo: seq<nat>, why: CloseReason, k: nat, ev: Event)
    requires WonBy(m, w) && RunSoFar(before, m, w, todo, why, k)
    ensures RunSoFar(before, Next(m, ev), w, todo, why, k + if ev == RunCallback(w) then 1 else 0)
  {
    if ev != RunCallback(w) {
      OthersLeaveTurn(m, w, ev);
    } else if k < |todo| {
      assert todo[..k + 1] == todo[..k] + [todo[k]];
      assert CallsOf(todo[..k + 1], why, w) == CallsOf(todo[..k], why, w) + [Call(todo[k], why, w)];
    } else {
      assert todo[..Min(k + 1, |todo|)] == todo[..Min(k, |todo|)];
    }
  }

  lemma OthersLeaveTurn(m: Life, w: nat, ev: Event)
    requires WonBy(m, w) && TookCallbacks(m.tasks[w]) && ev != RunCallback(w)
    ensures var n := Next(m, ev); n.calls == m.calls
    ensures var n := Next(m, ev); At(n, w) == At(m, w) || (Done(At(m, w)) && Done(At(n, w)))
  {
    if ev.RunCallback? {
      assert !Wins(m, ev.task);
    }
  }

  /** In every interleaving each turn of the winner runs the next callback of its list, with its own
      reason, until the list is through. */
  lemma {:induction false} CallbacksRunInTurn(l: Life, w: nat, trace: seq<Event>)
    requires WonBy(l, w) && l.tasks[w].Running?
    ensures RunSoFar(l.calls, Run(l, trace), w, l.tasks[w].todo, l.tasks[w].why, Turns(trace, w))
  {
    var todo, why := l.tasks[w].todo, l.tasks[w].why;
    if trace == [] {
      assert todo[..0] == [] && todo[0..] == todo;
      assert l.calls + CallsOf([], why, w) == l.calls;
    } else {
      var front := trace[..|trace| - 1];
      CallbacksRunInTurn(l, w, front);
      WinnerForever(l, w, front);
      NextTurn(l.calls, Run(l, front), w, todo, why, Turns(front, w), trace[|trace| - 1]);
      hide Next, WonBy, RunSoFar;
    }
  }

  /** A task that `handle_close` has let in is at the lock. */
  predicate GetsTheLock(l: Life, ev: Event) {
    ev.LockState? && At(l, ev.task).Entering?
  }

  predicate LockedAt(state: ConnState, trace: seq<Event>, i: nat) {
    i < |trace| && GetsTheLock(Run(New(state), trace[..i]), trace[i])
  }

  lemma LockedBefore(state: ConnState, front: seq<Event>, ev: Event, i: nat)
    requires i < |front|
    ensures LockedAt(state, front + [ev], i) <==> LockedAt(state, front, i)
  {
    assert (front + [ev])[..i] == front[..i];
    hide Run, GetsTheLock;
  }

  /** The connection is closed exactly once some `handle_close` has got the state lock. */
  lemma {:induction false} ClosedIff(state: ConnState, trace: seq<Event>)
    requires state != Closed
    ensures Run(New(state), trace).state == Closed <==> exists i: nat :: LockedAt(state, trace, i)
  {
    if trace != [] {
      var front, ev := trace[..|trace| - 1], trace[|trace| - 1];
      ClosedIff(state, front);
      assert trace == front + [ev] && trace[..|front|] == front;
      forall i: nat | i < |front| ensures LockedAt(state, trace, i) <==> LockedAt(state, front, i) {
        LockedBefore(state, front, ev, i);
      }
      assert LockedAt(state, trace, |front|) <==> GetsTheLock(Run(New(state), front), ev);
      LockCloses(Run(New(state), front), ev);
      if i: nat :| LockedAt(state, front, i) {
        assert LockedAt(state, trace, i);
      }
      if i: nat :| LockedAt(state, trace, i) {
        assert i < |front| ==> LockedAt(state, front, i);
      }
      assert Run(New(state), trace) == Next(Run(New(state), front), ev);
      hide Run, Next, LockedAt;
    }
  }

  lemma LockCloses(l: Life, ev: Event)
    ensures Next(l, ev).state == Closed <==> l.state == Closed || GetsTheLock(l, ev)
  {
  }

  lemma StateStep(l: Life, ev: Event)
    ensures var m := Next(l, ev);
      || m.state == Closed
      || (l.state != Closed
          && m.state == if ev == OpenAckArrives && l.state == Opening then Open
                        else if ev == CloseBegins && l.state == Open then Closing
                        else l.state)
  {
  }

  /** Until then the state says which of OPEN_ACK and `close()` have come by. */
  lemma {:induction false} StateUntilClosed(trace: seq<Event>)
    ensures var l := Run(New(Opening), trace);
      l.state != Closed ==> (l.state == Opening <==> OpenAckArrives !in trace)
    ensures var l := Run(New(Open), trace);
      l.state != Closed ==> l.state != Opening && (l.state == Open <==> CloseBegins !in trace)
  {
    if trace != [] {
      var front, ev := trace[..|trace| - 1], trace[|trace| - 1];
      StateUntilClosed(front);
      assert trace == front + [ev];
      StateStep(Run(New(Opening), front), ev);
      StateStep(Run(New(Open), front), ev);
      hide Next;
    }
  }

  function Repeat(ev: Event, n: nat): (s: seq<Event>)
    ensures |s| == n && forall i :: 0 <= i < n ==> s[i] == ev
  {
    seq(n, _ => ev)
  }

  lemma {:induction false} RunOn(l: Life, a: seq<Event>, b: seq<Event>)
    ensures Run(l, a + b) == Run(Run(l, a), b)
  {
    if b == [] {
      assert a + b == a;
    } else {
      assert (a + b)[..|a + b| - 1] == a + b[..|b| - 1];
      RunOn(l, a, b[..|b| - 1]);
    }
  }

  lemma RunOne(l: Life, x: Event)
    ensures Run(l, [x]) == Next(l, x)
  {
  }

  lemma RunTwo(l: Life, x: Event, y: Event)
    ensures Run(l, [x, y]) == Next(Next(l, x), y)
  {
    hide Next;
    assert [x, y] == [x] + [y];
    RunOn(l, [x], [y]);
    RunOne(l, x);
    RunOne(Next(l, x), y);
  }

  lemma OneTurn(l: Life, w: nat)
    requires At(l, w).Running? && At(l, w).todo != []
    ensures var p := At(l, w);
      Next(l, RunCallback(w))
        == Goto(l.(calls := l.calls + [Call(p.todo[0], p.why, w)]), w, Running(p.why, p.todo[1..]))
  {
  }

  /** With every callback in the winner's hands run. */
  function AllRun(l: Life, w: nat): Life {
    var p := At(l, w);
    if p.Running? then Goto(l.(calls := l.calls + CallsOf(p.todo, p.why, w)), w, Running(p.why, [])) else l
  }

  lemma AllRunNext(l: Life, w: nat)
    requires At(l, w).Running?
    ensures At(l, w).todo == [] ==> AllRun(l, w) == l
    ensures At(l, w).todo != [] ==> AllRun(Next(l, RunCallback(w)), w) == AllRun(l, w)
  {
    var p := At(l, w);
    if p.todo == [] {
      assert l.calls + CallsOf(p.todo, p.why, w) == l.calls;
      assert l.tasks[w := Running(p.why, [])] == l.tasks;
    } else {
      OneTurn(l, w);
      hide Next;
      assert l.calls + CallsOf(p.todo, p.why, w)
          == l.calls + [Call(p.todo[0], p.why, w)] + CallsOf(p.todo[1..], p.why, w);
      assert l.tasks[w := Running(p.why, p.todo[1..])][w := Running(p.why, [])] == l.tasks[w := Running(p.why, [])];
    }
  }

  lemma {:induction false} RunsAll(l: Life, w: nat)
    requires At(l, w).Running?
    ensures Run(l, Repeat(RunCallback(w), |At(l, w).todo|)) == AllRun(l, w)
    decreases |At(l, w).todo|
  {
    var n := |At(l, w).todo|;
    AllRunNext(l, w);
    if n == 0 {
      assert Repeat(RunCallback(w), 0) == [];
    } else {
      OneTurn(l, w);
      hide AllRun, Next, Run;
      var m := Next(l, RunCallback(w));
      RunsAll(m, w);
      RunOne(l, RunCallback(w));
      RunOn(l, [RunCallback(w)], Repeat(RunCallback(w), n - 1));
      assert Repeat(RunCallback(w), n) == [RunCallback(w)] + Repeat(RunCallback(w), n - 1);
    }
  }

  /** `handle_close` of task `w`, from the lock to the end, with `n` callbacks to run. */
  function Handling(w: nat, n: nat): seq<Event> {
    Entry(w) + (Repeat(RunCallback(w), n) + [RunCallback(w), LeaveTable(w)])
  }

  function Entry(w: nat): seq<Event> {
    [LockState(w), RaiseClosed(w)] + [TakeCallbacks(w)]
  }

  lemma EntryEffect(l: Life, w: nat)
    requires At(l, w).Entering? && l.state != Closed
    ensures Run(l, Entry(w))
         == Goto(l.(state := Closed, closed := true, callbacks := []), w, Running(At(l, w).why, l.callbacks))
  {
    var flagged := Goto(l.(state := Closed, closed := true), w, Flagged(At(l, w).why));
    RunTwo(l, LockState(w), RaiseClosed(w));
    RunOne(flagged, TakeCallbacks(w));
    RunOn(l, [LockState(w), RaiseClosed(w)], [TakeCallbacks(w)]);
    hide Run;
  }

  /** Undisturbed, the first `handle_close` closes the connection, raises the flag, runs every callback
      registered, in order and with its reason, and takes the connection out of the table. */
  lemma UndisturbedClose(l: Life, w: nat)
    requires At(l, w).Entering? && l.state != Closed
    ensures Run(l, Handling(w, |l.callbacks|))
         == l.(state := Closed, closed := true, listed := false, callbacks := [],
               calls := l.calls + CallsOf(l.callbacks, At(l, w).why, w),
               tasks := l.tasks[w := Finished(true)])
  {
    var n := |l.callbacks|;
    var taken := Goto(l.(state := Closed, closed := true, callbacks := []), w, Running(At(l, w).why, l.callbacks));
    var rest, last := Repeat(RunCallback(w), n), [RunCallback(w), LeaveTable(w)];
    EntryEffect(l, w);
    hide Run, Repeat, CallsOf, Entry;
    RunsAll(taken, w);
    RunTwo(AllRun(taken, w), RunCallback(w), LeaveTable(w));
    RunOn(taken, rest, last);
    RunOn(l, Entry(w), rest + last);
    assert l.tasks[w := Running(At(l, w).why, [])][w := Finished(true)] == l.tasks[w := Finished(true)];
  }
}
