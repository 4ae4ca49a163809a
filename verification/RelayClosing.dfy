/** What the send loop can still do once the `closed` flag is up. */
module RelayClosing {
  import opened Common
  import opened Reassembly
  import opened RelayEndpoint
  import opened RelayProtocol
  import opened RelayScript

  /** The loop had looked at the flag before it went up, and goes on to take the number. */
  predicate LateNumber(pc: Pc, trace: seq<Event>) {
    pc.Checked? && Event(Left, Act(AssignSeq)) in trace
  }

  lemma StepAfterClose(e: Endpoint, a: Action)
    requires e.closed
    ensures var f := Step(e, a).after;
      && f.closed
      && f.snd.next == e.snd.next + (if e.snd.pc.Checked? && a == AssignSeq then 1 else 0)
      && (f.snd.pc.Checked? <==> e.snd.pc.Checked? && a != AssignSeq)
  {
  }

  lemma NextAfterClose(s: System, ev: Event)
    requires s.left.closed
    ensures var t, late := Next(s, ev).left, s.left.snd.pc.Checked? && ev == Event(Left, Act(AssignSeq));
      && t.closed
      && t.snd.next == s.left.snd.next + (if late then 1 else 0)
      && (t.snd.pc.Checked? <==> s.left.snd.pc.Checked? && !late)
  {
    hide Step, Receive;
    if ev.who == Right {
      RightLeavesEndpoint(s, ev.move);
    } else if ev.move.Act? {
      StepAfterClose(s.left, ev.move.a);
    } else {
      NetworkLeavesLoop(s, ev.move);
    }
  }

  lemma {:induction false} RunAfterClose(s: System, trace: seq<Event>)
    requires s.left.closed
    ensures var t, late := Run(s, trace).left, LateNumber(s.left.snd.pc, trace);
      && t.closed
      && t.snd.next == s.left.snd.next + (if late then 1 else 0)
      && (t.snd.pc.Checked? <==> s.left.snd.pc.Checked? && !late)
  {
    hide Next;
    if trace != [] {
      var front, ev := trace[..|trace| - 1], trace[|trace| - 1];
      RunAfterClose(s, front);
      NextAfterClose(Run(s, front), ev);
      assert trace == front + [ev];
    }
  }

  lemma StepRaises(e: Endpoint, a: Action)
    requires !e.closed && Step(e, a).after.closed
    ensures Step(e, a).after.snd == e.snd
  {
  }

  lemma FlagLeavesLoop(s: System, ev: Event)
    requires !s.left.closed && Next(s, ev).left.closed
    ensures Next(s, ev).left.snd == s.left.snd
  {
    hide Step, Receive;
    if ev.who == Right {
      RightLeavesEndpoint(s, ev.move);
    } else if ev.move.Act? {
      StepRaises(s.left, ev.move.a);
    } else {
      NetworkLeavesLoop(s, ev.move);
    }
  }

  /** Once the `closed` flag is up, at most one more payload gets a number: exactly if the send loop
      stood between its look at the flag and the numbering when the flag went up, and goes on. This
      bounds what the peer can ever deliver. */
  lemma NumberedAfterClose(s: System, flag: Event, trace: seq<Event>)
    requires Good(s) && !s.left.closed && Next(s, flag).left.closed
    ensures var t := Run(Next(s, flag), trace);
      && t.left.closed
      && t.left.snd.next == s.left.snd.next + (if LateNumber(s.left.snd.pc, trace) then 1 else 0)
      && |t.right.rcv.delivered| <= t.left.snd.next - 1
  {
    FlagLeavesLoop(s, flag);
    NextKeepsGood(s, flag);
    RunKeepsGood(Next(s, flag), trace);
    RunAfterClose(Next(s, flag), trace);
    var t := Run(Next(s, flag), trace);
    LinkPrefix(t.left.snd, t.right.rcv, t.toRight, t.toLeft);
    hide Good, Next, Run, LateNumber;
  }

  const ABORT: seq<Event> := [Event(Left, Act(AbortNow)), Event(Left, Act(RaiseFlag))]

  /** A payload is taken up, `abort` closes the connection, and only then the number is taken. */
  function LateRun(p: Payload): seq<Event> {
    Opened() + (PickUp(p) + ABORT)
  }

  lemma AbortEffect(s: System)
    requires s.left.state != Closed
    ensures Run(s, ABORT) == s.(left := s.left.(state := Closed, closed := true, reason := Some(Aborted)))
  {
    hide Run;
    RunTwo(s, ABORT[0], ABORT[1]);
  }

  /** The one late number does occur. */
  lemma LateNumberOccurs(left: Config, right: Config, p: Payload)
    requires left.window >= 1 && left.capacity >= 1 && p != []
    ensures var s := Run(Init(left, right), LateRun(p));
      && s.left.closed && s.left.snd.next == 1
      && Next(s, Event(Left, Act(AssignSeq))).left.snd.next == 2
  {
    hide Run;
    OpenedEffect(left, right);
    var s1 := Run(Init(left, right), Opened());
    PickUpEffect(s1, p);
    var s2 := PickedUp(s1, p);
    AbortEffect(s2);
    hide ABORT;
    RunConcat(s1, PickUp(p), ABORT);
    RunConcat(Init(left, right), Opened(), PickUp(p) + ABORT);
  }

  // ----- After a failed send -----

  predicate LoopOver(pc: Pc) {
    pc == Leaving || pc == Stopped
  }

  lemma StepStaysOver(e: Endpoint, a: Action)
    requires LoopOver(e.snd.pc)
    ensures var t := Step(e, a).after.snd;
      && LoopOver(t.pc) && t.next == e.snd.next
      && (e.snd.pc == Stopped ==> t.pc == Stopped && t.accepted == e.snd.accepted)
      && (Step(e, a).out.Some? ==> !Step(e, a).out.value.Data?)
  {
  }

  lemma NextStaysOver(s: System, ev: Event)
    requires LoopOver(s.left.snd.pc)
    ensures var t := Next(s, ev).left.snd;
      && LoopOver(t.pc) && t.next == s.left.snd.next
      && (s.left.snd.pc == Stopped ==> t.pc == Stopped && t.accepted == s.left.snd.accepted)
  {
    if ev.who == Right {
      RightLeavesEndpoint(s, ev.move);
    } else if ev.move.Act? {
      StepStaysOver(s.left, ev.move.a);
    } else {
      NetworkLeavesLoop(s, ev.move);
      NetworkAcceptsNothing(s, ev.move);
    }
    hide Step, Receive;
  }

  lemma NetworkAcceptsNothing(s: System, m: Move)
    requires !m.Act?
    ensures LeftMove(s, m).left.snd.accepted == s.left.snd.accepted
  {
    hide Receive;
    if m.Deliver? {
      ReceiveAcceptsNothing(s.left, m.f, m.reached);
    }
  }

  lemma ReceiveAcceptsNothing(e: Endpoint, f: Frame, reached: bool)
    ensures Receive(e, f, reached).after.snd.accepted == e.snd.accepted
  {
    hide Accept;
  }

  /** A send loop that is over takes no number and sends no DATA frame again, and once it has returned the
      queue takes no payload either. */
  lemma {:induction false} OverForGood(s: System, trace: seq<Event>)
    requires LoopOver(s.left.snd.pc)
    ensures var t := Run(s, trace).left.snd;
      && LoopOver(t.pc) && t.next == s.left.snd.next
      && (s.left.snd.pc == Stopped ==> t.pc == Stopped && t.accepted == s.left.snd.accepted)
  {
    hide Next;
    if trace != [] {
      OverForGood(s, trace[..|trace| - 1]);
      NextStaysOver(Run(s, trace[..|trace| - 1]), trace[|trace| - 1]);
    }
  }

  lemma {:induction false} ClosedForGood(s: System, trace: seq<Event>)
    requires LifeGood(s.left) && LifeGood(s.right) && s.left.state == Closed
    ensures Run(s, trace).left.state == Closed && Run(s, trace).left.reason == s.left.reason
  {
    hide Next, LifeGood;
    if trace != [] {
      ClosedForGood(s, trace[..|trace| - 1]);
      RunKeepsLife(s, trace[..|trace| - 1]);
      NextRises(Run(s, trace[..|trace| - 1]), trace[|trace| - 1]);
    }
  }

  lemma FailedSendCloses(s: System)
    requires LifeGood(s.left) && s.left.snd.pc == Awaiting
    ensures var t := Next(s, Event(Left, Act(SendReturns(false))));
      && t.right == s.right && t.left.snd == s.left.snd.(pc := Leaving) && t.left.state == Closed
      && (s.left.state != Closed ==> t.left.reason == Some(SendFailed))
  {
  }

  /** A first transmission that fails is the last: the connection is closed, for this reason if it was
      not closed yet, and no further payload gets a number, although the frame may have got through. */
  lemma FailedSendIsLast(s: System, trace: seq<Event>)
    requires LifeGood(s.left) && LifeGood(s.right) && s.left.snd.pc == Awaiting
    ensures var t := Run(Next(s, Event(Left, Act(SendReturns(false)))), trace).left;
      && t.state == Closed && LoopOver(t.snd.pc) && t.snd.next == s.left.snd.next
      && (s.left.state != Closed ==> t.reason == Some(SendFailed))
  {
    var ev := Event(Left, Act(SendReturns(false)));
    FailedSendCloses(s);
    NextRises(s, ev);
    OverForGood(Next(s, ev), trace);
    ClosedForGood(Next(s, ev), trace);
    hide Next, Run, LifeGood;
  }

  // ----- Timer rounds after the flag -----

  /** The loop is at its wait for room or for data, or in a round begun because there was no room. */
  predicate InWait(pc: Pc) {
    || pc == WindowCheck || pc == WindowFull || pc == Ready
    || ((pc.Counted? || pc.Round? || pc.Resending?) && pc.blocked)
  }

  /** Timer rounds that `left` begins with room in its window. */
  function RoomyRounds(s: System, trace: seq<Event>): nat {
    if trace == [] then 0
    else
      var front, ev := trace[..|trace| - 1], trace[|trace| - 1];
      RoomyRounds(s, front) + if ev == Event(Left, Act(Tick)) && Run(s, front).left.snd.pc == Ready then 1 else 0
  }

  lemma StepLeavesWait(e: Endpoint, a: Action)
    requires e.closed
    ensures InWait(Step(e, a).after.snd.pc) ==> InWait(e.snd.pc)
    ensures a == Tick && e.snd.pc == Ready ==> !InWait(Step(e, a).after.snd.pc)
  {
  }

  lemma NextLeavesWait(s: System, ev: Event)
    requires s.left.closed
    ensures InWait(Next(s, ev).left.snd.pc) ==> InWait(s.left.snd.pc)
    ensures ev == Event(Left, Act(Tick)) && s.left.snd.pc == Ready ==> !InWait(Next(s, ev).left.snd.pc)
  {
    if ev.who == Right {
      RightLeavesEndpoint(s, ev.move);
    } else if ev.move.Act? {
      StepLeavesWait(s.left, ev.move.a);
    } else {
      NetworkLeavesLoop(s, ev.move);
    }
    hide Step, Receive, InWait;
  }

  /** Once the flag is up, at most one more timer round begins with room in the window: the loop looks at
      the flag before it waits again. */
  lemma {:induction false} OneLateRound(s: System, trace: seq<Event>)
    requires s.left.closed
    ensures RoomyRounds(s, trace) + (if InWait(Run(s, trace).left.snd.pc) then 1 else 0)
         <= if InWait(s.left.snd.pc) then 1 else 0
  {
    hide Next;
    if trace != [] {
      var front := trace[..|trace| - 1];
      OneLateRound(s, front);
      RunAfterClose(s, front);
      NextLeavesWait(Run(s, front), trace[|trace| - 1]);
      assert Run(s, front).left.snd.pc == Ready ==> InWait(Run(s, front).left.snd.pc);
      hide InWait;
    }
  }

  const BLOCKED_ROUND: seq<Event> := [Event(Left, Act(Tick)), Event(Left, Act(CheckWindow))]

  function BlockedRounds(n: nat): seq<Event> {
    if n == 0 then [] else BlockedRounds(n - 1) + BLOCKED_ROUND
  }

  /** `s` with `n` more timer rounds counted by `left`. */
  function Later(s: System, n: nat): System {
    s.(left := s.left.(snd := s.left.snd.(retransCnt := s.left.snd.retransCnt + n)))
  }

  predicate BlockedAndClosed(e: Endpoint) {
    e.snd.pc == WindowFull && !HasRoom(e.snd) && e.state == Closed && e.snd.retransCnt >= e.snd.maxRetransmits
  }

  lemma BlockedRoundEffect(s: System)
    requires BlockedAndClosed(s.left)
    ensures Run(s, BLOCKED_ROUND) == Later(s, 1)
  {
    hide Run;
    RunTwo(s, BLOCKED_ROUND[0], BLOCKED_ROUND[1]);
    var t := Next(s, BLOCKED_ROUND[0]);
    assert t == s.(left := s.left.(snd := s.left.snd.(retransCnt := s.left.snd.retransCnt + 1, pc := WindowCheck)));
  }

  lemma LaterOn(s: System, n: nat)
    requires BlockedAndClosed(s.left)
    ensures BlockedAndClosed(Later(s, n).left) && Later(Later(s, n), 1) == Later(s, n + 1) && Later(s, 0) == s
  {
  }

  /** A loop blocked by a full window does not look at the flag: unless it is notified while it waits, it
      goes on counting rounds on a closed connection, without end. */
  lemma {:induction false} BlockedLoopGoesOn(s: System, n: nat)
    requires BlockedAndClosed(s.left)
    ensures Run(s, BlockedRounds(n)) == Later(s, n)
  {
    hide Later, BlockedAndClosed;
    if n == 0 {
      LaterOn(s, 0);
      assert Run(s, []) == s;
    } else {
      BlockedLoopGoesOn(s, n - 1);
      LaterOn(s, n - 1);
      BlockedRoundEffect(Later(s, n - 1));
      RunConcat(s, BlockedRounds(n - 1), BLOCKED_ROUND);
      hide Run, BLOCKED_ROUND;
    }
  }

  // ----- The loop can always end -----

  function Acts(e: Endpoint, way: seq<Action>): Endpoint
    decreases |way|
  {
    if way == [] then e else Acts(Step(e, way[0]).after, way[1..])
  }

  /** How far the send loop is from its end. */
  function Distance(pc: Pc): nat {
    match pc
    case Stopped => 0
    case Leaving => 1
    case LoopTop => 1
    case WindowFull => 1
    case Ready => 1
    case Taken(_) => 1
    case WindowCheck => 2
    case Awaiting => 2
    case Inserted(_, _) => 3
    case Assigned(_, _) => 4
    case Checked(_) => 5
    case Round(_, todo) => 3 + 2 * |todo|
    case Resending(_, todo, _, _) => 4 + 2 * |todo|
    case Counted(_) => 3
  }

  predicate Nearer(e: Endpoint, t: Endpoint) {
    t.closed && !t.snd.pc.Counted? && Distance(t.snd.pc) < Distance(e.snd.pc)
  }

  predicate InRound(pc: Pc) {
    pc.Round? || pc.Resending?
  }

  lemma RoundWayOut(e: Endpoint) returns (a: Action)
    requires e.closed && InRound(e.snd.pc)
    ensures Nearer(e, Step(e, a).after)
  {
    if e.snd.pc.Resending? {
      a := Resend(true);
    } else if e.snd.pc.todo == {} {
      a := EndRound;
    } else {
      var k :| k in e.snd.pc.todo;
      a := NextFrame(k);
      assert |e.snd.pc.todo - {k}| == |e.snd.pc.todo| - 1;
    }
  }

  lemma WaitWayOut(e: Endpoint) returns (a: Action)
    requires e.closed && (LoopOver(e.snd.pc) || InWait(e.snd.pc) || e.snd.pc == LoopTop || e.snd.pc.Taken?)
    requires e.snd.pc != Stopped && !InRound(e.snd.pc) && !e.snd.pc.Counted?
    ensures Nearer(e, Step(e, a).after)
  {
    a := if e.snd.pc == Leaving then Leave
         else if e.snd.pc == LoopTop then BeginPass
         else if e.snd.pc == WindowCheck then CheckWindow
         else if e.snd.pc.Taken? then CheckFlag
         else CloseNotified;
  }

  lemma SendingWayOut(e: Endpoint) returns (a: Action)
    requires e.closed && (e.snd.pc.Checked? || e.snd.pc.Assigned? || e.snd.pc.Inserted? || e.snd.pc == Awaiting)
    ensures Nearer(e, Step(e, a).after)
  {
    a := if e.snd.pc.Checked? then AssignSeq
         else if e.snd.pc.Assigned? then InsertUnacked
         else if e.snd.pc.Inserted? then FirstSend(true)
         else SendReturns(true);
  }

  lemma NextWayOut(e: Endpoint) returns (a: Action)
    requires e.closed && e.snd.pc != Stopped && !e.snd.pc.Counted?
    ensures Nearer(e, Step(e, a).after)
  {
    hide Step, Nearer;
    if InRound(e.snd.pc) {
      a := RoundWayOut(e);
    } else if LoopOver(e.snd.pc) || InWait(e.snd.pc) || e.snd.pc == LoopTop || e.snd.pc.Taken? {
      a := WaitWayOut(e);
    } else {
      a := SendingWayOut(e);
    }
  }

  lemma {:induction false} WayOutFrom(e: Endpoint) returns (way: seq<Action>)
    requires e.closed && !e.snd.pc.Counted?
    ensures Acts(e, way).snd.pc == Stopped
    decreases Distance(e.snd.pc)
  {
    if e.snd.pc == Stopped {
      way := [];
    } else {
      var a := NextWayOut(e);
      var rest := WayOutFrom(Step(e, a).after);
      way := [a] + rest;
      hide Step, Distance;
    }
  }

  /** Wherever the send loop stands when the flag is up, it can come to its end by its own steps. */
  lemma WayOut(e: Endpoint) returns (way: seq<Action>)
    requires e.closed
    ensures Acts(e, way).snd.pc == Stopped
  {
    if e.snd.pc.Counted? {
      var rest := WayOutFrom(Step(e, Snapshot).after);
      way := [Snapshot] + rest;
    } else {
      way := WayOutFrom(e);
    }
  }
}
