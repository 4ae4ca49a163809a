/** Why a connection closes: exactly which events close it, and which reason each leaves; and how its
    state moves until then. */
module RelayReason {
  import opened Common
  import opened Reassembly
  import opened RelayEndpoint
  import opened RelayProtocol

  /** The reason that a step of the connection's own tasks gives for closing it, should it still be
      open: a failed first transmission, a timer round past the limit, the open timeout, `abort`, or the
      end of `close`. */
  function ActCause(e: Endpoint, a: Action): Option<CloseReason> {
    match a
    case SendReturns(ok) => if e.snd.pc == Awaiting && !ok then Some(SendFailed) else None
    case Tick =>
      if (e.snd.pc == Ready || e.snd.pc == WindowFull) && e.snd.retransCnt >= e.snd.maxRetransmits
      then Some(MaxRetransmit) else None
    case OpenExpires => Some(OpenTimeout)
    case AbortNow => Some(Aborted)
    case FinishClose => if e.closer == CloseSent then Some(LocalClose) else None
    case _ => None
  }

  /** The reason that any event gives for closing `left`: its own steps', or a CLOSE or ERROR frame. */
  function Cause(s: System, ev: Event): Option<CloseReason> {
    if ev.who == Right then None
    else if ev.move.Act? then ActCause(s.left, ev.move.a)
    else if ev.move.Deliver? && ev.move.f == CloseFrame && CloseFrame in s.toLeft then Some(RemoteClose)
    else if ev.move.Deliver? && ev.move.f == ErrorFrame && ErrorFrame in s.toLeft then Some(PeerError)
    else None
  }

  /** `t` is `e` after an event that gave the reason `c`, or none. */
  predicate ClosedFor(e: Endpoint, t: Endpoint, c: Option<CloseReason>) {
    && (t.state == Closed <==> e.state == Closed || c.Some?)
    && t.reason == if e.state != Closed && c.Some? then c else e.reason
  }

  predicate MayClose(a: Action) {
    a.SendReturns? || a.Tick? || a.OpenExpires? || a.AbortNow? || a.FinishClose?
  }

  lemma ClosersClose(e: Endpoint, a: Action)
    requires MayClose(a)
    ensures ClosedFor(e, Step(e, a).after, ActCause(e, a))
  {
  }

  lemma OthersDoNotClose(e: Endpoint, a: Action)
    requires !MayClose(a)
    ensures ClosedFor(e, Step(e, a).after, ActCause(e, a))
  {
  }

  lemma ActCloses(e: Endpoint, a: Action)
    ensures ClosedFor(e, Step(e, a).after, ActCause(e, a))
  {
    hide ClosedFor, Step, ActCause;
    if MayClose(a) { ClosersClose(e, a); } else { OthersDoNotClose(e, a); }
  }

  lemma FrameCloses(s: System, f: Frame, reached: bool)
    requires f in s.toLeft
    ensures ClosedFor(s.left, Receive(s.left, f, reached).after, Cause(s, Event(Left, Deliver(f, reached))))
  {
    hide Accept, Acknowledge;
  }

  lemma NextCloses(s: System, ev: Event)
    ensures ClosedFor(s.left, Next(s, ev).left, Cause(s, ev))
  {
    if ev.who == Right {
      RightLeavesEndpoint(s, ev.move);
    } else if ev.move.Act? {
      ActCloses(s.left, ev.move.a);
    } else if ev.move.Deliver? && ev.move.f in s.toLeft {
      FrameCloses(s, ev.move.f, ev.move.reached);
    }
    hide Step, Receive, ActCause;
  }

  /** Event `i` closes `left`, which was not closed yet, for this reason. */
  predicate ClosesAt(s: System, trace: seq<Event>, i: nat, why: CloseReason) {
    i < |trace| && Run(s, trace[..i]).left.state != Closed && Cause(Run(s, trace[..i]), trace[i]) == Some(why)
  }

  lemma ClosesBefore(s: System, front: seq<Event>, ev: Event, i: nat, why: CloseReason)
    ensures i < |front| ==> (ClosesAt(s, front + [ev], i, why) <==> ClosesAt(s, front, i, why))
    ensures ClosesAt(s, front + [ev], |front|, why)
       <==> Run(s, front).left.state != Closed && Cause(Run(s, front), ev) == Some(why)
  {
    var trace := front + [ev];
    assert i < |front| ==> trace[..i] == front[..i];
    assert trace[..|front|] == front;
    hide Run, Cause;
  }

  lemma NothingCloses(s: System, why: CloseReason)
    ensures Run(s, []) == s && forall i: nat :: !ClosesAt(s, [], i, why)
  {
  }

  lemma NextReason(s: System, front: seq<Event>, ev: Event, why: CloseReason)
    requires LifeGood(Run(s, front).left)
    ensures Run(s, front + [ev]).left.reason == Some(why)
       <==> Run(s, front).left.reason == Some(why) || ClosesAt(s, front + [ev], |front|, why)
  {
    RunSnoc(s, front, ev);
    NextCloses(Run(s, front), ev);
    ClosesBefore(s, front, ev, |front|, why);
    hide Run, Next, Cause, ClosesAt;
  }

  /** The reason of closing is the one of the event that closed the connection, and there is no closing
      without such an event. */
  lemma {:induction false} ReasonIff(s: System, trace: seq<Event>, why: CloseReason)
    requires LifeGood(s.left) && LifeGood(s.right) && s.left.state != Closed
    ensures Run(s, trace).left.reason == Some(why) <==> exists i: nat :: ClosesAt(s, trace, i, why)
    ensures Run(s, trace).left.state == Closed <==> Run(s, trace).left.reason.Some?
  {
    hide Run, ClosesAt;
    RunKeepsLife(s, trace);
    if trace == [] {
      NothingCloses(s, why);
    } else {
      var front, ev := trace[..|trace| - 1], trace[|trace| - 1];
      assert trace == front + [ev];
      ReasonIff(s, front, why);
      RunKeepsLife(s, front);
      NextReason(s, front, ev, why);
      SomeCloses(s, front, ev, why);
    }
  }

  lemma SomeCloses(s: System, front: seq<Event>, ev: Event, why: CloseReason)
    ensures (exists i: nat :: ClosesAt(s, front + [ev], i, why))
       <==> (exists i: nat :: ClosesAt(s, front, i, why)) || ClosesAt(s, front + [ev], |front|, why)
  {
    if i: nat :| ClosesAt(s, front + [ev], i, why) {
      assert i <= |front|;
      ClosesBefore(s, front, ev, i, why);
    }
    if i: nat :| ClosesAt(s, front, i, why) {
      ClosesBefore(s, front, ev, i, why);
    }
    hide Run, Cause;
  }

  // ----- The state until then -----

  /** An OPEN_ACK finds `left` waiting for it. */
  predicate Opens(s: System, ev: Event) {
    ev.who == Left && ev.move.Deliver? && ev.move.f == OpenAck && OpenAck in s.toLeft && s.left.state == Opening
  }

  /** `close` finds `left` open. */
  predicate BeginsToClose(s: System, ev: Event) {
    ev == Event(Left, Act(BeginClose)) && s.left.state == Open
  }

  predicate OpensAt(s: System, trace: seq<Event>, i: nat) {
    i < |trace| && Opens(Run(s, trace[..i]), trace[i])
  }

  predicate BeginsAt(s: System, trace: seq<Event>, i: nat) {
    i < |trace| && BeginsToClose(Run(s, trace[..i]), trace[i])
  }

  /** The next state, unless the connection is closed. */
  predicate Moved(s: System, ev: Event, state: ConnState) {
    state == Closed || state == if Opens(s, ev) then Open else if BeginsToClose(s, ev) then Closing else s.left.state
  }

  lemma ActMoves(s: System, a: Action)
    ensures Moved(s, Event(Left, Act(a)), Step(s.left, a).after.state)
  {
  }

  lemma FrameMoves(s: System, f: Frame, reached: bool)
    requires f in s.toLeft
    ensures Moved(s, Event(Left, Deliver(f, reached)), Receive(s.left, f, reached).after.state)
  {
    hide Accept, Acknowledge;
  }

  lemma NextMoves(s: System, ev: Event)
    ensures Moved(s, ev, Next(s, ev).left.state)
    ensures s.left.state == Closed ==> Next(s, ev).left.state == Closed
  {
    NextCloses(s, ev);
    if ev.who == Right {
      RightLeavesEndpoint(s, ev.move);
    } else if ev.move.Act? {
      ActMoves(s, ev.move.a);
    } else if ev.move.Deliver? && ev.move.f in s.toLeft {
      FrameMoves(s, ev.move.f, ev.move.reached);
    }
    hide Step, Receive, Cause;
  }

  lemma MovesBefore(s: System, front: seq<Event>, ev: Event, i: nat)
    ensures i < |front| ==> (OpensAt(s, front + [ev], i) <==> OpensAt(s, front, i))
    ensures i < |front| ==> (BeginsAt(s, front + [ev], i) <==> BeginsAt(s, front, i))
    ensures OpensAt(s, front + [ev], |front|) <==> Opens(Run(s, front), ev)
    ensures BeginsAt(s, front + [ev], |front|) <==> BeginsToClose(Run(s, front), ev)
  {
    var trace := front + [ev];
    assert i < |front| ==> trace[..i] == front[..i];
    assert trace[..|front|] == front;
    hide Run, Opens, BeginsToClose;
  }

  ghost predicate EverOpens(s: System, trace: seq<Event>) {
    exists i: nat :: OpensAt(s, trace, i)
  }

  ghost predicate EverBegins(s: System, trace: seq<Event>) {
    exists i: nat :: BeginsAt(s, trace, i)
  }

  lemma EverSnoc(s: System, front: seq<Event>, ev: Event)
    ensures EverOpens(s, front + [ev]) <==> EverOpens(s, front) || Opens(Run(s, front), ev)
    ensures EverBegins(s, front + [ev]) <==> EverBegins(s, front) || BeginsToClose(Run(s, front), ev)
  {
    hide Run, Opens, BeginsToClose, OpensAt, BeginsAt;
    var trace := front + [ev];
    forall i: nat | i <= |front|
      ensures i < |front| ==> (OpensAt(s, trace, i) <==> OpensAt(s, front, i))
      ensures i < |front| ==> (BeginsAt(s, trace, i) <==> BeginsAt(s, front, i))
    {
      MovesBefore(s, front, ev, i);
    }
    MovesBefore(s, front, ev, |front|);
    OnlyWithin(s, front);
    OnlyWithin(s, trace);
  }

  lemma OnlyWithin(s: System, trace: seq<Event>)
    ensures forall i: nat :: OpensAt(s, trace, i) || BeginsAt(s, trace, i) ==> i < |trace|
  {
  }

  lemma NothingYet(s: System)
    ensures Run(s, []) == s && !EverOpens(s, []) && !EverBegins(s, [])
  {
  }

  /** Until it is closed, `left` is Opening exactly as long as no OPEN_ACK has arrived, and Closing exactly
      once `close` has found it open. */
  lemma {:induction false} StateIff(s: System, trace: seq<Event>)
    requires s.left.state == Opening || s.left.state == Open
    ensures var state := Run(s, trace).left.state;
      state != Closed ==>
        && (state == Opening <==> s.left.state == Opening && !EverOpens(s, trace))
        && (state == Closing <==> EverBegins(s, trace))
  {
    hide Run, Next, EverOpens, EverBegins;
    if trace == [] {
      NothingYet(s);
    } else {
      var front, ev := trace[..|trace| - 1], trace[|trace| - 1];
      assert trace == front + [ev];
      StateIff(s, front);
      RunSnoc(s, front, ev);
      NextMoves(Run(s, front), ev);
      EverSnoc(s, front, ev);
    }
  }

  lemma PingAnswered(s: System)
    requires Ping in s.toRight
    ensures var t := Next(s, Event(Right, Deliver(Ping, true)));
      t.left == s.left && ErrorFrame in t.toLeft
  {
    hide Accept, Acknowledge;
  }

  lemma ErrorCloses(s: System, reached: bool)
    requires ErrorFrame in s.toLeft
    ensures Cause(s, Event(Left, Deliver(ErrorFrame, reached))) == Some(PeerError)
  {
  }

  /** A PING is fatal for the end that sent it: the ERROR frame that answers it closes the connection. */
  lemma PingIsFatal(s: System, reached: bool)
    requires Ping in s.toRight
    ensures var t := Run(s, [Event(Right, Deliver(Ping, true)), Event(Left, Deliver(ErrorFrame, reached))]);
      t.left.state == Closed && (s.left.state != Closed ==> t.left.reason == Some(PeerError))
  {
    hide Run, Next, Cause;
    var x, y := Event(Right, Deliver(Ping, true)), Event(Left, Deliver(ErrorFrame, reached));
    RunTwo(s, x, y);
    PingAnswered(s);
    NextCloses(Next(s, x), y);
    ErrorCloses(Next(s, x), reached);
  }
}
