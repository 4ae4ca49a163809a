/** One end of a `ReliableOrdered` relay connection, as a value, and its steps.

    A step is a stretch of code between two points where another task may get in: the send loop holds
    no lock between taking a payload, looking at the `closed` flag, taking a number, storing the frame
    and sending it, nor between the frames of a retransmission round, so an ACK may arrive or the flag
    go up at any of these points. `Pc` is the place where the send-loop task stands. A step asked for
    at the wrong place changes nothing. */
module RelayEndpoint {
  import opened Common
  import opened Reassembly

  datatype ConnState = Opening | Open | Closing | Closed

  datatype CloseReason =
    | LocalClose | RemoteClose | PeerError | MaxRetransmit | SendFailed | OpenTimeout | Aborted

  datatype Frame =
    | Data(seqNo: nat, payload: Payload)
    | Ack(ackSeq: nat)
    | CloseFrame
    | ErrorFrame
    | OpenAck
    | Ping

  datatype UnackedFrame = UnackedFrame(data: Payload, retransmit: nat)

  datatype Pc =
    | LoopTop
    | WindowCheck
    | WindowFull
    | Ready
    | Taken(data: Payload)
    | Checked(data: Payload)
    | Assigned(seqNo: nat, data: Payload)
    | Inserted(seqNo: nat, data: Payload)
    | Awaiting
    | Counted(blocked: bool)
    | Round(blocked: bool, todo: set<nat>)
    | Resending(blocked: bool, todo: set<nat>, seqNo: nat, data: Payload)
    | Leaving
    | Stopped

  /** `entering` are callers of `send` that found the connection Open and have yet to look at the
      `closed` flag, `waiting` those that passed both checks and wait for room in `queue`; `accepted`
      logs what has entered the queue so far. */
  datatype Sender = Sender(
    window: nat, maxRetransmits: nat, capacity: nat,
    base: nat, next: nat, retransCnt: nat,
    unacked: map<nat, UnackedFrame>,
    entering: multiset<Payload>, waiting: multiset<Payload>,
    queue: seq<Payload>, accepted: seq<Payload>,
    pc: Pc)

  /** How far a running `close()` has come. */
  datatype Closer = NotClosing | SendingClose | CloseSent

  datatype Endpoint = Endpoint(
    snd: Sender, rcv: Receiver,
    state: ConnState, closed: bool, reason: Option<CloseReason>, closer: Closer)

  /** `reached` says whether the frame got into the network, `ok` whether the transport later reports
      success; a send that timed out may have reached the network all the same, and its ACK may be
      back before the report. */
  datatype Action =
    | Send(data: Payload)
    | CheckSend(data: Payload)
    | Enqueue(data: Payload)
    | GiveUp(data: Payload)
    | BeginPass
    | CheckWindow
    | CloseNotified
    | TakeData
    | CheckFlag
    | AssignSeq
    | InsertUnacked
    | FirstSend(reached: bool)
    | SendReturns(ok: bool)
    | Leave
    | Tick
    | Snapshot
    | NextFrame(seqNo: nat)
    | Resend(reached: bool)
    | EndRound
    | OpenExpires
    | AbortNow
    | RaiseFlag
    | BeginClose
    | SendClose(reached: bool)
    | FinishClose

  datatype Effect = Effect(after: Endpoint, out: Option<Frame>)

  function Quiet(e: Endpoint): Effect {
    Effect(e, None)
  }

  function Emit(e: Endpoint, f: Frame, reached: bool): Effect {
    Effect(e, if reached then Some(f) else None)
  }

  /** The locked part of `handle_close`: only the first caller gets past it. */
  function MarkClosed(e: Endpoint, why: CloseReason): Endpoint {
    if e.state == Closed then e else e.(state := Closed, reason := Some(why))
  }

  function SetPc(e: Endpoint, pc: Pc): Endpoint {
    e.(snd := e.snd.(pc := pc))
  }

  function AfterRound(blocked: bool): Pc {
    if blocked then WindowCheck else LoopTop
  }

  /** `next_seq - send_base` is unsigned: below zero it wraps to a huge number, never under the window. */
  predicate HasRoom(s: Sender) {
    s.base <= s.next && s.next - s.base < s.window
  }

  function Fresh(window: nat, maxRetransmits: nat, capacity: nat, state: ConnState): Endpoint {
    Endpoint(
      Sender(window, maxRetransmits, capacity, 1, 1, 0, map[],
             multiset{}, multiset{}, [], [], LoopTop),
      Receiver(window, 1, map[], []),
      state, false, None, NotClosing)
  }

  // ----- The application side: `send` -----

  /** The first check of `send`, under the state lock; an empty payload needs nothing. */
  function SendStep(e: Endpoint, data: Payload): Endpoint {
    if data == [] || e.state != Open then e
    else e.(snd := e.snd.(entering := e.snd.entering + multiset{data}))
  }

  /** The second check, of the `closed` flag; a caller that passes waits for room in the queue. */
  function CheckSendStep(e: Endpoint, data: Payload): Endpoint {
    var s := e.snd;
    if data !in s.entering then e
    else e.(snd := s.(entering := s.entering - multiset{data},
                      waiting := if e.closed then s.waiting else s.waiting + multiset{data}))
  }

  function EnqueueStep(e: Endpoint, data: Payload): Endpoint {
    var s := e.snd;
    if data in s.waiting && |s.queue| < s.capacity && s.pc != Stopped then
      e.(snd := s.(waiting := s.waiting - multiset{data},
                   queue := s.queue + [data],
                   accepted := s.accepted + [data]))
    else e
  }

  function GiveUpStep(e: Endpoint, data: Payload): Endpoint {
    e.(snd := e.snd.(waiting := e.snd.waiting - multiset{data}))
  }

  // ----- The send loop -----

  function BeginPassStep(e: Endpoint): Endpoint {
    if e.snd.pc != LoopTop then e else SetPc(e, if e.closed then Stopped else WindowCheck)
  }

  function CheckWindowStep(e: Endpoint): Endpoint {
    if e.snd.pc != WindowCheck then e else SetPc(e, if HasRoom(e.snd) then Ready else WindowFull)
  }

  function CloseNotifiedStep(e: Endpoint): Endpoint {
    if e.closed && (e.snd.pc == WindowFull || e.snd.pc == Ready) then SetPc(e, Stopped) else e
  }

  function TakeDataStep(e: Endpoint): Endpoint {
    var s := e.snd;
    if s.pc != Ready || s.queue == [] then e
    else e.(snd := s.(queue := s.queue[1..], pc := Taken(s.queue[0])))
  }

  function CheckFlagStep(e: Endpoint): Endpoint {
    if !e.snd.pc.Taken? then e else SetPc(e, if e.closed then Stopped else Checked(e.snd.pc.data))
  }

  function AssignSeqStep(e: Endpoint): Endpoint {
    var s := e.snd;
    if !s.pc.Checked? then e
    else e.(snd := s.(next := s.next + 1, pc := Assigned(s.next, s.pc.data)))
  }

  function InsertStep(e: Endpoint): Endpoint {
    var s := e.snd;
    if !s.pc.Assigned? then e
    else e.(snd := s.(unacked := s.unacked[s.pc.seqNo := UnackedFrame(s.pc.data, 0)],
                      pc := Inserted(s.pc.seqNo, s.pc.data)))
  }

  function FirstSendStep(e: Endpoint, reached: bool): Effect {
    if !e.snd.pc.Inserted? then Quiet(e)
    else Emit(SetPc(e, Awaiting), Data(e.snd.pc.seqNo, e.snd.pc.data), reached)
  }

  function SendReturnsStep(e: Endpoint, ok: bool): Endpoint {
    if e.snd.pc != Awaiting then e
    else if ok then SetPc(e, LoopTop)
    else MarkClosed(SetPc(e, Leaving), SendFailed)
  }

  /** The loop returns after its `handle_close`; until then the queue still takes payloads. */
  function LeaveStep(e: Endpoint): Endpoint {
    if e.snd.pc == Leaving then SetPc(e, Stopped) else e
  }

  // ----- `retransmit` -----

  function TickStep(e: Endpoint): Endpoint {
    var s := e.snd;
    if s.pc != Ready && s.pc != WindowFull then e
    else
      var blocked := s.pc == WindowFull;
      if s.retransCnt + 1 > s.maxRetransmits then
        MarkClosed(e.(snd := s.(retransCnt := s.retransCnt + 1, pc := AfterRound(blocked))), MaxRetransmit)
      else
        e.(snd := s.(retransCnt := s.retransCnt + 1, pc := Counted(blocked)))
  }

  function SnapshotStep(e: Endpoint): Endpoint {
    if !e.snd.pc.Counted? then e else SetPc(e, Round(e.snd.pc.blocked, e.snd.unacked.Keys))
  }

  function NextFrameStep(e: Endpoint, seqNo: nat): Endpoint {
    var s := e.snd;
    if !s.pc.Round? || seqNo !in s.pc.todo then e
    else
      var rest := s.pc.todo - {seqNo};
      if seqNo !in s.unacked then SetPc(e, Round(s.pc.blocked, rest))
      else
        var f := s.unacked[seqNo];
        e.(snd := s.(unacked := s.unacked[seqNo := f.(retransmit := f.retransmit + 1)],
                     pc := Resending(s.pc.blocked, rest, seqNo, f.data)))
  }

  function ResendStep(e: Endpoint, reached: bool): Effect {
    var pc := e.snd.pc;
    if !pc.Resending? then Quiet(e)
    else Emit(SetPc(e, Round(pc.blocked, pc.todo)), Data(pc.seqNo, pc.data), reached)
  }

  function EndRoundStep(e: Endpoint): Endpoint {
    var pc := e.snd.pc;
    if pc.Round? && pc.todo == {} then SetPc(e, AfterRound(pc.blocked)) else e
  }

  // ----- Closing -----

  function RaiseFlagStep(e: Endpoint): Endpoint {
    if e.state == Closed then e.(closed := true) else e
  }

  function BeginCloseStep(e: Endpoint): Endpoint {
    if e.state == Open then e.(state := Closing, closer := SendingClose) else e
  }

  function SendCloseStep(e: Endpoint, reached: bool): Effect {
    if e.closer == SendingClose then Emit(e.(closer := CloseSent), CloseFrame, reached) else Quiet(e)
  }

  function FinishCloseStep(e: Endpoint): Endpoint {
    if e.closer == CloseSent then MarkClosed(e.(closer := NotClosing), LocalClose) else e
  }

  function Step(e: Endpoint, a: Action): Effect {
    match a
    case Send(data) => Quiet(SendStep(e, data))
    case CheckSend(data) => Quiet(CheckSendStep(e, data))
    case Enqueue(data) => Quiet(EnqueueStep(e, data))
    case GiveUp(data) => Quiet(GiveUpStep(e, data))
    case BeginPass => Quiet(BeginPassStep(e))
    case CheckWindow => Quiet(CheckWindowStep(e))
    case CloseNotified => Quiet(CloseNotifiedStep(e))
    case TakeData => Quiet(TakeDataStep(e))
    case CheckFlag => Quiet(CheckFlagStep(e))
    case AssignSeq => Quiet(AssignSeqStep(e))
    case InsertUnacked => Quiet(InsertStep(e))
    case FirstSend(reached) => FirstSendStep(e, reached)
    case SendReturns(ok) => Quiet(SendReturnsStep(e, ok))
    case Leave => Quiet(LeaveStep(e))
    case Tick => Quiet(TickStep(e))
    case Snapshot => Quiet(SnapshotStep(e))
    case NextFrame(seqNo) => Quiet(NextFrameStep(e, seqNo))
    case Resend(reached) => ResendStep(e, reached)
    case EndRound => Quiet(EndRoundStep(e))
    case OpenExpires => Quiet(MarkClosed(e, OpenTimeout))
    case AbortNow => Quiet(MarkClosed(e, Aborted))
    case RaiseFlag => Quiet(RaiseFlagStep(e))
    case BeginClose => Quiet(BeginCloseStep(e))
    case SendClose(reached) => SendCloseStep(e, reached)
    case FinishClose => Quiet(FinishCloseStep(e))
  }

  /** The sender's reaction to ACK `ackSeq`, taken as acknowledging everything up to it. */
  function Acknowledge(s: Sender, ackSeq: nat): Sender {
    if ackSeq < s.base then s
    else s.(unacked := map k | k in s.unacked && !(s.base <= k <= ackSeq) :: s.unacked[k],
            base := ackSeq + 1,
            retransCnt := 0)
  }

  /** An arriving frame. A DATA frame is answered with an ACK of that very frame, buffered or not, and
      a PING with an ERROR frame. */
  function Receive(e: Endpoint, f: Frame, reached: bool): Effect {
    match f
    case Data(seqNo, payload) => Emit(e.(rcv := Accept(e.rcv, seqNo, payload)), Ack(seqNo), reached)
    case Ack(ackSeq) => Quiet(e.(snd := Acknowledge(e.snd, ackSeq)))
    case CloseFrame => Quiet(MarkClosed(e, RemoteClose))
    case ErrorFrame => Quiet(MarkClosed(e, PeerError))
    case OpenAck => if e.state == Opening then Quiet(e.(state := Open)) else Quiet(e)
    case Ping => Emit(e, ErrorFrame, reached)
  }

  // ----- What every step of one end keeps, whatever the peer does -----

  /** The first number that has not been sent yet. */
  function FirstUnsent(s: Sender): nat
    requires s.next >= 1
  {
    if s.pc.Assigned? || s.pc.Inserted? then s.next - 1 else s.next
  }

  /** One past the last number stored in `unacked`. */
  function StoredTo(s: Sender): nat
    requires s.next >= 1
  {
    if s.pc.Assigned? then s.next - 1 else s.next
  }

  /** The accepted payloads that have no number yet: the one the loop has in its hands, then the queue. */
  function Backlog(s: Sender): seq<Payload> {
    if s.pc.Taken? || s.pc.Checked? then [s.pc.data] + s.queue else s.queue
  }

  ghost predicate PcGood(s: Sender)
    requires 1 <= s.next <= |s.accepted| + 1
  {
    match s.pc
    case Ready => s.next < s.base + s.window
    case Taken(_) => s.next < s.base + s.window
    case Checked(_) => s.next < s.base + s.window
    case Assigned(n, d) => n == s.next - 1 && n >= 1 && d == s.accepted[n - 1]
    case Inserted(n, d) => n == s.next - 1 && n >= 1 && d == s.accepted[n - 1]
    case Round(_, todo) => forall k :: k in todo ==> k < s.next
    case Resending(_, todo, n, d) =>
      1 <= n < s.next && d == s.accepted[n - 1] && forall k :: k in todo ==> k < s.next
    case _ => true
  }

  /** The window bookkeeping of the sender: `unacked` holds exactly the numbers from `send_base` up to
      the last one stored, each with the payload accepted for it. */
  ghost predicate SenderGood(s: Sender) {
    && 1 <= s.next <= |s.accepted| + 1
    && 1 <= s.base <= FirstUnsent(s)
    && s.next <= s.base + s.window
    && (s.pc != Stopped ==> Backlog(s) == s.accepted[s.next - 1..])
    && (forall k: nat :: k in s.unacked <==> s.base <= k < StoredTo(s))
    && (forall k :: k in s.unacked ==> s.unacked[k].data == s.accepted[k - 1])
    && PcGood(s)
  }

  /** A frame on its way from this sender is the original one. */
  ghost predicate GoodOut(s: Sender, f: Frame)
    requires SenderGood(s)
  {
    f.Data? ==> 1 <= f.seqNo < FirstUnsent(s) && f.payload == s.accepted[f.seqNo - 1]
  }

  ghost predicate Extends(s: Sender, t: Sender)
    requires SenderGood(s) && SenderGood(t)
  {
    && s.accepted <= t.accepted
    && s.base <= t.base
    && FirstUnsent(s) <= FirstUnsent(t)
    && s.window == t.window && s.maxRetransmits == t.maxRetransmits
  }

  /** `t` is a good successor of `s`, having put `out` on the wire. */
  ghost predicate GoodMove(s: Sender, t: Sender, out: Option<Frame>)
    requires SenderGood(s)
  {
    && SenderGood(t) && Extends(s, t)
    && (out.Some? ==> !out.value.Ack? && GoodOut(t, out.value))
  }

  ghost predicate BetweenSends(s: Sender) {
    !s.pc.Taken? && !s.pc.Checked? && !s.pc.Assigned? && !s.pc.Inserted?
  }

  /** Moving the send loop along, with nothing but the retransmission counter changed. */
  lemma MoveKeepsSender(s: Sender, t: Sender)
    requires SenderGood(s) && BetweenSends(s) && BetweenSends(t)
    requires t == s.(pc := t.pc, retransCnt := t.retransCnt)
    requires PcGood(t) && (s.pc == Stopped ==> t.pc == Stopped)
    ensures GoodMove(s, t, None)
  {
  }

  lemma EnqueueKeepsSender(e: Endpoint, data: Payload)
    requires SenderGood(e.snd)
    ensures GoodMove(e.snd, EnqueueStep(e, data).snd, None)
  {
  }

  lemma TakeDataKeepsSender(e: Endpoint)
    requires SenderGood(e.snd)
    ensures GoodMove(e.snd, TakeDataStep(e).snd, None)
  {
  }

  lemma CheckFlagKeepsSender(e: Endpoint)
    requires SenderGood(e.snd)
    ensures GoodMove(e.snd, CheckFlagStep(e).snd, None)
  {
  }

  lemma AssignSeqKeepsSender(e: Endpoint)
    requires SenderGood(e.snd)
    ensures GoodMove(e.snd, AssignSeqStep(e).snd, None)
  {
  }

  lemma InsertKeepsSender(e: Endpoint)
    requires SenderGood(e.snd)
    ensures GoodMove(e.snd, InsertStep(e).snd, None)
  {
  }

  lemma NextFrameKeepsSender(e: Endpoint, seqNo: nat)
    requires SenderGood(e.snd)
    ensures GoodMove(e.snd, NextFrameStep(e, seqNo).snd, None)
  {
  }

  lemma SendReturnsKeepsSender(e: Endpoint, ok: bool)
    requires SenderGood(e.snd)
    ensures GoodMove(e.snd, SendReturnsStep(e, ok).snd, None)
  {
  }

  lemma LeaveKeepsSender(e: Endpoint)
    requires SenderGood(e.snd)
    ensures GoodMove(e.snd, LeaveStep(e).snd, None)
  {
  }

  lemma FirstSendKeepsSender(e: Endpoint, reached: bool)
    requires SenderGood(e.snd)
    ensures var f := FirstSendStep(e, reached); GoodMove(e.snd, f.after.snd, f.out)
  {
  }

  lemma ResendKeepsSender(e: Endpoint, reached: bool)
    requires SenderGood(e.snd)
    ensures var f := ResendStep(e, reached); GoodMove(e.snd, f.after.snd, f.out)
  {
  }

  lemma BeginPassKeepsSender(e: Endpoint)
    requires SenderGood(e.snd)
    ensures GoodMove(e.snd, BeginPassStep(e).snd, None)
  {
  }

  lemma CheckWindowKeepsSender(e: Endpoint)
    requires SenderGood(e.snd)
    ensures GoodMove(e.snd, CheckWindowStep(e).snd, None)
  {
  }

  lemma CloseNotifiedKeepsSender(e: Endpoint)
    requires SenderGood(e.snd)
    ensures GoodMove(e.snd, CloseNotifiedStep(e).snd, None)
  {
  }

  lemma TickKeepsSender(e: Endpoint)
    requires SenderGood(e.snd)
    ensures GoodMove(e.snd, TickStep(e).snd, None)
  {
    if BetweenSends(e.snd) {
      MoveKeepsSender(e.snd, TickStep(e).snd);
    }
  }

  lemma SnapshotKeepsSender(e: Endpoint)
    requires SenderGood(e.snd)
    ensures GoodMove(e.snd, SnapshotStep(e).snd, None)
  {
  }

  lemma EndRoundKeepsSender(e: Endpoint)
    requires SenderGood(e.snd)
    ensures GoodMove(e.snd, EndRoundStep(e).snd, None)
  {
  }

  lemma QueuersDoNotMatter(s: Sender, entering: multiset<Payload>, waiting: multiset<Payload>, out: Option<Frame>)
    requires SenderGood(s) && (out.Some? ==> !out.value.Ack? && !out.value.Data?)
    ensures GoodMove(s, s.(entering := entering, waiting := waiting), out)
  {
  }

  predicate Standing(a: Action) {
    || a.Send? || a.CheckSend? || a.GiveUp? || a.OpenExpires? || a.AbortNow?
    || a.RaiseFlag? || a.BeginClose? || a.SendClose? || a.FinishClose?
  }

  lemma StandingLeavesSender(e: Endpoint, a: Action)
    requires Standing(a)
    ensures var t, out := Step(e, a).after.snd, Step(e, a).out;
      && t == e.snd.(entering := t.entering, waiting := t.waiting)
      && (out.Some? ==> out.value == CloseFrame)
  {
  }

  lemma StandingKeepsSender(e: Endpoint, a: Action)
    requires SenderGood(e.snd) && Standing(a)
    ensures var f := Step(e, a); GoodMove(e.snd, f.after.snd, f.out)
  {
    StandingLeavesSender(e, a);
    hide SenderGood, GoodMove, Step;
    var f := Step(e, a);
    QueuersDoNotMatter(e.snd, f.after.snd.entering, f.after.snd.waiting, f.out);
  }

  /** No step of one end, in whatever order, breaks the sender's bookkeeping or sends a wrong frame. */
  lemma StepKeepsSender(e: Endpoint, a: Action)
    requires SenderGood(e.snd)
    ensures var f := Step(e, a); GoodMove(e.snd, f.after.snd, f.out) && f.after.rcv == e.rcv
  {
    hide GoodMove, SenderGood;
    match a
    case Enqueue(data) => EnqueueKeepsSender(e, data);
    case TakeData => TakeDataKeepsSender(e);
    case CheckFlag => CheckFlagKeepsSender(e);
    case AssignSeq => AssignSeqKeepsSender(e);
    case InsertUnacked => InsertKeepsSender(e);
    case NextFrame(seqNo) => NextFrameKeepsSender(e, seqNo);
    case FirstSend(reached) => FirstSendKeepsSender(e, reached);
    case SendReturns(ok) => SendReturnsKeepsSender(e, ok);
    case Leave => LeaveKeepsSender(e);
    case Resend(reached) => ResendKeepsSender(e, reached);
    case BeginPass => BeginPassKeepsSender(e);
    case CheckWindow => CheckWindowKeepsSender(e);
    case CloseNotified => CloseNotifiedKeepsSender(e);
    case Tick => TickKeepsSender(e);
    case Snapshot => SnapshotKeepsSender(e);
    case EndRound => EndRoundKeepsSender(e);
    case _ => StandingKeepsSender(e, a);
  }

  /** An ACK keeps the bookkeeping exactly if it names a number that has been sent. */
  lemma AcknowledgeKeepsSender(s: Sender, ackSeq: nat)
    requires SenderGood(s)
    ensures var t := Acknowledge(s, ackSeq);
      && (SenderGood(t) <==> ackSeq < FirstUnsent(s))
      && (SenderGood(t) ==> Extends(s, t))
  {
  }

  /** No arriving frame moves the send loop, takes a number or touches the `closed` flag. */
  lemma ReceiveLeavesLoop(e: Endpoint, f: Frame, reached: bool)
    ensures var g := Receive(e, f, reached).after;
      g.snd.pc == e.snd.pc && g.snd.next == e.snd.next && g.closed == e.closed
  {
    hide Accept;
  }

  /** An arriving frame can only move the window on, and is never answered with data. */
  lemma ReceiveAnswers(e: Endpoint, f: Frame, reached: bool)
    ensures var g := Receive(e, f, reached);
      && g.after.snd.base == (if f.Ack? && f.ackSeq >= e.snd.base then f.ackSeq + 1 else e.snd.base)
      && (!f.Data? ==> g.after.rcv == e.rcv)
      && (g.out.Some? ==> !g.out.value.Data?)
      && (!f.Data? && !f.Ack? ==>
            g.after.snd == e.snd && (g.out.Some? ==> !g.out.value.Ack?))
  {
    hide Accept;
  }

  predicate SameSettings(e: Endpoint, f: Endpoint) {
    && e.snd.window == f.snd.window && e.snd.maxRetransmits == f.snd.maxRetransmits
    && e.snd.capacity == f.snd.capacity && e.rcv.window == f.rcv.window
  }

  lemma ReceiveKeepsSettings(e: Endpoint, f: Frame, reached: bool)
    ensures SameSettings(e, Receive(e, f, reached).after)
  {
    hide Accept;
  }

  // ----- The lifecycle -----

  function Rank(c: ConnState): nat {
    match c case Opening => 0 case Open => 1 case Closing => 2 case Closed => 3
  }

  /** The flag and the end of the send loop both mean that the connection is closed, and a closed
      connection has its reason. */
  predicate LifeGood(e: Endpoint) {
    && (e.closed ==> e.state == Closed)
    && (e.snd.pc == Leaving || e.snd.pc == Stopped ==> e.state == Closed)
    && (e.state == Closed <==> e.reason.Some?)
  }

  /** The state only rises; once closed, state and reason are frozen. */
  predicate Rises(e: Endpoint, f: Endpoint) {
    && Rank(e.state) <= Rank(f.state)
    && (e.closed ==> f.closed)
    && (e.state == Closed ==> f.state == Closed && f.reason == e.reason)
  }

  lemma StepRises(e: Endpoint, a: Action)
    requires LifeGood(e)
    ensures LifeGood(Step(e, a).after) && Rises(e, Step(e, a).after)
  {
  }

  lemma ReceiveRises(e: Endpoint, f: Frame, reached: bool)
    requires LifeGood(e)
    ensures LifeGood(Receive(e, f, reached).after) && Rises(e, Receive(e, f, reached).after)
  {
  }

  // ----- One end as a whole -----

  ghost predicate EndpointGood(e: Endpoint) {
    SenderGood(e.snd) && Bounded(e.rcv) && LifeGood(e)
  }

  lemma StepKeepsEndpoint(e: Endpoint, a: Action)
    requires EndpointGood(e)
    ensures EndpointGood(Step(e, a).after)
  {
    StepKeepsSender(e, a);
    StepRises(e, a);
    hide SenderGood, Step, LifeGood;
  }

  lemma FreshIsGood(window: nat, maxRetransmits: nat, capacity: nat, state: ConnState)
    requires state != Closed
    ensures EndpointGood(Fresh(window, maxRetransmits, capacity, state))
  {
  }

  /** A frame that is not an ACK of a number never sent. */
  predicate Plausible(s: Sender, f: Frame)
    requires s.next >= 1
  {
    f.Ack? ==> f.ackSeq < FirstUnsent(s)
  }

  /** An arriving frame keeps an end in order exactly if it acknowledges nothing that was not sent. */
  lemma ReceiveKeepsEndpoint(e: Endpoint, f: Frame, reached: bool)
    requires EndpointGood(e)
    ensures EndpointGood(Receive(e, f, reached).after) <==> Plausible(e.snd, f)
  {
    ReceiveRises(e, f, reached);
    match f
    case Data(seqNo, payload) => AcceptEffect(e.rcv, seqNo, payload);
    case Ack(ackSeq) => AcknowledgeKeepsSender(e.snd, ackSeq);
    case _ =>
    hide SenderGood, LifeGood, Accept, Acknowledge, FirstUnsent;
  }

  /** Between two transmissions as many frames are kept as the window has numbers out. */
  lemma KeptCount(s: Sender)
    requires SenderGood(s) && !s.pc.Assigned?
    ensures |s.unacked| == s.next - s.base
  {
    NumbersBetween(s.unacked.Keys, s.base, s.next - s.base);
  }

  lemma {:induction false} NumbersBetween(s: set<nat>, lo: nat, n: nat)
    requires forall k: nat :: k in s <==> lo <= k < lo + n
    ensures |s| == n
    decreases n
  {
    if n == 0 {
      assert s == {};
    } else {
      NumbersBetween(s - {lo}, lo + 1, n - 1);
    }
  }
}
