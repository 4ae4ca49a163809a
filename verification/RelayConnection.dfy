/** A relay connection as the program keeps it: an object whose fields its tasks update in place.
    Every method keeps the object valid and performs one step of `RelayEndpoint`, or a whole
    undisturbed course of steps; `Perform` is all of them, so what is proved of runs holds of the
    objects (see `RelayPair`). */
module RelayConnection {
  import opened Common
  import opened Reassembly
  import opened RelayEndpoint

  datatype Verdict = Trivial | NotConnected | Passed

  datatype FlagVerdict = ClientClosed | Waiting

  class Connection {
    const windowSize: nat
    const maxRetransmits: nat
    const sendBuffer: nat

    var state: ConnState
    var sendBase: nat
    var nextSeq: nat
    var expectedSeq: nat
    var retransCnt: nat
    var unacked: map<nat, UnackedFrame>
    var recvBuf: map<nat, Payload>
    var sendQueue: seq<Payload>
    var closed: bool

    /** Where the send-loop task stands, and how far a running `close()` has come. */
    var pc: Pc
    var closer: Closer

    /** What subscribers of the receive channel were given, and why the connection was closed. */
    var received: seq<Payload>
    var reason: Option<CloseReason>

    /** Callers of `send` on their way into the queue, and everything that has entered it. */
    var entering: multiset<Payload>
    var waiting: multiset<Payload>
    ghost var accepted: seq<Payload>

    ghost function Incoming(): Receiver
      reads this
    {
      Receiver(windowSize, expectedSeq, recvBuf, received)
    }

    ghost function Outgoing(): Sender
      reads this
    {
      Sender(windowSize, maxRetransmits, sendBuffer, sendBase, nextSeq, retransCnt, unacked,
             entering, waiting, sendQueue, accepted, pc)
    }

    ghost function Model(): Endpoint
      reads this
    {
      Endpoint(Outgoing(), Incoming(), state, closed, reason, closer)
    }

    /** The window bookkeeping, the bound of the receive buffer and the order of closing are intact. */
    ghost predicate Valid()
      reads this
    {
      EndpointGood(Model())
    }

    constructor (windowSize: nat, maxRetransmits: nat, sendBuffer: nat, state: ConnState)
      requires state != Closed
      ensures Valid() && Model() == Fresh(windowSize, maxRetransmits, sendBuffer, state)
    {
      FreshIsGood(windowSize, maxRetransmits, sendBuffer, state);
      hide EndpointGood;
      this.windowSize, this.maxRetransmits, this.sendBuffer := windowSize, maxRetransmits, sendBuffer;
      this.state, closed, reason, closer := state, false, None, NotClosing;
      sendBase, nextSeq, expectedSeq, retransCnt := 1, 1, 1, 0;
      unacked, recvBuf, sendQueue, received := map[], map[], [], [];
      entering, waiting, accepted, pc := multiset{}, multiset{}, [], LoopTop;
    }

    // ----- Receiving -----

    /** Hands the buffered frames over for as long as the next number is there. */
    method DeliverReady()
      modifies `expectedSeq, `recvBuf, `received
      ensures Incoming() == Drain(old(Incoming()))
    {
      while expectedSeq in recvBuf
        invariant Drain(Incoming()) == Drain(old(Incoming()))
        decreases recvBuf.Keys
      {
        var data := recvBuf[expectedSeq];
        recvBuf := recvBuf - {expectedSeq};
        received := received + [data];
        expectedSeq := expectedSeq + 1;
      }
    }

    method HandleData(seqNo: nat, payload: Payload, reached: bool) returns (out: Option<Frame>)
      modifies `expectedSeq, `recvBuf, `received
      ensures var e := Receive(old(Model()), Data(seqNo, payload), reached);
        Model() == e.after && out == e.out
    {
      if seqNo == expectedSeq {
        received := received + [payload];
        expectedSeq := expectedSeq + 1;
        DeliverReady();
      } else if seqNo > expectedSeq {
        if seqNo - expectedSeq < windowSize {
          recvBuf := recvBuf[seqNo := payload];
        }
      }
      out := if reached then Some(Ack(seqNo)) else None;
    }

    method HandleAck(ackSeq: nat)
      modifies this
      ensures Model() == Receive(old(Model()), Ack(ackSeq), true).after
    {
      hide EndpointGood, Step, Accept;
      if ackSeq >= sendBase {
        for seqNo := sendBase to ackSeq + 1
          modifies `unacked
          invariant unacked == map k | k in old(unacked) && !(old(sendBase) <= k < seqNo) :: old(unacked)[k]
        {
          unacked := unacked - {seqNo};
        }
        sendBase := ackSeq + 1;
        retransCnt := 0;
      }
    }

    /** The locked part of `handle_close`. */
    method HandleClose(why: CloseReason)
      modifies `state, `reason
      ensures Model() == MarkClosed(old(Model()), why)
      ensures state == Closed && (old(state) == Closed ==> reason == old(reason))
      ensures old(state) != Closed ==> reason == Some(why)
    {
      if state == Closed { return; }
      state := Closed;
      reason := Some(why);
    }

    method HandlePing(reached: bool) returns (out: Option<Frame>)
      ensures out == if reached then Some(ErrorFrame) else None
    {
      out := if reached then Some(ErrorFrame) else None;
    }

    /** An arriving frame. The object stays valid exactly if the frame acknowledges nothing that was
        never sent. */
    method HandleEnvelope(f: Frame, reached: bool) returns (out: Option<Frame>)
      modifies this
      ensures var e := Receive(old(Model()), f, reached); Model() == e.after && out == e.out
      ensures old(Valid()) ==> (Valid() <==> Plausible(old(Outgoing()), f))
    {
      ghost var before := Model();
      if EndpointGood(before) {
        ReceiveKeepsEndpoint(before, f, reached);
      }
      hide EndpointGood, Plausible;
      out := None;
      match f {
        case Data(seqNo, payload) => out := HandleData(seqNo, payload, reached);
        case Ack(ackSeq) => HandleAck(ackSeq);
        case CloseFrame => HandleClose(RemoteClose);
        case ErrorFrame => HandleClose(PeerError);
        case OpenAck =>
          if state == Opening {
            state := Open;
          }
        case Ping => out := HandlePing(reached);
      }
    }

    // ----- The send loop -----

    method BeginPass()
      requires Valid()
      modifies `pc
      ensures Valid() && Model() == BeginPassStep(old(Model()))
    {
      hide EndpointGood;
      StepKeepsEndpoint(Model(), Action.BeginPass);
      if pc == LoopTop {
        pc := if closed then Stopped else WindowCheck;
      }
    }

    /** The unsigned subtraction never wraps, and the loop goes on exactly if fewer than
        `window_size` frames are unacknowledged. */
    method CheckWindow()
      requires Valid()
      modifies `pc
      ensures Valid() && Model() == CheckWindowStep(old(Model()))
      ensures old(pc) == WindowCheck ==>
        sendBase <= nextSeq && pc == if |unacked| < windowSize then Ready else WindowFull
    {
      StepKeepsEndpoint(Model(), Action.CheckWindow);
      if pc == WindowCheck {
        KeptCount(Outgoing());
        hide SenderGood;
        pc := if sendBase <= nextSeq && nextSeq - sendBase < windowSize then Ready else WindowFull;
      }
    }

    method CloseNotified()
      requires Valid()
      modifies `pc
      ensures Valid() && Model() == CloseNotifiedStep(old(Model()))
    {
      hide EndpointGood;
      StepKeepsEndpoint(Model(), Action.CloseNotified);
      if closed && (pc == WindowFull || pc == Ready) {
        pc := Stopped;
      }
    }

    method TakeData()
      requires Valid()
      modifies `pc, `sendQueue
      ensures Valid() && Model() == TakeDataStep(old(Model()))
    {
      hide EndpointGood, Step;
      TakeDataKeepsEndpoint(Model());
      if pc == Ready && sendQueue != [] {
        pc := Taken(sendQueue[0]);
        sendQueue := sendQueue[1..];
      }
    }

    method CheckFlag()
      requires Valid()
      modifies `pc
      ensures Valid() && Model() == CheckFlagStep(old(Model()))
    {
      hide EndpointGood, Step;
      CheckFlagKeepsEndpoint(Model());
      if pc.Taken? {
        pc := if closed then Stopped else Checked(pc.data);
      }
    }

    /** Numbers follow the order of acceptance: number `n` goes to the `n`-th accepted payload. */
    method AssignSeq()
      requires Valid()
      modifies `pc, `nextSeq
      ensures Valid() && Model() == AssignSeqStep(old(Model()))
      ensures old(pc).Checked? ==>
        && nextSeq == old(nextSeq) + 1 <= |accepted| + 1
        && pc == Assigned(old(nextSeq), accepted[old(nextSeq) - 1])
    {
      hide Step;
      AssignSeqKeepsEndpoint(Model());
      if pc.Checked? {
        assert Backlog(Outgoing())[0] == pc.data;
        pc := Assigned(nextSeq, pc.data);
        nextSeq := nextSeq + 1;
      }
    }

    /** From here on the frame is kept: `unacked` holds exactly the window, with the original payloads. */
    method InsertUnacked()
      requires Valid()
      modifies `pc, `unacked
      ensures Valid() && Model() == InsertStep(old(Model()))
      ensures old(pc).Assigned? ==>
        && (forall k: nat :: k in unacked <==> sendBase <= k < nextSeq)
        && (forall k :: k in unacked ==> 1 <= k <= |accepted| && unacked[k].data == accepted[k - 1])
    {
      hide Step;
      InsertKeepsEndpoint(Model());
      if pc.Assigned? {
        unacked := unacked[pc.seqNo := UnackedFrame(pc.data, 0)];
        pc := Inserted(pc.seqNo, pc.data);
      }
    }

    /** The frame that goes out is the last one numbered, which is kept by now, with its own payload. */
    method FirstSend(reached: bool) returns (out: Option<Frame>)
      requires Valid()
      modifies `pc
      ensures var e := FirstSendStep(old(Model()), reached); Valid() && Model() == e.after && out == e.out
      ensures out.Some? ==>
        && 1 <= nextSeq - 1 <= |accepted| && nextSeq - 1 in unacked
        && out.value == Data(nextSeq - 1, accepted[nextSeq - 2])
    {
      hide EndpointGood, Step;
      FirstSendKeepsEndpoint(Model(), reached);
      FrameInHand(Model());
      out := None;
      if pc.Inserted? {
        out := if reached then Some(Data(pc.seqNo, pc.data)) else None;
        pc := Awaiting;
      }
    }

    method SendReturns(ok: bool)
      requires Valid()
      modifies `pc, `state, `reason
      ensures Valid() && Model() == SendReturnsStep(old(Model()), ok)
    {
      hide EndpointGood, Step;
      SendReturnsKeepsEndpoint(Model(), ok);
      if pc == Awaiting {
        if ok {
          pc := LoopTop;
        } else {
          HandleClose(SendFailed);
          pc := Leaving;
        }
      }
    }

    method Leave()
      requires Valid()
      modifies `pc
      ensures Valid() && Model() == LeaveStep(old(Model()))
    {
      hide EndpointGood;
      StepKeepsEndpoint(Model(), Action.Leave);
      if pc == Leaving {
        pc := Stopped;
      }
    }

    /** One undisturbed pass of the send loop: the oldest queued payload goes out under the next
        number and is kept, and nothing else changes. */
    method SendPass(reached: bool) returns (out: Option<Frame>)
      requires Valid() && pc == LoopTop && !closed && |unacked| < windowSize && sendQueue != []
      modifies this
      ensures Valid() && pc == LoopTop && nextSeq == old(nextSeq) + 1
      ensures out == if reached then Some(Data(old(nextSeq), old(sendQueue)[0])) else None
      ensures unacked == old(unacked)[old(nextSeq) := UnackedFrame(old(sendQueue)[0], 0)]
      ensures Model() == old(Model()).(snd := old(Outgoing()).(
        queue := old(sendQueue)[1..], next := nextSeq, unacked := unacked))
    {
      hide EndpointGood;
      BeginPass();
      CheckWindow();
      TakeData();
      CheckFlag();
      AssignSeq();
      InsertUnacked();
      out := FirstSend(reached);
      SendReturns(true);
    }

    // ----- Retransmission -----

    method CountRound()
      requires Valid()
      modifies `pc, `retransCnt, `state, `reason
      ensures Valid() && Model() == TickStep(old(Model()))
    {
      hide EndpointGood, Step;
      TickKeepsEndpoint(Model());
      if pc == Ready || pc == WindowFull {
        var blocked := pc == WindowFull;
        retransCnt := retransCnt + 1;
        if retransCnt > maxRetransmits {
          HandleClose(MaxRetransmit);
          pc := AfterRound(blocked);
        } else {
          pc := Counted(blocked);
        }
      }
    }

    method Snapshot()
      requires Valid()
      modifies `pc
      ensures Valid() && Model() == SnapshotStep(old(Model()))
    {
      hide EndpointGood;
      StepKeepsEndpoint(Model(), Action.Snapshot);
      if pc.Counted? {
        pc := Round(pc.blocked, unacked.Keys);
      }
    }

    method NextFrame(seqNo: nat)
      requires Valid()
      modifies `pc, `unacked
      ensures Valid() && Model() == NextFrameStep(old(Model()), seqNo)
    {
      hide EndpointGood, Step;
      NextFrameKeepsEndpoint(Model(), seqNo);
      if pc.Round? && seqNo in pc.todo {
        var rest := pc.todo - {seqNo};
        if seqNo in unacked {
          var f := unacked[seqNo];
          unacked, pc := unacked[seqNo := f.(retransmit := f.retransmit + 1)],
                         Resending(pc.blocked, rest, seqNo, f.data);
        } else {
          pc := Round(pc.blocked, rest);
        }
      }
    }

    /** Whatever was acknowledged meanwhile, the frame repeated is an original one. */
    method Resend(reached: bool) returns (out: Option<Frame>)
      requires Valid()
      modifies `pc
      ensures var e := ResendStep(old(Model()), reached); Valid() && Model() == e.after && out == e.out
      ensures out.Some? ==>
        && out.value.Data? && 1 <= out.value.seqNo < nextSeq <= |accepted| + 1
        && out.value.payload == accepted[out.value.seqNo - 1]
    {
      hide EndpointGood, Step;
      ResendKeepsEndpoint(Model(), reached);
      FrameInHand(Model());
      out := None;
      if pc.Resending? {
        out := if reached then Some(Data(pc.seqNo, pc.data)) else None;
        pc := Round(pc.blocked, pc.todo);
      }
    }

    method EndRound()
      requires Valid()
      modifies `pc
      ensures Valid() && Model() == EndRoundStep(old(Model()))
    {
      hide EndpointGood;
      StepKeepsEndpoint(Model(), Action.EndRound);
      if pc.Round? && pc.todo == {} {
        pc := AfterRound(pc.blocked);
      }
    }

    /** One frame of an uninterrupted round. */
    method ResendOne(seqNo: nat, reached: bool) returns (out: Option<Frame>)
      requires Valid() && pc.Round? && seqNo in pc.todo && seqNo in unacked
      modifies `pc, `unacked
      ensures Valid() && pc == Round(old(pc).blocked, old(pc).todo - {seqNo})
      ensures unacked == Charged(old(unacked), {seqNo})
      ensures out == if reached then Some(Data(seqNo, old(unacked)[seqNo].data)) else None
    {
      hide EndpointGood;
      NextFrame(seqNo);
      out := Resend(reached);
    }

    /** A whole round of `retransmit` that no ACK interrupts; frames in `lost` miss the network.
        Either the round closes the connection, or every unacknowledged frame goes out once more,
        once each, with its payload, and is charged one retransmission. */
    method Retransmit(lost: set<nat>) returns (out: multiset<Frame>)
      requires Valid() && (pc == Ready || pc == WindowFull)
      modifies this
      ensures Valid()
      ensures old(retransCnt) >= maxRetransmits ==> Model() == TickStep(old(Model())) && out == multiset{}
      ensures old(retransCnt) < maxRetransmits ==>
        && Outgoing() == old(Outgoing()).(
             retransCnt := old(retransCnt) + 1,
             unacked := Charged(old(unacked), old(unacked).Keys),
             pc := AfterRound(old(pc) == WindowFull))
        && Model() == old(Model()).(snd := Outgoing())
      ensures old(retransCnt) < maxRetransmits ==> SentOnce(old(unacked), old(unacked).Keys, lost, out)
    {
      hide EndpointGood, Charged, SentOnce, Step;
      out := multiset{};
      CountRound();
      if pc.Counted? {
        out := ResendRound(lost);
      }
    }

    /** The rest of an undisturbed round that did not give up. */
    method ResendRound(lost: set<nat>) returns (out: multiset<Frame>)
      requires Valid() && pc.Counted?
      modifies `pc, `unacked
      ensures Valid() && pc == AfterRound(old(pc).blocked)
      ensures unacked == Charged(old(unacked), old(unacked).Keys)
      ensures SentOnce(old(unacked), old(unacked).Keys, lost, out)
    {
      hide EndpointGood, Charged, SentOnce, Step;
      Snapshot();
      out := ResendAll(lost);
      EndRound();
    }

    method ResendAll(lost: set<nat>) returns (out: multiset<Frame>)
      requires Valid() && pc.Round? && pc.todo == unacked.Keys
      modifies `pc, `unacked
      ensures Valid() && pc == Round(old(pc).blocked, {})
      ensures unacked == Charged(old(unacked), old(unacked).Keys)
      ensures SentOnce(old(unacked), old(unacked).Keys, lost, out)
    {
      hide EndpointGood, Step, SentOnce, Charged;
      out := multiset{};
      ghost var done: set<nat> := {};
      NoneSent(unacked, lost);
      while pc.Round? && pc.todo != {}
        invariant Valid() && done <= old(unacked).Keys
        invariant pc == Round(old(pc).blocked, old(unacked).Keys - done)
        invariant unacked == Charged(old(unacked), done)
        invariant SentOnce(old(unacked), done, lost, out)
        decreases old(unacked).Keys - done
      {
        var seqNo :| seqNo in pc.todo;
        SentOneMore(old(unacked), done, lost, out, seqNo);
        ChargedOneMore(old(unacked), done, seqNo);
        var f := ResendOne(seqNo, seqNo !in lost);
        if f.Some? {
          out := out + multiset{f.value};
        }
        done := done + {seqNo};
      }
      assert done == old(unacked).Keys;
    }

    // ----- The application side: `send` -----

    /** The check under the state lock. */
    method Submit(data: Payload) returns (verdict: Verdict)
      requires Valid()
      modifies `entering
      ensures Valid() && Model() == SendStep(old(Model()), data)
      ensures entering == old(entering) + if verdict == Passed then multiset{data} else multiset{}
      ensures verdict == Trivial <==> data == []
      ensures verdict == Passed <==> data != [] && state == Open
    {
      hide EndpointGood;
      StepKeepsEndpoint(Model(), Send(data));
      if data == [] { return Trivial; }
      if state != Open { return NotConnected; }
      entering := entering + multiset{data};
      return Passed;
    }

    /** The check of the flag. A caller turned away here found the connection open a moment ago. */
    method CheckSend(data: Payload) returns (verdict: FlagVerdict)
      requires Valid() && data in entering
      modifies `entering, `waiting
      ensures Valid() && Model() == CheckSendStep(old(Model()), data)
      ensures verdict == ClientClosed <==> closed
    {
      hide EndpointGood;
      StepKeepsEndpoint(Model(), Action.CheckSend(data));
      entering := entering - multiset{data};
      if closed { return ClientClosed; }
      waiting := waiting + multiset{data};
      return Waiting;
    }

    method Enqueue(data: Payload) returns (ok: bool)
      requires Valid() && data in waiting
      modifies `waiting, `sendQueue, `accepted
      ensures Valid() && Model() == EnqueueStep(old(Model()), data)
      ensures accepted == old(accepted) + if ok then [data] else []
    {
      hide EndpointGood, Step;
      EnqueueKeepsEndpoint(Model(), data);
      ok := |sendQueue| < sendBuffer && pc != Stopped;
      if ok {
        waiting := waiting - multiset{data};
        sendQueue := sendQueue + [data];
        accepted := accepted + [data];
      }
    }

    method AbandonSend(data: Payload)
      requires Valid()
      modifies `waiting
      ensures Valid() && Model() == GiveUpStep(old(Model()), data)
    {
      hide EndpointGood;
      StepKeepsEndpoint(Model(), GiveUp(data));
      waiting := waiting - multiset{data};
    }

    // ----- Closing -----

    /** `abort` and the open timeout. */
    method CloseFor(why: CloseReason)
      requires Valid() && (why == OpenTimeout || why == Aborted)
      modifies `state, `reason
      ensures Valid() && Model() == MarkClosed(old(Model()), why)
    {
      hide EndpointGood;
      StepKeepsEndpoint(Model(), if why == Aborted then AbortNow else OpenExpires);
      HandleClose(why);
    }

    method RaiseFlag()
      requires Valid()
      modifies `closed
      ensures Valid() && Model() == RaiseFlagStep(old(Model()))
    {
      hide EndpointGood;
      StepKeepsEndpoint(Model(), Action.RaiseFlag);
      if state == Closed {
        closed := true;
      }
    }

    method BeginClose()
      requires Valid()
      modifies `state, `closer
      ensures Valid() && Model() == BeginCloseStep(old(Model()))
    {
      hide EndpointGood;
      StepKeepsEndpoint(Model(), Action.BeginClose);
      if state == Open {
        state := Closing;
        closer := SendingClose;
      }
    }

    method SendClose(reached: bool) returns (out: Option<Frame>)
      requires Valid()
      modifies `closer
      ensures var e := SendCloseStep(old(Model()), reached); Valid() && Model() == e.after && out == e.out
    {
      hide EndpointGood;
      StepKeepsEndpoint(Model(), Action.SendClose(reached));
      out := None;
      if closer == SendingClose {
        out := if reached then Some(CloseFrame) else None;
        closer := CloseSent;
      }
    }

    method FinishClose()
      requires Valid()
      modifies `state, `reason, `closer
      ensures Valid() && Model() == FinishCloseStep(old(Model()))
    {
      hide EndpointGood;
      StepKeepsEndpoint(Model(), Action.FinishClose);
      if closer == CloseSent {
        HandleClose(LocalClose);
        closer := NotClosing;
      }
    }

    /** `close`, undisturbed: nothing unless the connection is open, and otherwise a CLOSE frame and a
        connection closed for good, on its own account, with the flag up. */
    method Close(reached: bool) returns (out: Option<Frame>)
      requires Valid()
      modifies this
      ensures Valid()
      ensures old(state) != Open ==> Model() == old(Model()) && out == None
      ensures old(state) == Open ==>
        && Model() == old(Model()).(state := Closed, closed := true, reason := Some(LocalClose), closer := NotClosing)
        && out == if reached then Some(CloseFrame) else None
    {
      hide EndpointGood;
      out := None;
      if state != Open { return; }
      BeginClose();
      out := SendClose(reached);
      FinishClose();
      RaiseFlag();
    }

    // ----- Any step -----

    method PerformSend(a: Action)
      requires Valid() && (a.Send? || a.CheckSend? || a.Enqueue? || a.GiveUp?)
      modifies this
      ensures Valid() && Model() == Step(old(Model()), a).after
    {
      hide EndpointGood, SendStep, GiveUpStep;
      match a {
        case Send(data) => var _ := Submit(data);
        case CheckSend(data) =>
          if data in entering {
            var _ := CheckSend(data);
          }
        case Enqueue(data) =>
          if data in waiting {
            var _ := Enqueue(data);
          }
        case GiveUp(data) => AbandonSend(data);
      }
    }

    method PerformPass(a: Action) returns (out: Option<Frame>)
      requires Valid()
      requires a.BeginPass? || a.CheckWindow? || a.CloseNotified? || a.TakeData? || a.CheckFlag?
        || a.AssignSeq? || a.InsertUnacked? || a.FirstSend? || a.SendReturns? || a.Leave?
      modifies this
      ensures var e := Step(old(Model()), a); Valid() && Model() == e.after && out == e.out
    {
      hide EndpointGood, BeginPassStep, CheckWindowStep, CloseNotifiedStep, TakeDataStep, CheckFlagStep;
      hide AssignSeqStep, InsertStep, FirstSendStep, SendReturnsStep, LeaveStep;
      out := None;
      match a {
        case BeginPass => BeginPass();
        case CheckWindow => CheckWindow();
        case CloseNotified => CloseNotified();
        case TakeData => TakeData();
        case CheckFlag => CheckFlag();
        case AssignSeq => AssignSeq();
        case InsertUnacked => InsertUnacked();
        case FirstSend(reached) => out := FirstSend(reached);
        case SendReturns(ok) => SendReturns(ok);
        case Leave => Leave();
      }
    }

    method PerformRound(a: Action) returns (out: Option<Frame>)
      requires Valid() && (a.Tick? || a.Snapshot? || a.NextFrame? || a.Resend? || a.EndRound?)
      modifies this
      ensures var e := Step(old(Model()), a); Valid() && Model() == e.after && out == e.out
    {
      hide EndpointGood, TickStep, SnapshotStep, NextFrameStep, ResendStep, EndRoundStep;
      out := None;
      match a {
        case Tick => CountRound();
        case Snapshot => Snapshot();
        case NextFrame(seqNo) => NextFrame(seqNo);
        case Resend(reached) => out := Resend(reached);
        case EndRound => EndRound();
      }
    }

    method PerformClose(a: Action) returns (out: Option<Frame>)
      requires Valid()
      requires a.OpenExpires? || a.AbortNow? || a.RaiseFlag? || a.BeginClose? || a.SendClose? || a.FinishClose?
      modifies this
      ensures var e := Step(old(Model()), a); Valid() && Model() == e.after && out == e.out
    {
      hide EndpointGood, MarkClosed, RaiseFlagStep, BeginCloseStep, SendCloseStep, FinishCloseStep;
      out := None;
      match a {
        case OpenExpires => CloseFor(OpenTimeout);
        case AbortNow => CloseFor(Aborted);
        case RaiseFlag => RaiseFlag();
        case BeginClose => BeginClose();
        case SendClose(reached) => out := SendClose(reached);
        case FinishClose => FinishClose();
      }
    }

    /** Whatever a task of this connection does next, the object does it in place and stays valid. */
    method Perform(a: Action) returns (out: Option<Frame>)
      requires Valid()
      modifies this
      ensures var e := Step(old(Model()), a); Valid() && Model() == e.after && out == e.out
    {
      out := None;
      if a.Send? || a.CheckSend? || a.Enqueue? || a.GiveUp? {
        assert Step(Model(), a).out == None;
        PerformSend(a);
      } else if a.Tick? || a.Snapshot? || a.NextFrame? || a.Resend? || a.EndRound? {
        out := PerformRound(a);
      } else if a.OpenExpires? || a.AbortNow? || a.RaiseFlag? || a.BeginClose? || a.SendClose? || a.FinishClose? {
        out := PerformClose(a);
      } else {
        out := PerformPass(a);
      }
    }
  }

  // ----- Each step keeps an end in order -----

  lemma TickKeepsEndpoint(e: Endpoint)
    requires EndpointGood(e)
    ensures EndpointGood(TickStep(e))
  {
    TickKeepsSender(e);
    hide SenderGood;
  }

  lemma NextFrameKeepsEndpoint(e: Endpoint, seqNo: nat)
    requires EndpointGood(e)
    ensures EndpointGood(NextFrameStep(e, seqNo))
  {
    NextFrameKeepsSender(e, seqNo);
    hide SenderGood;
  }

  lemma SendReturnsKeepsEndpoint(e: Endpoint, ok: bool)
    requires EndpointGood(e)
    ensures EndpointGood(SendReturnsStep(e, ok))
  {
    SendReturnsKeepsSender(e, ok);
    hide SenderGood;
  }

  lemma CheckFlagKeepsEndpoint(e: Endpoint)
    requires EndpointGood(e)
    ensures EndpointGood(CheckFlagStep(e))
  {
    CheckFlagKeepsSender(e);
    hide SenderGood;
  }

  lemma AssignSeqKeepsEndpoint(e: Endpoint)
    requires EndpointGood(e)
    ensures EndpointGood(AssignSeqStep(e))
  {
    AssignSeqKeepsSender(e);
    hide SenderGood;
  }

  lemma InsertKeepsEndpoint(e: Endpoint)
    requires EndpointGood(e)
    ensures EndpointGood(InsertStep(e))
  {
    InsertKeepsSender(e);
    hide SenderGood;
  }

  lemma FirstSendKeepsEndpoint(e: Endpoint, reached: bool)
    requires EndpointGood(e)
    ensures EndpointGood(FirstSendStep(e, reached).after)
  {
    FirstSendKeepsSender(e, reached);
    hide SenderGood;
  }

  /** The frame that the loop is about to send, or to send again, is an original one. */
  lemma FrameInHand(e: Endpoint)
    requires EndpointGood(e)
    ensures e.snd.pc.Inserted? ==>
      && e.snd.pc.seqNo == e.snd.next - 1 && 1 <= e.snd.pc.seqNo <= |e.snd.accepted|
      && e.snd.pc.seqNo in e.snd.unacked && e.snd.pc.data == e.snd.accepted[e.snd.pc.seqNo - 1]
    ensures e.snd.pc.Resending? ==>
      && 1 <= e.snd.pc.seqNo < e.snd.next <= |e.snd.accepted| + 1
      && e.snd.pc.data == e.snd.accepted[e.snd.pc.seqNo - 1]
  {
  }

  lemma ResendKeepsEndpoint(e: Endpoint, reached: bool)
    requires EndpointGood(e)
    ensures EndpointGood(ResendStep(e, reached).after)
  {
    ResendKeepsSender(e, reached);
    hide SenderGood;
  }

  lemma TakeDataKeepsEndpoint(e: Endpoint)
    requires EndpointGood(e)
    ensures EndpointGood(TakeDataStep(e))
  {
    TakeDataKeepsSender(e);
    hide SenderGood;
  }

  lemma EnqueueKeepsEndpoint(e: Endpoint, data: Payload)
    requires EndpointGood(e)
    ensures EndpointGood(EnqueueStep(e, data))
  {
    EnqueueKeepsSender(e, data);
    hide SenderGood;
  }

  // ----- One round of retransmissions -----

  /** `f` carries the payload kept for its number. */
  predicate Original(kept: map<nat, UnackedFrame>, f: Frame) {
    f.Data? && f.seqNo in kept && f.payload == kept[f.seqNo].data
  }

  /** Exactly the frames kept for the numbers in `done` are in `out`, once each, save the lost ones. */
  ghost predicate SentOnce(kept: map<nat, UnackedFrame>, done: set<nat>, lost: set<nat>, out: multiset<Frame>) {
    forall f :: out[f] == if Original(kept, f) && f.seqNo in done && f.seqNo !in lost then 1 else 0
  }

  function Charged(kept: map<nat, UnackedFrame>, done: set<nat>): map<nat, UnackedFrame> {
    map k | k in kept :: if k in done then kept[k].(retransmit := kept[k].retransmit + 1) else kept[k]
  }

  lemma NoneSent(kept: map<nat, UnackedFrame>, lost: set<nat>)
    ensures SentOnce(kept, {}, lost, multiset{}) && Charged(kept, {}) == kept
  {
  }

  lemma SentOneMore(kept: map<nat, UnackedFrame>, done: set<nat>, lost: set<nat>, out: multiset<Frame>, k: nat)
    requires SentOnce(kept, done, lost, out) && k in kept && k !in done
    ensures SentOnce(kept, done + {k}, lost,
                     if k in lost then out else out + multiset{Data(k, kept[k].data)})
  {
  }

  lemma ChargedOneMore(kept: map<nat, UnackedFrame>, done: set<nat>, k: nat)
    requires k in kept && k !in done
    ensures k in Charged(kept, done) && Charged(kept, done)[k].data == kept[k].data
    ensures Charged(Charged(kept, done), {k}) == Charged(kept, done + {k})
  {
  }
}
