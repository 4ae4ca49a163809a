/** When can the relay lose data?

    The receiver answers every DATA frame with an ACK of that frame, even one it only buffered or
    threw away, while the sender takes an ACK as covering everything up to it. This module proves
    exactly which runs, and which window sizes, are safe from that mismatch. Statements about a run
    speak of data going from `left` to `right`; by `RunMirror` they hold the other way too. */
module RelayLoss {
  import opened Common
  import opened Reassembly
  import opened RelayEndpoint
  import opened RelayProtocol
  import opened RelayScript

  /** Every number stored so far is delivered at the peer or still kept for retransmission. */
  ghost predicate NothingLost(s: Sender, r: Receiver) {
    s.next >= 1 && forall k: nat :: 1 <= k < StoredTo(s) ==> k < r.expected || k in s.unacked
  }

  /** Everything acknowledged, now or by an ACK under way, has been delivered. */
  ghost predicate AcksCovered(s: System) {
    && s.left.snd.base <= s.right.rcv.expected
    && forall f :: f in s.toLeft && f.Ack? ==> f.ackSeq < s.right.rcv.expected
  }

  /** A DATA frame that `right` acknowledges leaves no gap below it. */
  predicate AckedInOrder(s: System, ev: Event) {
    (ev.who == Right && ev.move.Deliver? && ev.move.f.Data? && ev.move.f in s.toRight && ev.move.reached)
    ==> ev.move.f.seqNo <= s.right.rcv.expected
  }

  predicate AllAckedInOrder(s: System, trace: seq<Event>) {
    trace == [] ||
    (AllAckedInOrder(s, trace[..|trace| - 1]) && AckedInOrder(Run(s, trace[..|trace| - 1]), trace[|trace| - 1]))
  }

  lemma CoveredMeansKept(s: System)
    requires Good(s) && AcksCovered(s)
    ensures NothingLost(s.left.snd, s.right.rcv)
  {
  }

  /** Every payload that was given a number has been delivered. */
  predicate CaughtUp(s: Sender, r: Receiver) {
    1 <= s.next <= |s.accepted| + 1 && r.delivered == s.accepted[..s.next - 1]
  }

  lemma CoveredCatchesUp(s: System)
    requires Good(s) && AcksCovered(s) && s.left.snd.unacked == map[] && !s.left.snd.pc.Assigned?
    ensures CaughtUp(s.left.snd, s.right.rcv)
  {
    LinkPrefix(s.left.snd, s.right.rcv, s.toRight, s.toLeft);
    assert s.left.snd.base < s.left.snd.next ==> s.left.snd.base in s.left.snd.unacked;
  }

  lemma StepKeepsBase(e: Endpoint, a: Action)
    ensures Step(e, a).after.snd.base == e.snd.base && Step(e, a).after.rcv == e.rcv
    ensures Step(e, a).out.Some? ==> !Step(e, a).out.value.Ack?
  {
  }

  lemma LeftActKeepsCovered(s: System, a: Action)
    requires AcksCovered(s)
    ensures AcksCovered(LeftMove(s, Act(a)))
  {
  }

  lemma LeftDeliverKeepsCovered(s: System, f: Frame, reached: bool)
    requires AcksCovered(s)
    ensures AcksCovered(LeftMove(s, Deliver(f, reached)))
  {
  }

  lemma LeftKeepsCovered(s: System, m: Move)
    requires AcksCovered(s)
    ensures AcksCovered(LeftMove(s, m))
  {
    hide Step, Receive;
    match m
    case Act(a) => LeftActKeepsCovered(s, a);
    case Deliver(f, reached) => LeftDeliverKeepsCovered(s, f, reached);
    case _ =>
  }

  lemma RightActKeepsCovered(s: System, a: Action)
    requires AcksCovered(s)
    ensures AcksCovered(Next(s, Event(Right, Act(a))))
  {
    StepKeepsBase(s.right, a);
    hide Step;
  }

  lemma RightDataKeepsCovered(s: System, seqNo: nat, payload: Payload, reached: bool)
    requires Bounded(s.right.rcv) && AcksCovered(s)
    requires AckedInOrder(s, Event(Right, Deliver(Data(seqNo, payload), reached)))
    ensures AcksCovered(Next(s, Event(Right, Deliver(Data(seqNo, payload), reached))))
  {
    hide Accept;
    AcceptEffect(s.right.rcv, seqNo, payload);
  }

  lemma RightKeepsCovered(s: System, m: Move)
    requires Bounded(s.right.rcv) && AcksCovered(s) && AckedInOrder(s, Event(Right, m))
    ensures AcksCovered(Next(s, Event(Right, m)))
  {
    hide Step, Accept;
    if m.Act? {
      RightActKeepsCovered(s, m.a);
    } else if m.Deliver? && m.f.Data? {
      RightDataKeepsCovered(s, m.f.seqNo, m.f.payload, m.reached);
    }
  }

  lemma NextKeepsCovered(s: System, ev: Event)
    requires Good(s) && AcksCovered(s) && AckedInOrder(s, ev)
    ensures AcksCovered(Next(s, ev))
  {
    if ev.who == Left { LeftKeepsCovered(s, ev.move); } else { RightKeepsCovered(s, ev.move); }
  }

  lemma {:induction false} RunKeepsCovered(s: System, trace: seq<Event>)
    requires Good(s) && AcksCovered(s) && AllAckedInOrder(s, trace)
    ensures AcksCovered(Run(s, trace))
  {
    if trace != [] {
      var front := trace[..|trace| - 1];
      RunKeepsCovered(s, front);
      RunKeepsGood(s, front);
      NextKeepsCovered(Run(s, front), trace[|trace| - 1]);
    }
  }

  /** No loss when acknowledged frames arrive in order: every stored number is delivered or kept, and
      once the sender's window is empty the peer has everything that was ever numbered. */
  lemma InOrderLosesNothing(s: System, trace: seq<Event>)
    requires Good(s) && AcksCovered(s) && AllAckedInOrder(s, trace)
    ensures var t := Run(s, trace);
      && t.left.snd.base <= t.right.rcv.expected
      && NothingLost(t.left.snd, t.right.rcv)
      && (t.left.snd.unacked == map[] && !t.left.snd.pc.Assigned? ==> CaughtUp(t.left.snd, t.right.rcv))
  {
    RunKeepsGood(s, trace);
    RunKeepsCovered(s, trace);
    CoveredMeansKept(Run(s, trace));
    var t := Run(s, trace);
    if t.left.snd.unacked == map[] && !t.left.snd.pc.Assigned? {
      CoveredCatchesUp(t);
    }
  }

  // ----- The exact condition -----

  function AckArrives(s: System, ackSeq: nat): System {
    Next(s, Event(Left, Deliver(Ack(ackSeq), false)))
  }

  /** Delivering this ACK now would not drop an undelivered frame from `unacked`. */
  ghost predicate AckHarmless(s: System, ackSeq: nat) {
    var t := AckArrives(s, ackSeq);
    NothingLost(t.left.snd, t.right.rcv)
  }

  predicate AckUnderWay(s: System, ackSeq: nat) {
    Ack(ackSeq) in s.toLeft
  }

  /** At every moment of the run, every ACK under way is harmless. */
  ghost predicate Harmless(s: System, trace: seq<Event>) {
    forall i, n: nat ::
      0 <= i <= |trace| && AckUnderWay(Run(s, trace[..i]), n) ==> AckHarmless(Run(s, trace[..i]), n)
  }

  lemma CoveredIsHarmless(s: System, ackSeq: nat)
    requires Good(s) && AcksCovered(s) && Ack(ackSeq) in s.toLeft
    ensures AckHarmless(s, ackSeq)
  {
  }

  /** One arrival: its ACK is safe for the sender to act on exactly when the frame is not ahead of
      `expected_seq`, that is, when the buffering branch is not taken. */
  lemma AckSafeIff(s: System, seqNo: nat, payload: Payload)
    requires Good(s) && AcksCovered(s) && Data(seqNo, payload) in s.toRight
    ensures var t := Next(s, Event(Right, Deliver(Data(seqNo, payload), true)));
      && Ack(seqNo) in t.toLeft
      && (AckHarmless(t, seqNo) <==> seqNo <= s.right.rcv.expected)
  {
    var ev := Event(Right, Deliver(Data(seqNo, payload), true));
    var t := Next(s, ev);
    NextKeepsGood(s, ev);
    assert t.right.rcv == Accept(s.right.rcv, seqNo, payload) && t.left == s.left;
    if seqNo <= s.right.rcv.expected {
      NextKeepsCovered(s, ev);
      CoveredIsHarmless(t, seqNo);
    } else {
      var k := s.right.rcv.expected;
      assert t.right.rcv.expected == k;
      assert GoodOut(s.left.snd, Data(seqNo, payload));
      var u := AckArrives(t, seqNo);
      NextKeepsGood(t, Event(Left, Deliver(Ack(seqNo), false)));
      assert u.left.snd == Acknowledge(s.left.snd, seqNo);
      assert k !in u.left.snd.unacked && 1 <= k < StoredTo(u.left.snd);
    }
  }

  lemma {:induction false} InOrderIsHarmless(s: System, trace: seq<Event>)
    requires Good(s) && AcksCovered(s) && AllAckedInOrder(s, trace)
    ensures Harmless(s, trace)
  {
    forall i, n: nat | 0 <= i <= |trace| && AckUnderWay(Run(s, trace[..i]), n)
      ensures AckHarmless(Run(s, trace[..i]), n)
    {
      PrefixInOrder(s, trace, i);
      RunKeepsGood(s, trace[..i]);
      RunKeepsCovered(s, trace[..i]);
      CoveredIsHarmless(Run(s, trace[..i]), n);
    }
  }

  lemma {:induction false} PrefixInOrder(s: System, trace: seq<Event>, i: nat)
    requires AllAckedInOrder(s, trace) && i <= |trace|
    ensures AllAckedInOrder(s, trace[..i])
  {
    if i == |trace| {
      assert trace[..i] == trace;
    } else {
      PrefixInOrder(s, trace[..|trace| - 1], i);
      assert trace[..|trace| - 1][..i] == trace[..i];
    }
  }

  lemma {:induction false} HarmlessIsInOrder(s: System, trace: seq<Event>)
    requires Good(s) && AcksCovered(s) && Harmless(s, trace)
    ensures AllAckedInOrder(s, trace)
  {
    if trace != [] {
      var front, ev := trace[..|trace| - 1], trace[|trace| - 1];
      forall i, n: nat | 0 <= i <= |front| && AckUnderWay(Run(s, front[..i]), n)
        ensures AckHarmless(Run(s, front[..i]), n)
      {
        assert front[..i] == trace[..i];
      }
      HarmlessIsInOrder(s, front);
      RunKeepsGood(s, front);
      RunKeepsCovered(s, front);
      var u := Run(s, front);
      if ev.who == Right && ev.move.Deliver? && ev.move.f.Data? && ev.move.f in u.toRight && ev.move.reached {
        assert trace[..|trace|] == trace;
        assert Run(s, trace) == Next(u, ev);
        AckSafeIff(u, ev.move.f.seqNo, ev.move.f.payload);
      }
    }
  }

  /** Exactly the runs in which no frame is acknowledged ahead of `expected_seq` keep every ACK
      harmless at every moment. */
  lemma HarmlessIff(s: System, trace: seq<Event>)
    requires Good(s) && AcksCovered(s)
    ensures Harmless(s, trace) <==> AllAckedInOrder(s, trace)
  {
    if Harmless(s, trace) {
      HarmlessIsInOrder(s, trace);
    } else if AllAckedInOrder(s, trace) {
      InOrderIsHarmless(s, trace);
    }
  }

  // ----- When a run really loses data -----

  /** The sender acts on this ACK: it moves the window. */
  predicate ActsOn(s: System, ev: Event) {
    && ev.who == Left && ev.move.Deliver? && ev.move.f in s.toLeft
    && ev.move.f.Ack? && ev.move.f.ackSeq >= s.left.snd.base
  }

  /** An ACK the sender acts on names a number that is delivered at that moment. */
  predicate ActedOnDelivered(s: System, ev: Event) {
    ActsOn(s, ev) ==> ev.move.f.ackSeq < s.right.rcv.expected
  }

  ghost predicate AllActedOnDelivered(s: System, trace: seq<Event>) {
    forall i :: 0 <= i < |trace| ==> ActedOnDelivered(Run(s, trace[..i]), trace[i])
  }

  ghost predicate NeverLost(s: System, trace: seq<Event>) {
    forall i :: 0 <= i <= |trace| ==> NothingLost(Run(s, trace[..i]).left.snd, Run(s, trace[..i]).right.rcv)
  }

  /** Nothing is lost as long as the window has not passed the receiver. */
  lemma LostIff(s: System)
    requires Good(s)
    ensures NothingLost(s.left.snd, s.right.rcv) <==> s.left.snd.base <= s.right.rcv.expected
  {
    var k := s.right.rcv.expected;
    assert k < s.left.snd.base ==> 1 <= k < StoredTo(s.left.snd) && k !in s.left.snd.unacked;
  }

  lemma LeftMovesBase(s: System, m: Move)
    ensures var t := LeftMove(s, m);
      && t.right == s.right
      && t.left.snd.base == if ActsOn(s, Event(Left, m)) then m.f.ackSeq + 1 else s.left.snd.base
  {
    hide Step, Receive;
    if m.Act? {
      StepKeepsBase(s.left, m.a);
    } else if m.Deliver? {
      ReceiveAnswers(s.left, m.f, m.reached);
    }
  }

  lemma RightReceives(s: System, m: Move)
    requires Bounded(s.right.rcv)
    ensures var t := Next(s, Event(Right, m));
      t.left == s.left && s.right.rcv.expected <= t.right.rcv.expected
  {
    hide Step, Accept;
    if m.Act? {
      StepKeepsBase(s.right, m.a);
    } else if m.Deliver? && m.f.Data? {
      AcceptEffect(s.right.rcv, m.f.seqNo, m.f.payload);
    }
  }

  /** One event loses something exactly if it acts on an ACK of an undelivered number. */
  lemma NextLosesIff(s: System, ev: Event)
    requires Good(s) && NothingLost(s.left.snd, s.right.rcv)
    ensures NothingLost(Next(s, ev).left.snd, Next(s, ev).right.rcv) <==> ActedOnDelivered(s, ev)
  {
    NextKeepsGood(s, ev);
    LostIff(s);
    LostIff(Next(s, ev));
    if ev.who == Left {
      LeftMovesBase(s, ev.move);
    } else {
      RightReceives(s, ev.move);
    }
    hide Good, NothingLost, LeftMove;
  }

  lemma NeverLostFront(s: System, trace: seq<Event>)
    requires trace != []
    ensures var front := trace[..|trace| - 1];
      && (NeverLost(s, trace) <==> NeverLost(s, front) && NothingLost(Run(s, trace).left.snd, Run(s, trace).right.rcv))
      && (AllActedOnDelivered(s, trace) <==>
            AllActedOnDelivered(s, front) && ActedOnDelivered(Run(s, front), trace[|trace| - 1]))
  {
    hide Run, NothingLost, ActedOnDelivered;
    var front := trace[..|trace| - 1];
    assert trace[..|trace|] == trace;
    assert forall i :: 0 <= i <= |front| ==> trace[..i] == front[..i];
  }

  /** A run keeps everything, at every moment, exactly if each ACK the sender acts on names a number
      delivered by then. */
  lemma {:induction false} NeverLostIff(s: System, trace: seq<Event>)
    requires Good(s) && NothingLost(s.left.snd, s.right.rcv)
    ensures NeverLost(s, trace) <==> AllActedOnDelivered(s, trace)
  {
    hide Good, NothingLost, ActedOnDelivered;
    if trace == [] {
      assert trace[..0] == [];
    } else {
      var front := trace[..|trace| - 1];
      NeverLostIff(s, front);
      NeverLostFront(s, trace);
      RunKeepsGood(s, front);
      assert NeverLost(s, front) ==> NothingLost(Run(s, front).left.snd, Run(s, front).right.rcv) by {
        assert front[..|front|] == front;
      }
      hide NeverLost, AllActedOnDelivered;
      if NothingLost(Run(s, front).left.snd, Run(s, front).right.rcv) {
        NextLosesIff(Run(s, front), trace[|trace| - 1]);
      }
    }
  }

  // ----- Channels that keep the order -----

  /** The number of the DATA frame that `left` transmits with this event, whether it gets through or not. */
  function SentNow(s: System, ev: Event): seq<nat> {
    if ev.who == Left && ev.move.Act? && ev.move.a.FirstSend? && s.left.snd.pc.Inserted? then [s.left.snd.pc.seqNo]
    else if ev.who == Left && ev.move.Act? && ev.move.a.Resend? && s.left.snd.pc.Resending? then [s.left.snd.pc.seqNo]
    else []
  }

  /** The number of the DATA frame that `right` handles with this event. */
  function HandledNow(s: System, ev: Event): seq<nat> {
    if ev.who == Right && ev.move.Deliver? && ev.move.f.Data? && ev.move.f in s.toRight then [ev.move.f.seqNo] else []
  }

  /** All DATA transmissions of `left` in this run, first ones and repeated ones, in order. */
  function Transmissions(s: System, trace: seq<Event>): seq<nat> {
    if trace == [] then []
    else
      var front := trace[..|trace| - 1];
      Transmissions(s, front) + SentNow(Run(s, front), trace[|trace| - 1])
  }

  /** All DATA frames that `right` handles, in order. */
  function Handled(s: System, trace: seq<Event>): seq<nat> {
    if trace == [] then []
    else
      var front := trace[..|trace| - 1];
      Handled(s, front) + HandledNow(Run(s, front), trace[|trace| - 1])
  }

  /** Every number below one in the list occurs before it. */
  ghost predicate Gapless(sent: seq<nat>) {
    forall j, k: nat :: 0 <= j < |sent| && 1 <= k < sent[j] ==> k in sent[..j]
  }

  ghost predicate SendsGapless(s: Sender, sent: seq<nat>)
    requires s.next >= 1
  {
    Gapless(sent) && forall k: nat :: 1 <= k < FirstUnsent(s) ==> k in sent
  }

  lemma NumberingUnsent(e: Endpoint)
    requires e.snd.next >= 1
    ensures var t := AssignSeqStep(e).snd; t.next >= 1 && FirstUnsent(t) == FirstUnsent(e.snd)
    ensures var t := InsertStep(e).snd; t.next >= 1 && FirstUnsent(t) == FirstUnsent(e.snd)
    ensures var t := FirstSendStep(e, true).after.snd;
      t.next >= 1 && FirstUnsent(t) == FirstUnsent(e.snd) + if e.snd.pc.Inserted? then 1 else 0
  {
  }

  lemma LoopUnsent(e: Endpoint, a: Action)
    requires e.snd.next >= 1 && !Standing(a) && !a.AssignSeq? && !a.InsertUnacked? && !a.FirstSend?
    ensures var t := Step(e, a).after.snd; t.next >= 1 && FirstUnsent(t) == FirstUnsent(e.snd)
  {
    hide AssignSeqStep, InsertStep, FirstSendStep;
  }

  lemma StandingUnsent(e: Endpoint, a: Action)
    requires e.snd.next >= 1 && Standing(a)
    ensures var t := Step(e, a).after.snd; t.next >= 1 && FirstUnsent(t) == FirstUnsent(e.snd)
  {
    StandingLeavesSender(e, a);
    hide Step;
  }

  lemma StepUnsent(e: Endpoint, a: Action)
    requires e.snd.next >= 1
    ensures var t := Step(e, a).after.snd;
      && t.next >= 1
      && FirstUnsent(t) == FirstUnsent(e.snd) + if a.FirstSend? && e.snd.pc.Inserted? then 1 else 0
  {
    if Standing(a) {
      StandingUnsent(e, a);
    } else if a.AssignSeq? || a.InsertUnacked? || a.FirstSend? {
      NumberingUnsent(e);
      hide AssignSeqStep, InsertStep;
    } else {
      LoopUnsent(e, a);
    }
    hide FirstUnsent;
  }

  lemma NextUnsent(s: System, ev: Event)
    requires Good(s)
    ensures var t, now := Next(s, ev).left.snd, SentNow(s, ev);
      && t.next >= 1
      && (now == [] ==> FirstUnsent(t) == FirstUnsent(s.left.snd))
      && (now != [] ==> now[0] <= FirstUnsent(s.left.snd) <= FirstUnsent(t) <= FirstUnsent(s.left.snd) + 1
                        && (FirstUnsent(t) > FirstUnsent(s.left.snd) ==> now[0] == FirstUnsent(s.left.snd)))
  {
    if ev.who == Right {
      RightLeavesEndpoint(s, ev.move);
    } else if ev.move.Act? {
      StepUnsent(s.left, ev.move.a);
    } else {
      NetworkLeavesLoop(s, ev.move);
    }
    hide Step, Receive;
  }

  lemma OneMoreGapless(sent: seq<nat>, now: seq<nat>, from: nat, to: nat)
    requires Gapless(sent) && forall k: nat :: 1 <= k < from ==> k in sent
    requires now == [] ==> to == from
    requires now != [] ==> |now| == 1 && now[0] <= from <= to <= from + 1 && (to > from ==> now[0] == from)
    ensures Gapless(sent + now) && forall k: nat :: 1 <= k < to ==> k in sent + now
  {
    forall j, k: nat | 0 <= j < |sent + now| && 1 <= k < (sent + now)[j] ensures k in (sent + now)[..j] {
      assert (sent + now)[..j] == if j < |sent| then sent[..j] else sent;
    }
  }

  lemma {:induction false} TransmissionsGapless(s: System, trace: seq<Event>)
    requires Good(s) && s.left.snd.next == 1
    ensures Run(s, trace).left.snd.next >= 1 && SendsGapless(Run(s, trace).left.snd, Transmissions(s, trace))
  {
    if trace != [] {
      var front := trace[..|trace| - 1];
      TransmissionsGapless(s, front);
      RunKeepsGood(s, front);
      var u, ev := Run(s, front), trace[|trace| - 1];
      NextUnsent(u, ev);
      var t := Next(u, ev).left.snd;
      OneMoreGapless(Transmissions(s, front), SentNow(u, ev), FirstUnsent(u.left.snd), FirstUnsent(t));
      hide Good, Next, FirstUnsent, Gapless;
    }
  }

  lemma NextHandles(s: System, ev: Event)
    requires Good(s)
    ensures var t, now := Next(s, ev), HandledNow(s, ev);
      && s.right.rcv.expected <= t.right.rcv.expected
      && |now| <= 1
      && (now != [] && now[0] <= s.right.rcv.expected ==> now[0] < t.right.rcv.expected)
      && (now == [] || now[0] <= s.right.rcv.expected ==> AckedInOrder(s, ev))
  {
    hide Step, Accept;
    if ev.who == Left {
      LeftMovesBase(s, ev.move);
    } else {
      RightReceives(s, ev.move);
      if ev.move.Deliver? && ev.move.f.Data? {
        AcceptEffect(s.right.rcv, ev.move.f.seqNo, ev.move.f.payload);
      }
    }
  }

  lemma GaplessAt(sent: seq<nat>, j: nat, k: nat)
    requires Gapless(sent) && j < |sent| && k >= 1
    ensures sent[j] <= k || k in sent[..j]
  {
  }

  lemma NextNotAhead(sent: seq<nat>, before: seq<nat>, now: seq<nat>, expected: nat)
    requires Gapless(sent) && before + now <= sent && expected >= 1
    requires forall k :: k in before ==> k < expected
    ensures now == [] || now[0] <= expected
  {
    if now != [] {
      assert sent[|before|] == (before + now)[|before|] == now[0];
      assert sent[..|before|] == (before + now)[..|before|] == before;
      GaplessAt(sent, |before|, expected);
    }
  }

  /** Frames handled in the order of a gapless list never run ahead of `expected_seq`. */
  lemma {:induction false} HandledInOrder(s: System, trace: seq<Event>, sent: seq<nat>)
    requires Good(s) && Gapless(sent) && Handled(s, trace) <= sent
    ensures AllAckedInOrder(s, trace)
    ensures forall k :: k in Handled(s, trace) ==> k < Run(s, trace).right.rcv.expected
  {
    if trace != [] {
      var front, ev := trace[..|trace| - 1], trace[|trace| - 1];
      var u, before := Run(s, front), Handled(s, front);
      assert Handled(s, trace) == before + HandledNow(u, ev);
      HandledInOrder(s, front, sent);
      RunKeepsGood(s, front);
      NextHandles(u, ev);
      var now, k := HandledNow(u, ev), u.right.rcv.expected;
      assert k >= 1 by { LinkPrefix(u.left.snd, u.right.rcv, u.toRight, u.toLeft); }
      NextNotAhead(sent, before, now, k);
      hide Good, Next, Gapless;
    }
  }

  /** On a channel that hands over DATA frames in the order they were sent, each once and none
      skipped, nothing is lost, whatever becomes of the ACKs. */
  lemma OrderedChannelLosesNothing(left: Config, right: Config, trace: seq<Event>)
    ensures var s := Init(left, right); Handled(s, trace) <= Transmissions(s, trace) ==> NeverLost(s, trace)
  {
    var s := Init(left, right);
    InitCovered(left, right);
    TransmissionsGapless(s, trace);
    if Handled(s, trace) <= Transmissions(s, trace) {
      HandledInOrder(s, trace, Transmissions(s, trace));
      InOrderNeverLoses(s, trace);
    }
    hide Good, Run, NeverLost;
  }

  lemma InOrderNeverLoses(s: System, trace: seq<Event>)
    requires Good(s) && AcksCovered(s) && AllAckedInOrder(s, trace)
    ensures NeverLost(s, trace)
  {
    forall i | 0 <= i <= |trace|
      ensures NothingLost(Run(s, trace[..i]).left.snd, Run(s, trace[..i]).right.rcv)
    {
      PrefixInOrder(s, trace, i);
      InOrderLosesNothing(s, trace[..i]);
    }
  }

  // ----- What a loss does to the connection -----

  /** The number the receiver waits for is neither kept, nor under way, nor about to be resent. */
  ghost predicate Starved(s: System) {
    var k := s.right.rcv.expected;
    && k < s.left.snd.base
    && (forall f :: f in s.toRight && f.Data? ==> f.seqNo != k)
    && (s.left.snd.pc.Resending? ==> s.left.snd.pc.seqNo != k)
  }

  lemma StepKeepsAway(e: Endpoint, a: Action, k: nat)
    requires SenderGood(e.snd) && k < e.snd.base
    requires e.snd.pc.Resending? ==> e.snd.pc.seqNo != k
    ensures var f := Step(e, a);
      && (f.after.snd.pc.Resending? ==> f.after.snd.pc.seqNo != k)
      && (f.out.Some? && f.out.value.Data? ==> f.out.value.seqNo != k)
  {
  }

  lemma LeftActKeepsStarved(s: System, a: Action)
    requires SenderGood(s.left.snd) && Starved(s)
    ensures var t := LeftMove(s, Act(a)); Starved(t) && t.right == s.right
  {
    StepKeepsBase(s.left, a);
    StepKeepsAway(s.left, a, s.right.rcv.expected);
    hide Step, SenderGood;
  }

  lemma LeftKeepsStarved(s: System, m: Move)
    requires SenderGood(s.left.snd) && Starved(s)
    ensures var t := LeftMove(s, m); Starved(t) && t.right == s.right
  {
    hide Step, Receive, SenderGood;
    if m.Act? {
      LeftActKeepsStarved(s, m.a);
    } else {
      NetworkLeavesLoop(s, m);
      if m.Deliver? {
        ReceiveAnswers(s.left, m.f, m.reached);
      }
    }
  }

  ghost predicate NothingNew(s: System, t: System) {
    t.right.rcv.expected == s.right.rcv.expected && t.right.rcv.delivered == s.right.rcv.delivered
  }

  lemma RightActKeepsStarved(s: System, a: Action)
    requires Starved(s)
    ensures var t := Next(s, Event(Right, Act(a))); Starved(t) && NothingNew(s, t)
  {
    StepKeepsBase(s.right, a);
    hide Step;
  }

  lemma RightDeliverKeepsStarved(s: System, f: Frame, reached: bool)
    requires Starved(s)
    ensures var t := Next(s, Event(Right, Deliver(f, reached))); Starved(t) && NothingNew(s, t)
  {
    hide Accept;
    if f.Data? && f in s.toRight {
      AheadDeliversNothing(s.right.rcv, f.seqNo, f.payload);
    }
  }

  lemma AheadDeliversNothing(r: Receiver, seqNo: nat, payload: Payload)
    requires seqNo != r.expected
    ensures var n := Accept(r, seqNo, payload); n.expected == r.expected && n.delivered == r.delivered
  {
  }

  lemma RightKeepsStarved(s: System, m: Move)
    requires Starved(s)
    ensures var t := Next(s, Event(Right, m)); Starved(t) && NothingNew(s, t)
  {
    hide Step, Receive;
    match m
    case Act(a) => RightActKeepsStarved(s, a);
    case Deliver(f, reached) => RightDeliverKeepsStarved(s, f, reached);
    case _ =>
  }

  /** A starved connection is stuck for good: whatever happens next, nothing more is delivered. */
  lemma {:induction false} StarvedForever(s: System, trace: seq<Event>)
    requires Good(s) && Starved(s)
    ensures var t := Run(s, trace);
      Starved(t) && NothingNew(s, t)
  {
    if trace != [] {
      var front, ev := trace[..|trace| - 1], trace[|trace| - 1];
      StarvedForever(s, front);
      RunKeepsGood(s, front);
      if ev.who == Left {
        LeftKeepsStarved(Run(s, front), ev.move);
      } else {
        RightKeepsStarved(Run(s, front), ev.move);
      }
    }
  }

  // ----- Which windows are safe -----

  lemma InitCovered(left: Config, right: Config)
    ensures Good(Init(left, right)) && AcksCovered(Init(left, right))
    ensures Good(Flip(Init(left, right))) && AcksCovered(Flip(Init(left, right)))
  {
  }

  /** With a window of one, no frame can be ahead of `expected_seq`. */
  lemma {:induction false} StopAndWaitInOrder(s: System, trace: seq<Event>)
    requires Good(s) && AcksCovered(s) && s.left.snd.window <= 1
    ensures AllAckedInOrder(s, trace)
  {
    if trace != [] {
      var front, ev := trace[..|trace| - 1], trace[|trace| - 1];
      StopAndWaitInOrder(s, front);
      RunKeepsGood(s, front);
      RunKeepsCovered(s, front);
      RunKeepsSettings(s, front);
      var u := Run(s, front);
      if ev.move.Deliver? && ev.move.f in u.toRight {
        assert GoodOut(u.left.snd, ev.move.f);
      }
    }
  }

  /** An open sender that has sent nothing, a receiver that has got nothing, and an empty network. */
  predicate Untouched(s: System) {
    && Idle(s.left) && s.left.snd.base == 1 && s.left.snd.next == 1
    && s.right.rcv.expected == 1 && s.toLeft == multiset{} && s.toRight == multiset{}
  }

  function Overtaken(q: Payload): seq<Event> {
    [Event(Right, Deliver(Data(2, q), true)), Event(Left, Deliver(Ack(2), true))]
  }

  /** The first frame is lost, the second arrives and is acknowledged. */
  function Overtaking(p: Payload, q: Payload): seq<Event> {
    Transmission(p, false) + (Transmission(q, true) + Overtaken(q))
  }

  lemma OvertakenEffect(s: System, q: Payload)
    requires s.toRight == multiset{Data(2, q)} && s.toLeft == multiset{}
    requires s.right.rcv.expected == 1 && s.left.snd.base == 1 && s.left.snd.next == 3
    requires s.left.snd.pc == LoopTop
    ensures var t := Run(s, Overtaken(q));
      && t.left.snd == Acknowledge(s.left.snd, 2) && t.right.rcv.expected == 1 && t.toRight == multiset{}
  {
    hide Run, Acknowledge;
    RunTwo(s, Overtaken(q)[0], Overtaken(q)[1]);
    var t := Next(s, Overtaken(q)[0]);
    assert t.toLeft == multiset{Ack(2)} && t.toRight == multiset{};
    assert t.right.rcv.expected == 1 && t.left == s.left;
  }

  lemma OvertakenStarves(s: System, t: System)
    requires s.left.snd.base == 1 && s.left.snd.next == 3 && s.left.snd.pc == LoopTop
    requires t.left.snd == Acknowledge(s.left.snd, 2) && t.right.rcv.expected == 1 && t.toRight == multiset{}
    ensures Starved(t) && !NothingLost(t.left.snd, t.right.rcv)
  {
    assert 1 !in t.left.snd.unacked && 1 < StoredTo(t.left.snd);
  }

  lemma OvertakingStarves(s: System, p: Payload, q: Payload)
    requires Untouched(s) && s.left.snd.window >= 2 && p != [] && q != []
    ensures var t := Run(s, Overtaking(p, q)); Starved(t) && !NothingLost(t.left.snd, t.right.rcv)
  {
    hide Run, Starved, NothingLost;
    TransmissionEffect(s, p, false);
    var s1 := Transmitted(s, p, false);
    TransmissionEffect(s1, q, true);
    var s2 := Transmitted(s1, q, true);
    assert s2.toRight == multiset{Data(2, q)};
    OvertakenEffect(s2, q);
    OvertakenStarves(s2, Run(s2, Overtaken(q)));
    RunConcat(s1, Transmission(q, true), Overtaken(q));
    RunConcat(s, Transmission(p, false), Transmission(q, true) + Overtaken(q));
  }

  function LossyRun(p: Payload, q: Payload): seq<Event> {
    Opened() + Overtaking(p, q)
  }

  lemma LossyRunStarves(left: Config, right: Config, p: Payload, q: Payload)
    requires left.window >= 2 && left.capacity >= 1 && p != [] && q != []
    ensures var t := Run(Init(left, right), LossyRun(p, q));
      Good(t) && Starved(t) && !NothingLost(t.left.snd, t.right.rcv)
  {
    hide Run, Good, Starved, NothingLost, Overtaking;
    OpenedEffect(left, right);
    OvertakingStarves(Run(Init(left, right), Opened()), p, q);
    RunConcat(Init(left, right), Opened(), Overtaking(p, q));
    Reachable(left, right, LossyRun(p, q));
  }

  /** The accepting end is open from the start, so the OPEN_ACK may get lost on the way. */
  function BackwardRun(p: Payload, q: Payload): seq<Event> {
    [Event(Right, Drop(OpenAck))] + Overtaking(p, q)
  }

  lemma DroppedEffect(s: System)
    requires s.toRight == multiset{OpenAck}
    ensures Run(s, [Event(Right, Drop(OpenAck))]) == s.(toRight := multiset{})
  {
    RunOne(s, Event(Right, Drop(OpenAck)));
    assert multiset{OpenAck} - multiset{OpenAck} == multiset{};
  }

  lemma BackwardRunStarves(left: Config, right: Config, p: Payload, q: Payload)
    requires right.window >= 2 && right.capacity >= 1 && p != [] && q != []
    ensures var t := Run(Init(left, right), Mirror(BackwardRun(p, q)));
      Starved(Flip(t)) && !NothingLost(t.right.snd, t.left.rcv)
  {
    hide Run, Starved, NothingLost, Overtaking, Mirror;
    var s := Flip(Init(left, right));
    DroppedEffect(s);
    OvertakingStarves(s.(toRight := multiset{}), p, q);
    RunConcat(s, [Event(Right, Drop(OpenAck))], Overtaking(p, q));
    RunMirror(s, BackwardRun(p, q));
    assert Flip(s) == Init(left, right);
  }

  lemma StopAndWaitLosesNothing(s: System, trace: seq<Event>)
    requires Good(s) && AcksCovered(s) && s.left.snd.window <= 1
    ensures NothingLost(Run(s, trace).left.snd, Run(s, trace).right.rcv)
  {
    StopAndWaitInOrder(s, trace);
    InOrderLosesNothing(s, trace);
  }

  lemma BackwardLosesNothing(left: Config, right: Config, trace: seq<Event>)
    requires right.window <= 1
    ensures NothingLost(Run(Init(left, right), trace).right.snd, Run(Init(left, right), trace).left.rcv)
  {
    hide Run, NothingLost, Good, AcksCovered;
    var s := Init(left, right);
    InitCovered(left, right);
    StopAndWaitLosesNothing(Flip(s), Mirror(trace));
    RunMirror(s, trace);
  }

  /** Data from the connecting to the accepting end is safe on every channel exactly when the window
      of the connecting end is at most one; the default window is 16. */
  lemma LosslessIffStopAndWait(left: Config, right: Config)
    requires left.capacity >= 1
    ensures (forall trace :: var t := Run(Init(left, right), trace);
               NothingLost(t.left.snd, t.right.rcv))
            <==> left.window <= 1
  {
    hide Run, NothingLost, Good, AcksCovered, LossyRun;
    if left.window <= 1 {
      forall trace
        ensures var t := Run(Init(left, right), trace);
          NothingLost(t.left.snd, t.right.rcv)
      {
        InitCovered(left, right);
        StopAndWaitLosesNothing(Init(left, right), trace);
      }
    } else {
      var p: Payload := [0];
      LossyRunStarves(left, right, p, p);
      var t := Run(Init(left, right), LossyRun(p, p));
      assert !NothingLost(t.left.snd, t.right.rcv);
    }
  }

  /** And the same for data going back, with the window of the accepting end. */
  lemma BackwardLosslessIff(left: Config, right: Config)
    requires right.capacity >= 1
    ensures (forall trace :: var t := Run(Init(left, right), trace);
               NothingLost(t.right.snd, t.left.rcv))
            <==> right.window <= 1
  {
    hide Run, NothingLost, BackwardRun, Mirror;
    if right.window <= 1 {
      forall trace
        ensures var t := Run(Init(left, right), trace);
          NothingLost(t.right.snd, t.left.rcv)
      {
        BackwardLosesNothing(left, right, trace);
      }
    } else {
      var p: Payload := [0];
      BackwardRunStarves(left, right, p, p);
      var t := Run(Init(left, right), Mirror(BackwardRun(p, p)));
      assert !NothingLost(t.right.snd, t.left.rcv);
    }
  }
}
