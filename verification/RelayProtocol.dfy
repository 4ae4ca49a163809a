/** Two relay endpoints and the network between them.

    The network is one bag of frames per direction. It may lose, duplicate and reorder frames at
    will, and hand over frames of other kinds than DATA and ACK that no end has sent. The two ends may
    take their steps in any order, so a run is any sequence of events. */
module RelayProtocol {
  import opened Common
  import opened Reassembly
  import opened RelayEndpoint

  datatype Side = Left | Right

  datatype System = System(left: Endpoint, right: Endpoint, toLeft: multiset<Frame>, toRight: multiset<Frame>)

  datatype Move =
    | Act(a: Action)
    | Deliver(f: Frame, reached: bool)
    | Drop(f: Frame)
    | Duplicate(f: Frame)
    | Inject(f: Frame)

  /** `who` acts, or is at the receiving end of the network's move. */
  datatype Event = Event(who: Side, move: Move)

  function Flip(s: System): System {
    System(s.right, s.left, s.toRight, s.toLeft)
  }

  function Put(net: multiset<Frame>, out: Option<Frame>): multiset<Frame> {
    if out.Some? then net + multiset{out.value} else net
  }

  function LeftMove(s: System, m: Move): System {
    match m
    case Act(a) =>
      var e := Step(s.left, a);
      s.(left := e.after, toRight := Put(s.toRight, e.out))
    case Deliver(f, reached) =>
      if f !in s.toLeft then s
      else
        var e := Receive(s.left, f, reached);
        s.(left := e.after, toLeft := s.toLeft - multiset{f}, toRight := Put(s.toRight, e.out))
    case Drop(f) =>
      s.(toLeft := s.toLeft - multiset{f})
    case Duplicate(f) =>
      if f in s.toLeft then s.(toLeft := s.toLeft + multiset{f}) else s
    case Inject(f) =>
      if f.Data? || f.Ack? then s else s.(toLeft := s.toLeft + multiset{f})
  }

  function Next(s: System, ev: Event): System {
    if ev.who == Left then LeftMove(s, ev.move) else Flip(LeftMove(Flip(s), ev.move))
  }

  function Run(s: System, trace: seq<Event>): System {
    if trace == [] then s else Next(Run(s, trace[..|trace| - 1]), trace[|trace| - 1])
  }

  datatype Config = Config(window: nat, maxRetransmits: nat, capacity: nat)

  /** The connecting side waits for the OPEN_ACK that the accepting side, already open, has sent. */
  function Init(left: Config, right: Config): System {
    System(Fresh(left.window, left.maxRetransmits, left.capacity, Opening),
           Fresh(right.window, right.maxRetransmits, right.capacity, Open),
           multiset{OpenAck}, multiset{})
  }

  lemma RunOne(s: System, x: Event)
    ensures Run(s, [x]) == Next(s, x)
  {
  }

  lemma RunSnoc(s: System, trace: seq<Event>, x: Event)
    ensures Run(s, trace + [x]) == Next(Run(s, trace), x)
  {
    assert (trace + [x])[..|trace|] == trace;
  }

  lemma RunTwo(s: System, x: Event, y: Event)
    ensures Run(s, [x, y]) == Next(Next(s, x), y)
  {
    hide Next;
    RunOne(s, x);
    RunSnoc(s, [x], y);
    assert [x, y] == [x] + [y];
  }

  lemma RunThree(s: System, x: Event, y: Event, z: Event)
    ensures Run(s, [x, y, z]) == Next(Next(Next(s, x), y), z)
  {
    hide Next, Run;
    RunTwo(s, x, y);
    RunSnoc(s, [x, y], z);
    assert [x, y, z] == [x, y] + [z];
  }

  lemma {:induction false} RunConcat(s: System, a: seq<Event>, b: seq<Event>)
    ensures Run(s, a + b) == Run(Run(s, a), b)
  {
    if b == [] {
      assert a + b == a;
    } else {
      assert (a + b)[..|a + b| - 1] == a + b[..|b| - 1];
      RunConcat(s, a, b[..|b| - 1]);
    }
  }

  lemma ActKeepsSettings(s: System, a: Action)
    ensures var t := LeftMove(s, Act(a)); SameSettings(s.left, t.left) && t.right == s.right
  {
  }

  lemma LeftKeepsSettings(s: System, m: Move)
    ensures var t := LeftMove(s, m); SameSettings(s.left, t.left) && t.right == s.right
  {
    hide Step, Receive;
    match m
    case Act(a) => ActKeepsSettings(s, a);
    case Deliver(f, reached) => ReceiveKeepsSettings(s.left, f, reached);
    case _ =>
  }

  lemma RightLeavesEndpoint(s: System, m: Move)
    ensures Next(s, Event(Right, m)).left == s.left
  {
  }

  lemma NetworkLeavesLoop(s: System, m: Move)
    requires !m.Act?
    ensures var t := LeftMove(s, m).left;
      t.snd.pc == s.left.snd.pc && t.snd.next == s.left.snd.next && t.closed == s.left.closed
  {
    hide Receive;
    if m.Deliver? {
      ReceiveLeavesLoop(s.left, m.f, m.reached);
    }
  }

  lemma NextKeepsSettings(s: System, ev: Event)
    ensures var t := Next(s, ev); SameSettings(s.left, t.left) && SameSettings(s.right, t.right)
  {
    hide LeftMove;
    LeftKeepsSettings(s, ev.move);
    LeftKeepsSettings(Flip(s), ev.move);
  }

  lemma {:induction false} RunKeepsSettings(s: System, trace: seq<Event>)
    ensures var t := Run(s, trace); SameSettings(s.left, t.left) && SameSettings(s.right, t.right)
  {
    if trace != [] {
      RunKeepsSettings(s, trace[..|trace| - 1]);
      NextKeepsSettings(Run(s, trace[..|trace| - 1]), trace[|trace| - 1]);
    }
  }

  // ----- The two ends are alike -----

  function Other(who: Side): Side {
    if who == Left then Right else Left
  }

  function Mirror(trace: seq<Event>): (m: seq<Event>)
    ensures |m| == |trace|
    ensures forall i :: 0 <= i < |m| ==> m[i] == Event(Other(trace[i].who), trace[i].move)
  {
    seq(|trace|, i requires 0 <= i < |trace| => Event(Other(trace[i].who), trace[i].move))
  }

  /** Exchanging the two ends of a run gives the run of the exchanged ends, so what is proved of data
      going one way holds the other way. */
  lemma {:induction false} RunMirror(s: System, trace: seq<Event>)
    ensures Run(Flip(s), Mirror(trace)) == Flip(Run(s, trace))
  {
    hide LeftMove;
    if trace != [] {
      var front, last := trace[..|trace| - 1], trace[|trace| - 1];
      RunMirror(s, front);
      assert Mirror(trace)[..|trace| - 1] == Mirror(front);
      assert Mirror(trace)[|trace| - 1] == Event(Other(last.who), last.move);
    }
  }

  // ----- The invariant joining one sender, its peer's receiver and the network -----

  /** The payload accepted for each sequence number; numbering starts at 1. */
  function Sent(accepted: seq<Payload>): (m: map<nat, Payload>)
    ensures forall k: nat :: k in m <==> 1 <= k <= |accepted|
    ensures forall k :: k in m ==> m[k] == accepted[k - 1]
  {
    if accepted == [] then map[]
    else Sent(accepted[..|accepted| - 1])[|accepted| := accepted[|accepted| - 1]]
  }

  ghost predicate ReceiverGood(s: Sender, r: Receiver)
    requires SenderGood(s)
  {
    && Bounded(r)
    && 1 <= r.expected <= FirstUnsent(s)
    && (forall k :: k in r.buf ==> k < FirstUnsent(s))
    && Genuine(r, Sent(s.accepted), 1, [])
  }

  ghost predicate GoodAck(s: Sender, f: Frame)
    requires SenderGood(s)
  {
    f.Ack? ==> 1 <= f.ackSeq < FirstUnsent(s)
  }

  ghost predicate LinkGood(s: Sender, r: Receiver, fwd: multiset<Frame>, back: multiset<Frame>) {
    && SenderGood(s)
    && ReceiverGood(s, r)
    && (forall f :: f in fwd ==> GoodOut(s, f))
    && (forall f :: f in back ==> GoodAck(s, f))
  }

  ghost predicate Good(s: System) {
    && LinkGood(s.left.snd, s.right.rcv, s.toRight, s.toLeft)
    && LinkGood(s.right.snd, s.left.rcv, s.toLeft, s.toRight)
  }

  lemma SentGrows(r: Receiver, a: seq<Payload>, b: seq<Payload>)
    requires a <= b && Genuine(r, Sent(a), 1, [])
    ensures Genuine(r, Sent(b), 1, [])
  {
    forall k | k in Sent(a) ensures k in Sent(b) && Sent(b)[k] == Sent(a)[k] {
      assert 1 <= k <= |b|;
    }
    assert Slice(Sent(a), 1, r.expected) == Slice(Sent(b), 1, r.expected);
  }

  lemma LinkSenderMoves(s: Sender, t: Sender, out: Option<Frame>,
                        r: Receiver, fwd: multiset<Frame>, back: multiset<Frame>)
    requires LinkGood(s, r, fwd, back) && GoodMove(s, t, out)
    ensures LinkGood(t, r, Put(fwd, out), back)
  {
    SentGrows(r, s.accepted, t.accepted);
  }

  lemma LinkAcks(s: Sender, r: Receiver, fwd: multiset<Frame>, back: multiset<Frame>, ackSeq: nat)
    requires LinkGood(s, r, fwd, back) && Ack(ackSeq) in back
    ensures LinkGood(Acknowledge(s, ackSeq), r, fwd, back - multiset{Ack(ackSeq)})
  {
    assert GoodAck(s, Ack(ackSeq));
    AcknowledgeKeepsSender(s, ackSeq);
    LinkSenderMoves(s, Acknowledge(s, ackSeq), None, r, fwd, back);
  }

  lemma LinkReceives(s: Sender, r: Receiver, fwd: multiset<Frame>, back: multiset<Frame>,
                     seqNo: nat, payload: Payload)
    requires LinkGood(s, r, fwd, back) && Data(seqNo, payload) in fwd
    ensures ReceiverGood(s, Accept(r, seqNo, payload)) && GoodAck(s, Ack(seqNo))
  {
    assert GoodOut(s, Data(seqNo, payload));
    AcceptEffect(r, seqNo, payload);
    AcceptGenuine(r, seqNo, Sent(s.accepted), 1, []);
    hide Accept, SenderGood, Genuine;
    var n := Accept(r, seqNo, payload);
    assert Holds(n, n.expected - 1);
    forall k | k in n.buf ensures k < FirstUnsent(s) {
      assert Holds(n, k);
    }
  }

  lemma LinkLessTraffic(s: Sender, r: Receiver, fwd: multiset<Frame>, back: multiset<Frame>,
                        fwd2: multiset<Frame>, back2: multiset<Frame>)
    requires LinkGood(s, r, fwd, back)
    requires forall f :: f in fwd2 && f !in fwd ==> GoodOut(s, f)
    requires forall f :: f in back2 && f !in back ==> GoodAck(s, f)
    ensures LinkGood(s, r, fwd2, back2)
  {
  }

  lemma ActKeepsGood(s: System, a: Action)
    requires Good(s)
    ensures Good(LeftMove(s, Act(a)))
  {
    hide SenderGood, ReceiverGood, GoodMove;
    var e := Step(s.left, a);
    StepKeepsSender(s.left, a);
    LinkSenderMoves(s.left.snd, e.after.snd, e.out, s.right.rcv, s.toRight, s.toLeft);
    assert e.out.Some? ==> !e.out.value.Ack? by { assert GoodMove(s.left.snd, e.after.snd, e.out); }
    LinkLessTraffic(s.right.snd, s.left.rcv, s.toLeft, s.toRight, s.toLeft, Put(s.toRight, e.out));
  }

  lemma DataKeepsGood(s: System, seqNo: nat, payload: Payload, reached: bool)
    requires Good(s) && Data(seqNo, payload) in s.toLeft
    ensures Good(LeftMove(s, Deliver(Data(seqNo, payload), reached)))
  {
    hide SenderGood, ReceiverGood, Accept;
    var t := LeftMove(s, Deliver(Data(seqNo, payload), reached));
    LinkLessTraffic(s.left.snd, s.right.rcv, s.toRight, s.toLeft, t.toRight, t.toLeft);
    LinkReceives(s.right.snd, s.left.rcv, s.toLeft, s.toRight, seqNo, payload);
    LinkLessTraffic(s.right.snd, s.left.rcv, s.toLeft, s.toRight, t.toLeft, t.toRight);
  }

  lemma AckKeepsGood(s: System, ackSeq: nat, reached: bool)
    requires Good(s) && Ack(ackSeq) in s.toLeft
    ensures Good(LeftMove(s, Deliver(Ack(ackSeq), reached)))
  {
    hide SenderGood, ReceiverGood, Acknowledge;
    var t := LeftMove(s, Deliver(Ack(ackSeq), reached));
    LinkAcks(s.left.snd, s.right.rcv, s.toRight, s.toLeft, ackSeq);
    LinkLessTraffic(s.right.snd, s.left.rcv, s.toLeft, s.toRight, t.toLeft, t.toRight);
  }

  lemma SignalKeepsGood(s: System, f: Frame, reached: bool)
    requires Good(s) && !f.Data? && !f.Ack?
    ensures Good(LeftMove(s, Deliver(f, reached)))
  {
    hide SenderGood, ReceiverGood, Receive;
    ReceiveAnswers(s.left, f, reached);
    var t := LeftMove(s, Deliver(f, reached));
    assert t.left.snd == s.left.snd && t.left.rcv == s.left.rcv && t.right == s.right;
    LinkLessTraffic(s.left.snd, s.right.rcv, s.toRight, s.toLeft, t.toRight, t.toLeft);
    LinkLessTraffic(s.right.snd, s.left.rcv, s.toLeft, s.toRight, t.toLeft, t.toRight);
  }

  lemma DeliverKeepsGood(s: System, f: Frame, reached: bool)
    requires Good(s)
    ensures Good(LeftMove(s, Deliver(f, reached)))
  {
    hide Good, Receive;
    if f in s.toLeft {
      match f
      case Data(seqNo, payload) => DataKeepsGood(s, seqNo, payload, reached);
      case Ack(ackSeq) => AckKeepsGood(s, ackSeq, reached);
      case _ => SignalKeepsGood(s, f, reached);
    }
  }

  lemma NetworkKeepsGood(s: System, m: Move)
    requires Good(s) && (m.Drop? || m.Duplicate? || m.Inject?)
    ensures Good(LeftMove(s, m))
  {
  }

  lemma LeftKeepsGood(s: System, m: Move)
    requires Good(s)
    ensures Good(LeftMove(s, m))
  {
    match m
    case Act(a) => ActKeepsGood(s, a);
    case Deliver(f, reached) => DeliverKeepsGood(s, f, reached);
    case _ => NetworkKeepsGood(s, m);
  }

  lemma NextKeepsGood(s: System, ev: Event)
    requires Good(s)
    ensures Good(Next(s, ev))
  {
    LeftKeepsGood(s, ev.move);
    LeftKeepsGood(Flip(s), ev.move);
  }

  lemma {:induction false} RunKeepsGood(s: System, trace: seq<Event>)
    requires Good(s)
    ensures Good(Run(s, trace))
  {
    if trace != [] {
      RunKeepsGood(s, trace[..|trace| - 1]);
      NextKeepsGood(Run(s, trace[..|trace| - 1]), trace[|trace| - 1]);
    }
  }

  lemma Reachable(left: Config, right: Config, trace: seq<Event>)
    ensures Good(Run(Init(left, right), trace))
  {
    assert Sent([]) == map[];
    assert Slice(Sent([]), 1, 1) == [];
    RunKeepsGood(Init(left, right), trace);
  }

  // ----- What every run keeps -----

  /** One direction delivers a gap-free, duplicate-free prefix of what its sender accepted. */
  predicate DeliversPrefix(s: Sender, r: Receiver) {
    && 1 <= r.expected <= s.next
    && r.expected - 1 <= |s.accepted|
    && r.delivered == s.accepted[..r.expected - 1]
  }

  lemma LinkPrefix(s: Sender, r: Receiver, fwd: multiset<Frame>, back: multiset<Frame>)
    requires LinkGood(s, r, fwd, back)
    ensures DeliversPrefix(s, r)
  {
  }

  /** Safety of the relay in both directions, over every run on every channel. */
  lemma PrefixDelivery(left: Config, right: Config, trace: seq<Event>)
    ensures var s := Run(Init(left, right), trace);
      DeliversPrefix(s.left.snd, s.right.rcv) && DeliversPrefix(s.right.snd, s.left.rcv)
  {
    Reachable(left, right, trace);
    var s := Run(Init(left, right), trace);
    LinkPrefix(s.left.snd, s.right.rcv, s.toRight, s.toLeft);
    LinkPrefix(s.right.snd, s.left.rcv, s.toLeft, s.toRight);
  }

  /** The sliding window as it stands at every moment of every run: `send_base` never overtakes
      `next_seq`, so the unsigned subtraction of the window check never wraps; at most a window of
      numbers is out; between passes of the send loop `unacked` holds exactly that window with the
      payloads first accepted; an ACK under way never names a number that was not sent. */
  ghost predicate WindowExact(s: Sender, acks: multiset<Frame>) {
    && 1 <= s.base <= s.next <= s.base + s.window
    && s.next - 1 <= |s.accepted|
    && (!s.pc.Assigned? ==> forall k: nat :: k in s.unacked <==> s.base <= k < s.next)
    && (forall k :: k in s.unacked ==> 1 <= k < s.next && s.unacked[k].data == s.accepted[k - 1])
    && (forall f :: f in acks && f.Ack? ==> 1 <= f.ackSeq < s.next)
  }

  lemma LinkWindow(s: Sender, r: Receiver, fwd: multiset<Frame>, back: multiset<Frame>)
    requires LinkGood(s, r, fwd, back)
    ensures WindowExact(s, back)
  {
  }

  lemma SenderWindow(left: Config, right: Config, trace: seq<Event>)
    ensures var s := Run(Init(left, right), trace);
      && WindowExact(s.left.snd, s.toLeft) && WindowExact(s.right.snd, s.toRight)
      && s.left.snd.window == left.window && s.right.snd.window == right.window
  {
    Reachable(left, right, trace);
    RunKeepsSettings(Init(left, right), trace);
    var s := Run(Init(left, right), trace);
    LinkWindow(s.left.snd, s.right.rcv, s.toRight, s.toLeft);
    LinkWindow(s.right.snd, s.left.rcv, s.toLeft, s.toRight);
    hide LinkGood, WindowExact;
  }

  predicate BufferWithin(r: Receiver, window: nat) {
    Bounded(r) && r.window == window && |r.buf| <= if window == 0 then 0 else window - 1
  }

  /** In every run the reassembly buffer of each end stays below its configured window. */
  lemma ReceiveBufferBound(left: Config, right: Config, trace: seq<Event>)
    ensures var s := Run(Init(left, right), trace);
      BufferWithin(s.left.rcv, left.window) && BufferWithin(s.right.rcv, right.window)
  {
    Reachable(left, right, trace);
    RunKeepsSettings(Init(left, right), trace);
    BufferSize(Run(Init(left, right), trace).left.rcv);
    BufferSize(Run(Init(left, right), trace).right.rcv);
  }

  // ----- The lifecycle of each end -----

  lemma Stays(e: Endpoint)
    ensures Rises(e, e)
  {
  }

  lemma RisesOn(e: Endpoint, f: Endpoint, g: Endpoint)
    requires Rises(e, f) && Rises(f, g)
    ensures Rises(e, g)
  {
  }

  lemma NextRises(s: System, ev: Event)
    requires LifeGood(s.left) && LifeGood(s.right)
    ensures var t := Next(s, ev);
      LifeGood(t.left) && LifeGood(t.right) && Rises(s.left, t.left) && Rises(s.right, t.right)
  {
    hide LifeGood, Rises;
    Stays(s.left);
    Stays(s.right);
    var e := if ev.who == Left then s.left else s.right;
    match ev.move
    case Act(a) => StepRises(e, a);
    case Deliver(f, reached) => ReceiveRises(e, f, reached);
    case _ =>
  }

  lemma {:induction false} RunKeepsLife(s: System, trace: seq<Event>)
    requires LifeGood(s.left) && LifeGood(s.right)
    ensures LifeGood(Run(s, trace).left) && LifeGood(Run(s, trace).right)
  {
    hide LifeGood, Next;
    if trace != [] {
      RunKeepsLife(s, trace[..|trace| - 1]);
      NextRises(Run(s, trace[..|trace| - 1]), trace[|trace| - 1]);
    }
  }

  lemma InitLife(left: Config, right: Config)
    ensures var s := Init(left, right);
      LifeGood(s.left) && LifeGood(s.right) && Rises(s.left, s.left) && Rises(s.right, s.right)
  {
  }

  lemma {:induction false} RunRises(left: Config, right: Config, first: seq<Event>, rest: seq<Event>)
    ensures var s, t := Run(Init(left, right), first), Run(Init(left, right), first + rest);
      LifeGood(t.left) && LifeGood(t.right) && Rises(s.left, t.left) && Rises(s.right, t.right)
    decreases |first| + |rest|
  {
    hide LifeGood, Rises, Next;
    if rest != [] {
      var front, last := rest[..|rest| - 1], rest[|rest| - 1];
      RunRises(left, right, first, front);
      assert (first + rest)[..|first + rest| - 1] == first + front;
      var s, t := Run(Init(left, right), first), Run(Init(left, right), first + front);
      NextRises(t, last);
      RisesOn(s.left, t.left, Next(t, last).left);
      RisesOn(s.right, t.right, Next(t, last).right);
    } else if first != [] {
      assert first + rest == first;
      var front := first[..|first| - 1];
      RunRises(left, right, front, []);
      assert front + [] == front;
      NextRises(Run(Init(left, right), front), first[|first| - 1]);
      Stays(Run(Init(left, right), first).left);
      Stays(Run(Init(left, right), first).right);
    } else {
      assert first + rest == [];
      InitLife(left, right);
    }
  }
}
