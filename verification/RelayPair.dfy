/** Two connection objects with a network between them, driven through any sequence of events: what is
    proved of runs is true of the objects. The driver stands for the scheduler and the network. */
module RelayPair {
  import opened Common
  import opened Reassembly
  import opened RelayEndpoint
  import opened RelayProtocol
  import opened RelayConnection

  ghost function Together(left: Connection, right: Connection,
                          toLeft: multiset<Frame>, toRight: multiset<Frame>): System
    reads left, right
  {
    System(left.Model(), right.Model(), toLeft, toRight)
  }

  /** One move of the end `me` or of the network towards it; `peer` is whatever the other end is. */
  method MoveEnd(me: Connection, m: Move, ghost peer: Endpoint, inbound: multiset<Frame>, outbound: multiset<Frame>)
    returns (inboundAfter: multiset<Frame>, outboundAfter: multiset<Frame>)
    requires me.Valid() && forall f :: f in inbound ==> Plausible(me.Outgoing(), f)
    modifies me
    ensures me.Valid()
    ensures System(me.Model(), peer, inboundAfter, outboundAfter)
         == LeftMove(System(old(me.Model()), peer, inbound, outbound), m)
  {
    hide EndpointGood, Step, Receive, Plausible;
    inboundAfter, outboundAfter := inbound, outbound;
    var out: Option<Frame> := None;
    match m {
      case Act(a) =>
        out := me.Perform(a);
      case Deliver(f, reached) =>
        if f in inbound {
          out := me.HandleEnvelope(f, reached);
          inboundAfter := inbound - multiset{f};
        }
      case Drop(f) =>
        inboundAfter := inbound - multiset{f};
      case Duplicate(f) =>
        if f in inbound {
          inboundAfter := inbound + multiset{f};
        }
      case Inject(f) =>
        if !f.Data? && !f.Ack? {
          inboundAfter := inbound + multiset{f};
        }
    }
    if out.Some? {
      outboundAfter := outbound + multiset{out.value};
    }
  }

  lemma GoodIsPlausible(s: System)
    requires Good(s)
    ensures SenderGood(s.left.snd) && SenderGood(s.right.snd)
    ensures forall f :: f in s.toLeft ==> Plausible(s.left.snd, f)
    ensures forall f :: f in s.toRight ==> Plausible(s.right.snd, f)
  {
    forall f | f in s.toLeft ensures Plausible(s.left.snd, f) {
      assert GoodAck(s.left.snd, f);
    }
    forall f | f in s.toRight ensures Plausible(s.right.snd, f) {
      assert GoodAck(s.right.snd, f);
    }
  }

  method MovePair(left: Connection, right: Connection, ev: Event, toLeft: multiset<Frame>, toRight: multiset<Frame>)
    returns (toLeftAfter: multiset<Frame>, toRightAfter: multiset<Frame>)
    requires left != right && left.Valid() && right.Valid()
    requires Good(Together(left, right, toLeft, toRight))
    modifies left, right
    ensures left.Valid() && right.Valid()
    ensures Together(left, right, toLeftAfter, toRightAfter)
         == Next(old(Together(left, right, toLeft, toRight)), ev)
  {
    GoodIsPlausible(Together(left, right, toLeft, toRight));
    hide EndpointGood, LeftMove, Good, SenderGood, Plausible;
    if ev.who == Left {
      toLeftAfter, toRightAfter := MoveEnd(left, ev.move, right.Model(), toLeft, toRight);
    } else {
      toRightAfter, toLeftAfter := MoveEnd(right, ev.move, left.Model(), toRight, toLeft);
    }
  }

  lemma HasPrefix(left: Connection, right: Connection, s: System)
    requires Together(left, right, s.toLeft, s.toRight) == s
    requires DeliversPrefix(s.left.snd, s.right.rcv) && DeliversPrefix(s.right.snd, s.left.rcv)
    ensures 1 <= right.expectedSeq <= |left.accepted| + 1 && 1 <= left.expectedSeq <= |right.accepted| + 1
    ensures right.received == left.accepted[..right.expectedSeq - 1]
    ensures left.received == right.accepted[..left.expectedSeq - 1]
  {
  }

  /** Two fresh objects, played through the whole trace, end as the run says; so each has handed over
      exactly a prefix of what the other one accepted, and keeps its window. */
  method Play(leftConfig: Config, rightConfig: Config, trace: seq<Event>)
    returns (left: Connection, right: Connection, toLeft: multiset<Frame>, toRight: multiset<Frame>)
    ensures fresh(left) && fresh(right) && left != right && left.Valid() && right.Valid()
    ensures Together(left, right, toLeft, toRight) == Run(Init(leftConfig, rightConfig), trace)
    ensures 1 <= right.expectedSeq <= |left.accepted| + 1 && 1 <= left.expectedSeq <= |right.accepted| + 1
    ensures right.received == left.accepted[..right.expectedSeq - 1]
    ensures left.received == right.accepted[..left.expectedSeq - 1]
  {
    hide Good, Next, EndpointGood, DeliversPrefix;
    left := new Connection(leftConfig.window, leftConfig.maxRetransmits, leftConfig.capacity, Opening);
    right := new Connection(rightConfig.window, rightConfig.maxRetransmits, rightConfig.capacity, Open);
    toLeft, toRight := multiset{OpenAck}, multiset{};
    ghost var s := Init(leftConfig, rightConfig);
    assert Together(left, right, toLeft, toRight) == s;
    for i := 0 to |trace|
      invariant fresh(left) && fresh(right) && left != right && left.Valid() && right.Valid()
      invariant Together(left, right, toLeft, toRight) == Run(s, trace[..i])
    {
      Reachable(leftConfig, rightConfig, trace[..i]);
      toLeft, toRight := MovePair(left, right, trace[i], toLeft, toRight);
      assert trace[..i + 1][..i] == trace[..i];
    }
    assert trace[..|trace|] == trace;
    PrefixDelivery(leftConfig, rightConfig, trace);
    HasPrefix(left, right, Run(s, trace));
  }
}
