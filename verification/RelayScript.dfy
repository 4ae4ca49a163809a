/** The course of one undisturbed transmission from `left`, as a run and by its effect. The modules
    that exhibit a particular run are built from these pieces. */
module RelayScript {
  import opened Common
  import opened Reassembly
  import opened RelayEndpoint
  import opened RelayProtocol

  const PASS_WINDOW: seq<Event> := [Event(Left, Act(BeginPass)), Event(Left, Act(CheckWindow))]

  const PICK_NEXT: seq<Event> := [Event(Left, Act(TakeData)), Event(Left, Act(CheckFlag))]

  const STORE_NEXT: seq<Event> := [Event(Left, Act(AssignSeq)), Event(Left, Act(InsertUnacked))]

  function Submit(data: Payload): seq<Event> {
    [Event(Left, Act(Send(data))), Event(Left, Act(CheckSend(data))), Event(Left, Act(Enqueue(data)))]
  }

  function SendOut(reached: bool): seq<Event> {
    [Event(Left, Act(FirstSend(reached))), Event(Left, Act(SendReturns(true)))]
  }

  function Opened(): seq<Event> {
    [Event(Left, Deliver(OpenAck, true))]
  }

  /** `data` goes through `send` and is taken up by the send loop, which finds the flag down. */
  function PickUp(data: Payload): seq<Event> {
    Submit(data) + (PASS_WINDOW + PICK_NEXT)
  }

  function Transmission(data: Payload, reached: bool): seq<Event> {
    PickUp(data) + (STORE_NEXT + SendOut(reached))
  }

  /** An idle, open sender with room for one more frame. */
  predicate Idle(e: Endpoint) {
    && e.state == Open && !e.closed && e.snd.pc == LoopTop && HasRoom(e.snd)
    && e.snd.queue == [] && e.snd.capacity >= 1
  }

  lemma OpenedEffect(left: Config, right: Config)
    ensures var s := Init(left, right);
      Run(s, Opened()) == System(s.left.(state := Open), s.right, multiset{}, multiset{})
  {
  }

  lemma SubmitEffect(s: System, data: Payload)
    requires Idle(s.left) && data != []
    ensures var e := s.left.snd;
      Run(s, Submit(data)) == s.(left := s.left.(snd := e.(queue := [data], accepted := e.accepted + [data])))
  {
    hide Run;
    var e := s.left.snd;
    RunThree(s, Submit(data)[0], Submit(data)[1], Submit(data)[2]);
    assert e.entering + multiset{data} - multiset{data} == e.entering;
    assert e.waiting + multiset{data} - multiset{data} == e.waiting;
  }

  lemma PassWindowEffect(s: System)
    requires s.left.snd.pc == LoopTop && !s.left.closed && HasRoom(s.left.snd)
    ensures Run(s, PASS_WINDOW) == s.(left := SetPc(s.left, Ready))
  {
    hide Run;
    RunTwo(s, PASS_WINDOW[0], PASS_WINDOW[1]);
  }

  lemma PickNextEffect(s: System)
    requires s.left.snd.pc == Ready && !s.left.closed && s.left.snd.queue != []
    ensures var e := s.left.snd;
      Run(s, PICK_NEXT) == s.(left := s.left.(snd := e.(queue := e.queue[1..], pc := Checked(e.queue[0]))))
  {
    hide Run;
    RunTwo(s, PICK_NEXT[0], PICK_NEXT[1]);
    var e, t := s.left.snd, Next(s, PICK_NEXT[0]);
    assert t == s.(left := s.left.(snd := e.(queue := e.queue[1..], pc := Taken(e.queue[0]))));
  }

  lemma StoreNextEffect(s: System)
    requires s.left.snd.pc.Checked?
    ensures var e := s.left.snd;
      Run(s, STORE_NEXT) == s.(left := s.left.(snd := e.(
        next := e.next + 1,
        unacked := e.unacked[e.next := UnackedFrame(e.pc.data, 0)],
        pc := Inserted(e.next, e.pc.data))))
  {
    hide Run;
    RunTwo(s, STORE_NEXT[0], STORE_NEXT[1]);
    var e, t := s.left.snd, Next(s, STORE_NEXT[0]);
    assert t == s.(left := s.left.(snd := e.(next := e.next + 1, pc := Assigned(e.next, e.pc.data))));
  }

  lemma SendOutEffect(s: System, reached: bool)
    requires s.left.snd.pc.Inserted?
    ensures var pc := s.left.snd.pc;
      Run(s, SendOut(reached)) ==
        s.(left := SetPc(s.left, LoopTop),
           toRight := if reached then s.toRight + multiset{Data(pc.seqNo, pc.data)} else s.toRight)
  {
    hide Run;
    RunTwo(s, SendOut(reached)[0], SendOut(reached)[1]);
    var pc, t := s.left.snd.pc, Next(s, SendOut(reached)[0]);
    assert t == s.(left := SetPc(s.left, Awaiting),
                   toRight := if reached then s.toRight + multiset{Data(pc.seqNo, pc.data)} else s.toRight);
  }

  function PickedUp(s: System, data: Payload): System {
    s.(left := s.left.(snd := s.left.snd.(accepted := s.left.snd.accepted + [data], pc := Checked(data))))
  }

  lemma PickUpEffect(s: System, data: Payload)
    requires Idle(s.left) && data != []
    ensures Run(s, PickUp(data)) == PickedUp(s, data)
  {
    hide Run;
    SubmitEffect(s, data);
    var s1 := Run(s, Submit(data));
    PassWindowEffect(s1);
    PickNextEffect(Run(s1, PASS_WINDOW));
    RunConcat(s1, PASS_WINDOW, PICK_NEXT);
    RunConcat(s, Submit(data), PASS_WINDOW + PICK_NEXT);
  }

  function Transmitted(s: System, data: Payload, reached: bool): System {
    var e := s.left.snd;
    s.(left := s.left.(snd := e.(next := e.next + 1,
                                 accepted := e.accepted + [data],
                                 unacked := e.unacked[e.next := UnackedFrame(data, 0)])),
       toRight := if reached then s.toRight + multiset{Data(e.next, data)} else s.toRight)
  }

  /** One payload goes through `send` and one pass of the send loop; `reached` is its fate. */
  lemma TransmissionEffect(s: System, data: Payload, reached: bool)
    requires Idle(s.left) && data != []
    ensures Run(s, Transmission(data, reached)) == Transmitted(s, data, reached)
  {
    hide Run;
    PickUpEffect(s, data);
    var s1 := PickedUp(s, data);
    StoreNextEffect(s1);
    SendOutEffect(Run(s1, STORE_NEXT), reached);
    RunConcat(s1, STORE_NEXT, SendOut(reached));
    RunConcat(s, PickUp(data), STORE_NEXT + SendOut(reached));
  }
}
