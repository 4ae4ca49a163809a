/** What becomes of the callers of `send`: none is lost or counted twice on the way into the queue, and
    the queue keeps its bound. */
module RelaySend {
  import opened Common
  import opened Reassembly
  import opened RelayEndpoint
  import opened RelayProtocol

  function One(b: bool): nat {
    if b then 1 else 0
  }

  /** A caller with `d` gets past the state check. */
  predicate Passes(e: Endpoint, a: Action, d: Payload) {
    a == Send(d) && d != [] && e.state == Open
  }

  /** One of those finds the `closed` flag up and is refused. */
  predicate Refused(e: Endpoint, a: Action, d: Payload) {
    a == CheckSend(d) && d in e.snd.entering && e.closed
  }

  /** One of those that wait gives up. */
  predicate Leaves(e: Endpoint, a: Action, d: Payload) {
    a == GiveUp(d) && d in e.snd.waiting
  }

  /** One of those that wait gets its payload into the queue: there is room, and the send loop has not
      returned. */
  predicate Queues(e: Endpoint, a: Action, d: Payload) {
    a == Enqueue(d) && d in e.snd.waiting && |e.snd.queue| < e.snd.capacity && e.snd.pc != Stopped
  }

  /** How often each of these has happened to callers with one payload. */
  datatype Tally = Tally(passed: nat, refused: nat, left: nat, queued: nat)

  function Record(n: Tally, e: Endpoint, a: Action, d: Payload): Tally {
    Tally(n.passed + One(Passes(e, a, d)), n.refused + One(Refused(e, a, d)),
          n.left + One(Leaves(e, a, d)), n.queued + One(Queues(e, a, d)))
  }

  /** What has happened at `left` to the callers with `d`. */
  function TallyOf(s: System, trace: seq<Event>, d: Payload): Tally {
    if trace == [] then Tally(0, 0, 0, 0)
    else
      var front, ev := trace[..|trace| - 1], trace[|trace| - 1];
      var n := TallyOf(s, front, d);
      if ev.who == Left && ev.move.Act? then Record(n, Run(s, front).left, ev.move.a, d) else n
  }

  /** The bookkeeping of the callers with `d`, given what happened to them since the start. */
  ghost predicate Accounted(s: Sender, d: Payload, n: Tally) {
    && n.passed == s.entering[d] + s.waiting[d] + n.refused + n.left + n.queued
    && multiset(s.accepted)[d] == n.queued
    && |s.queue| <= s.capacity
  }

  lemma SendAccounted(e: Endpoint, data: Payload, d: Payload, n: Tally)
    requires Accounted(e.snd, d, n)
    ensures Accounted(SendStep(e, data).snd, d, Record(n, e, Send(data), d))
  {
  }

  lemma CheckSendAccounted(e: Endpoint, data: Payload, d: Payload, n: Tally)
    requires Accounted(e.snd, d, n)
    ensures Accounted(CheckSendStep(e, data).snd, d, Record(n, e, CheckSend(data), d))
  {
  }

  lemma EnqueueAccounted(e: Endpoint, data: Payload, d: Payload, n: Tally)
    requires Accounted(e.snd, d, n)
    ensures Accounted(EnqueueStep(e, data).snd, d, Record(n, e, Enqueue(data), d))
  {
  }

  lemma GiveUpAccounted(e: Endpoint, data: Payload, d: Payload, n: Tally)
    requires Accounted(e.snd, d, n)
    ensures Accounted(GiveUpStep(e, data).snd, d, Record(n, e, GiveUp(data), d))
  {
  }

  predicate AtTheQueue(a: Action) {
    a.Send? || a.CheckSend? || a.Enqueue? || a.GiveUp?
  }

  lemma OthersLeaveCallers(e: Endpoint, a: Action)
    requires !AtTheQueue(a)
    ensures var t := Step(e, a).after.snd;
      && t.entering == e.snd.entering && t.waiting == e.snd.waiting && t.accepted == e.snd.accepted
      && |t.queue| <= |e.snd.queue| && t.capacity == e.snd.capacity
  {
  }

  lemma OthersAccounted(e: Endpoint, a: Action, d: Payload, n: Tally)
    requires !AtTheQueue(a) && Accounted(e.snd, d, n)
    ensures Accounted(Step(e, a).after.snd, d, n) && Record(n, e, a, d) == n
  {
    OthersLeaveCallers(e, a);
    hide Step;
  }

  lemma StepAccounted(e: Endpoint, a: Action, d: Payload, n: Tally)
    requires Accounted(e.snd, d, n)
    ensures Accounted(Step(e, a).after.snd, d, Record(n, e, a, d))
  {
    hide Accounted, Record;
    match a
    case Send(data) => SendAccounted(e, data, d, n);
    case CheckSend(data) => CheckSendAccounted(e, data, d, n);
    case Enqueue(data) => EnqueueAccounted(e, data, d, n);
    case GiveUp(data) => GiveUpAccounted(e, data, d, n);
    case _ => OthersAccounted(e, a, d, n);
  }

  predicate SameCallers(s: Sender, t: Sender) {
    && t.entering == s.entering && t.waiting == s.waiting
    && t.accepted == s.accepted && t.queue == s.queue && t.capacity == s.capacity
  }

  lemma ReceiveLeavesCallers(e: Endpoint, f: Frame, reached: bool)
    ensures SameCallers(e.snd, Receive(e, f, reached).after.snd)
  {
    hide Accept;
  }

  lemma NetworkLeavesCallers(s: System, m: Move)
    requires !m.Act?
    ensures SameCallers(s.left.snd, LeftMove(s, m).left.snd)
  {
    hide Receive, SameCallers;
    if m.Deliver? {
      ReceiveLeavesCallers(s.left, m.f, m.reached);
    }
    assert SameCallers(s.left.snd, s.left.snd) by { SameAsItself(s.left.snd); }
  }

  lemma SameAsItself(s: Sender)
    ensures SameCallers(s, s)
  {
  }

  lemma NextAccounted(s: System, ev: Event, d: Payload, n: Tally)
    requires Accounted(s.left.snd, d, n)
    ensures Accounted(Next(s, ev).left.snd, d,
                      if ev.who == Left && ev.move.Act? then Record(n, s.left, ev.move.a, d) else n)
  {
    if ev.who == Right {
      RightLeavesEndpoint(s, ev.move);
    } else if ev.move.Act? {
      StepAccounted(s.left, ev.move.a, d, n);
    } else {
      NetworkLeavesCallers(s, ev.move);
    }
    hide Step, Receive, Record;
  }

  lemma {:induction false} RunAccounted(s: System, trace: seq<Event>, d: Payload)
    requires Accounted(s.left.snd, d, Tally(0, 0, 0, 0))
    ensures Accounted(Run(s, trace).left.snd, d, TallyOf(s, trace, d))
  {
    hide Next, Accounted, Record;
    if trace != [] {
      RunAccounted(s, trace[..|trace| - 1], d);
      NextAccounted(Run(s, trace[..|trace| - 1]), trace[|trace| - 1], d, TallyOf(s, trace[..|trace| - 1], d));
    }
  }

  /** Every call of `send` that passed its first check is still on its way, or was refused, or gave up,
      or its payload was accepted: once each, and nothing else was accepted. The queue never holds more
      than it has room for. */
  lemma CallersAccounted(left: Config, right: Config, trace: seq<Event>, d: Payload)
    ensures var n, t := TallyOf(Init(left, right), trace, d), Run(Init(left, right), trace).left.snd;
      && n.passed == t.entering[d] + t.waiting[d] + multiset(t.accepted)[d] + n.refused + n.left
      && multiset(t.accepted)[d] == n.queued
      && |t.queue| <= left.capacity
  {
    RunAccounted(Init(left, right), trace, d);
    RunKeepsSettings(Init(left, right), trace);
    hide Run, TallyOf;
  }
}
