/** How often a frame can be retransmitted, and when the sender gives up. The counts are taken over
    the run itself, not from the counters kept by the code. */
module RelayBudget {
  import opened Common
  import opened Reassembly
  import opened RelayEndpoint
  import opened RelayProtocol

  // ----- Retransmissions of one frame -----

  /** The step that picks `k` for another transmission. */
  predicate Picks(e: Endpoint, a: Action, k: nat) {
    a == NextFrame(k) && e.snd.pc.Round? && k in e.snd.pc.todo && k in e.snd.unacked
  }

  /** How many times `left` has retransmitted frame `k` in this run. */
  function Resends(s: System, trace: seq<Event>, k: nat): nat {
    if trace == [] then 0
    else
      var front, ev := trace[..|trace| - 1], trace[|trace| - 1];
      Resends(s, front, k)
      + if ev.who == Left && ev.move.Act? && Picks(Run(s, front).left, ev.move.a, k) then 1 else 0
  }

  /** The round in progress is still to retransmit `k`. */
  predicate Owed(s: Sender, k: nat) {
    s.pc.Counted? || ((s.pc.Round? || s.pc.Resending?) && k in s.pc.todo)
  }

  /** What frame `k` may have used up: a full round of retransmissions for every place the window has
      moved since `k` was at its far end, and the rounds since the window last moved. */
  function Allowance(s: Sender, k: nat): int {
    s.maxRetransmits * (s.base + s.window - 1 - k) + Min(s.retransCnt, s.maxRetransmits)
  }

  /** `n` retransmissions of `k` are within budget. */
  ghost predicate WithinBudget(s: Sender, k: nat, n: nat) {
    && (k in s.unacked ==>
          n == s.unacked[k].retransmit && n + (if Owed(s, k) then 1 else 0) <= Allowance(s, k))
    && (k !in s.unacked ==> n <= s.maxRetransmits * s.window)
    && (s.next >= 1 && k >= StoredTo(s) ==> n == 0)
  }

  lemma MulGrows(m: nat, x: int, y: int)
    requires x <= y
    ensures m * x <= m * y
  {
  }

  lemma MulSteps(m: nat, x: int)
    ensures m * (x - 1) + m == m * x
  {
  }

  lemma WindowPlace(s: Sender, k: nat)
    requires SenderGood(s) && k in s.unacked
    ensures 0 <= s.base + s.window - 1 - k <= s.window - 1
  {
  }

  /** The nonlinear heart: no allowance exceeds `max_retransmits * window_size`. */
  lemma AllowanceBound(s: Sender, k: nat)
    requires SenderGood(s) && k in s.unacked
    ensures 0 <= Allowance(s, k) <= s.maxRetransmits * s.window
  {
    hide SenderGood;
    WindowPlace(s, k);
    var x := s.base + s.window - 1 - k;
    MulGrows(s.maxRetransmits, 0, x);
    MulGrows(s.maxRetransmits, x, s.window - 1);
    MulSteps(s.maxRetransmits, s.window);
  }

  lemma InsertWithinBudget(e: Endpoint, k: nat, n: nat)
    requires SenderGood(e.snd) && WithinBudget(e.snd, k, n)
    ensures WithinBudget(InsertStep(e).snd, k, n)
  {
    var s, t := e.snd, InsertStep(e).snd;
    if s.pc.Assigned? && k == s.pc.seqNo {
      MulGrows(s.maxRetransmits, 0, s.base + s.window - 1 - k);
    }
  }

  lemma TickWithinBudget(e: Endpoint, k: nat, n: nat)
    requires SenderGood(e.snd) && WithinBudget(e.snd, k, n)
    ensures WithinBudget(TickStep(e).snd, k, n)
  {
  }

  lemma NextFrameWithinBudget(e: Endpoint, seqNo: nat, k: nat, n: nat)
    requires SenderGood(e.snd) && WithinBudget(e.snd, k, n)
    ensures WithinBudget(NextFrameStep(e, seqNo).snd, k, n + if Picks(e, NextFrame(seqNo), k) then 1 else 0)
  {
  }

  /** Nothing the budget of `k` rests on has changed, except that a round may have ended. */
  predicate SameLedger(s: Sender, t: Sender, k: nat) {
    && t.unacked == s.unacked && t.base == s.base && t.window == s.window
    && t.retransCnt == s.retransCnt && t.maxRetransmits == s.maxRetransmits
    && (k in s.unacked && Owed(t, k) ==> Owed(s, k))
    && 1 <= s.next && 1 <= t.next && StoredTo(t) == StoredTo(s)
  }

  lemma LoopKeepsLedger(e: Endpoint, k: nat)
    requires e.snd.next >= 1
    ensures SameLedger(e.snd, BeginPassStep(e).snd, k)
    ensures SameLedger(e.snd, CheckWindowStep(e).snd, k)
    ensures SameLedger(e.snd, CloseNotifiedStep(e).snd, k)
    ensures SameLedger(e.snd, SnapshotStep(e).snd, k)
    ensures SameLedger(e.snd, EndRoundStep(e).snd, k)
  {
  }

  lemma NumberingKeepsLedger(e: Endpoint, k: nat)
    requires e.snd.next >= 1
    ensures SameLedger(e.snd, TakeDataStep(e).snd, k)
    ensures SameLedger(e.snd, CheckFlagStep(e).snd, k)
    ensures SameLedger(e.snd, AssignSeqStep(e).snd, k)
    ensures SameLedger(e.snd, LeaveStep(e).snd, k)
  {
  }

  lemma SendsKeepLedger(e: Endpoint, reached: bool, ok: bool, k: nat)
    requires e.snd.next >= 1
    ensures SameLedger(e.snd, FirstSendStep(e, reached).after.snd, k)
    ensures SameLedger(e.snd, SendReturnsStep(e, ok).snd, k)
    ensures SameLedger(e.snd, ResendStep(e, reached).after.snd, k)
  {
  }

  lemma EnqueueKeepsLedger(e: Endpoint, data: Payload, k: nat)
    requires e.snd.next >= 1
    ensures SameLedger(e.snd, EnqueueStep(e, data).snd, k)
  {
  }

  lemma StandingKeepsLedger(e: Endpoint, a: Action, k: nat)
    requires e.snd.next >= 1 && Standing(a)
    ensures SameLedger(e.snd, Step(e, a).after.snd, k)
  {
    StandingLeavesSender(e, a);
    hide Step;
  }

  lemma OtherKeepsLedger(e: Endpoint, a: Action, k: nat)
    requires e.snd.next >= 1 && !a.InsertUnacked? && !a.Tick? && !a.NextFrame?
    ensures SameLedger(e.snd, Step(e, a).after.snd, k)
  {
    hide SameLedger;
    match a
    case FirstSend(reached) => SendsKeepLedger(e, reached, true, k);
    case SendReturns(ok) => SendsKeepLedger(e, true, ok, k);
    case Resend(reached) => SendsKeepLedger(e, reached, true, k);
    case Enqueue(data) => EnqueueKeepsLedger(e, data, k);
    case BeginPass => LoopKeepsLedger(e, k);
    case CheckWindow => LoopKeepsLedger(e, k);
    case CloseNotified => LoopKeepsLedger(e, k);
    case TakeData => NumberingKeepsLedger(e, k);
    case CheckFlag => NumberingKeepsLedger(e, k);
    case AssignSeq => NumberingKeepsLedger(e, k);
    case Leave => NumberingKeepsLedger(e, k);
    case Snapshot => LoopKeepsLedger(e, k);
    case EndRound => LoopKeepsLedger(e, k);
    case _ => StandingKeepsLedger(e, a, k);
  }

  lemma OtherWithinBudget(e: Endpoint, a: Action, k: nat, n: nat)
    requires SenderGood(e.snd) && WithinBudget(e.snd, k, n)
    requires !a.InsertUnacked? && !a.Tick? && !a.NextFrame?
    ensures WithinBudget(Step(e, a).after.snd, k, n)
  {
    OtherKeepsLedger(e, a, k);
    hide Step, SenderGood;
    var s, t := e.snd, Step(e, a).after.snd;
    assert Allowance(t, k) == Allowance(s, k);
  }

  lemma StepWithinBudget(e: Endpoint, a: Action, k: nat, n: nat)
    requires SenderGood(e.snd) && WithinBudget(e.snd, k, n)
    ensures WithinBudget(Step(e, a).after.snd, k, n + if Picks(e, a, k) then 1 else 0)
  {
    hide SenderGood, WithinBudget;
    match a
    case InsertUnacked => InsertWithinBudget(e, k, n);
    case Tick => TickWithinBudget(e, k, n);
    case NextFrame(seqNo) => NextFrameWithinBudget(e, seqNo, k, n);
    case _ => OtherWithinBudget(e, a, k, n);
  }

  lemma AcknowledgeWithinBudget(s: Sender, ackSeq: nat, k: nat, n: nat)
    requires SenderGood(s) && WithinBudget(s, k, n) && ackSeq < FirstUnsent(s)
    ensures WithinBudget(Acknowledge(s, ackSeq), k, n)
  {
    var t := Acknowledge(s, ackSeq);
    if k in s.unacked && s.base <= ackSeq {
      AllowanceBound(s, k);
      var x := s.base + s.window - 1 - k;
      MulGrows(s.maxRetransmits, x + 1, t.base + t.window - 1 - k);
      assert s.maxRetransmits * (x + 1) == s.maxRetransmits * x + s.maxRetransmits;
    }
  }

  lemma LeftWithinBudget(s: System, m: Move, k: nat, n: nat)
    requires SenderGood(s.left.snd) && WithinBudget(s.left.snd, k, n)
    requires forall f :: f in s.toLeft ==> GoodAck(s.left.snd, f)
    ensures WithinBudget(LeftMove(s, m).left.snd, k, n + if m.Act? && Picks(s.left, m.a, k) then 1 else 0)
  {
    hide SenderGood, WithinBudget, Step, Acknowledge, Accept, Picks;
    match m
    case Act(a) => StepWithinBudget(s.left, a, k, n);
    case Deliver(f, reached) =>
      if f in s.toLeft && f.Ack? {
        AcknowledgeWithinBudget(s.left.snd, f.ackSeq, k, n);
      }
    case _ =>
  }

  lemma NextWithinBudget(s: System, ev: Event, k: nat, n: nat)
    requires Good(s) && WithinBudget(s.left.snd, k, n)
    ensures var picked := ev.who == Left && ev.move.Act? && Picks(s.left, ev.move.a, k);
      WithinBudget(Next(s, ev).left.snd, k, n + if picked then 1 else 0)
  {
    if ev.who == Left {
      LeftWithinBudget(s, ev.move, k, n);
    } else {
      RightLeavesEndpoint(s, ev.move);
    }
    hide Good, LeftMove, Picks, WithinBudget;
  }

  lemma {:induction false} RunWithinBudget(s: System, trace: seq<Event>, k: nat)
    requires Good(s) && WithinBudget(s.left.snd, k, 0)
    ensures WithinBudget(Run(s, trace).left.snd, k, Resends(s, trace, k))
  {
    if trace != [] {
      var front := trace[..|trace| - 1];
      RunWithinBudget(s, front, k);
      RunKeepsGood(s, front);
      NextWithinBudget(Run(s, front), trace[|trace| - 1], k, Resends(s, front, k));
    }
  }

  lemma RunBudget(s: System, trace: seq<Event>, k: nat)
    requires Good(s) && WithinBudget(s.left.snd, k, 0)
    ensures Resends(s, trace, k) <= s.left.snd.maxRetransmits * s.left.snd.window
  {
    RunWithinBudget(s, trace, k);
    RunKeepsGood(s, trace);
    RunKeepsSettings(s, trace);
    var t := Run(s, trace);
    if k in t.left.snd.unacked {
      AllowanceBound(t.left.snd, k);
    }
  }

  lemma InitWithinBudget(left: Config, right: Config, k: nat)
    ensures var s := Init(left, right);
      && WithinBudget(s.left.snd, k, 0) && WithinBudget(s.right.snd, k, 0)
      && s.left.snd.maxRetransmits == left.maxRetransmits && s.left.snd.window == left.window
      && s.right.snd.maxRetransmits == right.maxRetransmits && s.right.snd.window == right.window
  {
    var s := Init(left, right);
    MulGrows(left.maxRetransmits, 0, left.window);
    MulGrows(right.maxRetransmits, 0, right.window);
  }

  lemma InitGood(left: Config, right: Config)
    ensures Good(Init(left, right)) && Good(Flip(Init(left, right)))
  {
    hide LinkGood, Init;
    Reachable(left, right, []);
  }

  /** In every run, no frame is retransmitted more than max_retransmits * window_size times, by
      either end. */
  lemma RetransmissionBudget(left: Config, right: Config, trace: seq<Event>, k: nat)
    ensures Resends(Init(left, right), trace, k) <= left.maxRetransmits * left.window
    ensures Resends(Flip(Init(left, right)), trace, k) <= right.maxRetransmits * right.window
  {
    hide Resends, Good, WithinBudget, Init;
    InitGood(left, right);
    InitWithinBudget(left, right, k);
    RunBudget(Init(left, right), trace, k);
    RunBudget(Flip(Init(left, right)), trace, k);
  }

  // ----- Giving up -----

  predicate Ticks(e: Endpoint, a: Action) {
    a == Tick && (e.snd.pc == Ready || e.snd.pc == WindowFull)
  }

  predicate Advances(s: System, ev: Event) {
    ev.who == Left && ev.move.Deliver? && ev.move.f in s.toLeft && ev.move.f.Ack? && ev.move.f.ackSeq >= s.left.snd.base
  }

  /** Timer rounds of `left` since an ACK last moved its window, or since the start. */
  function RoundsWithoutProgress(s: System, trace: seq<Event>): nat {
    if trace == [] then 0
    else
      var front, ev := trace[..|trace| - 1], trace[|trace| - 1];
      if Advances(Run(s, front), ev) then 0
      else RoundsWithoutProgress(s, front)
           + if ev.who == Left && ev.move.Act? && Ticks(Run(s, front).left, ev.move.a) then 1 else 0
  }

  lemma StepCounts(e: Endpoint, a: Action)
    requires e.snd.retransCnt > e.snd.maxRetransmits ==> e.state == Closed
    ensures var f := Step(e, a).after;
      && f.snd.retransCnt == e.snd.retransCnt + (if Ticks(e, a) then 1 else 0)
      && (f.snd.retransCnt > f.snd.maxRetransmits ==> f.state == Closed)
  {
  }

  lemma NextCounts(s: System, ev: Event)
    requires s.left.snd.retransCnt > s.left.snd.maxRetransmits ==> s.left.state == Closed
    ensures var t := Next(s, ev).left;
      && (t.snd.retransCnt > t.snd.maxRetransmits ==> t.state == Closed)
      && t.snd.retransCnt ==
           if Advances(s, ev) then 0
           else s.left.snd.retransCnt + if ev.who == Left && ev.move.Act? && Ticks(s.left, ev.move.a) then 1 else 0
  {
    hide Step, Accept, Ticks;
    if ev.who == Left && ev.move.Act? {
      StepCounts(s.left, ev.move.a);
    }
  }

  /** `retrans_cnt` counts exactly the timer rounds without progress, idle rounds included, and the
      round that takes it past max_retransmits has closed the connection. */
  lemma {:induction false} GivesUp(s: System, trace: seq<Event>)
    requires s.left.snd.retransCnt == 0
    ensures var e, n := Run(s, trace).left, RoundsWithoutProgress(s, trace);
      && e.snd.retransCnt == n
      && e.snd.maxRetransmits == s.left.snd.maxRetransmits
      && (n > s.left.snd.maxRetransmits ==> e.state == Closed)
  {
    RunKeepsSettings(s, trace);
    if trace != [] {
      var front := trace[..|trace| - 1];
      GivesUp(s, front);
      NextCounts(Run(s, front), trace[|trace| - 1]);
    }
  }

  /** Event `i` took the count of rounds past the limit on a connection that was not closed yet. */
  predicate GaveUpAt(s: System, trace: seq<Event>, i: nat) {
    && 0 < i <= |trace|
    && Run(s, trace[..i - 1]).left.state != Closed
    && RoundsWithoutProgress(s, trace[..i]) > s.left.snd.maxRetransmits
  }

  lemma StepGivesReason(e: Endpoint, a: Action)
    requires LifeGood(e)
    ensures Step(e, a).after.reason == Some(MaxRetransmit) <==>
      e.reason == Some(MaxRetransmit)
      || (e.state != Closed && Ticks(e, a) && e.snd.retransCnt + 1 > e.snd.maxRetransmits)
  {
  }

  lemma NextGivesReason(s: System, ev: Event)
    requires LifeGood(s.left)
    ensures Next(s, ev).left.reason == Some(MaxRetransmit) <==>
      s.left.reason == Some(MaxRetransmit)
      || (s.left.state != Closed && ev.who == Left && ev.move.Act? && Ticks(s.left, ev.move.a)
          && s.left.snd.retransCnt + 1 > s.left.snd.maxRetransmits)
  {
    hide Step, Accept, Acknowledge, Ticks;
    if ev.who == Left && ev.move.Act? {
      StepGivesReason(s.left, ev.move.a);
    }
  }

  lemma GaveUpLast(s: System, trace: seq<Event>)
    requires trace != [] && s.left.snd.retransCnt == 0
    ensures var u, ev := Run(s, trace[..|trace| - 1]), trace[|trace| - 1];
      GaveUpAt(s, trace, |trace|) <==>
        (u.left.state != Closed && ev.who == Left && ev.move.Act? && Ticks(u.left, ev.move.a)
         && u.left.snd.retransCnt + 1 > u.left.snd.maxRetransmits)
  {
    var front := trace[..|trace| - 1];
    GivesUp(s, front);
    assert trace[..|trace|] == trace;
    hide Next;
  }

  lemma GaveUpBefore(s: System, trace: seq<Event>, i: nat)
    requires i < |trace|
    ensures GaveUpAt(s, trace[..|trace| - 1], i) <==> GaveUpAt(s, trace, i)
  {
    hide Run, RoundsWithoutProgress;
    var front := trace[..|trace| - 1];
    assert front[..i] == trace[..i];
    assert i > 0 ==> front[..i - 1] == trace[..i - 1];
  }

  /** The reason of closing is max_retransmit exactly if some round went past the limit while the
      connection was still not closed. */
  lemma {:induction false} GivesUpIff(s: System, trace: seq<Event>)
    requires LifeGood(s.left) && LifeGood(s.right) && s.left.state != Closed && s.left.snd.retransCnt == 0
    ensures Run(s, trace).left.reason == Some(MaxRetransmit) <==> exists i: nat :: GaveUpAt(s, trace, i)
  {
    if trace != [] {
      var front, ev := trace[..|trace| - 1], trace[|trace| - 1];
      assert Run(s, trace) == Next(Run(s, front), ev);
      GivesUpIff(s, front);
      RunKeepsLife(s, front);
      NextGivesReason(Run(s, front), ev);
      GaveUpLast(s, trace);
      forall i: nat | i < |trace| ensures GaveUpAt(s, front, i) <==> GaveUpAt(s, trace, i) {
        GaveUpBefore(s, trace, i);
      }
      forall i: nat ensures GaveUpAt(s, front, i) ==> i < |trace| {
      }
      forall i: nat ensures GaveUpAt(s, trace, i) ==> i <= |trace| {
      }
      hide Run, Next, GaveUpAt, LifeGood, Ticks;
    }
  }
}
