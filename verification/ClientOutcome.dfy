/** Which event decides what a call returns, and which error the run task has come away with: exact
    answers in terms of the run. */
module ClientOutcome {
  import opened Common
  import opened ClientRpc

  lemma PrefixOfSnoc(front: seq<Event>, ev: Event, i: nat)
    requires i <= |front|
    ensures (front + [ev])[..i] == front[..i]
  {
  }

  // ----- What a call returns -----

  predicate HasResult(c: Client, id: nat, r: Outcome) {
    id in c.calls && (At(c, id) == Settling(r) || At(c, id) == Returned(r))
  }

  /** The five ways out of `rpc`, each with its result: closed before sending, no writer, a failed write,
      the reply that has arrived, or time out. */
  predicate Exits(c: Client, ev: Event, id: nat, r: Outcome) {
    && ev.ByCall? && ev.id == id
    && match At(c, id)
       case Registered => ev.call == CheckClosed && c.closed && r == Err(ClosedError)
       case Cleared =>
         && ev.call.Write?
         && (if c.writer == None then r == Err(NotConnected) else !ev.call.ok && r == Err(WriteFailed))
       case Sent(_) =>
         || (ev.call == Collect && id in c.mail && r == c.mail[id])
         || (ev.call == TimeOut && r == Err(TimedOut))
       case _ => false
  }

  predicate ExitAt(trace: seq<Event>, i: nat, id: nat, r: Outcome) {
    i < |trace| && Exits(Run(trace[..i]), trace[i], id, r)
  }

  lemma CallSettles(c: Client, i: nat, a: CallAct, id: nat, r: Outcome)
    ensures HasResult(CallStep(c, i, a), id, r) <==> HasResult(c, id, r) || Exits(c, ByCall(i, a), id, r)
  {
    if i != id {
      OtherCallUntouched(c, i, a, id);
      hide CallStep;
    }
  }

  lemma RunLeavesCalls(c: Client, a: RunAct)
    ensures RunStep(c, a).calls == c.calls
  {
    hide FailAll;
    if !a.TakeReply? && !a.PassReply? {
      RunFailsAll(c, a);
    }
  }

  lemma CloseLeavesCalls(c: Client, a: CloseAct)
    ensures CloseStep(c, a).calls == c.calls
  {
  }

  lemma OthersLeaveCalls(c: Client, ev: Event, id: nat)
    requires !ev.ByCall? && CustodyOf(c, id)
    ensures id in c.calls ==> At(Next(c, ev), id) == At(c, id)
    ensures id in c.calls ==> id in Next(c, ev).calls
    ensures id !in c.calls && id in Next(c, ev).calls ==> At(Next(c, ev), id) == Allocated
  {
    hide RunStep, CloseStep;
    match ev
    case Allocate =>
    case ByRun(a) => RunLeavesCalls(c, a);
    case ByClose(a) => CloseLeavesCalls(c, a);
  }

  lemma OthersSettleNothing(c: Client, ev: Event, id: nat, r: Outcome)
    requires !ev.ByCall? && CustodyOf(c, id)
    ensures HasResult(Next(c, ev), id, r) <==> HasResult(c, id, r)
  {
    OthersLeaveCalls(c, ev, id);
    hide Next, CustodyOf;
  }

  lemma NextSettles(c: Client, ev: Event, id: nat, r: Outcome)
    requires CustodyOf(c, id)
    ensures HasResult(Next(c, ev), id, r) <==> HasResult(c, id, r) || Exits(c, ev, id, r)
  {
    if ev.ByCall? {
      CallSettles(c, ev.id, ev.call, id, r);
    } else {
      OthersSettleNothing(c, ev, id, r);
    }
    hide CallStep, RunStep, CloseStep, HasResult;
  }

  lemma ExitBefore(front: seq<Event>, ev: Event, i: nat, id: nat, r: Outcome)
    requires i < |front|
    ensures ExitAt(front + [ev], i, id, r) <==> ExitAt(front, i, id, r)
  {
    PrefixOfSnoc(front, ev, i);
    hide Run, Exits;
  }

  /** A call has a result exactly if one of the ways out was taken, and it is the result of that exit. */
  lemma {:induction false} ResultIff(trace: seq<Event>, id: nat, r: Outcome)
    ensures HasResult(Run(trace), id, r) <==> exists i: nat :: ExitAt(trace, i, id, r)
  {
    if trace != [] {
      var front, ev := trace[..|trace| - 1], trace[|trace| - 1];
      ResultIff(front, id, r);
      AlwaysAccounted(front);
      assert CustodyOf(Run(front), id);
      NextSettles(Run(front), ev, id, r);
      assert trace == front + [ev];
      forall i: nat | i < |front| ensures ExitAt(trace, i, id, r) <==> ExitAt(front, i, id, r) {
        ExitBefore(front, ev, i, id, r);
      }
      assert ExitAt(trace, |front|, id, r) <==> Exits(Run(front), ev, id, r);
      LastOrBefore(front, trace, id, r);
      hide Next, Exits, HasResult, Custody, CustodyOf, Sessions;
    }
  }

  lemma LastOrBefore(front: seq<Event>, trace: seq<Event>, id: nat, r: Outcome)
    requires |trace| == |front| + 1
    requires forall i: nat :: i < |front| ==> (ExitAt(trace, i, id, r) <==> ExitAt(front, i, id, r))
    ensures (exists i: nat :: ExitAt(trace, i, id, r))
       <==> (exists i: nat :: ExitAt(front, i, id, r)) || ExitAt(trace, |front|, id, r)
  {
    if i: nat :| ExitAt(trace, i, id, r) {
      assert i < |front| ==> ExitAt(front, i, id, r);
    }
    if i: nat :| ExitAt(front, i, id, r) {
      assert ExitAt(trace, i, id, r);
    }
    hide Run, Exits;
  }

  /** A call leaves by one way out, once. */
  lemma ExitOnce(trace: seq<Event>, i: nat, j: nat, id: nat, r: Outcome, q: Outcome)
    requires ExitAt(trace, i, id, r) && ExitAt(trace, j, id, q)
    ensures i == j && r == q
  {
    if i < j {
      ExitThenOut(trace, i, j, id, r);
    } else if j < i {
      ExitThenOut(trace, j, i, id, q);
    }
    hide Run;
  }

  lemma ExitThenOut(trace: seq<Event>, i: nat, j: nat, id: nat, r: Outcome)
    requires ExitAt(trace, i, id, r) && i < j <= |trace|
    ensures HasResult(Run(trace[..j]), id, r)
  {
    var first := trace[..i + 1];
    assert first == trace[..i] + [trace[i]];
    RunSnoc(trace[..i], trace[i]);
    AlwaysAccounted(trace[..i]);
    assert CustodyOf(Run(trace[..i]), id);
    NextSettles(Run(trace[..i]), trace[i], id, r);
    RunCallLater(first, trace[i + 1..j], id);
    assert trace[..j] == first + trace[i + 1..j];
    hide Run, Next, Exits, Custody, CustodyOf, Sessions;
  }

  /** A reply that is there is what the waiting call returns, whatever has become of the session it was
      sent on. */
  lemma ReplyIsReturned(trace: seq<Event>, id: nat)
    requires At(Run(trace), id).Sent? && id in Run(trace).mail
    ensures var t := Run(trace + [ByCall(id, Collect), ByCall(id, Finish)]);
      At(t, id) == Returned(Run(trace).mail[id]) && id !in t.pending
  {
    assert trace + [ByCall(id, Collect), ByCall(id, Finish)] == trace + [ByCall(id, Collect)] + [ByCall(id, Finish)];
    RunSnoc(trace, ByCall(id, Collect));
    RunSnoc(trace + [ByCall(id, Collect)], ByCall(id, Finish));
    hide Run;
  }

  /** The call waits for the reply `r` that it has already got, or has returned with it. */
  predicate Bound(c: Client, id: nat, r: Outcome) {
    && id in c.calls && id in c.mail && c.mail[id] == r
    && (At(c, id).Sent? || At(c, id) == Settling(r) || At(c, id) == Returned(r))
  }

  lemma NextBound(c: Client, ev: Event, id: nat, r: Outcome)
    requires CustodyOf(c, id) && Bound(c, id, r) && ev != ByCall(id, TimeOut)
    ensures Bound(Next(c, ev), id, r)
    ensures ev == ByCall(id, Collect) || !At(c, id).Sent? ==> !At(Next(c, ev), id).Sent?
  {
    NextCallLater(c, ev, id);
    if ev.ByCall? {
      CallSettles(c, ev.id, ev.call, id, r);
      CallTouchesNoMail(c, ev.id, ev.call);
      if ev.id != id {
        OtherCallUntouched(c, ev.id, ev.call, id);
        hide CallStep;
      }
    } else {
      OthersLeaveCalls(c, ev, id);
      hide Next;
    }
  }

  /** Once a reply has arrived at a call that waits, only a time-out can still come in between: in every
      continuation without one the call waits for it or returns it. */
  lemma {:induction false} ReplyIsTheResult(trace: seq<Event>, more: seq<Event>, id: nat)
    requires At(Run(trace), id).Sent? && id in Run(trace).mail && id in Run(trace).calls
    requires ByCall(id, TimeOut) !in more
    ensures var t, r := Run(trace + more), Run(trace).mail[id];
      Bound(t, id, r) && (ByCall(id, Collect) in more ==> HasResult(t, id, r))
  {
    var r := Run(trace).mail[id];
    if more == [] {
      assert trace + more == trace;
    } else {
      var front, ev := more[..|more| - 1], more[|more| - 1];
      assert more == front + [ev];
      ReplyIsTheResult(trace, front, id);
      AlwaysAccounted(trace + front);
      assert CustodyOf(Run(trace + front), id);
      NextBound(Run(trace + front), ev, id, r);
      assert trace + more == trace + front + [ev];
      RunSnoc(trace + front, ev);
      hide Run, Next, Custody, CustodyOf, Sessions;
    }
  }

  // ----- Which answer a call gets -----

  /** The four ways an answer arrives: a reply passed on, the teardown of a session, the end of the run
      task, `close()`. The last three answer everyone in the table. */
  predicate Arrives(c: Client, ev: Event, id: nat, r: Outcome) {
    || (ev == ByRun(PassReply) && c.hand == Some(Reply(id, r)))
    || (ev == ByRun(FailSession) && c.run.FailDue? && id in c.pending && r == Err(Disconnected))
    || (ev == ByRun(EndRun) && c.run.Failed? && id in c.pending && r == Err(c.run.error))
    || (ev == ByClose(CloseFailAll) && c.closed && id in c.pending && r == Err(ClosedError))
  }

  predicate ArrivesAt(trace: seq<Event>, i: nat, id: nat, r: Outcome) {
    i < |trace| && Arrives(Run(trace[..i]), trace[i], id, r)
  }

  predicate Got(c: Client, id: nat, r: Outcome) {
    id in c.mail && c.mail[id] == r
  }

  lemma RunBrings(c: Client, a: RunAct, id: nat, r: Outcome)
    requires CustodyOf(c, id)
    ensures Got(RunStep(c, a), id, r) <==> Got(c, id, r) || Arrives(c, ByRun(a), id, r)
  {
    assert id in c.mail ==> id !in c.pending && !InHand(c, id);
    if !a.TakeReply? && !a.PassReply? {
      RunFailsAll(c, a);
      hide RunStep;
    }
  }

  lemma NextBrings(c: Client, ev: Event, id: nat, r: Outcome)
    requires CustodyOf(c, id)
    ensures Got(Next(c, ev), id, r) <==> Got(c, id, r) || Arrives(c, ev, id, r)
  {
    hide CallStep, RunStep;
    match ev
    case Allocate =>
    case ByCall(i, a) => CallTouchesNoMail(c, i, a);
    case ByRun(a) => RunBrings(c, a, id, r);
    case ByClose(a) => assert id in c.mail ==> id !in c.pending;
  }

  /** A call has got an answer exactly if one arrived, and it is that one. */
  lemma {:induction false} AnswerIff(trace: seq<Event>, id: nat, r: Outcome)
    ensures Got(Run(trace), id, r) <==> exists i: nat :: ArrivesAt(trace, i, id, r)
  {
    if trace != [] {
      var front, ev := trace[..|trace| - 1], trace[|trace| - 1];
      AnswerIff(front, id, r);
      AlwaysAccounted(front);
      assert CustodyOf(Run(front), id);
      NextBrings(Run(front), ev, id, r);
      assert trace == front + [ev];
      assert trace[..|front|] == front;
      forall i: nat | i < |front| ensures ArrivesAt(trace, i, id, r) <==> ArrivesAt(front, i, id, r) {
        PrefixOfSnoc(front, ev, i);
      }
      if i: nat :| ArrivesAt(trace, i, id, r) {
        assert i < |front| ==> ArrivesAt(front, i, id, r);
      }
      if i: nat :| ArrivesAt(front, i, id, r) {
        assert ArrivesAt(trace, i, id, r);
      }
      assert ArrivesAt(trace, |front|, id, r) <==> Arrives(Run(front), ev, id, r);
      hide Next, Arrives, Got, Custody, CustodyOf, Sessions;
    }
  }

  // ----- The run task -----

  /** The run task comes away with `e`: an attempt fails with it, a session is lost with it, or it finds
      the client closed before it tries. */
  predicate Came(c: Client, ev: Event, e: Error) {
    || (ev == ByRun(DialFails(e)) && c.run == Dialing)
    || (ev == ByRun(ReadFails(e)) && c.run.Serving? && c.hand == None && !e.Refused?)
    || (ev == ByRun(Dial) && c.run == Down && c.closed && e == ClosedError)
  }

  /** It lets go of its error: by trying again, which a closed client does not, by ending, or aborted. */
  predicate LetsGo(c: Client, ev: Event) {
    || (ev == ByRun(Retry) && c.run.Failed? && !c.closed && c.run.error != ClosedError)
    || (ev == ByRun(EndRun) && c.run.Failed?)
    || (ev == ByClose(Abort) && c.closeFailed && c.hand == None)
  }

  lemma CallLeavesRun(c: Client, id: nat, a: CallAct)
    ensures var d := CallStep(c, id, a);
      d.run == c.run && d.closed == c.closed && d.closeFailed == c.closeFailed
      && d.connected == c.connected && d.lastSession == c.lastSession
  {
  }

  lemma RunHolds(c: Client, a: RunAct, e: Error)
    ensures Holds(RunStep(c, a).run, e) <==> Came(c, ByRun(a), e) || (Holds(c.run, e) && !LetsGo(c, ByRun(a)))
  {
    hide FailAll;
  }

  lemma CloseHolds(c: Client, a: CloseAct, e: Error)
    ensures Holds(CloseStep(c, a).run, e) <==> Holds(c.run, e) && !LetsGo(c, ByClose(a))
  {
    hide FailAll;
  }

  lemma NextHolds(c: Client, ev: Event, e: Error)
    ensures Holds(Next(c, ev).run, e) <==> Came(c, ev, e) || (Holds(c.run, e) && !LetsGo(c, ev))
  {
    hide CallStep, RunStep, CloseStep, Holds;
    match ev
    case Allocate =>
    case ByCall(id, a) => CallLeavesRun(c, id, a);
    case ByRun(a) => RunHolds(c, a, e);
    case ByClose(a) => CloseHolds(c, a, e);
  }

  predicate CameAt(trace: seq<Event>, i: nat, e: Error) {
    i < |trace| && Came(Run(trace[..i]), trace[i], e)
  }

  predicate LetsGoAt(trace: seq<Event>, j: nat) {
    j < |trace| && LetsGo(Run(trace[..j]), trace[j])
  }

  /** It came away with `e` at event `i` and has not let go of it since. */
  ghost predicate HeldSince(trace: seq<Event>, i: nat, e: Error) {
    CameAt(trace, i, e) && forall j: nat :: i < j < |trace| ==> !LetsGoAt(trace, j)
  }

  lemma AtBefore(front: seq<Event>, ev: Event, j: nat, e: Error)
    ensures j < |front| ==> (CameAt(front + [ev], j, e) <==> CameAt(front, j, e))
    ensures j < |front| ==> (LetsGoAt(front + [ev], j) <==> LetsGoAt(front, j))
  {
    if j < |front| {
      PrefixOfSnoc(front, ev, j);
    }
    hide Run, Came, LetsGo;
  }

  lemma AtLast(front: seq<Event>, ev: Event, e: Error)
    ensures CameAt(front + [ev], |front|, e) <==> Came(Run(front), ev, e)
    ensures LetsGoAt(front + [ev], |front|) <==> LetsGo(Run(front), ev)
  {
    PrefixOfSnoc(front, ev, |front|);
    assert front[..|front|] == front;
    hide Run, Came, LetsGo;
  }

  lemma HeldSnoc(front: seq<Event>, ev: Event, i: nat, e: Error)
    ensures i < |front| ==>
      (HeldSince(front + [ev], i, e) <==> HeldSince(front, i, e) && !LetsGo(Run(front), ev))
    ensures HeldSince(front + [ev], |front|, e) <==> Came(Run(front), ev, e)
  {
    hide Run, Came, LetsGo, CameAt, LetsGoAt;
    var trace := front + [ev];
    AtLast(front, ev, e);
    forall j: nat | j < |front|
      ensures (CameAt(trace, j, e) <==> CameAt(front, j, e)) && (LetsGoAt(trace, j) <==> LetsGoAt(front, j))
    {
      AtBefore(front, ev, j, e);
    }
  }

  /** The error with which the run task may end, failing the whole table, is exactly the one it came away
      with last. */
  lemma {:induction false} ErrorIff(trace: seq<Event>, e: Error)
    ensures Holds(Run(trace).run, e) <==> exists i: nat :: HeldSince(trace, i, e)
  {
    if trace != [] {
      var front, ev := trace[..|trace| - 1], trace[|trace| - 1];
      ErrorIff(front, e);
      NextHolds(Run(front), ev, e);
      assert trace == front + [ev];
      HeldSnoc(front, ev, |front|, e);
      if i: nat :| HeldSince(trace, i, e) {
        HeldSnoc(front, ev, i, e);
      }
      if i: nat :| HeldSince(front, i, e) {
        HeldSnoc(front, ev, i, e);
      }
      hide Next, Came, LetsGo, Holds, HeldSince;
    }
  }

  lemma NextConnected(c: Client, ev: Event)
    requires !c.closed ==> (c.connected <==> c.run.Serving?)
    requires c.closeFailed ==> c.closed
    ensures var d := Next(c, ev);
      (!d.closed ==> (d.connected <==> d.run.Serving?)) && (d.closeFailed ==> d.closed)
  {
    if ev.ByCall? {
      CallLeavesRun(c, ev.id, ev.call);
    }
  }

  /** As long as nobody has closed the client it calls itself connected exactly while a session is served. */
  lemma {:induction false} ConnectedIff(trace: seq<Event>)
    ensures var c := Run(trace);
      (!c.closed ==> (c.connected <==> c.run.Serving?)) && (c.closeFailed ==> c.closed)
  {
    if trace != [] {
      ConnectedIff(trace[..|trace| - 1]);
      NextConnected(Run(trace[..|trace| - 1]), trace[|trace| - 1]);
      hide Next;
    }
  }

  lemma RunAfterClose(c: Client, a: RunAct)
    requires c.closed
    ensures var d := RunStep(c, a);
      && d.closed
      && (c.run != Dialing ==> d.run != Dialing)
      && d.lastSession == c.lastSession + (if c.run == Dialing && a == LogIn then 1 else 0)
      && (d.lastSession > c.lastSession ==> d.run != Dialing)
  {
    hide FailAll;
  }

  lemma CloseAfterClose(c: Client, a: CloseAct)
    requires c.closed
    ensures var d := CloseStep(c, a); d.closed && (d.run == c.run || d.run == Ended) && d.lastSession == c.lastSession
  {
    hide FailAll;
  }

  lemma NextAfterClose(c: Client, ev: Event)
    requires c.closed
    ensures var d := Next(c, ev);
      && d.closed
      && (c.run != Dialing ==> d.run != Dialing)
      && d.lastSession == c.lastSession + (if c.run == Dialing && ev == ByRun(LogIn) then 1 else 0)
      && (d.lastSession > c.lastSession ==> d.run != Dialing)
  {
    hide CallStep, RunStep, CloseStep;
    match ev
    case Allocate =>
    case ByCall(id, a) => CallLeavesRun(c, id, a);
    case ByRun(a) => RunAfterClose(c, a);
    case ByClose(a) => CloseAfterClose(c, a);
  }

  /** After `close()` has raised the flag no session is begun any more, unless an attempt is under way. */
  lemma {:induction false} NoSessionAfterClose(trace: seq<Event>, more: seq<Event>)
    requires Run(trace).closed
    ensures var c, d := Run(trace), Run(trace + more);
      && d.closed
      && (c.run != Dialing ==> d.run != Dialing)
      && c.lastSession <= d.lastSession <= c.lastSession + (if c.run == Dialing then 1 else 0)
      && (d.lastSession > c.lastSession ==> d.run != Dialing)
  {
    if more == [] {
      assert trace + more == trace;
    } else {
      var front, ev := more[..|more| - 1], more[|more| - 1];
      NoSessionAfterClose(trace, front);
      assert trace + more == trace + front + [ev];
      RunSnoc(trace + front, ev);
      NextAfterClose(Run(trace + front), ev);
      hide Run, Next;
    }
  }
}
