/** The pending-request table of the client, shared by concurrent calls, the read loop, the teardown
    of a session, `close()` and the end of the run task.

    Each event is one stretch of code under one lock, so any interleaving of the tasks is a sequence
    of events. An event asked for at the wrong moment changes nothing. */
module ClientRpc {
  import opened Common

  /** `Refused` is an error the server sent; `Broken` any connection, store or protocol error. */
  datatype Error =
    | ClosedError | NotConnected | Disconnected | WriteFailed | TimedOut | Broken | Refused(code: int)

  /** Response bodies are abstracted to a number. */
  datatype Outcome = Ok(value: int) | Err(error: Error)

  /** Where one call of `rpc` stands. */
  datatype Call =
    | Allocated
    | Registered
    | Cleared
    | Sent(session: nat)
    | Settling(result: Outcome)
    | Returned(result: Outcome)

  /** Where the run task stands: the session it serves, and the error it has come away with. */
  datatype RunPc =
    | Down
    | Dialing
    | Attached(session: nat)
    | Serving(session: nat)
    | Lost(session: nat, error: Error)
    | Unlinked(session: nat, error: Error)
    | FailDue(session: nat, error: Error)
    | Failed(error: Error)
    | Ended

  datatype Reply = Reply(id: nat, result: Outcome)

  /** `hand` is the reply the read loop has taken out of `pending` and not yet passed on, `mail` what
      the calls have received. `closeFailed` records that a `close()` has emptied `pending`. */
  datatype Client = Client(
    calls: map<nat, Call>, issued: nat,
    pending: set<nat>, hand: Option<Reply>, mail: map<nat, Outcome>,
    writer: Option<nat>, lastSession: nat, run: RunPc, connected: bool,
    closed: bool, closeFailed: bool)

  datatype CallAct = Register | CheckClosed | Write(ok: bool) | Collect | TimeOut | Finish

  datatype RunAct =
    | TakeReply(reply: Reply) | PassReply
    | Dial | DialFails(error: Error) | LogIn | SetConnected
    | ReadFails(error: Error) | ClearWriter | CheckClosedAfter | FailSession
    | Retry | EndRun | Restart

  datatype CloseAct = SetClosed | CloseFailAll | CloseTakeWriter | Abort

  datatype Event =
    | Allocate
    | ByCall(id: nat, call: CallAct)
    | ByRun(run: RunAct)
    | ByClose(close: CloseAct)

  const NEW := Client(map[], 0, {}, None, map[], None, 0, Down, false, false, false)

  function At(c: Client, id: nat): Call {
    if id in c.calls then c.calls[id] else Returned(Err(NotConnected))
  }

  function Move(c: Client, id: nat, p: Call): Client {
    c.(calls := c.calls[id := p])
  }

  /** `fail_all_pending`: empties the table and sends everyone in it the same error. */
  function FailAll(c: Client, e: Error): (d: Client)
    ensures d == c.(pending := {}, mail := d.mail)
  {
    c.(pending := {}, mail := c.mail + map id | id in c.pending :: Err(e))
  }

  function AllocateStep(c: Client): Client {
    c.(issued := c.issued + 1, calls := c.calls[c.issued + 1 := Allocated])
  }

  function CallStep(c: Client, id: nat, a: CallAct): Client {
    var p := At(c, id);
    match a
    case Register =>
      if p == Allocated then Move(c, id, Registered).(pending := c.pending + {id}) else c
    case CheckClosed =>
      if p != Registered then c
      else Move(c, id, if c.closed then Settling(Err(ClosedError)) else Cleared)
    case Write(ok) =>
      if p != Cleared then c
      else if c.writer == None then Move(c, id, Settling(Err(NotConnected)))
      else Move(c, id, if ok then Sent(c.writer.value) else Settling(Err(WriteFailed)))
    case Collect =>
      if p.Sent? && id in c.mail then Move(c, id, Settling(c.mail[id])) else c
    case TimeOut =>
      if p.Sent? then Move(c, id, Settling(Err(TimedOut))) else c
    case Finish =>
      if p.Settling? then Move(c, id, Returned(p.result)).(pending := c.pending - {id}) else c
  }

  /** Dialling covers the handshake up to the login: a login the server refuses is a `DialFails` with
      the server's error. Reading fails with the client's own errors only, since an error frame in a
      session is no reason to leave it. Whether an error is retried also depends on the configuration
      and the server's code, so both `Retry` and `EndRun` may follow. */
  function RunStep(c: Client, a: RunAct): Client {
    match a
    case TakeReply(r) =>
      if c.run.Serving? && c.hand == None && r.id in c.pending
      then c.(pending := c.pending - {r.id}, hand := Some(r)) else c
    case PassReply =>
      if c.hand.Some? then c.(mail := c.mail[c.hand.value.id := c.hand.value.result], hand := None) else c
    case Dial =>
      if c.run != Down then c else c.(run := if c.closed then Failed(ClosedError) else Dialing)
    case DialFails(e) =>
      if c.run == Dialing then c.(run := Failed(e)) else c
    case LogIn =>
      if c.run != Dialing then c
      else c.(lastSession := c.lastSession + 1, writer := Some(c.lastSession + 1), run := Attached(c.lastSession + 1))
    case SetConnected =>
      if c.run.Attached? then c.(connected := true, run := Serving(c.run.session)) else c
    case ReadFails(e) =>
      if c.run.Serving? && c.hand == None && !e.Refused?
      then c.(connected := false, run := Lost(c.run.session, e)) else c
    case ClearWriter =>
      if !c.run.Lost? then c
      else c.(writer := if c.writer == Some(c.run.session) then None else c.writer,
              run := Unlinked(c.run.session, c.run.error))
    case CheckClosedAfter =>
      if !c.run.Unlinked? then c
      else c.(run := if c.closed then Failed(c.run.error) else FailDue(c.run.session, c.run.error))
    case FailSession =>
      if c.run.FailDue? then FailAll(c, Disconnected).(run := Failed(c.run.error)) else c
    case Retry =>
      if c.run.Failed? && !c.closed && c.run.error != ClosedError then c.(run := Down) else c
    case EndRun =>
      if c.run.Failed? then FailAll(c, c.run.error).(run := Ended, connected := false) else c
    case Restart =>
      if c.run == Ended then c.(run := Down, connected := false) else c
  }

  function CloseStep(c: Client, a: CloseAct): Client {
    match a
    case SetClosed => if c.closed then c else c.(closed := true, connected := false)
    case CloseFailAll => if c.closed then FailAll(c, ClosedError).(closeFailed := true) else c
    case CloseTakeWriter => if c.closeFailed then c.(writer := None) else c
    case Abort => if c.closeFailed && c.hand == None then c.(run := Ended) else c
  }

  function Next(c: Client, ev: Event): Client {
    match ev
    case Allocate => AllocateStep(c)
    case ByCall(id, a) => CallStep(c, id, a)
    case ByRun(a) => RunStep(c, a)
    case ByClose(a) => CloseStep(c, a)
  }

  function Run(trace: seq<Event>): Client {
    if trace == [] then NEW else Next(Run(trace[..|trace| - 1]), trace[|trace| - 1])
  }

  // ----- Custody of a call's reply -----

  predicate InHand(c: Client, id: nat) {
    c.hand.Some? && c.hand.value.id == id
  }

  function Places(c: Client, id: nat): nat {
    (if id in c.pending then 1 else 0) + (if InHand(c, id) then 1 else 0) + (if id in c.mail then 1 else 0)
  }

  /** The sending half of a call's reply channel is in exactly one place until the call returns, so the
      receiver never finds it dropped. */
  predicate Kept(c: Client, id: nat) {
    match At(c, id)
    case Allocated => Places(c, id) == 0
    case Returned(_) => id !in c.pending && Places(c, id) <= 1
    case _ => Places(c, id) == 1
  }

  predicate CustodyOf(c: Client, id: nat) {
    && (id in c.calls <==> 1 <= id <= c.issued)
    && (Places(c, id) > 0 ==> id in c.calls)
    && (id in c.calls ==> Kept(c, id))
  }

  ghost predicate Custody(c: Client) {
    forall id: nat :: CustodyOf(c, id)
  }

  lemma OtherCallUntouched(c: Client, i: nat, a: CallAct, id: nat)
    requires i != id
    ensures var d := CallStep(c, i, a);
      && At(d, id) == At(c, id) && (id in d.calls <==> id in c.calls)
      && (id in d.pending <==> id in c.pending)
  {
  }

  lemma CallTouchesNoMail(c: Client, i: nat, a: CallAct)
    ensures var d := CallStep(c, i, a); d.hand == c.hand && d.mail == c.mail && d.issued == c.issued
  {
  }

  lemma CallKeepsCustody(c: Client, i: nat, a: CallAct, id: nat)
    requires CustodyOf(c, id)
    ensures CustodyOf(CallStep(c, i, a), id)
  {
  }

  /** The error with which this step of the run task fails the whole table. */
  function TableError(c: Client, a: RunAct): Option<Error> {
    if a.FailSession? && c.run.FailDue? then Some(Disconnected)
    else if a.EndRun? && c.run.Failed? then Some(c.run.error)
    else None
  }

  lemma RunFailsOne(c: Client, a: RunAct)
    requires a.FailSession? || a.EndRun?
    ensures var d, e := RunStep(c, a), TableError(c, a);
      && d.calls == c.calls && d.issued == c.issued && d.hand == c.hand
      && d.pending == (if e.Some? then {} else c.pending)
      && d.mail == if e.Some? then FailAll(c, e.value).mail else c.mail
  {
  }

  lemma RunFailsNone(c: Client, a: RunAct)
    requires !a.TakeReply? && !a.PassReply? && !a.FailSession? && !a.EndRun?
    ensures var d := RunStep(c, a);
      && d.calls == c.calls && d.issued == c.issued && d.hand == c.hand
      && d.pending == c.pending && d.mail == c.mail
  {
    hide FailAll;
  }

  lemma RunFailsAll(c: Client, a: RunAct)
    requires !a.TakeReply? && !a.PassReply?
    ensures var d, e := RunStep(c, a), TableError(c, a);
      && d.calls == c.calls && d.issued == c.issued && d.hand == c.hand
      && d.pending == (if e.Some? then {} else c.pending)
      && d.mail == if e.Some? then FailAll(c, e.value).mail else c.mail
  {
    hide RunStep, FailAll;
    if a.FailSession? || a.EndRun? {
      RunFailsOne(c, a);
    } else {
      RunFailsNone(c, a);
    }
  }

  lemma RunKeepsCustody(c: Client, a: RunAct, id: nat)
    requires CustodyOf(c, id)
    ensures CustodyOf(RunStep(c, a), id)
  {
  }

  lemma CloseKeepsCustody(c: Client, a: CloseAct, id: nat)
    requires CustodyOf(c, id)
    ensures CustodyOf(CloseStep(c, a), id)
  {
  }

  lemma NextKeepsCustody(c: Client, ev: Event)
    requires Custody(c)
    ensures Custody(Next(c, ev))
  {
    forall id: nat ensures CustodyOf(Next(c, ev), id) {
      assert CustodyOf(c, id);
      hide CallStep, RunStep, CloseStep;
      match ev
      case Allocate => assert Places(Next(c, ev), id) == Places(c, id);
      case ByCall(i, a) => CallKeepsCustody(c, i, a, id);
      case ByRun(a) => RunKeepsCustody(c, a, id);
      case ByClose(a) => CloseKeepsCustody(c, a, id);
    }
  }

  // ----- No orphaned request -----

  /** The run task still owes session `k` its `fail_all_pending`. */
  predicate Owes(p: RunPc, k: nat) {
    (p.Attached? || p.Serving? || p.Lost? || p.Unlinked? || p.FailDue?) && p.session == k
  }

  predicate Linked(p: RunPc, k: nat) {
    (p.Attached? || p.Serving? || p.Lost?) && p.session == k
  }

  /** A registered request that went out on a session is still owed its end: by the session's own
      teardown, or by a `close()` that has raised the flag and not yet emptied the table. */
  ghost predicate NoOrphan(c: Client) {
    forall id :: id in c.pending && At(c, id).Sent? ==>
      Owes(c.run, At(c, id).session) || (c.closed && !c.closeFailed)
  }

  ghost predicate Sessions(c: Client) {
    && (c.closeFailed ==> c.closed)
    && (c.closeFailed ==> forall id :: id in c.pending ==> At(c, id) != Cleared && !At(c, id).Sent?)
    && (c.writer.Some? ==> Linked(c.run, c.writer.value) || c.closeFailed)
    && NoOrphan(c)
  }

  lemma CallKeepsSessions(c: Client, id: nat, a: CallAct)
    requires Sessions(c)
    ensures Sessions(CallStep(c, id, a))
  {
  }

  lemma RunKeepsSessions(c: Client, a: RunAct)
    requires Sessions(c)
    ensures Sessions(RunStep(c, a))
  {
    var d := RunStep(c, a);
    forall i | i in d.pending
      ensures i in c.pending && At(d, i) == At(c, i)
      ensures At(d, i).Sent? ==> Owes(d.run, At(d, i).session) || (d.closed && !d.closeFailed)
    {
    }
  }

  lemma CloseKeepsSessions(c: Client, a: CloseAct)
    requires Sessions(c)
    ensures Sessions(CloseStep(c, a))
  {
  }

  lemma AllocateKeepsSessions(c: Client)
    requires Custody(c) && Sessions(c)
    ensures Sessions(AllocateStep(c))
  {
  }

  lemma NextKeepsSessions(c: Client, ev: Event)
    requires Custody(c) && Sessions(c)
    ensures Sessions(Next(c, ev))
  {
    hide Custody, Sessions;
    match ev
    case Allocate => AllocateKeepsSessions(c);
    case ByCall(id, a) => CallKeepsSessions(c, id, a);
    case ByRun(a) => RunKeepsSessions(c, a);
    case ByClose(a) => CloseKeepsSessions(c, a);
  }

  /** In every interleaving of calls, replies, teardowns, reconnects and closes: ids are handed out
      once, every unfinished call can still be answered, and no request is orphaned. */
  lemma {:induction false} AlwaysAccounted(trace: seq<Event>)
    ensures Custody(Run(trace)) && Sessions(Run(trace))
  {
    if trace != [] {
      var front := trace[..|trace| - 1];
      AlwaysAccounted(front);
      NextKeepsCustody(Run(front), trace[|trace| - 1]);
      NextKeepsSessions(Run(front), trace[|trace| - 1]);
    }
  }

  /** Once a dead session's teardown, or the `close()` that overtook it, has failed the table, no call
      whose request went out on that session is left in it, and each has its answer on the way. */
  lemma DeadSessionLeavesNoCall(trace: seq<Event>, id: nat, k: nat)
    requires At(Run(trace), id) == Sent(k)
    requires !Owes(Run(trace).run, k) && (Run(trace).closed ==> Run(trace).closeFailed)
    ensures id !in Run(trace).pending
    ensures InHand(Run(trace), id) || id in Run(trace).mail
  {
    AlwaysAccounted(trace);
    assert CustodyOf(Run(trace), id);
  }

  // ----- One result per call -----

  /** What never changes back: ids are not reused, a call that left the table does not return to it,
      a reply received is not replaced, and a result settled on is the one returned. */
  predicate CallLater(c: Client, d: Client, id: nat) {
    && (id in c.calls ==> id in d.calls)
    && (id in c.calls && At(c, id) != Allocated ==> At(d, id) != Allocated && (id !in c.pending ==> id !in d.pending))
    && (id in c.mail ==> id in d.mail && d.mail[id] == c.mail[id])
    && (id in c.calls && At(c, id).Settling? ==> At(d, id) == At(c, id) || At(d, id) == Returned(At(c, id).result))
    && (id in c.calls && At(c, id).Returned? ==> At(d, id) == At(c, id))
  }

  lemma CallActLater(c: Client, i: nat, a: CallAct, id: nat)
    requires CustodyOf(c, id)
    ensures CallLater(c, CallStep(c, i, a), id)
  {
    CallTouchesNoMail(c, i, a);
    if i != id {
      OtherCallUntouched(c, i, a, id);
      hide CallStep;
    }
  }

  lemma RunActLater(c: Client, a: RunAct, id: nat)
    requires CustodyOf(c, id)
    ensures CallLater(c, RunStep(c, a), id)
  {
    assert id in c.mail ==> id !in c.pending && !InHand(c, id);
    if !a.TakeReply? && !a.PassReply? {
      RunFailsAll(c, a);
      hide RunStep;
    }
  }

  lemma CloseActLater(c: Client, a: CloseAct, id: nat)
    requires CustodyOf(c, id)
    ensures CallLater(c, CloseStep(c, a), id)
  {
  }

  lemma NextCallLater(c: Client, ev: Event, id: nat)
    requires CustodyOf(c, id)
    ensures CallLater(c, Next(c, ev), id)
  {
    hide CallStep, RunStep, CloseStep;
    match ev
    case Allocate =>
    case ByCall(i, a) => CallActLater(c, i, a, id);
    case ByRun(a) => RunActLater(c, a, id);
    case ByClose(a) => CloseActLater(c, a, id);
  }

  lemma CallLaterOn(c: Client, d: Client, e: Client, id: nat)
    requires CallLater(c, d, id) && CallLater(d, e, id)
    ensures CallLater(c, e, id)
  {
  }

  lemma {:induction false} RunCallLater(trace: seq<Event>, more: seq<Event>, id: nat)
    ensures CallLater(Run(trace), Run(trace + more), id)
  {
    if more == [] {
      assert trace + more == trace;
    } else {
      var front := more[..|more| - 1];
      RunCallLater(trace, front, id);
      assert (trace + more)[..|trace + more| - 1] == trace + front;
      var d := Run(trace + front);
      AlwaysAccounted(trace + front);
      assert CustodyOf(d, id);
      assert Run(trace + more) == Next(d, more[|more| - 1]);
      hide Run, Next, CallLater, Custody, CustodyOf, Sessions;
      NextCallLater(d, more[|more| - 1], id);
      CallLaterOn(Run(trace), d, Run(trace + more), id);
    }
  }

  /** Event `i` of the run is a reply to call `id` that found it in the table. */
  predicate TakenAt(trace: seq<Event>, i: nat, id: nat, r: Outcome) {
    && i < |trace| && trace[i] == ByRun(TakeReply(Reply(id, r)))
    && id in Run(trace[..i]).pending && Run(trace[..i]).run.Serving? && Run(trace[..i]).hand == None
  }

  ghost predicate Replied(trace: seq<Event>, id: nat, r: Outcome) {
    exists i: nat :: TakenAt(trace, i, id, r)
  }

  lemma RepliedStays(front: seq<Event>, ev: Event, id: nat, r: Outcome)
    requires Replied(front, id, r)
    ensures Replied(front + [ev], id, r)
  {
    var i: nat :| TakenAt(front, i, id, r);
    assert (front + [ev])[..i] == front[..i];
    assert TakenAt(front + [ev], i, id, r);
  }

  /** At most one reply is ever taken for a call: duplicates, late and unsolicited ones find nothing. */
  lemma TakenOnce(trace: seq<Event>, i: nat, j: nat, id: nat, r: Outcome, q: Outcome)
    requires TakenAt(trace, i, id, r) && TakenAt(trace, j, id, q)
    ensures i == j && r == q
  {
    if i < j {
      TakenThenGone(trace, i, j, id, r);
    } else if j < i {
      TakenThenGone(trace, j, i, id, q);
    }
  }

  /** What left the table with event `i` is not in it again. */
  lemma LeftThenGone(trace: seq<Event>, i: nat, j: nat, id: nat)
    requires i < j <= |trace|
    requires id in Run(trace[..i]).pending && id !in Next(Run(trace[..i]), trace[i]).pending
    ensures id !in Run(trace[..j]).pending
  {
    var first := trace[..i + 1];
    assert first[..|first| - 1] == trace[..i];
    assert trace[..j] == first + trace[i + 1..j];
    AlwaysAccounted(trace[..i]);
    assert CustodyOf(Run(trace[..i]), id);
    NextCallLater(Run(trace[..i]), trace[i], id);
    RunCallLater(first, trace[i + 1..j], id);
    hide Next, Custody, Sessions;
  }

  lemma TakenThenGone(trace: seq<Event>, i: nat, j: nat, id: nat, r: Outcome)
    requires TakenAt(trace, i, id, r) && i < j <= |trace|
    ensures id !in Run(trace[..j]).pending
  {
    LeftThenGone(trace, i, j, id);
  }

  predicate LocalError(r: Outcome) {
    r.Err? && !r.error.Refused?
  }

  /** Event `i` of the run is the end of the run task, which fails the table, and call `id` in it, with
      the server error that the task has come away with. */
  predicate FailedAt(trace: seq<Event>, i: nat, id: nat, r: Outcome) {
    && i < |trace| && trace[i] == ByRun(EndRun)
    && id in Run(trace[..i]).pending && Run(trace[..i]).run.Failed?
    && Run(trace[..i]).run.error.Refused? && r == Err(Run(trace[..i]).run.error)
  }

  ghost predicate FailedByEnd(trace: seq<Event>, id: nat, r: Outcome) {
    exists i: nat :: FailedAt(trace, i, id, r)
  }

  lemma FailedStays(front: seq<Event>, ev: Event, id: nat, r: Outcome)
    requires FailedByEnd(front, id, r)
    ensures FailedByEnd(front + [ev], id, r)
  {
    var i: nat :| FailedAt(front, i, id, r);
    assert (front + [ev])[..i] == front[..i];
    assert FailedAt(front + [ev], i, id, r);
  }

  ghost predicate Sourced(trace: seq<Event>, id: nat, r: Outcome) {
    LocalError(r) || Replied(trace, id, r) || FailedByEnd(trace, id, r)
  }

  /** Every result comes from a reply to this very call, is one of the client's own errors, or is the
      server error with which the run task ended while the call was in the table. */
  ghost predicate Honest(trace: seq<Event>, c: Client, id: nat) {
    && (InHand(c, id) ==> Replied(trace, id, c.hand.value.result))
    && (id in c.mail ==> Sourced(trace, id, c.mail[id]))
    && (At(c, id).Settling? ==> Sourced(trace, id, At(c, id).result))
    && (At(c, id).Returned? ==> Sourced(trace, id, At(c, id).result))
  }

  lemma CallActHonest(trace: seq<Event>, c: Client, i: nat, a: CallAct, id: nat)
    requires Honest(trace, c, id)
    ensures Honest(trace, CallStep(c, i, a), id)
  {
    hide Replied, FailedByEnd;
    var d := CallStep(c, i, a);
    assert d.mail == c.mail && d.hand == c.hand;
    if i != id {
      assert At(d, id) == At(c, id);
    }
  }

  lemma RunFailsHonestly(front: seq<Event>, trace: seq<Event>, c: Client, a: RunAct, id: nat)
    requires c == Run(front) && trace == front + [ByRun(a)] && !a.TakeReply? && !a.PassReply?
    requires Honest(trace, c, id)
    ensures Honest(trace, RunStep(c, a), id)
  {
    var d, e := RunStep(c, a), TableError(c, a);
    RunFailsAll(c, a);
    assert At(d, id) == At(c, id);
    if e.Some? && id in c.pending && e.value.Refused? {
      assert trace[..|front|] == front;
      assert FailedAt(trace, |front|, id, Err(e.value));
    }
    hide Replied, FailedByEnd, RunStep, Run;
  }

  lemma RunActHonest(front: seq<Event>, trace: seq<Event>, c: Client, a: RunAct, id: nat)
    requires c == Run(front) && trace == front + [ByRun(a)]
    requires Honest(trace, c, id)
    ensures Honest(trace, RunStep(c, a), id)
  {
    if !a.TakeReply? && !a.PassReply? {
      RunFailsHonestly(front, trace, c, a, id);
    } else {
      var d := RunStep(c, a);
      assert At(d, id) == At(c, id);
      if a.TakeReply? && d != c && a.reply.id == id {
        assert trace[..|front|] == front;
        assert TakenAt(trace, |front|, id, a.reply.result);
      }
    }
    hide Replied, FailedByEnd, Run;
  }

  lemma CloseActHonest(trace: seq<Event>, c: Client, a: CloseAct, id: nat)
    requires Honest(trace, c, id)
    ensures Honest(trace, CloseStep(c, a), id)
  {
  }

  lemma {:induction false} ResultsAreHonest(trace: seq<Event>, id: nat)
    ensures Honest(trace, Run(trace), id)
  {
    if trace != [] {
      var front, ev := trace[..|trace| - 1], trace[|trace| - 1];
      ResultsAreHonest(front, id);
      assert trace == front + [ev];
      var c := Run(front);
      HonestStays(front, ev, c, id);
      hide Honest, CallStep, RunStep, CloseStep;
      match ev
      case Allocate => AllocateHonest(trace, c, id);
      case ByCall(i, a) => CallActHonest(trace, c, i, a, id);
      case ByRun(a) => RunActHonest(front, trace, c, a, id);
      case ByClose(a) => CloseActHonest(trace, c, a, id);
    }
  }

  lemma HonestStays(front: seq<Event>, ev: Event, c: Client, id: nat)
    requires Honest(front, c, id)
    ensures Honest(front + [ev], c, id)
  {
    forall r | Replied(front, id, r) ensures Replied(front + [ev], id, r) {
      RepliedStays(front, ev, id, r);
    }
    forall r | FailedByEnd(front, id, r) ensures FailedByEnd(front + [ev], id, r) {
      FailedStays(front, ev, id, r);
    }
    hide Replied, FailedByEnd;
  }

  lemma AllocateHonest(trace: seq<Event>, c: Client, id: nat)
    requires Honest(trace, c, id)
    ensures Honest(trace, AllocateStep(c), id)
  {
  }

  /** Each call returns one result for good, and a success is a reply that named this call. */
  lemma ExactlyOneOutcome(trace: seq<Event>, more: seq<Event>, id: nat)
    requires At(Run(trace), id).Returned? && id in Run(trace).calls
    ensures At(Run(trace + more), id) == At(Run(trace), id)
    ensures id !in Run(trace + more).pending
    ensures At(Run(trace), id).result.Ok? ==> Replied(trace, id, At(Run(trace), id).result)
  {
    RunCallLater(trace, more, id);
    ResultsAreHonest(trace, id);
    AlwaysAccounted(trace);
    assert CustodyOf(Run(trace), id);
  }

  // ----- Server errors that no reply named -----

  lemma FailedIsFinal(trace: seq<Event>, i: nat, id: nat, r: Outcome)
    requires FailedAt(trace, i, id, r)
    ensures id in Run(trace).mail && Run(trace).mail[id] == r && !Replied(trace, id, r)
  {
    var c, first := Run(trace[..i]), trace[..i + 1];
    assert first[..|first| - 1] == trace[..i];
    assert trace == first + trace[i + 1..];
    RunFailsAll(c, EndRun);
    RunCallLater(first, trace[i + 1..], id);
    forall j: nat ensures !TakenAt(trace, j, id, r) {
      if i < j < |trace| {
        LeftThenGone(trace, i, j, id);
      } else if j < i && TakenAt(trace, j, id, r) {
        TakenThenGone(trace, j, i, id, r);
      }
    }
  }

  /** Event `i` is a login that the server refuses with `e`. */
  predicate RefusedAt(trace: seq<Event>, i: nat, e: Error) {
    i < |trace| && trace[i] == ByRun(DialFails(e)) && Run(trace[..i]).run == Dialing
  }

  ghost predicate LoginRefused(trace: seq<Event>, e: Error) {
    exists i: nat :: RefusedAt(trace, i, e)
  }

  lemma RefusedStays(front: seq<Event>, ev: Event, e: Error)
    requires LoginRefused(front, e)
    ensures LoginRefused(front + [ev], e)
  {
    var i: nat :| RefusedAt(front, i, e);
    assert (front + [ev])[..i] == front[..i];
    assert RefusedAt(front + [ev], i, e);
  }

  /** Past reading or at its end, the run task holds this error. */
  predicate Holds(p: RunPc, e: Error) {
    (p.Lost? || p.Unlinked? || p.FailDue? || p.Failed?) && p.error == e
  }

  predicate ServerErrorInSession(p: RunPc) {
    (p.Lost? || p.Unlinked? || p.FailDue?) && p.error.Refused?
  }

  lemma RunErrorComesFrom(c: Client, a: RunAct)
    ensures var p, q := c.run, RunStep(c, a).run;
      && (ServerErrorInSession(q) ==> ServerErrorInSession(p))
      && (q.Failed? && q.error.Refused? ==>
            (p == Dialing && a == DialFails(q.error)) || Holds(p, q.error))
  {
  }

  lemma OthersLeaveRun(c: Client, ev: Event)
    requires !ev.ByRun?
    ensures Next(c, ev).run == c.run || Next(c, ev).run == Ended
  {
  }

  /** The only server error the run task can come away with is that of a refused login. */
  lemma {:induction false} ServerErrorIsLogin(trace: seq<Event>)
    ensures var p := Run(trace).run;
      !ServerErrorInSession(p) && (p.Failed? && p.error.Refused? ==> LoginRefused(trace, p.error))
  {
    if trace != [] {
      var front, ev := trace[..|trace| - 1], trace[|trace| - 1];
      var c, q := Run(front), Run(trace).run;
      ServerErrorIsLogin(front);
      assert trace == front + [ev] && trace[..|front|] == front;
      if ev.ByRun? { RunErrorComesFrom(c, ev.run); } else { OthersLeaveRun(c, ev); }
      if q.Failed? && q.error.Refused? {
        if c.run == Dialing && ev == ByRun(DialFails(q.error)) {
          assert RefusedAt(trace, |front|, q.error);
        } else {
          RefusedStays(front, ev, q.error);
        }
      }
      hide RunStep, CallStep, CloseStep, LoginRefused;
    }
  }

  lemma FailedNeedsRefusal(trace: seq<Event>, i: nat, id: nat, r: Outcome)
    requires FailedAt(trace, i, id, r)
    ensures LoginRefused(trace, r.error)
  {
    ServerErrorIsLogin(trace[..i]);
    var k: nat :| RefusedAt(trace[..i], k, r.error);
    assert trace[..i][..k] == trace[..k];
    assert RefusedAt(trace, k, r.error);
  }

  /** A call is answered with a server error that no reply to it carried exactly if the run task ended
      with this error while the call was in the table; and then a login was refused with it. */
  lemma ServerErrorIff(trace: seq<Event>, id: nat, code: int)
    ensures var r := Err(Refused(code));
      && (FailedByEnd(trace, id, r)
          <==> id in Run(trace).mail && Run(trace).mail[id] == r && !Replied(trace, id, r))
      && (FailedByEnd(trace, id, r) ==> LoginRefused(trace, Refused(code)))
  {
    var r := Err(Refused(code));
    ResultsAreHonest(trace, id);
    if i: nat :| FailedAt(trace, i, id, r) {
      FailedIsFinal(trace, i, id, r);
      FailedNeedsRefusal(trace, i, id, r);
    }
    hide Run, FailedAt, LoginRefused;
  }

  lemma RunSnoc(trace: seq<Event>, x: Event)
    ensures Run(trace + [x]) == Next(Run(trace), x)
  {
    assert (trace + [x])[..|trace|] == trace;
  }

  lemma RunThree(trace: seq<Event>, x: Event, y: Event, z: Event)
    ensures Run(trace + [x, y, z]) == Next(Next(Next(Run(trace), x), y), z)
  {
    hide Run, Next;
    RunSnoc(trace, x);
    RunSnoc(trace + [x], y);
    RunSnoc(trace + [x] + [y], z);
    assert trace + [x, y, z] == trace + [x] + [y] + [z];
  }

  /** A call registers and passes its checks while the first login is under way. */
  const CALLED: seq<Event> := [Allocate, ByCall(1, Register), ByCall(1, CheckClosed)]

  function RefusedLogin(code: int): seq<Event> {
    [ByRun(Dial), ByRun(DialFails(Refused(code))), ByRun(EndRun)]
  }

  const RESTARTED: seq<Event> := [ByRun(Restart), ByRun(Dial), ByRun(LogIn)]

  const FINISHED: seq<Event> := [ByCall(1, Write(true)), ByCall(1, Collect), ByCall(1, Finish)]

  function SweptRun(code: int): seq<Event> {
    CALLED + RefusedLogin(code) + RESTARTED + FINISHED
  }

  lemma CalledEffect()
    ensures Run(CALLED) == NEW.(calls := map[1 := Cleared], issued := 1, pending := {1})
  {
    assert Run([]) == NEW;
    assert [] + CALLED == CALLED;
    RunThree([], Allocate, ByCall(1, Register), ByCall(1, CheckClosed));
    hide Run;
  }

  lemma FailOnlyCall(c: Client, e: Error)
    requires c.pending == {1} && c.mail == map[]
    ensures FailAll(c, e) == c.(pending := {}, mail := map[1 := Err(e)])
  {
    assert FailAll(c, e).mail == map[1 := Err(e)];
  }

  lemma RefusedLoginEffect(c: Client, code: int)
    requires c.run == Down && !c.closed && !c.connected && c.pending == {1} && c.mail == map[]
    ensures var r := RefusedLogin(code);
      Next(Next(Next(c, r[0]), r[1]), r[2])
        == c.(pending := {}, mail := map[1 := Err(Refused(code))], run := Ended)
  {
    FailOnlyCall(c.(run := Failed(Refused(code))), Refused(code));
    hide FailAll;
  }

  lemma SweptBeforeSending(code: int)
    ensures Run(CALLED + RefusedLogin(code))
         == NEW.(calls := map[1 := Cleared], issued := 1, mail := map[1 := Err(Refused(code))], run := Ended)
  {
    hide Run, Next;
    CalledEffect();
    var r := RefusedLogin(code);
    RunThree(CALLED, r[0], r[1], r[2]);
    RefusedLoginEffect(Run(CALLED), code);
  }

  lemma RestartedEffect(c: Client)
    requires c.run == Ended && !c.closed
    ensures var s := c.lastSession + 1;
      Next(Next(Next(c, RESTARTED[0]), RESTARTED[1]), RESTARTED[2])
        == c.(connected := false, lastSession := s, writer := Some(s), run := Attached(s))
  {
    hide FailAll;
  }

  lemma FinishedEffect(c: Client, r: Outcome)
    requires c.calls == map[1 := Cleared] && c.mail == map[1 := r] && c.writer.Some?
    ensures At(Next(Next(Next(c, FINISHED[0]), FINISHED[1]), FINISHED[2]), 1) == Returned(r)
  {
  }

  /** Such a run: the call comes back with the refusal of a login it has nothing to do with, although
      its own request went out on the next session and nothing was replied. */
  lemma RefusalOccurs(code: int)
    ensures At(Run(SweptRun(code)), 1) == Returned(Err(Refused(code)))
    ensures forall i :: 0 <= i < |SweptRun(code)| ==> !(SweptRun(code)[i].ByRun? && SweptRun(code)[i].run.TakeReply?)
  {
    SweptBeforeSending(code);
    var t := CALLED + RefusedLogin(code);
    RunThree(t, RESTARTED[0], RESTARTED[1], RESTARTED[2]);
    RestartedEffect(Run(t));
    RunThree(t + RESTARTED, FINISHED[0], FINISHED[1], FINISHED[2]);
    FinishedEffect(Run(t + RESTARTED), Err(Refused(code)));
    hide Run, Next;
  }
}
