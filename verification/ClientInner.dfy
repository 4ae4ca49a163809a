/** The state that all tasks of the client share, as an object updated in place. The `…Does` methods
    perform any one event of `ClientRpc`; the others are the program's own functions, undisturbed. */
module ClientInner {
  import opened Common
  import opened ClientRpc

  class Inner {
    var pending: set<nat>
    var mail: map<nat, Outcome>
    var hand: Option<Reply>
    var writer: Option<nat>
    var requestId: nat
    var connectionId: nat
    var connected: bool
    var closed: bool

    /** Where every call and the run task stand, and whether a `close()` has emptied the table. */
    var calls: map<nat, Call>
    var run: RunPc
    var closeFailed: bool

    ghost function Model(): Client
      reads this
    {
      Client(calls, requestId, pending, hand, mail, writer, connectionId, run, connected, closed, closeFailed)
    }

    /** Every unfinished call can still be answered, exactly once, and no request is orphaned. */
    ghost predicate Valid()
      reads this
    {
      Custody(Model()) && Sessions(Model())
    }

    constructor ()
      ensures Valid() && Model() == NEW
    {
      pending, mail, hand, writer := {}, map[], None, None;
      requestId, connectionId, connected, closed := 0, 0, false, false;
      calls, run, closeFailed := map[], Down, false;
      new;
      AlwaysAccounted([]);
    }

    // ----- The pieces under one lock -----

    /** The drain answers everyone in the table with the same error, and no one else. */
    method FailAllPending(e: Error)
      modifies `pending, `mail
      ensures Model() == FailAll(old(Model()), e)
      ensures pending == {} && mail.Keys == old(mail).Keys + old(pending)
      ensures forall id :: id in old(pending) ==> mail[id] == Err(e)
      ensures forall id :: id in old(mail) && id !in old(pending) ==> mail[id] == old(mail)[id]
    {
      ghost var failed: set<nat> := {};
      while pending != {}
        invariant pending == old(pending) - failed && failed <= old(pending)
        invariant mail == old(mail) + map id | id in failed :: Err(e)
        decreases pending
      {
        var id :| id in pending;
        pending := pending - {id};
        mail := mail[id := Err(e)];
        failed := failed + {id};
      }
      assert failed == old(pending);
    }

    method UnlinkWriter(session: nat)
      modifies `writer
      ensures writer == if old(writer) == Some(session) then None else old(writer)
    {
      if writer == Some(session) {
        writer := None;
      }
    }

    // ----- Any event -----

    method Allocate() returns (id: nat)
      requires Valid()
      modifies this
      ensures Valid() && Model() == AllocateStep(old(Model()))
      ensures id == requestId && id !in old(calls) && id !in old(pending) && id !in old(mail)
    {
      NextKeepsCustody(Model(), Event.Allocate);
      NextKeepsSessions(Model(), Event.Allocate);
      assert CustodyOf(Model(), requestId + 1);
      hide Custody, Sessions;
      requestId := requestId + 1;
      id := requestId;
      calls := calls[id := Allocated];
    }

    method CallDoes(id: nat, a: CallAct)
      requires Valid()
      modifies this
      ensures Valid() && Model() == CallStep(old(Model()), id, a)
    {
      NextKeepsCustody(Model(), ByCall(id, a));
      NextKeepsSessions(Model(), ByCall(id, a));
      hide Custody, Sessions, RunStep, CloseStep;
      if id !in calls { return; }
      match a {
        case Register =>
          if calls[id] == Allocated {
            pending := pending + {id};
            calls := calls[id := Registered];
          }
        case CheckClosed =>
          if calls[id] == Registered {
            calls := calls[id := if closed then Settling(Err(ClosedError)) else Cleared];
          }
        case Write(ok) =>
          if calls[id] == Cleared {
            match writer
            case None => calls := calls[id := Settling(Err(NotConnected))];
            case Some(session) => calls := calls[id := if ok then Sent(session) else Settling(Err(WriteFailed))];
          }
        case Collect =>
          if calls[id].Sent? && id in mail {
            calls := calls[id := Settling(mail[id])];
          }
        case TimeOut =>
          if calls[id].Sent? {
            calls := calls[id := Settling(Err(TimedOut))];
          }
        case Finish =>
          if calls[id].Settling? {
            calls := calls[id := Returned(calls[id].result)];
            pending := pending - {id};
          }
      }
    }

    method RunDoes(a: RunAct)
      requires Valid()
      modifies this
      ensures Valid() && Model() == RunStep(old(Model()), a)
    {
      NextKeepsCustody(Model(), ByRun(a));
      NextKeepsSessions(Model(), ByRun(a));
      hide Custody, Sessions, CallStep, CloseStep;
      match a {
        case TakeReply(r) =>
          if run.Serving? && hand == None && r.id in pending {
            pending := pending - {r.id};
            hand := Some(r);
          }
        case PassReply =>
          if hand.Some? {
            mail := mail[hand.value.id := hand.value.result];
            hand := None;
          }
        case Dial =>
          if run == Down {
            run := if closed then Failed(ClosedError) else Dialing;
          }
        case DialFails(e) =>
          if run == Dialing {
            run := Failed(e);
          }
        case LogIn =>
          if run == Dialing {
            connectionId := connectionId + 1;
            writer := Some(connectionId);
            run := Attached(connectionId);
          }
        case SetConnected =>
          if run.Attached? {
            connected := true;
            run := Serving(run.session);
          }
        case ReadFails(e) =>
          if run.Serving? && hand == None && !e.Refused? {
            connected := false;
            run := Lost(run.session, e);
          }
        case ClearWriter =>
          if run.Lost? {
            UnlinkWriter(run.session);
            run := Unlinked(run.session, run.error);
          }
        case CheckClosedAfter =>
          if run.Unlinked? {
            run := if closed then Failed(run.error) else FailDue(run.session, run.error);
          }
        case FailSession =>
          if run.FailDue? {
            FailAllPending(Disconnected);
            run := Failed(run.error);
          }
        case Retry =>
          if run.Failed? && !closed && run.error != ClosedError {
            run := Down;
          }
        case EndRun =>
          if run.Failed? {
            FailAllPending(run.error);
            run := Ended;
            connected := false;
          }
        case Restart =>
          if run == Ended {
            run := Down;
            connected := false;
          }
      }
    }

    method CloseDoes(a: CloseAct)
      requires Valid()
      modifies this
      ensures Valid() && Model() == CloseStep(old(Model()), a)
    {
      NextKeepsCustody(Model(), ByClose(a));
      NextKeepsSessions(Model(), ByClose(a));
      hide Custody, Sessions, CallStep, RunStep;
      match a {
        case SetClosed =>
          if !closed {
            closed := true;
            connected := false;
          }
        case CloseFailAll =>
          if closed {
            FailAllPending(ClosedError);
            closeFailed := true;
          }
        case CloseTakeWriter =>
          if closeFailed {
            writer := None;
          }
        case Abort =>
          if closeFailed && hand == None {
            run := Ended;
          }
      }
    }

    // ----- The program's own functions, undisturbed -----

    /** The first part of `rpc`: an id no call has had, entered into the table before anything is sent. */
    method Begin() returns (id: nat)
      requires Valid()
      modifies this
      ensures Valid() && id == old(requestId) + 1
      ensures id !in old(calls) && id !in old(pending) && id !in old(mail)
      ensures pending == old(pending) + {id} && calls == old(calls)[id := Registered]
      ensures Model() == CallStep(AllocateStep(old(Model())), id, Register)
    {
      hide Custody, Sessions;
      id := Allocate();
      CallDoes(id, Register);
    }

    /** `send_envelope` for a registered call: a client not closed whose writer works sends the request on
        the writer's session, and nothing else does; the call stays in the table until it returns. */
    method SendEnvelope(id: nat, ok: bool) returns (sent: bool)
      requires Valid() && id in calls && calls[id] == Registered
      modifies this
      ensures Valid() && id in calls
      ensures Model() == old(Model()).(calls := old(calls)[id := calls[id]])
      ensures sent <==> !closed && writer.Some? && ok
      ensures sent ==> calls[id] == Sent(writer.value)
      ensures !sent ==> calls[id] == Settling(Err(
        if closed then ClosedError else if writer == None then NotConnected else WriteFailed))
      ensures sent && id in pending ==>
        Owes(run, writer.value) || (closed && !closeFailed)
    {
      hide Custody;
      CallDoes(id, CheckClosed);
      if calls[id] == Cleared {
        CallDoes(id, Write(ok));
      }
      sent := calls[id].Sent?;
    }

    /** `resolve_pending`: a reply removes and answers its own call only, and nothing already received
        is overwritten; without such a call nothing happens. */
    method ResolvePending(r: Reply)
      requires Valid() && run.Serving? && hand == None
      modifies this
      ensures Valid() && Model() == RunStep(RunStep(old(Model()), TakeReply(r)), PassReply)
      ensures r.id in old(pending) ==>
        r.id !in old(mail) && pending == old(pending) - {r.id} && mail == old(mail)[r.id := r.result]
      ensures r.id !in old(pending) ==> Model() == old(Model())
    {
      assert CustodyOf(Model(), r.id);
      hide Custody, Sessions;
      RunDoes(TakeReply(r));
      RunDoes(PassReply);
    }

    /** The end of `connect_and_serve` after the read loop has failed: the session's writer is gone, and
        unless the client is being closed everyone in the table is told that the connection is lost. */
    method TearDown(e: Error)
      requires Valid() && run.Serving? && hand == None && !e.Refused?
      modifies this
      ensures Valid() && run == Failed(e) && !connected && calls == old(calls)
      ensures writer.Some? ==> closeFailed
      ensures !closed ==>
        pending == {} && forall id :: id in old(pending) ==> id in mail && mail[id] == Err(Disconnected)
      ensures closed ==> pending == old(pending) && mail == old(mail)
    {
      hide Custody, NoOrphan;
      RunDoes(ReadFails(e));
      RunDoes(ClearWriter);
      RunDoes(CheckClosedAfter);
      RunDoes(FailSession);
    }

    /** `close`: everyone in the table is told that the client is closed, the writer is gone and the run
        task ended, for good. */
    method Close()
      requires Valid() && hand == None
      modifies this
      ensures Valid() && closed && closeFailed && (!old(closed) ==> !connected)
      ensures pending == {} && writer == None && run == Ended && calls == old(calls)
      ensures forall id :: id in old(pending) ==> id in mail && mail[id] == Err(ClosedError)
    {
      hide Custody, Sessions;
      CloseDoes(SetClosed);
      CloseDoes(CloseFailAll);
      CloseDoes(CloseTakeWriter);
      CloseDoes(Abort);
    }

    /** A call that nothing disturbs: while a session is served the reply is what it returns, and the
        table is as before. */
    method AnsweredCall(reply: Outcome) returns (id: nat, got: Outcome)
      requires Valid() && run.Serving? && hand == None && !closed && writer.Some?
      modifies this
      ensures Valid() && id == old(requestId) + 1 && got == reply
      ensures id in calls && calls[id] == Returned(reply)
      ensures pending == old(pending) && mail == old(mail)[id := reply]
    {
      hide Custody, Sessions;
      id := Begin();
      var _ := SendEnvelope(id, true);
      assert pending - {id} == old(pending);
      ResolvePending(Reply(id, reply));
      CallDoes(id, Collect);
      CallDoes(id, Finish);
      got := calls[id].result;
    }

    method Perform(ev: Event)
      requires Valid()
      modifies this
      ensures Valid() && Model() == Next(old(Model()), ev)
    {
      hide Custody, Sessions, CallStep, RunStep, CloseStep;
      match ev {
        case Allocate => var _ := Allocate();
        case ByCall(id, a) => CallDoes(id, a);
        case ByRun(a) => RunDoes(a);
        case ByClose(a) => CloseDoes(a);
      }
    }
  }

  /** A fresh object, played through any interleaving of the tasks, ends as the run says: each call in
      it has one result for good, from an honest source. */
  method Play(trace: seq<Event>) returns (inner: Inner)
    ensures fresh(inner) && inner.Valid() && inner.Model() == Run(trace)
    ensures forall id :: id in inner.calls && inner.calls[id].Returned? ==>
      id !in inner.pending && Sourced(trace, id, inner.calls[id].result)
  {
    hide Custody, Sessions, Next, Sourced;
    inner := new Inner();
    for i := 0 to |trace|
      invariant fresh(inner) && inner.Valid() && inner.Model() == Run(trace[..i])
    {
      assert trace[..i + 1][..i] == trace[..i];
      inner.Perform(trace[i]);
    }
    assert trace[..|trace|] == trace;
    forall id | id in inner.calls && inner.calls[id].Returned?
      ensures id !in inner.pending && Sourced(trace, id, inner.calls[id].result)
    {
      ReturnedIsSourced(trace, id);
    }
  }

  lemma ReturnedIsSourced(trace: seq<Event>, id: nat)
    requires id in Run(trace).calls && Run(trace).calls[id].Returned?
    ensures id !in Run(trace).pending && Sourced(trace, id, Run(trace).calls[id].result)
  {
    ResultsAreHonest(trace, id);
    AlwaysAccounted(trace);
    assert CustodyOf(Run(trace), id);
    hide Run, Sourced;
  }
}
