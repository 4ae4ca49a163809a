/** The run task as the program has it: loops over attempts and frames, calling the store object and
    updating the reconnect delay and the visible log in place. Proved against `ClientSession`. */
module ClientRun {
  import opened Common
  import opened CursorStore
  import opened ClientSession
  import opened ClientTally

  datatype Served = Done | Failed(error: Error)

  /** The store is a `MemoryCursorStore`; whether a call to it reports success is decided from outside. */
  class RunTask {
    const cfg: Config
    const store: MemoryCursorStore
    var log: seq<Entry>
    var delay: nat

    /** The store has been told exactly what the log says. */
    ghost predicate Tracks()
      reads this, store
    {
      store.Valid() && store.log == Calls(log)
    }

    /** And nothing so far was committed to before it was stored, or hidden from a login. */
    ghost predicate Valid()
      reads this, store
    {
      Tracks() && Safe(log)
    }

    /** A new client over a store that earlier clients may have used; `before` is what they did. */
    constructor (cfg: Config, store: MemoryCursorStore, before: seq<Entry>)
      requires store.Valid() && store.log == Calls(before) && Safe(before)
      ensures Valid() && this.cfg == cfg && this.store == store && log == before
    {
      this.cfg, this.store := cfg, store;
      log, delay := before, cfg.initialDelay;
    }

    method Note(e: Entry)
      requires Tracks() && CallOf(e) == []
      modifies `log
      ensures Tracks() && log == old(log) + [e]
    {
      CallsAppend(log, e);
      log := log + [e];
    }

    method StoreMessage(m: Message, ok: bool)
      requires Tracks()
      modifies `log, store
      ensures Tracks() && log == old(log) + [MessageKept(m, ok)]
    {
      store.Save(m);
      CallsAppend(log, MessageKept(m, ok));
      log := log + [MessageKept(m, ok)];
    }

    method StoreCursor(c: Cursor, ok: bool)
      requires Tracks()
      modifies `log, store
      ensures Tracks() && log == old(log) + [CursorKept(c, ok)]
    {
      store.Mark(c);
      CallsAppend(log, CursorKept(c, ok));
      log := log + [CursorKept(c, ok)];
    }

    /** On success both store calls have gone through, so every later login will name the message. */
    method PersistMessage(m: Message, first: Save, second: Save) returns (ok: bool)
      requires Tracks()
      modifies `log, store
      ensures Tracks() && log == old(log) + PersistEntries(m, first, second)
      ensures ok <==> Stored(first, second)
      ensures ok ==> Recorded(log, m.CursorOf(), |log|) && m.CursorOf() in Seen(log)
      ensures first != Kept ==> forall e :: e in log[|old(log)|..] ==> !e.CursorKept?
    {
      ghost var before := log;
      hide Calls, Recorded, Seen;
      if first != FailedClean {
        StoreMessage(m, first == Kept);
      }
      if first != Kept { return false; }
      if second != FailedClean {
        StoreCursor(m.CursorOf(), second == Kept);
      }
      if second != Kept { return false; }
      JustRecorded(before, m);
      assert log == before + [MessageKept(m, true), CursorKept(m.CursorOf(), true)];
      return true;
    }

    method SendAck(c: Cursor, ack: Ack)
      requires Tracks()
      modifies `log
      ensures Tracks() && log == old(log) + AckEntries(c, ack)
    {
      if ack != NotSent {
        Note(AckSent(c));
        if ack == WriteFailed {
          Note(ErrorEvent);
        }
      }
    }

    /** Whatever the frame and the fate of the store calls and the ACK, nothing is committed to before
        it is stored, and every kind of entry comes as often as the frame says. */
    method HandleFrame(f: Frame)
      requires Tracks()
      modifies `log, store
      ensures Tracks() && log == old(log) + Entries(cfg, f)
      ensures old(Safe(log)) ==> Safe(log)
      ensures forall k :: Count(log, k) == Count(old(log), k) + OfFrame(cfg, f, k)
    {
      ghost var before := log;
      hide Safe, Calls, Count, OfFrame;
      match f {
        case Push(m, first, second, ack) =>
          var ok := PersistMessage(m, first, second);
          if ok {
            if cfg.ackMessages {
              SendAck(m.CursorOf(), ack);
            }
            Note(MessageEvent(m));
          } else {
            Note(ErrorEvent);
          }
        case SendReply(m, first, second) =>
          var ok := PersistMessage(m, first, second);
          Note(if ok then SendReturned(m) else SendFailed);
        case Packet(consumed) =>
          if !consumed {
            Note(PacketEvent);
          }
        case Unusable =>
          Note(ErrorEvent);
        case OtherReply =>
      }
      assert log == before + Entries(cfg, f);
      FrameIsSafe(cfg, before, f);
      FrameIsCounted(cfg, before, f);
    }

    /** All frames, in order; how often each kind of entry comes is counted from the frames. */
    method ReadLoop(frames: seq<Frame>)
      requires Tracks()
      modifies `log, store
      ensures Tracks() && log == old(log) + SessionEntries(cfg, frames)
      ensures old(Safe(log)) ==> Safe(log)
      ensures forall k :: Count(log, k) == Count(old(log), k) + OfFrames(cfg, frames, k)
      ensures Heard(log) == Heard(old(log)) + StoredList(frames)
    {
      hide Safe, Entries, Calls, Count, OfFrame, OfFrames, Heard, StoredList;
      ghost var before := log;
      var i := 0;
      while i < |frames|
        invariant 0 <= i <= |frames| && Tracks()
        invariant log + SessionEntries(cfg, frames[i..]) == old(log) + SessionEntries(cfg, frames)
        invariant old(Safe(log)) ==> Safe(log)
      {
        assert frames[i..][1..] == frames[i + 1..];
        HandleFrame(frames[i]);
        i := i + 1;
      }
      assert log == before + SessionEntries(cfg, frames);
      forall k ensures Count(log, k) == Count(before, k) + OfFrames(cfg, frames, k) {
        SessionCount(cfg, frames, k);
        CountConcat(before, SessionEntries(cfg, frames), k);
      }
      SessionHeard(cfg, frames);
      HeardConcat(before, SessionEntries(cfg, frames));
    }

    /** No way out but an error: the arm of `run` for a clean end is never taken. */
    method ConnectAndServe(a: Attempt) returns (r: Served)
      requires Valid()
      modifies `log, store
      ensures Valid() && log == Connect(cfg, old(log), a)
      ensures r == Failed(Outcome(a))
    {
      ConnectSafe(cfg, log, a);
      hide Safe, SessionEntries, Calls;
      match a {
        case LoadFails =>
          assert log + [] == log;
          r := Failed(StoreError);
        case DialFails =>
          assert log + [] == log;
          r := Failed(ConnectionError);
        case LoginFails(e) =>
          var seen := store.Load();
          Note(LoginSent(seen));
          r := Failed(e);
        case Session(frames, readError) =>
          Serve(frames);
          r := Failed(readError);
      }
    }

    /** The part of `connect_and_serve` from the login to the disconnect. */
    method Serve(frames: seq<Frame>)
      requires Tracks()
      modifies `log, store
      ensures Tracks()
      ensures log == old(log)
        + ([LoginSent(Seen(old(log)))] + ([LoginEvent] + SessionEntries(cfg, frames) + [DisconnectEvent]))
    {
      hide Safe, SessionEntries, Calls;
      var seen := store.Load();
      Note(LoginSent(seen));
      Note(LoginEvent);
      ReadLoop(frames);
      Note(DisconnectEvent);
    }

    /** The reconnect loop. Over the whole life of this client, and of the earlier ones over the same
        store, everything stands right after the store calls it rests on, every login covers what was
        committed before and names nothing that was not stored; and the messages announced are the
        pushes stored, in order. */
    method Run(script: seq<Attempt>)
      requires Valid()
      modifies this, store
      ensures Valid() && log == Play(cfg, old(log), script, cfg.initialDelay)
      ensures old(log) <= log && WellShaped(log[|old(log)|..]) && Orderly(log)
      ensures PersistedFirst(log) && Covered(log) && NamesStored(log)
      ensures Heard(log) == Heard(old(log)) + StoredList(Frames(Made(cfg, script)))
    {
      ghost var before := log;
      hide Safe, Connect, Calls, WellShaped, Orderly, PersistedFirst, Covered, NamesStored;
      hide Heard, StoredList, Frames, Made;
      delay := cfg.initialDelay;
      var i := 0;
      while i < |script|
        invariant 0 <= i <= |script| && Valid()
        invariant Play(cfg, log, script[i..], delay) == Play(cfg, before, script, cfg.initialDelay)
      {
        assert script[i..][1..] == script[i + 1..];
        var r := ConnectAndServe(script[i]);
        match r {
          case Done =>
            assert false;
          case Failed(error) =>
            if !cfg.reconnect || error == ServerError(true) { break; }
            RetrySafe(log, delay);
            ghost var t := log;
            Note(ErrorEvent);
            Note(Slept(delay));
            assert log == Retry(t, delay);
            delay := Min(Min(2 * delay, DURATION_MAX), cfg.maxDelay);
        }
        i := i + 1;
      }
      PlaysSafely(cfg, before, script);
      EventsInOrder(cfg, before, script, cfg.initialDelay);
    }
  }

  lemma JustRecorded(before: seq<Entry>, m: Message)
    ensures var log := before + [MessageKept(m, true), CursorKept(m.CursorOf(), true)];
      Recorded(log, m.CursorOf(), |log|) && m.CursorOf() in Seen(log)
  {
    hide Seen;
    var log := before + [MessageKept(m, true), CursorKept(m.CursorOf(), true)];
    assert RecordedAt(log, |before|, |before| + 1, m.CursorOf());
    assert TellsStore(log[|before| + 1], m.CursorOf());
    SeenIff(log, m.CursorOf());
  }

  lemma FrameIsCounted(cfg: Config, log: seq<Entry>, f: Frame)
    ensures forall k :: Count(log + Entries(cfg, f), k) == Count(log, k) + OfFrame(cfg, f, k)
  {
    forall k ensures Count(log + Entries(cfg, f), k) == Count(log, k) + OfFrame(cfg, f, k) {
      EntriesCount(cfg, f, k);
      CountConcat(log, Entries(cfg, f), k);
    }
    hide Count, Entries, OfFrame;
  }

  lemma FrameIsSafe(cfg: Config, log: seq<Entry>, f: Frame)
    ensures Safe(log) ==> Safe(log + Entries(cfg, f))
  {
    hide Safe, Entries, Orderly;
    EntriesOrderly(cfg, f);
    EntriesArePlain(cfg, f);
    if Safe(log) {
      SafeAppend(log, Entries(cfg, f));
    }
  }

  lemma PlaysSafely(cfg: Config, before: seq<Entry>, script: seq<Attempt>)
    requires Safe(before)
    ensures var log := Play(cfg, before, script, cfg.initialDelay);
      && before <= log && WellShaped(log[|before|..]) && Orderly(log)
      && PersistedFirst(log) && Covered(log) && NamesStored(log)
  {
    hide Play, Safe, WellShaped, Orderly, PersistedFirst, Covered, NamesStored;
    var log := Play(cfg, before, script, cfg.initialDelay);
    RunIsSafe(cfg, before, script, |log|);
    assert log[..|log|] == log;
  }
}
