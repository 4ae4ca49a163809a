/** What a run puts on the log, counted: how many entries of each kind the frames it read and the
    attempts it made bring about, and what follows for the events of one message. */
module ClientTally {
  import opened Common
  import opened CursorStore
  import opened ClientSession

  datatype Kind =
    | Announcing(c: Cursor)
    | Acking(c: Cursor)
    | Returning(c: Cursor)
    | SendFailing
    | Packets
    | Errors
    | LoginTries
    | Logins
    | Disconnects
    | Pauses
    | Keeping(c: Cursor, ok: bool)
    | Marking(c: Cursor, ok: bool)

  predicate Is(e: Entry, k: Kind) {
    match k
    case Announcing(c) => e.MessageEvent? && e.message.CursorOf() == c
    case Acking(c) => e == AckSent(c)
    case Returning(c) => e.SendReturned? && e.message.CursorOf() == c
    case SendFailing => e.SendFailed?
    case Packets => e.PacketEvent?
    case Errors => e.ErrorEvent?
    case LoginTries => e.LoginSent?
    case Logins => e.LoginEvent?
    case Disconnects => e.DisconnectEvent?
    case Pauses => e.Slept?
    case Keeping(c, ok) => e.MessageKept? && e.message.CursorOf() == c && e.ok == ok
    case Marking(c, ok) => e == CursorKept(c, ok)
  }

  function One(b: bool): nat {
    if b then 1 else 0
  }

  function Count(log: seq<Entry>, k: Kind): nat {
    if log == [] then 0 else Count(log[..|log| - 1], k) + One(Is(log[|log| - 1], k))
  }

  lemma CountAppend(log: seq<Entry>, e: Entry, k: Kind)
    ensures Count(log + [e], k) == Count(log, k) + One(Is(e, k))
  {
  }

  lemma {:induction false} CountConcat(a: seq<Entry>, b: seq<Entry>, k: Kind)
    ensures Count(a + b, k) == Count(a, k) + Count(b, k)
  {
    if b == [] {
      assert a + b == a;
    } else {
      var front, last := b[..|b| - 1], b[|b| - 1];
      CountConcat(a, front, k);
      assert a + b == (a + front) + [last];
      CountAppend(a + front, last, k);
    }
  }

  lemma {:induction false} NoneCounted(log: seq<Entry>, k: Kind)
    requires forall e :: e in log ==> !Is(e, k)
    ensures Count(log, k) == 0
  {
    if log != [] {
      NoneCounted(log[..|log| - 1], k);
    }
  }

  lemma CountOne(e: Entry, k: Kind)
    ensures Count([e], k) == One(Is(e, k))
  {
    assert [] + [e] == [e];
    CountAppend([], e, k);
  }

  lemma CountTwo(e: Entry, f: Entry, k: Kind)
    ensures Count([e, f], k) == One(Is(e, k)) + One(Is(f, k))
  {
    CountOne(e, k);
    assert [e] + [f] == [e, f];
    CountAppend([e], f, k);
  }

  // ----- What each frame and each attempt brings about -----

  predicate Pushes(f: Frame, c: Cursor) {
    f.Push? && f.message.CursorOf() == c
  }

  predicate StoredPush(f: Frame, c: Cursor) {
    Pushes(f, c) && f.first == Kept && f.second == Kept
  }

  /** The ACK of a stored push goes out exactly with `ack_messages`; a missing writer keeps it back. */
  predicate AckedPush(cfg: Config, f: Frame, c: Cursor) {
    StoredPush(f, c) && cfg.ackMessages && f.ack != NotSent
  }

  predicate ReportsError(cfg: Config, f: Frame) {
    || f.Unusable?
    || (f.Push? && (f.first != Kept || f.second != Kept))
    || (f.Push? && cfg.ackMessages && f.ack == WriteFailed)
  }

  predicate Carries(f: Frame, c: Cursor) {
    (f.Push? || f.SendReply?) && f.message.CursorOf() == c
  }

  function OfFrame(cfg: Config, f: Frame, k: Kind): nat {
    match k
    case Announcing(c) => One(StoredPush(f, c))
    case Acking(c) => One(AckedPush(cfg, f, c))
    case Returning(c) => One(f.SendReply? && f.message.CursorOf() == c && f.first == Kept && f.second == Kept)
    case SendFailing => One(f.SendReply? && (f.first != Kept || f.second != Kept))
    case Packets => One(f.Packet? && !f.consumed)
    case Errors => One(ReportsError(cfg, f))
    case Keeping(c, ok) => One(Carries(f, c) && f.first == if ok then Kept else FailedDirty)
    case Marking(c, ok) => One(Carries(f, c) && f.first == Kept && f.second == if ok then Kept else FailedDirty)
    case _ => 0
  }

  function OfFrames(cfg: Config, frames: seq<Frame>, k: Kind): nat {
    if frames == [] then 0 else OfFrame(cfg, frames[0], k) + OfFrames(cfg, frames[1..], k)
  }

  function OfAttempt(cfg: Config, a: Attempt, k: Kind): nat {
    match k
    case LoginTries => One(a.LoginFails? || a.Session?)
    case Logins => One(a.Session?)
    case Disconnects => One(a.Session?)
    case _ => if a.Session? then OfFrames(cfg, a.frames, k) else 0
  }

  function OfAttempts(cfg: Config, made: seq<Attempt>, k: Kind): nat {
    if made == [] then 0 else OfAttempt(cfg, made[0], k) + OfAttempts(cfg, made[1..], k)
  }

  lemma PersistCount(m: Message, first: Save, second: Save, k: Kind)
    ensures Count(PersistEntries(m, first, second), k)
         == One(first != FailedClean && Is(MessageKept(m, first == Kept), k))
            + One(first == Kept && second != FailedClean && Is(CursorKept(m.CursorOf(), second == Kept), k))
  {
    hide Count, Is;
    NoneCounted([], k);
    CountOne(MessageKept(m, first == Kept), k);
    CountTwo(MessageKept(m, first == Kept), CursorKept(m.CursorOf(), second == Kept), k);
    var kept, marked := MessageKept(m, first == Kept), CursorKept(m.CursorOf(), second == Kept);
    assert PersistEntries(m, first, second)
        == if first == FailedClean then []
           else if first != Kept || second == FailedClean then [kept]
           else [kept, marked];
  }

  lemma AckCount(c: Cursor, ack: Ack, k: Kind)
    ensures Count(AckEntries(c, ack), k)
         == One(ack != NotSent && Is(AckSent(c), k)) + One(ack == WriteFailed && Is(ErrorEvent, k))
  {
    hide Count, Is;
    NoneCounted([], k);
    CountOne(AckSent(c), k);
    CountTwo(AckSent(c), ErrorEvent, k);
  }

  lemma PushCount(cfg: Config, f: Frame, k: Kind)
    requires f.Push?
    ensures Count(Entries(cfg, f), k) == OfFrame(cfg, f, k)
  {
    hide Count, PersistEntries, AckEntries;
    var m := f.message;
    var saved := PersistEntries(m, f.first, f.second);
    var acked := if cfg.ackMessages then AckEntries(m.CursorOf(), f.ack) else [];
    PersistCount(m, f.first, f.second, k);
    AckCount(m.CursorOf(), f.ack, k);
    NoneCounted([], k);
    CountAppend(saved, ErrorEvent, k);
    CountConcat(saved, acked, k);
    CountAppend(saved + acked, MessageEvent(m), k);
  }

  lemma EntriesCount(cfg: Config, f: Frame, k: Kind)
    ensures Count(Entries(cfg, f), k) == OfFrame(cfg, f, k)
  {
    hide Count, PersistEntries, AckEntries;
    match f
    case Push(_, _, _, _) => PushCount(cfg, f, k);
    case SendReply(m, first, second) =>
      var last := if Stored(first, second) then SendReturned(m) else SendFailed;
      PersistCount(m, first, second, k);
      CountAppend(PersistEntries(m, first, second), last, k);
    case _ =>
      NoneCounted([], k);
      CountOne(PacketEvent, k);
      CountOne(ErrorEvent, k);
  }

  lemma {:induction false} SessionCount(cfg: Config, frames: seq<Frame>, k: Kind)
    ensures Count(SessionEntries(cfg, frames), k) == OfFrames(cfg, frames, k)
  {
    hide Entries, OfFrame;
    if frames != [] {
      EntriesCount(cfg, frames[0], k);
      SessionCount(cfg, frames[1..], k);
      CountConcat(Entries(cfg, frames[0]), SessionEntries(cfg, frames[1..]), k);
    }
  }

  lemma {:induction false} FramesBringNoLogin(cfg: Config, frames: seq<Frame>, k: Kind)
    requires k.LoginTries? || k.Logins? || k.Disconnects? || k.Pauses?
    ensures OfFrames(cfg, frames, k) == 0
  {
    if frames != [] {
      FramesBringNoLogin(cfg, frames[1..], k);
    }
  }

  lemma AttemptCount(cfg: Config, seen: seq<Cursor>, a: Attempt, k: Kind)
    ensures Count(AttemptEntries(cfg, seen, a), k) == OfAttempt(cfg, a, k)
  {
    hide Count;
    NoneCounted([], k);
    CountOne(LoginSent(seen), k);
    CountOne(LoginEvent, k);
    if a.Session? {
      var es := SessionEntries(cfg, a.frames);
      SessionCount(cfg, a.frames, k);
      if k.LoginTries? || k.Logins? || k.Disconnects? {
        FramesBringNoLogin(cfg, a.frames, k);
      }
      CountConcat([LoginEvent], es, k);
      CountAppend([LoginEvent] + es, DisconnectEvent, k);
      CountConcat([LoginSent(seen)], [LoginEvent] + es + [DisconnectEvent], k);
    }
  }

  lemma ConnectCount(cfg: Config, log: seq<Entry>, a: Attempt, k: Kind)
    ensures Count(Connect(cfg, log, a), k) == Count(log, k) + OfAttempt(cfg, a, k)
  {
    hide Count, AttemptEntries, Seen, OfAttempt;
    AttemptCount(cfg, Seen(log), a, k);
    CountConcat(log, AttemptEntries(cfg, Seen(log), a), k);
  }

  lemma RetryCount(log: seq<Entry>, delay: nat, k: Kind)
    ensures Count(Retry(log, delay), k) == Count(log, k) + One(k.Errors? || k.Pauses?)
  {
    hide Count;
    CountTwo(ErrorEvent, Slept(delay), k);
    CountConcat(log, [ErrorEvent, Slept(delay)], k);
  }

  lemma MadeCount(cfg: Config, script: seq<Attempt>, k: Kind)
    requires script != []
    ensures OfAttempts(cfg, Made(cfg, script), k)
         == OfAttempt(cfg, script[0], k)
            + if ShouldRetry(cfg, Outcome(script[0])) then OfAttempts(cfg, Made(cfg, script[1..]), k) else 0
  {
    hide OfAttempt;
    var made := Made(cfg, script);
    assert ShouldRetry(cfg, Outcome(script[0])) ==> made[1..] == Made(cfg, script[1..]);
  }

  /** The number of entries of every kind in a run is what its attempts bring about, and one error
      event and one pause for each attempt that is tried again. */
  lemma {:induction false} RunCounts(cfg: Config, log: seq<Entry>, script: seq<Attempt>, delay: nat, k: Kind)
    ensures Count(Play(cfg, log, script, delay), k)
         == Count(log, k) + OfAttempts(cfg, Made(cfg, script), k)
            + if k.Errors? || k.Pauses? then Retried(cfg, script) else 0
    decreases script
  {
    hide Count, Connect, Retry, OfAttempt;
    if script != [] {
      var t := Connect(cfg, log, script[0]);
      ConnectCount(cfg, log, script[0], k);
      RetryCount(t, delay, k);
      MadeCount(cfg, script, k);
      hide Made, OfAttempts;
      if ShouldRetry(cfg, Outcome(script[0])) {
        RunCounts(cfg, Retry(t, delay), script[1..], Doubled(cfg, delay), k);
      }
    } else {
      assert Made(cfg, script) == [];
      assert OfAttempts(cfg, [], k) == 0;
    }
  }

  // ----- Events and ACKs of one message -----

  function Announced(log: seq<Entry>, c: Cursor): nat {
    Count(log, Announcing(c))
  }

  /** All frames of the sessions among these attempts, in order. */
  function Frames(made: seq<Attempt>): seq<Frame> {
    if made == [] then [] else (if made[0].Session? then made[0].frames else []) + Frames(made[1..])
  }

  /** How many pushes of `c` were stored without error. */
  function StoredPushes(frames: seq<Frame>, c: Cursor): nat {
    if frames == [] then 0 else One(StoredPush(frames[0], c)) + StoredPushes(frames[1..], c)
  }

  /** How many of them were acknowledged, going by what became of the ACK. */
  function SentAcks(frames: seq<Frame>, c: Cursor): nat {
    if frames == [] then 0
    else One(StoredPush(frames[0], c) && frames[0].ack != NotSent) + SentAcks(frames[1..], c)
  }

  lemma {:induction false} FramesSplit(a: seq<Frame>, b: seq<Frame>, c: Cursor)
    ensures StoredPushes(a + b, c) == StoredPushes(a, c) + StoredPushes(b, c)
    ensures SentAcks(a + b, c) == SentAcks(a, c) + SentAcks(b, c)
  {
    if a == [] {
      assert a + b == b;
    } else {
      assert (a + b)[1..] == a[1..] + b;
      FramesSplit(a[1..], b, c);
    }
  }

  lemma {:induction false} SessionPushes(cfg: Config, frames: seq<Frame>, c: Cursor)
    ensures OfFrames(cfg, frames, Announcing(c)) == StoredPushes(frames, c)
    ensures OfFrames(cfg, frames, Acking(c)) == if cfg.ackMessages then SentAcks(frames, c) else 0
  {
    if frames != [] {
      SessionPushes(cfg, frames[1..], c);
    }
  }

  lemma {:induction false} MadePushes(cfg: Config, made: seq<Attempt>, c: Cursor)
    ensures OfAttempts(cfg, made, Announcing(c)) == StoredPushes(Frames(made), c)
    ensures OfAttempts(cfg, made, Acking(c)) == if cfg.ackMessages then SentAcks(Frames(made), c) else 0
  {
    if made != [] {
      var first := if made[0].Session? then made[0].frames else [];
      SessionPushes(cfg, first, c);
      MadePushes(cfg, made[1..], c);
      FramesSplit(first, Frames(made[1..]), c);
    }
  }

  /** The exact number of events a message gets: one for each push of it that was stored. The client
      itself removes no duplicates. */
  lemma EventsAreStoredPushes(cfg: Config, log: seq<Entry>, script: seq<Attempt>, delay: nat, c: Cursor)
    ensures Announced(Play(cfg, log, script, delay), c)
         == Announced(log, c) + StoredPushes(Frames(Made(cfg, script)), c)
  {
    RunCounts(cfg, log, script, delay, Announcing(c));
    MadePushes(cfg, Made(cfg, script), c);
    hide Count, Play;
  }

  /** The exact number of ACKs it gets: with `ack_messages`, one for each stored push for which there was
      a writer; without, none. */
  lemma AcksAreStoredPushes(cfg: Config, log: seq<Entry>, script: seq<Attempt>, delay: nat, c: Cursor)
    ensures Count(Play(cfg, log, script, delay), Acking(c))
         == Count(log, Acking(c)) + if cfg.ackMessages then SentAcks(Frames(Made(cfg, script)), c) else 0
  {
    RunCounts(cfg, log, script, delay, Acking(c));
    MadePushes(cfg, Made(cfg, script), c);
    hide Count, Play;
  }

  /** The ACK at `i`, if there is one, is followed by the event of its message, at most the report of its
      own failure in between. What precedes it is `InOrder`. */
  predicate AckFollowed(log: seq<Entry>, i: nat)
    requires i < |log|
  {
    log[i].AckSent? ==>
      && i + 1 < |log|
      && (|| Is(log[i + 1], Announcing(log[i].cursor))
          || (log[i + 1] == ErrorEvent && i + 2 < |log| && Is(log[i + 2], Announcing(log[i].cursor))))
  }

  ghost predicate AllAcksFollowed(log: seq<Entry>) {
    forall i :: 0 <= i < |log| ==> AckFollowed(log, i)
  }

  lemma FollowedConcat(a: seq<Entry>, b: seq<Entry>)
    requires AllAcksFollowed(a) && AllAcksFollowed(b)
    ensures AllAcksFollowed(a + b)
  {
    forall i | 0 <= i < |a + b| ensures AckFollowed(a + b, i) {
      if i < |a| {
        assert AckFollowed(a, i);
      } else {
        assert AckFollowed(b, i - |a|);
      }
    }
  }

  lemma EntriesFollowed(cfg: Config, f: Frame)
    ensures AllAcksFollowed(Entries(cfg, f))
  {
  }

  lemma {:induction false} SessionFollowed(cfg: Config, frames: seq<Frame>)
    ensures AllAcksFollowed(SessionEntries(cfg, frames))
  {
    if frames != [] {
      EntriesFollowed(cfg, frames[0]);
      SessionFollowed(cfg, frames[1..]);
      FollowedConcat(Entries(cfg, frames[0]), SessionEntries(cfg, frames[1..]));
    }
  }

  lemma AttemptFollowed(cfg: Config, seen: seq<Cursor>, a: Attempt)
    ensures AllAcksFollowed(AttemptEntries(cfg, seen, a))
  {
    if a.Session? {
      var es := SessionEntries(cfg, a.frames);
      SessionFollowed(cfg, a.frames);
      FollowedConcat([LoginEvent], es);
      FollowedConcat([LoginEvent] + es, [DisconnectEvent]);
      FollowedConcat([LoginSent(seen)], [LoginEvent] + es + [DisconnectEvent]);
    }
  }

  /** In a run that is not cut short, every ACK stands between the record of its own cursor and the event
      of its own message. */
  lemma {:induction false} AcksAreFramed(cfg: Config, log: seq<Entry>, script: seq<Attempt>, delay: nat)
    requires AllAcksFollowed(log)
    ensures AllAcksFollowed(Play(cfg, log, script, delay))
    decreases script
  {
    hide AllAcksFollowed, AttemptEntries, Seen;
    if script != [] {
      var t := Connect(cfg, log, script[0]);
      AttemptFollowed(cfg, Seen(log), script[0]);
      FollowedConcat(log, AttemptEntries(cfg, Seen(log), script[0]));
      if ShouldRetry(cfg, Outcome(script[0])) {
        RetryFollowed(t, delay);
        AcksAreFramed(cfg, Retry(t, delay), script[1..], Doubled(cfg, delay));
      }
    }
  }

  lemma RetryFollowed(log: seq<Entry>, delay: nat)
    requires AllAcksFollowed(log)
    ensures AllAcksFollowed(Retry(log, delay))
  {
    FollowedConcat(log, [ErrorEvent, Slept(delay)]);
  }

  // ----- The order of events -----

  /** The messages announced, in order. */
  function Heard(log: seq<Entry>): seq<Message> {
    if log == [] then []
    else
      var e := log[|log| - 1];
      Heard(log[..|log| - 1]) + if e.MessageEvent? then [e.message] else []
  }

  /** The messages of the pushes stored without error, in order. */
  function StoredList(frames: seq<Frame>): seq<Message> {
    if frames == [] then []
    else (if frames[0].Push? && StoredPush(frames[0], frames[0].message.CursorOf()) then [frames[0].message] else [])
         + StoredList(frames[1..])
  }

  lemma HeardAppend(log: seq<Entry>, e: Entry)
    ensures Heard(log + [e]) == Heard(log) + if e.MessageEvent? then [e.message] else []
  {
  }

  lemma {:induction false} HeardConcat(a: seq<Entry>, b: seq<Entry>)
    ensures Heard(a + b) == Heard(a) + Heard(b)
  {
    if b == [] {
      assert a + b == a;
    } else {
      var front, last := b[..|b| - 1], b[|b| - 1];
      HeardConcat(a, front);
      assert a + b == (a + front) + [last];
      HeardAppend(a + front, last);
    }
  }

  lemma {:induction false} NothingHeard(log: seq<Entry>)
    requires forall e :: e in log ==> !e.MessageEvent?
    ensures Heard(log) == []
  {
    if log != [] {
      NothingHeard(log[..|log| - 1]);
    }
  }

  lemma EntriesHeard(cfg: Config, f: Frame)
    ensures Heard(Entries(cfg, f)) == StoredList([f])
  {
    hide Heard;
    var es := Entries(cfg, f);
    assert StoredList([f]) == if f.Push? && Stored(f.first, f.second) then [f.message] else [];
    if f.Push? && Stored(f.first, f.second) {
      var head := es[..|es| - 1];
      assert es == head + [MessageEvent(f.message)];
      NothingHeard(head);
      HeardAppend(head, MessageEvent(f.message));
    } else {
      NothingHeard(es);
    }
  }

  lemma {:induction false} SessionHeard(cfg: Config, frames: seq<Frame>)
    ensures Heard(SessionEntries(cfg, frames)) == StoredList(frames)
  {
    hide Entries, Heard, StoredPush;
    if frames == [] {
      NothingHeard([]);
    } else {
      EntriesHeard(cfg, frames[0]);
      SessionHeard(cfg, frames[1..]);
      HeardConcat(Entries(cfg, frames[0]), SessionEntries(cfg, frames[1..]));
    }
  }

  lemma {:induction false} StoredListConcat(a: seq<Frame>, b: seq<Frame>)
    ensures StoredList(a + b) == StoredList(a) + StoredList(b)
  {
    if a == [] {
      assert a + b == b;
    } else {
      assert (a + b)[1..] == a[1..] + b;
      StoredListConcat(a[1..], b);
    }
  }

  lemma AttemptHeard(cfg: Config, seen: seq<Cursor>, a: Attempt)
    ensures Heard(AttemptEntries(cfg, seen, a)) == if a.Session? then StoredList(a.frames) else []
  {
    hide Heard, StoredList;
    NothingHeard([]);
    NothingHeard([LoginSent(seen)]);
    NothingHeard([LoginEvent]);
    if a.Session? {
      var es := SessionEntries(cfg, a.frames);
      SessionHeard(cfg, a.frames);
      HeardConcat([LoginEvent], es);
      HeardAppend([LoginEvent] + es, DisconnectEvent);
      HeardConcat([LoginSent(seen)], [LoginEvent] + es + [DisconnectEvent]);
    }
  }

  lemma ConnectHeard(cfg: Config, log: seq<Entry>, a: Attempt, delay: nat)
    ensures var heard := if a.Session? then StoredList(a.frames) else [];
      && Heard(Connect(cfg, log, a)) == Heard(log) + heard
      && Heard(Retry(Connect(cfg, log, a), delay)) == Heard(log) + heard
  {
    hide Heard, AttemptEntries, Seen, StoredList;
    AttemptHeard(cfg, Seen(log), a);
    HeardConcat(log, AttemptEntries(cfg, Seen(log), a));
    NothingHeard([ErrorEvent, Slept(delay)]);
    HeardConcat(Connect(cfg, log, a), [ErrorEvent, Slept(delay)]);
  }

  lemma MadeFrames(cfg: Config, script: seq<Attempt>)
    requires script != []
    ensures Frames(Made(cfg, script))
         == (if script[0].Session? then script[0].frames else [])
            + if ShouldRetry(cfg, Outcome(script[0])) then Frames(Made(cfg, script[1..])) else []
  {
    var made := Made(cfg, script);
    assert ShouldRetry(cfg, Outcome(script[0])) ==> made[1..] == Made(cfg, script[1..]);
  }

  /** A run announces exactly the messages it was pushed and has stored, in the order of the pushes. */
  lemma {:induction false} EventsInOrder(cfg: Config, log: seq<Entry>, script: seq<Attempt>, delay: nat)
    ensures Heard(Play(cfg, log, script, delay)) == Heard(log) + StoredList(Frames(Made(cfg, script)))
    decreases script
  {
    hide Heard, Connect, Retry, StoredList;
    if script == [] {
      assert Frames(Made(cfg, script)) == [];
      NothingListed();
    } else {
      var t, first := Connect(cfg, log, script[0]), if script[0].Session? then script[0].frames else [];
      ConnectHeard(cfg, log, script[0], delay);
      MadeFrames(cfg, script);
      NothingListed();
      hide Made, Frames;
      if ShouldRetry(cfg, Outcome(script[0])) {
        EventsInOrder(cfg, Retry(t, delay), script[1..], Doubled(cfg, delay));
        StoredListConcat(first, Frames(Made(cfg, script[1..])));
      } else {
        assert first + [] == first;
      }
    }
  }

  lemma NothingListed()
    ensures StoredList([]) == []
  {
  }

  // ----- At most one event per message -----

  /** The server's promise for one session: it pushes a cursor at most once, and none the login named. */
  predicate Honours(frames: seq<Frame>, seen: seq<Cursor>) {
    forall i :: 0 <= i < |frames| && frames[i].Push? ==>
      && frames[i].message.CursorOf() !in seen
      && forall j :: 0 <= j < i ==> !Pushes(frames[j], frames[i].message.CursorOf())
  }

  /** The promise over a run, each session judged by the cursors its own login named. */
  predicate ServerHonours(cfg: Config, log: seq<Entry>, script: seq<Attempt>, delay: nat)
    decreases script
  {
    script == [] ||
    (&& (script[0].Session? ==> Honours(script[0].frames, Seen(log)))
     && (ShouldRetry(cfg, Outcome(script[0])) ==>
           ServerHonours(cfg, Retry(Connect(cfg, log, script[0]), delay), script[1..], Doubled(cfg, delay))))
  }

  ghost predicate OncePerMessage(log: seq<Entry>, c: Cursor) {
    Announced(log, c) <= 1 && (Announced(log, c) == 1 ==> c in Seen(log))
  }

  lemma EntriesTell(cfg: Config, log: seq<Entry>, f: Frame, c: Cursor)
    requires StoredPush(f, c)
    ensures c in Seen(log + Entries(cfg, f))
  {
    hide Seen;
    var es := Entries(cfg, f);
    assert TellsStore(es[1], c);
    assert TellsStore((log + es)[|log| + 1], c);
    SeenIff(log + es, c);
  }

  lemma EntriesOnce(cfg: Config, log: seq<Entry>, f: Frame, c: Cursor)
    requires OncePerMessage(log, c) && (Pushes(f, c) ==> Announced(log, c) == 0)
    ensures OncePerMessage(log + Entries(cfg, f), c)
    ensures Announced(log + Entries(cfg, f), c) == Announced(log, c) + if StoredPush(f, c) then 1 else 0
  {
    hide Count, Entries, Seen;
    var es := Entries(cfg, f);
    EntriesCount(cfg, f, Announcing(c));
    CountConcat(log, es, Announcing(c));
    if StoredPush(f, c) {
      EntriesTell(cfg, log, f, c);
    } else if c in Seen(log) {
      SeenGrows(log, es, c);
    }
  }

  ghost predicate PushedOnce(log: seq<Entry>, frames: seq<Frame>, c: Cursor) {
    forall i :: 0 <= i < |frames| && Pushes(frames[i], c) ==>
      Announced(log, c) == 0 && forall j :: 0 <= j < i ==> !Pushes(frames[j], c)
  }

  lemma PushedOnceRest(log: seq<Entry>, frames: seq<Frame>, c: Cursor, after: seq<Entry>)
    requires frames != [] && PushedOnce(log, frames, c)
    requires Announced(after, c) == Announced(log, c) + if StoredPush(frames[0], c) then 1 else 0
    ensures PushedOnce(after, frames[1..], c)
  {
    hide Count;
    var rest := frames[1..];
    forall i | 0 <= i < |rest| && Pushes(rest[i], c)
      ensures Announced(after, c) == 0 && forall j :: 0 <= j < i ==> !Pushes(rest[j], c)
    {
      assert Pushes(frames[i + 1], c);
      assert !Pushes(frames[0], c);
      forall j | 0 <= j < i ensures !Pushes(rest[j], c) {
        assert !Pushes(frames[j + 1], c);
      }
    }
  }

  lemma {:induction false} SessionOnce(cfg: Config, log: seq<Entry>, frames: seq<Frame>, c: Cursor)
    requires OncePerMessage(log, c) && PushedOnce(log, frames, c)
    ensures OncePerMessage(log + SessionEntries(cfg, frames), c)
    decreases frames
  {
    hide OncePerMessage, Count, Entries;
    if frames == [] {
      assert log + [] == log;
    } else {
      var next := log + Entries(cfg, frames[0]);
      assert Pushes(frames[0], c) ==> Announced(log, c) == 0;
      EntriesOnce(cfg, log, frames[0], c);
      PushedOnceRest(log, frames, c, next);
      SessionOnce(cfg, next, frames[1..], c);
      assert log + SessionEntries(cfg, frames) == next + SessionEntries(cfg, frames[1..]);
    }
  }

  /** Entries that announce nothing cannot break it. */
  lemma QuietOnce(log: seq<Entry>, es: seq<Entry>, c: Cursor)
    requires OncePerMessage(log, c) && forall e :: e in es ==> !Is(e, Announcing(c))
    ensures OncePerMessage(log + es, c) && Announced(log + es, c) == Announced(log, c)
  {
    hide Count, Seen;
    NoneCounted(es, Announcing(c));
    CountConcat(log, es, Announcing(c));
    if c in Seen(log) {
      SeenGrows(log, es, c);
    }
  }

  lemma WholeSessionOnce(cfg: Config, log: seq<Entry>, frames: seq<Frame>, c: Cursor)
    requires OncePerMessage(log, c) && PushedOnce(log, frames, c)
    ensures var es := SessionEntries(cfg, frames);
      OncePerMessage(log + ([LoginSent(Seen(log))] + ([LoginEvent] + es + [DisconnectEvent])), c)
  {
    hide Count, Seen, OncePerMessage, PushedOnce;
    var login := log + [LoginSent(Seen(log)), LoginEvent];
    var es := SessionEntries(cfg, frames);
    hide SessionEntries;
    QuietOnce(log, [LoginSent(Seen(log)), LoginEvent], c);
    PushedOnceSame(log, login, frames, c);
    SessionOnce(cfg, login, frames, c);
    QuietOnce(login + es, [DisconnectEvent], c);
    assert log + ([LoginSent(Seen(log))] + ([LoginEvent] + es + [DisconnectEvent])) == login + es + [DisconnectEvent];
  }

  lemma ConnectOnce(cfg: Config, log: seq<Entry>, a: Attempt, c: Cursor)
    requires OncePerMessage(log, c) && (a.Session? ==> Honours(a.frames, Seen(log)))
    ensures OncePerMessage(Connect(cfg, log, a), c)
  {
    if a.Session? {
      HonoursPushesOnce(log, a.frames, c);
      WholeSessionOnce(cfg, log, a.frames, c);
    } else {
      QuietOnce(log, AttemptEntries(cfg, Seen(log), a), c);
    }
    hide Count, Seen, OncePerMessage, PushedOnce, Honours, SessionEntries;
  }

  lemma HonoursPushesOnce(log: seq<Entry>, frames: seq<Frame>, c: Cursor)
    requires OncePerMessage(log, c) && Honours(frames, Seen(log))
    ensures PushedOnce(log, frames, c)
  {
  }

  lemma PushedOnceSame(log: seq<Entry>, after: seq<Entry>, frames: seq<Frame>, c: Cursor)
    requires PushedOnce(log, frames, c) && Announced(after, c) == Announced(log, c)
    ensures PushedOnce(after, frames, c)
  {
  }

  lemma {:induction false} PlayOnce(cfg: Config, log: seq<Entry>, script: seq<Attempt>, delay: nat, c: Cursor)
    requires OncePerMessage(log, c) && ServerHonours(cfg, log, script, delay)
    ensures OncePerMessage(Play(cfg, log, script, delay), c)
    decreases script
  {
    hide OncePerMessage, Connect, Seen, Honours;
    if script != [] {
      var t := Connect(cfg, log, script[0]);
      ConnectOnce(cfg, log, script[0], c);
      QuietOnce(t, [ErrorEvent, Slept(delay)], c);
      if ShouldRetry(cfg, Outcome(script[0])) {
        PlayOnce(cfg, Retry(t, delay), script[1..], Doubled(cfg, delay), c);
      }
    }
  }

  /** With a server that keeps its promise, no message is announced twice, across any number of
      sessions, disconnects and store failures. */
  lemma AtMostOnce(cfg: Config, script: seq<Attempt>, c: Cursor)
    requires ServerHonours(cfg, [], script, cfg.initialDelay)
    ensures Announced(Play(cfg, [], script, cfg.initialDelay), c) <= 1
  {
    PlayOnce(cfg, [], script, cfg.initialDelay, c);
  }
}
