/** The run task of the client: reconnect, log in, read frames, persist, acknowledge, emit events.

    Everything here happens in one task, so a run is played from a script: a list of connection
    attempts, each with the frames the server sends and the outcome of every store call and every
    write. A log records, in order, what the task did that others can see, every effect on the store
    included; what the store holds at any moment is what its calls so far have made of it. */
module ClientSession {
  import opened Common
  import opened CursorStore

  /** Outcome of one store call; a failing call may have recorded its argument all the same. */
  datatype Save = Kept | FailedClean | FailedDirty

  /** Outcome of sending the ACK: no writer or closed, a failed write, or success. */
  datatype Ack = NotSent | WriteFailed | Written

  datatype Frame =
    | Push(message: Message, first: Save, second: Save, ack: Ack)
    | SendReply(message: Message, first: Save, second: Save)
    | Packet(consumed: bool)
    | Unusable
    | OtherReply

  datatype Error = StoreError | ConnectionError | ProtocolError | ServerError(unauthorized: bool)

  datatype Attempt =
    | LoadFails
    | DialFails
    | LoginFails(error: Error)
    | Session(frames: seq<Frame>, readError: Error)

  /** `MessageKept` and `CursorKept`: the store has recorded the argument of a call; `ok` says whether
      the call also reported success. */
  datatype Entry =
    | LoginSent(seen: seq<Cursor>)
    | LoginEvent | MessageEvent(message: Message) | PacketEvent | ErrorEvent | DisconnectEvent
    | MessageKept(message: Message, ok: bool) | CursorKept(cursor: Cursor, ok: bool)
    | AckSent(cursor: Cursor)
    | SendReturned(message: Message) | SendFailed
    | Slept(delay: nat)

  /** The largest `Duration`, in nanoseconds; `saturating_mul` stops there. */
  const DURATION_MAX: nat := 0xFFFF_FFFF_FFFF_FFFF * 1_000_000_000 + 999_999_999

  datatype Config = Config(ackMessages: bool, reconnect: bool, initialDelay: nat, maxDelay: nat)

  predicate ValidConfig(cfg: Config) {
    cfg.initialDelay <= DURATION_MAX && cfg.maxDelay <= DURATION_MAX
  }

  // ----- What the store has been told -----

  function CallOf(e: Entry): seq<Call> {
    match e
    case MessageKept(m, _) => [MessageSaved(m)]
    case CursorKept(c, _) => [CursorSaved(c)]
    case _ => []
  }

  function Calls(log: seq<Entry>): seq<Call> {
    if log == [] then [] else Calls(log[..|log| - 1]) + CallOf(log[|log| - 1])
  }

  /** What `load_seen_messages` returns at the end of this log. */
  function Seen(log: seq<Entry>): seq<Cursor> {
    After(Calls(log)).order
  }

  // ----- One frame, one attempt, one run -----

  predicate Stored(first: Save, second: Save) {
    first == Kept && second == Kept
  }

  /** `persist_message`: message first, then cursor; the second only if the first succeeded. */
  function PersistEntries(m: Message, first: Save, second: Save): seq<Entry> {
    (if first == FailedClean then [] else [MessageKept(m, first == Kept)])
    + (if first != Kept || second == FailedClean then [] else [CursorKept(m.CursorOf(), second == Kept)])
  }

  function AckEntries(c: Cursor, ack: Ack): seq<Entry> {
    match ack
    case NotSent => []
    case WriteFailed => [AckSent(c), ErrorEvent]
    case Written => [AckSent(c)]
  }

  function Entries(cfg: Config, f: Frame): seq<Entry> {
    match f
    case Push(m, first, second, ack) =>
      if !Stored(first, second) then PersistEntries(m, first, second) + [ErrorEvent]
      else
        PersistEntries(m, first, second)
        + (if cfg.ackMessages then AckEntries(m.CursorOf(), ack) else [])
        + [MessageEvent(m)]
    case SendReply(m, first, second) =>
      PersistEntries(m, first, second) + [if Stored(first, second) then SendReturned(m) else SendFailed]
    case Packet(consumed) => if consumed then [] else [PacketEvent]
    case Unusable => [ErrorEvent]
    case OtherReply => []
  }

  function SessionEntries(cfg: Config, frames: seq<Frame>): seq<Entry> {
    if frames == [] then [] else Entries(cfg, frames[0]) + SessionEntries(cfg, frames[1..])
  }

  function Outcome(a: Attempt): Error {
    match a
    case LoadFails => StoreError
    case DialFails => ConnectionError
    case LoginFails(e) => e
    case Session(_, e) => e
  }

  /** `connect_and_serve`: it always ends with an error, the attempt's `Outcome`. */
  function AttemptEntries(cfg: Config, seen: seq<Cursor>, a: Attempt): seq<Entry> {
    match a
    case LoadFails => []
    case DialFails => []
    case LoginFails(_) => [LoginSent(seen)]
    case Session(frames, _) => [LoginSent(seen)] + ([LoginEvent] + SessionEntries(cfg, frames) + [DisconnectEvent])
  }

  function Connect(cfg: Config, log: seq<Entry>, a: Attempt): seq<Entry> {
    log + AttemptEntries(cfg, Seen(log), a)
  }

  predicate ShouldRetry(cfg: Config, e: Error) {
    cfg.reconnect && e != ServerError(true)
  }

  function Doubled(cfg: Config, delay: nat): nat {
    Min(Min(2 * delay, DURATION_MAX), cfg.maxDelay)
  }

  function Retry(log: seq<Entry>, delay: nat): seq<Entry> {
    log + [ErrorEvent, Slept(delay)]
  }

  /** `run`, entered with the given delay; it ends when an error is not to be retried. */
  function Play(cfg: Config, log: seq<Entry>, script: seq<Attempt>, delay: nat): seq<Entry>
    decreases script
  {
    if script == [] then log
    else
      var t := Connect(cfg, log, script[0]);
      if !ShouldRetry(cfg, Outcome(script[0])) then t
      else Play(cfg, Retry(t, delay), script[1..], Doubled(cfg, delay))
  }

  /** The attempts the run task gets to make before an error ends it. */
  function Made(cfg: Config, script: seq<Attempt>): seq<Attempt> {
    if script == [] then []
    else if !ShouldRetry(cfg, Outcome(script[0])) then [script[0]]
    else [script[0]] + Made(cfg, script[1..])
  }

  /** How many of them are followed by another one, or by the end of the script. */
  function Retried(cfg: Config, script: seq<Attempt>): nat {
    if script == [] || !ShouldRetry(cfg, Outcome(script[0])) then 0 else 1 + Retried(cfg, script[1..])
  }

  /** One life of a client over the store: it runs until its script ends or `close()` aborts the task,
      at the latest after `cut` entries. */
  datatype Life = Life(cfg: Config, script: seq<Attempt>, cut: nat)

  function Cut(before: seq<Entry>, log: seq<Entry>, cut: nat): seq<Entry> {
    log[..Min(|log|, |before| + cut)]
  }

  function PlayAll(log: seq<Entry>, lives: seq<Life>): seq<Entry>
    decreases lives
  {
    if lives == [] then log
    else
      var l := lives[0];
      PlayAll(Cut(log, Play(l.cfg, log, l.script, l.cfg.initialDelay), l.cut), lives[1..])
  }

  /** What the frames of a session never put on the log. */
  predicate FrameEntry(e: Entry) {
    !e.LoginSent? && !e.LoginEvent? && !e.DisconnectEvent? && !e.Slept?
  }

  lemma EntriesArePlain(cfg: Config, f: Frame)
    ensures forall e :: e in Entries(cfg, f) ==> FrameEntry(e)
  {
  }

  lemma {:induction false} SessionIsPlain(cfg: Config, frames: seq<Frame>)
    ensures forall e :: e in SessionEntries(cfg, frames) ==> FrameEntry(e)
  {
    if frames != [] {
      hide Entries;
      EntriesArePlain(cfg, frames[0]);
      SessionIsPlain(cfg, frames[1..]);
    }
  }

  // ----- The order of events -----

  datatype Phase = Outside | Inside | Broken

  function Shift(p: Phase, e: Entry): Phase {
    match e
    case LoginEvent => if p == Outside then Inside else Broken
    case DisconnectEvent => if p == Inside then Outside else Broken
    case MessageEvent(_) => if p == Inside then Inside else Broken
    case _ => p
  }

  function PhaseFrom(p: Phase, log: seq<Entry>): Phase {
    if log == [] then p else Shift(PhaseFrom(p, log[..|log| - 1]), log[|log| - 1])
  }

  lemma PhaseAppend(p: Phase, log: seq<Entry>, e: Entry)
    ensures PhaseFrom(p, log + [e]) == Shift(PhaseFrom(p, log), e)
  {
  }

  lemma {:induction false} PhaseConcat(p: Phase, a: seq<Entry>, b: seq<Entry>)
    ensures PhaseFrom(p, a + b) == PhaseFrom(PhaseFrom(p, a), b)
  {
    if b == [] {
      assert a + b == a;
    } else {
      var front := b[..|b| - 1];
      PhaseConcat(p, a, front);
      assert a + b == (a + front) + [b[|b| - 1]];
    }
  }

  lemma {:induction false} StaysInside(log: seq<Entry>)
    requires forall e :: e in log ==> FrameEntry(e)
    ensures PhaseFrom(Inside, log) == Inside
  {
    if log != [] {
      StaysInside(log[..|log| - 1]);
      assert FrameEntry(log[|log| - 1]);
    }
  }

  lemma AttemptPhase(cfg: Config, seen: seq<Cursor>, a: Attempt)
    ensures PhaseFrom(Outside, AttemptEntries(cfg, seen, a)) == Outside
  {
    if a.Session? {
      var es := SessionEntries(cfg, a.frames);
      SessionIsPlain(cfg, a.frames);
      StaysInside(es);
      PhaseConcat(Outside, [LoginEvent], es);
      PhaseAppend(Outside, [LoginEvent] + es, DisconnectEvent);
      PhaseConcat(Outside, [LoginSent(seen)], [LoginEvent] + es + [DisconnectEvent]);
    }
  }

  /** A `Login` at `j` that no `Disconnect` has ended before position `i`. */
  predicate OpenSince(log: seq<Entry>, j: nat, i: nat) {
    j < i <= |log| && log[j] == LoginEvent && forall k :: j < k < i ==> log[k] != DisconnectEvent
  }

  ghost predicate LoggedIn(log: seq<Entry>, i: nat) {
    exists j: nat :: OpenSince(log, j, i)
  }

  /** Logins and disconnects alternate, beginning with a login, and every message event falls between
      a login and its disconnect. */
  ghost predicate WellShaped(log: seq<Entry>) {
    forall i :: 0 <= i < |log| ==>
      && (log[i] == LoginEvent ==> !LoggedIn(log, i))
      && (log[i] == DisconnectEvent || log[i].MessageEvent? ==> LoggedIn(log, i))
  }

  lemma LoggedInStep(log: seq<Entry>, i: nat)
    requires i < |log|
    ensures LoggedIn(log, i + 1) <==> log[i] == LoginEvent || (log[i] != DisconnectEvent && LoggedIn(log, i))
  {
    if LoggedIn(log, i + 1) {
      var j: nat :| OpenSince(log, j, i + 1);
      assert j < i ==> OpenSince(log, j, i);
    }
    if log[i] == LoginEvent {
      assert OpenSince(log, i, i + 1);
    } else if log[i] != DisconnectEvent && LoggedIn(log, i) {
      var j: nat :| OpenSince(log, j, i);
      assert OpenSince(log, j, i + 1);
    }
  }

  lemma {:induction false} PhaseIsLoggedIn(log: seq<Entry>, i: nat)
    requires i <= |log| && PhaseFrom(Outside, log[..i]) != Broken
    ensures PhaseFrom(Outside, log[..i]) == Inside <==> LoggedIn(log, i)
  {
    if i > 0 {
      assert log[..i] == log[..i - 1] + [log[i - 1]];
      PhaseAppend(Outside, log[..i - 1], log[i - 1]);
      PhaseIsLoggedIn(log, i - 1);
      LoggedInStep(log, i - 1);
    }
  }

  lemma {:induction false} PrefixUnbroken(log: seq<Entry>, i: nat)
    requires i <= |log| && PhaseFrom(Outside, log) != Broken
    ensures PhaseFrom(Outside, log[..i]) != Broken
  {
    if i < |log| {
      PrefixUnbroken(log[..|log| - 1], i);
      assert log[..|log| - 1][..i] == log[..i];
    } else {
      assert log[..i] == log;
    }
  }

  lemma UnbrokenIsWellShaped(log: seq<Entry>)
    requires PhaseFrom(Outside, log) != Broken
    ensures WellShaped(log)
  {
    forall i | 0 <= i < |log|
      ensures log[i] == LoginEvent ==> !LoggedIn(log, i)
      ensures log[i] == DisconnectEvent || log[i].MessageEvent? ==> LoggedIn(log, i)
    {
      PrefixUnbroken(log, i);
      PrefixUnbroken(log, i + 1);
      assert log[..i + 1] == log[..i] + [log[i]];
      PhaseAppend(Outside, log[..i], log[i]);
      PhaseIsLoggedIn(log, i);
    }
  }

  // ----- Persist before acknowledging -----

  predicate MessageStoredAt(log: seq<Entry>, i: nat, c: Cursor) {
    i < |log| && log[i].MessageKept? && log[i].ok && log[i].message.CursorOf() == c
  }

  predicate RecordedAt(log: seq<Entry>, i: nat, j: nat, c: Cursor) {
    i < j < |log| && MessageStoredAt(log, i, c) && log[j] == CursorKept(c, true)
  }

  /** The two store calls for `c`, message then cursor, succeeded before position `n`. */
  ghost predicate Recorded(log: seq<Entry>, c: Cursor, n: nat) {
    exists i: nat, j: nat :: j < n && RecordedAt(log, i, j, c)
  }

  /** Entries by which the client commits itself to having cursor `c`. */
  predicate Commits(e: Entry, c: Cursor) {
    || e == AckSent(c)
    || ((e.MessageEvent? || e.SendReturned?) && e.message.CursorOf() == c)
  }

  ghost predicate PersistedFirst(log: seq<Entry>) {
    forall i, c :: 0 <= i < |log| && Commits(log[i], c) ==> Recorded(log, c, i)
  }

  /** The two store calls for `m` stand right before position `i`, and both succeeded. */
  predicate SavedBefore(log: seq<Entry>, i: int, m: Message) {
    2 <= i <= |log| && log[i - 2] == MessageKept(m, true) && log[i - 1] == CursorKept(m.CursorOf(), true)
  }

  /** What must stand right before an entry: a cursor is recorded only after its message was stored
      without error; an ACK, an event or a returned message comes right after its own two store calls,
      the event possibly after the ACK, and the report of its failure, in between. */
  predicate InOrder(log: seq<Entry>, i: nat)
    requires i < |log|
  {
    match log[i]
    case CursorKept(c, _) =>
      i >= 1 && log[i - 1].MessageKept? && log[i - 1].ok && log[i - 1].message.CursorOf() == c
    case AckSent(c) =>
      i >= 2 && log[i - 2].MessageKept? && log[i - 2].message.CursorOf() == c && SavedBefore(log, i, log[i - 2].message)
    case MessageEvent(m) =>
      || SavedBefore(log, i, m)
      || (i >= 1 && log[i - 1] == AckSent(m.CursorOf()) && SavedBefore(log, i - 1, m))
      || (i >= 2 && log[i - 1] == ErrorEvent && log[i - 2] == AckSent(m.CursorOf()) && SavedBefore(log, i - 2, m))
    case SendReturned(m) => SavedBefore(log, i, m)
    case _ => true
  }

  ghost predicate Orderly(log: seq<Entry>) {
    forall i :: 0 <= i < |log| ==> InOrder(log, i)
  }

  lemma OrderlyConcat(a: seq<Entry>, b: seq<Entry>)
    requires Orderly(a) && Orderly(b)
    ensures Orderly(a + b)
  {
    forall i | 0 <= i < |a + b| ensures InOrder(a + b, i) {
      if i < |a| {
        assert InOrder(a, i);
      } else {
        assert InOrder(b, i - |a|);
      }
    }
  }

  lemma OrderlyPrefix(log: seq<Entry>, n: nat)
    requires Orderly(log) && n <= |log|
    ensures Orderly(log[..n])
  {
    forall i | 0 <= i < n ensures InOrder(log[..n], i) {
      assert InOrder(log, i);
    }
  }

  lemma OrderlyIsPersisted(log: seq<Entry>)
    requires Orderly(log)
    ensures PersistedFirst(log)
  {
    forall i, c | 0 <= i < |log| && Commits(log[i], c) ensures Recorded(log, c, i) {
      assert InOrder(log, i);
      var n := if i >= 2 && SavedBefore(log, i, CommittedTo(log, i)) then i
               else if i >= 1 && SavedBefore(log, i - 1, CommittedTo(log, i)) then i - 1
               else i - 2;
      assert RecordedAt(log, n - 2, n - 1, c);
    }
  }

  /** The message of a committing entry; an ACK names none, so it is the one stored right before. */
  function CommittedTo(log: seq<Entry>, i: nat): Message
    requires i < |log| && (log[i].MessageEvent? || log[i].SendReturned? || (i >= 2 && log[i - 2].MessageKept?))
  {
    if log[i].MessageEvent? || log[i].SendReturned? then log[i].message else log[i - 2].message
  }

  lemma EntriesOrderly(cfg: Config, f: Frame)
    ensures Orderly(Entries(cfg, f))
  {
  }

  lemma {:induction false} SessionOrderly(cfg: Config, frames: seq<Frame>)
    ensures Orderly(SessionEntries(cfg, frames))
  {
    if frames != [] {
      EntriesOrderly(cfg, frames[0]);
      SessionOrderly(cfg, frames[1..]);
      OrderlyConcat(Entries(cfg, frames[0]), SessionEntries(cfg, frames[1..]));
    }
  }

  // ----- Coverage by later logins -----

  lemma CallsAppend(log: seq<Entry>, e: Entry)
    ensures Calls(log + [e]) == Calls(log) + CallOf(e)
  {
  }

  predicate TellsStore(e: Entry, c: Cursor) {
    e.CursorKept? && e.cursor == c
  }

  /** The seen list holds exactly the cursors recorded so far. */
  lemma {:induction false} SeenIff(log: seq<Entry>, c: Cursor)
    ensures c in Seen(log) <==> exists i :: 0 <= i < |log| && TellsStore(log[i], c)
  {
    if log != [] {
      var front, last := log[..|log| - 1], log[|log| - 1];
      SeenIff(front, c);
      var calls := Calls(front) + CallOf(last);
      assert Calls(log) == calls;
      if CallOf(last) == [] {
        assert calls == Calls(front);
      } else {
        assert calls[..|calls| - 1] == Calls(front);
      }
      if i :| 0 <= i < |log| && TellsStore(log[i], c) {
        assert i < |front| ==> TellsStore(front[i], c);
      }
      if i :| 0 <= i < |front| && TellsStore(front[i], c) {
        assert TellsStore(log[i], c);
      }
      assert TellsStore(last, c) ==> TellsStore(log[|front|], c);
    }
  }

  /** What one more entry does to the store. */
  function Applied(s: Store, e: Entry): Store {
    if e.MessageKept? then SaveMessage(s, e.message) else if e.CursorKept? then SaveCursor(s, e.cursor) else s
  }

  lemma StoreStep(log: seq<Entry>, e: Entry)
    ensures After(Calls(log + [e])) == Applied(After(Calls(log)), e)
  {
    CallsAppend(log, e);
    var calls := Calls(log) + CallOf(e);
    assert CallOf(e) == [] ==> calls == Calls(log);
    assert CallOf(e) != [] ==> calls[..|calls| - 1] == Calls(log);
    hide Calls, SaveMessage, SaveCursor;
  }

  predicate KeepsMessage(e: Entry, c: Cursor) {
    e.MessageKept? && e.message.CursorOf() == c
  }

  /** The message last recorded under `c`, whatever its call reported. */
  function LastKept(log: seq<Entry>, c: Cursor): Option<Message> {
    if log == [] then None
    else if KeepsMessage(log[|log| - 1], c) then Some(log[|log| - 1].message)
    else LastKept(log[..|log| - 1], c)
  }

  predicate TableHolds(s: Store, c: Cursor, last: Option<Message>) {
    && (c in s.messages <==> last.Some? || c in s.order)
    && (last.Some? ==> s.messages[c] == last.value)
  }

  lemma TableStep(s: Store, e: Entry, c: Cursor, last: Option<Message>)
    requires TableHolds(s, c, last)
    ensures TableHolds(Applied(s, e), c, if KeepsMessage(e, c) then Some(e.message) else last)
  {
  }

  lemma EmptyTable(c: Cursor)
    ensures TableHolds(After(Calls([])), c, None)
  {
  }

  /** The store's table knows exactly the cursors recorded so far, alone or with a message, and each
      under the message last recorded for it. */
  lemma {:induction false} TableIff(log: seq<Entry>, c: Cursor)
    ensures TableHolds(After(Calls(log)), c, LastKept(log, c))
  {
    hide After, Calls, Applied, TableHolds;
    if log == [] {
      EmptyTable(c);
    } else {
      var front, last := log[..|log| - 1], log[|log| - 1];
      TableIff(front, c);
      StoreStep(front, last);
      TableStep(After(Calls(front)), last, c, LastKept(front, c));
      assert log == front + [last];
    }
  }

  lemma SeenGrows(log: seq<Entry>, more: seq<Entry>, c: Cursor)
    requires c in Seen(log)
    ensures c in Seen(log + more)
  {
    SeenIff(log, c);
    SeenIff(log + more, c);
    var i :| 0 <= i < |log| && TellsStore(log[i], c);
    assert TellsStore((log + more)[i], c);
  }

  /** Every login names exactly what the store had recorded by then. */
  ghost predicate LoginsTell(log: seq<Entry>) {
    forall i :: 0 <= i < |log| && log[i].LoginSent? ==> log[i].seen == Seen(log[..i])
  }

  /** Every login after a commitment to `c` tells the server about `c`. */
  ghost predicate Covered(log: seq<Entry>) {
    forall i, j, c :: 0 <= i < j < |log| && Commits(log[i], c) && log[j].LoginSent? ==> c in log[j].seen
  }

  /** A login names only cursors whose message was stored without error, and recorded right after. */
  ghost predicate NamesStored(log: seq<Entry>) {
    forall j, c :: 0 <= j < |log| && log[j].LoginSent? && c in log[j].seen ==>
      exists i: nat :: i + 1 < j && MessageStoredAt(log, i, c) && TellsStore(log[i + 1], c)
  }

  ghost predicate Safe(log: seq<Entry>) {
    Orderly(log) && LoginsTell(log)
  }

  lemma SafeNamesStored(log: seq<Entry>)
    requires Safe(log)
    ensures NamesStored(log)
  {
    forall j, c | 0 <= j < |log| && log[j].LoginSent? && c in log[j].seen
      ensures exists i: nat :: i + 1 < j && MessageStoredAt(log, i, c) && TellsStore(log[i + 1], c)
    {
      SeenIff(log[..j], c);
      var k :| 0 <= k < j && TellsStore(log[..j][k], c);
      assert InOrder(log, k);
      assert MessageStoredAt(log, k - 1, c) && TellsStore(log[k - 1 + 1], c);
    }
  }

  lemma SafeIsCovered(log: seq<Entry>)
    requires Safe(log)
    ensures PersistedFirst(log) && Covered(log)
  {
    OrderlyIsPersisted(log);
    forall i, j, c | 0 <= i < j < |log| && Commits(log[i], c) && log[j].LoginSent?
      ensures c in log[j].seen
    {
      var i', k: nat :| k < i && RecordedAt(log, i', k, c);
      SeenIff(log[..j], c);
      assert TellsStore(log[..j][k], c);
    }
  }

  lemma SafePrefix(log: seq<Entry>, n: nat)
    requires Safe(log) && n <= |log|
    ensures Safe(log[..n])
  {
    OrderlyPrefix(log, n);
    forall i | 0 <= i < n && log[..n][i].LoginSent? ensures log[..n][i].seen == Seen(log[..n][..i]) {
      assert log[..n][..i] == log[..i];
    }
  }

  lemma SafeAppend(log: seq<Entry>, es: seq<Entry>)
    requires Safe(log) && Orderly(es) && forall e :: e in es ==> !e.LoginSent?
    ensures Safe(log + es)
  {
    OrderlyConcat(log, es);
    forall i | |log| <= i < |log + es| ensures !(log + es)[i].LoginSent? {
      assert (log + es)[i] == es[i - |log|];
    }
    forall i | 0 <= i < |log + es| && (log + es)[i].LoginSent?
      ensures (log + es)[i].seen == Seen((log + es)[..i])
    {
      assert (log + es)[..i] == log[..i];
    }
  }

  lemma SafeLogin(log: seq<Entry>)
    requires Safe(log)
    ensures Safe(log + [LoginSent(Seen(log))])
  {
    var t := log + [LoginSent(Seen(log))];
    OrderlyConcat(log, [LoginSent(Seen(log))]);
    forall i | 0 <= i < |t| && t[i].LoginSent? ensures t[i].seen == Seen(t[..i]) {
      assert t[..i] == log[..i];
      assert log[..|log|] == log;
    }
  }

  lemma WholeSessionSafe(cfg: Config, log: seq<Entry>, frames: seq<Frame>)
    requires Safe(log)
    ensures Safe(log + ([LoginSent(Seen(log))] + ([LoginEvent] + SessionEntries(cfg, frames) + [DisconnectEvent])))
  {
    var es := SessionEntries(cfg, frames);
    SessionIsPlain(cfg, frames);
    SessionOrderly(cfg, frames);
    hide Safe, Seen, Orderly, SessionEntries;
    var login, rest := log + [LoginSent(Seen(log))], [LoginEvent] + es + [DisconnectEvent];
    SafeLogin(log);
    FramedOrderly(es);
    SafeAppend(login, rest);
    assert log + ([LoginSent(Seen(log))] + rest) == login + rest;
  }

  lemma ConnectSafe(cfg: Config, log: seq<Entry>, a: Attempt)
    requires Safe(log)
    ensures Safe(Connect(cfg, log, a))
  {
    hide Safe, Seen, SessionEntries;
    match a
    case LoadFails => assert log + [] == log;
    case DialFails => assert log + [] == log;
    case LoginFails(_) => SafeLogin(log);
    case Session(frames, _) => WholeSessionSafe(cfg, log, frames);
  }

  lemma FramedOrderly(es: seq<Entry>)
    requires Orderly(es)
    ensures Orderly([LoginEvent] + es + [DisconnectEvent])
  {
    OrderlyConcat([LoginEvent], es);
    OrderlyConcat([LoginEvent] + es, [DisconnectEvent]);
  }

  lemma RetrySafe(log: seq<Entry>, delay: nat)
    requires Safe(log)
    ensures Safe(Retry(log, delay))
  {
    SafeAppend(log, [ErrorEvent, Slept(delay)]);
  }

  /** `log` is `before` and then a stretch that ends outside any session. */
  predicate Continues(before: seq<Entry>, log: seq<Entry>) {
    before <= log && PhaseFrom(Outside, log[|before|..]) == Outside
  }

  lemma ConnectContinues(cfg: Config, before: seq<Entry>, log: seq<Entry>, a: Attempt)
    requires Continues(before, log)
    ensures Continues(before, Connect(cfg, log, a))
  {
    hide PhaseFrom, AttemptEntries, Seen;
    var es := AttemptEntries(cfg, Seen(log), a);
    AttemptPhase(cfg, Seen(log), a);
    PhaseConcat(Outside, log[|before|..], es);
    assert (log + es)[|before|..] == log[|before|..] + es;
  }

  lemma RetryContinues(before: seq<Entry>, log: seq<Entry>, delay: nat)
    requires Continues(before, log)
    ensures Continues(before, Retry(log, delay))
  {
    var es := [ErrorEvent, Slept(delay)];
    assert Retry(log, delay)[|before|..] == log[|before|..] + [ErrorEvent] + [Slept(delay)];
    PhaseAppend(Outside, log[|before|..], ErrorEvent);
    PhaseAppend(Outside, log[|before|..] + [ErrorEvent], Slept(delay));
  }

  lemma {:induction false} PlaySafe(cfg: Config, before: seq<Entry>, log: seq<Entry>, script: seq<Attempt>, delay: nat)
    requires Safe(log) && Continues(before, log)
    ensures Safe(Play(cfg, log, script, delay)) && Continues(before, Play(cfg, log, script, delay))
    decreases script
  {
    hide Safe, Continues, Connect, Retry;
    if script != [] {
      var t := Connect(cfg, log, script[0]);
      ConnectSafe(cfg, log, script[0]);
      ConnectContinues(cfg, before, log, script[0]);
      RetrySafe(t, delay);
      RetryContinues(before, t, delay);
      if ShouldRetry(cfg, Outcome(script[0])) {
        PlaySafe(cfg, before, Retry(t, delay), script[1..], Doubled(cfg, delay));
      }
    }
  }

  lemma SafeAtEveryMoment(before: seq<Entry>, log: seq<Entry>, n: nat)
    requires Safe(log) && Continues(before, log) && |before| <= n <= |log|
    ensures WellShaped(log[|before|..n]) && Orderly(log[..n])
    ensures PersistedFirst(log[..n]) && Covered(log[..n]) && NamesStored(log[..n])
  {
    SafePrefix(log, n);
    SafeIsCovered(log[..n]);
    SafeNamesStored(log[..n]);
    hide LoginsTell, Orderly, PersistedFirst, Covered, NamesStored, WellShaped;
    PrefixUnbroken(log[|before|..], n - |before|);
    assert log[|before|..][..n - |before|] == log[|before|..n];
    UnbrokenIsWellShaped(log[|before|..n]);
  }

  /** Every run, at every moment of it: events are well shaped; every cursor, ACK, event and returned
      message stands right after the store calls it rests on; every login covers what was committed
      before, in this run and in the earlier ones over the same store; and it names only cursors whose
      message was stored without error. */
  lemma RunIsSafe(cfg: Config, before: seq<Entry>, script: seq<Attempt>, n: nat)
    requires Safe(before)
    ensures var log := Play(cfg, before, script, cfg.initialDelay);
      && before <= log
      && (|before| <= n <= |log| ==>
            && WellShaped(log[|before|..n]) && Orderly(log[..n])
            && PersistedFirst(log[..n]) && Covered(log[..n]) && NamesStored(log[..n]))
  {
    PlaySafe(cfg, before, before, script, cfg.initialDelay);
    var log := Play(cfg, before, script, cfg.initialDelay);
    hide Play, Safe, WellShaped, Orderly, PersistedFirst, Covered, NamesStored;
    if |before| <= n <= |log| {
      SafeAtEveryMoment(before, log, n);
    }
  }

  lemma {:induction false} PlayAllSafe(log: seq<Entry>, lives: seq<Life>)
    requires Safe(log)
    ensures Safe(PlayAll(log, lives))
    decreases lives
  {
    hide Safe;
    if lives != [] {
      var l := lives[0];
      var t := Play(l.cfg, log, l.script, l.cfg.initialDelay);
      PlaySafe(l.cfg, log, log, l.script, l.cfg.initialDelay);
      SafePrefix(t, Min(|t|, |log| + l.cut));
      PlayAllSafe(Cut(log, t, l.cut), lives[1..]);
    }
  }

  /** Any number of clients one after the other over one store, each cut short anywhere by `close()`:
      whatever one of them acknowledged, announced or returned, every later login of any of them
      names, and nothing whose message was not stored. */
  lemma LivesAreSafe(lives: seq<Life>)
    ensures var log := PlayAll([], lives);
      Orderly(log) && PersistedFirst(log) && Covered(log) && NamesStored(log)
  {
    PlayAllSafe([], lives);
    SafeIsCovered(PlayAll([], lives));
    SafeNamesStored(PlayAll([], lives));
  }
}
