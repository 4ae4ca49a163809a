/** `MemoryCursorStore`: a table of messages and an insertion-ordered list of cursors, checked against
    the log of the calls made to it. */
module CursorStore {
  import opened Common

  datatype Cursor = Cursor(nodeId: int, seqNo: int)

  datatype UserRef = UserRef(nodeId: int, userId: int)

  datatype Message = Message(
    recipient: UserRef, nodeId: int, seqNo: int, sender: UserRef, body: Payload, createdAt: string)
  {
    function CursorOf(): Cursor {
      Cursor(nodeId, seqNo)
    }
  }

  const NO_USER := UserRef(0, 0)

  function Placeholder(c: Cursor): Message {
    Message(NO_USER, c.nodeId, c.seqNo, NO_USER, [], "")
  }

  datatype Store = Store(messages: map<Cursor, Message>, order: seq<Cursor>)

  const EMPTY := Store(map[], [])

  function SaveMessage(s: Store, m: Message): Store {
    s.(messages := s.messages[m.CursorOf() := m])
  }

  function SaveCursor(s: Store, c: Cursor): Store {
    Store(if c in s.messages then s.messages else s.messages[c := Placeholder(c)],
          if c in s.order then s.order else s.order + [c])
  }

  datatype Call = MessageSaved(message: Message) | CursorSaved(cursor: Cursor)

  function After(log: seq<Call>): Store {
    if log == [] then EMPTY
    else
      var s := After(log[..|log| - 1]);
      match log[|log| - 1]
      case MessageSaved(m) => SaveMessage(s, m)
      case CursorSaved(c) => SaveCursor(s, c)
  }

  // ----- The reference: what the log alone says -----

  predicate Saved(log: seq<Call>, i: nat, c: Cursor) {
    i < |log| && log[i] == CursorSaved(c)
  }

  predicate SavesMessageOf(call: Call, c: Cursor) {
    call.MessageSaved? && call.message.CursorOf() == c
  }

  /** The first `save_cursor` of `c`. */
  predicate FirstSave(log: seq<Call>, i: nat, c: Cursor) {
    Saved(log, i, c) && forall j :: 0 <= j < i ==> log[j] != CursorSaved(c)
  }

  /** `order` lists exactly the cursors of the `save_cursor` calls, each once, by first call: there are
      strictly rising call positions, one per entry, each the first save of its entry, and every
      `save_cursor` call is of a listed cursor. */
  ghost predicate FirstOccurrences(log: seq<Call>, order: seq<Cursor>, at: seq<nat>) {
    && |at| == |order|
    && (forall i :: 0 <= i < |order| ==> FirstSave(log, at[i], order[i]))
    && (forall i, j :: 0 <= i < j < |at| ==> at[i] < at[j])
    && (forall i :: 0 <= i < |log| && log[i].CursorSaved? ==> log[i].cursor in order)
  }

  /** The last message saved under `c`, or the placeholder if none ever was. */
  function LastMessage(log: seq<Call>, c: Cursor): Message {
    if log == [] then Placeholder(c)
    else if SavesMessageOf(log[|log| - 1], c) then log[|log| - 1].message
    else LastMessage(log[..|log| - 1], c)
  }

  predicate Mentions(call: Call, c: Cursor) {
    call == CursorSaved(c) || SavesMessageOf(call, c)
  }

  /** `messages` knows exactly the cursors mentioned, each under its last message. */
  ghost predicate LastMessages(log: seq<Call>, messages: map<Cursor, Message>) {
    && (forall c :: c in messages <==> exists i :: 0 <= i < |log| && Mentions(log[i], c))
    && (forall c :: c in messages ==> messages[c] == LastMessage(log, c) && messages[c].CursorOf() == c)
  }

  lemma {:induction false} OrderRefinesLog(log: seq<Call>) returns (at: seq<nat>)
    ensures FirstOccurrences(log, After(log).order, at)
  {
    if log == [] {
      at := [];
    } else {
      var front, call := log[..|log| - 1], log[|log| - 1];
      at := OrderRefinesLog(front);
      var order := After(front).order;
      forall i | 0 <= i < |order| ensures FirstSave(log, at[i], order[i]) {
        assert FirstSave(front, at[i], order[i]);
      }
      forall i | 0 <= i < |front| && log[i].CursorSaved? ensures log[i].cursor in order {
        assert log[i] == front[i];
      }
      if call.CursorSaved? && call.cursor !in order {
        forall j | 0 <= j < |front| ensures log[j] != call {
          assert log[j] == front[j];
        }
        at := at + [|front|];
      }
    }
  }

  lemma {:induction false} MessagesRefineLog(log: seq<Call>)
    ensures LastMessages(log, After(log).messages)
  {
    if log != [] {
      var front, call := log[..|log| - 1], log[|log| - 1];
      MessagesRefineLog(front);
      var old', new' := After(front).messages, After(log).messages;
      forall c ensures c in new' <==> exists i :: 0 <= i < |log| && Mentions(log[i], c) {
        if c in old' {
          var i :| 0 <= i < |front| && Mentions(front[i], c);
          assert Mentions(log[i], c);
        }
        if Mentions(call, c) {
          assert Mentions(log[|front|], c);
        }
        if i :| 0 <= i < |log| && Mentions(log[i], c) {
          assert i < |front| ==> Mentions(front[i], c);
        }
      }
      forall c | c in new' ensures new'[c] == LastMessage(log, c) && new'[c].CursorOf() == c {
        if c !in old' {
          forall i | 0 <= i < |front| ensures !SavesMessageOf(front[i], c) {
            assert !Mentions(front[i], c);
          }
          NeverSaved(front, c);
        }
      }
    }
  }

  lemma {:induction false} NeverSaved(log: seq<Call>, c: Cursor)
    requires forall i :: 0 <= i < |log| ==> !SavesMessageOf(log[i], c)
    ensures LastMessage(log, c) == Placeholder(c)
  {
    if log != [] {
      var front := log[..|log| - 1];
      assert !SavesMessageOf(log[|log| - 1], c);
      forall i | 0 <= i < |front| ensures !SavesMessageOf(front[i], c) {
        assert !SavesMessageOf(log[i], c);
      }
      NeverSaved(front, c);
    }
  }

  /** A cursor saved without any message stands for an empty message from nobody to nobody. */
  lemma OnlyMarked(log: seq<Call>, c: Cursor)
    requires CursorSaved(c) in log && forall i :: 0 <= i < |log| ==> !SavesMessageOf(log[i], c)
    ensures var t := After(log).messages;
      c in t && t[c] == Message(UserRef(0, 0), c.nodeId, c.seqNo, UserRef(0, 0), [], "")
  {
    MessagesRefineLog(log);
    NeverSaved(log, c);
    var i :| 0 <= i < |log| && log[i] == CursorSaved(c);
    assert Mentions(log[i], c);
    hide After, LastMessage;
  }

  /** The list never repeats a cursor, and every listed cursor is in the table. */
  lemma OrderWithinMessages(log: seq<Call>)
    ensures var s := After(log);
      && (forall i, j :: 0 <= i < j < |s.order| ==> s.order[i] != s.order[j])
      && (forall c :: c in s.order ==> c in s.messages)
  {
  }

  /** The object behind the lock. */
  class MemoryCursorStore {
    var messages: map<Cursor, Message>
    var order: seq<Cursor>
    ghost var log: seq<Call>

    ghost predicate Valid()
      reads this
    {
      Contents() == After(log)
    }

    ghost function Contents(): Store
      reads this
    {
      Store(messages, order)
    }

    constructor ()
      ensures Valid() && log == []
    {
      messages, order, log := map[], [], [];
    }

    method Load() returns (seen: seq<Cursor>)
      requires Valid()
      ensures seen == After(log).order
    {
      seen := order;
    }

    method HasCursor(c: Cursor) returns (has: bool)
      requires Valid()
      ensures has <==> exists i :: 0 <= i < |log| && Mentions(log[i], c)
    {
      has := c in messages;
      MessagesRefineLog(log);
    }

    method Save(m: Message)
      requires Valid()
      modifies this
      ensures Valid() && log == old(log) + [MessageSaved(m)]
    {
      messages := messages[m.CursorOf() := m];
      log := log + [MessageSaved(m)];
    }

    method Mark(c: Cursor)
      requires Valid()
      modifies this
      ensures Valid() && log == old(log) + [CursorSaved(c)]
    {
      if c !in messages {
        messages := messages[c := Placeholder(c)];
      }
      if c !in order {
        order := order + [c];
      }
      log := log + [CursorSaved(c)];
    }
  }
}
