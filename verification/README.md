# A verified model of turntf-rs

This project models three parts of the turntf Rust client and proves what they promise:

* **The relay** (`src/relay.rs`): two `ReliableOrdered` endpoints with a sliding send window,
  retransmission timers and an out-of-order receive buffer, over a network that loses, duplicates and
  reorders frames at will.
* **The client session** (`src/client.rs`): the table of pending requests shared by concurrent calls,
  the read loop, session teardown and `close()`; and the run task that reconnects, logs in, persists,
  acknowledges and announces messages.
* **The cursor store** (`src/store.rs`): a message table and an insertion-ordered cursor list.

`dafny verify dfyconfig.toml` checks the whole project.

## How it is built

A *run* is any sequence of events. One event is a stretch of code between two points where another
task may get in: the send loop, for instance, takes a payload, looks at the `closed` flag, takes a
number, stores the frame and sends it in five events, and gives up its locks between the frames of a
retransmission round. An event asked for at the wrong moment changes nothing, so the theorems hold for
every sequence, with no side condition on scheduling. What the environment decides (whether a frame
reached the network, whether a send reported success, what a store call did) is part of the event.

The classes `Connection`, `Inner` and `RunTask` are the program's objects, updated in place. Each
method keeps its object valid and is proved against the step it performs; `RelayPair.Play`,
`ClientInner.Play` and `RunTask.Run` drive the objects through whole runs, so that what is proved of
runs holds of the fields.

| file | content |
|---|---|
| `Reassembly.dfy` | `handle_data`: the receive buffer and its drain loop; when the order of arrival matters |
| `RelayEndpoint.dfy` | the state of one connection end and each step of its tasks |
| `RelayConnection.dfy` | the same as an object updated in place, proved against those steps |
| `RelayProtocol.dfy` | two ends and the network; the joint invariant and prefix delivery |
| `RelayPair.dfy` | two connection objects played through any run |
| `RelayScript.dfy` | the course of one undisturbed transmission, to build particular runs from |
| `RelaySend.dfy` | the callers of `send` on their way into the queue |
| `RelayReason.dfy` | which events close a connection, and which reason each leaves |
| `RelayClosing.dfy` | what the send loop can still do once a send has failed or the `closed` flag is up |
| `RelayLoss.dfy` | exactly which runs, channels and windows can lose data |
| `RelayBudget.dfy` | the retransmission budget and the give-up rule |
| `RelayLifecycle.dfy` | many tasks racing through `handle_close` |
| `CursorStore.dfy` | `MemoryCursorStore` against its call log |
| `ClientRpc.dfy` | pending requests under interleaved calls, teardown, the end of the run task and `close()` |
| `ClientOutcome.dfy` | which event decides what a call returns, and which error the run task holds |
| `ClientInner.dfy` | the shared state of the client as an object updated in place |
| `ClientSession.dfy` | the run task: its log, event order, persistence; several clients over one store |
| `ClientTally.dfy` | how often each kind of entry comes on the log: events, ACKs, errors; duplicates |
| `ClientBackoff.dfy` | when the run task tries again, and its pauses |
| `ClientRun.dfy` | the run task as loops over fields and a store object, proved against `ClientSession.dfy` |

The two ends of the relay are called `left` (the connecting end) and `right`. Exchanging them turns a
run into a run (`RunMirror`), so a statement about data going from left to right, made of any state,
holds in the other direction too.

## What came out

* Whatever the channel does, the peer delivers a gap-free prefix of what the sender accepted
  (`PrefixDelivery`). That is not the same as losing nothing: the receiver acknowledges every DATA
  frame by its own number, even one it only buffered or threw away (`src/relay.rs:447-457`), and the
  sender takes the number as covering everything below (`src/relay.rs:467-474`). A frame that
  overtakes a lost one therefore makes the sender forget the lost one, and the connection never
  delivers anything again (`LossyRunStarves`, `StarvedForever`). The exact conditions are proved: one
  ACK is safe to act on if and only if its frame was not ahead of `expected_seq` (`AckSafeIff`); all
  ACKs of a run are harmless if and only if that held for every acknowledged arrival (`HarmlessIff`);
  a run loses nothing at any moment if and only if each ACK the sender acts on names a number
  delivered by then (`NeverLostIff`); and a configuration is safe on every channel if and only if its
  window is at most 1 (`LosslessIffStopAndWait`, `BackwardLosslessIff`); the default is 16
  (`src/types.rs:940`). On a channel that keeps the order of DATA frames and skips none, nothing is
  lost whatever the window (`OrderedChannelLosesNothing`).
* The `closed` flag does not stop the send loop at once: a payload taken up just before may still get
  a number, at most one, and exactly when is proved (`NumberedAfterClose`, `LateNumberOccurs`). A loop
  blocked by a full window does not look at the flag at all (`src/relay.rs:588-605`): unless the
  notification finds it waiting, it goes on counting timer rounds on the closed connection
  (`BlockedLoopGoesOn`); with room in the window at most one more round begins (`OneLateRound`).
* A PING is answered with an ERROR frame (`src/relay.rs:478-490`), which closes the connection of the
  end that sent it (`PingIsFatal`).
* A call can come back with a server error that has nothing to do with it: when the run task ends
  because a login was refused, it fails the whole table with that refusal (`src/client.rs:1635-1638`).
  This is the only way (`ServerErrorIff`), and it reaches even a call whose own request goes out on a
  later session, after a new `connect()` (`RefusalOccurs`).
* `retrans_cnt` counts timer rounds even when nothing is outstanding, so an idle connection gives up
  as well (`GivesUp`).
* Reassembly is independent of the order of arrival if and only if every frame is within the window
  at the start, or stays beyond it whatever arrives before (`OrderIndependentIff`).
* `docs/client-flow.md:212` and `docs/client-flow.md:232` say that a successful connection resets the reconnect delay. In the code
  `connect_and_serve` never returns `Ok` (`src/client.rs:1721-1731`), so the resetting arm of `run` is
  dead and the delay only grows, across successful sessions too (`BackoffOfRun`). The model follows
  the code.
* `docs/client-flow.md:143` says that a server error without a request id triggers a reconnect. In
  the code the read loop turns it into an event and goes on (`src/client.rs:1727-1729`); the model
  does too.
* The client removes no duplicates itself: a message gets one event for each push that was stored
  (`EventsAreStoredPushes`). At most one event per message rests on the server honouring
  `seen_messages` (`AtMostOnce`).

## Model

| member | source | states |
|---|---|---|
| Reassembly.DrainTakesContiguousRun | src/relay.rs:428-436 | The drain loop delivers the longest contiguous run of buffered frames in order, stops at the first number it does not have, and leaves the rest of the buffer untouched |
| Reassembly.AcceptEffect | src/relay.rs:422-445 | After any DATA frame the buffer lies strictly inside the window, `expected_seq` is not left in it, exactly this frame is added to what is held if it was in reach, and `expected_seq` passes the frame if and only if it was not ahead |
| Reassembly.AcceptGenuine | src/relay.rs:424-443 | Delivered payloads stay those of the numbers passed, in order, and buffered payloads stay those that arrived under their number |
| Reassembly.BufferSize | src/relay.rs:437-444 | At most `window_size - 1` frames wait in the buffer |
| Reassembly.FeedIsAssembled | src/relay.rs:422-445 | Any list of frames, in any order and with any duplicates, ends in the state computed from the set alone: the least missing number, the frames above it, the contiguous run delivered |
| Reassembly.UndecidedDiverges | src/relay.rs:437-444 | If some frame starts beyond the window but comes within it once others are in, two orders of the same frames end differently |
| Reassembly.OrderIndependentIff | src/relay.rs:422-445 | The outcome depends only on the set of frames if and only if every frame is in reach at the start or out of reach for good |
| RelayEndpoint.StepKeepsSender | src/relay.rs:574-705 | No step of the send loop, `retransmit`, `send` or closing breaks the window bookkeeping, and every frame sent carries the payload first accepted for its number |
| RelayEndpoint.AcknowledgeKeepsSender | src/relay.rs:462-476 | An ACK keeps the bookkeeping, wherever the send loop stands, if and only if it names a number that has been sent |
| RelayEndpoint.ReceiveKeepsEndpoint | src/relay.rs:392-499 | An arriving frame of any kind keeps the window bookkeeping, the buffer bound and the order of closing if and only if it acknowledges nothing that was never sent |
| RelayProtocol.PrefixDelivery | src/relay.rs:422-705 | In every run on a lossy, duplicating, reordering channel, with closes at will, each end has delivered exactly the payloads of numbers 1 to `expected_seq - 1`, a prefix of what its peer accepted |
| RelayProtocol.SenderWindow | src/relay.rs:588-635 | In every run 1 <= `send_base` <= `next_seq` <= `send_base + window_size`, so the subtraction of the window check never wraps; `unacked` holds exactly the window with the original payloads; ACKs under way name only numbers sent |
| RelayProtocol.ReceiveBufferBound | src/relay.rs:437-444 | In every run the receive buffer stays within the window and below its size |
| RelayProtocol.RunRises | src/relay.rs:492-501 | In every run the state of each end only rises from Opening over Open and Closing to Closed, Closed and its reason are final, and both the `closed` flag and a send loop that is over imply Closed |
| RelayProtocol.RunMirror | src/relay.rs:850-1060 | Exchanging the two ends, which run the same code, turns a run into a run |
| RelayPair.Play | src/relay.rs:422-705 | Two connection objects driven through any sequence of events end as the run says: each has handed over exactly a prefix of what the other accepted, with its window and buffer in order |
| RelaySend.CallersAccounted | src/relay.rs:158-204 | Every call of `send` that found the connection open, with a payload, is still on its way, was refused because the flag was up, gave up, or had its payload accepted: once each, and nothing else was accepted; the queue never exceeds its capacity |
| RelayReason.ReasonIff | src/relay.rs:264-499 | The reason of closing is r if and only if some event found the connection not closed and closed it for r: a failed first transmission, a timer round past the limit, the open timeout, `abort`, the end of `close`, a CLOSE or an ERROR frame; and there is no closing without such an event |
| RelayReason.StateIff | src/relay.rs:264-271 | Until it is closed an end is Opening exactly as long as no OPEN_ACK has arrived, and Closing exactly once `close` has found it open |
| RelayReason.PingIsFatal | src/relay.rs:478-490 | A PING gets an ERROR frame for an answer, and its arrival closes the connection for a peer error |
| RelayClosing.FailedSendIsLast | src/relay.rs:647-650 | After a failed first transmission the connection is closed in every continuation, for this reason if it was not closed before, and no payload gets a number any more |
| RelayClosing.OverForGood | src/relay.rs:582-650 | A send loop that is over takes no number in any continuation, and once it has returned the queue takes no payload |
| RelayClosing.OneLateRound | src/relay.rs:582-658 | Once the flag is up, at most one more timer round begins with room in the window, in any continuation |
| RelayClosing.BlockedLoopGoesOn | src/relay.rs:588-605 | A loop blocked by a full window on a closed connection past its limit can go through any number of timer rounds |
| RelayClosing.WayOut | src/relay.rs:582-705 | Wherever the send loop stands when the flag is up, its own steps can take it to its end |
| RelayClosing.NumberedAfterClose | src/relay.rs:620-630 | Once the `closed` flag is up `next_seq` grows by at most one, exactly if the send loop stood between its look at the flag and the numbering when the flag went up and goes on; this bounds what the peer can ever deliver |
| RelayClosing.LateNumberOccurs | src/relay.rs:620-630 | A run in which `abort` comes in just there and the payload is numbered after the flag |
| RelayLoss.InOrderLosesNothing | src/relay.rs:447-476 | If every acknowledged frame arrived without a gap below it, `send_base` never passes the peer's `expected_seq`, every stored number is delivered or still kept, and an empty window means everything numbered has been delivered |
| RelayLoss.AckSafeIff | src/relay.rs:437-457 | The ACK of an arriving frame can be acted on without dropping an undelivered frame if and only if the frame is not ahead of `expected_seq` |
| RelayLoss.HarmlessIff | src/relay.rs:447-476 | All ACKs of a run are harmless at all times if and only if no frame was acknowledged ahead of `expected_seq` |
| RelayLoss.NeverLostIff | src/relay.rs:462-476 | Every stored number is delivered or kept at every moment of a run if and only if each ACK the sender acts on names a number that is delivered at that moment |
| RelayLoss.OrderedChannelLosesNothing | src/relay.rs:422-476 | If the DATA frames that `right` handles are, in order and without a gap, the first ones of all that `left` transmitted, repeated ones included, then nothing is lost at any moment, whatever becomes of the ACKs |
| RelayLoss.StarvedForever | src/relay.rs:462-476 | Once the awaited number is acknowledged away and not in flight, nothing is ever delivered again, whatever happens next |
| RelayLoss.LossyRunStarves | src/relay.rs:447-476 | With a window of two or more there is a run, one frame lost and the next one delivered, that ends in that dead state |
| RelayLoss.LosslessIffStopAndWait | src/relay.rs:588-593 | No data from the connecting to the accepting end is lost in any run on any channel if and only if the window of the connecting end is at most one (its send queue has room for at least one payload, `src/relay.rs:822`) |
| RelayLoss.BackwardLosslessIff | src/relay.rs:588-593 | The same for data going back, with the window of the accepting end |
| RelayBudget.AllowanceBound | src/relay.rs:662-689 | The allowance of a kept frame, max_retransmits for each place the window has moved plus the rounds since, never exceeds max_retransmits times window_size |
| RelayBudget.RetransmissionBudget | src/relay.rs:662-705 | In every run no frame is retransmitted more than max_retransmits times window_size times, by either end, counted over the run itself |
| RelayBudget.GivesUp | src/relay.rs:662-675 | `retrans_cnt` is the number of timer rounds since an ACK last advanced the window, idle rounds included, and past max_retransmits the connection is closed |
| RelayBudget.GivesUpIff | src/relay.rs:662-675 | The connection is closed for max_retransmit if and only if at some point the rounds without progress went past the limit while it was not closed yet |
| RelayConnection.Connection.DeliverReady | src/relay.rs:429-436 | The in-place drain loop computes the drained receiver |
| RelayConnection.Connection.HandleData | src/relay.rs:422-458 | In-place `handle_data` performs the receive step and emits the ACK of this very frame, and changes no other field |
| RelayConnection.Connection.HandleAck | src/relay.rs:462-476 | The removal loop of `handle_ack` takes out exactly the numbers from `send_base` to the ACK and resets the counter |
| RelayConnection.Connection.HandleEnvelope | src/relay.rs:952-986 | Dispatch of an arriving frame performs the receive step of its kind, and the object stays valid if and only if the frame acknowledges nothing never sent |
| RelayConnection.Connection.CheckWindow | src/relay.rs:588-593 | The unsigned subtraction never wraps, and the send loop goes on if and only if fewer than `window_size` frames are unacknowledged |
| RelayConnection.Connection.AssignSeq | src/relay.rs:624-630 | Number n goes to the n-th payload accepted by `send` |
| RelayConnection.Connection.InsertUnacked | src/relay.rs:632-635 | From here on `unacked` holds exactly the numbers of the window, each with the payload accepted for it |
| RelayConnection.Connection.FirstSend | src/relay.rs:637-650 | The frame sent is the last one numbered, carries its own accepted payload, and is kept before it goes out |
| RelayConnection.Connection.Resend | src/relay.rs:691-703 | Whatever was acknowledged meanwhile, a repeated frame carries a number already sent and the payload accepted for it |
| RelayConnection.Connection.SendPass | src/relay.rs:582-660 | An undisturbed pass of the send loop sends the oldest queued payload under the next number, keeps it, and changes nothing else |
| RelayConnection.Connection.ResendAll | src/relay.rs:682-704 | The round's loop sends each kept frame exactly once with its payload and charges each once |
| RelayConnection.Connection.Retransmit | src/relay.rs:662-705 | An undisturbed `retransmit` either closes the connection or resends every kept frame exactly once and charges it, and touches nothing else |
| RelayConnection.Connection.Close | src/relay.rs:264-286 | An undisturbed `close` does nothing unless open, and otherwise sends CLOSE and ends Closed for good, on its own account, with the flag up |
| RelayConnection.Connection.Perform | src/relay.rs:158-705 | Any step of any task of the connection is done in place, keeps the object valid, and is the step that the theorems on runs speak of |
| RelayLifecycle.OneWinner | src/relay.rs:492-517 | Among any number of concurrent `handle_close` calls exactly one wins once the state is Closed; it alone runs callbacks, all for its own reason, and callbacks run, in hand and left over make up the registrations in order |
| RelayLifecycle.CallbacksHearTheReason | src/relay.rs:492-511 | Every callback run is run by the winner and hears the reason for which that very `handle_close` was called |
| RelayLifecycle.CallbacksRunInTurn | src/relay.rs:504-511 | In every interleaving each turn of the winner runs the next callback of its list, with its reason, until the list is through |
| RelayLifecycle.ClosedIff | src/relay.rs:493-499 | The connection is closed exactly once some `handle_close` has got the state lock |
| RelayLifecycle.StateUntilClosed | src/relay.rs:264-271 | Until then the state says whether OPEN_ACK has arrived, and whether `close` has begun |
| RelayLifecycle.UndisturbedClose | src/relay.rs:492-517 | Undisturbed, the first `handle_close` closes the connection, raises the flag, runs every registered callback in order with its reason and takes the connection out of the table |
| RelayLifecycle.WinnerForever | src/relay.rs:493-499 | The winner never changes |
| RelayLifecycle.TakenIsFinal | src/relay.rs:504-511 | The callbacks taken by the winner are exactly those that run, once each; one registered later never runs |
| CursorStore.OrderRefinesLog | src/store.rs:150-167 | `order` lists exactly the cursors of the `save_cursor` calls, each once, by first call |
| CursorStore.MessagesRefineLog | src/store.rs:141-162 | `messages` knows exactly the cursors mentioned by any call, each under its last saved message or the empty placeholder, and the entry's own cursor is its key |
| CursorStore.OnlyMarked | src/store.rs:150-162 | A cursor saved without any message stands for an empty message from nobody to nobody |
| CursorStore.OrderWithinMessages | src/store.rs:150-167 | `order` has no duplicates and lies within the keys of `messages` |
| CursorStore.MemoryCursorStore.Save | src/store.rs:141-148 | Saving a message adds this call to the log the store refines |
| CursorStore.MemoryCursorStore.Mark | src/store.rs:150-167 | Saving a cursor adds this call to the log the store refines |
| CursorStore.MemoryCursorStore.Load | src/store.rs:137-139 | Loading returns the first-occurrence list of the log |
| CursorStore.MemoryCursorStore.HasCursor | src/store.rs:119-121 | A cursor is present if and only if some call mentioned it |
| ClientRpc.AlwaysAccounted | src/client.rs:2006-2065 | In every interleaving ids are handed out once, the reply channel of every unfinished call is in exactly one place, and no registered request is left on a session that nobody will fail |
| ClientRpc.DeadSessionLeavesNoCall | src/client.rs:1702-1716 | Once a session's teardown, or a `close()` that overtook it, has failed the table, no call sent on that session is left in it and each has its answer on the way |
| ClientRpc.RunCallLater | src/client.rs:2023-2065 | Ids are not reused, a call that left the table never returns to it, and a reply or result once settled is not replaced |
| ClientRpc.TakenOnce | src/client.rs:2053-2058 | At most one reply is ever taken for a call; duplicate, late and unsolicited ones find nothing |
| ClientRpc.ResultsAreHonest | src/client.rs:1635-2065 | Every result, wherever it is on its way, is one of the client's own errors, comes from a reply that named this very call while it was in the table, or is the server error with which the run task ended while the call was in the table |
| ClientRpc.ServerErrorIff | src/client.rs:1635-1638 | A call is answered with a server error that no reply to it carried if and only if the run task ended with this error while the call was in the table; and then a login was refused with it |
| ClientRpc.ServerErrorIsLogin | src/client.rs:1647-1731 | The only server error the run task can come away with is that of a refused login |
| ClientRpc.RefusalOccurs | src/client.rs:1569-1638 | A run in which a call returns the refusal of a login, although its own request went out on the session of the next run task and nothing was replied |
| ClientRpc.ExactlyOneOutcome | src/client.rs:2023-2051 | A returned call keeps its result for good, is out of the table, and a success comes from a reply to this call |
| ClientOutcome.ResultIff | src/client.rs:2006-2051 | A call has result r if and only if one of its ways out was taken with r: closed before sending (`ClosedError`), no writer (`NotConnected`), a failed write, the answer that has arrived, or a time-out |
| ClientOutcome.ExitOnce | src/client.rs:2023-2051 | A call leaves by one of them, once |
| ClientOutcome.ReplyIsReturned | src/client.rs:2040-2044 | A call that waits and has its answer returns that answer, whatever has become of its session |
| ClientOutcome.ReplyIsTheResult | src/client.rs:2040-2050 | In every continuation without a time-out of this call, an answer once there is what it returns |
| ClientOutcome.AnswerIff | src/client.rs:1635-2065 | A call has got answer r if and only if a reply with r was passed on, or it was in the table when a teardown (`Disconnected`), the end of the run task (the error it came away with) or `close` (`ClosedError`) emptied it |
| ClientOutcome.ErrorIff | src/client.rs:1622-1645 | The run task holds error e if and only if it came away with e from a failed attempt, a lost session or a closed client, and has neither tried again nor ended since; a closed client does not try again |
| ClientOutcome.ConnectedIff | src/client.rs:1691-1706 | While nobody has closed the client it calls itself connected exactly while a session is served |
| ClientOutcome.NoSessionAfterClose | src/client.rs:1648-1650 | After `close` has raised the flag no session begins, but for an attempt already under way |
| ClientInner.Inner.Begin | src/client.rs:2027-2033 | A call gets an id no call has had and is entered into the table before anything is sent |
| ClientInner.Inner.SendEnvelope | src/client.rs:2006-2021 | A request goes out on the writer's session if and only if the client is not closed, has a writer, and the write works; a refusal says why; its call stays in the table, and somebody is left who will answer it |
| ClientInner.Inner.AnsweredCall | src/client.rs:2023-2058 | An undisturbed call on a served session returns the reply to it and leaves the table as it was |
| ClientInner.Inner.ResolvePending | src/client.rs:2053-2058 | A reply removes and answers its own call only, overwrites nothing already received, and without such a call changes nothing |
| ClientInner.Inner.FailAllPending | src/client.rs:2060-2065 | The drain empties the table and sends everyone in it the same error, and no one else |
| ClientInner.Inner.TearDown | src/client.rs:1702-1718 | After an undisturbed teardown the session's writer is gone, and unless the client is closed everyone in the table has been told that the connection is lost |
| ClientInner.Inner.Close | src/client.rs:616-643 | After an undisturbed `close` the table is empty, everyone in it has been told that the client is closed, and writer and run task are gone |
| ClientInner.Play | src/client.rs:1619-2065 | The object played through any interleaving ends as the run says: every returned call is out of the table with a result from an honest source |
| ClientSession.RunIsSafe | src/client.rs:1647-2004 | At every moment of every run logins and disconnects alternate and enclose all message events; a cursor is recorded only right after its message was stored without error; every ACK, event and returned message stands right after its own two store calls; every login names all that was committed to before, by this client or an earlier one over the same store, and only cursors whose message was stored |
| ClientSession.LivesAreSafe | src/client.rs:616-2004 | The same persistence and coverage over any number of clients one after the other on one store, each cut short anywhere |
| ClientSession.SeenIff | src/client.rs:1652-1657 | The cursors a login names are exactly those recorded by the store so far, calls that reported an error included |
| ClientSession.TableIff | src/client.rs:1992-2004 | The store knows exactly the cursors recorded so far, each under the message last recorded for it |
| ClientSession.UnbrokenIsWellShaped | src/client.rs:1691-1718 | The running phase of the log never breaks only if logins, disconnects and messages are placed as stated by position |
| ClientTally.RunCounts | src/client.rs:1619-2004 | The number of entries of every kind in a run (events, ACKs, returned and failed sends, packets, errors, logins, disconnects, pauses, store calls) is what the frames read and the attempts made bring about |
| ClientTally.EventsAreStoredPushes | src/client.rs:1739-1757 | A message gets exactly one event for each push of it that was stored without error |
| ClientTally.AcksAreStoredPushes | src/client.rs:1742-1755 | With `ack_messages` a cursor gets exactly one ACK for each stored push of it for which there was a writer; without, none |
| ClientTally.AcksAreFramed | src/client.rs:1741-1756 | In a run not cut short every ACK is followed by the event of its own message, at most the report of its failure in between |
| ClientTally.EventsInOrder | src/client.rs:1721-1757 | A run announces exactly the pushes it has stored, in the order they came |
| ClientTally.AtMostOnce | src/client.rs:1652-1757 | If the server pushes a cursor at most once per session and none the login named, no message is announced twice over any sessions, disconnects and store failures |
| ClientBackoff.WhenRunEnds | src/client.rs:2073-2080 | With `reconnect` off a run makes one attempt; otherwise it goes on until the first unauthorized login or the end of the script |
| ClientBackoff.BackoffOfRun | src/client.rs:1619-1645 | The n-th pause of a run is `initial` for n = 0 and min(initial * 2^n, max) after that, across successful sessions |
| ClientRun.RunTask.PersistMessage | src/client.rs:1992-2004 | Success means that both store calls went through, so the cursor is among those every later login names; if the message was not stored, no cursor is recorded |
| ClientRun.RunTask.ReadLoop | src/client.rs:1721-1731 | The read loop handles all frames in order; it announces the pushes it has stored, acknowledges exactly with `ack_messages`, and commits to nothing that is not stored |
| ClientRun.RunTask.Run | src/client.rs:1619-1645 | The reconnect loop over a store object plays the script of attempts with the doubling delay until an error is not to be retried, with all that holds of such runs |

## Left out

- `BestEffort` and `AtLeastOnce` connections, and two ends with different reliability: they have no ordering to prove.
- Protobuf, WebSocket, HTTP, password and URL code, and the field mappings: frames and replies are datatypes here; a frame whose mapping fails is `Unusable`.
- The one-line request wrappers: one generic `rpc` stands for them, and response bodies are numbers.
- Relay addressing, session resolution, the tie-break on duplicate OPEN frames, and an OPEN frame that cannot be sent.
- Wake-ups and timing: which notification is received when, and that anything happens eventually. A timer may fire and a wait may end at any time.
- Wrap-around of the 64-bit counters for sequence numbers, request ids and sessions: they are unbounded here.
- Broadcast channels: a log of what was sent stands for them; lagging subscribers are not modelled.
- The arm of the send loop for a closed send channel (`src/relay.rs:611-617`): the loop itself keeps the sending half alive.
- Frames that arrive after the connection has left its table: the model still lets the endpoint handle them, which only adds runs.
- Reading `send_base` and then `next_seq` in the window check is one step: only the send loop changes `next_seq`.
- Aliasing of `RelayConnection` and `Client` handles: all clones share the one object that is modelled.
- Which errors are retried in `ClientRpc.dfy`: it also depends on the configuration and on the code of a server error, so after a failed attempt both a retry and the end of the run task may follow. `ClientSession.dfy` has the rule.
- `close()` in `ClientSession.dfy` only cuts the run task short; its own steps are in `ClientRpc.dfy`, and the Disconnect event it emits itself is in neither.
- A second run task started while an aborted one is still ending: it sees the closed flag at once and leaves.
- RunTask.Run: does not model `stop_reconnect` apart from the unauthorized login error that sets it, and is not cut short by `close()`, which `LivesAreSafe` covers on logs.
