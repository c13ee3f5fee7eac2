# rados-go: a verified model of its core

rados-go is a RADOS client written in Go. This project restates the parts of it that carry the
most state and branching as Dafny, and proves what those parts are for.

Code that works by changing things step by step is a class or a method here, proved against a
function on values; the promises are then theorems about that function, or invariants that every
method keeps. A method without a `modifies` clause, `CopyOnWrite.Apply` for one, provably leaves
every object that existed before the call as it was.

| part of the client | modules |
|---|---|
| messenger session owner (`internal/msgr/session.go`, `session_control.go`) | `SessionState`, `SessionSteps`, `SessionInvariant`, `SessionRuns`, `SessionAnswers`, `SessionExample`, `SessionReplay`, `SessionInbound`, `SessionFates`, `RequestTable`, `SettleLoops`, `SessionOwner` |
| receive budget and scratch buffers | `ReceiveBudget`, `ReceiveSessions` |
| messages, frames, secure records, payload leases | `MessageFrame`, `Preamble`, `SecureFrame`, `SecureFacts`, `SecureCodec`, `MessageLease` |
| CRUSH (`internal/crush`) | `Straw2`, `Permutation`, `CrushGraph`, `CrushSearch`, `CrushFacts`, `CrushPlace`, `CrushRules`, `StableMod` |
| placement of a group (`internal/maps/placement.go`) | `ShardOrder`, `Placement`, `PlacementFacts`, `PlacementRun` |
| incremental maps and batches of maps | `Incremental`, `MapFacts`, `CopyOnWrite`, `RenameOrder`, `MapBatch`, `MapBatchFacts` |
| objecter | `HObject`, `Enumeration`, `EnumerationFacts`, `BackoffSession`, `MutationQueue`, `Ledger` |

## How to read it

*The session.* `SessionSteps.Step` is one turn of the owner's loop, on a `State` value; a run is any
sequence of events (commands, frames, faults, timers, transports) from a start state. The invariant
in `SessionInvariant` holds after every step (`SessionRuns.StepKeeps`), and the theorems about runs
follow from it. The request table, which the owner keeps as an array with stored indexes, two linked
lists, two maps and four counters, is `RequestTable.Table`: its `Valid` says that all of them
describe the same rows and the same sums. `SessionOwner.Owner` is the loop itself, on the heap: one
method per branch, each proved to keep the table consistent and to do to table and fields together
what the step function does to the value.

*The receive budget.* Readers of different sessions share one lock. `ReceiveSessions` has one method
for each section that holds it, and any order of calls to these methods is an interleaving; `Valid`
is kept by each. A reader's place in its own code is its `Stage`, and what a scratch's lock is held
for is its `Work`.

*CRUSH.* `CrushSearch` says what the retry loops compute, by recursion on the tries left and then on
the height of the bucket; `CrushPlace` and `CrushRules` are the loops over arrays, proved to compute
it. Hashes, the logarithm table and the checksum are function parameters, so every theorem holds for
every hash.

*Facts.* A module whose name ends in `Facts` says of a computation what its result is in other terms
than the computation's own: by single descents, by lookups in the tables, byte by byte.
`SessionReplay`, `SessionInbound` and `SessionFates` do so for the session.

*Maps.* `Incremental.Next` is "copy everything, then apply the update". `CopyOnWrite` is the code's
selective cloning over shared heap tables.

## Model

| member | source | states |
|---|---|---|
| SessionRuns.ExactlyOneResult | internal/msgr/session.go:675-756 | After any number of events a command has no result while it is in the table and exactly one once it has left it. |
| SessionAnswers.OutcomeUnknownIsExact | internal/msgr/session.go:834-925 | When an application request fails, its outcome is reported as unknown if and only if it had been handed to a writer and the event is not a dispatch that meets it, unhindered, with its context ended: a condition on the state and the event before the step. |
| SessionAnswers.SilentFailureIsExact | internal/msgr/session.go:880-887 | A request that was handed to a writer fails without reporting an unknown outcome exactly if such a dispatch meets it. |
| SessionExample.RedispatchIsSilent | internal/msgr/session.go:880-887 | The exception is real: a run of eight events in which a request that was handed to a writer fails without reporting an unknown outcome. |
| SessionRuns.WritesAreOrdered | internal/msgr/session.go:847-925 | The sequences written on one transport strictly increase, replays come before every new message, and application requests are written for the first time in the order of their admission, whether they are still in the table or have left it. |
| SessionAnswers.LaterTurn | internal/msgr/session.go:758-832 | The turns that this order speaks of are those of admission: over any run, who is admitted later has a later turn, for good. |
| SessionRuns.LimitsHold | internal/msgr/session.go:758-832 | After every step the control lane, the application queue, the retained bytes, the requests in flight and the control frames waiting are within their limits. |
| SessionRuns.StopAnswersAll | internal/msgr/session.go:1701-1732 | Stopping after any run leaves no command without its one result. |
| SessionRuns.StepKeeps | internal/msgr/session.go:675-756 | Every event keeps the whole invariant: distinct requests, transactions and sequences, a replay list inside the table, truthful dispatch marks, ordered writes and all limits. |
| SessionRuns.RunKeeps | internal/msgr/session.go:675-756 | The invariant holds in every state of every run. |
| SessionRuns.StartKeeps | internal/msgr/session.go:1405-1416 | The invariant holds when the loop starts, with a transport or asking for one. |
| SessionRuns.SubmitKeeps | internal/msgr/session.go:758-832 | Admission keeps the invariant, also when transaction ids run out and the session ends. |
| SessionRuns.CancelKeeps | internal/msgr/session.go:834-845 | Cancelling, of a request in the table or not, keeps the invariant. |
| SessionRuns.DispatchKeeps | internal/msgr/session.go:847-925 | Handing the next frame to the writer keeps the invariant, on all branches. |
| SessionRuns.NextWriteIsDue | internal/msgr/session_control.go:58-91 | The request chosen to be written is the unsent replay with the least sequence if there is one, so that no write can overtake a replay; a new application request is chosen only when no earlier one waits. |
| SessionRuns.HandleMessageKeeps | internal/msgr/session.go:976-1025 | An incoming message, whatever it acknowledges or answers, keeps the invariant. |
| SessionRuns.HandleControlKeeps | internal/msgr/session.go:1027-1136 | Every control frame, in every phase, keeps the invariant. |
| SessionRuns.HandleResetKeeps | internal/msgr/session.go:1185-1213 | A partial or a full session reset keeps the invariant although the numbering may start again. |
| SessionRuns.TrimReplayKeeps | internal/msgr/session.go:1318-1322 | Dropping an acknowledged prefix of the replay list keeps the invariant. |
| SessionRuns.PrepareReplayKeeps | internal/msgr/session.go:1324-1333 | Marking the replay list unsent keeps the invariant as long as no message was written on the current transport; every caller is in that position. |
| SessionRuns.HandleFaultKeeps | internal/msgr/session.go:1335-1366 | A fault keeps the invariant under both policies, on lossy and lossless connections. |
| SessionRuns.FailTerminalKeeps | internal/msgr/session.go:1375-1403 | Ending the session for good keeps the invariant. |
| SessionRuns.HandleConnectedKeeps | internal/msgr/session.go:1437-1507 | A new transport keeps the invariant, whether the identity changed or not. |
| SessionRuns.HandleWrittenKeeps | internal/msgr/session.go:675-756 | The completion of a write, failed or not, keeps the invariant. |
| SessionAnswers.AnswerStays | internal/msgr/session.go:675-756 | Once a request has its answer, no later event of the run changes the answer or puts the request back into the table. |
| SessionAnswers.ReplyIsItsOwn | internal/msgr/session.go:976-1025 | A request that is replied to was replied to by a message that carries its own transaction, and was an application request. |
| SessionAnswers.ReplyArrives | internal/msgr/session.go:976-1025 | Conversely a message in order with the transaction of a pending application request ends that request with a reply, even if acknowledging the message then faults. |
| SessionAnswers.StepCalm | internal/msgr/session.go:675-756 | No event other than its own message gives a request a reply or touches an answer. |
| SessionReplay.SentIsListed | internal/msgr/session.go:976-1136 | At any point of any run, a request that is marked as sent is kept for replay, or an acknowledgment that the owner took, alone or with a message, covered its sequence while it was in the table, and it has been there under that sequence since. |
| SessionReplay.ResumeRewrites | internal/msgr/session.go:1085-1098 | When the server takes the session up again, every request in the table that was ever written will be written again unless its sequence was acknowledged on a ready transport; the sequence that the server names at that moment spares none. |
| SessionExample.AcknowledgedIsRewritten | internal/msgr/session.go:1085-1098 | A run in which the server, taking the session up, acknowledges sequence 1 and the client writes that very message again. |
| SessionReplay.RewritesInOrder | internal/msgr/session_control.go:58-91 | As long as requests are to be written again, the writer takes the one with the lowest sequence, before any other request, under the sequence it had, and lists it again. |
| SessionReplay.AcknowledgedIsUnlisted | internal/msgr/session.go:1318-1322 | What an event acknowledges leaves the replay list up to the first row that it does not reach, and no row is forgotten that was not sent at or below it. |
| SessionReplay.SentUnlisted | internal/msgr/session.go:1324-1366 | Between transports nothing but acknowledged requests is still marked as sent. |
| SessionReplay.RunRests | internal/msgr/session.go:1324-1366 | In every state without a ready transport all listed requests are to be written again, and a transport is asked for only when there is none. |
| SessionInbound.TakenOnce | internal/msgr/session.go:976-1000 | No message is taken twice or behind a later one: until a reset, a new identity or a lossy connection forgets it, each message taken has a greater sequence than all before it. |
| SessionInbound.DuplicateIgnored | internal/msgr/session.go:982-985 | A message that is not new changes nothing at all. |
| SessionInbound.RunTidy | internal/msgr/session.go:1263-1316 | In every state of every run the acknowledgment put off is of the last message taken and queued ones are of messages taken, only on a ready transport; control requests belong to the transport there is; reconnect attempts and handshake steps are within their limits. |
| SessionInbound.StepHears | internal/msgr/session.go:976-1025 | A message that is taken is remembered and acknowledged in the same step, or the transport is given up. |
| SessionInbound.InboundWasTaken | internal/msgr/session.go:976-1025 | What is remembered, and so acknowledged and told to the server at a reconnect, is the sequence of a message that was taken. |
| SessionFates.FaultFates | internal/msgr/session.go:1335-1366 | When a transport is lost, a request stays in the table exactly if it was not meant for that transport, the connection is not lossy, pending requests are not to fail, attempts are left, and it was not sent or there is a session to resume; on the replay list it is to be written again, and nothing else of it changes. |
| SessionFates.IdentFates | internal/msgr/session.go:1099-1130 | A new session keeps exactly the requests that were not sent, as they are, and begins with an empty replay list and no attempts counted. |
| SessionFates.FullResetEmpties | internal/msgr/session.go:1185-1213 | After a full reset no request is in the table, whatever else happens in that step. |
| SessionFates.PartialResetFates | internal/msgr/session.go:1185-1213 | After a partial reset the client identifies itself anew, sequences go on, and exactly the requests not meant for the transport stay, those on the list to be written again. |
| SessionFates.SubmitFate | internal/msgr/session.go:758-832 | A command is taken into the table, last, unsent and under its own transaction id or the least left, exactly if it is of this transport or any, its context stands, the session has not ended, its format and size pass, its lane has room and an id is left; otherwise it fails at once as certainly not executed. |
| SessionSteps.TakeTid | internal/msgr/session.go:1894-1911 | The transaction id taken is the least one from the counter on that is not in use; ids never wrap, and none is taken only when all the remaining ones are used. |
| SessionSteps.Trimmed | internal/msgr/session.go:1318-1322 | What is trimmed is the longest prefix of the replay list that was acknowledged. |
| RequestTable.Table.constructor | internal/msgr/session.go:1776-1866 | A new table is empty and consistent. |
| RequestTable.Table.Add | internal/msgr/session.go:1776-1786 | A request appears at the end of the admission order, in the array, both maps and all counters. |
| RequestTable.Table.Remove | internal/msgr/session.go:1829-1866 | The request is gone from the array (the last one takes its slot), from both lists, both maps and the counters; all other rows keep their order. |
| RequestTable.Table.AddReplay | internal/msgr/session.go:1788-1802 | The request is listed for replay exactly once, at the tail. |
| RequestTable.Table.RemoveReplay | internal/msgr/session.go:1804-1827 | The request leaves the replay list, the others keep their order; an unlisted one changes nothing. |
| RequestTable.Table.MarkWritten | internal/msgr/session.go:847-925 | The row is marked sent under its sequence, counted in flight and listed for replay; no other row changes. |
| RequestTable.Table.TrimReplay | internal/msgr/session.go:1318-1322 | The loop over the linked list drops exactly the acknowledged prefix. |
| RequestTable.Table.PrepareReplay | internal/msgr/session.go:1324-1333 | Exactly the listed rows become unsent, and the count in flight follows. |
| RequestTable.Table.NextWrite | internal/msgr/session_control.go:58-91 | The scan with its three candidates, and the shortcut without controls, find the row that the step function chooses. |
| RequestTable.Table.ClearReplay | internal/msgr/session.go:1523-1535 | The replay list is given up and no row changes. |
| RequestTable.Unlink | internal/msgr/session.go:1829-1866 | Cutting a node out of the doubly linked list leaves a well linked list of the others in order, at both ends and in the middle. |
| RequestTable.SwapRemove | internal/msgr/session.go:1829-1866 | After the last node moved into the freed slot, every node still stores its own index. |
| SettleLoops.InvalidateControls | internal/msgr/session_control.go:36-48 | Walking the array while removing from it answers exactly the generation-scoped controls, each once, and keeps the rest. |
| SettleLoops.FailSentUnknown | internal/msgr/session.go:1523-1535 | Exactly the sent requests are answered, as unknown, and the replay list is empty. |
| SettleLoops.FailAll | internal/msgr/session.go:1750-1774 | Every request is answered once, as unknown exactly if it may have been executed, and the table is emptied in place. |
| SettleLoops.ServedAll | internal/msgr/session.go:1750-1774 | Answering rows one at a time, in any order, amounts to the bulk settlement that the step functions use. |
| SessionOwner.Owner.Step | internal/msgr/session.go:675-756 | One turn of the loop on the heap: after every event of any run the array with its indexes, both lists, both maps and the counters agree, and owner and table together are what the step function on values makes of them. |
| SessionOwner.NewOwner | internal/msgr/session.go:1405-1416 | A new owner starts in the start state of the model. |
| SessionOwner.Owner.Submit | internal/msgr/session.go:758-832 | Admission, a new transaction id and the entry into the table: what numbering returns is free in the table, on every branch. |
| SessionOwner.Owner.Refuses | internal/msgr/session.go:758-832 | The limits are decided by the counters, which gives the decision that counting the rows would give. |
| SessionOwner.Owner.TakeTid | internal/msgr/session.go:1894-1911 | The search in the map of transactions finds the id that the model takes, or runs out when it does. |
| SessionOwner.Owner.Cancel | internal/msgr/session.go:834-845 | The request found by the map is removed and answered, as unknown exactly if it may have been executed. |
| SessionOwner.Owner.Dispatch | internal/msgr/session.go:847-925 | The row found by the scan is dropped, failed or written as the model says, with lists and counters following. |
| SessionOwner.Owner.HandleMessage | internal/msgr/session.go:976-1025 | The request found by its transaction is answered and removed, and the replay list is shortened by what the message acknowledges, not by its own sequence: with this the theorems `SentIsListed`, `AcknowledgedIsUnlisted` and `TakenOnce` speak of the owner on the heap. |
| SessionOwner.Owner.HandleControl | internal/msgr/session.go:1027-1136 | Every control frame does to the table and the fields what the model says. |
| SessionOwner.Owner.HandleReset | internal/msgr/session.go:1185-1213 | Partial and full resets, with the requests they fail or keep. |
| SessionOwner.Owner.HandleFault | internal/msgr/session.go:1335-1366 | Both policies, on lossy and lossless connections. |
| SessionOwner.Owner.FailTerminal | internal/msgr/session.go:1375-1403 | The table is emptied in place and everything in it answered. |
| SessionOwner.Owner.HandleConnected | internal/msgr/session.go:1437-1507 | A new transport, with the identity kept or changed. |
| SessionOwner.Owner.HandleWritten | internal/msgr/session.go:675-756 | The completion of a write, failed or not. |
| ReceiveBudget.NewBudget | internal/msgr/receive_budget.go:44-51 | A budget is made exactly for positive limits whose control allowance fits in 64 bits. |
| ReceiveBudget.Budget.Admit | internal/msgr/receive_budget.go:86-97 | A session is admitted exactly while there is room, and the count never exceeds the limit. |
| ReceiveBudget.Budget.Draw | internal/msgr/receive_budget.go:108-115 | A new lease charges nothing and leaves the books balanced. |
| ReceiveBudget.Lease.Resize | internal/msgr/receive_budget.go:125-142 | The new charge is granted exactly if the total stays within the limit; refused, nothing changes; no other lease is touched. |
| ReceiveBudget.Lease.ReserveControl | internal/msgr/receive_budget.go:204-214 | The fixed prelude is granted exactly within the separate control allowance. |
| ReceiveBudget.Lease.ReleaseControl | internal/msgr/receive_budget.go:144-152 | The control charge is given back, once. |
| ReceiveBudget.Lease.Release | internal/msgr/receive_budget.go:154-165 | The lease holds and is charged nothing afterwards; releasing twice gives back nothing twice. |
| ReceiveBudget.Scratch.TakeAt | internal/msgr/receive_scratch.go:14-50 | An idle lease that is taken off the stack gives back exactly the size of its buffer, and nobody holds that buffer then. |
| ReceiveBudget.Scratch.Supply | internal/msgr/receive_scratch.go:14-50 | The buffer is used exactly if what it has beyond the request fits the budget at that moment; otherwise the reader gets one outside the scratch and its charge is as before. |
| ReceiveBudget.Scratch.HandOver | internal/msgr/receive_scratch.go:52-71 | Buffer and charge go over to a parked lease in one step, and the charge is never more than before. |
| ReceiveBudget.Scratch.NotShared | internal/msgr/receive_scratch.go:14-92 | A buffer in use is never one that waits for reuse. |
| ReceiveBudget.AccountsAt | internal/msgr/receive_budget.go:125-165 | Buffers have one holder and are covered by its charge, however a lease takes over, drops or changes one. |
| ReceiveSessions.PlanCovers | internal/msgr/secure.go:301-327 | By the descriptors: the peak is the sum of all buffers made to read the frame, what is retained is the sum of those it holds on to, the buffer for the rest is no larger than that, and neither passes 64 bits. |
| ReceiveSessions.Sessions.Admit | internal/msgr/receive_budget.go:86-97 | Sessions come while there is room, beside any readers. |
| ReceiveSessions.Sessions.Retire | internal/msgr/receive_budget.go:99-106 | And go, leaving leases and scratches as they are. |
| ReceiveSessions.Sessions.Begin | internal/msgr/receive_budget.go:167-180 | In a world of any readers and scratches a read starts with a lease of nothing. |
| ReceiveSessions.Sessions.ReservePrelude | internal/msgr/receive_budget.go:204-214 | The prelude is granted exactly within the allowance at that moment; every other reader and scratch stays consistent. |
| ReceiveSessions.Sessions.Reserve | internal/msgr/receive_budget.go:186-193 | The peak is granted exactly if it fits at that moment. |
| ReceiveSessions.Sessions.StartDrop | internal/msgr/receive_scratch.go:73-81 | A refused reader takes the lock of its scratch, and only when nobody holds it. |
| ReceiveSessions.Sessions.DropOne | internal/msgr/receive_scratch.go:73-92 | Idle leases are released one lock section at a time; the charge falls by just the buffer, and whatever comes free anybody may take. |
| ReceiveSessions.Sessions.EndDrop | internal/msgr/receive_scratch.go:73-81 | With nothing idle left the lock is given up and the reader may try once more. |
| ReceiveSessions.Sessions.Retry | internal/msgr/receive_budget.go:186-193 | The second attempt succeeds exactly if the peak fits by then. |
| ReceiveSessions.Sessions.PassPrelude | internal/msgr/receive_budget.go:202-202 | The prelude is given back unless the frame is all in it. |
| ReceiveSessions.Sessions.StartGet | internal/msgr/receive_scratch.go:14-50 | First half of a get: the top idle lease is released, its buffer is kept in hand exactly while it is large enough, and stays clear and nobody else's whatever others do until the second half. |
| ReceiveSessions.Sessions.FinishGet | internal/msgr/receive_scratch.go:14-50 | Second half: the buffer in hand, or a new one in whole blocks, is held exactly if its charge fits by then; what the reader gets is clear and no longer counted among the clear buffers. |
| ReceiveSessions.Sessions.GetPlain | internal/msgr/receive_scratch.go:14-50 | For a size that scratches do not keep the buffer is new and of just that size. |
| ReceiveSessions.Sessions.Fill | internal/msgr/secure.go:360-371 | Received bytes go into the reader's own buffer and into no clear one. |
| ReceiveSessions.Sessions.Settle | internal/msgr/secure.go:345-391 | Once the peak was granted nothing later fails: going down to what the frame retains always succeeds, whatever other sessions did in between. |
| ReceiveSessions.Sessions.Release | internal/msgr/receive_budget.go:154-165 | A lease that is released, once or twice, gives back exactly its charge. |
| ReceiveSessions.Sessions.Wipe | internal/msgr/receive_scratch.go:52-71 | A buffer on its way back is cleared without touching any other. |
| ReceiveSessions.Sessions.PutBack | internal/msgr/receive_scratch.go:52-71 | It is to be parked exactly if the scratch is open and not full; otherwise its lease is over. |
| ReceiveSessions.Sessions.Park | internal/msgr/receive_scratch.go:52-71 | It is parked on top, the charge goes down to just its size, and the scratch never holds more than its slots. |
| ReceiveSessions.Sessions.StartClose | internal/msgr/receive_scratch.go:83-92 | A scratch that closes never parks again. |
| ReceiveSessions.Sessions.EndClose | internal/msgr/receive_scratch.go:83-92 | At the end it holds nothing and stays closed. |
| ReceiveSessions.Sessions.Grow | internal/msgr/session.go:955-967 | A control frame that is copied is charged for the copies exactly if they fit, and fails otherwise. |
| ReceiveSessions.Sessions.OneHolder | internal/msgr/receive_scratch.go:14-92 | In every state that any interleaving reaches, a buffer in use is no other reader's, waits in no scratch and is in no hand. |
| ReceiveSessions.GoesOn | internal/msgr/receive_budget.go:125-165 | A reader that goes on, with its buffer or without one, disturbs no other reader, scratch or buffer in hand. |
| ReceiveSessions.Gets | internal/msgr/receive_scratch.go:14-50 | So does a reader that takes over the buffer in its hand. |
| ReceiveSessions.Parks | internal/msgr/receive_scratch.go:52-71 | And one that gives its buffer to a parked lease. |
| Preamble.DecodeEncode | internal/msgr/frame.go:231-276 | Decoding an encoded preamble gives back the tag and the descriptors. |
| Preamble.EncodeDecode | internal/msgr/frame.go:231-276 | Every preamble that is accepted is the encoding of what it says: the 32 bytes are canonical. |
| Preamble.EncodePreamble | internal/msgr/frame.go:231-242 | The loop over the fixed buffer writes that encoding. |
| Preamble.DecodePreamble | internal/msgr/frame.go:244-276 | The loop with its checks accepts and reads exactly that decoding. |
| SecureFacts.PreambleIs | internal/msgr/frame.go:231-242 | The preamble byte by byte: tag, count, length and alignment of each segment in six bytes, little end first, zeros, and the checksum of the first 28 bytes. |
| MessageFrame.AdmittedEncodes | internal/msgr/session.go:758-832 | A message that is admitted can be encoded, whatever sequence, transaction and acknowledgment it is given afterwards, and it is charged for exactly the bytes of its segments. |
| MessageFrame.EncodesAdmitted | internal/msgr/session.go:1977-2008 | Admission refuses exactly the messages that could not be encoded. |
| MessageFrame.HeaderRoundTrip | internal/msgr/message.go:159-205 | A packed header and its fields determine each other; exactly 41 bytes are a header. |
| MessageFrame.HeaderIs | internal/msgr/message.go:159-180 | Each of the eleven fields stands at its place in the 41 bytes, little end first. |
| MessageFrame.DecodeEncode | internal/msgr/message.go:216-307 | Decoding an encoded message gives it back, with or without its trailing empty segments. |
| MessageFrame.EncodeDecode | internal/msgr/message.go:216-307 | A frame that decodes is, but for trailing empty segments, the encoding of its message. |
| MessageFrame.MessageArrives | internal/msgr/message.go:208-307 | A message that is sent arrives as it was, through encoding, sealing, the wire, opening and decoding. |
| MessageFrame.ValidateSegments | internal/msgr/message.go:309-325 | The loop in 64 bits accepts exactly segments with the alignments of a message and sizes within the limits. |
| SecureFrame.ReceivedAsSent | internal/msgr/secure.go:136-400 | Under a cipher whose opening inverts its sealing, reading what was written for a frame, with anything behind it, gives the frame without its trailing empty segments, the rest of the input, and the writer's counter. |
| SecureFrame.ConversationHeard | internal/msgr/secure.go:136-400 | A whole sequence of frames is heard as it was said, in order, with both counters in step. |
| SecureFacts.AcceptedExactly | internal/msgr/secure.go:136-400 | If records open only when they were sealed, a reader accepts an input as a frame if and only if it is that frame laid out and sealed record by record under the next nonces, within the same limits; of the closing block the upper half of the first byte is ignored. |
| SecureFacts.AcceptedIsLaidOut | internal/msgr/secure.go:259-400 | Every padding byte, every length and the closing block of an accepted frame are as the writer would have written them. |
| SecureFacts.SentIs | internal/msgr/secure.go:136-256 | A frame is sent exactly if its tag, the number, alignment and size of its segments and the size on the wire are within the limits and the counter does not run out under it; it then takes exactly the size computed and is on the wire as laid out, and complete. |
| SecureFacts.RecordsAre | internal/msgr/secure.go:136-210 | The layout: the preamble with the first 48 bytes of the first segment, then what is left of it, then the other segments and a closing block, everything padded with zeros to sixteen bytes. |
| SecureFrame.NoncesDiffer | internal/msgr/secure.go:92-105 | The nonces of all records of a whole conversation are pairwise different. |
| SecureFrame.ConversationSpends | internal/msgr/secure.go:136-210 | A conversation uses up exactly one counter for each of its records, in order and without a gap. |
| SecureFrame.SplitRest | internal/msgr/secure.go:259-400 | Cutting the last record into segments and checking their padding undoes laying them out. |
| SecureFrame.FirstJoins | internal/msgr/secure.go:136-210 | The inline part and the overflow record together are the padded first segment. |
| SecureCodec.SecureDirection.Next | internal/msgr/secure.go:92-105 | A nonce is given exactly while the counter has not run out, and no direction ever gives the same one twice (the fixed field and counter of section 8.2.1 of NIST SP 800-38D). |
| SecureCodec.SecureDirection.SealAt | internal/msgr/secure.go:111-117 | Sealing in place leaves everything before the record as it was, and uses up exactly the next counter. |
| SecureCodec.EncodeInto | internal/msgr/secure.go:136-210 | Into a new or a reused buffer, with or without a leased payload, the bytes are those of the copying path; the counters used up are those between the two states of the direction, and a frame that cannot be sent uses up none. |
| SecureCodec.WriteAll | internal/msgr/secure.go:136-210 | One to three records are sealed behind each other, each under the next nonce. |
| SecureCodec.WriteFirst | internal/msgr/secure.go:136-210 | The first record is the preamble with the inline part of the first segment. |
| SecureCodec.WriteOverflow | internal/msgr/secure.go:136-210 | What the inline part does not hold follows in its own record, padded. |
| SecureCodec.WriteRest | internal/msgr/secure.go:176-210 | The leased plaintext sealed directly and the copied one give the same record. |
| SecureCodec.PaddedLease.constructor | internal/msgr/message.go:58-67 | The storage is ended by an epilogue, and the payload is not touched. |
| SecureCodec.PaddedLease.SecurePlaintext | internal/msgr/message.go:69-93 | The in-place layout is used exactly if the payload is the last segment, fills its storage and what precedes it fits in the prefix; then the storage from there on is the whole plaintext record and the payload was not moved. |
| SecureCodec.TrimSegments | internal/msgr/frame.go:278-291 | Trailing empty segments are dropped, the first segment never. |
| SecureCodec.DescribeAll | internal/msgr/secure.go:212-256 | A frame passes exactly if every segment is within the limits. |
| SecureCodec.Measure | internal/msgr/secure.go:212-256 | The size and the number of records announced are those of the records written. |
| SecureCodec.CheckDescriptors | internal/msgr/secure.go:402-433 | A reader accepts exactly the descriptors within its limits, by the same test that a frame has to pass before it is written. |
| SecureCodec.OpenNext | internal/msgr/secure.go:119-129 | A record that does not open uses up its nonce too, and exactly that one. |
| SecureCodec.CutSegments | internal/msgr/secure.go:259-400 | The loop cuts the segments out and refuses any padding that is not zero. |
| SecureCodec.ReadFrame | internal/msgr/secure.go:259-400 | Reading record by record is the inverse stated by the theorems above, on every input, good or bad, and uses up exactly the counters between the two states of the direction. |
| MessageLease.ReclaimedOnce | internal/msgr/message.go:95-132 | Over any interleaving of retains and releases the payload is reclaimed at most once, exactly when the count reaches zero. |
| MessageLease.HeldIsKept | internal/msgr/message.go:95-132 | The count is the number of holders, so a payload with a holder left is not reclaimed. |
| MessageLease.NeverRevived | internal/msgr/message.go:95-132 | A reclaimed payload cannot be retained again. |
| Straw2.Choose | internal/crush/place.go:381-397 | The loop returns the first item with the greatest draw. |
| Straw2.WinnerWins | internal/crush/place.go:381-397 | Exactly one item beats all others, earlier ones winning ties. |
| Straw2.MovesMinimally | internal/crush/place.go:381-397 | Changing the weight of one item leaves the winner as it was, or the old or the new winner is that item. |
| Straw2.RaisingKeeps | internal/crush/place.go:381-397 | Raising the weight of the winner keeps it the winner. |
| Straw2.WeightlessLoses | internal/crush/place.go:381-397 | The winner has no weight if and only if no item has; then it is the first item. |
| StableMod.StableMod | internal/crush/hash.go:27-36 | The masks computed from leading zeros give the stable modulo, for all 32-bit values. |
| StableMod.LeadingZeros | internal/crush/hash.go:140-150 | The shifting loop counts the zeros above the top bit, and 32 for zero. |
| StableMod.InRange | internal/crush/hash.go:27-36 | The group is below the number of groups. |
| StableMod.Nests | internal/crush/hash.go:27-36 | With fewer groups, the group depends only on the group under more. |
| StableMod.Fixed | internal/crush/hash.go:27-36 | A value that already names a group is its own group. |
| StableMod.OnlySplits | internal/crush/hash.go:27-36 | With more groups a hash stays where it was or moves to a new group. |
| StableMod.SameGroupSameSeed | internal/maps/placement.go:75-98 | Two hashes in the same group have the same placement seed. |
| Permutation.Cache.Choose | internal/crush/place.go:399-436 | Whatever seeds and positions the cache has seen before, the answer is that of a fresh Fisher-Yates shuffle for this seed, for buckets of every size. |
| Permutation.Cache.Widen | internal/crush/place.go:399-436 | Filling in the identity around a lone first entry gives the state after one draw. |
| Permutation.Cache.Extend | internal/crush/place.go:399-436 | Drawing on from any settled prefix reaches the shuffle with the position settled. |
| Permutation.Caches.Choose | internal/crush/place.go:399-436 | The same with one cache for each bucket: no bucket disturbs another. |
| Permutation.EachIndexOnce | internal/crush/place.go:399-436 | The positions below the size of the bucket select each of its items exactly once. |
| Permutation.DrawnStays | internal/crush/place.go:399-436 | A settled position keeps its entry through all later draws. |
| CrushGraph.Validate | internal/crush/map.go:267-322 | In whatever order the buckets come, the graph is accepted if and only if ids and weights match, all items exist, devices are in range and no chain of buckets is longer than 64, which rules out cycles. |
| CrushGraph.CheckFiled | internal/crush/map.go:267-322 | The first loop accepts exactly the graphs whose buckets have their own negative id and a weight for each item. |
| CrushGraph.Visitor.Visit | internal/crush/map.go:267-322 | A visited bucket has a height that bounds every chain from it and is reached by one; a refusal proves the graph unusable. |
| CrushGraph.Visitor.VisitItems | internal/crush/map.go:267-322 | The height found is above that of every bucket below and is reached by a chain, so it is one more than the greatest of them. |
| CrushGraph.ShallowIsAcyclic | internal/crush/map.go:267-322 | A bound on the length of chains rules out loops. |
| CrushGraph.Loops | internal/crush/map.go:267-322 | Meeting a bucket that is being visited proves a loop. |
| CrushGraph.HeightBounds | internal/crush/map.go:267-322 | The recorded heights bound all chains. |
| CrushGraph.RankFalls | internal/crush/place.go:263-379 | Each descent lowers the height, which is why placement ends. |
| CrushSearch.SearchGood | internal/crush/place.go:263-379 | Whatever collisions, rejections and retries happen, a replica that is found collides with none chosen before, and it or its leaf is a device in range that is not out. |
| CrushSearch.FirstNGood | internal/crush/place.go:263-379 | First-n returns at most the replicas asked for, pairwise distinct items and leaves, and keeps what was chosen before. |
| CrushSearch.DescendGood | internal/crush/place.go:183-253 | A descent that fills a position finds an item that no position has. |
| CrushSearch.LeafBelowGood | internal/crush/place.go:183-253 | The leaf found below an item is a device in range that is not out. |
| CrushSearch.IndepGood | internal/crush/place.go:183-253 | Indep keeps the number of positions, repeats nothing but the none marker, and never changes a filled position. |
| CrushFacts.SearchIsLeast | internal/crush/place.go:263-379 | Without retries inside buckets, a search tries the replica numbers from its base on and finds what the first descent that does not miss hits; it gives up exactly if all its tries miss or that descent leads nowhere. |
| CrushFacts.SearchIsTried | internal/crush/place.go:263-379 | The retry loops with their restarts amount to single descents from the root, one after the other. |
| CrushFacts.FirstNPlaces | internal/crush/place.go:263-379 | First-n places, in order, exactly the replicas whose search succeeds, until all have been searched for or enough are placed. |
| CrushFacts.ShortOnlyIf | internal/crush/place.go:94-181 | A certified replicated rule places fewer devices than asked for only if some replica missed in all its 51 descents or met a dead end. |
| CrushFacts.IndepPasses | internal/crush/place.go:183-253 | A position that indep leaves empty was missed in every pass; one that it fills was filled by its first pass that did not miss. |
| CrushFacts.HoleOnlyIf | internal/crush/place.go:94-253 | So for a certified erasure rule, with 100 passes and replica numbers that go up by the number of positions. |
| CrushFacts.DescendIsAttempt | internal/crush/place.go:183-253 | A descent of indep for devices is the same descent as that of first-n. |
| CrushFacts.LeafBaseIs | internal/crush/place.go:263-379 | Leaves are searched for from the replica number divided by a power of two, plus the position in unstable maps; in certified ones from the number itself. |
| CrushFacts.OutIs | internal/crush/place.go:438-450 | A device is out without a weight or with weight zero, in with full weight, and by its draw in between. |
| CrushPlace.ChooseFirstN | internal/crush/place.go:263-379 | The loops over the output and leaf arrays compute first-n, behind and without touching what was there. |
| CrushPlace.PickItem | internal/crush/place.go:263-379 | By straw or through the shared permutation caches, in whatever state they are, the item picked is the one the search picks. |
| CrushPlace.FindReplica | internal/crush/place.go:263-379 | The nested retry loops end and find what the search finds, or skip when it does. |
| CrushPlace.Look | internal/crush/place.go:263-379 | One look into a bucket decides as the search does: descend, retry here, restart at the top, give up or accept. |
| CrushPlace.FindLeaf | internal/crush/place.go:263-379 | The recursive call for a leaf is a search for one device below the item. |
| CrushPlace.LeafIsOne | internal/crush/place.go:263-379 | That call looks for exactly one replica, from a starting point set by the stable and vary-r tunables. |
| CrushPlace.Retry | internal/crush/place.go:263-379 | The order of the retry conditions is that of the search, and each way on has fewer tries left; when a search may give up is `CrushFacts.SearchIsLeast`. |
| CrushPlace.Collides | internal/crush/place.go:263-379 | A collision is reported exactly for an item already chosen. |
| CrushPlace.ChooseIndep | internal/crush/place.go:183-253 | The passes over the positions compute indep and touch nothing before them. |
| CrushPlace.SweepOnce | internal/crush/place.go:183-253 | One pass fills empty positions only. |
| CrushPlace.Probe | internal/crush/place.go:183-253 | One descent ends filled, closed for good, or open for another pass. |
| CrushPlace.ProbeLeaf | internal/crush/place.go:183-253 | The recursive call for one leaf below an item, in its own arrays, is the search for it. |
| CrushPlace.FillOne | internal/crush/place.go:183-253 | A position that is filled gets its item and, where leaves are wanted, the leaf below it. |
| CrushRules.Place | internal/crush/place.go:30-48 | A placement is returned exactly for a positive count, a known, certified rule and a usable graph; it then is distinct devices in range that are not out: at most the count for a replicated rule, exactly the count with none markers for an erasure rule. |
| CrushRules.ReplicatedGood | internal/crush/place.go:94-181 | That, for every certified replicated rule, seed and weight vector. |
| CrushRules.ErasureGood | internal/crush/place.go:94-253 | That, for every certified erasure rule, seed and weight vector. |
| CrushRules.RunRule | internal/crush/place.go:94-181 | Running the steps over two arrays that swap roles gives the value semantics of the steps. |
| CrushRules.ChooseStep | internal/crush/place.go:94-181 | A choosing step chooses below every bucket of the working set in turn and puts leaves in place of their items. |
| CrushRules.ChooseBelow | internal/crush/place.go:94-181 | Choosing below one bucket writes behind the positions used so far. |
| CrushRules.Certify | internal/crush/place.go:55-83 | The checks on a rule accept exactly the certified shapes. |
| CrushRules.FindKind | internal/crush/place.go:85-92 | A bucket kind is found exactly if some bucket has it. |
| ShardOrder.UndoInverts | internal/maps/placement.go:300-334 | Undoing primary-first order gives the shards back. |
| ShardOrder.PrimaryFirstInverts | internal/maps/placement.go:300-334 | And primary-first order undoes the undoing. |
| ShardOrder.UndoIndexIsShard | internal/maps/placement.go:336-343 | The undone index is the shard whose entry stands at that position. |
| ShardOrder.Reorder | internal/maps/placement.go:300-313 | The two loops put the shards that may be primary first, in order. |
| ShardOrder.UndoOrder | internal/maps/placement.go:315-334 | The counting loop undoes it. |
| Placement.UpmappedDistinct | internal/maps/placement.go:182-223 | No upmap, upmap item or chosen primary puts an OSD into a placement twice. |
| Placement.OnlyUpGood | internal/maps/placement.go:239-247 | Exactly the OSDs that are up remain, once each. |
| Placement.HoledGood | internal/maps/placement.go:249-260 | In an erasure pool OSDs that are not up leave a hole in their place. |
| Placement.VolunteerIsFirst | internal/maps/placement.go:345-372 | Primary affinity picks the first eligible OSD that does not decline, or the first eligible one if all decline. |
| Placement.UpGood | internal/maps/placement.go:116-180 | A replicated up set has distinct OSDs that are up and starts with its primary. |
| Placement.ReplicatedServed | internal/maps/placement.go:116-180 | Up and acting of a replicated pool are distinct and up, a nonempty up starts with its primary, and the acting primary is none or in acting. |
| Placement.ErasureServed | internal/maps/placement.go:116-180 | For an erasure pool up has no OSD twice, primaries are none or members, and the primary's shard is where acting has the primary; there is a shard exactly if there is a primary. |
| Placement.ShardGood | internal/maps/placement.go:116-180 | The shard found, in either order, is where the acting set has the primary. |
| PlacementFacts.ActingReplicated | internal/maps/placement.go:262-285 | A replicated group with a temporary set, some member of which is up, is served by exactly the members that are up, in their order, under the temporary primary or the first of them; without one, by its up set under the temporary primary or that of the up set. |
| PlacementFacts.UpReplicated | internal/maps/placement.go:116-180 | The up set of a replicated group is the mapped OSDs that are up, in their order, with the one that affinity picks in front. |
| PlacementFacts.ActingErasure | internal/maps/placement.go:262-285 | An erasure-coded group is served position by position: what its temporary set has in place of each shard, with holes for OSDs that are down, or its up set. |
| PlacementFacts.UpErasure | internal/maps/placement.go:249-260 | The up set of an erasure-coded group is the mapped set with holes, its primary the one that affinity picks or the first that is up. |
| PlacementFacts.ShardIsFirst | internal/maps/placement.go:116-180 | The primary's shard is the first in which the acting set has it, in the order in force. |
| PlacementFacts.UndoneIs | internal/maps/placement.go:315-334 | Taken out of primary-first order, every shard has the entry that stands where it belongs. |
| PlacementFacts.UpmapIs | internal/maps/placement.go:182-223 | An explicit set replaces the placement unless one of its OSDs is drained; then no upmap of the group has any effect. |
| PlacementFacts.RemapIs | internal/maps/placement.go:182-223 | An item puts its target where its source first stands, unless the target is there already or drained, or the source is not there. |
| PlacementFacts.FrontIs | internal/maps/placement.go:182-223 | A chosen primary that is in the set but not in front, and has weight, changes places with the first; nothing else moves. |
| PlacementFacts.RefusedReplicated | internal/maps/placement.go:116-180 | A replicated placement is refused exactly for an unusable upmap or temporary set, or a temporary primary that is not up in the set that serves. |
| PlacementFacts.RefusedErasure | internal/maps/placement.go:116-180 | The reasons for refusing an erasure-coded placement, exact for all shard numbers that fit. |
| PlacementRun.PlaceMapped | internal/maps/placement.go:116-180 | The pipeline from rule to served placement computes the stages in their order, is refused exactly when CRUSH or a check refuses, serves a replicated group by its temporary set if that has a member up, and keeps all the promises above. |
| PlacementRun.Rewrite | internal/maps/placement.go:116-180 | The stages after CRUSH, in place and in loops, give the value semantics of the rewriting. |
| PlacementRun.ApplyUpmap | internal/maps/placement.go:182-223 | An explicit upmap, then the remap items one by one, then the chosen primary. |
| PlacementRun.ApplyRemap | internal/maps/placement.go:182-223 | One scan replaces the first source, unless the target is there already or has no weight. |
| PlacementRun.BringForward | internal/maps/placement.go:182-223 | A chosen primary that is in the set and has weight changes places with the first. |
| PlacementRun.ApplyAffinity | internal/maps/placement.go:345-372 | In place: the volunteer is moved to the front of a replicated set, and named primary of any set. |
| PlacementRun.Rotate | internal/maps/placement.go:345-372 | Shifting in place moves one entry to the front and keeps the order of the rest. |
| PlacementRun.FindTemp | internal/maps/placement.go:262-285 | Temporary mappings are filtered, checked and reordered as the pool demands, or refused; that they take effect is `PlacementFacts.ActingReplicated` and `ActingErasure`, and part of `PlaceMapped`. |
| PlacementRun.CheckUpmap | internal/maps/placement.go:225-237 | An upmap passes exactly if its explicit set is of distinct existing OSDs and every remap target exists. |
| PlacementRun.CheckSet | internal/maps/placement.go:382-397 | A set passes exactly if its OSDs exist, and are distinct where that is asked, the none marker aside. |
| PlacementRun.CheckShards | internal/maps/placement.go:291-298 | The shards that may not be primary pass exactly if none of those in the bit set is beyond the size of the pool. |
| PlacementRun.FindShard | internal/maps/placement.go:116-180 | The scan finds the primary's shard, in primary-first order where that is in force. |
| PlacementRun.MapRawHash | internal/maps/placement.go:75-98 | A hash is given its group and its seed, or refused. |
| PlacementRun.SameGroupSamePlacement | internal/maps/placement.go:75-98 | Two hashes in one group have everything the placement depends on in common. |
| CopyOnWrite.Apply | internal/maps/incremental.go:223-376 | A successful update gives exactly what copying everything and applying the update gives; it changes neither the map it starts from nor any other snapshot, keeps OSD vectors in step and pool names and ids inverse, and goes one epoch on. A fitting update without clashing names always succeeds. |
| CopyOnWrite.ApplyChange | internal/maps/incremental.go:223-376 | The same for an update that carries changes. |
| CopyOnWrite.CloneFor | internal/maps/incremental.go:378-434 | The clone has the value of the original, and every table that this update will write is its own. |
| CopyOnWrite.AddPools | internal/maps/incremental.go:223-285 | Pools are added and replaced, in any order; a replaced pool keeps its name. |
| CopyOnWrite.RenamePools | internal/maps/incremental.go:273-285 | Renames that succeed, in any order, give all pools their new names and keep names and ids inverse. |
| CopyOnWrite.RemovePools | internal/maps/incremental.go:286-292 | Removed pools are gone with their names. |
| CopyOnWrite.Resize | internal/maps/incremental.go:436-450 | All OSD vectors have the new length; old entries stay, new ones have their defaults. |
| CopyOnWrite.ApplyOsds | internal/maps/incremental.go:223-376 | Sizes, weights, states, affinities and addresses are changed in that order, exactly if all OSDs named exist. |
| CopyOnWrite.ApplyStates | internal/maps/incremental.go:223-376 | State flags are toggled; an OSD that ceases to exist loses its affinity and addresses. |
| CopyOnWrite.ApplyUps | internal/maps/incremental.go:223-376 | The loop over booted OSDs writes the states and addresses of the next map; that a booted OSD then exists, is up and has its new address is `MapFacts.BootedOsd`. |
| MapFacts.BootedOsd | internal/maps/incremental.go:330-337 | In the next map a booted OSD exists, is up, is not stopping, and has its new address. |
| MapFacts.FlippedOsd | internal/maps/incremental.go:313-329 | An OSD whose state is toggled and that is not booted flips exactly the marks asked for; one that ceases to exist has no state, no address and full affinity. |
| MapFacts.QuietOsd | internal/maps/incremental.go:223-376 | An OSD that is neither toggled nor booted keeps its state, but for the two marks that a weight clears, and its address. |
| MapFacts.WeighedOsd | internal/maps/incremental.go:292-312 | Weights and affinities are those of the update, or what was there, or the default of a longer vector. |
| MapFacts.TablesOf | internal/maps/incremental.go:338-369 | For every placement group and each of the five tables: which entry the next map has, and with which value. |
| MapFacts.PoolsOf | internal/maps/incremental.go:267-291 | Which pools the next map has, with whose settings and under which name. |
| MapFacts.ProfilesOf | internal/maps/incremental.go:340-345 | Which erasure profiles the next map has. |
| MapFacts.HeaderOf | internal/maps/incremental.go:243-266 | Every field of the next header: what the update sets, and what was there otherwise. |
| MapFacts.FitsIs | internal/maps/incremental.go:223-376 | An update fits exactly the map before it, of the same cluster, if it renames only pools that are there, speaks only of OSDs that are there afterwards and leaves no pool without a name. |
| MapFacts.AppliedOsd | internal/maps/incremental.go:223-376 | What is said of an OSD above holds of the map that `CopyOnWrite.Apply` returns. |
| CopyOnWrite.ChangeAll | internal/maps/incremental.go:466-484 | An entry with the deletion value is deleted, any other is put in, in any order. |
| CopyOnWrite.CheckNamed | internal/maps/incremental.go:223-376 | The last check passes exactly if every pool has a name. |
| Incremental.NextIsGood | internal/maps/incremental.go:223-450 | The next map is again one with equal vector lengths and inverse names. |
| Incremental.NamesUnique | internal/maps/incremental.go:273-292 | The name table is determined by the pools, so that the result does not depend on the order of updates. |
| RenameOrder.EveryOrderSucceeds | internal/maps/incremental.go:273-285 | Renames of known pools succeed in every map order if and only if no new name is another pool's name now or is given twice. |
| RenameOrder.ChainDependsOnOrder | internal/maps/incremental.go:273-285 | A chained rename succeeds in one order and fails in the other. |
| RenameOrder.OrdersAgree | internal/maps/incremental.go:273-285 | All orders that succeed and leave no pool unnamed give the same pools and names. |
| RenameOrder.RenamesGive | internal/maps/incremental.go:273-285 | Whatever order succeeds, exactly the pools named have their new names. |
| MapBatch.Client.ApplyBatch | internal/mon/client.go:713-784 | A batch is all or nothing: applied to the shared snapshots by the copy-on-write update itself, it publishes its last map exactly if every step succeeds and the announced newest epoch is reached; otherwise map and generations stay as they were. |
| MapBatch.BatchGood | internal/mon/client.go:713-784 | What is published is reached by full maps first and then consecutive incrementals, and every OSD whose state differs between two of these maps is listed as changed. |
| MapBatchFacts.BatchIs | internal/mon/client.go:713-784 | A batch that succeeds has gone through every newer full map and then through every newer update, reached the newest and the trim epoch it announced, and listed exactly the OSDs that a full map covers or an update changes in state. |
| MapBatchFacts.BatchFailsOnlyIf | internal/mon/client.go:713-784 | A batch fails only if, after some of its maps, a newer full map is no map or of another epoch or cluster, a newer update is that, does not follow or does not fit, or all of them fall short of what was announced; then nothing changes. |
| MapBatchFacts.StateIs | internal/mon/client.go:786-794 | What is compared of an OSD: exists, up and destroyed by their bits, and in by its weight. |
| MapBatch.BatchDecided | internal/mon/client.go:713-784 | Whatever order tables are walked in, a batch that succeeds goes through the same maps, publishes the same one and raises the same generations. |
| MapBatch.OutcomeDecided | internal/maps/incremental.go:223-376 | An update leads to one map if it succeeds, and whether it does is open only when its new names clash. |
| MapBatch.StepsGrow | internal/mon/client.go:713-784 | Within a batch each map has a greater epoch than the one before. |
| MapBatch.EpochsGrow | internal/mon/client.go:713-784 | Over any run of batches the published epoch never falls, and the same epoch means the same map. |
| MapBatch.GenerationCounts | internal/mon/client.go:713-784 | The generation of an OSD counts, modulo 64 bits, the batches that listed it as changed. |
| MapBatch.SameGenerationSameState | internal/mon/client.go:713-794 | An OSD with the same generation at two moments had the same exists, up, in and destroyed state in every map between them, also those inside batches. |
| MapBatch.MapConstant | internal/mon/client.go:713-794 | And in every published map between them. |
| MapBatch.SortedEpochs | internal/mon/client.go:1049-1056 | Exactly the epochs of the table, in increasing order. |
| MapBatch.CollectTransitions | internal/mon/client.go:786-794 | Exactly the OSDs whose exposed state differs are added. |
| MapBatch.BumpAll | internal/mon/client.go:713-784 | Each listed OSD's generation goes up by one, modulo 64 bits, no other changes. |
| HObject.ReverseTwice | internal/osd/backoff.go:222-228 | Reversing the bits twice gives the hash back, so no two hashes share a place. |
| HObject.CompareIsKeyOrder | internal/osd/backoff.go:166-200 | The comparison is that of one lexicographic key, with the maximum above everything. |
| HObject.TotalPreorder | internal/osd/backoff.go:166-228 | It is reflexive, antisymmetric in sign and transitive. |
| HObject.RangesMeet | internal/osd/backoff.go:108-113 | Two backoff ranges that meet cover each object of the joint range exactly once; which end belongs to a range is `RangeIs`. |
| HObject.RangeIs | internal/osd/backoff.go:108-113 | A range with equal ends is that one object; any other has its beginning and not its end, everything between and nothing outside, and with its ends the wrong way round it is empty. |
| HObject.EqualIsSame | internal/osd/backoff.go:166-200 | Objects compare equal exactly if both are the maximum or they agree in everything that places them. |
| Enumeration.Enumerate | internal/objecter/client.go:680-728 | A bad request is refused; otherwise, if servers list everything between a cursor and the end of their page, the listing is exactly the objects from the start up to the position returned, within end and limit, and it stops short of neither. |
| Enumeration.EnumeratePages | internal/objecter/client.go:694-728 | The same for the loop, after any number of requests. |
| Enumeration.ValidatePage | internal/objecter/client.go:752-767 | A page passes exactly if its entries are in order between cursor and end and its end is beyond the cursor. |
| Enumeration.ClipPage | internal/objecter/client.go:694-728 | A page is cut at the end and at the limit, and the position follows the cut. |
| Enumeration.KeptIs | internal/objecter/client.go:694-728 | What is kept of a good page is exactly what lies up to the new position, which is strictly beyond the old one. |
| Enumeration.PageAdds | internal/objecter/client.go:694-728 | Each accepted page takes the listing strictly further and leaves nothing out. |
| Enumeration.ChainListsAll | internal/objecter/client.go:680-728 | Calls chained by their positions list every object once and in order. |
| Enumeration.ChainListsRange | internal/objecter/client.go:680-728 | With positive limits at most one call more than there are objects reaches the end, and then the calls have listed exactly the whole range. |
| EnumerationFacts.AnyListingOrderly | internal/objecter/client.go:694-728 | Whatever the servers answer, truthfully or not, a listing that is returned rises from the start, stays below the end and within the limit, does not pass its own position, and stops only at the limit or at the end. |
| EnumerationFacts.FailsOnlyIf | internal/objecter/client.go:694-728 | With truthful servers a listing fails only if a request, made at the position reached and for exactly the objects still missing, was refused or answered with a page that does not pass. |
| EnumerationFacts.PageOkIs | internal/objecter/client.go:752-767 | A page passes exactly if it ends at the maximum or at a head of the pool beyond the cursor and its entries rise from the cursor and stay below its end. |
| BackoffSession.Backoffs.Add | internal/objecter/osd_session.go:431-460 | A backoff replaces the one with its id and is put in force exactly if count and bytes then fit; the per-group index stays the id table filtered by group, the charge the sum of the entries. |
| BackoffSession.Backoffs.Remove | internal/objecter/osd_session.go:462-475 | The backoff is gone from table, index and charge; an unknown id changes nothing. |
| BackoffSession.Backoffs.IsBlocked | internal/objecter/osd_session.go:145-215 | By the index: an object is blocked exactly if some backoff in force for its group covers it. |
| BackoffSession.IndexAdds | internal/objecter/osd_session.go:431-460 | Adding to one group's ranges keeps the index the table filtered by group. |
| BackoffSession.IndexRemoves | internal/objecter/osd_session.go:462-475 | So does removing, with the group's entry dropped when it is empty. |
| BackoffSession.Submissions.Add | internal/objecter/osd_session.go:394-405 | A submission is put in front of its group's linked list and into the table; every list stays well linked. |
| BackoffSession.Submissions.Remove | internal/objecter/osd_session.go:407-425 | It is cut out of its list, at either end or in the middle; an empty list has no head. |
| BackoffSession.Submissions.MarkResend | internal/objecter/osd_session.go:597-631 | The walk marks exactly the submissions of the group inside the range. |
| BackoffSession.Session.Register | internal/objecter/osd_session.go:145-215 | A submission is registered, under a new id, exactly if the session has not failed and no backoff in force covers its object. |
| BackoffSession.Session.Finish | internal/objecter/osd_session.go:145-215 | A finished submission is removed and sent again exactly if it was marked and its caller still wants it. |
| BackoffSession.Session.HandleBackoff | internal/objecter/osd_session.go:594-649 | A message of another control generation than the transport's has no effect; any other is followed in a state that holds nothing of an earlier generation. A block is acknowledged exactly if it was put in force and the acknowledgment fits; an end marks exactly the registered submissions in its range; an order that cannot be followed fails the session unless its generation ends meanwhile. |
| BackoffSession.Session.HoldsBack | internal/objecter/osd_session.go:594-649 | Once a block of one object is in force, the object is held back, whatever the receive loop and the acknowledgments do meanwhile, until the block's id is named again or its generation ends. |
| BackoffSession.Session.LetsGo | internal/objecter/osd_session.go:597-631 | The end of a block of one object sends again exactly the registered requests of its group for that object, beside those that were to be sent again already. |
| BackoffSession.Session.Serve | internal/objecter/osd_session.go:497-649 | Over any sequence of orders, resets and acknowledgments a backoff stays in force, as it is, until an order names its id or the generation ends. |
| BackoffSession.Session.TakeId | internal/objecter/osd_session.go:145-215 | The next submission id is the first free one after the last, past zero when it wraps, and the search ends. |
| BackoffSession.Session.Enqueue | internal/objecter/osd_session.go:223-240 | An acknowledgment is queued exactly while the reserve, which also counts the one being sent, has room. |
| BackoffSession.Session.TakeAck | internal/objecter/osd_session.go:258-305 | The oldest acknowledgment is taken to be sent and stays counted. |
| BackoffSession.Session.AckDone | internal/objecter/osd_session.go:276-305 | It is uncounted, and a failure is reported exactly if no reset came in between. |
| BackoffSession.Session.ResetAcks | internal/objecter/osd_session.go:242-256 | The queue is emptied and uncounted; the acknowledgment being sent stays counted. |
| BackoffSession.Session.Reconcile | internal/objecter/osd_session.go:497-516 | Nothing that was in force or queued in one generation is in the next; in every state an acknowledgment, queued or being sent, is of a block that was put in force in its own generation. |
| BackoffSession.Session.HandleReset | internal/objecter/osd_session.go:497-531 | A reset drops everything exactly if the generation is new. |
| BackoffSession.Session.HandleAckFailure | internal/objecter/osd_session.go:537-567 | A failed acknowledgment fails the session exactly if its generation still stands. |
| BackoffSession.Session.Close | internal/objecter/osd_session.go:477-492 | After the loop ended nothing is in force or queued, and an acknowledgment still being sent can no longer fail the session. |
| MutationQueue.Queue.Admit | internal/objecter/mutation.go:130-204 | Each of the outcomes (too large, closed, wait, exhausted, admitted) has its exact condition; an admitted mutation has a new sequence and a transaction id never issued before. |
| MutationQueue.Queue.Complete | internal/objecter/mutation.go:274-286 | Only a pending mutation completes; its bytes are given back and its outcome is kept. |
| MutationQueue.Queue.BeginShutdown | internal/objecter/mutation.go:328-341 | The queue is closed and nothing pending is lost; that every later admission is refused is `Others`. |
| MutationQueue.Queue.Watermark | internal/objecter/mutation.go:288-326 | A flush waits for exactly the mutations admitted so far. |
| MutationQueue.Queue.Look | internal/objecter/mutation.go:288-326 | Flush reports success if and only if every mutation up to its watermark completed and none ended unknown; it reports unknown if and only if all completed and one did; else it waits. |
| MutationQueue.Queue.Flush | internal/objecter/mutation.go:288-326 | Whatever is admitted or completed between its looks, a flush that succeeds has seen every mutation admitted before it began complete with a known outcome; the other two results are as exact. |
| MutationQueue.Queue.Others | internal/objecter/mutation.go:130-359 | Over any actions outcomes stay, sequences and ids only grow, and after a shutdown nothing is ever admitted again. |
| MutationQueue.Queue.TakeTransaction | internal/objecter/mutation.go:343-359 | Other requests draw from the same ids and get one never issued before, or none when they have run out. |
| MutationQueue.AdmitAccounted | internal/objecter/mutation.go:130-204 | After an admission every sequence ever given is either pending or has an outcome, not both. |
| MutationQueue.CompleteAccounted | internal/objecter/mutation.go:274-286 | After a completion too, and the least sequence that ended unknown is the one remembered. |
| MutationQueue.TakeDistinct | internal/objecter/mutation.go:343-359 | Transaction ids never repeat. |

## Findings

- A dispatched application request whose context has ended is failed at redispatch without the unknown-outcome error (`internal/msgr/session.go:880-887`). `SessionAnswers.SilentFailureIsExact` is the exact condition and `SessionExample.RedispatchIsSilent` a run that reaches it.
- Whether an incremental map with chained pool renames is accepted depends on Go's map order (`internal/maps/incremental.go:273-285`). `RenameOrder.EveryOrderSucceeds` is the exact condition under which it does not.
- Encoding a message cannot fail after it was admitted (`internal/msgr/session.go:758-832`); this is `MessageFrame.AdmittedEncodes`, and that branch of `dispatch` is not in the session model.
- The fallback permutation marks a half-filled cache with the count 0xffff, which is also a count that a large bucket can reach (`internal/crush/place.go:399-436`). That costs a redraw and never a wrong answer: `Permutation.Cache.Choose` has no bound on the size.
- What the server acknowledges when a session is taken up again has no effect on what is written again: the fault before it has already marked every listed request as unsent, and `prepareReplay` only unmarks (`internal/msgr/session.go:1085-1098`, `1318-1333`). A request at or below that sequence is written a second time. `SessionReplay.ResumeRewrites` is the exact rule and `SessionExample.AcknowledgedIsRewritten` a run that shows it.

## Left out

- Session: whether the receive queue is full, whether cookies and global sequences can be made, feature and endpoint checks, and whether a context has ended are given with each event, for all values.
- Session: session events, diagnostics, request timing, timers and the payload leases that requests hold (`failAll` does not release them) are not modelled.
- Session: the owner's plain fields are one field of `SessionOwner.Owner` with a record as its value.
- ReceiveSessions: reads without a budget or with the CRC codec, metrics and the diagnostic slot setting are not modelled; all idle buffers of a scratch belong to one budget, so the check for another budget never fails.
- ReceiveSessions.Sessions.Release: a reader's failures other than a refused reservation may come at any stage and are one step, `Fail`.
- SecureFrame: checks that 64-bit size sums do not overflow are left out, since the limits exclude it; key derivation and the cipher itself are a parameter.
- SecureCodec.ReadFrame: input is a byte sequence; the budget reservations made while reading are the steps of `ReceiveSessions`.
- CRC frames (`CRCCodec`) and control payloads would add only easy members.
- MessageFrame.MessageArrives: copying and owning encoders differ only in aliasing and are one function.
- MessageLease: the reclaim function is counted, not run; of the panics on misuse only the effect on the count is modelled.
- Permutation.EachIndexOnce: for buckets of at most 2^32 items, since the shuffle draws 32-bit numbers.
- CrushFacts.SearchIsLeast: for zero local and fallback retries, the only ones that certified rules run with; with them `CrushSearch.SearchGood` still bounds what is found.
- CrushFacts.HoleOnlyIf: takes the number of devices to be not negative, as the decoder leaves it.
- PlacementFacts.RefusedErasure: exact for pools of at most 128 shards, the numbers the wire has.
- SecureFacts.AcceptedExactly: authentication is taken as ideal: a record opens only if it was sealed.
- CrushSearch: retry counts are unbounded naturals; the decoder bounds them.
- CopyOnWrite.Apply: the starting map is assumed to have equal vector lengths and inverse names, and the update to be as its decoder leaves it; pool fields other than the name are one value; decoding a full map is a parameter; the shared cache of decoded CRUSH maps is left out.
- CopyOnWrite.RenamePools: with clashing names success is left open, since it depends on the order; `RenameOrder` has the exact condition.
- MapBatch.SameGenerationSameState: assumes fewer than 2^64 batches between the two moments, because generations wrap.
- MapBatch: observers, channels, subscriptions and the monitor session are left out; decoding is a parameter that gives maps with equal vector lengths and inverse names, and updates as `CopyOnWrite.Apply` takes them.
- Enumeration.EnumeratePages: the loop is observed for any finite number of requests, because a server may go on for ever; entries are identified with their cursors; request routing is left out.
- BackoffSession: waking of waiters, watch notifications, deadlines of acknowledgments and the transport itself are left out; its control generation is read as any numbers that never fall.
- MutationQueue.Queue.Admit: is one attempt; waiting for room and the cache of buffers are left out.
- Authentication (`internal/cephx`), sockets, name resolution, timers, wire decoders of maps, configuration, the public API, the manager client, the retry loop around requests, and watch and notify are left out.
