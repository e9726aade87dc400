# Verified model of the WebSocket connection

One WebSocket connection, as a guest sees it, is implemented three times: by the reference host
(`rust/wasmtime`), inside the guest over byte streams (`rust/guest-provider`), and over the platform's own
`WebSocket` (`js/polyengine`). `wit/README.md` promises one behaviour for all three. This project writes that
behaviour once, as an abstract step machine, models each implementation as it is written, and proves that every
run of each is a run of the abstract machine. The smaller cores around the connection (the byte accounting, the
payload collectors, `send-via-stream`, the in-memory transport, the subprotocol offer, and the browser class over
the WIT resource) are modelled beside it with their own theorems.

`dafny verify dfyconfig.toml` checks everything. It needs no other file.

## How it is laid out

| files | what they hold |
|---|---|
| `Types`, `CallIds`, `Encodings` | messages, close frames, lifecycle, identifiers of sends, UTF-8 and UTF-16 |
| `Contract`, `PeerInput`, `Answers` | the abstract machine with its labels, the theorems about all its runs, and what a trace owes to the next call |
| `ReferencePump`, `ReferenceInvariants`, `ReferenceSends`, `ReferenceTermination`, `ReferenceRefinement`, `ReferenceDelivery`, `ReferenceEnd`, `ReferenceClose`, `ReferenceCalls`, `ReferenceWritten`, `ReferenceTurns`, `ReferenceBudget`, `ReferenceTask` | the reference pump: step machine, invariants, outbound half, termination, refinement, end-to-end delivery, why an end is found, sends at a local close, the answer of every call, the messages and the close frame it writes, the order of its turns, its queue as the atomic one, and the pump as an object |
| `GuestPump`, `GuestInvariants`, `GuestSends`, `GuestTime`, `GuestBounds`, `GuestRefinement`, `GuestDelivery`, `GuestEnd`, `GuestClose`, `GuestCalls`, `GuestWritten`, `GuestTurns`, `GuestTask` | the same for the two-task in-guest pump |
| `JsQueue`, `JsHost`, `JsRefinement`, `JsDelivery`, `JsClose`, `JsCalls`, `JsWritten`, `JsWebsocket`, `QueueEquivalence` | the same for the JavaScript host, and its queue against the Rust one |
| `InboundBudget` | the shared counter as atomic steps on machine words |
| `PayloadCollectors`, `SendViaStream` | the three payload collectors and the three `send-via-stream` drivers |
| `VirtualTransport` | the in-memory byte pipe under the in-guest protocol core |
| `Subprotocol`, `SubprotocolOffer` | token validators, the offer's printer and parser, selection and the client's check |
| `BrowserShim`, `BrowserEvents`, `BrowserSocket` | the standard `WebSocket` class over the resource: machine, what a schedule makes it show and pass on, and the object |

The contract machine keeps the log of accepted messages with a read cursor, the latches (stopped, overflowed,
broken, locally closed, claimed, ended), the peer's close frame, the latched close outcome, the lifecycle, and the send
calls not answered yet. An implementation emits labels as it steps: what it does with the peer's input, and what
the guest observes. A label the machine refuses would be a violation: acceptance never stops, and the queue never
ends, without a cause that the labels show. Each implementation has a relation between
its own state and the contract's, with no recorded history, kept by every step.

Each machine is also given in the source's own form: a class with the source's fields and methods, whose loops and
updates are proved to be the machine's steps (`ReferenceTask.Pump`, `GuestTask.Pump`, `JsWebsocket.Websocket`,
`JsQueue.IncomingQueue`, `BrowserSocket.WebSocket`). An await is where such an object returns to its schedule, so the schedule is any
interleaving of the tasks, the guest, the peer and the clock.

## Hypotheses

- Time is discrete and passes only when no task has anything to do. This is how the deadlines of the source are
  meant; a starved scheduler is outside the model. In the reference pump the deadline is polled last, so the bound on
  its termination is stated for the work it is given (`ReferenceTermination.PumpStepsArePaid`).
- The transport under the pumps yields any sequence of frames, errors and an end, and each write completes, fails or
  stalls as it likes. A close frame that is read queues its own reply.
- The steps of one in-guest task between two awaits are atomic: its executor is single-threaded. The reference pump's
  statements after its loop are separate steps, because readers run on other threads.
- The platform `WebSocket` delivers no `message` event once it left OPEN (WHATWG WebSockets Standard, "Feedback from
  the protocol"); the listeners of its `close` event run as one step, together with those of the `error` event a
  failed connection fires just before it (js/polyengine/websocket.ts:823-824); codes 0, 1006 and 1015 mean that no frame was
  received (sections 7.1.5 and 7.4.1 of RFC 6455 cover 1006 and 1015). Without that hypothesis a continuation that
  runs between two of those listeners, because its pending read was just rejected, could see the state `closed`, call
  `close`, and then see `closing`.
- `TextDecoder` is as the WHATWG Encoding Standard has it ("Interface TextDecoder"), and the platform sends a string as
  its UTF-8 bytes.
- The Rust handshake library checks the subprotocol header of the response before the client does. That check is not
  part of this model: `SubprotocolOffer.AttemptSucceedsIff` is about the clients' own check.
- A stream item of the JavaScript host counts as handed over when it enters the platform's `ReadableStream`, which
  may hold one item before its consumer asks.

## What the code does where its documentation says otherwise

- The in-guest pump says that its closing procedure is bounded end to end (rust/guest-provider/src/pump.rs:494-496).
  It is after a local close (`GuestTime.LocalCloseIsBounded`). After a close that the peer or an overflow begins it is
  not: a flush tests for a deadline once, when it starts, so a send that stalls before the reader begins to close holds
  the write lock that the reader's flush then waits for. `GuestTime.DeadlineCanBeOverrun` gives such a run with a close
  frame of the peer, for every length of overrun, and `GuestTime.DeadlineOverrunExactly` says that a reader waiting so
  is the only way.
- `wit/README.md:83-84` says that in-flight `send` calls fail `closed` at a local close, and at line 81 that pending
  sends flush. The pumps flush them: a send called before the close may still be answered `Ok`
  (`ReferenceClose.InFlightSendMayFlush` is such a run). In the reference pump all answers after a local close are
  `closed` exactly when no send is pending, or the wire is closing, the write half dead or the loop left
  (`ReferenceClose.ClosedAnswersExactly`); in the in-guest pump exactly when the write half is dead, or no send is in
  flight and none will be encoded (`GuestClose.ClosedAnswersExactly`); in the JavaScript host always
  (`JsClose.ClosedAnswers`).
- The in-guest pump's and the reference's `send-via-stream` hand a text payload over as it is. The JavaScript host
  decodes it with a `TextDecoder` that drops a leading byte order mark (js/polyengine/websocket.ts:557), so a payload
  that starts with EF BB BF is sent without these three bytes, and counted as sent. `SendViaStream.MarkIsDropped` is
  such a payload; `SendViaStream.JsHandsPayloads` says that these are the only ones.
- On a 32-bit word the in-guest budget check does not saturate. `InboundBudget.GuestCheckExact` gives the bounds for
  which it decides as the reference's does. The in-guest collector's excess counter can wrap likewise
  (`PayloadCollectors.WordAcceptsExactly`).
- After an overflow the JavaScript host refuses a receiver as soon as the backlog is drained; the Rust queues make it
  wait for the queue's end. The answers are the same once the queue ended (`QueueEquivalence.QueuesAgree`).
- An overflow in the in-guest pump does not advance the reported state; in the other two it does.
- The browser class refuses an offer with two names that differ in case only, which the hosts accept
  (`Subprotocol.ShimIsStricter`).

## Model

| member | source | states |
|---|---|---|
| Contract.HandedIsPrefix | wit/README.md:48-66 | in every run the messages handed out, by `receive` or the stream, are an in-order prefix of those accepted, which are a prefix of those that arrived |
| Contract.SignalsWin | wit/README.md:79-90 | after a local close nothing is handed out and no send or claim is taken; after a claim no `receive` gets a message; at most one claim and one close succeed |
| Contract.DrainedReadSawEverything | wit/README.md:61-63 | a `receive` or a claimed stream that finds the end of the queue, absent a local close, comes after every accepted message was handed out, and no later one is; a failing `receive` reports overflow exactly when one was latched |
| Contract.AcceptedExactly | wit/README.md:56-66 | accepted are exactly the messages that arrived before the first overflow, begun close, peer close or end of the input or queue |
| Contract.AcceptanceEndsForACause | wit/README.md:91-100 | absent a local close, acceptance ends only at an overflow, at the peer's close, at the transport's end, or where the queue ended after a write failed |
| Contract.EndMeansAllDelivered | wit/README.md:91-100 | once a `receive` or the stream finds the end with no local close, the messages handed out are all that arrived before acceptance ended, and it ended for a cause |
| Contract.OverflowMeansFull | wit/README.md:56-58 | an overflow is shown only when the backlog, the message being handed over and the new one exceed the bound together; an accepted message fits beside the backlog |
| Contract.DrainedReadsAgree | wit/README.md:109-114 | every later such read reports the same error |
| Contract.WaitClosedIsLatched | wit/README.md:101-107 | every `wait-closed` of a run yields the first close frame read before the outcome settled, else none |
| Contract.StatesNeverRegress | rust/wasmtime/src/websocket.rs:65-87 | reported states never move backwards |
| Contract.SendsAnsweredOnce | wit/README.md:70-73 | no send call is answered twice |
| Contract.SentWasCalledBeforeClose | wit/README.md:79-90 | every answered send was called, and called before any local close |
| Contract.BacklogBounded | wit/README.md:56-58 | the receivable backlog never exceeds the inbound bound |
| PeerInput.AllowedDelivers | wit/README.md:48-116 | a run that read a prefix of what the peer sent accepts exactly the peer's messages up to the input that ended acceptance, hands out a prefix of them, all of them once a read or the stream finds the end with no local close, and reports exactly the first close frame it read before the outcome settled, or none |
| PeerInput.FoundEndNamesItsInput | wit/README.md:91-100 | whoever finds the end of the queue with no local close was handed all the peer's messages before a place in its input, and what stands there (an overflowing or oversized message, a close, or the end) is what ended acceptance; a queue that ended after a failed write excepted |
| ReferenceRefinement.StepMatches | rust/wasmtime/src/websocket.rs:744-845 | every step of the reference connection is allowed by the contract from a related state, and leads to one |
| ReferenceRefinement.ImplementsContract | rust/wasmtime/src/websocket.rs:734-926 | every run of the reference connection, for every interleaving with guest, readers and peer, is a run of the contract |
| ReferenceDelivery.RunInputs | rust/wasmtime/src/websocket.rs:776-818 | what a run read, then what waits at the socket, is exactly what the peer sent, in order |
| ReferenceDelivery.DeliversWhatThePeerSent | rust/wasmtime/src/websocket.rs:776-835 | the guest is handed, in order and each once, a prefix of the messages the peer sent before acceptance ended; all of them once a read or the stream finds the end with no local close, which then has a cause; `wait-closed` is the first close frame read before it settled or none, where a frame without a body reads 1005 with no reason |
| ReferenceEnd.FoundEndSaysWhy | rust/wasmtime/src/websocket.rs:776-835 | in every run, whoever finds the end with no local close was handed all the peer's messages before the input that ended acceptance, or all that had arrived when the deadline fired |
| ReferenceEnd.DeadWriteDeliversAll | rust/wasmtime/src/websocket.rs:819-835 | when the queue ended after a failed write, the pump left its loop at the deadline and every message that had arrived by then was handed out |
| ReferenceEnd.DeadlineReadsAll | rust/wasmtime/src/websocket.rs:748-829 | a run that leaves the loop at its deadline has read everything that had arrived |
| ReferenceClose.ClosedAnswersExactly | rust/wasmtime/src/websocket.rs:750-775 | in every reachable state after a local close, all later answers of sends are `closed`, whatever comes, if and only if no send is pending, or the wire is closing, the write half dead or the loop left |
| ReferenceClose.InFlightSendMayFlush | rust/wasmtime/src/websocket.rs:859-897 | a run in which a send whose write is in progress at the local close is answered `Ok` |
| ReferenceCalls.PollAnswers | rust/wasmtime/src/host.rs:393-421 | in every reachable state a pending `receive` can be polled, and the poll gives it the answer the labels so far owe it: the claim, the local close, the next message, or at the queue's end the overflow or `closed`; owed nothing, it changes nothing |
| ReferenceCalls.ReceiveIsPending | rust/wasmtime/src/host.rs:393-421 | a new `receive` is refused at once after a local close or a claim, else it is pending |
| ReferenceCalls.StreamAnswers | rust/wasmtime/src/host.rs:206-244 | in every reachable state the claimed stream gets what the labels owe it: the end after a local close or at the queue's end, else the next message |
| ReferenceCalls.ClaimsAndWaits | rust/wasmtime/src/websocket.rs:606-616 | in every reachable state a claim is answered as the labels say; once the pump is done `wait-closed` is answered, with the first close frame of the trace |
| ReferenceCalls.StateIsExact | rust/wasmtime/src/websocket.rs:65-87 | in every run the reported state is closed exactly once finalized, closing exactly once the wire closes, the guest closed or finalization says so, and open before |
| ReferenceCalls.NoCallIsLost | rust/wasmtime/src/websocket.rs:640-695 | in every run each `receive` was answered once or is pending, each `send` was taken or refused at the call, and the answers shown are the acks in order |
| ReferenceCalls.WaitClosedIsFirstRead | rust/wasmtime/src/websocket.rs:783-796 | in every run each `wait-closed` yields the first close frame read, and what was read is what the peer sent up to what still waits |
| ReferenceCalls.WaitClosedReports | rust/wasmtime/src/websocket.rs:397-410 | when the peer's first close frame was read, each `wait-closed` yields its code and reason, and 1005 with no reason when it had no body |
| ReferenceWritten.MessagesInEveryRun | rust/wasmtime/src/websocket.rs:750-762 | in every run each data frame written carries the message given to the `send` call it bears the number of |
| ReferenceWritten.CloseFrameInEveryRun | rust/wasmtime/src/websocket.rs:562-570 | in every run a close frame written follows what ended acceptance: after a local close the code and reason of the first valid `close`, without a body if it named no code; after the peer's close its frame; after an overflow no body; a wire that closes while writes go through got one |
| ReferenceTurns.CommandsGoFirst | rust/wasmtime/src/websocket.rs:744-829 | the biased select: while a command waits at the loop's head nothing else is done and nothing is read, and bytes come before an expired deadline |
| ReferenceTurns.PingIsFlushed | rust/wasmtime/src/websocket.rs:797-800 | in every reachable state a ping that is read starts a flush that races the armed deadline, unless the write half is dead; other control frames change nothing |
| ReferenceTurns.SendIsTaken | rust/wasmtime/src/websocket.rs:640-660 | in every reachable state `send` and `close` can be called until a local close; a send is taken while neither the guest nor the queue's end closed the connection, and refused after a local close and once the pump is done |
| ReferenceTurns.WriteAnswers | rust/wasmtime/src/websocket.rs:859-897 | a send is answered as its write ended, `closed` when it stalled past the deadline; either failure is the end of the write half |
| ReferenceTurns.FailuresInEveryRun | rust/wasmtime/src/websocket.rs:750-763 | in every run a send fails only after something ended acceptance or a write died |
| ReferenceTurns.EndIsReadLast | rust/wasmtime/src/websocket.rs:802-818 | in every run nothing is read after a message past the transport's cap or after the transport's end |
| ReferenceBudget.DeliverIsReserve | rust/wasmtime/src/websocket.rs:915-926 | a delivery is one whole `reserve` of the atomic queue with the send that follows it |
| ReferenceBudget.RunIsOps | rust/wasmtime/src/websocket.rs:134-176 | over every run the pump's queue, counter and latch are what its reserves, pops and releases make of the atomic queue |
| ReferenceTermination.SendsInEveryRun | rust/wasmtime/src/websocket.rs:750-775 | acks answer the sends once, in command order: `Ok`s, then errors of which at most the first is not `closed`; the acknowledged sends are, in order, the first data frames written, with at most one more; at most one close frame, nothing after it |
| ReferenceTermination.DeadlineNeverMoves | rust/wasmtime/src/websocket.rs:847-852 | an armed deadline stays where it is for the rest of any run |
| ReferenceTermination.ClosingIsBounded | rust/wasmtime/src/websocket.rs:854-909 | a closing wire or a dead write half has a deadline; once it passed the pump is done, and it is at most one close timeout after a local close; a write in progress races exactly the deadline |
| ReferenceTermination.PumpStepDecreases | rust/wasmtime/src/websocket.rs:744-844 | every step of the pump decreases the measure of its remaining work |
| ReferenceTermination.PumpStepsArePaid | rust/wasmtime/src/websocket.rs:744-844 | in any run the pump takes no more steps than its work at the start and what the outside added pay for |
| ReferenceTermination.NeverStuckPastDeadline | rust/wasmtime/src/websocket.rs:819-828 | past an armed deadline a pump step is due and time waits for it |
| ReferenceTermination.FinalizesPastDeadline | rust/wasmtime/src/websocket.rs:819-845 | taking the due steps finalizes the pump within its measure |
| ReferenceTermination.PastDeadlineItEnds | rust/wasmtime/src/websocket.rs:744-844 | in every run from a state past its deadline the pump takes at most as many steps as its work and what the outside added pay for, is done once it took that many, and is done whenever it has no step left |
| ReferenceInvariants.ControlKept | rust/wasmtime/src/websocket.rs:711-909 | every step keeps the latches, the bound of the write in progress and the order of the finalizing statements |
| ReferenceInvariants.BudgetKept | rust/wasmtime/src/websocket.rs:161-176 | every step keeps the counter at the queued bytes plus those of the message being handed over, within the bound |
| ReferenceInvariants.CauseKept | rust/wasmtime/src/websocket.rs:750-852 | every step keeps: an armed deadline and a close command have a cause, and no send is queued behind a close command |
| ReferenceInvariants.TimeKept | rust/wasmtime/src/websocket.rs:847-909 | every step keeps the deadline within one close timeout, met, and armed at the instant a local close is acted on |
| ReferenceSends.WireKept | rust/wasmtime/src/websocket.rs:859-909 | every step keeps the ledger between acks and frames |
| ReferenceTask.Pump.ArmDeadline | rust/wasmtime/src/websocket.rs:847-852 | `arm_deadline`: idempotent |
| ReferenceTask.Pump.StartBoundedWrite | rust/wasmtime/src/websocket.rs:859-874 | the start of `bounded_write` is the machine's: a dead write half fails it without touching the transport |
| ReferenceTask.Pump.EndBoundedWrite | rust/wasmtime/src/websocket.rs:868-897 | the end of `bounded_write`: a failure or stall kills the write half and arms the deadline, then the ack |
| ReferenceTask.Pump.BeginClose | rust/wasmtime/src/websocket.rs:901-909 | `begin_close` is the machine's: once, with the deadline armed before the write |
| ReferenceTask.Pump.Deliver | rust/wasmtime/src/websocket.rs:915-926 | `deliver`: accepted within the budget, dropped while closing, else the overflow and the close |
| ReferenceTask.Pump.OnCommand | rust/wasmtime/src/websocket.rs:750-775 | the command arm of the select |
| ReferenceTask.Pump.OnPeerClose | rust/wasmtime/src/websocket.rs:783-796 | the first close frame is kept, the deadline armed, the reply flushed once |
| ReferenceTask.Pump.OnRead | rust/wasmtime/src/websocket.rs:776-818 | the read arm of the select |
| ReferenceTask.Pump.FinalizeTurn | rust/wasmtime/src/websocket.rs:832-844 | the statements after the loop, in their order |
| ReferenceTask.Pump.Send | rust/wasmtime/src/websocket.rs:640-660 | a send is refused once locally closed or the channel closed, else enqueued |
| ReferenceTask.Pump.Close | rust/wasmtime/src/websocket.rs:562-570 | invalid arguments fail; the first valid close advances the state, fires the latch and owes its command; later ones do nothing |
| ReferenceTask.Pump.PollReceive | rust/wasmtime/src/host.rs:393-421 | a pending `receive` sees the claim, then the local close, then the queue |
| ReferenceTask.Pump.PollStream | rust/wasmtime/src/host.rs:206-244 | the stream ends at a local close, else takes the queue in order |
| ReferenceTask.Pump.Claim | rust/wasmtime/src/websocket.rs:606-616 | only the first claim succeeds |
| ReferenceTask.Pump.Run | rust/wasmtime/src/websocket.rs:734-845 | the object driven by any schedule is where the machine is, and has shown what it shows; from the start that is a run of the contract that delivers what the peer sent |
| GuestRefinement.StepMatches | rust/guest-provider/src/pump.rs:358-566 | every step of the in-guest connection is allowed by the contract from a related state, and leads to one |
| GuestRefinement.ImplementsContract | rust/guest-provider/src/pump.rs:269-589 | every run of the in-guest connection, for every interleaving of its two tasks, the feeder and the guest, is a run of the contract |
| GuestDelivery.RunInputs | rust/guest-provider/src/pump.rs:425-556 | what a run took from the protocol core is exactly what the core decoded and reported, in order; the final drain stops at a close frame or the first error |
| GuestDelivery.DeliversWhatTheCoreRead | rust/guest-provider/src/pump.rs:420-566 | the guest is handed, in order and each once, a prefix of the messages the core decoded before acceptance ended; all of them once a read or the stream finds the end with no local close, which then has a cause; `wait-closed` is the first decoded close frame or none, where a frame without a body reads 1005 with no reason |
| GuestEnd.FoundEndSaysWhy | rust/guest-provider/src/pump.rs:420-566 | in every run, whoever finds the end with no local close was handed all the decoded messages before the item that ended acceptance, or all that were decoded when the deadline expired |
| GuestEnd.DeadWriteDeliversAll | rust/guest-provider/src/pump.rs:494-511 | when the queue ended after a failed write, the reader left at the expired deadline from its select, and every message decoded by then was handed out |
| GuestClose.ClosedAnswersExactly | rust/guest-provider/src/pump.rs:364-408 | in every reachable state after a local close, all later answers of sends are `closed`, whatever comes, if and only if the write half is dead, or no send is in flight and the channel holds none that would be encoded |
| GuestCalls.PollAnswers | rust/guest-provider/src/lib.rs:87-107 | in every reachable state a pending `receive` can be polled, and the poll gives it the answer the labels so far owe it, or changes nothing |
| GuestCalls.ReceiveIsPending | rust/guest-provider/src/lib.rs:87-107 | a new `receive` is refused at once after a local close or a claim, else it is pending |
| GuestCalls.FeederAnswers | rust/guest-provider/src/lib.rs:175-207 | in every reachable state the feeder's turn gives the stream what the labels owe it, and the feeder ends exactly with the stream |
| GuestCalls.ClaimsAndWaits | rust/guest-provider/src/lib.rs:164-174 | in every reachable state a claim is answered as the labels say; once the pump is done `wait-closed` is answered, with the first close frame of the trace |
| GuestCalls.StateIsExact | rust/guest-provider/src/pump.rs:41-60 | in every run the reported state is closed exactly once finalized, closing once the guest or the peer closed, and open before; a claimed stream has its feeder, or its claim waits for the command task, or it ended |
| GuestCalls.NoCallIsLost | rust/guest-provider/src/lib.rs:65-107 | in every run each `receive` was answered once or is pending, each `send` was taken or refused at the call, and the answers shown are the acks in order |
| GuestCalls.WaitClosedIsFirstRead | rust/guest-provider/src/pump.rs:456-470 | in every run each `wait-closed` yields the first close frame the core decoded, none if it decoded none |
| GuestCalls.WaitClosedReports | rust/guest-provider/src/pump.rs:456-470 | when a read decodes the first close frame, each `wait-closed` yields its code and reason, and 1005 with no reason when it had no body |
| GuestWritten.MessagesInEveryRun | rust/guest-provider/src/pump.rs:321-332 | in every run the core was handed messages given to `send`, in the order of the calls, each at most once; a send answered `Ok` is among them |
| GuestWritten.CloseFrameInEveryRun | rust/guest-provider/src/pump.rs:335-346 | in every run at most one close is handed to the core, and it follows what ended acceptance: after a local close it carries the code and reason of the first valid `close`, after an overflow no body; a wire that closes for either cause got it |
| GuestTurns.NothingIsLeftUnflushed | rust/guest-provider/src/pump.rs:274-346 | in every run what the core wrote, for a message, a close, a ping or the peer's close, is drained or a flush waits to drain it, unless the write half is dead or the pump is done |
| GuestTurns.EncodingsAreWritten | rust/guest-provider/src/pump.rs:321-346 | a message or a close that the core encodes on a healthy connection is written as it encoded it and flushed by the task that gave it; a send waits for its own bytes where they stand |
| GuestTurns.OverflowIsClosed | rust/guest-provider/src/pump.rs:428-444 | a message that overflows the bound, or the cap, keeps the backlog, and the close the core encodes for it is written and flushed by the reader, which leaves after the cap |
| GuestTurns.RepliesAreWritten | rust/guest-provider/src/pump.rs:456-473 | what the core wrote in answer to a ping or a close frame goes out as it wrote it, by a flush before the next read |
| GuestTurns.TurnsAreTaken | rust/guest-provider/src/pump.rs:364-408 | an idle command task takes a waiting command, before the pump's end as after it, where it first sees the end; time waits for it and for a reader that drains |
| GuestTurns.ReaderTurns | rust/guest-provider/src/pump.rs:424-519 | a chunk makes the reader drain the core, and it waits again only when the core has nothing more |
| GuestTurns.SendIsTaken | rust/guest-provider/src/lib.rs:65-85 | in every reachable state a send is taken unless the guest closed, and refused after that |
| GuestTurns.ErrorsInEveryRun | rust/guest-provider/src/pump.rs:274-356 | in every run a send fails with `closed`, or with an error the core refused a message with |
| GuestTurns.FailuresInEveryRun | rust/guest-provider/src/pump.rs:321-332 | in every run a send fails only after something ended acceptance or a write died, or with an error the core gave |
| GuestTurns.EndIsReadLast | rust/guest-provider/src/pump.rs:481-519 | in every run nothing is read after a message past the cap, or after the stream's end and its final drain |
| GuestInvariants.FlushKeeps | rust/guest-provider/src/pump.rs:274-317 | every step of a flush keeps accepted bytes a prefix of written ones, and drained ones under the lock |
| GuestInvariants.FlushOkMeansAccepted | rust/guest-provider/src/pump.rs:274-317 | a flush that returns `Ok` leaves everything written before its drain accepted |
| GuestTime.BytesInEveryRun | rust/guest-provider/src/pump.rs:274-331 | accepted bytes are a prefix of written ones; drained but unaccepted bytes exist only under the write lock or with the write half dead; an acknowledged send has all its bytes accepted, whichever task's flush carried them |
| GuestTime.SendsInEveryRun | rust/guest-provider/src/pump.rs:365-408 | sends are answered at most once, in command order |
| GuestTime.LocalCloseIsBounded | rust/guest-provider/src/pump.rs:287-316 | the pump is finalized within one close timeout of a local close; time never passes a write's deadline |
| GuestTime.CauseKept | rust/guest-provider/src/pump.rs:335-393 | every step keeps: an armed deadline and a flush before the reader leaves have a cause, and no send is queued behind a close command |
| GuestTime.DeadlineOverrunExactly | rust/guest-provider/src/pump.rs:287-297 | time passes the deadline of a live reader exactly when it waits for the lock behind a write that began without one, with no local close |
| GuestTime.DeadlineCanBeOverrun | rust/guest-provider/src/pump.rs:462-467 | a run that overruns the deadline by any given time |
| GuestBounds.BoundFromStart | rust/guest-provider/src/pump.rs:287-297 | a flush that starts with the deadline armed, or sees a local close, races the deadline |
| GuestBounds.WriteEndsByDeadline | rust/guest-provider/src/pump.rs:301-316 | while such a write lasts, in any interleaving, time does not pass the deadline |
| GuestBounds.ExpiredReaderLeaves | rust/guest-provider/src/pump.rs:494-566 | a reader at its select past the deadline can only leave, whatever bytes are there, and latches the outcome before the queue's end |
| GuestTask.Pump.Reserve | rust/guest-provider/src/pump.rs:124-134 | fits exactly when not overflowed and within the bound; otherwise the overflow latches |
| GuestTask.Pump.Deliver | rust/guest-provider/src/pump.rs:572-589 | `deliver` is the machine's |
| GuestTask.Pump.StartFlush | rust/guest-provider/src/pump.rs:274-297 | `flush_outbound` up to its write |
| GuestTask.Pump.WriteTurn | rust/guest-provider/src/pump.rs:299-316 | what a write in progress may meet |
| GuestTask.Pump.BeginClose | rust/guest-provider/src/pump.rs:335-344 | `begin_close` up to its flush |
| GuestTask.Pump.OnCommand | rust/guest-provider/src/pump.rs:364-393 | the live phase of the command task |
| GuestTask.Pump.OnLateCommand | rust/guest-provider/src/pump.rs:398-408 | its phase after the pump finalized |
| GuestTask.Pump.OnRead | rust/guest-provider/src/pump.rs:425-492 | one step of draining the core |
| GuestTask.Pump.DrainRest | rust/guest-provider/src/pump.rs:518-555 | the final drain loop, to a close frame or the first error |
| GuestTask.Pump.Finalize | rust/guest-provider/src/pump.rs:559-566 | outcome, state, end of the queue, in that order |
| GuestTask.Pump.Send | rust/guest-provider/src/lib.rs:65-85 | refused once locally closed, else enqueued |
| GuestTask.Pump.Close | rust/guest-provider/src/lib.rs:236-247 | as the reference's, with its command enqueued at once |
| GuestTask.Pump.PollReceive | rust/guest-provider/src/lib.rs:99-107 | the claim, then the local close, then the queue |
| GuestTask.Pump.PollFeeder | rust/guest-provider/src/lib.rs:175-207 | one turn of the feeder's loop |
| GuestTask.Pump.Claim | rust/guest-provider/src/lib.rs:164-221 | only the first claim succeeds and gets a feeder |
| GuestTask.Pump.Run | rust/guest-provider/src/pump.rs:358-566 | the object driven by any schedule is where the machine is, and has shown what it shows; from the start that is a run of the contract that delivers what the core decoded |
| JsQueue.IncomingQueue.HandleMessage | js/polyengine/websocket.ts:777-812 | a message overflows, is handed to the first waiter, or is queued and counted |
| JsQueue.IncomingQueue.Next | js/polyengine/websocket.ts:827-838 | the backlog first, then the overflow, then the end, else a waiter |
| JsQueue.IncomingQueue.RejectPending | js/polyengine/websocket.ts:839-843 | every waiter is rejected once, in order |
| JsQueue.IncomingQueue.Finish | js/polyengine/websocket.ts:814-822 | the first end rejects the waiters, later ones do nothing |
| JsQueue.IncomingQueue.DiscardBacklog | js/polyengine/websocket.ts:847-854 | the backlog is dropped and the queue closed |
| JsQueue.OnMessageKeeps | js/polyengine/websocket.ts:777-812 | a pending waiter means an empty backlog; the counter is the backlog's bytes, within the bound |
| QueueEquivalence.StepCoupled | js/polyengine/websocket.ts:765-856 | each step keeps the JavaScript and the Rust queue coupled and gives the same answers but for early refusals |
| QueueEquivalence.QueuesAgree | js/polyengine/websocket.ts:765-856 | for every sequence of arrivals, receives and an end: same backlog and count; same answers in the same order without an overflow; the same answers once ended |
| JsHost.TimeKept | js/polyengine/websocket.ts:646-751 | every step keeps a timer for a connection that closes from this side |
| JsRefinement.StepMatches | js/polyengine/websocket.ts:500-751 | every step of the JavaScript host is allowed by the contract from a related state, and leads to one |
| JsRefinement.ImplementsContract | js/polyengine/websocket.ts:500-856 | every run of the JavaScript host is a run of the contract |
| JsRefinement.ClosingIsBounded | js/polyengine/websocket.ts:646-692 | a waiter never waits while a message is queued; a connection closed locally or by an overflow has settled one close timeout later |
| JsRefinement.TimerSettles | js/polyengine/websocket.ts:653-653 | at that instant a timer is there, and firing it settles |
| JsDelivery.DeliversWhatThePlatformSent | js/polyengine/websocket.ts:733-812 | the guest is handed, in order and each once, a prefix of the message events before acceptance ended; all of them once a read or the stream finds the end with no local close, which then has a cause; `wait-closed` is the close event's frame, or none for the codes 0, 1006 and 1015 |
| JsDelivery.FoundEndNamesItsEvent | js/polyengine/websocket.ts:733-812 | in every run, whoever finds the end with no local close was handed all message events before the platform event that ended acceptance |
| JsClose.ClosedAnswers | js/polyengine/websocket.ts:500-517 | in every continuation of a state with a local close all later answers of sends are `closed` |
| JsClose.SentOnlyBeforeClose | js/polyengine/websocket.ts:500-517 | in every run a send answered after the local close is answered `closed` |
| JsCalls.SendsAnswered | js/polyengine/websocket.ts:500-517 | in every reachable state: after anything ended acceptance (a local close, the peer's, an overflow, the platform's end) each send is refused at the call and each polling one answered `closed` at its next poll; before that a send is taken, and answered once the buffer drained, `Ok` unless the platform throws |
| JsCalls.SentBeforeAnyClose | js/polyengine/websocket.ts:500-503 | in every run a send answered `Ok` was answered before anything ended acceptance |
| JsCalls.ReceiveAnswered | js/polyengine/websocket.ts:523-529 | in every reachable state a `receive` is refused after a local close or a claim, else gets the next message, the overflow, or `closed`, as the labels say, or waits |
| JsCalls.PullAnswered | js/polyengine/websocket.ts:603-622 | in every reachable state a pull gets the next message or the end, as the labels say, or waits |
| JsCalls.MessageAnswers | js/polyengine/websocket.ts:785-812 | in every reachable state a message that fits goes to the one waiting read, or is queued when none waits; one that does not fit overflows |
| JsCalls.ClaimsAndWaits | js/polyengine/websocket.ts:596-706 | in every reachable state a claim is answered as the labels say and rejects each pending `receive`; `wait-closed` yields the outcome once settled; the reported state is closed once settled, closing once anything ended acceptance, else open; the first valid `close` fails each pending read |
| JsCalls.NoCallIsLost | js/polyengine/websocket.ts:523-638 | in every run each `receive`, each pull and each `wait-closed` was answered once or is pending; none is pending once settled |
| JsWritten.MessagesInEveryRun | js/polyengine/websocket.ts:509-516 | in every run the messages passed to the platform's `send` are, in order, those given to the sends answered `Ok` |
| JsWritten.ClosesInEveryRun | js/polyengine/websocket.ts:646-671 | in every run the platform's `close` was called without arguments if the connection overflowed, then with the code and reason of the first valid `close`, and not again |
| JsWritten.SettlesBy | js/polyengine/websocket.ts:733-751 | the first close event or timer settles, to the event's frame or none, and stops the timer the deadline field holds; later ones change nothing of it |
| JsWritten.WaitClosedReports | js/polyengine/websocket.ts:733-751 | in every run each `wait-closed` yields the code and reason of the first close event, or none for a timer that fired first and for the codes 0, 1006 and 1015 |
| JsWebsocket.Websocket.OnMessageEvent | js/polyengine/websocket.ts:785-812 | the `message` listener with the overflow's close |
| JsWebsocket.Websocket.Receive | js/polyengine/websocket.ts:523-529 | `receive` |
| JsWebsocket.Websocket.ReceiveViaStream | js/polyengine/websocket.ts:596-601 | the claim rejects pending receivers |
| JsWebsocket.Websocket.Pull | js/polyengine/websocket.ts:603-622 | a pull of the claimed stream |
| JsWebsocket.Websocket.Close | js/polyengine/websocket.ts:646-671 | `close`: the first valid call latches, discards, arms a new timer and closes the socket |
| JsWebsocket.Websocket.TransportClosing | js/polyengine/websocket.ts:689-693 | an overflow arms a timer unless one is armed or the outcome settled |
| JsWebsocket.Websocket.State | js/polyengine/websocket.ts:695-706 | `state` |
| JsWebsocket.Websocket.SettleClosed | js/polyengine/websocket.ts:733-751 | the first settlement ends the queue, latches the outcome and answers every waiter |
| JsWebsocket.Websocket.OnCloseEvent | js/polyengine/websocket.ts:305-309 | codes no frame carried settle to none |
| JsWebsocket.Websocket.WaitForClose | js/polyengine/websocket.ts:635-638 | `wait-closed`, settled or not |
| JsWebsocket.Websocket.Send | js/polyengine/websocket.ts:500-517 | the first turn of `send`'s loop |
| JsWebsocket.Websocket.SendAgain | js/polyengine/websocket.ts:500-517 | a later turn, after the wait for the platform's buffer |
| JsWebsocket.Websocket.Run | js/polyengine/websocket.ts:477-751 | the object driven by any sequence of events and calls is where the machine is, and has shown what it shows; from the start that is a run of the contract that delivers the platform's messages |
| InboundBudget.TransportCap | rust/wasmtime/src/websocket.rs:439-449 | the transport cap fits the word, is at least the inbound bound and 64 MiB, and twice the bound where that fits |
| InboundBudget.ReferenceCheckExact | rust/wasmtime/src/websocket.rs:134-144 | exactly when the saturating check is the mathematical one |
| InboundBudget.GuestCheckExact | rust/guest-provider/src/pump.rs:124-134 | on 32 bits the in-guest check decides as the reference's for every reachable use and message exactly when three bounds fit the word, or the bound is the whole word |
| InboundBudget.AtomAccounted | rust/wasmtime/src/websocket.rs:134-148 | each atomic step keeps the counter at queued plus reserved plus unreleased bytes, and neither addition nor subtraction wraps |
| InboundBudget.AtomRefines | rust/wasmtime/src/websocket.rs:134-176 | each atomic step is its step of an atomic queue: `reserve` takes effect at the load that decides it |
| InboundBudget.RunRefines | rust/wasmtime/src/websocket.rs:134-176 | every interleaving of the one reserving task with any readers is a run of whole `reserve` steps |
| PayloadCollectors.ChunkingIsInvisible | rust/wasmtime/src/host.rs:149-160 | absorbing any chunks is collecting their bytes at once |
| PayloadCollectors.AcceptedIffDeclared | rust/wasmtime/src/host.rs:465-475 | a payload is accepted exactly when it has the declared length, and then whole |
| PayloadCollectors.WordAcceptsExactly | rust/guest-provider/src/lib.rs:134-142 | on a machine word, what else is accepted is longer by a whole number of words |
| PayloadCollectors.ByteCollector.Consume | rust/wasmtime/src/host.rs:149-160 | the chunk-truncating collector has the first bytes and the excess of all it saw |
| PayloadCollectors.ByteCollector.Finish | rust/wasmtime/src/host.rs:126-135 | only the first finish hands the result over |
| PayloadCollectors.CollectPayload | rust/guest-provider/src/lib.rs:273-295 | the byte-at-a-time collector yields the same, for every chunking |
| PayloadCollectors.CollectByteStream | js/polyengine/websocket.ts:916-971 | the chunk-listing collector yields the same, for every source; a branded stream ends at its first empty read |
| SendViaStream.OneAccount | rust/wasmtime/src/host.rs:451-506 | the elements and what the world does determine which step ends the call, what was handed over and what is counted |
| SendViaStream.HandsOverInOrder | rust/wasmtime/src/host.rs:451-506 | what is handed over is an in-order prefix of the well-formed front of the input; `sent` is all of it but a last send that failed or was interrupted; undisturbed it is the whole front |
| SendViaStream.PreparedExactly | rust/wasmtime/src/host.rs:465-491 | an element is well-formed exactly when its payload has the declared length and, for text, is UTF-8; its message carries the payload itself if and only if it is binary, or the decoder is strict, or the payload starts with no byte order mark |
| SendViaStream.MarkIsDropped | js/polyengine/websocket.ts:553-564 | a text element of four bytes, EF BB BF 61, of which the JavaScript host sends the last |
| SendViaStream.ReferenceHandsPayloads | rust/wasmtime/src/host.rs:476-493 | every message the reference driver hands over carries its element's payload |
| SendViaStream.GuestHandsPayloads | rust/guest-provider/src/lib.rs:143-156 | every message the in-guest driver hands over carries its element's payload |
| SendViaStream.JsHandsPayloads | js/polyengine/websocket.ts:553-570 | a message the JavaScript driver hands over carries its element's payload if and only if it is binary or the payload does not start with EF BB BF; otherwise it lacks these three bytes |
| SendViaStream.ReferenceSendViaStream | rust/wasmtime/src/host.rs:424-507 | the reference driver: the call ends at the first step that fails, with what was handed over and counted until then |
| SendViaStream.GuestSendViaStream | rust/guest-provider/src/lib.rs:109-162 | the in-guest driver: the same, but a send on its way is not interrupted |
| SendViaStream.JsSendViaStream | js/polyengine/websocket.ts:535-583 | the JavaScript driver: the same with the platform's decoder; no send is interrupted |
| VirtualTransport.NothingLost | rust/guest-provider/src/io.rs:40-74 | what was there and was fed is what was read and is left, in order |
| VirtualTransport.ReadsArePrefix | rust/guest-provider/src/io.rs:58-74 | bytes read are a prefix of bytes fed; end of file is reported exactly when the end is set and all was read |
| VirtualTransport.EofStays | rust/guest-provider/src/io.rs:58-74 | once reported, the end stays |
| VirtualTransport.VirtualIo.Read | rust/guest-provider/src/io.rs:59-73 | fills the buffer from the front of the queue and leaves the rest of the buffer alone |
| VirtualTransport.VirtualIo.Write | rust/guest-provider/src/io.rs:77-80 | appends everything |
| VirtualTransport.IoHandle.Feed | rust/guest-provider/src/io.rs:40-42 | appends to the shared inbound bytes |
| VirtualTransport.IoHandle.DrainOutbound | rust/guest-provider/src/io.rs:49-51 | takes everything written since the last drain |
| VirtualTransport.DriveHandshake | rust/guest-provider/src/connect.rs:179-213 | how the handshake ends, what it sent and what it received until then; what it did not read of that waits in the pipe, in order; what it wrote reached the network in order |
| VirtualTransport.PumpReads | rust/guest-provider/src/pump.rs:425-519 | the pump goes on with what the handshake left: it stops exactly when the core does, and unless it stopped it has read all the connection received, in order, and the end is set after all of it |
| VirtualTransport.Connect | rust/guest-provider/src/connect.rs:179-213 | handshake and pump together: how the handshake ends and whether the core stopped; what the core read is a prefix, in order, of what the connection received, and all of it unless the core stopped |
| Subprotocol.ValidatorsAgree | rust/wasmtime/src/websocket.rs:353-358 | the four token validators accept exactly the tokens of section 2.2 of RFC 2616, on UTF-8 bytes and UTF-16 units |
| Subprotocol.OffersAgree | rust/guest-provider/src/connect.rs:363-380 | for every offer the Rust and the JavaScript host validators reach the same verdict at the same entry |
| Subprotocol.OneVerdict | rust/wasmtime/src/websocket.rs:362-372 | an offer has one verdict |
| Subprotocol.ValidateProtocols | rust/wasmtime/src/websocket.rs:362-372 | the first entry that is not a token or repeats an earlier one |
| Subprotocol.JsToken | js/polyengine/websocket.ts:215-223 | the loop over units accepts exactly the non-empty strings of token units |
| Subprotocol.JsValidateProtocols | js/polyengine/websocket.ts:256-272 | the same verdict by first index |
| Subprotocol.ShimValidateProtocols | js/componentize/websocket.js:285-306 | accepts exactly tokens distinct up to case |
| Subprotocol.LowerExactly | js/componentize/websocket.js:285-306 | two units agree in lower case exactly when they are equal or one letter in two cases |
| Subprotocol.ShimIsStricter | js/componentize/websocket.js:285-306 | what the shim accepts the host accepts, and not conversely |
| SubprotocolOffer.OfferRoundTrip | conformance/server/src/lib.rs:334-341 | joining a validated offer and splitting it with trimming gives the offer back |
| SubprotocolOffer.AnyOfferParses | conformance/server/src/lib.rs:334-341 | any list of tokens, over any header lines and with any spaces and tabs around the commas, is read as the tokens in order |
| SubprotocolOffer.QueryRoundTrip | conformance/server/src/lib.rs:226-231 | a printed query is read back as the first value of each key |
| SubprotocolOffer.AttemptSucceedsIff | rust/wasmtime/src/websocket.rs:504-517 | end to end, the client's check accepts exactly when nothing was offered or the name the server wants was; a forced name exactly when it was offered, and the failure says whether anything was selected and anything offered |
| BrowserShim.SendsInEveryRun | js/componentize/websocket.js:423-490 | `bufferedAmount` is the bytes of unsettled sends plus those discarded outside OPEN; WIT sends are issued in `send` order |
| BrowserShim.ClosesInEveryRun | js/componentize/websocket.js:541-612 | one close event once settled or failed, none before; an open event only first; an error event exactly before an unclean close; after a close during the handshake no open, no message, no clean close; the host's `close` called at most once |
| BrowserShim.CloseArgumentsAgree | js/componentize/websocket.js:496-539 | no argument pair the class accepts is rejected by the host's validator, and what the host accepts passes unchanged |
| BrowserShim.RunKeeps | js/componentize/websocket.js:423-612 | the ready state never goes back and dispatched events stay |
| BrowserEvents.EventsInEveryRun | js/componentize/websocket.js:541-612 | in every run from the start, off the schedule alone: the ready state; whether the open event was dispatched; what the class waits for; the close event carries exactly the code and reason of the settled outcome, or 1006 and no reason without one; the message events are the received messages in order; the WIT `close` got the reason and the whole code of the first accepted `close`, 1000 for a reason without a code |
| BrowserEvents.ChainTurns | js/componentize/websocket.js:440-488 | the chain of sends: a Blob is read first and passed on only if that succeeds, anything else at once; then the head leaves with its bytes; a turn is due as long as anything is queued |
| BrowserEvents.DataInEveryRun | js/componentize/websocket.js:423-490 | in every run from the start what was passed to the WIT `send` is the data of the sends made while open, and `bufferedAmount` is the bytes of the unsettled ones plus those given once closing |
| BrowserSocket.WebSocket.Send | js/componentize/websocket.js:423-490 | `send` |
| BrowserSocket.WebSocket.Close | js/componentize/websocket.js:496-519 | `close` |
| BrowserSocket.WebSocket.Establish | js/componentize/websocket.js:542-556 | the handshake's success, with a close requested meanwhile applied |
| BrowserSocket.WebSocket.Fail | js/componentize/websocket.js:558-566 | the handshake's failure |
| BrowserSocket.WebSocket.SettleClose | js/componentize/websocket.js:599-612 | the settlement |
| BrowserSocket.WebSocket.Drive | js/componentize/websocket.js:423-612 | the object driven by any schedule is where the machine is; from the start its `bufferedAmount`, its issued sends, its ready state, its events and what it passed to the WIT `close` are what the schedule calls for |
| Encodings.DecodeUtf8 | rust/wasmtime/src/host.rs:476-489 | strict decoding inverts UTF-8 |
| Encodings.Utf16Exactly | js/polyengine/websocket.ts:215-223 | a scalar is one unit, or from U+10000 on a high and a low surrogate that carry it |
| Encodings.DecodedReencodes | rust/guest-provider/src/lib.rs:143-156 | and accepts nothing but encodings |
| Encodings.TextDecoderExactly | js/polyengine/websocket.ts:553-562 | the platform's decoder accepts what strict decoding accepts, and its text encodes the bytes without a leading byte order mark |

## Left out

- tungstenite, tokio, wasmtime's stream plumbing, wit-bindgen and the platform `WebSocket` are not modelled: they are the sources of events under the hypotheses above.
- TLS, PEM parsing, name resolution, TCP connect and socket options: foreign calls with no state worth proving.
- URL validation: the implementations rest on different external parsers.
- Connect timeouts and aborts: the model starts at an open connection, except for the handshake's byte pipe and the browser class.
- Bindings, linker glue, context getters and setters, environment configuration, error texts.
- The conformance cases, drivers, the server's fault modes, the WPT harness and the demos: test plumbing.
- The fallback `Event`, `EventTarget` and `Blob` classes and the `on*` handler properties of the browser class.
- The exit of the in-guest command task after every handle is gone, and the fairness of its write lock: the code shown does not settle them.
- The in-guest pump's branch for a command channel without senders: the pump itself holds a sender, so it is not reached.
- The payload half of the stream feeder and of the reference's stream items (one `stream<u8>` a message): the message counts as handed over with its element.
- Contract.SentWasCalledBeforeClose: does not say what a send in flight is answered after a local close; the implementations differ, and `ReferenceClose`, `GuestClose` and `JsClose` say of each when all answers are `closed`.
- QueueEquivalence.QueuesAgree: compares arrivals, receives and an end; the rejections at a claim or a local close are the contract machine's (`Contract.SignalsWin`), and after an overflow they differ, because the JavaScript queue has refused some receivers already that the Rust one refuses only then.
- SubprotocolOffer.AttemptSucceedsIff: leaves out the handshake library's own check of the subprotocol header, which runs before the client's.
- JsRefinement.ImplementsContract: the wait of a send for the platform's buffer is a poll at any time, not every 4 ms.
- PayloadCollectors.CollectByteStream: counts with unbounded numbers; the source's numbers are exact below 2^53.
- GuestTask.Pump.Reserve: adds without a machine word; what the word does to the check is stated by `InboundBudget.GuestCheckExact`.
- ReferenceTask.Pump.Deliver: `reserve` is one step here; its atomic steps and the readers between them are in `InboundBudget`.
- BrowserShim.SendsInEveryRun: does not say that a send called before `close` reaches the wire before it: the code defers sends through its chain and calls `close` at once.
- BrowserShim.ClosesInEveryRun: does not exclude a message event after the close event: the receive loop and the settlement run concurrently.
