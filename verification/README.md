# Verified model of the firmware's protocol cores

A Dafny model of the parts of this CAN gateway firmware whose correctness is hardest to see by
reading: the hierarchical state machine engine and its two clients, the expression evaluator, the
CAN transmit slots, the TCP session takeover, the flash mirror, the trigger engine and the RealDash
frames. `dafny verify dfyconfig.toml` proves everything.

Every core comes in two forms. A *value* form (`Hsm`, `IsoTp`, `Precondition`, `Expression`,
`CanDo`, ...) says what each operation computes; the theorems are about it and hold for every input,
every run and every interleaving. A *class* form (`HsmEngine`, `IsoTpSender`, `PreconditionHandlers`,
`ExpressionEvaluator`, `CanDoEngine`, `CanTxPool`, `RealDash`, `Settings.MirroredSetting`) has the
fields, loops and in-place updates of the C code, and each of its methods is proved to compute its
counterpart on values. Code shared by several tasks (`CanTx`, `TcpServer`, `Settings`,
`IsoTpHandover`) is a step relation at the granularity of its locks, semaphores and atomics, with
theorems over every schedule (`Schedules`). Forms that describe the same code are tied together: a
dispatch of the transmitter is a sequence of the steps of its interleaved form, every interleaving of
its tasks on their shared memory is a run of its value form (`IsoTpTasks`), and the preconditioning
machine run by the engine, hooks, bubbling and chains included, is its value form.

What an operation means is stated apart from how it is computed: the callback order is read from the
engine's history (`HsmOrder`), the results and frames of a transfer from the bytes received and sent
(`IsoTpVerdict`), the preconditioning machine has a table of where every event, frame and tick leads,
with bytes and times written out (`PreconditionTable`, `PreconditionFilters`), expressions have a
grammar of their own with a level for each precedence (`ExpressionGrammar`), and byte patterns are
explained bit by bit (`CanDoBits`).

What the surroundings decide is an input: the clock, whether a send or a save succeeds, received
frames, the scheduler, the arithmetic on doubles, and for the engine everything a client's callbacks
do (a tape of behaviours, so that a theorem for all tapes is a theorem for all clients).

| modules | files modelled |
|---|---|
| `Hsm`, `HsmLaws`, `HsmOrder`, `HsmEngine` | `main/hsm.c`, contract in `main/hsm.h:6-38` |
| `IsoTp`, `IsoTpLaws`, `IsoTpVerdict`, `IsoTpTiming`, `IsoTpSender`, `IsoTpHandover`, `IsoTpTasks` | `main/isotp_tx.c`, against ISO 15765-2:2016 section 9.6 |
| `Precondition`, `PreconditionLaws`, `PreconditionClock`, `PreconditionRetries`, `PreconditionProgress`, `PreconditionTable`, `PreconditionChart`, `PreconditionEngine`, `PreconditionFilters`, `PreconditionHandlers` | `main/precondition.c` |
| `Expression`, `ExpressionGrammar`, `ExpressionEvaluator` | `main/expression_parser.c` |
| `CanTx`, `CanTxPool` | `main/can.c` |
| `TcpServer` | `main/comm_server.c` |
| `Settings` | `main/persistent_settings.c` |
| `CanDo`, `CanDoBits`, `CanDoLaws`, `CanDoTheorems`, `CanDoExactness`, `CanDoFiring`, `CanDoEngine` | `main/autopid.c` |
| `Crc32`, `RealDash` | `main/realdash.c`, against the CRC of section 8 of RFC 1952 |

## Where the code does less than its comments say

The model follows the code. Each of these is a theorem: the failure, by an input or for every input,
and when exactly the code does meet the claim.

- A request publishes its start before it writes its deadline (`main/isotp_tx.c:292-293`), and the
  worker may take the start in between. The requester's reading of the clock then overwrites the
  deadline of the transfer already open: the next tick gives up as if the receiver had been silent
  (`IsoTpTiming.SpuriousTimeout`), or a consecutive frame goes out without its separation time
  (`IsoTpTiming.EarlyFrame`), or the idle machine is left with a past deadline, against
  `main/isotp_tx.h:83-84`, and its worker spins until the next request (`IsoTpTiming.StaysDue`).
  Timing holds in every continuation if and only if the deadline was written first
  (`IsoTpTiming.TimingHoldsIffWritten`, `IsoTpTiming.NoDeadlineIffWritten`; under every interleaving,
  `IsoTpHandover.DeadlineIsOwnIffWritten`). What is sent is right regardless:
  `IsoTpLaws.TransfersAreCorrect`, `IsoTpTasks.CorrectUnderEveryInterleaving`.
- A limit of 255 wait frames (`main/isotp_tx.c:176-177`) is no limit: the eight-bit counter wraps
  before it exceeds it. Every smaller limit works. `IsoTpLaws.LimitOf255NeverTriggers`,
  `IsoTpLaws.TransferIsBounded`.
- `main/autopid.h:200` says that a reset identifier re-arms a one-shot latch. A trigger only ever
  sees frames of its own identifier (`main/autopid.c:3219`), so any other reset identifier never
  re-arms anything, and the trigger's own swallows every frame meant for it, so that it never fires.
  A confirmation (`main/autopid.h:192`) likewise only arrives under the trigger's own identifier, and
  then from exactly the frames that match. `CanDoTheorems.ResetAndVerifyNeedOwnIdentifier`,
  `CanDoExactness.ConfirmationsAreExact`.
- `main/autopid.h:201` says that a latch re-arms when the trigger is absent for some time; the code
  (`main/autopid.c:3513-3517`) measures from the last execution or confirmation, so a trigger asserted all
  the while is re-armed and executes again: `CanDoExactness.TimeoutRearmsWhileHeld`. Absence is honoured if and
  only if no frame offered to the trigger met the condition after that and within the timeout before the
  expiry:
  `CanDoExactness.ExpiryHonoursAbsenceIff`, `CanDoExactness.TimerHonoursAbsence`.
- The comment at `main/autopid.c:3378` speaks of a default cooldown of 500 ms; it is 50 ms, and a held
  button executes again after exactly that: `CanDoExactness.CooldownIsExact`.
- A full stack in the expression evaluator is not reported (`main/expression_parser.c:52-59`, results
  ignored). It never yields a wrong value: exactly the expressions that need more than 100 pending
  operators are rejected. `ExpressionGrammar.SentenceVerdict`, `Expression.Verdict`.
- The rollback of a failed transmit runs after the node lock is released (`main/can.c:860-868`). If
  the node is recreated in between, a slot in use can be handed out again, to two frames in flight at
  once; exactly that step can do it, every such reset has a continuation that does, and permits are
  never lost even then. `CanTx.LateRollbackSharesASlot`, `CanTx.OnlyLateRollbackStrips`,
  `CanTx.ResetWithRollbackStrips`, `CanTx.PermitsAreConserved`.
- Attempts to save one setting value are meant to be five seconds apart, four at most. A value replaced
  between a save and the rise of the generation is attempted at once, under the generation already
  seen: `Settings.SaveStartsANewBudget`. Two attempts of one generation share a budget if and only if
  no save succeeded in between: `Settings.OneGenerationOneBudget`.
- A send error that withdraws PORT_OPEN before the receive task has looked leaves the server unable
  to adopt any later client; no other ordering does, and in every other state another client can still
  be adopted. `TcpServer.OnlyWayToStuck`, `TcpServer.AdoptsUnlessStuck`, `TcpServer.StuckIsReachable`.
  Safety holds regardless.
- A RealDash frame does not carry the extended flag; `RealDash.SendAndReceive` says when it survives.

## Model

| member | source | states |
|---|---|---|
| HsmLaws.EveryRunIsWellNested | main/hsm.c:117-255 | for every chart of depth at most four, every client and every sequence of ticks, frames, filters and events: entries and exits form a well-nested word, every callback is invoked on an active state, what is open is the path of `current`, which is a leaf; nothing stays pending; entry times are those of the last entries; `leaf_ticks` counts completed ticks since leaf entry modulo 2^32 |
| HsmLaws.DispatchKeepsInv | main/hsm.c:145-255 | each single dispatch keeps that invariant, nested events and follow-up transitions included |
| HsmLaws.InitEstablishesInv | main/hsm.c:117-143 | initialisation establishes it |
| HsmLaws.TransitionOrder | main/hsm.c:52-94 | a transition exits the source innermost first down to the kept ancestors, then enters outermost first to the default leaf, stamped with the dispatch's time, and records nothing else |
| HsmLaws.KeepIsSharedAncestors | main/hsm.c:59-71 | a state stays active exactly when it is a proper ancestor of both source and target; so self and ancestor targets are exited and re-entered |
| HsmLaws.TransitionKeepsInv | main/hsm.c:52-94 | from any consistent state a transition ends in a leaf with a matching entry table |
| HsmLaws.DropsOnlyAfterEight | main/hsm.c:98-115 | transitions are applied as long as handlers request more, up to eight; a request is dropped only after exactly eight |
| HsmLaws.PureFiltersChangeNothing | main/hsm.c:206-231 | filters that request nothing, as the contract asks, leave all but clock and histories untouched |
| HsmLaws.TimeInIsSinceLastEntry | main/hsm.c:283-292 | the time in an active state is measured from its last entry; it is zero for an inactive one |
| HsmOrder.FwdOrder | main/hsm.c:206-231 | from the history: the filters asked are those of the active state and its ancestors, innermost first, up to and including the first that decides; the global filter comes before them and may decide alone; the answer is whether one decided |
| HsmOrder.RxOrder | main/hsm.c:177-204 | from the history: after the global callback, the states active by then that take frames are offered one each, innermost first; nothing is offered after a transition, and only a transition cuts the walk short |
| HsmOrder.TickOrder | main/hsm.c:145-175 | the same for ticks from the root inwards; the tick is completed, last of all, exactly when no transition interrupts it |
| HsmOrder.EventHistory | main/hsm.c:233-255 | from the history of an event whose handlers send no further ones: it is offered innermost first until one state claims it or a transition happens, and no state before the last claimed it |
| HsmOrder.EventOrder | main/hsm.c:233-255 | with any nested events: the walk asks exactly the list of states from the leaf outwards that take events, up to a claim or a transition |
| HsmOrder.LatestWins | main/hsm.c:261-268 | of several requests in one callback the last stands, target and argument |
| HsmOrder.ActionsInOrder | main/hsm.h:20-33 | what a callback does, it does in order; an event it sends is dispatched before it goes on |
| HsmOrder.RequestIsTaken | main/hsm.c:98-115 | a request ends, in one transition, in the default leaf of its target, with its argument for the enter handlers, unless those ask for more |
| HsmEngine.Engine.constructor | main/hsm.c:117-143 | the loops of `sm_init` compute the initial machine |
| HsmEngine.Engine.AncestorPath | main/hsm.c:23-38 | the two loops fill in exactly the path, or report zero for a state nested too deeply |
| HsmEngine.Engine.DoTransition | main/hsm.c:52-94 | path arrays and loops perform the transition on values |
| HsmEngine.Engine.ApplyIfPending | main/hsm.c:98-115 | the loop over pending transitions, eight at most, then the drop |
| HsmEngine.Engine.SendEvent | main/hsm.c:233-255 | the bubbling loop, for arbitrary nested sends |
| HsmEngine.Engine.Tick | main/hsm.c:145-175 | global hook, then root to leaf, cut short by any transition |
| HsmEngine.Engine.Rx | main/hsm.c:177-204 | global hook, then leaf to root, cut short by any transition |
| HsmEngine.Engine.Fwd | main/hsm.c:206-231 | the loop over filters computes the walk whose order and answer `HsmOrder.FwdOrder` states; requests are applied only at the end |
| HsmEngine.Engine.In | main/hsm.c:274-281 | true exactly for the states on the active path |
| IsoTpLaws.TransfersAreCorrect | main/isotp_tx.c:70-319 | for every sequence of requests, worker passes, bus failures and frames: a reference receiver holds a prefix of the payload, and the whole payload exactly when the result is SUCCESS; every consecutive frame was permitted by the flow-control frames received, as the standard reads their bytes: cleared by one, within its block, with its sequence number. Whenever requesters write their deadlines |
| IsoTpVerdict.ResultFollowsFromFrames | main/isotp_tx.c:124-234 | over every run the reported result is the one the frames sent and received show: success when the receiver has the payload; otherwise overflow or protocol error by the last frame received, timeout by waiting given up or held too often, send error by a refused frame, or still in progress |
| IsoTpVerdict.FramesOnTheWire | main/isotp_tx.c:82-106 | over every run the frames sent are byte for byte the first frames of the payload's segmentation, lengths, sequence numbers and padding included, and all of them on success |
| IsoTpVerdict.TurnFollowsFromFrames | main/isotp_tx.c:216-233 | over every run an open transfer waits for the receiver exactly when that has not spoken yet or its block is full, so every block is used up |
| IsoTpLaws.WaitRxReads | main/isotp_tx.c:108-193 | on a frame of the channel the waiting state does what the standard reads from its bytes: 30 goes on with the block size of byte 1 and the separation time of byte 2 by a table of its values, 31 holds, 32 and everything else end the transfer |
| IsoTpLaws.StepKeepsGood | main/isotp_tx.c:124-234 | each operation keeps the transfer invariant, eight-bit counter wraps included |
| IsoTpLaws.BlockBound | main/isotp_tx.c:216-233 | no block exceeds a nonzero block size, byte 1 of the flow-control frame in force |
| IsoTpLaws.SequenceNumbers | main/isotp_tx.c:203-218 | the k-th consecutive frame carries k modulo 16 |
| IsoTpLaws.HearConsecutive | main/isotp_tx.c:203-218 | one more frame extends what the receiver holds by its chunk, or completes the payload |
| IsoTpLaws.StepProgresses | main/isotp_tx.c:144-234 | with a wait limit below 255 every due tick or accepted flow-control frame lowers the measure of bytes, phase and wait budget; no other step raises it |
| IsoTpLaws.TransferIsBounded | main/isotp_tx.c:144-234 | such a transfer ends within that many effective steps, on every schedule |
| IsoTpLaws.LimitOf255NeverTriggers | main/isotp_tx.c:175-183 | with the limit 255, on an advancing clock, any wait frames with any ticks before the deadlines they set keep the transfer waiting, one effective step each |
| IsoTpLaws.AnyNumberOfWaits | main/isotp_tx.c:175-183 | there are such inputs for every number of wait frames and every period |
| IsoTpTiming.TimingIsObeyed | main/isotp_tx.c:146-234 | over every run in which no start is taken before its requester has written the deadline: consecutive frames keep the separation time of the flow-control frame in force, waiting is given up only after the whole timeout, and the idle machine has no deadline |
| IsoTpTiming.StepKeepsTimely | main/isotp_tx.c:124-234 | each operation leaves exactly the deadline that the flow control in force asks for |
| IsoTpTiming.Spacing | main/isotp_tx.c:197-234 | in a permitted and timely history two consecutive frames of one block, d apart, are at least d separation times apart in dispatch time, the time being that of byte 2 of the one flow-control frame in force |
| IsoTpTiming.TimingHoldsIffWritten | main/isotp_tx.c:292-293 | a start of several frames has just been taken, in any state: every continuation on an advancing clock keeps the timing if and only if the deadline was written before, or the timeout is zero and there is at most one consecutive frame |
| IsoTpTiming.NoDeadlineIffWritten | main/isotp_tx.h:83-84 | a start of any length has just been taken: no continuation leaves the idle machine with a deadline if and only if its deadline was written before |
| IsoTpTiming.SpuriousTimeout | main/isotp_tx.c:146-152 | after an early start, a continuation that times out at once, whatever the timeout |
| IsoTpTiming.EarlyFrame | main/isotp_tx.c:197-234 | after an early start, a continuation that sends two consecutive frames at one instant under a separation of 127 ms |
| IsoTpTiming.StaysDue | main/isotp_tx.c:334-354 | an idle machine left with a deadline keeps it through all ticks and frames until the next request |
| IsoTpHandover.HandoverIsSafe | main/isotp_tx.c:274-319 | under every interleaving of requester, worker and receive task, the deadline written after the start is published: each accepted start is dispatched exactly once, with the machine idle; the buffer is not written while a handler may read it; no start is left without a wake-up |
| IsoTpHandover.DeadlinesAreOwn | main/isotp_tx.c:46-74 | under every interleaving: unless the last start was taken before its deadline was written, the deadline of an open transfer is the one its handlers set last, no tick acts before it, and there is none while nothing is requested |
| IsoTpHandover.DeadlineIsOwnIffWritten | main/isotp_tx.c:292-319 | whenever the worker is about to take a start: in that transfer the deadline is always the handlers' own, and no tick acts before it, if and only if the requester has written its deadline by then |
| IsoTpHandover.LateWriteIsReachable | main/isotp_tx.c:288-293 | a schedule in which it has not |
| IsoTpHandover.StepKeepsBoth | main/isotp_tx.c:274-319 | each atomic step keeps the one-token invariant and the ownership of deadlines |
| IsoTpHandover.WorkIsSteps | main/isotp_tx.c:313-319 | a worker pass on values is a sequence of the worker's steps here, with the same deadline |
| IsoTpHandover.ReceiveIsSteps | main/isotp_tx.c:301-311 | so is the delivery of a frame |
| IsoTpHandover.OnlyReadersSend | main/isotp_tx.c:146-193 | handlers that may not read the payload add no frame to the history |
| IsoTpTasks.EveryScheduleIsARun | main/isotp_tx.c:46-319 | under every schedule of requesters that copy, publish and write late, of handlers that compute on the shared record and publish in several stores, and of the clock: the record agrees with a run of the value form, whose inputs are in the order of publications and computations |
| IsoTpTasks.CorrectUnderEveryInterleaving | main/isotp_tx.c:70-319 | so under every interleaving the frames sent are the first of the segmentation of the payload published last, the reference receiver holds a prefix of it, each frame was permitted, and between dispatches the result is what the frames show |
| IsoTpTasks.StepAgrees | main/isotp_tx.c:46-319 | each atomic step keeps that agreement and makes at most one step of the run |
| IsoTpTasks.GoingGoesOn | main/isotp_tx.c:124-234 | a handler at work can always compute, and publish what it has computed |
| IsoTpTasks.HandlersGoOn | main/isotp_tx.c:124-234 | before and after that it can go on to its end |
| IsoTpSender.Sender.Publish | main/isotp_tx.c:280-292 | a request copies the payload into the fixed buffer and publishes the start, or changes nothing; its deadline is then owed |
| IsoTpSender.Sender.WriteDeadline | main/isotp_tx.c:46-53 | the requester's reading becomes the deadline, whatever has happened since |
| IsoTpSender.Sender.Start | main/isotp_tx.c:274-299 | undisturbed, a request is those two |
| IsoTpSender.Sender.SendConsecutiveTick | main/isotp_tx.c:197-234 | the frame built byte by byte and the counters equal the tick on values |
| IsoTpSender.Sender.WaitFlowControlRx | main/isotp_tx.c:154-193 | every flow status, malformed frames and foreign frames |
| IsoTpSender.Sender.IdleEvent | main/isotp_tx.c:124-142 | single frame, first frame, or send error |
| IsoTpSender.Sender.Tick | main/isotp_tx.c:313-319 | a pending start is dispatched as an event, otherwise the leaf ticks |
| IsoTpSender.Sender.Rx | main/isotp_tx.c:301-311 | a frame is claimed exactly when a transfer is open and it is on the channel |
| PreconditionChart.TransitionsAgree | main/precondition.c:910-1000 | between any leaf and any target the engine, run on this state table, exits and enters exactly the states of the model, in that order, and lands where it lands |
| PreconditionEngine.EveryRunAgrees | main/hsm.c:52-255 | over every run of ticks, frames and toggles from power-up, the engine on this state table, its tape being what the handlers ask for, agrees with the model in leaf, request, argument, clock, entry times and tick count; so its history is well nested around the model's leaf and the entry times are those of the last entries |
| PreconditionEngine.StepAgrees | main/hsm.c:145-255 | one dispatch of the engine is one step of the model, with as many transitions: global hook with its nested event, bubbling, root-to-leaf walk, chain and tick count |
| PreconditionEngine.EventRuns | main/hsm.c:233-255 | bubbling from leaf to composite, cut short by a claim or a transition, is the model's dispatch |
| PreconditionEngine.ChainRuns | main/hsm.c:98-115 | the engine's chain takes the model's transitions, as many of them, and leaves the same request |
| PreconditionEngine.TransitionRuns | main/hsm.c:52-94 | one transition of the engine runs the model's handlers in the model's order and leaves the same entry times and request |
| PreconditionEngine.InitAgrees | main/precondition.c:1179-1208 | initialisation by the engine, a restored session included |
| PreconditionEngine.EngineDropsNothing | main/hsm.c:110-113 | whatever the handlers may legally ask for, the engine applies within two transitions and drops nothing |
| PreconditionEngine.DispatchesAreShort | main/hsm.c:145-255 | from every state of a run, one dispatch makes the engine move at most four times |
| PreconditionFilters.ForwardRuns | main/hsm.c:206-231 | a frame about to be forwarded, on the engine: it decides exactly when the popup or the filter on values decides, asking the filters of the active states innermost first up to the one whose verdict that is, and changes nothing else |
| PreconditionFilters.CommandIsBlockedWhileRequested | main/precondition.c:598-616 | after every run on the engine, the head unit's command is kept from the car exactly while the request state is on the active path, in the repeating modes exactly while the latch is on, unless the popup takes the frame first; it is never rewritten |
| PreconditionFilters.ForwardInBytes | main/precondition.c:42-616 | what becomes of every frame, in bytes: which are blocked, which bytes of 0x4ED and 0x4CC change, and number, tenths, unit and flag that the cluster reads in 0x4E8, with the limits of seventy and ten seconds; all others pass |
| PreconditionChart.TableIsWellFormed | main/precondition.c:910-1000 | the state table meets the engine's contract |
| PreconditionLaws.LatchFollowsSession | main/precondition.c:352-622 | in the repeating modes the latch is on exactly while the leaf lies under REQUESTED, so idle resumes a session only during initialisation and only a restored one |
| PreconditionLaws.OnceNeverManages | main/precondition.c:481-835 | once mode never reaches MANAGED and makes manual attempts only; CAR_START_DELAY occurs only in persistent mode |
| PreconditionLaws.ObservedRestartsAreSilent | main/precondition.c:537-690 | an attempt that only observes a restart never sends a start message nor rests where one is sent |
| PreconditionLaws.BurstsFollowTheirSequence | main/precondition.c:383-410 | a burst in progress has sent a prefix of its six messages; one that ended by itself has sent all of them |
| PreconditionLaws.RetriesAreBounded | main/precondition.c:481-898 | retry counters stay at most 4, with at most five bursts per request and per stop |
| PreconditionLaws.ChainsAreShort | main/precondition.c:501-667 | no dispatch of any run chains more than two transitions, so the engine never drops one |
| PreconditionLaws.SettleIsGood | main/hsm.c:98-115 | the chain from any legal request has at most two steps and ends in a state that may rest |
| PreconditionLaws.StepIsGood | main/precondition.c:499-906 | every tick, frame and toggle keeps all of the above |
| PreconditionTable.EventsFollowTheTable | main/precondition.c:481-906 | every event takes every resting state where the table says, follow-up transitions included: the leaf, the attempt launched, retries used, the notice in idle, and nothing else known of the car changed. In idle a toggle launches a manual attempt |
| PreconditionTable.TicksFollowTheTable | main/precondition.c:383-898 | likewise every tick, with its delays of 8, 10, 70 and 300 seconds, four retries and the messages of a burst |
| PreconditionTable.RunsFollowTheTable | main/precondition.c:481-1031 | so does every toggle and tick of every run, and frames the machine has no use for change nothing |
| PreconditionTable.StatusReports | main/precondition.c:141-152 | a report of the car whose second byte ends in the five bits 0x15, 0x05 or 0x01: where it takes every leaf; any other byte changes nothing |
| PreconditionTable.PowerReports | main/precondition.c:154-160 | frame 0x038 with the low four bits of its first byte 4 or not: only a change counts, and where it takes every leaf |
| PreconditionTable.TemperatureReports | main/precondition.c:1069-1083 | frame 0x152: warm from 21 degrees on, the byte being signed |
| PreconditionTable.OtherFramesAreIgnored | main/precondition.c:1033-1083 | frames from the head unit, short ones and all others change nothing |
| PreconditionTable.ReadyIsNoted | main/precondition.c:521-535 | the reading at which the car is ready again is kept for the notice |
| PreconditionClock.OwnAttemptsKeepDistance | main/precondition.c:626-813 | over every run with an advancing clock, a periodic attempt comes more than five minutes after every attempt before it, one after a car start at least eight seconds |
| PreconditionClock.StepKeepsClocked | main/precondition.c:499-906 | every tick, frame and toggle keeps attempt stamps and waiting timers consistent with the attempts launched |
| PreconditionRetries.RetriesBackOff | main/precondition.c:481-898 | over every run with an advancing clock, a burst is repeated only by a state that waited in vain, more than seventy seconds after the burst before it once the car had reported starting, more than ten otherwise |
| PreconditionRetries.StepKeepsWaited | main/precondition.c:664-898 | every tick, frame and toggle keeps attempts stamped no earlier than their last burst |
| PreconditionProgress.ToggleIsDebounced | main/precondition.c:567-579 | in every reachable session a toggle starts a stop with a full retry budget exactly when the last attempt was launched more than a second ago, and otherwise changes nothing |
| PreconditionProgress.StoppingAlwaysEnds | main/precondition.c:842-906 | from every reachable stop, with an advancing clock, no toggles and any frames, idle is reached within five rounds of ticks |
| PreconditionProgress.StopAdvances | main/precondition.c:863-906 | every tick of a stop lowers its rank of retries, messages and time left; a frame never raises it |
| PreconditionProgress.StartIsAlwaysDecided | main/precondition.c:481-759 | from every reachable start, likewise, the machine is active, managed, stopping or idle within five rounds, and in once mode not managed |
| PreconditionProgress.StartAdvances | main/precondition.c:637-759 | every tick of a start lowers its rank; a frame never raises it |
| PreconditionHandlers.Machine.OnEnter | main/precondition.c:501-869 | contexts cleared, entry stamped, the enter handler of every state run in place; the answer is the tape entry the engine takes |
| PreconditionHandlers.Machine.OnExit | main/precondition.c:618-622 | the exit handler, which asks for nothing |
| PreconditionHandlers.Machine.OnEvent | main/precondition.c:521-906 | the event handlers of every leaf and of both composites, whether they claim the event, and what they ask of the engine |
| PreconditionHandlers.Machine.OnTick | main/precondition.c:512-898 | the tick handler of every leaf, and what it asks of the engine |
| PreconditionHandlers.Machine.OnRx | main/precondition.c:1033-1083 | power edges, status frames and battery temperature, and the event the hook sends |
| PreconditionHandlers.Machine.Filter | main/precondition.c:416-616 | the bytes left in place equal the filter on values |
| Expression.Verdict | main/expression_parser.c:192-332 | for every tree that the evaluator's precedences make well formed: the two-stack machine on its printed tokens yields exactly its value when it needs at most 100 pending operators and divides by no zero, and fails otherwise |
| Expression.VerdictUpToNestingFifteen | main/expression_parser.c:192-332 | fifteen levels of parentheses always fit |
| ExpressionGrammar.SentenceVerdict | main/expression_parser.c:69-76 | for every sentence of a grammar with one level for each precedence, each left associative: the machine yields its value by that grammar unless more than 100 operators and parentheses are pending at once, and none on a division by zero |
| ExpressionGrammar.SentenceUpToNestingFifteen | main/expression_parser.c:192-332 | sentences with up to fifteen levels of parentheses always fit |
| ExpressionGrammar.ToUnion | main/expression_parser.c:69-76 | the grammar misses nothing: every well-formed tree is that of a sentence |
| Expression.NeedFromNesting | main/expression_parser.c:195-276 | d levels need at most 6d+5 operators and 5(d+1)+1 operands |
| Expression.RunTree | main/expression_parser.c:192-277 | reading a printed tree piles exactly its right spine onto the stacks |
| Expression.ReduceSpine | main/expression_parser.c:244-275 | reducing a spine yields the tree's value |
| Expression.OverflowBetrays | main/expression_parser.c:52-59 | a dropped push always leaves a parenthesis too few or an operand too many |
| ExpressionEvaluator.Stack.Push | main/expression_parser.c:52-59 | pushes, or drops and says so when full |
| ExpressionEvaluator.Stack.Pop | main/expression_parser.c:61-67 | pops the top, or yields the default from an empty stack |
| ExpressionEvaluator.Evaluator.Consume | main/expression_parser.c:192-277 | one token on the array stacks equals one step on values |
| ExpressionEvaluator.Evaluator.DrainAll | main/expression_parser.c:287-318 | the final loop equals draining on values |
| ExpressionEvaluator.EvaluateExpression | main/expression_parser.c:192-332 | on any token stream, the whole pass yields the verdict of the two-stack machine, true exactly when there is a value |
| ExpressionEvaluator.EvaluatePrinted | main/expression_parser.c:192-332 | on the tokens of a printed tree: true with the tree's value, or false exactly on overflow or division by zero |
| ExpressionEvaluator.EvaluateSentence | main/expression_parser.c:192-332 | on the text of a sentence of that grammar: true with its value, or false exactly on more than 100 pending entries or a division by zero |
| CanTx.PermitsAreConserved | main/can.c:212-876 | under every interleaving, recreation included, count is at most 32, and outside the refill loop count, used bits and held permits are at least 32; a quiet bus has all slots free |
| CanTx.SlotsAreExclusive | main/can.c:822-868 | provided no reset falls between a failed transmit and its rollback: a slot in use is never claimed again, so no two of the frames in the driver's queue were sent from one slot, they are at most 32, and a transmit always finds room |
| CanTx.OnlyLateRollbackStrips | main/can.c:862-868 | over any run at all, a step strips a frame in flight or a claim of its bit if and only if it is the rollback of that slot |
| CanTx.ResetWithRollbackStrips | main/can.c:295-305 | the premise is what it takes: every reset with a rollback still to come has a continuation in which that rollback strips a slot handed out since |
| CanTx.LateRollbackSharesASlot | main/can.c:858-868 | a schedule in which that premise fails and two frames are in flight from slot 0 |
| CanTxPool.Pool.Send | main/can.c:767-876 | undisturbed, success takes one permit and the first free slot for exactly the clamped frame; every failure leaves permits and bits as they were |
| CanTxPool.Pool.Reset | main/can.c:295-305 | all bits clear and the semaphore full |
| CanTxPool.Pool.OnTxDone | main/can.c:212-230 | the bit cleared and one permit given back |
| CanTxPool.BitsAreSets | main/can.c:823-833 | setting and clearing a bit of the 32-bit mask are the set operations of the interleaved model |
| CanTxPool.SendIsItsSteps | main/can.c:793-860 | the steps of a successful send amount to one permit and one slot |
| TcpServer.TakeoverIsSafe | main/comm_server.c:62-413 | under every interleaving: no closed descriptor is used, the old one is closed only with the receive task parked and the transmit task outside send, and PORT_CLOSED implies not PORT_OPEN and the receive task parked |
| TcpServer.SocketIsStable | main/comm_server.c:384-410 | `sock` never changes while a receive session is open |
| TcpServer.StepKeepsInv | main/comm_server.c:62-413 | each step of each task keeps the inductive invariant |
| TcpServer.StuckForever | main/comm_server.c:384-399 | once the receive task is parked unannounced no later client is ever adopted |
| TcpServer.AdoptsUnlessStuck | main/comm_server.c:384-413 | after every schedule, some way on adopts another client if and only if the receive task is not so parked |
| TcpServer.OnlyWayToStuck | main/comm_server.c:232-242 | over every schedule, a step leads there if and only if it is a send error before the receive task has looked |
| TcpServer.StuckIsReachable | main/comm_server.c:222-252 | a schedule that gets there |
| Settings.NoLostUpdate | main/persistent_settings.c:97-181 | under every schedule of setters, worker, failing saves and time: a worker parked for good has mirrored the desired value, or a wake-up is coming, or four attempts failed; one waiting for a retry comes back exactly five seconds after the last attempt; flash equals the mirror; attempts of one budget are five seconds apart |
| Settings.QuietMeansSaved | main/persistent_settings.c:97-181 | with the setters quiet and budget left, flash holds the desired value |
| Settings.SpacedApart | main/persistent_settings.c:113-147 | attempts of one budget are a retry interval apart each, four at most |
| Settings.OneGenerationOneBudget | main/persistent_settings.c:113-147 | over every schedule, two attempts of one generation draw on one budget if and only if no save succeeded in between, and then are spaced so |
| Settings.SaveStartsANewBudget | main/persistent_settings.c:97-147 | a schedule with two attempts of one generation at one clock reading |
| Settings.StepsAreFlush | main/persistent_settings.c:113-147 | undisturbed, the worker's interleaved steps are one flush |
| Settings.MirroredSetting.FlushSetting | main/persistent_settings.c:113-147 | the method equals the flush on values |
| Settings.FlushPending | main/persistent_settings.c:149-158 | every setting flushed; the earliest retry returned, zero exactly when none is due |
| CanDoTheorems.CooldownHolds | main/autopid.c:3320-3411 | over every run with a positive monotone clock, two executions for one trigger are at least its cooldown apart, combinations and clicks included |
| CanDoTheorems.FiresOncePerArming | main/autopid.c:3285-3392 | a one-shot or multi-click trigger executes at most once between releases, resets and timeouts, in combinations too |
| CanDoTheorems.HoldsAreHonoured | main/autopid.c:3285-3362 | a hold trigger fires only when the condition was asserted long enough before with no release in between, once per hold |
| CanDoTheorems.ClicksAreCounted | main/autopid.c:3291-3331 | a multi-click trigger fires only after that many clicks, each within the window of the one before, unused by earlier firings |
| CanDoTheorems.ExecutionsAreAttributed | main/autopid.c:3321-3411 | every execution counted for a rule is charged to exactly one trigger |
| CanDoTheorems.ResetAndVerifyNeedOwnIdentifier | main/autopid.c:3215-3250 | a reset identifier that is not the trigger's own never re-arms it, its own keeps it from ever firing; a confirmation under another identifier never latches |
| CanDoFiring.ExecutionsAreExact | main/autopid.c:3285-3411 | after every run, the next frame executes a rule for a trigger if and only if the loop offers it and the trigger has earned it, by a hold that has lasted long enough for the first time or by enough clicks in their windows, and cooldown, mode and combination let it through |
| CanDoFiring.RunIsExact | main/autopid.c:3285-3362 | over every run the hold timer and the click counter are what the history of offers, releases and clicks says, used-up chances included |
| CanDoExactness.ConfirmationsAreExact | main/autopid.c:3229-3245 | a trigger, of a combination or not, takes a confirmation from exactly the frames that the loop offers it and that confirm: own identifier, pending, matching payload; and stays latched unless the same frame releases it |
| CanDoExactness.ConfirmationsOverRuns | main/autopid.c:3229-3245 | so it is with the next frame after every run |
| CanDoExactness.ExpiryHonoursAbsenceIff | main/autopid.c:3513-3517 | over every run, an expiry comes later than the timeout after the execution or confirmation it runs from, and finds the trigger absent for the timeout if and only if every frame offered to it that met the condition since then is longer ago than that |
| CanDoExactness.TimerHonoursAbsence | main/autopid.c:3513-3517 | in every reachable state, the timer of a latched trigger will re-arm it only in its absence if and only if no frame offered to it has met the condition since the execution or confirmation, or the last one is longer ago than the timeout |
| CanDoExactness.TimeoutRearmsWhileHeld | main/autopid.c:3513-3517 | a run in which a button held down is re-armed by the timeout and executes twice |
| CanDoExactness.CooldownIsExact | main/autopid.c:3379-3383 | a run with any cooldown in which the next execution comes after exactly that time, 50 ms by default |
| CanDoExactness.TimeoutsAreExact | main/autopid.c:3488-3526 | what time alone does: clicks are forgotten after their window, 450 ms by default, a latch opens after its timeout, an unanswered poll is given up after that or three seconds |
| CanDoBits.MatchesIsBitwise | main/autopid.c:2742-2764 | a pattern matches exactly when every bit set in its masks lies within the length and is that of the pattern |
| CanDoBits.FlippedBitUndoesMatch | main/autopid.c:2742-2764 | changing one masked bit of a match undoes it |
| CanDoBits.UnwatchedBitsNeverMatter | main/autopid.c:3151-3435 | over every run of rules that look at bits only, frames may differ in all bits outside the masks: executions, clicks, holds, latches and timers are the same |
| CanDoBits.EvaluateMeans | main/autopid.c:2731-2787 | a trigger's condition, in full, by identifiers, bits and changed bytes |
| CanDoBits.ReleaseMeans | main/autopid.c:3185-3213 | a release, by bits |
| CanDoBits.FirstPassMeans | main/autopid.c:3174-3213 | a trigger counts as held from a frame that meets its condition until one of its own that shows the release |
| CanDoBits.OfferRemembers | main/autopid.c:3253-3337 | a trigger remembers every frame of its own byte by byte, shorter ones leaving the rest as it was; only a reset frame is forgotten and, in a combination, a release that completes the clicks too early |
| CanDoLaws.StepKeepsInv | main/autopid.c:3151-3526 | every frame and timer tick keeps the invariant that ties the fields of all triggers to their histories |
| CanDoLaws.PressKeepsInv | main/autopid.c:3339-3432 | a press earns its execution through hold, combination, cooldown and mode |
| CanDoLaws.ReleaseKeepsInv | main/autopid.c:3285-3333 | a release re-arms and counts clicks, and earns a multi-click execution |
| CanDoEngine.MatchCells | main/autopid.c:2742-2764 | the masked comparison loop decides exactly the pattern match, bit by bit |
| CanDoEngine.EvaluateTrigger | main/autopid.c:2731-2787 | the nested filters decide exactly the trigger condition, stated by identifiers, bits and changed bytes |
| CanDoEngine.RuleEngine.ObservePass | main/autopid.c:3175-3213 | the first pass over the triggers |
| CanDoEngine.RuleEngine.Pressed | main/autopid.c:3339-3432 | the press path in place, sharing with a combination included |
| CanDoEngine.RuleEngine.Let | main/autopid.c:3285-3337 | the release path in place |
| CanDoEngine.RuleEngine.ProcessRx | main/autopid.c:3151-3435 | both loops over the triggers of a rule equal the rule on values |
| CanDoEngine.RuleEngine.ProcessTimer | main/autopid.c:3488-3526 | the three timeouts of every trigger |
| Crc32.TableStepIsEightBits | main/realdash.c:25-71 | one table update is eight steps of the bit-serial division |
| Crc32.EntryIsEightShifts | main/realdash.c:27-64 | all 256 table entries are what eight shifts make of their index |
| Crc32.TableCrc | main/realdash.c:66-71 | the table loop computes the CRC-32 of RFC 1952 for byte strings of any length |
| Crc32.KnownAnswer | main/realdash.c:25-71 | the CRC of the single letter a is the published E8B7BE43 |
| Crc32.FeedBitsInjective | main/realdash.c:67-69 | the update with any message bits is injective in the state: no two states ever merge |
| Crc32.BurstChangesCrc | main/realdash.c:25-71 | two messages that differ within a window of 32 bits have different CRCs |
| RealDash.EncodeIsAccepted | main/realdash.c:81-153 | every frame written is accepted, with identifier and zero-padded data read back |
| RealDash.FrameBytes | main/realdash.c:81-115 | the twenty bytes of a frame one by one: 66 33 22 11, identifier lowest byte first, data, zeros, CRC lowest byte first |
| RealDash.AcceptedBytes | main/realdash.c:118-130 | accepted are exactly the frames that start 66 33 22 11 and end in the CRC of their first sixteen bytes, lowest byte first |
| RealDash.CrcMatchesIffResidue | main/realdash.c:127-128 | the CRC matches exactly when the whole frame leaves the fixed residue |
| RealDash.BurstIsRejected | main/realdash.c:118-153 | of two frames that differ within 32 consecutive bits, CRC bytes included, at most one is accepted |
| RealDash.FourByteChangeIsRejected | main/realdash.c:118-153 | a change confined to four consecutive bytes is rejected |
| RealDash.Set66 | main/realdash.c:81-115 | the buffer holds the encoded frame and is untouched behind it |
| RealDash.Parse66 | main/realdash.c:118-153 | accepts exactly the frames with header and CRC, and then takes identifier, data and length |
| RealDash.SendAndReceive | main/realdash.c:81-153 | what is written is read back, and the extended flag survives exactly when it says whether the identifier needs more than eleven bits, or was raised on both sides |

## Left out

- Tasks, locks and interrupts of `main/can.c`, `main/comm_server.c` and the start handover are steps on values rather than classes; memory ordering weaker than sequential consistency is not modelled.
- CanTx.SlotsAreExclusive: assumes that no slot reset falls between a failed transmit and its rollback; without it the claim is false, and `CanTx.OnlyLateRollbackStrips` says how.
- TcpServer.TakeoverIsSafe: safety only; liveness fails in the one ordering that `TcpServer.OnlyWayToStuck` identifies. UDP, coalescing and what a new client receives are not modelled.
- ExpressionEvaluator.EvaluatePrinted: starts from the tokens of a tree; so do the theorems of `Expression` and `ExpressionGrammar`.
- ExpressionEvaluator.EvaluateExpression: works on tokens; lexing of numbers and byte references, double arithmetic and integer casts are parameters, and malformed input is covered only as far as the machine itself goes.
- IsoTpTiming.Spacing: dispatch time, as the comment at `main/isotp_tx.c:228-231` concedes, not time on the wire.
- HsmEngine.Engine.Fwd: filters may request transitions but not send events, which the contract at `main/hsm.h:33-38` forbids.
- HsmOrder.EventHistory: for handlers that send no events themselves; with nested events `HsmOrder.EventOrder` gives the order by a list of states instead of the history.
- PreconditionFilters.ForwardRuns: the popup's own filter, which runs first, is one input, whether it takes the frame.
- CanDoBits.UnwatchedBitsNeverMatter: for triggers that look at bits; those that look for any change watch every bit.
- The generation counters of the engine and of the setting under `Settings.NoLostUpdate` differ: the former is unbounded, the latter wraps at 2^32 and is modelled so.
- IsoTpTiming.TimingIsObeyed: assumes that no start is taken before its deadline is written; `IsoTpTiming.TimingHoldsIffWritten` says that this is what it takes. That a handler on values is one step is justified by `IsoTpTasks.EveryScheduleIsARun`.
- PreconditionHandlers.Machine.OnEvent: answers with the tape entry on which `PreconditionEngine` runs the engine, as the other callbacks do; the class `HsmEngine.Engine` takes its tape as given and does not call them.
- Contexts of states (`ctx`) appear as the structs of the preconditioning machine, not in the engine.
- Changing the preconditioning mode during a session (`precondition_action_execute`, `main/precondition.c:1253-1279`), unlocked queries, the disabled button code, popups, the web status queue and log text.
- The persistent latch of the preconditioning machine is one boolean there; its way to flash is module `Settings`. A failed read of flash at start-up, after which mirror and flash differ, is not modelled.
- CanDoEngine.EvaluateTrigger: whether an expression holds on a frame is an input, because its text is parsed and evaluated on doubles.
- CanDoExactness.ExpiryHonoursAbsenceIff: frames that the loop does not offer to the trigger, after a combination has executed or under its reset identifier, do not count as meeting its condition.
- The trigger engine's actions, toggled rules with automatic revert, MQTT, clock, interval and voltage triggers, loading of rules, and counters of executions beyond 2^32.
- RealDash frames of the other two layouts, which carry a plain checksum, and GVRET parsing.
