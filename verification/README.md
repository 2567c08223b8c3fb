# iouringd: a verified model

iouringd is a single-threaded daemon that lets many clients share one kernel io_uring. It
hands out bounded credits, pins the files and buffers that operations in flight use, and
reuses the slots of connections that are gone. This project models that daemon, the wire
protocol and the client library in Dafny, and proves what they promise. Check everything with
`dafny verify dfyconfig.toml`.

## How it is organised

The runtime comes in two forms. `DaemonState` and `DaemonSteps` give the daemon as a value and
a step relation: connect, fd arrival, handshake reply, request parsed, dispatch, completion,
sweep, disconnect. Next to the daemon's own fields the state has what the kernel holds (the
operations in flight, the fixed-file table) and histories (where every fd token is, what was
closed, what was queued to each connection). `DaemonInvariant` states one global invariant;
`DaemonFrame`, `DaemonSafety`, `DaemonAdmission` and `DaemonCompletion` show that each branch
restores it; `DaemonRuns` extends that to every run; `DaemonTheorems`, `DaemonIds`,
`DaemonHistory` and `DaemonSweep` draw the conclusions. `DaemonConnections`, `DaemonControl`,
`DaemonAnswers` and `DaemonEffects` say what every step does, from the states before and after
it, and `DaemonWrap` and `DaemonNops` lead the daemon into some corners. `Runtime` is the object the source
has: a class whose methods change its fields in the daemon's order, slot by slot, with every
roll-back, each proved to have the effect of its step function. The source completes a task
in a different order from the atomic step; `CompletionOrder` proves the two equal under the
invariant.

| files | what they are about |
|---|---|
| `Protocol`, `Wire`, `Decoder`, `Parser`, `Encoder` | requests as values and as bytes, the one-shot decoder, the incremental parser, the library's encoders |
| `Demux`, `ClientLibrary`, `Answers` | the library's separation of completions from answers on one stream, and what it makes of the answers |
| `Session` | what the daemon queues on a connection, taken apart by the library |
| `Rings`, `Trace`, `Dispatcher`, `OutputBuffer` | the index rings, the trace ring, the dispatch pass, a client's output |
| `EventLoop` | the handshake gate over every order of the loop's phases |

## Assumptions

- A state is one in which no call has returned -1: -1 ends the event loop and the state is
  abandoned. Step functions return `Stopped` there.
- The kernel completes each operation in flight once; a read returns at most what was asked
  for; CLOSE takes over its fd. What it answers otherwise (submission errors, table updates,
  results, addresses) is a parameter of the step, and so is whether a record fits the
  client's output.
- Fds are tokens, never reused numbers.
- A failed ring submission leaves nothing queued.
- The client library reads the answer to each request before the next call on that
  connection, as its synchronous calls do.

## What the source does not do

- A free slot does not guarantee a resource id. Next to the 32-bit wrap-around allocation can
  fail: `DaemonIds.AllocationFailsOnlyAtWrap` says exactly when, and
  `DaemonWrap.AllocationCanFail` leads the daemon there.
- No task slot is kept for CANCEL. With `task_capacity` tasks in flight the credit checks let a
  CANCEL pass, and it is refused with EAGAIN for want of a slot; the ring entry that the
  `ring_capacity` guard provides for is never used. `DaemonAnswers.CancelRefusedIff` says
  exactly when, and `DaemonNops.CancelCanBeRefused` leads the daemon there.
- The library accepts OPENAT paths of up to 4096 bytes, ACCEPT address lengths of up to 65535
  and GET_TRACE counts of any size, but the daemon's request buffer holds 4120 bytes, an address
  has to be within io_bytes_max and its trace limit is 256.
  `Encoder.RoundTrip` says exactly which requests arrive.
- A submit result whose task id is 0x000C000131444F49, or a trace result whose oldest sequence
  is, looks like a completion to the library and is never returned. `Demux.Mistakable` shows
  that no other number does, `Demux.ReturnedIff` that nothing else is lost, and
  `DaemonNops.AnyIdAcknowledged` that the daemon gets there.
- A dispatch pass may leave a ready client waiting (`Dispatcher.PassCanSkip`).
- The daemon ignores the reserved last word of RELEASE_RESOURCE, unlike those of CLOSE,
  REGISTER_BUFFER and GET_TRACE (`Decoder.SpelledIsPrinted`).

## Model

| member | source | states |
|---|---|---|
| `DaemonRuns.StepKeeps` | src/daemon/main.c:4001-4122 | every step of the daemon that does not end the event loop (connect, fd arrival, handshake reply, request parsed, dispatch, completion, sweep of a slot, disconnect) keeps the global invariant |
| `DaemonRuns.RunKeeps` | src/daemon/main.c:4001-4122 | the invariant holds after every run from a state where it holds |
| `DaemonRuns.ReachableInv` | src/daemon/main.c:341-368 | every state reachable from start-up satisfies the invariant |
| `DaemonTheorems.FileSlotShapes` | src/daemon/main.c:682-716 | in every reachable state a file slot has exactly one of five shapes (free, reserved, registered, draining, being closed by the kernel) and its in-flight count is the number of active tasks that name it as file or as result |
| `DaemonTheorems.BufferSlotShapes` | src/daemon/main.c:718-742 | likewise for buffer slots; the valid length never exceeds io_bytes_max |
| `DaemonTheorems.InFlightAreTasks` | src/daemon/main.c:2080-2094 | operations in the kernel are exactly the active tasks, ids are distinct, non-zero and below the reserved range, and a completion always finds its task |
| `DaemonTheorems.ReplaySound` | src/daemon/main.c:3676-3823 | a history that replays legally is well ordered: handshake first, ids increase, acknowledgement before completion, at most one completion, every completion record valid for the client library and followed at once by exactly the payload it announces |
| `DaemonTheorems.ExactlyOnce` | src/daemon/main.c:3676-3823 | on an open connection every acknowledged task has been completed exactly once or is still in the kernel, every active task of the connection has been acknowledged and not completed, and no payload is missing |
| `DaemonTheorems.NoCrossSession` | src/daemon/main.c:744-804 | an active task's generation is that of its client slot, and that slot cannot be reopened |
| `DaemonTheorems.SameConnection` | src/daemon/main.c:744-804 | along every run, while a task is in flight its client slot is unfit for reuse before every step, so no later occupant can receive what it delivers, however often generations have wrapped |
| `DaemonTheorems.TaskStable` | src/daemon/main.c:3321-3363 | a task in flight keeps its slot, its record and its kernel operation along every run |
| `DaemonTheorems.Pinning` | src/daemon/main.c:702-704 | along every run, the file slot of a task other than CLOSE stays registered with the same id and with the fd its operation works on, and its buffer slot with the same id |
| `DaemonTheorems.FdConservation` | src/daemon/main.c:661-671 | every fd token ever received or produced is in exactly one place: a received_fd, one slot, one CLOSE operation, or closed |
| `DaemonTheorems.ClosedOnce` | src/daemon/main.c:661-671 | no fd is closed twice, and only issued fds are held |
| `DaemonTheorems.TableMirrorsSlots` | src/daemon/main.c:635-641 | entry client*F+slot of the fixed-file table is set exactly when the slot is registered, and then to its fd; the index is in range and injective |
| `DaemonTheorems.BufferRegions` | src/daemon/main.c:643-659 | the storage regions of distinct buffers are disjoint and inside the storage |
| `DaemonTheorems.Accounting` | src/daemon/main.c:889-892 | counters equal the tasks they count, accepted = completions + outstanding, credits stay within the global and the per-client limit, and the ring-capacity guard on CANCEL never fires |
| `DaemonTheorems.LiveIdsDistinct` | src/daemon/main.c:568-598 | ids of a client are pairwise distinct over file and buffer slots, reserved and closing ones included |
| `DaemonTheorems.IdleIffNoId` | src/daemon/main.c:504-534 | every file and buffer slot has an id exactly when it is in use |
| `DaemonTheorems.IdsIncrease` | src/daemon/main.c:2245-2273 | along every run of one connection, until the 32-bit counter wraps, every new id is above all ids the counter had passed, roll-backs included |
| `DaemonTheorems.CompletionsFit` | src/daemon/main.c:4255-4256 | if the completion queue has at least as many entries as the submission queue, there is room for every operation in flight whose completion is not yet posted |
| `DaemonTheorems.PostCompletion` | src/daemon/submit.c:1030-1055 | so posting to the completion ring always meets its precondition |
| `DaemonIds.AllocationFailsOnlyAtWrap` | src/daemon/main.c:2245-2265 | with a free slot, allocation fails if and only if the candidate window contains 0 and all its other candidates are in use |
| `DaemonIds.SomeCandidateUnused` | src/daemon/main.c:2245-2265 | pigeonhole: with a free slot the window holds 0 or an unused id |
| `DaemonEffects.CompletionRuns` | src/daemon/main.c:3676-3823 | a completion ends the loop exactly if a live client has no room for the record, or the last task on a file of a client that is gone cannot be taken out of the table |
| `DaemonEffects.CompletionTold` | src/daemon/main.c:3676-3734 | a live client is told the kernel's result as it is, with as many bytes as were read; a client that is gone is told nothing; nobody else is told anything |
| `DaemonEffects.ProductPlaced` | src/daemon/main.c:3553-3674 | the file of an ACCEPT or OPENAT is registered in its reserved slot and in the table if and only if the operation succeeded, the client is there, the table took it, its id can be told and an address fits; otherwise it is closed and the slot is free |
| `DaemonEffects.ProductTold` | src/daemon/main.c:3553-3674 | the client is told the new id and gets the address, or is told the error of the branch taken |
| `DaemonEffects.SlotsSettled` | src/daemon/main.c:3711-3783 | each slot of the client after a completion: one pin less, freed, or untouched; the valid length after a fixed read is what was read |
| `DaemonEffects.TaskOver` | src/daemon/main.c:3736-3823 | the task is gone and counted, the fd of a CLOSE or of a drained file is closed and out of the table, and nothing else changes |
| `DaemonControl.ReleaseAnswered` | src/daemon/main.c:2438-2542 | RELEASE_RESOURCE: EINVAL, ENOENT and EBUSY exactly for id 0, an unknown id and a resource in use; otherwise the slot is free, a file closed and out of the table, and the id answered; nothing else changes |
| `DaemonControl.RegisterFdRefused` | src/daemon/main.c:2288-2350 | REGISTER_FD: which errno when, with the fd closed and no slot changed |
| `DaemonControl.RegisterFdDone` | src/daemon/main.c:2332-2376 | REGISTER_FD: the fd is in the first free slot and in the table, under an id not in use, which is the id answered |
| `DaemonControl.RegisterBufferAnswered` | src/daemon/main.c:2378-2436 | REGISTER_BUFFER: EAGAIN and EOVERFLOW exactly; otherwise the first free slot is registered under the id answered, with all the data valid |
| `DaemonControl.QueriesAnswered` | src/daemon/main.c:2544-2558 | GET_STATS and GET_TRACE: one record, and nothing changes |
| `DaemonConnections.Connects` | src/daemon/main.c:744-804 | a connection takes the first vacant slot, fresh in every field, under the next generation |
| `DaemonConnections.Greets` | src/daemon/main.c:1271-1306 | a handshake is answered with its verdict and opens the submit phase if accepted |
| `DaemonConnections.Disconnects` | src/daemon/main.c:292-339 | registered slots begin to drain, a waiting fd is closed, nothing else changes |
| `DaemonConnections.HoldsFd` | src/daemon/main.c:1353-1364 | the first fd is held, a second is closed and ends the connection |
| `DaemonConnections.HoldsRequest` | src/daemon/main.c:1395-1420 | a request waits as it was parsed; with an fd it did not ask for, it ends the connection |
| `DaemonConnections.SweepsFile` | src/daemon/main.c:682-716 | a drained file slot is freed, its fd closed and its table entry removed |
| `DaemonConnections.SweepsBuffer` | src/daemon/main.c:718-742 | a drained buffer slot is freed |
| `DaemonAnswers.SubmissionAnswered` | src/daemon/main.c:2560-3474 | every submission: when the loop goes on; refused with the errno of the first check it fails, or the ring's, with everything but the answer, the count of refusals and the id counter as before; or accepted, with its task record, pins, reserved slot, ring operation and answer |
| `DaemonAnswers.AcceptedIff` | src/daemon/main.c:2560-3474 | a submission is accepted, under the next task id, if and only if it meets no objection on its way to the ring and the ring takes it |
| `DaemonAnswers.RefusedForWant` | src/daemon/main.c:2560-3474 | the record queued says EAGAIN if and only if the credit is used up; or nothing else is wrong and all task slots are taken, or a file-making request has no file slot; or the ring says so |
| `DaemonAnswers.CancelRefusedIff` | src/daemon/main.c:3366-3390 | a proper CANCEL is refused with EAGAIN if and only if every task slot is taken |
| `DaemonAnswers.RefusedAsInvalid` | src/daemon/main.c:2596-3085 | the record queued says EINVAL if and only if, with credit left and the operation supported, a field is wrong, or the resources are there and a fixed write exceeds the valid length; or the ring says so |
| `DaemonAnswers.RefusedForResources` | src/daemon/main.c:2885-3085 | the record queued says ENOENT if and only if nothing earlier is wrong and a resource named is not registered, EBUSY if it is a file to close that tasks use; or the ring says so |
| `DaemonAnswers.LibraryRefusedAsInvalid` | src/daemon/main.c:2596-3085 | of the submissions that arrive from the library, EINVAL goes to exactly those that would read more than io_bytes_max, cancel an id no task can have, or write more than their buffer holds, or that the ring refuses so |
| `DaemonNops.CancelCanBeRefused` | src/daemon/main.c:3366-3390 | a reachable state in which a CANCEL of a task in flight passes all checks on entry and is answered EAGAIN |
| `DaemonNops.AnyIdAcknowledged` | src/daemon/main.c:3440-3474 | every task id below the reserved ones is acknowledged on some run, 0x000C000131444F49 among them |
| `DaemonWrap.AllocationCanFail` | src/daemon/main.c:2245-2265 | a reachable state in which a file slot is free and allocation nevertheless fails |
| `DaemonSweep.SweepResult` | src/daemon/main.c:3825-3865 | what a whole sweep leaves, in closed form, slot by slot |
| `DaemonSweep.SweepKeeps` | src/daemon/main.c:3825-3865 | a whole sweep keeps the invariant |
| `DaemonSweep.Reclamation` | src/daemon/main.c:3825-3865 | once a disconnected client's last task is over, one successful sweep frees all its slots and makes the client slot eligible for reuse |
| `DaemonSweep.NeverRegistersAgain` | src/daemon/main.c:3591-3594 | along every run no slot of a disconnected client becomes registered again until the client slot is eligible for reuse |
| `DaemonHistory.DispatchHasEffect` | src/daemon/main.c:2275-3475 | every dispatch either admits one task with the next id into an idle slot, or changes no task; other clients are untouched |
| `DaemonHistory.StepFollows` | src/daemon/main.c:4001-4122 | what any step may do to tasks in flight, connections and resource ids |
| `DaemonAdmission.DispatchKeeps` | src/daemon/main.c:2275-3475 | every admission and roll-back branch of dispatch restores the invariant |
| `DaemonAdmission.DispatchOpenatKeeps` | src/daemon/main.c:2765-2883 | OPENAT: reservation, submission, undo |
| `DaemonAdmission.DispatchCloseKeeps` | src/daemon/main.c:2885-3016 | CLOSE: the fd passes to the kernel or stays in its slot |
| `DaemonAdmission.DispatchFileOpKeeps` | src/daemon/main.c:3018-3364 | operations on a file slot, ACCEPT with its reserved result slot among them |
| `DaemonAdmission.DispatchPlainKeeps` | src/daemon/main.c:3366-3474 | NOP, TIMEOUT and CANCEL |
| `DaemonSafety.DispatchRegisterFdKeeps` | src/daemon/main.c:2288-2376 | REGISTER_FD keeps the invariant: no fd is lost or closed twice |
| `DaemonSafety.DispatchRegisterBufferKeeps` | src/daemon/main.c:2378-2436 | REGISTER_BUFFER keeps the invariant |
| `DaemonSafety.DispatchReleaseKeeps` | src/daemon/main.c:2438-2542 | RELEASE_RESOURCE keeps the invariant |
| `DaemonSafety.ReplyHandshakeKeeps` | src/daemon/main.c:1271-1306 | a handshake is answered only in the handshake phase, and only acceptance opens the submit phase |
| `DaemonSafety.CloseClientKeeps` | src/daemon/main.c:292-339 | disconnection |
| `DaemonSafety.OpenClientKeeps` | src/daemon/main.c:744-804 | connection, into a slot without tasks or retained resources |
| `DaemonCompletion.ReapKeeps` | src/daemon/main.c:3867-3899 | every completion the kernel may report keeps the invariant |
| `DaemonCompletion.ReportValid` | src/daemon/main.c:3696-3734 | the completion reported to a live client satisfies the client library's validity predicate and announces the payload queued after it |
| `CompletionOrder.InOrderCompletes` | src/daemon/main.c:3676-3823 | in every state the invariant allows, the daemon's order of work (prepare, read back, queue, let go of slots, discount) has the effect of the atomic completion step |
| `Runtime.Runtime.constructor` | src/daemon/main.c:341-368 | the initial state |
| `Runtime.Runtime.FindFreeFileSlot` | src/daemon/main.c:504-518 | the first idle file slot |
| `Runtime.Runtime.FindFreeBufferSlot` | src/daemon/main.c:520-534 | the first idle buffer slot |
| `Runtime.Runtime.FindFileSlot` | src/daemon/main.c:536-550 | the registered slot with the id |
| `Runtime.Runtime.FindBufferSlot` | src/daemon/main.c:552-566 | the registered buffer slot with the id |
| `Runtime.Runtime.FindFreeTaskSlot` | src/daemon/main.c:2066-2078 | the first idle task slot |
| `Runtime.Runtime.FindTaskSlot` | src/daemon/main.c:2080-2094 | the active task with the id |
| `Runtime.Runtime.ResourceIdInUse` | src/daemon/main.c:568-598 | whether any slot of the client that is not idle has the id |
| `Runtime.Runtime.AllocateResourceId` | src/daemon/main.c:2245-2265 | the first usable id of the window, and the counter after it |
| `Runtime.Runtime.UpdateRegisteredFile` | src/daemon/submit.c:757-789 | writes one entry of the fixed-file table, or fails and writes nothing |
| `Runtime.Runtime.TryReleaseFileSlot` | src/daemon/main.c:682-716 | the step function: clears, keeps, or drops the file and its table entry |
| `Runtime.Runtime.TryReleaseBufferSlot` | src/daemon/main.c:718-742 | the step function |
| `Runtime.Runtime.DispatchRegisterFd` | src/daemon/main.c:2288-2376 | same outcome and new state as the step function, for every kernel answer |
| `Runtime.Runtime.DispatchRegisterBuffer` | src/daemon/main.c:2378-2436 | same outcome and new state as the step function |
| `Runtime.Runtime.DispatchRelease` | src/daemon/main.c:2438-2542 | same outcome and new state as the step function |
| `Runtime.Runtime.CheckAdmission` | src/daemon/main.c:2560-2763 | the chain of checks, kind by kind in source order, reports what one table of capabilities and field conditions says: EAGAIN before ENOTSUP before EINVAL |
| `Runtime.Runtime.DispatchOpenat` | src/daemon/main.c:2765-2883 | same outcome and new state as the step function |
| `Runtime.Runtime.DispatchClose` | src/daemon/main.c:2885-3016 | same outcome and new state as the step function |
| `Runtime.Runtime.DispatchFileOp` | src/daemon/main.c:3018-3364 | same outcome and new state as the step function |
| `Runtime.Runtime.SubmitAccept` | src/daemon/main.c:3127-3247 | ACCEPT reserves its result slot and id, and takes both back on failure |
| `Runtime.Runtime.DispatchPlain` | src/daemon/main.c:3366-3474 | same outcome and new state as the step function |
| `Runtime.Runtime.Dispatch` | src/daemon/main.c:2275-3475 | same outcome and new state as the step function, for every request |
| `Runtime.Runtime.HasRetainedResources` | src/daemon/main.c:600-621 | whether any slot of the client is not idle |
| `Runtime.Runtime.OpenClient` | src/daemon/main.c:744-804 | same new state as the step function |
| `Runtime.Runtime.QueueHandshakeResult` | src/daemon/main.c:1271-1306 | same outcome and new state as the step function |
| `Runtime.Runtime.CloseClient` | src/daemon/main.c:292-339 | same new state as the step function |
| `Runtime.Runtime.Sweep` | src/daemon/main.c:3825-3865 | same outcome and new state as the sweep function |
| `Runtime.Runtime.PrepareAccept` | src/daemon/main.c:3553-3618 | the fate of an accepted fd, branch by branch, and the state it leads to |
| `Runtime.Runtime.PrepareOpenat` | src/daemon/main.c:3620-3674 | the fate of an opened fd, branch by branch, and the state it leads to |
| `Runtime.Runtime.PrepareCompletion` | src/daemon/main.c:3698-3699 | a new file is installed, or closed and reported as an error; what a CLOSE was given is closed |
| `Runtime.Runtime.Complete` | src/daemon/main.c:3676-3823 | the work of a completion in the order of the source |
| `Runtime.Runtime.ReapCompletions` | src/daemon/main.c:3867-3899 | reaping any posted completions has the effect of that many completion steps |
| `Rings.MaskIsSlot` | src/daemon/submit.c:143-158 | masking a counter with entries-1 keeps its last bits |
| `Rings.SlotsDiffer` | src/daemon/submit.c:143-158 | counters less than a ring apart name different slots |
| `Rings.WrapKeepsSlot` | src/daemon/submit.c:143-158 | the slot survives the 32-bit wrap-around |
| `Rings.SubmissionRing.Push` | src/daemon/submit.c:125-165 | a push on a bounded FIFO: EBUSY exactly when full, nothing unconsumed overwritten |
| `Rings.SubmissionRing.Consume` | src/daemon/submit.c:125-165 | the kernel takes the oldest entry |
| `Rings.CompletionRing.Post` | src/daemon/submit.c:1030-1055 | the kernel posts behind the entries not yet taken |
| `Rings.CompletionRing.Peek` | src/daemon/submit.c:1030-1055 | the oldest completion exactly once, or none when empty |
| `Trace.TraceRing.Emit` | src/daemon/main.c:1169-1227 | the ring is the last 256 events of an unbounded log |
| `Trace.TraceRing.OldestSequence` | src/daemon/main.c:1148-1156 | the oldest sequence still retained |
| `Trace.TraceRing.CountEvents` | src/daemon/main.c:2169-2226 | how many events the answer announces |
| `Trace.TraceRing.Query` | src/daemon/main.c:2169-2226 | the answer is exactly the first max_events retained events after the cursor, ascending and without gaps, and count is the number of events |
| `Trace.AnswerFacts` | src/daemon/main.c:2169-2226 | oldest, latest, count and events of an answer against the log: the number of events ever emitted, the first of the last 256, and exactly the kept events after the cursor, as many as asked for and there |
| `Trace.PollContinues` | src/daemon/main.c:2169-2226 | a poll whose oldest sequence shows no gap continues right after the cursor |
| `Trace.PagingIsComplete` | src/daemon/main.c:2169-2226 | paging by last sequence sees each event once, in order, unless some answer revealed a gap |
| `Dispatcher.Dispatcher.RunBand` | src/daemon/main.c:3490-3524 | one scan of a band is the scan function, cursor moves included |
| `Dispatcher.Dispatcher.Run` | src/daemon/main.c:3477-3528 | a pass is the pass function |
| `Dispatcher.PassServes` | src/daemon/main.c:3477-3528 | a pass serves only waiting clients, none twice, and leaves the others waiting |
| `Dispatcher.FirstInBand` | src/daemon/main.c:3490-3524 | the first client served by a band scan is the first waiting one in cyclic order from the cursor |
| `Dispatcher.EveryBandServed` | src/daemon/main.c:3484-3525 | every band with a waiting client when its scan starts serves at least one, the first in cyclic order first |
| `Dispatcher.PassProgress` | src/daemon/main.c:3477-3528 | a pass with a waiting client serves at least one |
| `Dispatcher.AllServed` | src/daemon/main.c:3477-3528 | without new input, as many passes as there were waiting clients serve them all |
| `Dispatcher.PassInOrder` | src/daemon/main.c:3477-3528 | whoever is served earlier in a pass has a request of the same or a higher band: control, HIGH, NORMAL, LOW |
| `Dispatcher.PassCanSkip` | src/daemon/main.c:3490-3524 | a pass in which a ready client is skipped because the cursor moves during the scan |
| `OutputBuffer.OutputBuffer.Queue` | src/daemon/main.c:418-441 | a record is queued whole or not at all, EOVERFLOW exactly when it does not fit; bytes written plus bytes pending are the bytes accepted |
| `OutputBuffer.OutputBuffer.Flush` | src/daemon/main.c:443-470 | which bytes are written and whether the call fails, for any answers of the socket; the accepted stream is what was written followed by what is pending |
| `Wire.WordsOfBytes` | include/iouringd/api.h:77-311 | little-endian words survive printing and reading |
| `Wire.BytesOfWords` | include/iouringd/api.h:77-311 | bytes survive reading and printing |
| `Decoder.DecodeSound` | src/daemon/main.c:1395-2016 | whatever is decoded is an acceptable request, spelled by exactly the bytes consumed, at most 4120 of them |
| `Decoder.DecodeComplete` | src/daemon/main.c:1395-2016 | every acceptable request is decoded from any bytes that spell it, whatever follows |
| `Decoder.DecodeStable` | src/daemon/main.c:1766-2016 | more bytes change neither a request found nor an error found |
| `Decoder.SpelledIsPrinted` | src/daemon/main.c:1395-1764 | the bytes of a request are determined by it, but for the reserved last word of RELEASE_RESOURCE, which the daemon does not check |
| `Parser.StillShort` | src/daemon/main.c:1766-2016 | below the expected length nothing changes |
| `Parser.FoundWhole` | src/daemon/main.c:1766-2016 | a request is found exactly when its last byte arrives |
| `Parser.Parser.ReadInput` | src/daemon/main.c:1317-1393 | the receive loop under any answers of recvmsg: bytes, an fd held, a second fd closed, end of stream, errors |
| `Parser.AbsorbFacts` | src/daemon/main.c:1317-1393 | reading never takes more than expected and reports a whole request exactly when it has one; the stream may end only between requests; an fd once held stays held and a second one ends the connection |
| `Parser.Parser.Process` | src/daemon/main.c:1766-2016 | the staged parser agrees with the one-shot decoder on what it has, and otherwise raises the expected length |
| `Parser.Parser.Feed` | src/daemon/main.c:2018-2064 | for every byte stream and every chunking: the same requests, the same error and the same remainder as decoding the whole stream at once |
| `Parser.Parser.Serve` | src/daemon/main.c:2018-2064 | reading and parsing together, under any answers of recvmsg: a request with exactly the fd that came with its bytes, a blocked socket, or the end of the connection, each with the answer that is the reason |
| `Parser.Parser.ServeAll` | src/daemon/main.c:2018-2064 | over all calls, whatever the chunks, interruptions and fds: the requests are those of all the bytes read, decoded at once, and every fd was handed over with its request, is still held, or goes down with the connection |
| `Parser.AbsorbText` | src/daemon/main.c:1317-1393 | bytes are taken in order and none is lost while the connection lasts |
| `Parser.AbsorbFds` | src/daemon/main.c:1345-1364 | every fd that comes is the one held afterwards or the one dropped |
| `Parser.AbsorbStops` | src/daemon/main.c:1317-1393 | reading stops short only at an answer that is a reason to, or when no more come |
| `Encoder.Socket.WriteIov` | src/lib/submit.c:72-128 | under any short sends: how many bytes of the two parts have left, in order, and what is returned |
| `Encoder.SuccessIsAll` | src/lib/submit.c:42-177 | a call succeeds if and only if all bytes have left |
| `Encoder.Socket.SendWithFd` | src/lib/submit.c:130-177 | one sendmsg takes everything or the call fails, and with which error |
| `Encoder.FillFileTask` | src/lib/submit.c:733-914 | the encoders for operations on files: EINVAL exactly for the arguments the library refuses, else the printed structure |
| `Encoder.FillOther` | src/lib/submit.c:668-1141 | the other encoders, likewise; GET_TRACE also needs room for the events it asks for |
| `Encoder.Socket.Send` | src/lib/submit.c:668-1141 | a request the library accepts goes out as printed, as far as the socket takes it; any other is EINVAL and sends nothing |
| `Encoder.RoundTrip` | src/lib/submit.c:668-1141 | the daemon reads back every request the library sends, from exactly its bytes, if and only if its data and an ACCEPT address length are within io_bytes_max, its total within 4120 bytes, its trace count within 256 and its priority one of the three, 0 for control requests; otherwise it sees a protocol error |
| `Encoder.LongPathRefused` | src/lib/submit.c:916-947 | every OPENAT path of 4093 to 4096 bytes with the NUL, with any flags and mode, passes the library and breaks the connection |
| `Encoder.StreamRoundTrip` | src/lib/submit.c:668-1141 | a whole stream of requests arrives in order and without remainder, up to the first one outside the limits |
| `Encoder.DecodedIsDeliverable` | src/daemon/main.c:1959-1985 | a decoded REGISTER_BUFFER fits its region, as the daemon steps assume |
| `Demux.RecordRoundTrip` | src/lib/submit.c:246-278 | completion records survive printing and reading |
| `Demux.DaemonCompletionsPass` | src/lib/submit.c:246-278 | a completion passes the library exactly when it satisfies the predicate proved of the daemon |
| `Demux.DrainItems` | src/lib/submit.c:458-490 | draining takes exactly the completions before the next answer, with their payloads, and stops in front of it |
| `Demux.CallRefines` | src/lib/submit.c:383-419 | each call returns what it would if completions, answers and payloads came on separate channels |
| `Demux.OthersUntouched` | src/lib/submit.c:383-419 | a call on one connection changes nothing for another |
| `Demux.Demultiplexing` | src/lib/submit.c:458-646 | for every interleaving on the wire, every point at which it ends and every order of calls on all connections, the results on a connection agree with the separate channels |
| `Demux.InWireOrder` | src/lib/submit.c:1530-1564 | n waits yield the first n completions once each in wire order, n requests the first n answers |
| `Demux.PayloadExactlyOnce` | src/lib/submit.c:1566-1620 | a payload is paid out to the first call that claims it, with the wire bytes, and never again |
| `Demux.PayloadRead` | src/lib/submit.c:1566-1620 | a payload handed over is read by every buffer that is large enough, its own length included; a smaller one gets EMSGSIZE and nothing changes |
| `Demux.PayloadAfterWait` | src/lib/submit.c:1530-1620 | waiting for a completion hands its payload over |
| `Demux.Mistakable` | src/lib/submit.c:280-306 | an answer starting with a 64-bit number is taken for a completion if and only if that number is 0x000C000131444F49 |
| `Demux.ResourceResultsDiffer` | src/lib/submit.c:517-526 | a resource result is never taken for a completion |
| `Demux.StatsResultsDiffer` | src/lib/submit.c:574-585 | a STATS result is never taken for a completion |
| `Demux.DrainStopsElsewhere` | src/lib/submit.c:458-490 | on every byte string, draining never succeeds in front of a header |
| `Demux.NoHeaderReturned` | src/lib/submit.c:528-646 | on every byte string, no call returns an answer that begins with the header |
| `Demux.ReturnedIff` | src/lib/submit.c:458-490 | after any completions and before anything at all, an answer is returned if and only if it does not begin with the header |
| `Demux.LostAnswer` | src/lib/submit.c:458-490 | a submit result with that task id, or a trace result with that oldest sequence, is never returned, whatever precedes or follows it |
| `Session.ItemsOk` | src/daemon/main.c:3724-3734 | every record of a legal history, printed with any contents, is an item the library can tell apart |
| `Session.EventsFresh` | src/daemon/main.c:3724-3734 | no two completions printed from a legal history have the same task id |
| `Session.ServedAfterHandshake` | src/daemon/main.c:1271-1306 | on a connection that is served, refused handshakes come first, then the accepted one, and no handshake result after it |
| `Session.SessionDemultiplexes` | src/lib/submit.c:458-646 | end to end: what the daemon has sent on an open connection since its handshake, in any reachable state, is taken apart by the library as if answers, completions and payloads came separately |
| `Session.SubmitsUnderstood` | src/lib/submit.c:528-549 | every submit result on an open connection is understood as meant: the id accepted or the errno of the refusal |
| `Answers.SubmitUnderstood` | src/lib/submit.c:492-507 | which submit results are accepted, refused or malformed |
| `Answers.ResourceUnderstood` | src/lib/submit.c:509-526 | which resource results are accepted, refused or malformed |
| `Answers.EventTaken` | src/lib/submit.c:587-600 | a trace event is taken if and only if it is of one of the five kinds, about a known kind of task or none, and with a known priority |
| `Answers.TraceIsOneAnswer` | src/lib/submit.c:602-646 | a trace result read piece by piece takes the bytes of one answer: its head and the events announced in it |
| `ClientLibrary.Library.ReadFull` | src/lib/submit.c:179-204 | exactly n bytes under any short reads, or EPIPE at the end of the stream |
| `ClientLibrary.Library.PeekHeader` | src/lib/submit.c:280-306 | eight bytes without taking them, EPIPE or EPROTO at the end |
| `ClientLibrary.Library.ReadCompletion` | src/lib/submit.c:421-456 | one completion with its payload, on every byte string |
| `ClientLibrary.Library.DrainPrefix` | src/lib/submit.c:458-490 | the drain function, on every byte string |
| `ClientLibrary.Library.Answer` | src/lib/submit.c:574-585 | the bytes of an answer, behind the completions that precede it |
| `ClientLibrary.Library.SubmitResult` | src/lib/submit.c:528-549 | the id accepted, the errno of a refusal, or EPROTO |
| `ClientLibrary.Library.ResourceResult` | src/lib/submit.c:551-572 | the id given, the errno of a refusal, or EPROTO |
| `ClientLibrary.Library.TraceResult` | src/lib/submit.c:602-646 | the events announced, or EPIPE, EPROTO or EOVERFLOW |
| `ClientLibrary.Library.Pop` | src/lib/submit.c:383-419 | the first buffered completion of the connection |
| `ClientLibrary.Library.Keep` | src/lib/submit.c:308-343 | a payload that is not empty goes behind those stored |
| `ClientLibrary.Library.WaitCompletion` | src/lib/submit.c:1530-1564 | buffered completions first, then the stream |
| `ClientLibrary.Library.CompletionPayload` | src/lib/submit.c:1566-1620 | the first payload stored for connection and task; EINVAL, EMSGSIZE, EPROTO otherwise |
| `EventLoop.EventLoop.QueueHandshakeResult` | src/daemon/main.c:1271-1306 | a refused handshake marks the connection for closing and leaves output pending |
| `EventLoop.EventLoop.ServiceReadable` | src/daemon/main.c:2018-2064 | a marked connection may enter the submit phase but has no request ready |
| `EventLoop.EventLoop.ServiceReadyInputs` | src/daemon/main.c:3530-3551 | every marked connection still has output pending and no request ready |
| `EventLoop.EventLoop.DispatchReady` | src/daemon/main.c:3477-3528 | only connections that were never refused are dispatched |
| `EventLoop.EventLoop.FlushAll` | src/daemon/main.c:3901-3928 | every refused connection is closed |
| `EventLoop.EventLoop.HandleEvents` | src/daemon/main.c:4092-4118 | whatever poll reports, a connection refused here is still in its handshake phase afterwards |
| `EventLoop.EventLoop.Run` | src/daemon/main.c:4001-4122 | over any number of rounds, inputs, socket answers and poll events, no refused connection ever has a request dispatched |

## Left out

- Trace events are emitted in `Trace` only; the daemon state has no trace ring, so which step emits which event is not modelled.
- Whether a client's output has room is a parameter of the daemon's steps; `OutputBuffer` models the buffer itself. That output never overflows is not claimed: reading is not throttled by pending output.
- Closing a refused connection once its reply is flushed is modelled in `EventLoop`; the daemon's steps allow it to go on, which is more than the source does.
- Payload and buffer contents inside the daemon: lengths only. Contents are modelled where bytes are the subject (`Wire`, `Parser`, `Demux`, `OutputBuffer`).
- Stats results and the `credits` and `resources_available` fields of results: derived numbers; the counters behind them are in `DaemonTheorems.Accounting`.
- Slots beyond the configured limit: a client is modelled with as many slots as its limit, since no loop of the daemon fills one beyond it.
- Parsing of SCM_RIGHTS control messages (src/daemon/main.c:1344-1357): an fd token may arrive with any chunk, or the control data may be wrong.
- The `io_uring_enter` call that fails after the tail was published (src/daemon/submit.c:158-162): the ring theorems hold for runs in which it does not.
- Rings.SubmissionRing.Push: one push stands for the eight functions that differ only in the fields of the entry; the fields are not modelled.
- Memory ordering on the shared rings: ring operations are atomic steps.
- Full round-robin fairness: the cursor moves inside the scan, so a pass can skip clients that are ready (`Dispatcher.PassCanSkip`) and serve lower bands before them.
- EventLoop.EventLoop.Run: termination of one read loop is by an arbitrary finite supply of input; poll events are arbitrary, whether or not they were asked for.
- 64-bit counters other than task ids are unbounded; generations and resource ids wrap at 32 bits as in the source.
- ClientLibrary.Library.PeekHeader: receive errors other than the end of the stream are not modelled, here and in `ReadFull`; an interrupted call is repeated and changes nothing.
- Runtime.Runtime.UpdateRegisteredFile: the refusal of an index outside the table is not in the contract; `DaemonTheorems.TableMirrorsSlots` proves that every index the daemon uses is inside.
- Null pointers and negative descriptors passed to the library.
- Allocation failures, and fd numbers reused by the application after it closes a connection with completions buffered.
- Start-up, argument parsing, signals, socket set-up, logging, metrics, shutdown, `src/lib/client.c` and `src/daemon/handshake.c`: I/O or straight-line code.
