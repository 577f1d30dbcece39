# Verified models of the fw framework

Dafny models of the parts of the framework whose correctness does not show from reading one
function: the lock-free ring buffer, the supervised thread pool, the event-driven file transfer and
the dispatcher around it, tokens and their revocation table, the id generator, stored passwords and
the middleware chain. `dafny verify dfyconfig.toml` checks everything.

Code that updates state in place is modelled by classes and loops, each proved equal to a
specification function; the theorems are about those functions. Code that several threads run at
once is modelled as a machine whose steps are single accesses to shared memory, and the theorems hold
over every schedule.

## Modules

- `Bits`, `Bytes`, `Scan`: `&`, `|`, `^`, shifts on numbers of any width, byte strings, searching
  and decimal numbers.
- `SpscProtocol`: the ring buffer under every interleaving of one producer, one consumer and a third
  thread that asks for the size. A position loaded earlier may be stale when it is used. The main
  result is that every schedule refines a FIFO queue. `SpscQueue` is the object itself, and its
  methods leave exactly the state that the protocol's steps leave. `SpscCalls` says what each call
  answers, over every schedule.
- `ThreadPool`: submitters, workers, supervisor and the thread that calls `start` and `stop`, with
  both locks, both condition variables, spurious wakeups and exceptions that leave a worker's loop at
  any point. `ThreadPoolSafety` holds task conservation and one live worker per slot,
  `ThreadPoolTasks` that the task dequeued is the task run, `ThreadPoolCalls` what `submit`, `start`
  and `stop` leave behind, `ThreadPoolProgress` and `ThreadPoolFirstPeriod` the accounts of slots and
  reports, `ThreadPoolSettle` that a pool left alone comes to rest, `ThreadPoolStranded` exactly when
  it can come to rest with a task still queued, `ThreadPoolService` that otherwise every fair run runs
  every task, `ThreadPoolStray` two runs after which it can, `ThreadPoolStop` exactly when `stop`
  returns, and `ThreadPoolLeftovers` exactly when it can return with a worker thread left.
- `Stream`: one transfer as functions over a tree of callbacks, where a callback fired inside
  `WriteBody` re-enters `pump`. `StreamProofs` and `StreamOutcome` have the theorems, `StreamObjects`
  the state object, writer and counters updated in place, `StreamCounters` any number of transfers
  sharing counters, `Router` the asynchronous task around a handler, and `Legacy` the blocking send
  loop.
- `Base64`, `Base64Url`, `Jwt`, `JwtProofs`: codecs, tokens, claims. `Blacklist`, `BlacklistProofs`:
  the revocation table against a set that never forgets.
- `Snowflake`, `SnowflakeProofs`: id layout, the generator over any clock, order and uniqueness.
- `Password`: the stored form and its verification. `Middleware`: the chain.

## What turned out false

Each claim below is natural and fails. The project holds the input that breaks it and the exact
condition.

- "The capacity loop always ends": it never does for a request above 2^63
  (`SpscQueue.DoublingReachesIff`).
- "A queued task in a running pool always has somebody to take it". Two families of runs break it. A
  report that names a slot whose present thread is healthy makes the supervisor block joining that
  thread, and then nobody replaces another worker that crashes; with two workers an ordinary `stop`
  and `start` leaves such reports behind, since finished ids are never cleared
  (`ThreadPoolStray.OrdinaryRestartCanStrandATask`). And a replacement created after `stop` has
  passed its slot survives into the next period, takes the one notification and crashes
  (`ThreadPoolStray.StrayWorkerCanStrandATask`). `ThreadPoolStranded.StrandsIff` gives the exact
  condition, and by `ThreadPoolService.EveryTaskRunIff` it is also exactly when some fair run leaves
  a task unrun; `FirstPeriodNeverStranded` says that the first period is safe.
- "`stop` always returns": a worker that has tested the wait condition but not yet gone to sleep
  misses the notification, because the flag falls without the task lock. It returns in every fair
  run exactly if no worker of this period is at that point when it is called, or some submitter has
  passed its own test of the flag and waits for the lock: that one still enqueues, and its
  notification wakes the worker (`ThreadPoolStop.StopCallReturnsIff`, `StopCanHangInARun`,
  `WaitingSubmitterRescuesStop`).
- "`stop` joins all threads" (the comment at include/fw/SupervisedThreadPool.hpp:44): it can return
  with a worker alive exactly if the supervisor is already past its last check of the flag, or a
  worker of an earlier period is left (`ThreadPoolLeftovers.StopLeavesWorkerIff`,
  `StopLeavesWorkerInARun`).
- "An empty file is always reported as sent": not if a callback finds the writer drained while the
  headers are written (`StreamProofs.EmptySucceedsIff`, `EmptyFileCanFail`).
- "The response is not ended before all bytes are handed over": a handler that throws after starting
  the transfer loses the handoff flag (`Router.NoEarlyEndIff`, `EarlyEndAfterRaise`).
- "Every response is ended": a handed-off transfer that fails on a read, with the writer still
  connected, is ended by nobody (`Router.ResponseEndsIff`, `FailedReadIsNeverEnded`).
- "Every task that runs reports its end to the tracker": not one whose own call to `End` throws
  (`Router.SkipsTrackerIff`, `ThrowingEndSkipsTracker`).
- "A revoked token stays rejected": a token evicted at the limit is accepted again
  (`BlacklistProofs.AgreesWithHistoryIff`, `EvictionForgets`).
- "Ids of one generator are unique": after an overflow that could not be waited out, the next call in
  the same millisecond continues at number 1 (`SnowflakeProofs.IncreasingIff`,
  `StandingClockRepeatsAnId`). On a clock that goes back the generator starts over at number 0 of the
  earlier millisecond (`OnAnyClock`, `ClockGoingBackRepeatsAnId`).
- The comment at include/fw/Middleware.hpp:11 says that a non-zero return aborts; the code never
  looks at it (`Middleware.NonZeroDoesNotAbort`). Wherever a layer is entered, nothing inside it runs
  exactly if it does not call `next` there (`InsideRunsIff`, `StopsTheRest`).
- A ring of capacity c holds c - 1 items, not c (`SpscProtocol.RefusedIffFull`).

## Model

| member | source | states |
|---|---|---|
| `Bits.BitwiseMeaning` | include/fw/SPSCQueue.inl:132 | and, or and exclusive or act digit by digit, for numbers of any size; the other rows rest on this reading of the operators |
| `Bits.AndMask` | include/fw/SPSCQueue.inl:37 | masking with 2^k - 1 is the remainder modulo 2^k |
| `Bits.AndPredecessor` | include/fw/SPSCQueue.inl:131-133 | `n & (n - 1)` is zero exactly for powers of two |
| `Bits.OrDisjoint` | src/IdUtil.cpp:87-90 | OR-ing a shifted value with one that fits below the shift adds them |
| `Bits.XorZero` | src/PasswordUtil.cpp:162-163 | exclusive or is zero exactly for equal operands |
| `Bits.OrZero` | src/PasswordUtil.cpp:162 | an accumulated OR is zero exactly if every operand was |
| `SpscProtocol.NextPosWraps` | include/fw/SPSCQueue.inl:37 | on a power-of-two capacity the masked increment steps once around the ring and stays inside it |
| `SpscProtocol.StepRefines` | include/fw/SPSCQueue.inl:35-82 | every atomic step of any thread keeps the invariant and does one of three things to the abstract queue: nothing, take the head, append at the tail |
| `SpscProtocol.FifoOverEverySchedule` | include/fw/SPSCQueue.inl:35-82 | in every interleaving, with stale positions: published items are the taken ones followed by the ring slots from read to write position; what `pop` returned is in order a prefix of that; at most capacity - 1 are held; with no call under way accepted = returned ++ held; the three counters count calls modulo 2^64 |
| `SpscProtocol.WriteSlotIsFree` | include/fw/SPSCQueue.inl:40-45 | a slot about to be written holds no queued item and is not the one the consumer is about to read |
| `SpscCalls.RefusedIffFull` | include/fw/SPSCQueue.inl:35-49 | over every schedule, when a `push` ends: it was refused, published nothing and counted one drop, exactly if capacity - 1 items were held at the moment it loaded the read position; otherwise its own item was accepted |
| `SpscCalls.MissedIffEmpty` | include/fw/SPSCQueue.inl:69-82 | over every schedule, when a `pop` ends: it failed exactly if the queue was empty at the moment it loaded the write position, and otherwise returns the item then at the head |
| `SpscCalls.SizeAnswers` | include/fw/SPSCQueue.inl:92-101 | over every schedule `size` answers, to the consumer, the length when it loaded the write position; to the producer, the length when it loaded the read position; to anybody else, the items published at the second load less those taken at the first, modulo the capacity |
| `SpscCalls.PromiseLasts` | include/fw/SPSCQueue.inl:85-101 | over every schedule a `size` or `empty` of the consumer that finds the queue non-empty is remembered until a `pop` ends, and that `pop` returns an item |
| `SpscCalls.CallsAreWaitFree` | include/fw/SPSCQueue.inl:35-101 | every call ends after at most five steps of its own thread, whatever the other side does |
| `SpscProtocol.SizeBounds` | include/fw/SPSCQueue.inl:92-101 | `size` is at most capacity - 1 for any thread; asked by the consumer it never exceeds the true length on return, asked by the producer it is never below it |
| `SpscProtocol.PromisedPopSucceeds` | include/fw/SPSCQueue.inl:85-89 | once the consumer saw a non-empty queue its next pop succeeds and takes the head |
| `SpscQueue.DoublingReachesIff` | include/fw/SPSCQueue.inl:123-126 | some iterate of the doubling loop reaches n exactly for n up to 2^63; past that the shift wraps to 0 |
| `SpscQueue.NextPowerOfTwo` | include/fw/SPSCQueue.inl:116-128 | for every n up to 2^63, 0 included: the least power of two that is at least n |
| `SpscQueue.ContentsAfterPush` | include/fw/SPSCQueue.inl:35-49 | the producer's steps run alone append the item, or leave the contents when capacity - 1 items are held |
| `SpscQueue.ContentsAfterPop` | include/fw/SPSCQueue.inl:69-82 | the consumer's steps run alone return the head and leave the rest, or return nothing exactly when the queue is empty |
| `SpscQueue.Queue.constructor` | include/fw/SPSCQueue.inl:13-25 | an empty ring whose capacity is the least power of two that is at least the request |
| `SpscQueue.Queue.Push` | include/fw/SPSCQueue.inl:35-49 | accepts below capacity - 1 items and then appends; the object ends as the protocol's own steps leave it, counters included |
| `SpscQueue.Queue.Pop` | include/fw/SPSCQueue.inl:69-82 | returns and removes the head, or fails and changes nothing when empty; ends as the protocol's own steps do |
| `SpscQueue.Queue.Empty` | include/fw/SPSCQueue.inl:85-89 | true exactly when the queue holds nothing |
| `SpscQueue.Queue.Size` | include/fw/SPSCQueue.inl:92-101 | the number of items held, also when the positions have wrapped |
| `SpscQueue.Queue.Clear` | include/fw/SPSCQueue.inl:109-113 | with the producer stopped it terminates and leaves the queue empty |
| `ThreadPoolSafety.TaskConservation` | src/SupervisedThreadPool.cpp:40-53 | over every schedule and any number of stops and starts: tasks accepted in lock order = tasks dequeued ++ tasks queued, so none is lost, doubled or overtaken |
| `ThreadPoolTasks.RunsWhatItTook` | src/SupervisedThreadPool.cpp:98-124 | over every schedule each thread runs exactly the tasks it dequeued, in that order, except that it may be running the last or have crashed with it |
| `ThreadPoolTasks.EachTaskRunsOnce` | src/SupervisedThreadPool.cpp:40-124 | over every schedule, as often as a task was accepted it has been run, or dropped by the crash of its thread, or is being run, or is still queued; without crashes nothing is dropped |
| `ThreadPoolCalls.SubmitAnswers` | src/SupervisedThreadPool.cpp:40-53 | over every schedule `submit` answers no exactly if it had no task, found the flag down, or found the queue at a positive limit when it held the lock; otherwise exactly its own task is appended |
| `ThreadPoolCalls.LimitIsLastSet` | src/SupervisedThreadPool.cpp:46-49 | the limit tested is the one last set, and none at first |
| `ThreadPoolCalls.StartMakesSlots` | src/SupervisedThreadPool.cpp:24-38 | `start(n)`, n positive, on a stopped or a running pool, leaves a running pool of exactly n slots, each live, reported or in the supervisor's hands, whenever it returns; `start(0)` does nothing |
| `ThreadPoolCalls.StopStops` | src/SupervisedThreadPool.cpp:60-76 | `stop` leaves a stopped pool without a supervisor whenever it returns, and does nothing on a pool that is not running |
| `ThreadPoolSafety.StartStopKeepsTasks` | src/SupervisedThreadPool.cpp:24-76 | no step of `start` or `stop` touches queued tasks; what was not taken at `stop` is there for the next `start` |
| `ThreadPoolSafety.QueueLimit` | src/SupervisedThreadPool.cpp:46-49 | while a positive limit is not changed the queue never exceeds it |
| `ThreadPoolSafety.ReachableSafe` | src/SupervisedThreadPool.cpp:24-159 | in every reachable state: the lock's owner, and nobody else, is in the critical section, a worker about to wait saw an empty queue that is still empty, the handle table names exactly the live threads of this period, and the phases of `start` and `stop` fit the running flag |
| `ThreadPoolSafety.OneThreadPerSlot` | src/SupervisedThreadPool.cpp:150-156 | no slot ever has two threads of one period that have not ended |
| `ThreadPoolProgress.ReachableSlots` | src/SupervisedThreadPool.cpp:78-96 | in every period of a running pool every slot is live, reported, or in the supervisor's hands: none is forgotten |
| `ThreadPoolProgress.NoReportIsMissed` | src/SupervisedThreadPool.cpp:78-143 | in every reachable state with a queued report the supervisor is neither asleep nor about to sleep; it may still be blocked in a join |
| `ThreadPoolStranded.NoStuckQueue` | src/SupervisedThreadPool.cpp:98-158 | from any sound running state without a worker of an earlier period in its loop, in every continuation without `start` and `stop`: while tasks are queued, a worker is in its loop unblocked, or a submitter owes its notification, or a slot's thread is ending or gone |
| `ThreadPoolStranded.StrandsIff` | src/SupervisedThreadPool.cpp:84-159 | in every reachable running state after `start`: some continuation without `start` and `stop` leaves a task queued with no worker, supervisor or submitter able to move, exactly if a worker of an earlier period is in its loop, or there are two slots and one of them has a report, queued, in hand or still to come from a worker of an earlier period, beyond the one its present thread owes once it has ended (a report while that thread lives, or a second one), or the queue has already lost everybody |
| `ThreadPoolStranded.FirstPeriodNeverStranded` | src/SupervisedThreadPool.cpp:84-159 | no reachable state of the first period has a queued task and no worker, supervisor or submitter able to move |
| `ThreadPoolStranded.ServiceIsBounded` | src/SupervisedThreadPool.cpp:84-159 | the moves of workers, supervisor and submitters alone change a running pool's state a bounded number of times |
| `ThreadPoolStranded.QueueEmptiesAtRest` | src/SupervisedThreadPool.cpp:98-113 | where the condition does not hold, a pool that has come to rest has emptied its queue, whatever submissions, crashes and wakeups came before |
| `ThreadPoolService.EveryTaskRunIff` | src/SupervisedThreadPool.cpp:40-159 | in every reachable running state after `start`: in every fair infinite run without `start` and `stop` in which new calls, limit changes, crashes and wakeups come to an end, the queue is from some moment on empty and every task ever accepted has been run as often as it was accepted, but for those a crash took, exactly if no task can be stranded |
| `ThreadPoolService.FirstPeriodServes` | src/SupervisedThreadPool.cpp:40-159 | in the first period every such run runs every task |
| `ThreadPoolSettle.StillMeans` | src/SupervisedThreadPool.cpp:98-158 | at rest every worker sleeps or has ended, nobody holds the lock or waits for it, and the supervisor sleeps with no report queued or is joining a sleeping worker |
| `ThreadPoolStop.MovesAreBounded` | src/SupervisedThreadPool.cpp:60-76 | while `stop` has not returned, workers, supervisor, submitters and caller together make at most seven moves per worker, one per slot, two per call already made and nine more, whatever new calls, crashes and wakeups come in between |
| `ThreadPoolStop.AlwaysAMoveLeft` | src/SupervisedThreadPool.cpp:60-76 | unless an awaited worker is blocked with no submitter bound to wake it, or the supervisor is with nobody to wake it, every schedule that has not let `stop` return leaves some worker, supervisor, submitter or the caller able to move |
| `ThreadPoolStop.StopCanHangIff` | src/SupervisedThreadPool.cpp:60-76 | from any reachable state in which `stop` is under way, some schedule leaves it hanging for good, with no move left to anybody, submitters included, exactly if an awaited worker is blocked with no submitter bound to wake it, or the supervisor is blocked with nobody to wake it |
| `ThreadPoolStop.StopCallCanHangIff` | src/SupervisedThreadPool.cpp:60-76 | from any reachable running state, some schedule after the call to `stop` leaves it hanging exactly if a worker of this period is between its test of the wait condition and the wait, and no submitter is waiting for the task lock |
| `ThreadPoolStop.StopReturnsIff` | src/SupervisedThreadPool.cpp:60-76 | from any reachable state in which `stop` is under way, it returns in every fair infinite run exactly if it cannot hang; fair means only that it is never so that from some moment on somebody can always move, submitters included, and nobody ever does |
| `ThreadPoolStop.StopCallReturnsIff` | src/SupervisedThreadPool.cpp:60-76 | from any reachable running state, `stop` returns in every fair run after the call exactly if no worker of this period is at that point, or some submitter is waiting for the task lock |
| `ThreadPoolStop.StopCanHangInARun` | src/SupervisedThreadPool.cpp:102-104 | `start(1)` and three steps of its worker reach a state from which `stop` can hang |
| `ThreadPoolStop.WaitingSubmitterRescuesStop` | src/SupervisedThreadPool.cpp:41-51 | a reachable state with a worker at that point and a submitter past its test of the flag, from which `stop` always returns |
| `ThreadPoolStop.ReachableStop` | src/SupervisedThreadPool.cpp:60-76 | in every reachable state past the notification of `stop` at most one worker is blocked, and while it sleeps with tasks queued some submitter owes a notification |
| `ThreadPoolLeftovers.StopLeavesWorkerIff` | src/SupervisedThreadPool.cpp:64-75 | from any reachable running state, some schedule lets `stop` return with a worker thread alive exactly if the supervisor is about to create a replacement, past its last check of the flag, or a worker of an earlier period has not ended |
| `ThreadPoolLeftovers.StopLeavesWorkerInARun` | src/SupervisedThreadPool.cpp:153-156 | one crash in the first period reaches a state from which `stop` can leave a thread behind |
| `ThreadPoolFirstPeriod.FirstPeriodSlots` | src/SupervisedThreadPool.cpp:126-158 | between the first `start` and the next `stop`: reports are distinct and name ended workers; live + reported + in hand = all slots; and no stray worker exists |
| `ThreadPoolFirstPeriod.JoinsOnlyEndedWorkers` | src/SupervisedThreadPool.cpp:150-152 | in the first period the supervisor never blocks on a worker that has not reported its end |
| `ThreadPoolStray.StrayWorkerCanStrandATask` | src/SupervisedThreadPool.cpp:153-156 | one crash, `stop` and `start` with one worker reach a running state with a late replacement beside the new worker, from which a task can be stranded |
| `ThreadPoolStray.OrdinaryRestartCanStrandATask` | src/SupervisedThreadPool.cpp:24-38 | `start(2)`, `stop`, `start(2)` reaches a state with every earlier worker ended from which a task can be stranded |
| `StreamProofs.HandOverKeepsInv` | src/StreamTransfer.cpp:89-98 | reducing `remaining` and clearing the callback before the write makes the invariant hold inside `WriteBody`, where re-entry happens |
| `StreamProofs.PumpKeepsInv` | src/StreamTransfer.cpp:71-111 | under every tree of re-entrant callbacks: bytes handed over are a prefix of the file from the start position, handed + remaining = length, and no `End` precedes the last byte |
| `StreamProofs.PumpCompletesOnce` | src/StreamTransfer.cpp:61-111 | every pump, nested ones included, completes the transfer at most once, closes its account exactly then, and succeeds only with all bytes handed over |
| `StreamProofs.LifeCompletesOnce` | src/StreamTransfer.cpp:22-188 | `send`, any callbacks, destruction: exactly one completion, one account opened and closed, and success only when exactly the requested bytes were handed over in order |
| `StreamProofs.EmptySucceedsIff` | src/StreamTransfer.cpp:168-177 | an empty transfer succeeds exactly when every callback during its headers and end found the writer connected and not drained; it writes its headers and one `End`, and nothing else |
| `StreamProofs.EmptyFileCanFail` | src/StreamTransfer.cpp:84-87 | one drained callback from inside the headers makes an empty file fail |
| `StreamProofs.HealthyPump` | src/StreamTransfer.cpp:78-110 | with nothing going wrong, synchronous re-entry moves exactly one block per poll of a drained writer, nested or not, a poll of a busy one changes nothing, and the transfer finishes exactly when nothing is left |
| `StreamProofs.HealthyTransferSucceeds` | src/StreamTransfer.cpp:115-188 | a request inside the file succeeds after enough healthy callbacks on a drained writer, however nested, inside the headers or later, with any number of callbacks on a busy writer among them, and delivers exactly its bytes |
| `StreamOutcome.OutcomeDecided` | src/StreamTransfer.cpp:61-111 | a non-empty transfer has failed exactly if the first thing of consequence a pump came across, nested ones included, is a writer that is gone, a read that yields nothing or a refused write; it has succeeded exactly if that is an accepted write with no bytes left; a busy writer is of no consequence; without any, the destructor reports failure |
| `StreamOutcome.VerdictMeans` | src/StreamTransfer.cpp:71-111 | first of consequence means that nothing before it was |
| `StreamOutcome.RequestDelivers` | src/StreamTransfer.cpp:115-148 | in the request's own terms: success means that exactly the bytes from `rangeStart` to `rangeEnd`, both included, or exactly the first `fileSize` bytes were handed over; one transfer and those bytes are counted, and an error exactly without success |
| `StreamOutcome.EmptyIffNothingAsked` | src/StreamTransfer.cpp:116-186 | the handoff is marked exactly for requests of at least one byte, or of a negative length |
| `StreamOutcome.TwoBytesOfFour` | src/StreamTransfer.cpp:116-119 | the range 1-2 of four bytes, on a writer that is busy once, delivers the second and third byte |
| `StreamOutcome.HeadersOnceAndFirst` | src/StreamTransfer.cpp:150-183 | the headers are written once, before anything else |
| `StreamObjects.PumpLowersRemaining` | src/StreamTransfer.cpp:93 | no tree of callbacks gives bytes back, which is what ends the recursion |
| `StreamObjects.TransferState.constructor` | src/StreamTransfer.cpp:132-148 | a new state object starts at the requested position, with everything left to send and nothing reported |
| `StreamObjects.TransferState.TakeBlock` | src/StreamTransfer.cpp:89-98 | position, `remaining` and the cleared callback are those of the specification before the writer is called |
| `StreamObjects.TransferState.Pump` | src/StreamTransfer.cpp:71-111 | the in-place callback terminates under re-entry and ends in the state its specification gives |
| `StreamObjects.TransferState.WriteBody` | src/StreamTransfer.cpp:100 | the writer takes the block and may fire callbacks before it returns; re-entry starts from less remaining |
| `StreamObjects.TransferState.Fire` | src/StreamTransfer.cpp:169 | a list of events runs the registered callback for each, for as long as it is still registered |
| `StreamObjects.TransferState.Finish` | src/StreamTransfer.cpp:61-68 | closes the account, drops the callback and reports, once |
| `StreamObjects.TransferState.Destroy` | src/StreamTransfer.cpp:33-39 | the destructor reports failure exactly for an unfinished transfer |
| `StreamObjects.Send` | src/StreamTransfer.cpp:115-188 | all paths: the three early errors report once and leave counters and writer alone; otherwise the state object, writer and counters are what the specification gives, and the handoff is marked exactly for non-empty requests |
| `StreamObjects.TransferStats.RecordStart` | include/fw/IFileTransfer.hpp:29-34 | one more transfer in total and active, its bytes added |
| `StreamObjects.TransferStats.RecordEnd` | include/fw/IFileTransfer.hpp:35-41 | one active transfer fewer, one error more unless it succeeded |
| `StreamCounters.SentCompletesOnce` | src/StreamTransfer.cpp:115-188 | every accepted `send`, empty and negative lengths included, opens one account and completes at most once |
| `StreamCounters.CountersAlwaysBalance` | include/fw/IFileTransfer.hpp:29-41 | over any run of transfers, callbacks and destructions: total = started, active = started - ended, bytes = sum requested, each ended transfer was reported exactly once, and errors are those reported as failed besides some that ended with no callback to tell |
| `Router.NoEarlyEndIff` | src/Router.cpp:89-110 | for a non-empty transfer, no `End` reaches the writer before its last byte under any later callbacks, exactly when no exception left the handler once the transfer had started, or all bytes were already handed over |
| `Router.EarlyEndAfterRaise` | src/Router.cpp:89-110 | a handler that throws after `send`, before any callback: `End` follows the headers with no byte in between |
| `Router.TaskCompletesOnce` | src/StreamTransfer.cpp:33-39 | whatever way `send`, the handler and the task are left and whatever callbacks follow: exactly one completion for a handler that called `send` with a callback, refusals and destruction while the headers are prepared included; an opened account is closed once; success means every byte was handed over |
| `Router.TaskEndsIff` | src/Router.cpp:89-110 | for every task, refusals, empty files and exceptions included: the response is handed over exactly if the handler returned after starting a non-empty transfer; if not, `End` is the last event exactly if there is a writer, behind everything written before, and without a writer nothing is written; if so, an `End` is there exactly if a callback inside the headers handed over the last byte and had its write accepted |
| `Router.OrdinaryResponseIsEnded` | src/Router.cpp:106-108 | a handler without a transfer: `End` is all the task writes |
| `Router.ResponseEndsIff` | src/Router.cpp:106-108 | an `End` has reached the writer of a non-empty transfer exactly if an exception left the handler, or the last byte was handed over and one of the pumps then under way, nested ones included, had its write accepted |
| `Router.FailedIsNeverEnded` | src/StreamTransfer.cpp:84-87 | a handed-off transfer that failed before its last byte is never ended, whatever callbacks still fire |
| `Router.FailedReadIsNeverEnded` | src/StreamTransfer.cpp:82-87 | one read that delivers nothing, on a connected and drained writer, is such a failure |
| `Router.SkipsTrackerIff` | src/Router.cpp:90-109 | a task skips its -1 exactly if it calls `End` itself, which it does with a writer and no handoff, and that call throws; exceptions out of the handler at any point do not matter |
| `Router.ThrowingEndSkipsTracker` | src/Router.cpp:106-109 | one request whose own `End` throws leaves the tracker at one |
| `Router.TrackerCountsOutstanding` | src/Router.cpp:87-118 | the tracker's sum is always the number of requests whose task has not run plus those whose `End` threw |
| `Router.TrackerAtRestIff` | src/Router.cpp:87-118 | the tracker is back at zero exactly when every task has run and no `End` threw |
| `Router.ExecuteChain` | src/Router.cpp:92-103 | an exception before, inside or after `send` reaches the `catch` with writer, counters, transfer and completions as the calls up to it left them |
| `Router.ExecuteRaising` | src/StreamTransfer.cpp:150-180 | an exception while the headers are prepared destroys the state object, which closes its account and reports failure; one while they are written leaves it alive through the writer's callback with nothing reported aside |
| `Router.ExecuteTask` | src/Router.cpp:89-110 | on every path writer, counters, transfer, completions and tracker end as specified; an exception out of `End` skips the tracker |
| `Legacy.AwaitDrain` | src/LegacyTransfer.cpp:133-142 | the wait looks at most 6000 times; every look but the last found the writer connected and the buffer above the threshold; the last did too exactly if the wait timed out, and then there were 6000 |
| `Legacy.WriteBlock` | src/LegacyTransfer.cpp:143-149 | reads up to a block and writes it; the loop may go on exactly if the read was complete, the write accepted and the writer still connected |
| `Legacy.SendBlock` | src/LegacyTransfer.cpp:132-150 | one round sends its block exactly if the wait ended connected and below the threshold and the block could be read and written |
| `Legacy.RoundDecides` | src/LegacyTransfer.cpp:132-150 | all of what remains can be sent exactly if this block can and then all of the rest can |
| `Legacy.HealthyAllSent` | src/LegacyTransfer.cpp:132-150 | with nothing going wrong every block can be sent |
| `Legacy.Rounds` | src/LegacyTransfer.cpp:132-150 | the loop ends and has nothing left to send exactly if every block can be sent |
| `Legacy.SendLoop` | src/LegacyTransfer.cpp:128-152 | for every pattern of short reads, drains, disconnects and failed writes it succeeds exactly if every block can be sent; what it wrote is a prefix of the file from the start position, success means exactly the requested bytes, no write leaves more than 4 MiB + 256 KiB buffered, and with nothing going wrong it succeeds |
| `Legacy.SentIffCleanRounds` | src/LegacyTransfer.cpp:128-152 | every block can be sent exactly if in each round one of at most 6000 looks finds at most 4 MiB buffered, all looks find the writer connected, 256 KiB or the rest can be read, the write is not refused and the writer is still connected: nothing else fails the transfer |
| `Base64.PackBytes` | src/PasswordUtil.cpp:20-26 | the three shifted and OR-ed bytes are one 24-bit number |
| `Base64.UnpackDigits` | src/PasswordUtil.cpp:27-30 | the shifted and masked parts are its four base-64 digits |
| `Base64.RoundTrip` | src/PasswordUtil.cpp:15-73 | decoding inverts encoding on every byte string (section 4 of RFC 4648) |
| `Base64.EncodeInjective` | src/PasswordUtil.cpp:15-33 | different byte strings have different encodings |
| `Base64.TablesAreTheAlphabet` | src/PasswordUtil.cpp:16 | symbol v is character v of Table 1 of RFC 4648, the decoder's table is its inverse, and every byte outside it but the padding is foreign |
| `Base64.QuadMeans` | src/PasswordUtil.cpp:56-71 | any four bytes decode to nothing if one of the first two is foreign, and otherwise to the leading one, two or three bytes of the number their symbols spell |
| `Base64.DecodedStops` | src/PasswordUtil.cpp:55-63 | decoding stops at the first such quadruple and ignores up to three bytes at the end |
| `Base64.EncodeBlock` | src/PasswordUtil.cpp:20-30 | one round of shifts and masks yields the four symbols of the group that starts there, padded when the input ends |
| `Base64.Encode` | src/PasswordUtil.cpp:15-33 | the loop encodes the whole input, group by group, padding the last |
| `Base64.DecodeBlock` | src/PasswordUtil.cpp:64-70 | one round yields one to three bytes, fewer at padding or at an invalid symbol |
| `Base64.Decode` | src/PasswordUtil.cpp:35-73 | the loop decodes quadruples up to the first whose leading symbols are invalid, on any input |
| `Base64Url.UrlRoundTrip` | src/JwtUtil.cpp:27-112 | decoding inverts encoding on every byte string of every length (section 5 of RFC 4648) |
| `Base64Url.UrlEncodedShape` | src/JwtUtil.cpp:46-57 | length is ceil(4n/3), every symbol is URL-safe, and there is no padding and no dot |
| `Base64Url.UrlEncodeInjective` | src/JwtUtil.cpp:27-58 | different byte strings have different encodings |
| `Base64Url.UrlTableIsTheAlphabet` | src/JwtUtil.cpp:46-68 | the symbols are those of Table 2 of RFC 4648: only 62 and 63 differ, as `-` and `_` |
| `Base64Url.UrlEncode` | src/JwtUtil.cpp:27-58 | replacing in place and popping padding yields the specified encoding |
| `Base64Url.UrlDecode` | src/JwtUtil.cpp:60-112 | replacing in place and re-padding to a multiple of four yields the specified decoding, on any input |
| `Scan.DigitsRoundTrip` | src/JwtUtil.cpp:130-220 | a printed number reads back as itself |
| `Jwt.Sign` | src/JwtUtil.cpp:124-138 | the method builds the compact form of section 7.1 of RFC 7515 with the issue time and expiry in its payload |
| `Jwt.ReadClaim` | src/JwtUtil.cpp:193-251 | the position-advancing reader returns the claim's value, or 0 for a missing dot, key, colon or number, or one past 64 bits |
| `Jwt.CheckSignature` | src/JwtUtil.cpp:141-162 | true exactly for three parts of which the third is the encoded keyed hash of the first two |
| `Jwt.CheckClaims` | src/JwtUtil.cpp:164-176 | true exactly for an expiry in the future and an issue time not before the configured start |
| `Jwt.Verify` | src/JwtUtil.cpp:140-184 | true exactly for three parts, a matching keyed hash, an expiry in the future, an issue time not before the start, and no entry in the table |
| `Jwt.Revoke` | src/JwtUtil.cpp:257-291 | revokes under the token's own expiry and hands exactly that to the persistence callback, or does nothing for a token without one |
| `JwtProofs.PayloadExp` | src/JwtUtil.cpp:203-220 | the reader finds the expiry the signer printed, past the issue time and every other quote and colon; one that does not fit in 64 bits reads as 0 |
| `JwtProofs.PayloadIat` | src/JwtUtil.cpp:233-250 | the reader finds the issue time the signer printed; one that does not fit in 64 bits reads as 0 |
| `JwtProofs.ReadsNumberBehindBlanks` | src/JwtUtil.cpp:203-220 | spaces and tabs between a claim's colon and its number do not matter |
| `JwtProofs.SignedClaims` | src/JwtUtil.cpp:124-251 | for any secret and keyed hash the claims read back are now + lifetime and now, as long as they fit in 64 bits |
| `JwtProofs.SignedVerifiesIff` | src/JwtUtil.cpp:124-184 | a signed token is accepted later exactly under an agreeing hash, before a positive expiry, if not issued before the start and not revoked |
| `JwtProofs.AcceptedTokenShape` | src/JwtUtil.cpp:142-162 | every accepted token is two dot-free parts and the encoded keyed hash of exactly those |
| `JwtProofs.AcceptedCarriesExpiry` | src/JwtUtil.cpp:164-220 | whatever bytes it consists of, an accepted token carries between its first two dots the key, a colon, blanks and the digits of an expiry that fits in 64 bits and lies in the future |
| `JwtProofs.VerifyAgainstHistory` | src/JwtUtil.cpp:140-331 | after any sequence of revocations, cleanups, loads and limit changes `verify` accepts exactly the sound unexpired tokens never revoked, plus those evicted and not put back |
| `Blacklist.PurgedMeans` | src/JwtUtil.cpp:265-271 | purging keeps exactly the unexpired entries, in order |
| `Blacklist.EvictedMeans` | src/JwtUtil.cpp:273-282 | eviction leaves limit - 1 entries if there were more, and each one removed expires no later than each one kept |
| `Blacklist.InsertedMeans` | src/JwtUtil.cpp:283-286 | inserting keeps the order, adds exactly the entry, and leaves an existing entry for the token alone |
| `Blacklist.Table.Purge` | src/JwtUtil.cpp:265-271 | the erasing loop ends and leaves exactly the purged table |
| `Blacklist.Table.FindOldest` | src/JwtUtil.cpp:275-280 | the search returns the first of the entries that expire first |
| `Blacklist.Table.Evict` | src/JwtUtil.cpp:273-282 | the nested loops end and leave exactly the evicted table |
| `Blacklist.Table.LowerBound` | include/fw/JwtUtil.hpp:37-41 | the search by token order alone finds the place that separates the smaller tokens from the others |
| `Blacklist.FoundThere` | include/fw/JwtUtil.hpp:37-41 | a token is in the sorted table exactly if the entry at that place is not above it |
| `Blacklist.Table.Insert` | src/JwtUtil.cpp:283-286 | in a sorted table: the token is there afterwards, the order is kept, exactly the entry is added, and nothing changes for a token already there |
| `Blacklist.Table.Revoke` | src/JwtUtil.cpp:262-291 | purge, evict, insert, persist, in this order; nothing at all for a token without expiry |
| `Blacklist.Table.IsRevoked` | src/JwtUtil.cpp:293-299 | the search by token order returns true exactly if some entry has the token, whatever its stored expiry |
| `Blacklist.Table.Cleanup` | src/JwtUtil.cpp:301-311 | removes exactly the expired entries |
| `Blacklist.Table.LoadEntries` | src/JwtUtil.cpp:318-326 | inserts in the given order without purging or evicting |
| `Blacklist.Table.SetMaxEntries` | src/JwtUtil.cpp:328-331 | changes the limit and evicts nothing: the new limit applies from the next revocation on |
| `BlacklistProofs.RevokeMeans` | src/JwtUtil.cpp:257-291 | after revoking a token with an expiry it is in the table, a positive limit is met however large the table was, and exactly the excess of unexpired entries was evicted, earliest expiry first |
| `BlacklistProofs.ReachableInv` | src/JwtUtil.cpp:257-331 | over every run on a clock that does not go back: the table is sorted, each entry belongs to a token once revoked or loaded and lasts at least as long as that token, and every token ever revoked is present, expired, without expiry, or evicted |
| `BlacklistProofs.AgreesWithHistoryIff` | src/JwtUtil.cpp:164-181 | the purged and capped table answers like a set of everything ever revoked, except for exactly the evicted tokens that are otherwise still acceptable |
| `BlacklistProofs.AgreesWhenNothingEvicted` | src/JwtUtil.cpp:164-181 | if every revocation found room, the answers agree for every token and every later time |
| `BlacklistProofs.EvictionForgets` | src/JwtUtil.cpp:273-282 | with a limit of one, revoking a second token makes the first acceptable again |
| `Snowflake.PackIsSum` | src/IdUtil.cpp:87-90 | for every timestamp the OR of the shifted fields is their sum, and fits in 64 bits |
| `Snowflake.FieldsRecoverable` | include/fw/IdUtil.hpp:19-28 | time, datacenter, worker and sequence can each be read back from the id |
| `Snowflake.Create` | src/IdUtil.cpp:30-42 | a generator exists exactly for ids from 0 to 31 and starts with no last time |
| `Snowflake.Generator.AwaitNext` | src/IdUtil.cpp:58-77 | the polling loop ends, with the time and reading its specification gives: after five readings, or on the first later or earlier time |
| `Snowflake.Generator.NextId` | src/IdUtil.cpp:50-91 | the in-place method with its polling loop ends in the state its specification gives, on any clock, reading the clock as often |
| `SnowflakeProofs.GeneratorsNeverCollide` | src/IdUtil.cpp:87-90 | generators with different identities never issue the same id, in any two runs over any two clocks |
| `SnowflakeProofs.ReadsAreBounded` | src/IdUtil.cpp:58-63 | every call reads the clock at least once and at most six times |
| `SnowflakeProofs.OnAnyClock` | src/IdUtil.cpp:50-91 | on any clock, backwards too: in another millisecond than the last, number 0 of that; in the same, the next number; after number 4095 up to five more readings, and number 0 of the first other time if that is later, or a failure that leaves number 0 behind |
| `SnowflakeProofs.ZeroMeansFailed` | src/IdUtil.cpp:66-76 | in range an id is 0 exactly for a failed call, or for number 0 of the epoch's first millisecond of generator 0, 0 |
| `SnowflakeProofs.ClockGoingBackRepeatsAnId` | src/IdUtil.cpp:50-91 | a clock that goes back by a millisecond and forward again repeats an id |
| `SnowflakeProofs.FailsIff` | src/IdUtil.cpp:52-77 | on a clock that does not run back, a call fails exactly after number 4095 when all six readings show that number's millisecond |
| `SnowflakeProofs.NextSettled` | src/IdUtil.cpp:50-91 | the same, and otherwise a call issues the next number of this millisecond or number 0 of a later one |
| `SnowflakeProofs.IncreasingIff` | src/IdUtil.cpp:50-91 | over any run on a non-decreasing clock in range, ids strictly increase exactly when no failed call is followed by one in the same millisecond |
| `SnowflakeProofs.StandingClockRepeatsAnId` | src/IdUtil.cpp:74-76 | on a clock that stands still, call 4097 fails and call 4098 repeats the second id |
| `Password.ConstantTimeEqual` | src/PasswordUtil.cpp:160-165 | the accumulated difference is zero exactly when all bytes agree |
| `Password.Hash` | src/PasswordUtil.cpp:75-104 | the stored form of salt and derived bytes, or nothing when the random source or the derivation fails |
| `Password.Verify` | src/PasswordUtil.cpp:106-171 | prefix, two separators, a positive 32-bit count, non-empty salt and hash, and a derivation that gives exactly that hash; false otherwise |
| `Password.VerifyFields` | src/PasswordUtil.cpp:117-134 | splits at the first two separators and fails when one is missing |
| `Password.VerifyParts` | src/PasswordUtil.cpp:127-131 | fails on a count that does not parse or is not positive |
| `Password.Derive` | src/PasswordUtil.cpp:136-165 | decodes both fields, fails on an empty one, and compares all derived bytes |
| `Password.EncodedHasNoDollar` | src/PasswordUtil.cpp:94-98 | no encoded field can contain the separator |
| `Password.StoiDigits` | src/PasswordUtil.cpp:127-128 | a printed count below 2^31 parses to itself |
| `Password.StoiReads` | src/PasswordUtil.cpp:127-128 | leading space and one sign are read over, what follows the digits is ignored, and a value outside 32 bits is no number |
| `Password.StoiNeedsDigits` | src/PasswordUtil.cpp:127-128 | without a digit there is no number |
| `Password.AcceptedIff` | src/PasswordUtil.cpp:106-171 | any bytes are accepted exactly if they are the prefix and three fields, the first two free of the separator, with a positive 32-bit count, a salt and a hash that decode to something, and that hash is what the password derives |
| `Password.StoredVerifiesIff` | src/PasswordUtil.cpp:94-171 | a stored form is accepted for exactly the passwords that derive its hash |
| `Password.HashVerifiesIff` | src/PasswordUtil.cpp:75-171 | what `hash` stores for a password is accepted for it, and for another exactly when both derive the same bytes; after a failure it is accepted for none |
| `Middleware.LayerRespects` | src/Middleware.cpp:32-34 | a layer cannot tell apart continuations that answer alike |
| `Middleware.Composition` | src/Middleware.cpp:25-35 | from any position, running A ++ B around a handler is running A around "B around the handler" |
| `Middleware.ExecuteComposes` | src/Middleware.cpp:21-23 | the same for whole chains |
| `Middleware.StopsTheRest` | src/Middleware.cpp:25-35 | a layer that does not call `next` makes everything inside it irrelevant, and its return value is what the layer outside sees |
| `Middleware.InsideRunsIff` | src/Middleware.cpp:25-35 | wherever a layer is entered, with any context and any events before: nothing is noted inside it exactly if it does not call `next` in that context |
| `Middleware.NonZeroDoesNotAbort` | src/Middleware.cpp:25-35 | around a layer that returns any code, everything inside has run and left its context, and the layers outside carry on with that code as the reply of their `next` |
| `Middleware.WatchedRun` | src/Middleware.cpp:25-35 | running the chain with each layer and the handler noting its events changes no reply, and what is noted is the trace |
| `Middleware.HandlerRunsProduct` | src/Middleware.cpp:25-35 | if layer i calls `next` exactly k_i times, an execution notes the product of all k_i runs of the handler |
| `Middleware.OnionOrder` | src/Middleware.cpp:25-35 | if every layer calls `next` once, an execution enters and leaves in the order of the onion |
| `Middleware.OnionIsMirrored` | src/Middleware.cpp:25-35 | position i from the front of the onion enters layer i, position i from the back leaves it, the handler is in the middle |
| `Middleware.Chain.Use` | src/Middleware.cpp:8-12 | appends one layer, innermost |

## Left out

- `SpscProtocol.FifoOverEverySchedule`: steps are sequentially consistent with stale local copies; weaker memory orders are not modelled.
- `SpscQueue.Queue.Push`: the copying and the moving overload have one body in the source up to `std::move` and one model; a moved-from slot may hold anything.
- `ThreadPoolSafety.ReachableSafe`: the pool is a machine on values, since its members are touched by several threads at once; the data race on `m_workers` between `stop` and the supervisor is serialised, and a failing allocation in `pushFinished` is not modelled.
- `ThreadPoolSafety.TaskConservation`: an exception may leave a worker's loop anywhere, which over-approximates the source, where tasks' own exceptions are caught.
- `ThreadPoolStop.StopReturnsIff`: a task is assumed to end; in the model its end is one of the worker's moves.
- `ThreadPoolService.EveryTaskRunIff`: the same; and nothing is said of runs in which workers crash, or calls come in, for ever.
- `StreamProofs.LifeCompletesOnce`: one thread with re-entry; callbacks and the task are never concurrent, `onComplete` neither throws nor calls back, and an environment that destroys the state early is the event list ending early.
- `StreamProofs.PumpCompletesOnce`: says nothing about how often `End` is called; an outer pump repeats it after a nested pump has finished.
- `StreamObjects.TransferStats.RecordEnd`: the accumulated duration and 64-bit overflow of the counters are not modelled.
- `Router.ExecuteTask`: a handler starts at most one transfer, the tracker callback itself does not throw, and exceptions from inside a callback that `send` fires are not told apart from those of `send`; the synchronous handlers and route registration are not modelled.
- `Legacy.SendLoop`: the loop only; the small-file branch, the fallback without writer, headers and error returns of the legacy `send` are straight-line code. A writer that has disconnected stays disconnected between two neighbouring checks.
- `Jwt.Verify`: one atomic call with one clock value; the keyed hash is an arbitrary function, and overflow of now + lifetime past 64 bits is excluded where a claim is read back.
- `Blacklist.Table.Revoke`: the mutex, an exception out of the persistence callback and the narrowing of the set's size to `int` are not modelled; the set's tree is a sorted sequence searched by halving.
- `BlacklistProofs.AgreesWithHistoryIff`: loaded entries must live at least as long as their token's own expiry, and the clock must not run back.
- `SnowflakeProofs.IncreasingIff`: the clock stays within 2^41 ms of the epoch and does not run back; a backwards clock is accepted by the source and can repeat ids.
- `Snowflake.PackIsSum`: a shift that leaves 64 bits wraps around; the language of the source leaves it open.
- `Password.Verify`: the derivation is an arbitrary function that may fail; the narrowing of sizes to `int` and builds without OpenSSL are not modelled.
- `Middleware.HandlerRunsProduct`: a layer's number of calls is bounded per context it is entered with, calls do not throw, and `next` is not kept for later.
- Ids derived from the host name or hardware address, UUIDs and their text forms.
- HTTP, TCP and WebSocket transports, the application object, the lock-free multi-producer queue, flow control, path guards, JSON and configuration: wrappers around libhv and Boost, or easy members.
