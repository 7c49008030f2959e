# Concurrency exercises: verified models

A Dafny model of the concurrent programs and servers under `exersises/concurrency`, with proofs of
what they guarantee, and of exactly where they do not.

There are three groups.

- **Semaphore and lock protocols** (`ReaderWriter`, `ReaderWriterNoStarve`, `Zemaphore`,
  `FifoMutex`, `FifoMutexService`, `VectorAdd`, `VectorProgress`, `VectorDriver`, `Barrier`,
  `RacyCounter`). A state holds the shared variables and a program point per thread; `Enabled` says
  who can move and `Step` what one atomic operation does; `Runs` and `After` range over every
  schedule. The number of threads, loops, vectors and their length are parameters. `Zemaphore`
  justifies the atomic semaphore operations that the other protocols use.
- **Sloppy counters** (`SloppyCounter`). The per-thread and the per-CPU version are one model with a
  mapping of threads to slots and a threshold as parameters.
- **File servers** (`FileCache`, `FreshReads`, `Framing`, `Chunking`, `AioServer`, `AioAnswers`,
  `AioStale`, `AioContract`, `AioClient`, `AioLoop`, `AioPasses`). The caches, the request buffer
  and the AIO server's functions are imperative code on arrays, maps and fields, proved against
  functions on values; the theorems are about those functions and about every run of events. What
  sockets, files and allocations do is part of an event. In `AioLoop` the globals are the server's
  own (structs in an array that is compacted by moving the last one, pointers that may be NULL,
  sizes and offsets, the cache array) and a relation says what abstract state they stand for;
  histories are ghost. `AioContract` and `AioClient` say from outside what clients get: which answer
  each request calls for, and what can be read out of the bytes sent.

`Sums` holds the sums over threads on which the counting arguments rest.

To check everything: `dafny verify dfyconfig.toml`.

## What the code does not do

Some properties that the programs suggest are false of the code; each has a lemma that says exactly
when they hold.

- `mutex-nostarve.c` is meant to be starvation-free, but `release` leaves `tail` behind when the
  queue drains. From then on every waiter is lost; before, every waiter is served within a bound
  under every schedule (`FifoMutexService.ServedExactlyUnlessDrained`; a run is
  `FifoMutexService.ShownReleaseLosesWaiter`). With `tail` cleared nobody is lost.
- `vector-avoid-hold-and-wait.c` deadlocks if and only if a call has `dst == src`
  (`VectorProgress.AcquisitionLockExact`).
- `vector-deadlock.c` deadlocks under the driver exactly for the switches named by
  `VectorProgress.DriverDeadlockExact`.
- `t1.c` prints what it says it should exactly if every store finds the counter as its load found
  it (`RacyCounter.PrintsShould`); the set of values it can print is `RacyCounter.PrintedValuesExact`.
- The Rust server reads whole chunks into a growable buffer and looks at its length only after taking
  out lines, so what becomes of a long line depends on how the input is cut: for exactly the streams
  of `Chunking.CutMattersExactly`.
- A flush of the AIO server's cache keeps older content out of the cache, and out of later answers,
  exactly if no read is in flight: `AioStale.StaleExactlyWhenReading` and
  `AioStale.StaleAnswersExactlyWhenReading`; a run is `AioStale.StaleAnswer`.
- The AIO server does not compare what a read delivered with what it asked for. A response is the
  header and the bytes read exactly if the read was full (`AioAnswers.WholeExactly`, and for whole
  runs `AioAnswers.OnlyFileBytesExactly`); a run with a short read is `AioStale.ShortReadAnswer`.

The header comment of `file-server.c` calls its cache LRU-like; the code, and the comment next to
the cache, are FIFO, and so is the model.

## Modelling decisions

- Integers are mathematical; `int` overflow of counters is outside the model.
- Locking a default mutex twice from the same thread blocks for ever.
- A condition signal wakes exactly one sleeper if there is one; any further wakeup is a spurious
  one, and these may happen at any time. `Zem_init` may be given a negative value.
- In `mutex-nostarve.c` the code between taking `guard` and the next semaphore operation is one
  step, and each `acquire` has a node of its own that is never recycled.
- Of the two element loads of `vector_add` the model makes that of the destination first.
- Vector identities are ordered like their addresses; a lock-point log and similar histories are
  part of the states and are never read by a step.
- A resolved path fits PATH_MAX, so copying a key never truncates it.
- In the framing model `up(k)` says whether the k-th reply of a connection can be written; a
  failure ends the connection.
- In the freshness model reading a file is atomic and a reply stands for the version it carries.
- For the AIO server: clients and buffers have abstract identities, small synchronous sends complete,
  a file sent by sendfile does not change meanwhile, a read delivers at most the bytes asked for, and
  a write or sendfile takes any number of the bytes offered. In `AioServer` events of different
  clients come in any order; `AioLoop` shows that the order of the event loop is one of them.

## Model

| member | source | states |
|---|---|---|
| `ReaderWriterNoStarve.WriterBypassBounded` | exersises/concurrency/semaphores/exercise/reader-writer-nostarve.c:25-54 | From any reachable state in which a writer has closed `blockNewReader` and waits on `writelock`, for any number of threads and every schedule: the others together take at most 11(n-1) steps before it moves, some thread can always move, and its own next step puts it inside |
| `ReaderWriterNoStarve.BypassCosts` | exersises/concurrency/semaphores/exercise/reader-writer-nostarve.c:25-54 | While a writer waits behind the closed turnstile, every step of any other thread leaves it waiting and strictly lowers a measure summed over all threads |
| `ReaderWriterNoStarve.BypassRun` | exersises/concurrency/semaphores/exercise/reader-writer-nostarve.c:25-54 | The same over whole schedules: the length of any schedule that passes the writer is bounded by the fall of the measure |
| `ReaderWriterNoStarve.TurnstileHolds` | exersises/concurrency/semaphores/exercise/reader-writer-nostarve.c:26-27 | A reader still in front of the turnstile takes no step at all while the writer waits |
| `ReaderWriterNoStarve.StepRefines` | exersises/concurrency/semaphores/exercise/reader-writer-nostarve.c:25-54 | With the turnstile erased, a step on it is invisible and every other step is an enabled step of the plain lock with the same effect |
| `ReaderWriterNoStarve.RefinesPlain` | exersises/concurrency/semaphores/exercise/reader-writer-nostarve.c:25-54 | Erasing the turnstile turns every run into a run of the plain lock ending in the corresponding state |
| `ReaderWriterNoStarve.StepKeepsInv` | exersises/concurrency/semaphores/exercise/reader-writer-nostarve.c:18-54 | Each step keeps the plain lock's invariant on the erased state, and the turnstile is free or has exactly one holder |
| `ReaderWriterNoStarve.MutualExclusion` | exersises/concurrency/semaphores/exercise/reader-writer-nostarve.c:25-84 | In every run a writer inside excludes all readers and all other writers, and `readers` counts exactly the readers between increment and decrement |
| `ReaderWriterNoStarve.InvNeverStuck` | exersises/concurrency/semaphores/exercise/reader-writer-nostarve.c:25-54 | In every state satisfying the invariant, if some thread is unfinished some thread can move |
| `ReaderWriterNoStarve.DeadlockFree` | exersises/concurrency/semaphores/exercise/reader-writer-nostarve.c:25-84 | Every run either has finished all threads or can be continued |
| `ReaderWriterNoStarve.FinalValue` | exersises/concurrency/semaphores/exercise/reader-writer-nostarve.c:75-109 | When all threads have finished, `value` (incremented by a load and a store) is writers times loops and every semaphore and counter is back at its initial value |
| `ReaderWriterNoStarve.ProgramEnds` | exersises/concurrency/semaphores/exercise/reader-writer-nostarve.c:65-111 | Under every schedule the program ends within 13 steps per thread and round, and a run that cannot go on has finished every thread with `value` at writers times loops |
| `ReaderWriter.StepKeepsInv` | exersises/concurrency/semaphores/exercise/reader-writer.c:17-47 | Each step keeps the accounting of `readers`, `readerLock`, `writelock` and `value` against the program points of all threads |
| `ReaderWriter.RunKeepsInv` | exersises/concurrency/semaphores/exercise/reader-writer.c:17-77 | The accounting holds in every state of every run |
| `ReaderWriter.InvExclusive` | exersises/concurrency/semaphores/exercise/reader-writer.c:23-47 | The accounting implies that a writer inside excludes all readers and all other writers |
| `ReaderWriter.WritelockBusyProgress` | exersises/concurrency/semaphores/exercise/reader-writer.c:23-47 | When `writelock` is taken, a thread past its first wait can move; this uses that a reader blocked on `writelock` is the only counted reader |
| `ReaderWriter.ReaderLockBusyProgress` | exersises/concurrency/semaphores/exercise/reader-writer.c:23-39 | When `readerLock` is taken, a thread past its first wait can move |
| `ReaderWriter.NeverStuck` | exersises/concurrency/semaphores/exercise/reader-writer.c:23-47 | The plain lock never deadlocks |
| `ReaderWriter.PlainLockStarvesWriter` | exersises/concurrency/semaphores/exercise/reader-writer.c:23-43 | Why the turnstile is needed: for every k there is a run of two readers and a writer in which readers take 9k steps past a waiting writer that never once could have entered |
| `AtomicSemaphore.Conservation` | exersises/concurrency/semaphores/how-to-implement-semaphores/zemaphore.h:16-29 | The atomic semaphore's value is the initial one plus posts minus waits, and never falls below zero from a non-negative start |
| `Zemaphore.RefinesAtomic` | exersises/concurrency/semaphores/how-to-implement-semaphores/zemaphore.h:16-29 | Every run of the mutex-and-condition-variable implementation, with barging and spurious wakeups, is a run of the atomic semaphore whose operations take effect at `value--` and `value++` |
| `Zemaphore.StepRefines` | exersises/concurrency/semaphores/how-to-implement-semaphores/zemaphore.h:16-29 | Each step is one atomic action or none, with exactly its effect on value and calls |
| `Zemaphore.StepKeepsInv` | exersises/concurrency/semaphores/how-to-implement-semaphores/zemaphore.h:16-29 | Each step keeps the lock discipline and the bound on available units beside sleepers |
| `Zemaphore.ValueAccounted` | exersises/concurrency/semaphores/how-to-implement-semaphores/zemaphore.h:10-29 | In every run `value` is the initial value plus increments minus decrements, and never below zero (or below a negative initial value) |
| `Zemaphore.NoLostWakeup` | exersises/concurrency/semaphores/how-to-implement-semaphores/zemaphore.h:18-27 | With the lock free and somebody asleep, `value` is at most the number of woken waiters still to recheck |
| `Zemaphore.StuckOnlyWhenAtomicIs` | exersises/concurrency/semaphores/how-to-implement-semaphores/zemaphore.h:16-29 | When no internal step is possible, the atomic semaphore has nothing to do either: only waits without a unit are pending |
| `Zemaphore.InternalStepsBounded` | exersises/concurrency/semaphores/how-to-implement-semaphores/zemaphore.h:16-29 | Between new calls and spurious wakeups at most eight steps per thread occur |
| `FifoMutex.AtMostOneOwner` | exersises/concurrency/semaphores/exercise/mutex-nostarve.c:31-65 | No two threads ever own the mutex, with the release as shown and with one that clears `tail` |
| `FifoMutex.ServedInOrder` | exersises/concurrency/semaphores/exercise/mutex-nostarve.c:31-65 | In every reachable state in which the queue has not drained with `tail` left behind, calls have got the mutex in exactly the order decided under the guard and the unserved ones are the list reachable from `head`; with a release that clears `tail` every reachable state is such a state |
| `FifoMutex.WaiterAtPositionK` | exersises/concurrency/semaphores/exercise/mutex-nostarve.c:41-63 | The waiter at position k moves up by exactly one per hand-over, is next after k of them, and those before it are served in order: nobody overtakes |
| `FifoMutex.DrainedForEver` | exersises/concurrency/semaphores/exercise/mutex-nostarve.c:56-63 | Once the queue has drained with `tail` left behind, `head` stays null and `tail` set in every continuation |
| `FifoMutex.StrandedForEver` | exersises/concurrency/semaphores/exercise/mutex-nostarve.c:43-63 | A waiter appended to the stale tail is never given the mutex in any continuation |
| `FifoMutexService.WaitingCosts` | exersises/concurrency/semaphores/exercise/mutex-nostarve.c:31-65 | While a call is in line, every step of any thread strictly lowers a measure over all threads, and the call stays in line until its thread owns the mutex |
| `FifoMutexService.InLineIsServed` | exersises/concurrency/semaphores/exercise/mutex-nostarve.c:31-65 | Bounded waiting: under every schedule a call in line gets the mutex within 11 steps per thread, and until then some thread can move |
| `FifoMutexService.QueuedIsServed` | exersises/concurrency/semaphores/exercise/mutex-nostarve.c:41-63 | In particular every waiter in the list of every reachable state, for the release as shown and for one that clears `tail` |
| `FifoMutexService.ServedExactlyUnlessDrained` | exersises/concurrency/semaphores/exercise/mutex-nostarve.c:37-63 | A call that finds the mutex locked is served within the bound under every schedule if and only if the queue has not drained with `tail` left behind, and waits for ever in all continuations if and only if it has; with a release that clears `tail` everybody is served |
| `FifoMutexService.AllLaterCallsLost` | exersises/concurrency/semaphores/exercise/mutex-nostarve.c:43-63 | After the first such drain, every later call that finds the mutex locked, in every continuation, waits for ever |
| `FifoMutexService.ShownReleaseLosesWaiter` | exersises/concurrency/semaphores/exercise/mutex-nostarve.c:60-62 | A concrete run of three threads with the shown release after which the third waits for ever |
| `FifoMutex.StepKeepsInv` | exersises/concurrency/semaphores/exercise/mutex-nostarve.c:31-65 | Each step keeps the single-token accounting, the shape of the list and the relation of every thread to its node |
| `VectorAdd.Serializable` | exersises/concurrency/concurrency-bugs/vector-global-order.c:11-29 | For all three locking disciplines, any threads, vectors and length, and every interleaving of element loads and stores: an unlocked vector is what the calls give when executed whole in lock-point order, also for `dst == src`; at the end this holds of all vectors and the log has each thread's calls completely and in program order |
| `VectorAdd.StepKeepsLocks` | exersises/concurrency/concurrency-bugs/vector-deadlock.c:11-20 | Each step keeps the correspondence between lock owners and program points |
| `VectorAdd.StepKeepsValues` | exersises/concurrency/concurrency-bugs/vector-global-order.c:22-28 | Each step keeps every element on its way to the value the serial execution gives it |
| `VectorAdd.StepKeepsOrder` | exersises/concurrency/concurrency-bugs/main-common.c:49-68 | Each step keeps log plus remaining calls equal to the calls each thread was given |
| `VectorAdd.AddInPlace` | exersises/concurrency/concurrency-bugs/vector-global-order.c:22-25 | The element loop on real arrays yields the element-wise sum of the old contents, also when source and destination are the same array |
| `VectorProgress.RankedDeadlockFree` | exersises/concurrency/concurrency-bugs/vector-deadlock.c:11-20 | Any ranking in which every call takes its two locks in increasing order excludes deadlock, for any threads and calls |
| `VectorProgress.GlobalOrderDeadlockFree` | exersises/concurrency/concurrency-bugs/vector-global-order.c:12-28 | Address-ordered locking never deadlocks, whatever the threads and requests, including `dst == src` |
| `VectorProgress.GlobalOrderTotal` | exersises/concurrency/concurrency-bugs/vector-global-order.c:11-29 | Address-ordered runs are bounded, and a run that cannot go on has executed all calls with a serial result in program order |
| `VectorProgress.RunBounded` | exersises/concurrency/concurrency-bugs/vector-global-order.c:11-29 | The number of steps of any run is bounded by a measure of the calls still to do |
| `VectorProgress.SelfCallDeadlocks` | exersises/concurrency/concurrency-bugs/vector-avoid-hold-and-wait.c:17-20 | Without address ordering a single call with `dst == src` makes a deadlock reachable |
| `VectorProgress.AcquisitionLockExact` | exersises/concurrency/concurrency-bugs/vector-avoid-hold-and-wait.c:15-27 | The acquisition-lock version can deadlock if and only if some call has `dst == src` |
| `VectorProgress.DriverRanked` | exersises/concurrency/concurrency-bugs/main-common.c:103-117 | The lock ranking the thread configuration admits whenever the switches are harmless |
| `VectorProgress.DriverDeadlocks` | exersises/concurrency/concurrency-bugs/vector-deadlock.c:12-13 | The schedule that deadlocks threads 0 and 1 under the harmful switches |
| `VectorProgress.DriverDeadlockExact` | exersises/concurrency/concurrency-bugs/main-common.c:49-117 | Under the driver, the argument-ordered version can deadlock if and only if `-d` is given, `-p` is not, there are at least two threads and `loops` is at least 1 |
| `VectorDriver.DriverResult` | exersises/concurrency/concurrency-bugs/main-common.c:49-127 | For all three disciplines and every schedule that cannot go on, unless `-d` is given without `-p`: with `-p`, v[2i] is 2i + loops * (2i + 1) and v[2i+1] is 2i + 1 (the other way round for odd i under `-d`); without, v[0] is n * loops; every other vector x is still x throughout |
| `VectorDriver.DriverNeverStuck` | exersises/concurrency/concurrency-bugs/main-common.c:49-117 | Under those switches no run of any of the three disciplines deadlocks |
| `VectorDriver.SerialSum` | exersises/concurrency/concurrency-bugs/vector-global-order.c:22-25 | When nothing else is added to a call's destination or to its source, its destination ends at its initial value plus the source once per execution of the call |
| `Barrier.NobodyPassesEarly` | exersises/concurrency/semaphores/exercise/barrier.c:33-45 | In every run of N threads nobody returns before all N have arrived |
| `Barrier.PostsAccountedFor` | exersises/concurrency/semaphores/exercise/barrier.c:34-44 | Exactly one thread notices the last arrival, and from then on posts to make, semaphore value and threads out add up to N |
| `Barrier.BarrierCompletes` | exersises/concurrency/semaphores/exercise/barrier.c:26-45 | No run is stuck before all are out, every complete run has exactly 6N steps, and the semaphores end at 0 and 1 |
| `Barrier.StepKeepsInv` | exersises/concurrency/semaphores/exercise/barrier.c:26-45 | Each step keeps that accounting |
| `RacyCounter.PrintedValuesExact` | exersises/concurrency/uncontrolled-scheduling/t1.c:9-38 | With load and store as separate steps, a value can be printed if and only if it is 0 for `max <= 0`, in [1, 2] for 1, in [2, 2 max] otherwise |
| `RacyCounter.PrintsShould` | exersises/concurrency/uncontrolled-scheduling/t1.c:15-38 | A complete execution prints `2 * max` if and only if `max` is not negative and every store finds the counter as its load found it |
| `RacyCounter.RunKeepsInv` | exersises/concurrency/uncontrolled-scheduling/t1.c:15-17 | The bounds on counter and registers that keep every run inside that set |
| `RacyCounter.LosingSchedule` | exersises/concurrency/uncontrolled-scheduling/t1.c:15-17 | For every target value a schedule that reaches it |
| `SloppyCounter.Conservation` | exersises/concurrency/locked-data-structures/2/sloppy_counter.c:44-55 | In every run the global count plus the slots, without slots in transfer, equals the increments performed, an unlocked slot is below THRESHOLD, and the histories of performed and completed updates count what the threads have done |
| `SloppyCounter.GlobalInBatches` | exersises/concurrency/locked-data-structures/2/sloppy_counter.c:44-55 | In every run the global count is a multiple of THRESHOLD, so with Conservation a slot is transferred exactly when it reaches THRESHOLD |
| `SloppyCounter.GetBracket` | exersises/concurrency/locked-data-structures/2/sloppy_counter.c:58-72 | A concurrent `get` returns at least the updates completed when it read the global count less (THRESHOLD - 1) per slot, and at most the increments performed when it returns; exactly the latter if all updaters were done |
| `SloppyCounter.FinalCountPerThread` | exersises/concurrency/locked-data-structures/2/sloppy_counter.c:84-136 | After the join, with a slot per thread, `get` returns threads times increments |
| `SloppyCounter.FinalCountPerCpu` | exersises/concurrency/locked-data-structures/2/cpu_based/sloppy_counter_cpu_based.c:48-127 | The same when threads share slots by `i % num_cpus` |
| `SloppyCounter.FinalCount` | exersises/concurrency/locked-data-structures/2/sloppy_counter.c:84-136 | The same for any mapping of threads to slots and any positive threshold |
| `SloppyCounter.ProgramPrints` | exersises/concurrency/locked-data-structures/2/sloppy_counter.c:84-139 | The whole program ends under every schedule, within 8 steps per increment and 3 per slot, with the updating threads finished and threads times increments printed |
| `SloppyCounter.StepKeepsInv` | exersises/concurrency/locked-data-structures/2/sloppy_counter.c:44-72 | Each step keeps lock ownership, slot contents per program point, totals, and the bracket of every `get` in progress |
| `SloppyCounter.NeverStuck` | exersises/concurrency/locked-data-structures/2/sloppy_counter.c:44-72 | Taking the slot lock before the global one never deadlocks |
| `FifoMap.HoldsLastAdmitted` | exersises/concurrency/event-based-concurrency/exercise/file-server.c:101-132 | After any operations the cache holds exactly the last `cap` keys admitted, oldest first, each with its latest value; updating a key keeps its age |
| `FifoMap.GetAfterPut` | exersises/concurrency/event-based-concurrency/exercise/file-server.c:93-122 | Reading back after an insertion: the new value, and everything else except the entry evicted |
| `FifoMap.KeysOfPut` | exersises/concurrency/event-based-concurrency/exercise/file-server.c:101-122 | What an insertion does to the order of keys |
| `ArrayCache.Cache.Lookup` | exersises/concurrency/event-based-concurrency/exercise/file-server.c:93-98 | The search loop finds what the FIFO map holds |
| `ArrayCache.Cache.Insert` | exersises/concurrency/event-based-concurrency/exercise/file-server.c:101-122 | The shifting array behaves as an insertion into the FIFO map |
| `ArrayCache.Cache.ShiftDown` | exersises/concurrency/event-based-concurrency/exercise/file-server.c:112-116 | The move drops exactly the oldest entry |
| `ArrayCache.Cache.Clear` | exersises/concurrency/event-based-concurrency/exercise/file-server.c:124-132 | The array cache is empty afterwards |
| `MapCache.Cache.Lookup` | exersises/concurrency/event-based-concurrency/exercise/rust-file-server/src/main.rs:77-79 | The map answers what the FIFO map holds |
| `MapCache.Cache.Insert` | exersises/concurrency/event-based-concurrency/exercise/rust-file-server/src/main.rs:81-96 | Map plus order list behave as an insertion into the FIFO map; `order` stays duplicate-free and equal as a set to the keys |
| `MapCache.Cache.Clear` | exersises/concurrency/event-based-concurrency/exercise/rust-file-server/src/main.rs:98-103 | Map and order list are empty afterwards |
| `CacheEquivalence.SameAnswers` | exersises/concurrency/event-based-concurrency/exercise/rust-file-server/src/main.rs:69-104 | For every capacity and every sequence of lookups, insertions and clears both caches give the same answers, those of the FIFO map |
| `FreshReads.MonotonicReads` | exersises/concurrency/event-based-concurrency/exercise/file-server.c:254-300 | Over any interleaving of disk writes, removals, requests and flushes, a later reply for a path never carries an older version, across all clients |
| `FreshReads.FreshAfterFlush` | exersises/concurrency/event-based-concurrency/exercise/file-server.c:361-365 | A reply after a flush carries a version that was current at some moment after the flush |
| `FreshReads.ReplyExactly` | exersises/concurrency/event-based-concurrency/exercise/file-server.c:254-327 | A request gets a file if and only if it exists and either is among the last `cap` files admitted since the last flush or can be read; it carries the version admitted in the first case and the version on disk in the second |
| `FreshReads.CacheIsLastAdmitted` | exersises/concurrency/event-based-concurrency/exercise/file-server.c:101-132 | After any events the cache is the last `cap` admissions since the last flush, each with its version at that moment |
| `FreshReads.RepeatSame` | exersises/concurrency/event-based-concurrency/exercise/file-server.c:254-259 | While a file stays held, every request that finds it there carries the version that the first one carried |
| `FreshReads.EvictedExactly` | exersises/concurrency/event-based-concurrency/exercise/file-server.c:101-132 | An admitted file stays held exactly until the next flush or until `cap` others have been admitted after it, however often it is asked for |
| `FreshReads.DiskExactly` | exersises/concurrency/event-based-concurrency/exercise/file-server.c:254-300 | In the model of the disk a file exists if and only if its last change was a write, and its version counts the writes up to that one |
| `FreshReads.FlagExactly` | exersises/concurrency/event-based-concurrency/exercise/file-server.c:361-365 | The flush flag is up if and only if there has been a signal since the last check at the top of the loop |
| `FreshReads.StepKeepsState` | exersises/concurrency/event-based-concurrency/exercise/rust-file-server/src/main.rs:156-196 | Each event keeps cached versions no newer than the file's |
| `Lines.SplitJoins` | exersises/concurrency/event-based-concurrency/exercise/file-server.c:331-348 | Complete lines and tail, joined again with newlines, give back the stream |
| `Lines.PiecesHaveNoNewline` | exersises/concurrency/event-based-concurrency/exercise/file-server.c:331-348 | Neither a line nor the tail contains a newline, so the split is the newline split |
| `Lines.SplitAppend` | exersises/concurrency/event-based-concurrency/exercise/file-server.c:329-348 | The lines of a longer stream are those of the shorter one followed by those of its tail and the new bytes |
| `Lines.NameDropsCR` | exersises/concurrency/event-based-concurrency/exercise/file-server.c:334-339 | One CR at the end of a line is not part of the name, and nothing else of a name without NUL is lost |
| `Lines.NameEndsAtNul` | exersises/concurrency/event-based-concurrency/exercise/file-server.c:334-341 | The name that reaches serve_file ends at the first NUL of its line |
| `Lines.NamesAsTyped` | exersises/concurrency/event-based-concurrency/exercise/file-server.c:331-341 | A stream of lines, each ended by a newline or by a CR and a newline, yields exactly the names typed |
| `Chunking.FramingCorrect` | exersises/concurrency/event-based-concurrency/exercise/file-server.c:329-355 | For every way of cutting the input into reads: lines served are the complete lines, handed on by name, the buffer holds the tail, there is room before the next read, and the connection closes as too long if and only if some line reaches REQ_BUF_SIZE - 1 bytes |
| `Chunking.NamesReach` | exersises/concurrency/event-based-concurrency/exercise/file-server.c:329-348 | However the bytes arrive and whichever way each line is ended, the names handed on are those typed, and the buffer is empty |
| `Chunking.FixedIsIdeal` | exersises/concurrency/event-based-concurrency/exercise/file-server.c:405-420 | Whichever replies fail, the lines served and the way the connection ends are those of a line-by-line reading of the stream, however it is cut |
| `Chunking.ChunkingIndependent` | exersises/concurrency/event-based-concurrency/exercise/file-server.c:405-420 | Two complete ways of reading the same stream serve the same lines and end with the same status; if no reply fails, in the same state after the same bytes, cut off if and only if the stream has too long a line |
| `Chunking.ConsumedIs` | exersises/concurrency/event-based-concurrency/exercise/file-server.c:350-355 | How many bytes of a stream are read before it ends or is cut off, independently of the reads |
| `Chunking.GrowableIsIdeal` | exersises/concurrency/event-based-concurrency/exercise/rust-file-server/src/main.rs:214-234 | The Rust server's outcome is the same line-by-line one, unless the stream is ambiguous |
| `Chunking.CutMattersExactly` | exersises/concurrency/event-based-concurrency/exercise/rust-file-server/src/main.rs:214-234 | The Rust server's outcome is the same for all ways of cutting a stream if and only if the first line of 511 bytes or more reached with all replies getting through is not a complete line of at most 1021 bytes |
| `Chunking.LineOf511` | exersises/concurrency/event-based-concurrency/exercise/rust-file-server/src/main.rs:214-234 | One stream and two cuttings of it: one closes the connection, the other serves the line |
| `RequestBuffer.Client.TakeName` | exersises/concurrency/event-based-concurrency/exercise/file-server.c:334-339 | Terminating the line in place, one trailing CR stripped, gives the name up to the first NUL; a plain name typed with or without CR is the name taken |
| `RequestBuffer.Client.MoveDown` | exersises/concurrency/event-based-concurrency/exercise/file-server.c:344-347 | The move leaves exactly the bytes after the consumed line |
| `RequestBuffer.Client.ProcessRequests` | exersises/concurrency/event-based-concurrency/exercise/file-server.c:329-355 | The loop serves the complete lines in order until a reply fails, and keeps the tail |
| `RequestBuffer.Client.Receive` | exersises/concurrency/event-based-concurrency/exercise/file-server.c:408-418 | A read and the processing after it are one step of the specification the theorems are about |
| `AioServer.OutputInOrder` | exersises/concurrency/event-based-concurrency/exercise/aio-file-server.c:272-418 | In every run: the requests begun are a prefix of the lines received, bytes sent are a prefix of one complete response per request in order, all but the last complete; nothing begins while an earlier response is unfinished; `resp_sent < resp_size` at rest in WRITING; `sf_offset + sf_remaining` is the file size |
| `AioServer.OneOwnerPerBuffer` | exersises/concurrency/event-based-concurrency/exercise/aio-file-server.c:108-134 | In every run a buffer is live if and only if one cache slot or one client in AIO or WRITING holds it, never two; every allocated buffer is live or was freed exactly once |
| `AioServer.InsertStep` | exersises/concurrency/event-based-concurrency/exercise/aio-file-server.c:108-127 | Inserting into the cache, with update or eviction, keeps all invariants and leaves every client's buffer with the same bytes |
| `AioServer.FlushSparesClients` | exersises/concurrency/event-based-concurrency/exercise/aio-file-server.c:129-134 | Flushing the cache at any point of any run empties it and leaves every client's buffer with the same bytes |
| `AioServer.StepKeepsInv` | exersises/concurrency/event-based-concurrency/exercise/aio-file-server.c:202-566 | Every event keeps ownership, cached bytes being complete responses, and each client's input and output accounting |
| `AioServer.BeginFileServeStep` | exersises/concurrency/event-based-concurrency/exercise/aio-file-server.c:272-378 | All branches of beginning a request, including failed allocations and a failed aio_read, keep the invariant |
| `AioServer.FinishAioStep` | exersises/concurrency/event-based-concurrency/exercise/aio-file-server.c:387-418 | Completing a read, full or short, with and without a cached copy, keeps the invariant |
| `AioServer.StepNoLeak` | exersises/concurrency/event-based-concurrency/exercise/aio-file-server.c:202-543 | No event loses track of a buffer |
| `AioContract.AnswersByTheBook` | exersises/concurrency/event-based-concurrency/exercise/aio-file-server.c:272-418 | In every run, with an observer noting what each request found (path, cached response, stat, allocations, aio_read) and how its read ended: the i-th answer is the one these notes call for, namely the error line of the first check that fails, the cached response, header and contents of a large file, or a header announcing the size that stat gave, that many bytes, and the bytes read first; a read in progress asks for exactly the size that stat gave |
| `AioContract.StepBook` | exersises/concurrency/event-based-concurrency/exercise/aio-file-server.c:202-566 | Every event keeps answers and notes in agreement for every client |
| `AioClient.ErrorsExactly` | exersises/concurrency/event-based-concurrency/exercise/aio-file-server.c:272-403 | An answer is a given error line if and only if the notes on the request call for that line |
| `AioClient.DigitsRead` | exersises/concurrency/event-based-concurrency/exercise/aio-file-server.c:325 | The announced length, read digit by digit from the left, is the number printed; all digits, no leading zero |
| `AioClient.HeaderIs` | exersises/concurrency/event-based-concurrency/exercise/aio-file-server.c:325 | A header is "+OK ", the digits and the only newline |
| `AioClient.ErrIs` | exersises/concurrency/event-based-concurrency/exercise/aio-file-server.c:272-403 | An error line is "-ERR ", the text and the only newline |
| `AioClient.DecodeFlat` | exersises/concurrency/event-based-concurrency/exercise/aio-file-server.c:325-366 | A client that reads by lines and announced lengths gets back the answers sent one after the other, whatever the files contain |
| `AioClient.WhatTheClientReads` | exersises/concurrency/event-based-concurrency/exercise/aio-file-server.c:272-566 | In every run, what a client can decode from the bytes sent so far is exactly the answers decided on, in order, without the last one if that is not out completely |
| `AioClient.CacheChanges` | exersises/concurrency/event-based-concurrency/exercise/aio-file-server.c:405-412 | The cache changes at a flush, and at the end of a read for which there is memory for a copy: then the answer is cached for the path |
| `AioPasses.PassSends` | exersises/concurrency/event-based-concurrency/exercise/aio-file-server.c:530-565 | A pass over a writable client sends exactly the smaller of the socket's room and what is unsent of its responses, and the client reads again if and only if nothing is left |
| `AioPasses.PassReceives` | exersises/concurrency/event-based-concurrency/exercise/aio-file-server.c:506-527 | A pass over a readable client takes exactly what fits in its 512-byte buffer beside the terminator; end of stream, or a full buffer without a complete line, removes it, and otherwise no complete line is left unless a response is under way |
| `AioAnswers.EveryAnswerRight` | exersises/concurrency/event-based-concurrency/exercise/aio-file-server.c:272-418 | In every run the i-th response of a client is an answer to its i-th line: the error that line or its path calls for, or a header and what some read of the file it resolved to left in its buffer, through sendfile, AIO or cache |
| `AioAnswers.OnlyFileBytesExactly` | exersises/concurrency/event-based-concurrency/exercise/aio-file-server.c:392-417 | In every run, what reads left in response buffers is free of other bytes if and only if every read delivered as much as it was asked for |
| `AioAnswers.WholeExactly` | exersises/concurrency/event-based-concurrency/exercise/aio-file-server.c:392-417 | The response a completed read gives rise to is the header and the bytes it delivered if and only if it delivered as much as it was asked for |
| `AioAnswers.WholeFiles` | exersises/concurrency/event-based-concurrency/exercise/aio-file-server.c:387-418 | In a run of full reads an answer that is not an error is the header and the bytes of one read of that file |
| `AioAnswers.ShortReadIsPadded` | exersises/concurrency/event-based-concurrency/exercise/aio-file-server.c:392-417 | A read that delivers less is not noticed: the response is filled up with what the buffer contained before |
| `AioStale.ShortReadAnswer` | exersises/concurrency/event-based-concurrency/exercise/aio-file-server.c:392-417 | A run in which a read delivers nothing and the client is answered with a byte that no file contained |
| `AioAnswers.FreshAfterQuietFlush` | exersises/concurrency/event-based-concurrency/exercise/aio-file-server.c:129-134 | After a flush with no read in flight, every answer to a request begun later, in every continuation, is an error or comes from a read begun after the flush |
| `AioStale.StaleExactlyWhenReading` | exersises/concurrency/event-based-concurrency/exercise/aio-file-server.c:405-412 | After a flush something older than it can turn up in the cache if and only if a read whose result may be cached was in flight |
| `AioStale.StaleAnswersExactlyWhenReading` | exersises/concurrency/event-based-concurrency/exercise/aio-file-server.c:292-309 | After a flush some later request can be answered with something no read begun since then delivered, if and only if a read whose result may be cached was in flight |
| `AioStale.StaleAnswer` | exersises/concurrency/event-based-concurrency/exercise/aio-file-server.c:405-412 | A run in which a request begun after a flush is answered with the bytes of a read begun before it, and of no other |
| `AioAnswers.StepKeepsAnswers` | exersises/concurrency/event-based-concurrency/exercise/aio-file-server.c:272-418 | Each event keeps cached bytes tied to their path and responses tied to their requests |
| `AioLoop.Server.CachePut` | exersises/concurrency/event-based-concurrency/exercise/aio-file-server.c:108-127 | Search, in-place update, shift and append on the cache array, with the displaced buffer freed, is the insertion step on the abstract cache |
| `AioLoop.Server.CacheFlush` | exersises/concurrency/event-based-concurrency/exercise/aio-file-server.c:129-134 | The loop frees exactly the cached buffers |
| `AioLoop.Server.BeginServe` | exersises/concurrency/event-based-concurrency/exercise/aio-file-server.c:272-378 | On the client struct, the cache array and memory, beginning a request does what its step says, and no other struct changes |
| `AioLoop.Server.CutLine` | exersises/concurrency/event-based-concurrency/exercise/aio-file-server.c:513-523 | Terminating the line in place, copying the name and moving the rest to the front of the 512-byte buffer takes exactly the first line off the pending bytes; pending bytes that begin with a plain name and either line ending give that name |
| `AioLoop.Server.FailAio` | exersises/concurrency/event-based-concurrency/exercise/aio-file-server.c:397-403 | A failed read frees the buffer, leaves a NULL pointer and a client reading again |
| `AioLoop.Server.CompleteAio` | exersises/concurrency/event-based-concurrency/exercise/aio-file-server.c:405-417 | The read's bytes go behind the header in the buffer, a copy is cached if there is memory for it, and the struct is set up for sending |
| `AioLoop.Server.Compact` | exersises/concurrency/event-based-concurrency/exercise/aio-file-server.c:219 | Moving the last struct into the gap removes exactly the one client, and leaves the structs below it alone |
| `AioLoop.Server.RemoveAt` | exersises/concurrency/event-based-concurrency/exercise/aio-file-server.c:202-220 | Freeing the pointer, if it is not NULL, and compacting is the removal step |
| `AioLoop.Server.WriteChunk` | exersises/concurrency/event-based-concurrency/exercise/aio-file-server.c:530-544 | `resp_sent` against `resp_size` decides whether the abstract response is out, and then the buffer is freed |
| `AioLoop.Server.SendChunk` | exersises/concurrency/event-based-concurrency/exercise/aio-file-server.c:547-565 | `sf_offset` and `sf_remaining` follow the bytes taken, and at zero the client reads again |
| `AioLoop.Server.TakeLines` | exersises/concurrency/event-based-concurrency/exercise/aio-file-server.c:513-525 | The loop takes up buffered lines one after the other, each as one event, until no complete line is left or the client is no longer reading |
| `AioLoop.Server.ReadSome` | exersises/concurrency/event-based-concurrency/exercise/aio-file-server.c:506-527 | The reading part is exactly: removal at end of stream, otherwise one receipt of what fits, the lines taken up, and removal if the buffer is then full |
| `AioLoop.Server.CheckAio` | exersises/concurrency/event-based-concurrency/exercise/aio-file-server.c:387-418 | A finished read is one event, after which the client reads again (error) or writes (success) |
| `AioLoop.Server.Pass` | exersises/concurrency/event-based-concurrency/exercise/aio-file-server.c:488-567 | One pass over a client is exactly the events its phase and the environment call for, in order (probe, AIO, reading, writing, sendfile) |
| `AioLoop.Server.Turn` | exersises/concurrency/event-based-concurrency/exercise/aio-file-server.c:487-567 | The backward loop over the array that is compacted under it passes over the clients in the reverse order of their structs at its start, one after the other |
| `AioLoop.Server.Iterate` | exersises/concurrency/event-based-concurrency/exercise/aio-file-server.c:423-568 | An iteration of the event loop is a run: the pending flush, the accepted connections while there is room, and exactly one pass for every client then connected |
| `AioLoop.SoundIsReachable` | exersises/concurrency/event-based-concurrency/exercise/aio-file-server.c:422-568 | The state that the globals stand for is always one that some run of events leads to, so what holds at the end of every run holds of the server |

## Left out

- Concurrent protocols are state machines on values: one step per atomic operation of a thread, not threads of Dafny code. Weak memory orders are not modelled.
- Liveness under a fairness assumption: progress is stated as bounds on steps, absence of stuck states and existence of continuations.
- Use after free of a stale `tail` node in `mutex-nostarve.c`: nodes are never recycled, so what a recycled node would do is not captured.
- Loss of bytes when `sock_send` meets a full socket buffer, and the address of an in-flight `aiocb` when `remove_client` copies a client: excluded by the assumptions above.
- Liveness of pipelined AIO requests: leftover lines are looked at only after another read, so only that begun requests are a prefix of the lines is claimed.
- The time at which a file was changed is not part of the AIO model: freshness there means that the read was begun after the flush.
- `select`, `accept`, `realpath`, `stat`, signal delivery, file descriptors and printing: environment.
- `vector-try-wait.c` and `vector-nolock.c`: the first may retry for ever, the second is not atomic per vector; both would only add weaker statements.
- `rendezvous.c`, `fork-join.c`, `zemaphore.c`, `timer.c`, `cloppy_counter_only_global_lock.c`: small special cases of the protocols above.
- `tokio-file-server`, `select-server.c`, `tcp-time-server.c`: the same cache and framing again, or no logic.
- The decoding of names as UTF-8 in the Rust server, whose names are not cut at a NUL: `Chunking` speaks of lines, not names, for it.
- Benchmarks, test harnesses, the disk, TLB and memory exercises.
