# EngineeEventWorkerQueue, modelled in Dafny

`EngineeEventWorkerQueue` is the event queue engine of IotHub.Core's CQRS
layer. It keeps one queue per event type. The queue is in process (a
`ConcurrentQueue`) or, when the shared Redis store is enabled, a Redis list
under the key `"EngineeEventWorkerQueue_" + type.FullName`. Worker threads
drain each type's queue and hand each dequeued event to the handler. A stored
payload that deserializes to null, or whose deserializer throws, is dropped
instead and never reaches the handler. Besides the queues, the engine keeps
these per-type tables:

- a list of worker-thread handles;
- a stop flag, a stopped-counter and an all-stopped flag, which
  `ResetToOneWorker` uses to wait, before it shrinks the pool to one, until
  the park/count block has been passed as many times as the list has
  handles;
- a registry from full type name to type.

The model treats every thread step, locked region and busy-wait as one
atomic transition.

- `Types` holds event types, events and worker handles.
- `Backend` models the two queue backends as sequences and proves both FIFO.
  It also models C#'s `(int)` narrowing of a 64-bit length.
- `StopProtocol` is the arithmetic of the park/count block: `Observe` is one
  pass, and `ObserveTimes` is several passes.
- `EngineSpec` holds all tables as one `Tables` value. It states every
  operation as a pure transition with its properties and defines the
  invariant `Inv`. Every transition of a public operation keeps `Inv`.
  The internal steps `ResetPool`, `StartThread`, `LowerAllStopped` and
  `WithTally` keep only its structural part `Shape`. `ResetPool` leaves an
  empty list by design, and `InitFirstWorker` starts from `InvBut`, which
  allows that.
- `Engine` is the class `EngineeEventWorkerQueue`, with one field per static
  table. Its methods update the fields in place, as the C# does.
  - Each entry point (`Push`, `PushEnqueue`, `AddAndStartWorker`,
    `RequestStop`, `CompleteReset`, `DispatchStep`, `ParkStep`) is proved to
    reach exactly the state of the matching `EngineSpec` transition and to
    keep `Valid()`. `InitFirstWorker` does the same from the weaker `InvBut`.
  - The helpers (`ResetPool`, `StartThread`, `WriteTally`, `StoreList`,
    `StoreQueue`, `DispatchFromStore` and `DispatchFromMemory`) are proved
    to reach their `EngineSpec` counterpart only. Their callers restore
    `Valid()`. `ResetPool` leaves an empty list behind.
  - The queries (`IsWorkerStopping`, `CountStatistic`, `GetType`) equal
    their `EngineSpec` function on the current fields.
  - `ListAllCommandName` has no `EngineSpec` counterpart. Its contract is
    stated on the registry field directly.
- `EngineProps` proves properties of runs of several steps:
  - how the stop is released;
  - what a reset leaves running;
  - scale-out;
  - how the two backends differ once a queue has been drained;
  - dispatch order.

Each busy-wait becomes a precondition of the step after it:

- The wait at the top of `InitFirstWorker` becomes `!IsWorkerStopping(t)`.
- A creating `Push` is split at that same wait. `PushEnqueue` registers the
  type and queues the item. The thread's `InitFirstWorker` follows as a step
  of its own, once the flag is low.
- `ResetToOneWorker` is split at its wait. `RequestStop` raises the stop
  flag. `CompleteReset` requires the all-stopped flag and does the rest.

A thread's loop is split into two steps:

- `DispatchStep` is one pass of the inner dispatch loop. It is enabled while
  the type's stop flag is low.
- `ParkStep` is one pass of the park/count block. It is enabled while the
  flag is high.

Both steps need only a thread that was started for the type. The thread
need not be in the current handle list, because the engine never ends a
thread.

What the code does, in particular:

- It loses an item whose handler throws, and a stored payload that
  deserializes to null or whose deserialization throws. Neither backend puts
  the item back (lines 121-148).
- It runs no admission check before a dequeue (lines 117-143).
- The stopped-counter counts passes through the park/count block, not
  distinct threads (lines 159-173). A parked thread passes again on every
  outer cycle, so one thread can raise all-stopped on its own
  (`OneThreadReleasesStop`).
- It fills the type registry on both backends' create-queue paths (lines 40
  and 57).
- A push that creates its queue registers the type and queues the item
  before `InitFirstWorker` waits for a stop to end (lines 38-45 and 55-63).
  `PushEnqueue` is that first part and runs during a stop as well.

## Model

| member | source | states |
|---|---|---|
| `EngineSpec.BuildRedisQueueName` | IotHub.Core/CqrsEngine/EngineeEventWorkerQueue.cs:69-72 | the key starts with the fixed prefix and is exactly the prefix plus the full name |
| `EngineSpec.QueueNameInjective` | IotHub.Core/CqrsEngine/EngineeEventWorkerQueue.cs:69-72 | two types share a store key exactly when they share a full name |
| `Backend.TryDequeue` | IotHub.Core/CqrsEngine/EngineeEventWorkerQueue.cs:138 | fails exactly on an empty queue; otherwise yields the head and the remainder |
| `Backend.Enqueue` | IotHub.Core/CqrsEngine/EngineeEventWorkerQueue.cs:53 | the queue grows by one, with the item at the tail and the old contents in front of it |
| `Backend.ListRightPop` | IotHub.Core/CqrsEngine/EngineeEventWorkerQueue.cs:122 | fails exactly on an empty list; otherwise yields the rightmost value and the remainder |
| `Backend.ListLeftPush` | IotHub.Core/CqrsEngine/EngineeEventWorkerQueue.cs:36 | the list grows by one, with the value at the left end and the old contents after it |
| `Backend.QueueIsFifo` | IotHub.Core/CqrsEngine/EngineeEventWorkerQueue.cs:50-64 | draining a queue after enqueuing `xs` yields the old contents followed by `xs` in order |
| `Backend.ListIsFifo` | IotHub.Core/CqrsEngine/EngineeEventWorkerQueue.cs:33-43 | draining a store list from the right after left-pushing `xs` yields the old contents followed by `xs` in order |
| `Backend.BackendsAgree` | IotHub.Core/CqrsEngine/EngineeEventWorkerQueue.cs:25-67 | both backends yield the pushed items in push order |
| `Backend.Int32Cast` | IotHub.Core/CqrsEngine/EngineeEventWorkerQueue.cs:256 | the result is a 32-bit value, equal to the input when it fits and congruent to it modulo 2^32 |
| `StopProtocol.Observe` | IotHub.Core/CqrsEngine/EngineeEventWorkerQueue.cs:159-176 | with all-stopped low, one pass adds one to the counter, or raises the flag and zeroes the counter when the counter reaches the list length; with it high, nothing changes; a counter below the length stays below it |
| `StopProtocol.StaysStopped` | IotHub.Core/CqrsEngine/EngineeEventWorkerQueue.cs:159 | once all-stopped is high, any number of passes leaves the tally unchanged |
| `StopProtocol.ObservationsRelease` | IotHub.Core/CqrsEngine/EngineeEventWorkerQueue.cs:159-173 | from a counter `c < n`, `k` passes give counter `c + k` with the flag low while `c + k < n`, and counter 0 with the flag high from then on |
| `EngineSpec.Initial` | IotHub.Core/CqrsEngine/EngineeEventWorkerQueue.cs:16-22 | the empty tables satisfy the invariant; no type has workers or a raised stop flag |
| `EngineSpec.IsWorkerStopping` | IotHub.Core/CqrsEngine/EngineeEventWorkerQueue.cs:267-276 | false for a type with no stop flag; under the invariant a type not stopping has counter 0 and all-stopped low |
| `EngineSpec.CountStatistic` | IotHub.Core/CqrsEngine/EngineeEventWorkerQueue.cs:244-265 | the worker count is the handle-list length (0 with no list); the queue count is the backend's queue length when it fits 32 bits; an unknown type gives (0, 0) on either backend; under the invariant the worker count is 0 exactly for a type with no list |
| `EngineSpec.GetType` | IotHub.Core/CqrsEngine/EngineeEventWorkerQueue.cs:291-297 | a type is returned exactly for a registered name, and under the invariant it has that full name |
| `EngineSpec.NeedsFirstWorker` | IotHub.Core/CqrsEngine/EngineeEventWorkerQueue.cs:85 | (definition) the type has no worker list or an empty one; `AddAndStartWorker` tests the same at line 226 |
| `EngineSpec.ResetPool` | IotHub.Core/CqrsEngine/EngineeEventWorkerQueue.cs:85-92 | the list becomes empty; stop flag, counter and all-stopped are false, 0 and false; the threads and every other type's tables are untouched |
| `EngineSpec.StartThread` | IotHub.Core/CqrsEngine/EngineeEventWorkerQueue.cs:94-98 | a fresh thread is recorded for the type and its handle appended to the type's list; the stop fields and other types are untouched |
| `EngineSpec.InitFirstWorker` | IotHub.Core/CqrsEngine/EngineeEventWorkerQueue.cs:74-100 | the list grows by exactly one fresh handle; a missing or empty list is first replaced by an empty one with the stop fields reset, otherwise those fields are kept; the result satisfies the invariant and other types are untouched |
| `EngineSpec.RegisterType` | IotHub.Core/CqrsEngine/EngineeEventWorkerQueue.cs:40 | the registry maps the type's full name to the type (also line 57); the invariant, the queues and the worker tables are unchanged |
| `EngineSpec.PushCreatesQueue` | IotHub.Core/CqrsEngine/EngineeEventWorkerQueue.cs:33 | (definition) the store key is absent with the store on, or the type has no in-memory queue with it off (line 50) |
| `EngineSpec.PushInMemory` | IotHub.Core/CqrsEngine/EngineeEventWorkerQueue.cs:48-61 | the event joins the tail of its type's queue; other queues, the store and the worker tables are unchanged; the type is registered exactly when its queue was missing |
| `EngineSpec.PushToStore` | IotHub.Core/CqrsEngine/EngineeEventWorkerQueue.cs:29-43 | the payload joins the left end of the type's store list; other keys, the in-memory queues and the worker tables are unchanged; the type is registered exactly when the key was absent |
| `EngineSpec.PushEnqueue` | IotHub.Core/CqrsEngine/EngineeEventWorkerQueue.cs:25-63 | a push up to the wait in `InitFirstWorker`, enabled during a stop too: the item joins its own queue at the backend's push end, no other queue changes, the worker tables are unchanged, and the registry changes exactly on creation |
| `EngineSpec.Push` | IotHub.Core/CqrsEngine/EngineeEventWorkerQueue.cs:25-67 | a whole push that does not wait: the invariant holds after; the item joins its own queue at the backend's push end; no other queue changes; a push that creates the queue records the type under its full name; any other push leaves the registry and worker tables unchanged |
| `EngineSpec.PushRegistersType` | IotHub.Core/CqrsEngine/EngineeEventWorkerQueue.cs:38-40 | once a push that creates its queue has passed its first part, even during a stop, `GetType` of the full name returns the type and the registry gains exactly that name |
| `EngineSpec.PushEnqueueMakesQueue` | IotHub.Core/CqrsEngine/EngineeEventWorkerQueue.cs:33-36 | after the first part of a push the type's queue exists and is one item deeper, so a further push of that type creates nothing, needs no wait, and leaves the worker tables unchanged |
| `EngineSpec.PushStartsFirstWorker` | IotHub.Core/CqrsEngine/EngineeEventWorkerQueue.cs:38-64 | a push that creates its queue changes the worker tables exactly as `InitFirstWorker` does |
| `EngineSpec.AddAndStartWorker` | IotHub.Core/CqrsEngine/EngineeEventWorkerQueue.cs:224-242 | the list gains exactly one fresh handle, recorded as its type's thread, the handle counter moves on by one, and all-stopped is low after; a missing or empty list goes through `InitFirstWorker`, otherwise stop flag and counter are kept; other types are untouched |
| `EngineSpec.LowerAllStopped` | IotHub.Core/CqrsEngine/EngineeEventWorkerQueue.cs:234 | the type's all-stopped flag is low after; lists, stop flags, counters, threads, queues, registry and other types are unchanged |
| `EngineSpec.RequestStop` | IotHub.Core/CqrsEngine/EngineeEventWorkerQueue.cs:192 | the type's stop flag is raised and nothing else changes |
| `EngineSpec.CompleteReset` | IotHub.Core/CqrsEngine/EngineeEventWorkerQueue.cs:214-221 | once all-stopped is high, the list becomes exactly one fresh handle with stop flag low and tally (0, false); the handle counter moves on by one; the cleared threads stay recorded; other types and the queues are untouched |
| `EngineSpec.DispatchStep` | IotHub.Core/CqrsEngine/EngineeEventWorkerQueue.cs:113-153 | idle exactly when the current backend's queue of the thread's type is empty; otherwise its depth drops by exactly one, whatever the handler does; the invariant holds after and the worker tables and registry are unchanged |
| `EngineSpec.CanDispatch` | IotHub.Core/CqrsEngine/EngineeEventWorkerQueue.cs:113 | (definition) a started thread whose type's stop flag is absent or low runs the inner dispatch loop, whether or not the current list holds its handle |
| `EngineSpec.CanPark` | IotHub.Core/CqrsEngine/EngineeEventWorkerQueue.cs:113-159 | (definition) a started thread whose type's stop flag is high has left the inner loop and runs the park/count block |
| `EngineSpec.DispatchFromStore` | IotHub.Core/CqrsEngine/EngineeEventWorkerQueue.cs:117-131 | with an empty store list nothing changes and the pass is idle; otherwise the rightmost payload is removed and dropped or handed on as `Decoded` says; the in-memory queues, worker tables and registry are unchanged |
| `EngineSpec.Decoded` | IotHub.Core/CqrsEngine/EngineeEventWorkerQueue.cs:125-129 | a payload is dropped exactly when `decode` gives `None`, i.e. it deserializes to null or the deserializer throws; any other payload is handed to the handler as the deserialized item |
| `EngineSpec.StorePassKeepsOtherLists` | IotHub.Core/CqrsEngine/EngineeEventWorkerQueue.cs:117-131 | a store pass leaves the presence and the list of every key other than its own type's unchanged |
| `EngineSpec.DispatchFromMemory` | IotHub.Core/CqrsEngine/EngineeEventWorkerQueue.cs:132-143 | with an empty queue nothing changes and the pass is idle; otherwise the head is removed and handed to the handler; the store, worker tables and registry are unchanged |
| `EngineSpec.MemoryPassKeepsOtherQueues` | IotHub.Core/CqrsEngine/EngineeEventWorkerQueue.cs:132-143 | an in-memory pass leaves the presence and the queue of every other type's entry unchanged, and keeps its own type's entry present exactly when it was, so an emptied queue still counts as existing for the next push (line 50) |
| `EngineSpec.WithMemQueue` | IotHub.Core/CqrsEngine/EngineeEventWorkerQueue.cs:53-61 | the type's in-memory queue becomes the given sequence, as the new queue of line 60 and the enqueues of lines 53 and 61 leave it (and the dequeue of line 138); the store, worker tables and registry are unchanged and the invariant holds |
| `EngineSpec.WithRedisList` | IotHub.Core/CqrsEngine/EngineeEventWorkerQueue.cs:121-122 | the key's list becomes the given one, as after the pop of line 122 (and the pushes of lines 36 and 43); a key whose list becomes empty is removed, as Redis does; the in-memory queues, worker tables and registry are unchanged and the invariant holds |
| `EngineSpec.WithTally` | IotHub.Core/CqrsEngine/EngineeEventWorkerQueue.cs:161-173 | the type's counter and all-stopped flag become the given tally, as the writes of lines 163 and 171-172 set them; nothing else changes |
| `EngineSpec.ParkStep` | IotHub.Core/CqrsEngine/EngineeEventWorkerQueue.cs:155-176 | the type's tally moves by one `Observe` against the list length; with all-stopped high nothing changes; only counter and all-stopped of that type change |
| `Engine.EngineeEventWorkerQueue.constructor` | IotHub.Core/CqrsEngine/EngineeEventWorkerQueue.cs:16-22 | the object's tables are `EngineSpec.Initial` and valid |
| `Engine.EngineeEventWorkerQueue.IsWorkerStopping` | IotHub.Core/CqrsEngine/EngineeEventWorkerQueue.cs:267-276 | reads as `EngineSpec.IsWorkerStopping` of the current tables |
| `Engine.EngineeEventWorkerQueue.CountStatistic` | IotHub.Core/CqrsEngine/EngineeEventWorkerQueue.cs:244-265 | reads as `EngineSpec.CountStatistic` of the current tables |
| `Engine.EngineeEventWorkerQueue.GetType` | IotHub.Core/CqrsEngine/EngineeEventWorkerQueue.cs:291-297 | reads as `EngineSpec.GetType` of the current tables |
| `Engine.EngineeEventWorkerQueue.ListAllCommandName` | IotHub.Core/CqrsEngine/EngineeEventWorkerQueue.cs:283-289 | the result holds every registered name, nothing else, and no name twice |
| `Engine.EngineeEventWorkerQueue.InitFirstWorker` | IotHub.Core/CqrsEngine/EngineeEventWorkerQueue.cs:74-100 | the fields end as `EngineSpec.InitFirstWorker` of the old tables, and valid |
| `Engine.EngineeEventWorkerQueue.ResetPool` | IotHub.Core/CqrsEngine/EngineeEventWorkerQueue.cs:85-92 | the fields end as `EngineSpec.ResetPool` of the old tables |
| `Engine.EngineeEventWorkerQueue.StartThread` | IotHub.Core/CqrsEngine/EngineeEventWorkerQueue.cs:94-98 | the fields end as `EngineSpec.StartThread` of the old tables, and the returned handle is the fresh one |
| `Engine.EngineeEventWorkerQueue.Push` | IotHub.Core/CqrsEngine/EngineeEventWorkerQueue.cs:25-67 | the fields end as `EngineSpec.Push` of the old tables, and valid |
| `Engine.EngineeEventWorkerQueue.PushEnqueue` | IotHub.Core/CqrsEngine/EngineeEventWorkerQueue.cs:25-63 | the fields end as `EngineSpec.PushEnqueue` of the old tables, and valid; the result tells whether the queue was created |
| `Engine.EngineeEventWorkerQueue.AddAndStartWorker` | IotHub.Core/CqrsEngine/EngineeEventWorkerQueue.cs:224-242 | the fields end as `EngineSpec.AddAndStartWorker` of the old tables, valid, and the result is true |
| `Engine.EngineeEventWorkerQueue.RequestStop` | IotHub.Core/CqrsEngine/EngineeEventWorkerQueue.cs:190-198 | the fields end as `EngineSpec.RequestStop` of the old tables, and valid |
| `Engine.EngineeEventWorkerQueue.CompleteReset` | IotHub.Core/CqrsEngine/EngineeEventWorkerQueue.cs:199-222 | once all-stopped is high, the fields end as `EngineSpec.CompleteReset` of the old tables, valid, and the result is true |
| `Engine.EngineeEventWorkerQueue.DispatchStep` | IotHub.Core/CqrsEngine/EngineeEventWorkerQueue.cs:113-153 | the fields and the outcome are `EngineSpec.DispatchStep` of the old tables, and valid |
| `Engine.EngineeEventWorkerQueue.DispatchFromStore` | IotHub.Core/CqrsEngine/EngineeEventWorkerQueue.cs:117-131 | the fields and the outcome are `EngineSpec.DispatchFromStore` of the old tables |
| `Engine.EngineeEventWorkerQueue.DispatchFromMemory` | IotHub.Core/CqrsEngine/EngineeEventWorkerQueue.cs:132-143 | the fields and the outcome are `EngineSpec.DispatchFromMemory` of the old tables |
| `Engine.EngineeEventWorkerQueue.StoreList` | IotHub.Core/CqrsEngine/EngineeEventWorkerQueue.cs:121-122 | the fields end as `EngineSpec.WithRedisList` of the old tables: the key's list is replaced and an emptied key is removed |
| `Engine.EngineeEventWorkerQueue.StoreQueue` | IotHub.Core/CqrsEngine/EngineeEventWorkerQueue.cs:53-61 | the fields end as `EngineSpec.WithMemQueue` of the old tables: the type's in-memory queue is replaced |
| `Engine.EngineeEventWorkerQueue.ParkStep` | IotHub.Core/CqrsEngine/EngineeEventWorkerQueue.cs:155-176 | the fields end as `EngineSpec.ParkStep` of the old tables, and valid |
| `Engine.EngineeEventWorkerQueue.WriteTally` | IotHub.Core/CqrsEngine/EngineeEventWorkerQueue.cs:163-173 | the type's counter and all-stopped flag are set to the given tally, nothing else |
| `EngineProps.ParkTimes` | IotHub.Core/CqrsEngine/EngineeEventWorkerQueue.cs:155-176 | `k` passes of one thread move its type's tally exactly as `k` observations; they keep the invariant, keep the thread parked, and change only the counter and all-stopped flag of that thread's type |
| `EngineProps.OneThreadReleasesStop` | IotHub.Core/CqrsEngine/EngineeEventWorkerQueue.cs:159-173 | after a stop request on a pool at rest of `n` handles, one thread's passes leave all-stopped low for fewer than `n` passes and raise it at `n`, with no other thread parked |
| `EngineProps.StopAndPark` | IotHub.Core/CqrsEngine/EngineeEventWorkerQueue.cs:190-198 | the stop request and the parking raise all-stopped, so the reset's wait ends; lists, threads, queues and other types are untouched |
| `EngineProps.ResetToOneWorker` | IotHub.Core/CqrsEngine/EngineeEventWorkerQueue.cs:190-222 | a whole reset from rest leaves exactly one fresh handle, the stop flag low and tally (0, false); the cleared threads stay recorded; queues and other types are untouched |
| `EngineProps.RetiredThreadsKeepDispatching` | IotHub.Core/CqrsEngine/EngineeEventWorkerQueue.cs:214-219 | after a reset, every thread whose handle was cleared may run the dispatch loop again, though the list no longer names it |
| `EngineProps.HandlesOutliveReset` | IotHub.Core/CqrsEngine/EngineeEventWorkerQueue.cs:214-219 | once a list is replaced by one new handle and the stop flag is low, every old handle still names a dispatching thread of the type that the list no longer holds |
| `EngineProps.AddWorkers` | IotHub.Core/CqrsEngine/EngineeEventWorkerQueue.cs:224-242 | `k` scale-outs raise the reported worker count by exactly `k`, leave all-stopped low, and touch no other type |
| `EngineProps.StoreRefillStartsAnotherWorker` | IotHub.Core/CqrsEngine/EngineeEventWorkerQueue.cs:29-46 | on the store backend, taking the last item removes the key, so the next push of that type starts one more worker beside the live ones |
| `EngineProps.MemoryRefillKeepsWorkers` | IotHub.Core/CqrsEngine/EngineeEventWorkerQueue.cs:48-65 | on the in-memory backend, a drained queue stays known, so the next push only enqueues and leaves the worker tables as they were |
| `EngineProps.LeftoverStoreQueueHasNoWorker` | IotHub.Core/CqrsEngine/EngineeEventWorkerQueue.cs:33-37 | a store queue that exists before the engine starts gets a push but no worker |
| `EngineProps.DrainMemory` | IotHub.Core/CqrsEngine/EngineeEventWorkerQueue.cs:134-142 | `k` in-memory dispatch passes hand on exactly the first `k` queued items in order and leave the rest queued; worker tables and registry are unchanged |
| `EngineProps.MemoryDispatchIsFifo` | IotHub.Core/CqrsEngine/EngineeEventWorkerQueue.cs:50-64 | two events pushed onto an empty or missing in-memory queue reach the handler in push order |
| `EngineProps.StoreDispatchIsFifo` | IotHub.Core/CqrsEngine/EngineeEventWorkerQueue.cs:33-43 | two payloads pushed onto a type's absent store key come back from two store passes in push order, each as `Decoded` classifies it, and the second pass removes the key |
| `EngineProps.PushKeepsDispatching` | IotHub.Core/CqrsEngine/EngineeEventWorkerQueue.cs:48-63 | an in-memory push by a dispatching thread's type appends the item to that type's queue and leaves the thread dispatching |
| `EngineProps.DrainWholeQueue` | IotHub.Core/CqrsEngine/EngineeEventWorkerQueue.cs:132-143 | draining an in-memory queue completely hands on its items in queue order |
| `EngineProps.FailureDoesNotRequeue` | IotHub.Core/CqrsEngine/EngineeEventWorkerQueue.cs:121-148 | a dispatch pass leaves the same tables whether the handler succeeds or throws, and a non-empty queue loses one item either way |

## Left out

- Threads, `Thread.Start`, `Thread.Sleep` and the `_locker` monitor. Each thread step is one atomic transition, and each busy-wait is a precondition (lines 76-80 and 194-198). Races are not modelled, such as the unlocked counter update at lines 161-163 running beside another thread's.
- A thread never ends, so `threads` only grows. A "thread" is its handle and the type it drains.
- Redis I/O. The store is a map from key to a non-empty list. `KeyExists` is key presence, and a list emptied by a pop loses its key, as Redis does. Other processes that write to the same store are not modelled.
- JSON. Serialization is the `json` argument of `Push`. Deserialization is the `decode` argument of `DispatchStep`. There `None` stands for both a null result and a deserializer that throws, since line 145 catches that and the payload is lost either way. The model leaves open the type of an event `decode` returns; the C# deserializes into the queue's own type (line 125).
- `CommandsAndEventsRegisterEngine.ExecEvent`. Its outcome is the `handlerOk` argument, because it is external code. An exception from the store itself inside the dispatch loop is not modelled either. The exceptions caught at lines 145-148 that are modelled are the handler's and the deserializer's (as `None`).
- `Console.WriteLine` logging.
- `RedisServices.IsEnable` is taken as fixed for the engine's lifetime: `redisEnabled` is set at construction. The code reads the switch again at every push, dispatch pass and count (lines 29, 117 and 252), so a switch flipped at run time is not modelled.
- `Init` (lines 278-281) and the static constructor (lines 102-105), because both are empty.
- Lines 155-158, which create a missing stopped-counter. Under the invariant every type with a running thread already has one, so the branch never runs.
- The `null` tests on the queue and the handle list (lines 50, 85, 135, 226, 248, 260), because the engine never stores `null`.
- The `evt != null` test on a dequeued item (line 138), which never fires: `Push(null)` already throws at line 27 (`cmd.GetType()`), so no `null` is ever queued. That throw is not modelled either, because an `Event` value cannot be null.
- `GetType` for an unregistered name throws `KeyNotFoundException`, modelled as `None`.
- A push that creates its queue while a stop is in progress waits in `InitFirstWorker` (lines 76-80) after it has queued the item. The model splits that call: `PushEnqueue` runs at once, and the thread's `InitFirstWorker` is a separate later step, enabled once the stop flag is low. `Push` itself is the call that does not wait, which is why it requires the flag low when it creates the queue.
- `ResetToOneWorker` on a type that has never had a worker waits forever at lines 194-198. The model has no transition for it, because `CompleteReset` requires all-stopped to be high.
- EngineProps.ResetToOneWorker: states one schedule, in which one thread does all the parking. Other interleavings of `ParkStep`, `DispatchStep` and scale-out during a reset are covered step by step, not as a whole run.
- Engine.EngineeEventWorkerQueue.ListAllCommandName: the order of the names is not modelled, because the dictionary's enumeration order is unspecified. Any order of the registered names meets the contract.
- The other files of the repository (the HTTP controller, the sender forwards, the exception class and the sample handler). They are plumbing and data, and are not part of this model.
