# Verified models of the rtl library

Dafny models of the concurrent runtime, the database layer and the WebSocket transfer code of rtl, with proofs about
whole runs: every interleaving of threads, handlers or handles, every program of savepoint scopes, every task tree,
every blob. `dafny verify dfyconfig.toml` checks everything.

| file | models |
|---|---|
| `LockFreeQueue.dfy` | the Michael-Scott queue, one atomic access per step |
| `BlockingQueue.dfy` | the bounded blocking queue with its two condition variables |
| `ThreadPool.dfy` | the thread pool over that queue: put, workers, shutdown, join, by clients and by running tasks |
| `Timer.dfy` | the one-shot timer and its worker loop |
| `Coroutine.dfy`, `TaskHandles.dfy` | lazy coroutine tasks with schedule points on any number of workers; ownership of their frames |
| `Savepoints.dfy` | nested savepoints in a transaction |
| `ConnectionPool.dfy` | the connection pool, its leases and the threads that wait for one |
| `Retry.dfy` | `with_retry` over transaction, connection and pool |
| `Chunks.dfy` | messages as JSON, a blob split into chunk messages and put together again |
| `Session.dfy` | the write queue of a WebSocket session |
| `BlockAllocator.dfy` | the free-list allocator |
| `Common.dfy` | `Option`, the 64-bit bound, decimal digits and that they are unambiguous |

## How the models are built

A concurrent component is a state machine: a `State`, the `Action`s that the source's atomic accesses, mutex-held
sections or handlers can take, `Enabled` and `Next`. A run is any sequence of enabled actions, so a lemma over all runs
covers all schedules; spurious wakeups, spurious compare-exchange failures, timeouts and the choice of `notify_one` are
arguments of the actions. Fields described as history are never read by a step. Where the source is an object with a
mutex or an executor in front of it, a class has the source's fields and one method per section, proved equal to the
function that the machine uses and to a statement over the old fields that does not mention that function.

Assumptions about the surroundings, all visible in the definitions:

- The lock-free queue is sequentially consistent, and `new` never returns a node that was deleted. The source deletes the
  old head at once (stp/LockFreeQueue.hpp:72); the model lets other threads go on reading it and says when they do
  (`LockFreeQueue.DeletedIsMetExactly`).
- The server of `Savepoints` is a small model of SAVEPOINT, ROLLBACK TO SAVEPOINT and RELEASE SAVEPOINT in PostgreSQL,
  including the aborted state after a failed statement.
- `Retry` takes what each attempt meets (the pool as acquire finds it after any wait, the error of acquire, dead
  connections, errors of statements, commits of other clients before and during the transaction) as an argument; a commit that throws has not happened, and one that succeeds
  has its effect on the data as they are at that moment.
- Task bodies in `Coroutine` are finite trees of statements over one local variable, as any body with loops unrolls to
  that ends on its argument. Tasks of `ThreadPool` return after a
  number of calls of put, shutdown_graceful and join given for each of them, any number at all; a worker does not join its
  own pool, where the source ends the process. The executor of `Timer` accepts what it is given.

Results where the code does not do what one would wish, each with the exact condition and an input that shows it:

- Splitting and reassembling a blob is the identity exactly when size + chunk size - 1 fits in 64 bits
  (`Chunks.BlobRoundTrip`); otherwise `total_chunks` has wrapped and reassembly refuses the messages.
- The timer declares expiry before the time last asked for exactly when the wait is still pending, not cancelled and not
  stopped, and the fields have changed a positive multiple of 2^64 times during it (`Timer.FiresEarlyExactly`,
  `Timer.PostponedTimerFires`).
- A savepoint scope is resolved at its own savepoint exactly when no savepoint of its name is left inside it
  (`Savepoints.FindsMeansClean`). Every savepoint advances the counter and only unreleased ones are left, so a scope with
  savepoints made in a row inside it is undone exactly when each that comes round to its number was released
  (`Savepoints.WrappedCounterMisfires`); one unreleased after 2^64 - 1 released ones is enough
  (`Savepoints.OneUnreleasedIsEnough`). A name chosen by the client is enough at once: the constructor that takes one is
  private in the source, but a client can send SAVEPOINT with the name of a scope through `Transaction::exec`
  (`Savepoints.RawSavepointMisfires`). What a rollback then restores is `Savepoints.RollbackIsExact`.
- A wakeup of the connection pool is lost exactly when a woken thread fails to open a connection while others stay parked
  and the threads on their way are just as many as the connections to be had, with none to spare
  (`ConnectionPool.WakeupIsLostExactly`, `ConnectionPool.LeftParked`).
- A session starts a second write beside the first exactly when a message is enqueued while it is draining with a write
  under way and a queue that is not empty (`Session.SecondWriteStarts`, `Session.DisturbedRun`). Closing an open session
  under a write, and nothing else, clears the message that is being written (`Session.FrontIsLostExactly`,
  `Session.CutRun`). Closing it during its handshake does not keep it from being open (`Session.OpenExactly`,
  `Session.ClosedThenOpen`).
- An access of the lock-free queue meets a deleted node exactly when a pop has moved the head past that node and finished
  with it (`LockFreeQueue.DeletedIsMetExactly`, `LockFreeQueue.DeletedIsMet`); never when pops overlap no other operation
  (`LockFreeQueue.LonePopsAreSafe`).
- An owner who resumes or destroys a coroutine task breaks it exactly when the task has been resumed before and has not
  finished (`Coroutine.ResumeIsExact`, `Coroutine.DestroyIsExact`).
- Deallocation keeps the partition of the buffer exactly when the first table entry for the pointer records the size that
  the client gives up (`BlockAllocator.DeallocateIsExact`). Entries are never removed, so an address used again at another
  size breaks it (`BlockAllocator.ReuseAtAnotherSize`).

## Model

| member | source | states |
|---|---|---|
| LockFreeQueue.EveryRunIsAtomic | stp/LockFreeQueue.hpp:38-76 | linearizability: whatever callers of push and pop observe in any interleaving of any number of threads, an atomic FIFO queue could have shown them |
| LockFreeQueue.NextRefines | stp/LockFreeQueue.hpp:38-76 | every atomic access keeps the invariant and is one step of the atomic queue: a push takes effect at the link, a pop at the head move, an empty pop at the read of a null next |
| LockFreeQueue.EveryStateIsSound | stp/LockFreeQueue.hpp:41-52 | in every reachable state the nodes are one acyclic chain with head at or before tail and tail last or second to last, no null or unknown pointer was followed, no node deleted twice or at or after the head, and the values popped are the first ones pushed, in link order |
| LockFreeQueue.HeadCasIsSound | stp/LockFreeQueue.hpp:59-73 | a head compare-exchange that can succeed, however old its reads, installs the direct successor of the head, not null and not past the tail |
| LockFreeQueue.RetriesArePaidFor | stp/LockFreeQueue.hpp:40-75 | over any run the retry count a thread keeps is at most 2 * pushes + pops + its own spurious failures |
| LockFreeQueue.AccessesArePaidFor | stp/LockFreeQueue.hpp:38-76 | lock-freedom counted on the run itself: over any run a thread makes at most 6 * (2 * pushes + pops + its own spurious failures + its calls) accesses, so no schedule lets it go round without others making progress |
| LockFreeQueue.TailCatchesUp | stp/LockFreeQueue.hpp:46-52 | in every run without spurious failures the tail is the last node whenever no push has still to swing it |
| LockFreeQueue.LookedAtIsLive | stp/LockFreeQueue.hpp:41-46 | a push goes on from its second look at the tail exactly when the tail has not moved, and then the node whose next pointer it read was not deleted at that time or before |
| LockFreeQueue.DeletedIsMetExactly | stp/LockFreeQueue.hpp:42-72 | in every run the node an access is about to touch is deleted exactly when the head has moved past it and no pop has still to delete it; a delete never meets a deleted node |
| LockFreeQueue.DeletedIsMet | stp/LockFreeQueue.hpp:59-72 | a run in which a pop reads the next pointer of a node that another pop has deleted |
| LockFreeQueue.LonePopsAreSafe | stp/LockFreeQueue.hpp:38-76 | in every run in which no push and no other pop overlaps a pop, no access meets a deleted node |
| LockFreeQueue.NextReclaims | stp/LockFreeQueue.hpp:70-72 | every node behind the head is deleted or about to be, after every access: no node leaks |
| LockFreeQueue.LocalIsStable | stp/LockFreeQueue.hpp:41-70 | what a thread learnt from its earlier reads stays true under every access of the others |
| LockFreeQueue.LinkKeeps | stp/LockFreeQueue.hpp:46-50 | linking at a node read earlier keeps the chain, and that node is then the tail |
| LockFreeQueue.MoveTailKeeps | stp/LockFreeQueue.hpp:48-52 | swinging the tail, by the pusher or by a helper, keeps the chain |
| LockFreeQueue.MoveHeadKeeps | stp/LockFreeQueue.hpp:70-73 | moving the head keeps the chain and the order of head and tail |
| BlockingQueue.NoLostWakeup | stp/UnbMpMcTemplateQueue.hpp:243-332 | in every run, while a putter is parked on an open queue the free slots are covered by woken putters and pending notifications, and while a taker is parked the items are covered by woken takers |
| BlockingQueue.QuietMeansJustified | stp/UnbMpMcTemplateQueue.hpp:243-356 | when nobody is on its way, a parked putter means an open, full queue, a parked taker an open, empty one, and never both |
| BlockingQueue.EveryRunIsInOrder | stp/UnbMpMcTemplateQueue.hpp:70-78 | in every run the items taken are a prefix of those accepted, the buffer is the rest, and a non-zero bound is never exceeded |
| BlockingQueue.AfterClose | stp/UnbMpMcTemplateQueue.hpp:349-356 | in every continuation after a close nothing more is accepted, the items left are handed out in order, and whoever is parked or has timed out had done so before the close and has not moved since |
| BlockingQueue.NextKeepsInv | stp/UnbMpMcTemplateQueue.hpp:228-356 | every section, notification, spurious wakeup, timeout and close keeps order, bound and both wakeup invariants |
| BlockingQueue.RefusalLeavesNoTrace | stp/UnbMpMcTemplateQueue.hpp:228-285 | a full, closed or timed-out put changes only the thread's own place; an accepted one appends exactly its item |
| BlockingQueue.PutEndsExactly | stp/UnbMpMcTemplateQueue.hpp:228-285 | for every section of a put, first or after a wait, when it is accepted, closed, full, timed out or parked, each as an if-and-only-if over the queue at that moment |
| BlockingQueue.TakeEndsExactly | stp/UnbMpMcTemplateQueue.hpp:301-331 | the same for a take: the oldest item, closed, timeout or parked |
| BlockingQueue.ResultStays | stp/UnbMpMcTemplateQueue.hpp:228-331 | a result once reached is what the call returns, whatever other threads do meanwhile |
| BlockingQueue.StepsRunSections | stp/UnbMpMcTemplateQueue.hpp:228-356 | the machine's steps change the protected fields as the methods of the object do |
| BlockingQueue.UnbQueue.PutSection | stp/UnbMpMcTemplateQueue.hpp:228-250 | put, put_wait and put_wait_for up to their return or wait: closed exactly when not open, accepted and appended exactly when there is room, otherwise full or parked by the kind of put, the fields then untouched; and all as the machine's EnterPut |
| BlockingQueue.UnbQueue.PutAfterWait | stp/UnbMpMcTemplateQueue.hpp:253-285 | after the wait the fields and outcome are those of RecheckPut, with closing seen before expiry |
| BlockingQueue.UnbQueue.TakeSection | stp/UnbMpMcTemplateQueue.hpp:301-314 | tryTake up to its return or wait takes the oldest item or leaves the buffer alone, as EnterTake |
| BlockingQueue.UnbQueue.TakeAfterWait | stp/UnbMpMcTemplateQueue.hpp:313-331 | after the wait: oldest item even on a closed queue, else closed, else timeout or another wait, as RecheckTake |
| ThreadPool.StoppedMeansExactlyOnce | stp/RtlThreadPool.hpp:71-264 | for every interleaving and rejection policy, with tasks that themselves call put and shutdown_graceful and run other tasks inline to any depth: once the pool is stopped every task whose put gave a future has been called exactly once and has returned, every task whose put threw was never called, and the queue is empty |
| ThreadPool.NeverTwice | stp/RtlThreadPool.hpp:71-264 | at any moment of any run no task has been called twice and none whose put threw at all |
| ThreadPool.BlockingPutThrowsOnlyOnStop | stp/RtlThreadPool.hpp:82-118 | under the policies block and caller_runs, in any run, a put by a client or by a running task has thrown only if the pool has left its running phase |
| ThreadPool.PutThrowsForCause | stp/RtlThreadPool.hpp:106-117 | in every run ThreadPoolStopped is thrown only once the pool is stopping, QueueFull only under throw_exception, TaskRejected only under block_for |
| ThreadPool.WaitsByPolicy | stp/RtlThreadPool.hpp:82-105 | in every run no put under throw_exception or caller_runs ever waits, every wait under block_for has a deadline and none under block has |
| ThreadPool.PutEndsByPolicy | stp/RtlThreadPool.hpp:82-119 | how a put that does not wait ends, whatever others do before it returns, from the queue as it was on entry: ThreadPoolStopped exactly when closed, QueueFull exactly when full under throw_exception, run by the caller exactly when full under caller_runs, a future otherwise |
| ThreadPool.EntryDecides | stp/RtlThreadPool.hpp:82-93 | what a put meets when it enters the queue, from bound, length and policy alone |
| ThreadPool.LatePutThrows | stp/RtlThreadPool.hpp:73-75 | in any continuation from the start of a shutdown a put throws ThreadPoolStopped at once and leaves the queue alone |
| ThreadPool.NextKeepsInv | stp/RtlThreadPool.hpp:71-264 | every step of clients, workers and the tasks they are in keeps each task in exactly one place, called once if under way or done and otherwise not at all, and each thread's stack of running tasks in order |
| ThreadPool.DrainTerminates | stp/RtlThreadPool.hpp:142-163 | from a closed queue on, in any run, the workers together take at most Measure steps, those of the tasks they run and of the puts and shutdowns inside them included |
| ThreadPool.DrainStep | stp/RtlThreadPool.hpp:244-264 | after close each step of a worker, in its loop or in a task, lowers the measure and no other step raises it |
| ThreadPool.DrainProgresses | stp/RtlThreadPool.hpp:142-264 | after close, while a worker has not exited, also one parked in its own put or waiting for the mutex, it or the closing thread can move without a spurious wakeup or timeout |
| Timer.EveryWaitIsResolvedOnce | stp/RtlTimer.hpp:52-139 | in every run each accepted wait with a handler is in exactly one place: waiting, being handed over, handed over once, or dropped by shutdown |
| Timer.CancelWins | stp/RtlTimer.hpp:67-121 | once cancel has returned true the handler is never handed over as expired, in any continuation; and it is handed over as cancelled only then |
| Timer.CancelDecision | stp/RtlTimer.hpp:109-121 | in every run the worker takes a cancelled handler in hand exactly when the wait is pending, not stopped and cancelled, and the wait is then over; it leaves exactly when stopped and sleeps exactly when nothing is pending |
| Timer.CancelIsHandedOver | stp/RtlTimer.hpp:67-146 | once cancel has returned true and unless the timer is stopped, three steps of the worker, four if it is handing over an earlier wait, give the handler to the executor as cancelled |
| Timer.CancelProgresses | stp/RtlTimer.hpp:101-136 | and until then the worker can always take a step |
| Timer.ExpiryIsHandedOver | stp/RtlTimer.hpp:95-146 | a wait that nobody changes, cancels or stops any more is given to the executor as expired by four steps of the worker |
| Timer.StopEndsTheWorker | stp/RtlTimer.hpp:80-111 | after shutdown the worker takes at most two more steps and hands over at most what it had in hand |
| Timer.ExpiryIsDue | stp/RtlTimer.hpp:105-132 | expiry is declared only when the clock has reached the expiry last asked for, with fewer than 2^64 changes during the wait |
| Timer.ExpiryDecision | stp/RtlTimer.hpp:108-132 | exactly when expiry is declared, in terms of the fields and the number of changes modulo 2^64 |
| Timer.FiresEarlyExactly | stp/RtlTimer.hpp:105-132 | exactly when expiry is declared before the time last asked for: pending, not stopped, not cancelled, and a positive multiple of 2^64 changes since the worker read the fields |
| Timer.WrapOverlooksPostponement | stp/RtlTimer.hpp:39-46 | after a multiple of 2^64 postponements the worker fires at the deadline it read first |
| Timer.PostponedTimerFires | stp/RtlTimer.hpp:39-132 | from the start: a wait, a worker that has read its expiry, a multiple of 2^64 postponements, and the handler is handed over as expired before the expiry asked for |
| Timer.NextKeepsInv | stp/RtlTimer.hpp:39-139 | every section of callers and worker keeps the accounting of handlers, cancels and versions |
| Timer.RtlTimer.StartWait | stp/RtlTimer.hpp:52-65 | async_wait is refused without a trace exactly while stopping or pending; otherwise it stores the handler, forgets an old cancel and changes the version |
| Timer.RtlTimer.RequestCancel | stp/RtlTimer.hpp:67-78 | cancel returns true exactly when a wait is pending, and then marks it cancelled and changes the version |
| Timer.RtlTimer.Stop | stp/RtlTimer.hpp:80-93 | shutdown drops the pending wait and its handler; a second one changes nothing |
| Timer.RtlTimer.LeaveInnerWait | stp/RtlTimer.hpp:109-132 | after its timed wait the worker leaves, sleeps, hands over as cancelled, hands over as expired or waits anew, each exactly under its condition on the fields, with stop before cancel before a changed version; what is handed over is no longer pending |
| Timer.RtlTimer.SetExpiry | stp/RtlTimer.hpp:39-46 | expires_at sets the expiry and changes the version modulo 2^64, nothing else |
| Coroutine.EveryScheduleMeansTheTrees | coro/Task.hpp:17-187 | for any task trees on any number of workers, resumed and dropped by their owners at any time they may, in any interleaving: no running, finished or dead frame is resumed, no result is missing, no frame destroyed twice; no run is longer than the sizes of the tasks; a result that is ready is that of direct evaluation; when only owners can act every task not dropped has its result; and in the end every frame ever made has been destroyed |
| Coroutine.TasksGoOn | coro/Task.hpp:31-156 | while a task that is not dropped has no result, some frame can take a step or its owner can resume it: no handle is lost at an await, a schedule point or a final suspend |
| Coroutine.ScheduledExactly | coro/Schedule.cpp:13-22 | in every run a task that has finished was taken from the executor, itself or through the tasks it awaited, exactly as often as its evaluation passes accepted schedule points, and before that never more often |
| Coroutine.NextCounts | coro/ExecutorScheduler.cpp:12-28 | every step changes the number of dequeues a task has still to come by exactly the dequeue it is, or not at all |
| Coroutine.NextKeeps | coro/Task.hpp:31-149 | every step keeps the links between frames, the posted handles, and what every surviving frame is going to mean |
| Coroutine.NextShrinks | coro/Task.hpp:31-149 | every step leaves less to do |
| Coroutine.AwaitKeeps | coro/Task.hpp:104-110 | awaiting parks the frame as continuation of the new child, transfers control to it and changes no meaning |
| Coroutine.JoinKeeps | coro/Task.hpp:112-148 | after the child has ended its result is taken or rethrown, its frame destroyed, and the awaiting frame means what it meant |
| Coroutine.FinishKeeps | coro/Task.hpp:31-62 | return and throw set the promise to the meaning of the frame and hand control to the continuation |
| Coroutine.GoOnKeeps | coro/ExecutorScheduler.cpp:12-28 | going on after a local statement, and suspending and posting the frame once, both keep the links and every meaning; which of the two a schedule point does is ScheduledExactly |
| Coroutine.DequeueKeeps | coro/ExecutorScheduler.cpp:12-28 | any posted handle, in any order, is resumed exactly once |
| Coroutine.StartKeeps | coro/Task.hpp:151-156 | the first resume by the owner keeps the links, the posted handles and every meaning |
| Coroutine.DropKeeps | coro/Task.hpp:91-95 | so does destroying a task that was never resumed or has finished |
| Coroutine.ResumeIsExact | coro/Task.hpp:151-156 | resuming a task goes wrong, at once or in the next step of some schedule, if and only if it was resumed before and has not finished |
| Coroutine.DestroyIsExact | coro/Task.hpp:91-95 | destroying it, with the children it awaits, goes wrong if and only if it is under way in that sense |
| TaskHandles.Handles.Create | coro/Task.hpp:22-24 | a call gives a Task that owns a fresh frame |
| TaskHandles.Handles.Move | coro/Task.hpp:71-74 | a move, or co_await, passes the frame on and leaves the source empty; every frame keeps exactly one owner |
| TaskHandles.Handles.MoveAssign | coro/Task.hpp:80-89 | move-assignment destroys the frame owned before, unless the object is itself |
| TaskHandles.Handles.Destruct | coro/Task.hpp:91-95 | destruction destroys the owned frame; when no object is left every frame ever made has been destroyed |
| Savepoints.ExecutionMeans | db/tx/Savepoint.cpp:18-76 | any clean nested program of savepoint scopes, named by the counter or by the caller, resolved innermost first by rollback, release or destructor, with exceptions and aborted transactions, leaves exactly the contents, counter and stack of savepoints that its direct recursive meaning gives |
| Savepoints.TransactionMeans | db/tx/Savepoint.cpp:18-76 | the same for a whole transaction: what would be committed is what the program means |
| Savepoints.FindsMeansClean | db/tx/Savepoint.cpp:54-76 | every scope that is entered finds its own savepoint when it is resolved if and only if the program is clean, a condition on the program, the contents and the counter before it runs |
| Savepoints.FoundIsFree | db/tx/Savepoint.cpp:64-76 | after its body a scope finds its own savepoint exactly when no savepoint left inside has its name |
| Savepoints.RollbackIsExact | db/tx/Savepoint.cpp:54-69 | what rolling a scope back restores, clash or not: the contents at the newest savepoint of its name |
| Savepoints.ResolvedOnce | db/tx/Savepoint.cpp:54-76 | after a rollback or release that succeeded, another one throws and leaves the transaction as it is, whatever has been written since, and so does the destructor |
| Savepoints.CounterSufficesIsClean | db/tx/Transaction.cpp:137-142 | programs with generated names and fewer than 2^64 savepoints inside any one scope are clean |
| Savepoints.NamesDiffer | db/tx/Transaction.cpp:137-142 | generated savepoint names are different for different numbers |
| Savepoints.WrappedCounterMisfires | db/tx/Transaction.cpp:137-142 | for any row of savepoints made inside a scope, each resolved in its own way: rolling the scope back undoes it if and only if every savepoint that comes round to its number was released; otherwise the write before them stays |
| Savepoints.OneUnreleasedIsEnough | db/tx/Transaction.cpp:137-142 | no number of released savepoints does harm, and one unreleased after 2^64 - 1 released ones does |
| Savepoints.SameNameMisfires | db/tx/Savepoint.cpp:18-38 | a savepoint with the name of the scope around it, whatever gave the scope its name: rolling the scope back keeps the write before it |
| Savepoints.RawSavepointMisfires | db/tx/Transaction.cpp:66-75 | the same through the public interface: a Savepoint, and SAVEPOINT with its name sent through exec |
| Savepoints.Savepoint.constructor | db/tx/Savepoint.cpp:18-27 | construction takes the next name and creates the savepoint, or fails with no active handle |
| Savepoints.Savepoint.Named | db/tx/Savepoint.cpp:29-38 | construction with a given name leaves the counter alone and creates the savepoint, or fails with no active handle |
| Savepoints.Savepoint.Finish | db/tx/Savepoint.cpp:64-76 | rollback and release send their command exactly when the handle is active; an inactive handle throws and touches nothing; the handle stays active exactly when its command throws |
| Savepoints.Savepoint.Destruct | db/tx/Savepoint.cpp:54-62 | the destructor rolls back a scope still active |
| ConnectionPool.EveryRunConserves | db/pool/PoolState.hpp:30-135 | over any run the idle count is the length of the stored list, the active count the number of live leases, their sum within the limit, and no connection has two owners |
| ConnectionPool.BrokenStaysOut | db/pool/PooledConnection.cpp:74-79 | a connection once marked broken is never idle again |
| ConnectionPool.StoredExactly | db/pool/PoolState.hpp:30-48 | a connection enters the list exactly when a lease lets go of it while it is open and the pool is running, and is then the newest |
| ConnectionPool.TakenExactly | db/pool/PoolState.hpp:109-135 | a connection leaves the list exactly when it is the newest and a lease is acquired, and that lease holds it |
| ConnectionPool.ShutdownIsFinal | db/pool/PoolState.hpp:30-69 | after shutdown, in any continuation, nothing is stored and nothing is handed out |
| ConnectionPool.AcquireNeverNull | db/pool/PoolState.hpp:50-69 | an acquire that stops waiting on an open pool has a connection to take |
| ConnectionPool.WakeupIsLostExactly | db/pool/PoolState.hpp:30-94 | every section of acquire, try_acquire_for, return and shutdown keeps parked threads covered by threads on their way, except exactly a woken thread that fails to open a connection with none to spare |
| ConnectionPool.ParkedForAReason | db/pool/PoolState.hpp:50-94 | in every run without such a failure, a thread parked while nobody is on its way waits for an open pool whose connections are all in use |
| ConnectionPool.LeftParked | db/pool/PoolState.hpp:30-69 | a run after which a thread is parked beside an empty pool with nobody on its way |
| ConnectionPool.NextKeepsInv | db/pool/PooledConnection.cpp:13-47 | acquire, move, move-assignment, mark_broken, destruction, lost connections and shutdown keep counts and ownership |
| ConnectionPool.PoolState.TakeConnection | db/pool/PoolState.hpp:109-135 | take_connection_locked gives the newest idle connection, or a new one below the limit, or none, and moves the counts with it; it throws exactly when a connection must be opened and cannot be, with nothing changed |
| ConnectionPool.PoolState.ReturnConnection | db/pool/PoolState.hpp:30-48 | return_connection lowers the active count, wrapping below zero, and stores only an open connection of a running pool |
| Retry.Client.WithRetry | db/tx/TransactionHelper.hpp:21-57 | whatever happens, also on a pool that is shut down or full until others return connections, with_retry ends as Expected says: on return the data hold what other clients did plus exactly one attempt's work, on throw none of the work, at most max attempts are made, at most one lease is held, no transaction stays active, and the idle connections are exactly those the last attempt found, less one that broke, plus one it opened |
| Retry.ReturnsExactly | db/tx/TransactionHelper.hpp:28-55 | it returns after attempt k exactly when k opens and commits and every attempt before it opened and met a serialization failure or a deadlock, in the callback or at the commit |
| Retry.ThrowsExactly | db/tx/TransactionHelper.hpp:28-55 | it throws e after attempt k exactly when every attempt before it met a serialization failure or deadlock and k could not be opened because of e, or met e and e is neither of the two or k was the last allowed |
| Retry.ThrowsOnlyForCause | db/tx/TransactionHelper.hpp:40-55 | what it throws is the error of the last attempt, which failed to open, or met an error not retried, or was the last allowed |
| Retry.Client.AcquireAndBegin | db/tx/Transaction.cpp:18-25 | acquire and begin fail exactly when acquire throws or the connection is dead; the lease is given back when begin fails, and one transaction is flagged when it succeeds |
| Retry.Client.RunAndCommit | db/tx/Transaction.cpp:66-112 | callback and commit, with other clients committing meanwhile: a failure leaves only their changes and the open transaction, a success adds the work and frees the lease |
| Retry.Client.FinishAndRelease | db/core/ConnectionTransaction.cpp:122-146 | finish clears the flag and the server's transaction before the connection goes back, into the idle list if it is open and the pool runs |
| Chunks.BlobRoundTrip | ws/server/WsProtocol.hpp:156-330 | for every non-empty blob and chunk size, the data messages in any order, reassembly gives back exactly the blob if size + chunk size - 1 fits in 64 bits, and refuses otherwise |
| Chunks.BlobRoundTripThroughJson | ws/server/WsProtocol.hpp:34-104 | the same when every message goes through its JSON form |
| Chunks.ReassemblyIsExact | ws/server/WsProtocol.hpp:218-330 | success exactly when start and end agree, every data message belongs to the transfer and is well formed, no index repeats and the volume is the announced one; the result is the chunks in index order |
| Chunks.AcceptedExactly | ws/server/WsProtocol.hpp:218-315 | the same in terms of the keys of the messages alone: accepted if and only if start, end and every data message name one transfer id and one count, start and end one size, the indices are below the count and all different, every chunk_bytes is the number of items, every item is a byte in its low 32 bits, and the items add up to the size |
| Chunks.EveryIndexSeen | ws/server/WsProtocol.hpp:308-310 | the final all-seen check cannot fail: as many different indices as chunks are all of them |
| Chunks.MessageRoundTrip | ws/server/WsProtocol.hpp:34-104 | a message read back from its JSON form is the message sent |
| Chunks.DecodingIsExact | ws/server/WsProtocol.hpp:60-104 | a JSON value is read as a message if and only if it is an object carrying each of its parts under its key, a missing text or payload being the default and a null error none |
| Chunks.BlobToChunk | ws/server/WsProtocol.hpp:156-216 | the loop produces the start message, one data message per slice, and the end message |
| Chunks.SentContents | ws/server/WsProtocol.hpp:156-202 | the start message names file and chunk size, and the data message with index i carries exactly the bytes from i * chunk size on |
| Chunks.SentIdsDiffer | ws/server/WsProtocol.hpp:170-206 | no two messages of a transfer have the same id |
| Chunks.SentLabel | ws/server/WsProtocol.hpp:170-210 | every message of a transfer carries its name as correlation id, with the id of its place |
| Chunks.ChunksToBlob | ws/server/WsProtocol.hpp:218-330 | the loop with its index table computes Reassemble |
| Chunks.ReadPayload | ws/server/WsProtocol.hpp:291-302 | payload items narrowed to 32 bits and refused above a byte |
| Session.OpenSessionIsExact | ws/server/WsSession.hpp:393-619 | while a session is open, whatever happened during its handshake, the counters equal message count and byte sum of the queue and stay within limits, one write at most is outstanding, of the first message, and completed writes are the first messages accepted |
| Session.AdmissionIsExact | ws/server/WsSession.hpp:571-587 | after any run a message is taken exactly when the session is open and the messages and bytes queued, with it, do not exceed their limits; one just at a limit is taken |
| Session.ShutdownDrains | ws/server/WsSession.hpp:290-301 | after the shutdown of an open session, while no write fails, nobody closes it by force and no message is sent into the drain: every completed write takes one message off, a write is outstanding until none is left, and then all that was ever accepted has been written |
| Session.ShutdownOnlyMarks | ws/server/WsSession.hpp:295-300 | in any run at all the drain that a shutdown starts with finds a write under way or nothing to write: only the phase changes |
| Session.WorkIsUnderWay | ws/server/WsSession.hpp:571-619 | in any run at all m_writing is set while anything is queued |
| Session.ToldOnce | ws/server/WsSession.hpp:673-683 | in any run at all the router is told of the close at most once, and once after a mark_closed_and_notify_once |
| Session.ClosedIsAnnounced | ws/server/WsSession.hpp:303-321 | a session whose handshake was not refused is closed only if the router has been told |
| Session.UndisturbedRunIsInOrder | ws/server/WsSession.hpp:444-543 | in any phase, unless a message disturbs a drain, one write at a time, in order, and one close notification at most |
| Session.SecondWriteStarts | ws/server/WsSession.hpp:571-594 | from a good state two writes are outstanding after a step exactly when it enqueues into a drain with a write under way and messages left, and both write the same message |
| Session.DisturbedRun | ws/server/WsSession.hpp:571-594 | such a run exists |
| Session.OpenExactly | ws/server/WsSession.hpp:399-455 | a session is open at the end of a run if and only if its handshake has succeeded in it and nothing has ended it since, whatever came before |
| Session.NeverOpenAgain | ws/server/WsSession.hpp:657-683 | once the handshake is over and the session is not open it never is again |
| Session.ClosedThenOpen | ws/server/WsSession.hpp:399-408 | a run in which the router is told of the close and the session is open afterwards |
| Session.FrontIsLostExactly | ws/server/WsSession.hpp:605-619 | from a good state the message of an outstanding write stays the first of the queue through every handler except exactly a close of an open session under a write |
| Session.FrontIsHeld | ws/server/WsSession.hpp:605-619 | in every run without such a close and without a disturbed drain, what is being written is the first message of the queue |
| Session.CutRun | ws/server/WsSession.hpp:657-672 | accept, send, close: a write is outstanding whose message is gone |
| Session.NextKeepsInv | ws/server/WsSession.hpp:393-702 | every other handler, in any phase, keeps order, counters and the single write |
| Session.WsSession.DoEnqueueMessage | ws/server/WsSession.hpp:571-587 | do_enqueue_message: refused when not open or over a limit, with wrapping counters; otherwise appended and written at once when idle; while draining it restarts the drain |
| Session.WsSession.DoWriteNext | ws/server/WsSession.hpp:589-619 | do_write_next starts the write of the first message when open, drains on shutdown, and drops the queue in other phases |
| Session.WsSession.OnWriteDone | ws/server/WsSession.hpp:444-455 | a completed write takes its message and bytes off queue and counters, then the next write, the next drain or the close follows |
| Session.WsSession.DoBeginClosing | ws/server/WsSession.hpp:658-671 | begin_closing empties queue and counters exactly when the session is opening or open, and otherwise changes nothing |
| Session.WsSession.MarkClosedAndNotifyOnce | ws/server/WsSession.hpp:673-683 | the session is closed and the router told exactly if it had not been |
| BlockAllocator.Allocator.Allocate | allocators/BlockAllocator.hpp:52-102 | allocation, of no elements too, cuts the front of the first block that fits, records it in the first empty slot and merges once; every byte of the buffer stays free once or live once; nullptr exactly when none fits |
| BlockAllocator.Allocator.Deallocate | allocators/BlockAllocator.hpp:63-77 | for any pointer, nullptr and unknown ones included: the exact free table afterwards, and the allocator is intact exactly when the first record of the pointer has the size given up |
| BlockAllocator.DeallocateIsExact | allocators/BlockAllocator.hpp:63-77 | after writing the first record of the pointer into the first empty slot and merging, the partition holds if and only if the recorded size is the size the client gives up |
| BlockAllocator.ReuseAtAnotherSize | allocators/BlockAllocator.hpp:52-102 | on a new allocator, for all sizes that fit: allocate n, give back, allocate m, give back is at one address and leaves the allocator broken whenever n and m differ |
| BlockAllocator.AllocateAndGiveBack | allocators/BlockAllocator.hpp:52-102 | one allocation from a whole buffer and its return: intact, and whole again, exactly when the first record of the address has its size |
| BlockAllocator.Allocator.MergeFreeBlocks | allocators/BlockAllocator.hpp:153-171 | the in-place sort and sweep compute MergePass |
| BlockAllocator.PassKeepsBytes | allocators/BlockAllocator.hpp:153-171 | a pass keeps the exact set of free bytes and uses no more slots |
| BlockAllocator.PassMerges | allocators/BlockAllocator.hpp:157-168 | a pass over a table with touching blocks frees at least one slot |
| BlockAllocator.PassHalves | allocators/BlockAllocator.hpp:157-168 | a pass leaves at most half of the places where free blocks touch |
| BlockAllocator.PassesSettle | allocators/BlockAllocator.hpp:153-171 | n passes over at most 2^n free blocks leave no two that touch, with the same free bytes |
| BlockAllocator.AllocationStaysWellFormed | allocators/BlockAllocator.hpp:79-102 | allocation leaves no empty and no overlapping block in the free table |
| BlockAllocator.DeallocationStaysWellFormed | allocators/BlockAllocator.hpp:63-77 | nor does a deallocation that keeps the partition, unless it is given a block of no bytes |

## Left out

- LockFreeQueue.NextRefines: modelled on values, one access per step, because an interleaving of two calls is not one method body; weak memory orders and reuse of a deleted node's address are not captured.
- ThreadPool.NextKeepsInv: modelled on values for the same reason; periodic tasks (`put_periodic`), statistics and exceptions of thread creation are not captured.
- Coroutine.EveryScheduleMeansTheTrees: modelled on values; bodies that do not end, awaits of a task made earlier, `Task<void>` as a separate type, and `coro/SyncWait.hpp` are not captured.
- BlockingQueue.NoLostWakeup: not claimed for `take` and `clear`, which free space without notifying, nor for a bound changed after setup; other containers than the deque are not modelled.
- Timer.ExpiryIsDue: real clocks are a number that never decreases; an executor that refuses work is not modelled.
- Savepoints.ExecutionMeans: scopes resolved out of nesting order and move-assigned savepoints are not modelled; `Savepoint(tx, name)` is private in the source, and stands for SAVEPOINT and ROLLBACK TO SAVEPOINT sent by the client too.
- Retry.Client.WithRetry: commits with an unknown outcome, callbacks that commit or roll back themselves, and a wait in acquire that never ends are not modelled.
- Retry.Client.AcquireAndBegin: moves of `ConnectionTransaction` and several transactions on one raw connection are not modelled.
- ConnectionPool.WakeupIsLostExactly: a machine of its own over the same sections, beside the one of the leases.
- Chunks.BlobRoundTrip: file access is left out; blobs are below 2^63 bytes, as any `std::vector<std::byte>` is.
- Session.OpenSessionIsExact: limits below 2^63; the stream, timers and heartbeats are left out.
- Session.WsSession.DoEnqueueMessage: the close that an overflow asks for is a separate `Close` step, which may come at any time.
- BlockAllocator.Allocator.Allocate: asks for a spare slot in the table of allocated blocks when a block fits, which the source asserts; the product of count and element size is not wrapped.
- BlockAllocator.Allocator.Deallocate: asks for an empty slot in the free table, which the source asserts.
- BlockAllocator.Allocator.SortTable: `std::sort` is an insertion sort; the result is the same unless blocks of no bytes share an address.
- Boost.Beast, libpqxx, JSON parsing, zlib, logging, configuration, the servers and clients around them, `protocol/`, `collectors/`, `middleware/`, `LinearAllocator`, `StaticThreadPool` and `UnboundedMPMCQueue`: wrappers or easy members.
