# arkio, modelled and proved in Dafny

arkio is a proactor library over io_uring. This project models its hard core and proves what it is for:

* the **vectored transfer engine** (`ark::sync::read`/`write`): from a segmented buffer sequence, a byte
  count and a completion condition to a series of short scatter/gather syscalls, for every segmentation
  and every sequence of short counts and errors the kernel may answer with;
* the **asynchronous form** of the same engine (`ark::async::read`/`write`), a continuation-passing state
  machine that is moved into the callback of its own syscall;
* the **event loop** (`base_singlethread_uring_async_context`), a protocol between any number of threads, the
  thread inside `run` and the kernel, over two mutexes, three queues, a callback map, an event counter
  and an exit flag;
* **coroutine tasks** (`task`, `task_promise`, `awaitable_op`, `co_async`), a trampoline over heap frames that
  are linked by continuations;
* `buffer_copy`, as the code has it.

The main statements hold for all inputs and all runs. The most important ones:

* `AsyncTheorems.AsyncRefinesSync` and `AsyncTheorems.AllHaveCalledBack`: for every interleaving of any number of
  transfers, threads, loop steps and kernel steps, each asynchronous transfer does what the blocking loop does after
  the same replies; nothing is left to do for it if and only if it has ended; and then it has called back once,
  unless it was refused.
* `AsyncProgress.CanCallBack`: from every reachable state in which the waker works, each transfer can come to its end
  without any new call, whatever the threads, the loop and the other transfers are at.
* `CoroutineIo.AwaitingIsBlocking`: a coroutine that awaits transfers gives the value, and has the effects, of the plain
  call in which each operation is the blocking transfer.
* `AsyncRefusal.RefusedExactlyWhen`: a transfer is refused, and then never calls back, if and only if it asked for an
  SQE when the queue was full; all other transfers go on (`AsyncRefusal.RefusalHappens` is a run in which one is).
* `EventLoopTheorems`: tokens, callbacks, cancellation, order, wake-up, exit and locks, over every run; `Context.UringContext.Run`:
  the whole of `run` as code, equal to a function of what the kernel and the callbacks do.
* `CoroutineTheorems`, `CoroutineStarts` and `CoroutineTermination`: the trampoline starts what it is asked to start, computes what plain nested calls compute, is
  never stuck, comes to an end, and leaks nothing.
* `SyncIo.Read`, `SyncIo.Write` and `SyncIo.RoundTrip`: the loops over real memory compute the transfer
  function, and what was written is read back.
* `BufferCopy.StandardExactlyWhen`: exactly when `buffer_copy` does what N4771 asks of it.

`dafny verify dfyconfig.toml` checks everything.

## How the parts fit

| file | content |
|---|---|
| `Syscalls.dfy`, `Buffers.dfy`, `Iovecs.dfy`, `Conditions.dfy` | replies of the kernel, views into memory, the iovec array, the three completion conditions |
| `Transfer.dfy` | one transfer as a function of the kernel's replies, and what is true of it |
| `SyncIo.dfy` | the blocking loops, in place on memory, descriptor and device, equal to that function |
| `AsyncOp.dfy` | the asynchronous operation as an object that is moved from and submits to the context; equal to one step of that function |
| `EventLoop.dfy`, `EventLoopInvariant.dfy`, `EventLoopTheorems.dfy` | the event loop as a labelled transition system, its invariant, its guarantees |
| `Ring.dfy`, `Context.dfy` | completion references and the context as classes; the methods are runs of the transition system |
| `AsyncSystem.dfy`, `AsyncInvariant.dfy`, `AsyncRefinement.dfy`, `AsyncTheorems.dfy` | transfers on top of the event loop, and the refinement |
| `AsyncRefusal.dfy` | when the ring has no room for a transfer, and what follows |
| `AsyncOffsets.dfy` | seeks, and where transfers start |
| `EventLoopProgress.dfy`, `AsyncProgress.dfy` | a measure of what is left to do, and that every transfer can come to its end |
| `Coroutine.dfy`, `CoroutineInvariant.dfy`, `CoroutineTheorems.dfy`, `CoroutineStarts.dfy`, `CoroutineTermination.dfy` | direct style, the trampoline, and their equality |
| `CoroutineIo.dfy` | coroutines that await transfers: the two systems together |
| `Task.dfy` | the value slot, the promise and the task as classes; what they do at a step of the trampoline |
| `BufferCopy.dfy` | `buffer_copy` |

A buffer sequence is flattened into the sequence of the addresses it covers, and statements about bytes are made
on that flattened form. The kernel is an arbitrary answer: an error, or a count up to what was asked for (and, for a
read, up to what there is). A state machine is a datatype of labels, a predicate that says when a label is
possible and a function that applies it; a run is a sequence of labels. Fields marked as history record
what happened and influence no step.

## Where the code and its documentation differ

* `buffer_copy` is documented as [buffer.copy] of N4771. The code never cuts a chunk to `max_size`, lets the
  remaining limit wrap around, returns what was left of the limit and can reach the end without a return. The model
  keeps all of that; `BufferCopy.StandardNotMet` has two inputs on which it deviates, and
  `BufferCopy.StandardExactlyWhen` has the exact condition.
* When the ring has no room for an SQE, `async_io_impl::run` completes an operation it has just moved from, so the
  callback of the user is never called. `AsyncRefusal.RefusedExactlyWhen` has the exact condition, over all runs, and
  `AsyncRefusal.RefusalHappens` a run that meets it, for any request that needs a syscall. What the invocation of an
  empty function does then is decided by a library outside of the repository. In the model it does nothing and the
  program goes on; if it ends the program instead, the runs of the program are cut there, and every statement about
  all runs still holds of them.
* With a limit of zero, `transform_to_iovecs` emits one empty iovec (`Iovecs.IovecsShape`). The transfer loops
  never pass zero.
* A write answered with zero goes around without progress. `Transfer.SyscallBound` counts such answers.

## Model

| member | source | states |
|---|---|---|
| Buffers.BufferSize | include/ark/buffer/sequence.hpp:84-93 | the loop returns the length of the flattened sequence |
| Buffers.RangeOfParts | include/ark/buffer/buffer.hpp:48-51 | advancing and limiting a view drop exactly the head and the tail of its addresses |
| Buffers.FlatSize | include/ark/buffer/sequence.hpp:84-93 | the sum of the sizes is the number of addresses covered |
| Buffers.ScatterWindow | include/ark/io/sync.hpp:34-38 | a scatter into a window of disjoint buffers replaces exactly that window of the flattened bytes |
| Iovecs.TransformToIovecs | include/ark/io/iovecs.hpp:18-43 | the loop with its two countdowns and early exit produces the specified iovecs for every sequence, skip and limit |
| Iovecs.IovecsCoverWindow | include/ark/io/iovecs.hpp:18-43 | the flattened iovecs are the flattened input from skip up to min(skip + limit, total), and nothing once skip reaches the total |
| Iovecs.IovecsShape | include/ark/io/iovecs.hpp:24-40 | at most one iovec per buffer; none empty for a positive limit; for limit zero one empty iovec exactly when a byte is left |
| Conditions.AskMeaning | include/ark/io/completion_condition.hpp:13-35 | each condition asks for more exactly while its goal is not reached, and then for the whole way to its ceiling |
| Transfer.ReactMoves | include/ark/io/sync.hpp:40-49 | a reply moves bytes, count and offset by exactly its size, or nothing if it ends the transfer |
| Transfer.ReactReturns | include/ark/io/sync.hpp:31-52 | a reply returns the error, returns the count on end of file, or goes on exactly while the goal is not reached; syscalls made are never revised |
| Transfer.Accounting | include/ark/io/sync.hpp:40-49 | after any replies the bytes done are those acknowledged, the offset moved by as many, and there is one syscall per reply and one more while waiting |
| Transfer.CallsGrow | include/ark/io/sync.hpp:31-38 | the syscalls after some replies are a prefix of those after more |
| Transfer.SyscallsCoverTheRest | include/ark/io/sync.hpp:31-38 | the i-th syscall asks at the next position for the flattened buffers from the bytes done to the ceiling: at least one byte, no empty iovec |
| Transfer.SyscallsInNumbers | include/ark/io/completion_condition.hpp:13-35 | with transfer_all and transfer_at_least(n) each syscall asks for everything from the bytes done to the end of the buffers, with transfer_exactly(n) up to n bytes, and only while fewer than n bytes are done |
| Transfer.ResultInNumbers | include/ark/io/completion_condition.hpp:13-35 | a success is never more than the buffers hold, nor more than n for transfer_exactly(n); it is less than all, or than n bytes and all, exactly for a read that met a zero count |
| Transfer.SyscallBound | include/ark/io/async.hpp:61-106 | at most size + 1 syscalls, plus the zero counts a write was answered with |
| Transfer.ByteByByte | include/ark/io/sync.hpp:27-97 | a kernel that moves one byte at a time is followed to the end, with as many syscalls as bytes, so the bound is tight but for one |
| Transfer.ReadPrefix | include/ark/io/sync.hpp:27-53 | after any prefix of a read, also one ending in an error, the first done bytes of the buffers are the bytes of the device from the start on, all others are untouched |
| Transfer.WritePrefix | include/ark/io/sync.hpp:73-97 | after any prefix of a write the device is the old one with the first done bytes of the buffers spliced in at the start |
| Transfer.SpliceTwice | include/ark/io/sync.hpp:81-93 | two adjacent partial writes are one write of the concatenation |
| Transfer.SpliceBytes | include/ark/io/sync.hpp:81-93 | what a splice means: the range holds the data, all other bytes of the file are unchanged, it grows only as far as the range reaches |
| Transfer.ReturnedSize | include/ark/io/completion_condition.hpp:13-35 | a success returns the acknowledged bytes, between goal and ceiling of the condition; less than the goal exactly for a read whose last reply is zero; errors are passed on |
| Transfer.ReadReturnsWhatThereIs | include/ark/io/sync.hpp:42-52 | with an honest end of file a read returns at least the smaller of its goal and what the device holds, at most what it holds |
| Transfer.RoundTrip | tests/test_general.cpp:28-42 | writing everything, going back and reading everything into any other segmentation of the same size restores the bytes |
| SyncIo.ReadTurn | include/ark/io/sync.hpp:31-50 | one round of the read loop, over memory, device and descriptor, is one step of the transfer function |
| SyncIo.Read | include/ark/io/sync.hpp:27-53 | for every conforming sequence of replies: return value, syscalls, buffer bytes, device and offset are those of the transfer function, and memory outside the buffers is unchanged |
| SyncIo.WriteTurn | include/ark/io/sync.hpp:77-94 | one round of the write loop is one step of the transfer function |
| SyncIo.RoundTrip | tests/test_general.cpp:28-42 | the program that writes everything, seeks back and reads everything into other buffers of the same size: when both calls succeed, the bytes and the sizes are the same and the offset is behind them |
| SyncIo.Write | include/ark/io/sync.hpp:73-97 | for every conforming sequence of replies: return value, syscalls, device and offset are those of the transfer function |
| AsyncOp.Begin | include/ark/io/async.hpp:116-127 | the operation that is made and run is the one the composed system begins, from the stored offset |
| AsyncOp.Op.Yield | include/ark/async/async_op.hpp:28-34 | the operation is moved into its continuation and is empty afterwards |
| AsyncOp.Op.Complete | include/ark/async/async_op.hpp:44-47 | the callback is called once with the result; an operation that was moved from has none to call |
| AsyncOp.Op.Run | include/ark/io/async.hpp:61-89 | calls back with what the transfer function returns, or submits its next syscall to the context with the operation in the continuation; if and only if the queue is full then the continuation is lost and nobody is called |
| AsyncOp.Op.GoOn | include/ark/io/async.hpp:91-106 | the continuation does with a reply what the transfer function and the composed system do: result, count, offset, next syscall, token and iovec array |
| AsyncRefinement.DigestIsReact | include/ark/io/async.hpp:91-106 | moving the bytes when the kernel answers and digesting the reply later is one step of the blocking loop |
| AsyncRefinement.KernelMayTheSame | include/ark/io/async.hpp:70-77 | the kernel may answer an SQE with exactly what it may answer the blocking call with, about the same bytes |
| AsyncRefinement.CompletedElsewhere | include/ark/io/async.hpp:44-56 | a completion does not disturb a transfer on another descriptor with disjoint buffers |
| AsyncRefinement.RefusedStands | include/ark/io/async.hpp:81-82 | a refused transfer stops where the blocking loop makes its next syscall |
| AsyncTheorems.RunKeeps | include/ark/io/async.hpp:61-106 | every step of every interleaving keeps the invariant of loop and transfers |
| AsyncTheorems.AsyncRefinesSync | include/ark/io/async.hpp:61-106 | for every interleaving each transfer has the bytes, device, offset, count, syscalls and result of the blocking loop after the same replies; a refused one has those of the blocking loop before its last syscall |
| AsyncTheorems.CallsBackOnce | include/ark/async/async_op.hpp:44-47 | a transfer has called back exactly once if it has finished, with the result of the blocking loop, and not at all before or if it was refused, whatever happens to other transfers |
| AsyncTheorems.AllHaveCalledBack | include/ark/io/async.hpp:61-106 | no thread adds an SQE of a transfer, none is queued, in flight or unharvested and no callback of it is pending, if and only if it has ended; and then it has called back once, unless it was refused; the waker and other users do not matter |
| AsyncTheorems.FewSyscalls | include/ark/io/async.hpp:61-106 | a transfer makes at most size + 1 syscalls, plus the zero counts a write was answered with |
| AsyncTheorems.IovecsStayInFlight | include/ark/io/async.hpp:66-73 | while the syscall is queued or in flight no step changes the iovec array, which is the one that was submitted |
| AsyncTheorems.NeverLost | include/ark/async/async_op.hpp:28-34 | the one SQE of a transfer in progress is about to be added, queued, in flight or posted with its callback kept, or on the list to be invoked |
| AsyncTheorems.NothingShutOut | include/ark/async/io_uring/context.hpp:132-202 | the composed system shuts out no step of a thread inside a call, no step of the loop and no error completion |
| AsyncTheorems.EveryReplyIsPossible | include/ark/io/async.hpp:78-88 | whatever the kernel may answer the blocking loop with, it may answer the SQE in flight with, so no behaviour of the blocking loop is shut out |
| AsyncRefusal.RefusedExactlyWhen | include/ark/io/async.hpp:79-88 | over every run, a transfer is refused if and only if it asked for its SQE when a full queue was waiting |
| AsyncRefusal.RefusedNeverCallsBack | include/ark/io/async.hpp:79-88 | a refused transfer never calls back, however long the run goes on |
| AsyncRefusal.EndedForGood | include/ark/async/async_op.hpp:28-47 | a transfer that has called back or was refused is never touched again |
| AsyncRefusal.RefusalHappens | include/ark/async/io_uring/io_uring.hpp:205-212 | for any request that needs a syscall there is a run in which it is refused |
| AsyncOffsets.SeekIsFollowed | include/ark/io/fd.hpp:139-151 | from every reachable state, the next transfer on a descriptor after a seek starts at that offset, and so does its first syscall, whatever happens elsewhere in between |
| AsyncOffsets.StartsHere | include/ark/io/async.hpp:61-77 | a transfer starts from the stored offset, the bytes of its buffers and the device as they are |
| AsyncOffsets.StoreIsSeen | include/ark/io/async.hpp:44-56 | what user code stored in a buffer is what a transfer begun then starts from |
| AsyncProgress.CanCallBack | include/ark/async/io_uring/context.hpp:153-202 | from every reachable state in which the waker has not failed there is a continuation without a new call, in which the kernel only has to answer, after which a given transfer has called back with the result of the blocking loop or was refused |
| AsyncProgress.NextGetsOn | include/ark/async/io_uring/context.hpp:132-202 | in each such state some step is possible that ends the transfer or takes it closer to its end: the adding thread, who blocks it, the loop, who blocks the loop, or the kernel |
| EventLoopProgress.LoopLowers | include/ark/async/io_uring/context.hpp:153-202 | every step of the loop, through exits and new runs, callbacks and the waker, takes it closer to its next submission, or to the harvest of what is in the ring |
| EventLoopProgress.BlockerCanStep | include/ark/async/io_uring/context.hpp:132-151 | who holds a mutex that another thread waits for can make its next step |
| EventLoopInvariant.StepKeeps | include/ark/async/io_uring/context.hpp:35-202 | every step of every thread, of the loop and of the kernel keeps the invariant |
| EventLoopInvariant.RunKeeps | include/ark/async/io_uring/context.hpp:35-202 | the invariant holds after every run |
| EventLoopTheorems.TokenInOnePlace | include/ark/async/io_uring/context.hpp:37-51 | each issued token, and no other, is in exactly one of submission queue, kernel, ring or harvested; keys of the callback map are issued and not harvested |
| EventLoopTheorems.InvokedAtMostOnce | include/ark/async/io_uring/context.hpp:177-200 | over a whole run each callback is invoked at most once, with the result of the completion of its own SQE |
| EventLoopTheorems.CompletionFindsCallback | include/ark/async/io_uring/context.hpp:139-151 | a completion about to be harvested finds the callback its SQE was added with, unless it was cancelled, under every interleaving |
| EventLoopTheorems.CancelledNeverRuns | include/ark/async/io_uring/context.hpp:148-151 | a callback cancelled before its completion was harvested never runs, over every longer run; one on the list is not touched |
| EventLoopTheorems.InvokedInQueueOrder | include/ark/async/io_uring/context.hpp:173-200 | callbacks run in the order of the completion queue, across all batches |
| EventLoopTheorems.NotInSamePass | include/ark/async/io_uring/context.hpp:173-200 | what is added while callbacks run is not dispatched before the next harvest |
| EventLoopTheorems.WaitCanBeSatisfied | include/ark/async/io_uring/context.hpp:53-74 | at every wait without an earlier failure of the waker exactly one poll is outstanding and the event counter is positive, so the wait can be satisfied |
| EventLoopTheorems.WakerReadNeverBlocks | include/ark/async/io_uring/context.hpp:61-66 | the blocking read in the callback of the waker finds a positive counter |
| EventLoopTheorems.ExitAtTop | include/ark/async/io_uring/context.hpp:154-164 | at the top of the loop run returns exactly if an exit was requested since it last did, with the most recent error, and starts fresh |
| EventLoopTheorems.ReturnsExactlyWhen | include/ark/async/io_uring/context.hpp:153-168 | over every run, run returns exactly at a check that finds a request, with the last error of the requests or success, or at a failing wait, with its error, which leaves the requests |
| EventLoopTheorems.ChecksFirst | include/ark/async/io_uring/context.hpp:153-164 | a run that is entered submits, waits for and dispatches nothing before its first check |
| EventLoopTheorems.RequestsStay | include/ark/async/io_uring/context.hpp:104-119 | no step before the next check at the loop top loses a request |
| EventLoopTheorems.HolderCanStep | include/ark/async/io_uring/context.hpp:141-142 | whenever a mutex is held, a thread that holds one can make its next step |
| Ring.CqeRef.Seen | include/ark/async/io_uring/io_uring.hpp:113-120 | an entry is released exactly if the reference owns one |
| Ring.CqeRef.Move | include/ark/async/io_uring/io_uring.hpp:132-136 | the source of a move owns nothing afterwards, and nothing is released |
| Ring.CqeRef.MoveAssign | include/ark/async/io_uring/io_uring.hpp:146-154 | the entry owned before is released, the other one changes its owner, also for a self-move |
| Ring.CqeRef.Destroy | include/ark/async/io_uring/io_uring.hpp:170 | the destructor releases what is still owned |
| Ring.MoveConserves | include/ark/async/io_uring/io_uring.hpp:146-154 | for each entry, the times it was released plus the references that own it stay the same |
| Ring.MoveWithin | include/ark/async/io_uring/io_uring.hpp:146-154 | a move assignment conserves that number, for every entry and any list of references |
| Ring.PeekBatch | include/ark/async/io_uring/io_uring.hpp:229-239 | the buffer owns the entries from the head on, as many as there are up to the batch, and nothing is released |
| Ring.Release | include/ark/async/io_uring/context.hpp:195 | overwriting the reference releases its entry, which is the one at the head |
| Context.ReachableIsRun | include/ark/async/io_uring/context.hpp:13-202 | what the class goes through is a run of the transition system |
| Context.GatheredMeaning | include/ark/async/io_uring/context.hpp:178-196 | a harvest removes exactly the tokens of its completions from the map, and lists only stored callbacks with the result of their own completion |
| Context.UringContext.constructor | include/ark/async/io_uring/context.hpp:88-102 | after init the first poll of the waker is queued, its callback stored and the event counter positive |
| Context.UringContext.GetSqe | include/ark/async/io_uring/context.hpp:38-41 | a full queue gives no token and changes nothing; otherwise the next token is queued |
| Context.UringContext.BaseAddSqe | include/ark/async/io_uring/context.hpp:37-51 | with a token the SQE is queued and the loop is woken before the callback is stored |
| Context.UringContext.AddSqe | include/ark/async/io_uring/context.hpp:132-146 | the new fields and the result are those of Added and Issued, both locks are free, and the steps are those of the transition system |
| Context.UringContext.Cancel | include/ark/async/io_uring/context.hpp:148-151 | the callback of the token is removed, under the lock |
| Context.UringContext.Exit | include/ark/async/io_uring/context.hpp:104-119 | the flag is set, an error given replaces the stored one, the loop is woken |
| Context.UringContext.CheckExit | include/ark/async/io_uring/context.hpp:155-164 | returns the stored error or success exactly if the flag is set, and forgets both |
| Context.UringContext.Submit | include/ark/async/io_uring/context.hpp:76-82 | the whole queue is handed over under the lock |
| Context.UringContext.HarvestOne | include/ark/async/io_uring/context.hpp:179-195 | token and result are read before the entry is released; the callback moves from the map to the list |
| Context.UringContext.HarvestBatch | include/ark/async/io_uring/context.hpp:176-197 | the loop gathers the whole batch in ring order and releases each entry once and in order, so the head advances by the number peeked |
| Context.UringContext.Harvest | include/ark/async/io_uring/context.hpp:173-197 | wait, peek, lock, loop and unlock, over all completions that are there up to a batch |
| Context.UringContext.RunWaker | include/ark/async/io_uring/context.hpp:56-70 | the callback of the waker empties the counter and adds the next poll, or requests an exit with the error that occurred; all other fields are as before |
| Context.UringContext.RunUser | include/ark/async/io_uring/context.hpp:198-200 | a callback that re-enters add_sqe, cancel, exit or wake, and may cancel what it has just added, leaves the list to dispatch and the locks alone, and the fields are those of its calls in order |
| Context.ExitsCount | include/ark/async/io_uring/context.hpp:104-119 | after a callback the flag is set if and only if it was or the callback asked for an exit, and the error is the last one it gave, if any |
| Context.UringContext.RunCall | include/ark/async/io_uring/context.hpp:104-151 | a call from a callback: an add queues and stores, a cancel erases, an exit sets the flag, replaces the error by one given and wakes, a wake only wakes, and each leaves the rest |
| Context.IssuedForGood | include/ark/async/io_uring/context.hpp:37-51 | over a whole run an issued token keeps its SQE and its callback |
| Context.UringContext.DestroyBuffer | include/ark/async/io_uring/context.hpp:173-201 | the destructors of the batch buffer release nothing a second time |
| Context.UringContext.Dispatch | include/ark/async/io_uring/context.hpp:198-200 | exactly the list is invoked, in order, outside of the locks, and the fields are those of all calls of the callbacks, the one of the waker included, in order |
| Context.UringContext.Pass | include/ark/async/io_uring/context.hpp:166-201 | one pass invokes exactly the callbacks of the completions that were in the ring, at most a batch, in ring order with their results; over all passes, destructors included, the entries released are those before the head, each once and in ring order |
| Context.UringContext.FailWait | include/ark/async/io_uring/context.hpp:166-168 | a failing wait ends run with its error and leaves the requests for an exit |
| Context.UringContext.Run | include/ark/async/io_uring/context.hpp:153-202 | the loop: its result, all fields and the ring are those of the rounds in order; a request pending at the start returns at once with the stored error, nothing submitted or dispatched |
| BufferCopy.MemCpy | include/ark/buffer/sequence.hpp:118 | copying between ranges that do not overlap |
| BufferCopy.Copy | include/ark/buffer/sequence.hpp:105-141 | the loop copies and returns what the recursion on segments says, also when it reaches the end without a return; segments left are a decreasing measure |
| BufferCopy.CopyArrives | include/ark/buffer/sequence.hpp:117-119 | the first done bytes of the destination are those of the source, everything else is unchanged |
| BufferCopy.CopiedBytes | include/ark/buffer/sequence.hpp:116-141 | the loop returns exactly if a buffer of either sequence ends at the limit, having copied that many bytes; otherwise it copies the smaller total, however small the limit |
| BufferCopy.AmpleLimit | include/ark/buffer/sequence.hpp:113-119 | for a limit of at least the smaller total, exactly the smaller total is copied |
| BufferCopy.ReturnedValue | include/ark/buffer/sequence.hpp:121-125 | the value returned is the size of the last chunk |
| BufferCopy.StandardExactlyWhen | include/ark/buffer/sequence.hpp:95-107 | the code does what N4771 asks if and only if the limit is within both sequences, a buffer ends there, and none ends before |
| BufferCopy.StandardNotMet | include/ark/buffer/sequence.hpp:121-125 | two inputs on which it does not |
| CoroutineInvariant.StepKeeps | include/ark/coroutine/task.hpp:29-168 | every step of every chain keeps the shape of the chains, their meaning, the owner of every frame and the history of every frame |
| CoroutineInvariant.RunKeeps | include/ark/coroutine/task.hpp:29-168 | these hold after every run |
| CoroutineTheorems.FinishedLikeDirect | include/ark/coroutine/task.hpp:39-55 | a finished chain gave its future the value of the direct call, with the effects of the direct call in order |
| CoroutineTheorems.SuspendedLikeDirect | include/ark/coroutine/awaitable_op.hpp:17-26 | a chain waits for an answer exactly where the direct call does |
| CoroutineTheorems.EffectsInOrder | include/ark/coroutine/task.hpp:150-165 | at every point the effects so far are the first effects of the direct call, whatever answers come |
| CoroutineTheorems.NeverStuck | include/ark/coroutine/task.hpp:150-165 | a chain not at its end can always go on: no null handle is resumed, no missing value read, no destroyed frame touched |
| CoroutineTheorems.FinalSuspend | include/ark/coroutine/task.hpp:39-48 | a frame at final suspend has a stored value and a continuation it has not resumed before, the frame that owns its task or the coroutine of co_async |
| CoroutineTheorems.LifeOfAFrame | include/ark/coroutine/task.hpp:33-72 | a frame is destroyed at most once, a value is constructed at most once and destructed exactly when the frame dies, the continuation is resumed at most once and only after the value is stored |
| CoroutineTheorems.NothingLeaks | include/ark/coroutine/task.hpp:144-148 | when all chains are at their end every frame was destroyed and every value destructed |
| CoroutineTheorems.FutureIsSetOnce | include/ark/coroutine/co_async.hpp:23-35 | the future of a chain is set exactly when the chain ends, and never changes afterwards |
| CoroutineStarts.AllStarted | include/ark/coroutine/co_async.hpp:23-35 | over every run, the chains are, one for one, the calls of co_async from outside and the Spawned events of all logs, each with the task it was given; the frames ever created are those of the chains and, one for one, of the Created events |
| CoroutineStarts.SpawnedIsStarted | include/ark/coroutine/co_async.hpp:23-35 | every task a coroutine starts has a chain with that code and argument |
| CoroutineIo.AnswersTellApart | include/ark/coroutine/awaitable_op.hpp:20-26 | for the errors the kernel gives, different results give different answers |
| CoroutineIo.RunKeeps | include/ark/coroutine/awaitable_op.hpp:17-26 | over every run of chains and transfers together, a chain has started one transfer for each operation it asked for, with the request it asked for, and has the results of all but the one it is suspended at |
| CoroutineIo.AwaitingIsBlocking | include/ark/coroutine/awaitable_op.hpp:17-28 | a finished chain gave its future the value of the direct call, with its effects in order, where the i-th answer is the size, or minus the error, that the blocking transfer returns which the i-th operation asks for |
| CoroutineIo.ResumedExactlyWhen | include/ark/coroutine/awaitable_op.hpp:17-22 | a suspended chain can be resumed if and only if its transfer has called back; after a refusal it never can |
| CoroutineIo.ResumesOnce | include/ark/coroutine/awaitable_op.hpp:17-22 | a callback resumes one chain, once |
| CoroutineTermination.StepCosts | include/ark/coroutine/task.hpp:150-165 | each step of a chain takes at least one from its steps left and none from those of other chains |
| CoroutineTermination.ChainsComeToAnEnd | include/ark/coroutine/task.hpp:150-165 | every chain makes at most a number of steps known from its program, and is finished when it has made that many |
| Task.TaskPromise.Clear | include/ark/coroutine/task.hpp:64-72 | the slot is empty afterwards, and every value ever constructed is destructed |
| Task.TaskPromise.ReturnValue | include/ark/coroutine/task.hpp:50-55 | whatever the slot held, it holds this value, and no earlier value is lost |
| Task.TaskPromise.DestroyFrame | include/ark/coroutine/task.hpp:33 | when the frame dies, constructions and destructions of its value are even |
| Task.OwningTask.Move | include/ark/coroutine/task.hpp:142 | the frame changes its owner |
| Task.OwningTask.Destroy | include/ark/coroutine/task.hpp:144-148 | the destructor ends the life of the frame and of its value, if the task has one |
| Task.CoReturn | include/ark/coroutine/task.hpp:50-55 | the promise holds what the trampoline's frame holds after a return |
| Task.FinalSuspend | include/ark/coroutine/task.hpp:39-48 | the handle that is resumed is where the trampoline goes on |
| Task.AwaitTask | include/ark/coroutine/task.hpp:155-158 | the promise has the continuation the trampoline's frame has, and that frame runs |
| Task.ResumeAwait | include/ark/coroutine/task.hpp:144-159 | the value taken is the one the trampoline gives the awaiting frame, and frame and value die as they do there |
| Task.MoveOut | include/ark/coroutine/task.hpp:142-148 | over any list of tasks a move loses and shares no frame |
| Task.DestroyAll | include/ark/coroutine/task.hpp:144-148 | the destructors of any list of tasks destroy each owned frame exactly once, with its value |

## Left out

- Foreign code: liburing, eventfd, readv, writev and the allocator appear only as arbitrary answers and as the assumed effect of a transfer of n bytes.
- Widths: sizes, offsets, tokens and the event counter are unbounded naturals, except for the limit of `buffer_copy`; so token wrap-around, counter overflow, and an offset of -1 or below zero are not modelled.
- Context.UringContext.Wake: does not model a failing `wake`, because the write of the event counter belongs to the kernel.
- Context.UringContext.AddSqe: does not model a failing `wake`, with which the form with a callback would take `m_callbacks_` twice; in the class no other thread steps inside, in the transition system they do.
- Context.UringContext.BaseAddSqe: does not model the cancellation after a failing `wake`, for the same reason.
- Context.UringContext.Submit: does not model a partial submit, because the code ignores the returned count; the whole queue is assumed to be handed over.
- Context.UringContext.Run: `wait` blocks for good when the rounds it is given have no completion; and other threads step in between the methods of the class, not inside them; inside them they do in the transition system.
- AsyncOp.Op.Complete: does not model what the invocation of an empty function does, because that function type is not part of the repository.
- Exit flag: `exiting_` and `exiting_error_` are not guarded by a mutex in the source; each call of `exit` and each check of them is one step here.
- AsyncTheorems.AsyncRefinesSync: each descriptor has one transfer at a time, and buffer sequences live as long as the transfer, because the source promises nothing otherwise.
- Other code: the SQEs of other users of the event loop touch neither the buffers nor the devices of transfers while these are in progress, and other code stores no byte in the buffers of a transfer in progress.
- CoroutineIo.ResumedExactlyWhen: the chain is resumed by a step of its own after the callback has run, which the source does inside the callback; other steps may come between in the model.
- AsyncProgress.CanCallBack: states in which the waker has failed are not covered, since the loop may then wait for good, with the SQE still queued.
- Devices: each descriptor has a device of its own, so two descriptors on one file, or a pipe written while it is read, are outside of the composed model.
- Overflow of the completion queue: the ring holds everything the kernel posted.
- Cancellation: only of tokens that `add_sqe` has returned, and never of those of transfers.
- Conditions.AskMeaning: the three conditions that the library ships; those a user defines are not modelled.
- Coroutine bodies: finite programs over one register without loops, whose awaits are evaluated one after the other; values have no destructors with effects of their own, and unhandled exceptions (which terminate the program) are absent.
- Transfer.RoundTrip: a device that answers a read with zero before its end is excluded, since the code cannot tell it from the end of the file.
- BufferCopy.Copy: buffer sequences are not empty and their total fits into 64 bits, as the code dereferences both beginnings and real memory is smaller.
- Network: addresses, connect, accept, bind and listen, which are single system calls.
- Descriptors: constructors, `close` and destructors, which have little logic.
- Buffers: the overloads of `buffer` for arrays, vectors and strings, and `operator+`, which is `operator+=` on a copy.
