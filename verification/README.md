# SPSock: a verified model

SPSock is a Linux TCP server library: a main thread accepts connections, IO threads run one-shot epoll
loops, and a work-stealing thread pool runs the user's read and write callbacks.  Each connection has two
ring buffers whose memory comes from a reference-counted pool.  This project models those parts in Dafny
and proves what they keep, over every input, every run and every interleaving.

| files | what they model | form |
|---|---|---|
| `Words`, `Ring`, `Bags`, `Runs` | 32-bit arithmetic; rings, bags and runs of a state machine as values | functions and lemmas |
| `RingBuffer`, `Controller` | `SPBuffer`, `SOCKController` against a nondeterministic socket | classes over byte arrays |
| `BufferLayout`, `BufferPool` | the address arithmetic of one allocation; `SPTcpBufferPool` over explicit memory | class, with step lemmas on values |
| `BlockQueue`, `ThreadPool` | `TPBlockQueue`; `ThreadPool`'s submissions, stealing and draining by one thread at a time | classes over arrays |
| `PoolMachine`, `PoolTheorems`, `PoolTermination` | the thread pool with all its threads interleaved | state machine |
| `PoolRefinement`, `PoolTurns` | that the state machine's steps, taken by one thread alone, do what `ThreadPool`'s methods promise, and make up the turns of the source's loops | lemmas |
| `BatchRing` | `UtilTaskTcp_Single` and `UtilTaskTcp_Multipe` against a pool that may refuse | classes |
| `Lifecycle`, `LifecycleSteps`, `LifecycleGaps`, `LifecycleLimits` | the life of connections in `SPSockTcp` | state machine |
| `LoadBalance` | the choice of an IO loop for a new connection | loop |

The main results:

- **Echo.**  For any run of receives, moves, flushes and write-backs against any socket, what was received
  is what was sent, then the write buffer, then the read buffer (`Controller.SOCKController.Run`).
- **Buffer pool.**  Both free lists stay intact, every block counts exactly its live nodes, nothing is used
  after it is freed, and by the end every allocation has been freed exactly once, although one block's nodes
  are spread over two lists (`BufferPool.SPTcpBufferPool.Lifetime`, `PairedRun`).
- **Thread pool.**  In every interleaving a task is queued, held or executed exactly as often as it was
  accepted, and no wakeup is lost.  A graceful exit executes everything **if and only if** the pool has one
  worker or processes batches: several workers that process single tasks can leave a task behind, and the
  model contains the interleaving (`PoolTheorems.GracefulExitCompleteIff`).  Once the queues are stopped
  one number falls with every step of every thread, and no thread is stuck, so `exit` returns under any
  scheduler (`PoolTermination.ExitReturns`).  A worker left alone waits only after its own queue has turned out
  empty and every other one not worth stealing from (`PoolTurns.WaitsOnlyAfterSearch`).
- **Connections.**  Every step of the server keeps "each open connection is in exactly one place" **if and
  only if** a condition on that step holds (`Lifecycle.StepKeepsIff`).  `LifecycleGaps` has runs that reach
  the four steps where the code itself fails it: a failed `init`, an event without its callback whose enable
  fails, a task appended after a refusal in the same round, and a wrapped batch cut short in its first piece.
  The third can happen exactly when epoll may report more events than a batch holds, the fourth exactly when
  both may be at least two.  So a server whose callbacks and memory behave keeps single ownership whatever its
  pool refuses **if and only if** `EPOLL_MAX_EVENT_BSIZE` is 1 (`LifecycleLimits.OwnershipSafeIff`).
  Every round of an IO loop ends, and sweeping closes exactly what is on the close list (`LifecycleSteps`).

## Assumptions

- Steps interleave sequentially consistently.  Each mutex section, each unlocked read of `size` or
  `isStopped`, each notification and each task execution is one step.  A timeout is a nondeterministic return.
- `recv`, `send`, `malloc`, `epoll_ctl`, `accept` and the pool seen from an IO loop are nondeterministic
  within their contracts; ghost streams and logs record what they did.  EINTR is retried in the code and so
  does not appear; EAGAIN is the result 0.
- `enableEvents` arms a connection before it stores `events` (SPController.cpp:226-236); the two are one step.
- HandleCloseList reads `controller->info` after it has erased the controller (SPSock.cpp:551-552,
  SPSock.cpp:560-561); the model takes the loop first.
- A callback owns its connection until it has enabled or closed it, and may go on running after that without
  owning it (`returning` in `Lifecycle`).  Another worker may then already be in a callback for the same
  connection (`LifecycleGaps.TwoCallbacks`), so single ownership speaks of callbacks that own it.
- No producer touches the pool after `exit` has returned.  The server itself does not keep to that:
  SPSock.cpp:696-697 exits the pool while the IO loops still run and submit, and from then on
  `next_index` (base/ThreadPool.hpp:295) divides by a `threadNum` of zero.
- Buffer sizes are below 2^31, as the configuration fields are `int`s, and malloc refuses 2^63 bytes or more.
- Each submission of a commit is one step.  A batch that has not wrapped takes one, a wrapped one two, and workers may
  already run the first piece in between; alone they come to one call of `commit` (`Lifecycle.TwoPieceCommit`).

## Where the code and its documentation differ

- `commitWrite` and `writeBack` are documented to return -2 when the peer is gone (SPController.h:135-155).
  They never do: `writeInner` only distinguishes would-block from failure.  `writeBack` is documented to
  return the bytes written.  It never does that when the write buffer held any: when that is not drained it returns
  what is left in it, and when it is, only what was sent from the read buffer.
- `Config` accepts buffer sizes for which the size of an allocation is not an `int` (SPSock.cpp:457-460): 1024 pairs of
  2 MiB buffers need 2^32 + 32772 bytes, and `tryAlloc` asks malloc for 32772 (`BufferLayout.BlockTooSmall`).
- `read` and `writeTemp` take a `size_t` and pass it on as `unsigned int`, so a length of 2^32 or more is cut.
- `SPTcpBufferPool::reset` warns of memory corruption with buffers outstanding (SPBufferPool.hpp:233-234).
  The reference counts prevent that: such a block stays until its last buffer comes back.
- `UtilTaskTcp`'s flag is documented as an availability flag (SPTask.hpp:48, SPTask.hpp:76).  With it cleared
  a task is re-enabled and nevertheless submitted, so the connection has two owners.

## Model

| member | source | states |
|---|---|---|
| Words.StepIsMod | SPBuffer.cpp:43-55 | advancing a ring position by a remainder is at most one subtraction |
| Words.Advance32 | SPBuffer.cpp:43-55 | the 32-bit sum of a position and a length never wraps on a ring below 2^31 |
| Words.Truncate32 | SPController.cpp:87-90 | a length below 2^32 survives the narrowing call, any other is cut below 2^32 |
| Ring.HeldDrop | SPBuffer.cpp:43-47 | moving the read position by k drops exactly the k oldest elements |
| Ring.HeldAppend | SPBuffer.cpp:49-55 | a linear store at the write position, counted in, appends exactly what was stored |
| Ring.HeldInTwo | SPBuffer.cpp:72-77 | two copies, up to the end and from the start, take out a prefix that wraps |
| Ring.HeldAppendInTwo | SPBuffer.cpp:112-117 | two stores, up to the end and from the start, append a run that wraps |
| RingBuffer.SPBuffer.DistanceWrite | SPBuffer.cpp:29-34 | the linear free space ends at the capacity or at the end of the ring, and is zero only when full |
| RingBuffer.SPBuffer.DistanceRead | SPBuffer.cpp:36-41 | the linear data ends with the data or at the end of the ring, and is zero only when empty |
| RingBuffer.SPBuffer.LinearHead | SPBuffer.cpp:62-65 | what the read pointer shows is a prefix of the buffered bytes |
| RingBuffer.SPBuffer.FrontFromBack | SPBuffer.cpp:43-55 | the write position is (back + size) % bsize in every state |
| RingBuffer.SPBuffer.CommitRead | SPBuffer.cpp:43-47 | drops exactly the len oldest bytes, keeping the ring law |
| RingBuffer.SPBuffer.CommitWrite | SPBuffer.cpp:49-55 | appends exactly the bytes stored at the write pointer, and resets both positions only when empty |
| RingBuffer.SPBuffer.Read | SPBuffer.cpp:67-90 | copies out and consumes exactly the min(len, size) oldest bytes, wrapped or not |
| RingBuffer.SPBuffer.Peek | SPBuffer.cpp:92-105 | copies out what Read would and leaves the buffer as it is |
| RingBuffer.SPBuffer.Write | SPBuffer.cpp:107-122 | appends exactly the prefix that fits, wrapped or not |
| Controller.Socket.Recv | SPController.cpp:24-38 | recv fails, would block, or delivers between one and len bytes of the input stream |
| Controller.Socket.Send | SPController.cpp:40-54 | send fails, would block, or accepts a prefix of what it is given |
| Controller.ReceivedKeeps | SPController.cpp:56-75 | receiving keeps the stream laws |
| Controller.MovedKeeps | SPController.cpp:202-222 | moving a prefix between the buffers keeps the stream laws |
| Controller.SentOutKeeps | SPController.cpp:174-200 | sending from the write buffer and then, once that is empty, from the read buffer keeps them |
| Controller.MoveWraps | SPController.cpp:202-222 | a copy that does not finish a move uses up the end of at least one of the two rings |
| Controller.SOCKController.Init | SPController.cpp:7-21 | fails only when a list is empty and malloc has refused every size down to one pair, keeping what it got until then; on level lists only the first buffer can be refused; a new controller has two empty rings of the configured sizes, for which the pool's memory shares no byte, and the default events |
| Controller.SOCKController.ReadSocket | SPController.cpp:56-75 | appends exactly the received bytes in at most two receives; stops only full, on a short receive or on failure |
| Controller.SOCKController.CommitWrite | SPController.cpp:123-142 | sends and removes one prefix in at most two sends, also when a later send fails; stops only empty, on a short send or on failure; returns exactly what is left, or -1 iff a send failed |
| Controller.SOCKController.WriteBack | SPController.cpp:174-200 | the write buffer goes out before any byte of the read buffer; stops only with both empty, when the socket takes no more, or with -1 iff a send failed |
| Controller.SOCKController.SendReadBuffer | SPController.cpp:180-199 | sends and removes a prefix of the read buffer until that is empty or the socket blocks, and returns its length, or -1 iff a send failed |
| Controller.SOCKController.MoveRound | SPController.cpp:206-220 | every round moves at least one byte in order, so the empty-chunk exit is never taken |
| Controller.SOCKController.MoveToWriteBuffer | SPController.cpp:202-222 | moves exactly min(readable, writable) bytes in order, in at most three copies |
| Controller.SOCKController.Read | SPController.cpp:87-90 | hands out exactly the oldest bytes, min of the truncated length and what there is |
| Controller.SOCKController.WriteTemp | SPController.cpp:118-121 | appends exactly the prefix that fits of the truncated length |
| Controller.SOCKController.Write | SPController.cpp:97-116 | one send of the whole length past both buffers, and its result; -2 exactly when it marks the peer closed |
| Controller.SOCKController.EnableEvents | SPController.cpp:224-237 | asks epoll once for exactly the interests wanted; on success field and kernel agree on them; on failure the field is cleared |
| Controller.SOCKController.RenableEvents | SPController.cpp:239-245 | asks epoll once for the stored interests; on success the kernel has them again; on failure the field is cleared |
| Controller.SOCKController.Call | SPController.cpp:56-222 | every call keeps the stream laws, the echo law for the calls of an echo service |
| Controller.SOCKController.Run | SPController.cpp:56-222 | over any run no byte is lost, repeated or reordered, and an echo service returns its input |
| BufferLayout.TotalSizeIsProduct | SPBufferPool.hpp:36-38 | the size the code computes is the header and all nodes |
| BufferLayout.NodesTile | SPBufferPool.hpp:45-65 | the first node follows the 4-byte header, each next one the one before, and the last ends at the total size |
| BufferLayout.NodesApart | SPBufferPool.hpp:45-65 | for every num and sizes no two of the 2 * num nodes overlap and none leaves the allocation |
| BufferLayout.AskedHoldsIff | SPBufferPool.hpp:36-41 | whatever malloc may grant for the `int` the size is computed as holds the whole block, exactly unless that wraps to a smaller positive number |
| BufferLayout.BlockTooSmall | SPBufferPool.hpp:36-41 | an accepted configuration for which it does |
| BufferLayout.SmallIsSound | SPBufferPool.hpp:74-84 | while the largest block stays below 2^31 bytes, none of the sizes asked for does |
| BufferPool.DroppedSound | SPBufferPool.hpp:129-136 | dropping a live node keeps counts and placement right, and frees the block exactly with its last live node |
| BufferPool.CarvedSound | SPBufferPool.hpp:44-65 | carving a fresh block keeps memory sound, every new node being counted |
| BufferPool.SideTake | SPBufferPool.hpp:95-98 | handing out the head keeps the list intact and duplicate-free |
| BufferPool.SidePut | SPBufferPool.hpp:139-140 | putting a handed-out node in front keeps the list intact and duplicate-free |
| BufferPool.CellsChained | SPBufferPool.hpp:46-52 | the carving loop leaves one duplicate-free chain that ends in the old head |
| BufferPool.Carve | SPBufferPool.hpp:46-52 | the loop writes exactly the chain of num nodes, without overlap, and nothing else |
| BufferPool.CarveBlock | SPBufferPool.hpp:44-65 | both chains of a block, one behind the other, and the count of 2 * num |
| BufferPool.AddBlock | SPBufferPool.hpp:44-65 | a new block leaves the pool invariant in place with num nodes more in front of each list |
| BufferPool.SPTcpBufferPool.Unref | SPBufferPool.hpp:133-135 | one count less; at zero, and only then, the block is passed to free and it and its nodes are gone |
| BufferPool.NothingLeft | SPBufferPool.hpp:174-195 | with nothing listed or handed out no block is live and every malloc has been freed once |
| BufferPool.OnlyHeldLeft | SPBufferPool.hpp:174-195 | with both lists empty every live block has a buffer handed out |
| BufferPool.BuffersApart | SPBufferPool.hpp:90-118 | free and handed-out buffers lie in live blocks, have the length of their kind and share no byte |
| BufferPool.SPTcpBufferPool.constructor | SPBufferPool.hpp:200 | the pool starts empty and valid, for every configuration in which no size it may ask for wraps |
| BufferPool.SPTcpBufferPool.BlockSize | SPBufferPool.hpp:36-41 | the number malloc is asked for, which is the size of the block or 2^63 and more |
| BufferPool.SPTcpBufferPool.TryAlloc | SPBufferPool.hpp:34-68 | adds num nodes in front of each list, or changes nothing when malloc fails |
| BufferPool.SPTcpBufferPool.Alloc | SPBufferPool.hpp:74-84 | fails only when malloc has refused the size of every number of pairs from the configured one down by halves to one, and then changes nothing |
| BufferPool.SPTcpBufferPool.GetReadBufferInner | SPBufferPool.hpp:90-101 | hands out a node nobody holds, the head of the list after a refill if that was needed; fails only with the list empty |
| BufferPool.SPTcpBufferPool.GetWriteBufferInner | SPBufferPool.hpp:107-118 | the same on the write side |
| BufferPool.SPTcpBufferPool.FreeReadBufferInner | SPBufferPool.hpp:125-143 | below the limit the node goes to the front of the list, else it is given up; the pool invariant holds again |
| BufferPool.SPTcpBufferPool.FreeWriteBufferInner | SPBufferPool.hpp:150-168 | the same on the write side |
| BufferPool.SPTcpBufferPool.ReleaseAllBlocks | SPBufferPool.hpp:174-195 | terminates with both lists empty, never touching a node of a freed block |
| BufferPool.SPTcpBufferPool.Reset | SPBufferPool.hpp:236-243 | only blocks with a buffer still handed out survive; with none handed out everything is freed exactly once |
| BufferPool.SPTcpBufferPool.OpenPair | SPController.cpp:7-13 | takes the heads of both lists where they have one; either buffer is refused only with its list empty and when malloc has refused every size down to one pair; with level lists, the second is never refused once the first was taken, and the lists stay level |
| BufferPool.SPTcpBufferPool.ClosePair | SPBuffer.cpp:124-128 | returning both buffers of a connection keeps the lists level and within the limit |
| BufferPool.SPTcpBufferPool.PairStep | SPController.cpp:7-13 | a connection coming or going leaves exactly the buffers of the open connections handed out; it is turned away only when malloc has refused every size |
| BufferPool.SPTcpBufferPool.PairedRun | SPBufferPool.hpp:74-168 | over any run of connections rbSize == wbSize <= BUFFER_POOL_MIN_BLOCK_NUM at every boundary, and if malloc refuses nothing every one of them has come and gone |
| BufferPool.SPTcpBufferPool.Call | SPBufferPool.hpp:216-243 | any get, free or reset keeps the pool invariant and the record of who holds what; a get adds one unless its list is empty and malloc refuses every size |
| BufferPool.SPTcpBufferPool.Lifetime | SPBufferPool.hpp:174-243 | after any run, once everything is returned, a reset leaves no block, and free was called exactly once for each time malloc returned |
| BlockQueue.FollowIsStep | base/TPBlockQueue.hpp:249-253 | following k links of the circle is advancing k places |
| BlockQueue.ConstructAppends | base/TPBlockQueue.hpp:299-301 | the slot behind the last element is dead, and constructing there appends |
| BlockQueue.DestroyDrops | base/TPBlockQueue.hpp:360-363 | the slot at the head is live and holds the oldest element, and destroying it drops that |
| BlockQueue.TPBlockQueue.TailFollowsHead | base/TPBlockQueue.hpp:215-217 | the tail is the head advanced size links round the cycle |
| BlockQueue.BlockFitsIff | base/TPBlockQueue.hpp:242-244 | the 32-bit block size holds all nodes exactly up to 2^32 - 64 bytes |
| BlockQueue.TPBlockQueue.Init | base/TPBlockQueue.hpp:237-260 | an empty queue of that capacity on fresh memory, exactly unless there is a block already, the capacity is zero or malloc refuses; otherwise nothing changed |
| BlockQueue.TPBlockQueue.BuildNodes | base/TPBlockQueue.hpp:249-253 | the loop links all nodes into one circle of dead slots |
| BlockQueue.TPBlockQueue.Push | base/TPBlockQueue.hpp:291-305 | appends unless full, waking one waiter exactly when it did |
| BlockQueue.TPBlockQueue.PushBulk | base/TPBlockQueue.hpp:316-344 | appends the prefix that fits, waking one waiter for one element and all for more |
| BlockQueue.TPBlockQueue.Pop | base/TPBlockQueue.hpp:352-366 | takes the oldest element, or nothing from an empty queue |
| BlockQueue.TPBlockQueue.PopBulk | base/TPBlockQueue.hpp:426-449 | takes exactly the min(count, size) oldest elements in order |
| BlockQueue.TPBlockQueue.WaitPopBulk | base/TPBlockQueue.hpp:458-482 | sleeps exactly while empty and not stopped; returns nothing only from an empty stopped queue |
| BlockQueue.TPBlockQueue.WaitPopBulkFor | base/TPBlockQueue.hpp:494-518 | gives up only when still empty and running at the deadline; what is there by then is taken |
| BlockQueue.TPBlockQueue.StopWait | base/TPBlockQueue.hpp:524-532 | stopped, contents kept, all waiters woken |
| BlockQueue.TPBlockQueue.Release | base/TPBlockQueue.hpp:538-555 | destroys each remaining element once, in order, and leaves every slot dead |
| BlockQueue.TPBlockQueue.Lifetime | base/TPBlockQueue.hpp:229-555 | over any life slots and links do what a bounded sequence would do; what comes out is a prefix of what went in, and every element is destroyed exactly once |
| ThreadPools.ThreadPool.Init | base/ThreadPool.hpp:85-116 | separate empty running queues, exactly for possible numbers and when the machine refuses neither memory nor its core count; otherwise no pool |
| PoolMachine.RoundRobinFairIff | base/ThreadPool.hpp:293-296 | as many draws as there are queues yield every queue once, exactly unless the counter wraps and their number does not divide 2^32 |
| PoolMachine.TargetMovesIff | base/ThreadPool.hpp:207-245 | the queue drawn is kept exactly when it would take the task, or half of the tasks, or there is no other, or the 32-bit sum wraps; otherwise the submission goes half way round |
| ThreadPools.ThreadPool.Append | base/ThreadPool.hpp:207-221 | the next draw of the round robin; pushes to the chosen queue alone; fails exactly when that is full |
| ThreadPools.ThreadPool.AppendBulk | base/ThreadPool.hpp:230-245 | the next draw; pushes all that fits, in order, to the chosen queue alone |
| ThreadPools.ThreadPool.Steal | base/ThreadPool.hpp:435-451 | a batch from the first victim, in search order, that is long enough, remembering it; it comes away with nothing if and only if every other queue is empty, or not full and shorter than a batch for each of the other workers |
| ThreadPools.PassedOverIff | base/ThreadPool.hpp:433-440 | in plain numbers, a victim is passed over exactly when it is empty, or is not full and holds fewer than a batch for each of the other workers |
| PoolMachine.ThresholdIs | base/ThreadPool.hpp:431-433 | the threshold is the 32-bit product of batch and other workers, or the queue length if that is less |
| PoolMachine.VictimIs | base/ThreadPool.hpp:437-440 | the victims are the other queues in their order, from the position on and round |
| PoolMachine.BeginsWithLast | base/ThreadPool.hpp:437-447 | the next search begins with the victim last taken from |
| PoolMachine.DrawnIs | base/ThreadPool.hpp:293-296 | the draws are the counter's successive values modulo the number of queues |
| ThreadPools.ThreadPool.ExecuteTasks | base/ThreadPool.hpp:409-416 | every task of a batch executed once, in order |
| ThreadPools.ThreadPool.Drain | base/ThreadPool.hpp:488-489 | after a graceful exit the worker's queue is emptied and all of it executed in order; otherwise untouched |
| PoolMachine.SearchCoversIff | base/ThreadPool.hpp:437-440 | from any position a worker's search comes by the queues of all the others, exactly up to 2^31 + 1 threads |
| PoolMachine.InitInv | base/ThreadPool.hpp:85-131 | an initialised pool satisfies the invariant, wherever its uninitialised counter starts, with every worker at the top of its loop |
| PoolMachine.TakeConserved | base/ThreadPool.hpp:427-451 | a pop moves tasks from a queue to a hand and loses none |
| PoolMachine.TakeInv | base/ThreadPool.hpp:468-469 | a pop keeps the whole invariant |
| PoolMachine.ExecuteInv | base/ThreadPool.hpp:409-416 | an execution keeps the whole invariant |
| PoolMachine.LookTimedInv | base/ThreadPool.hpp:478-483 | the timed wait keeps the invariant, whether it takes, sleeps or times out |
| PoolMachine.WorkInv | base/ThreadPool.hpp:325-492 | every step of every worker keeps the invariant |
| PoolMachine.StoredInv | base/TPBlockQueue.hpp:291-344 | a push keeps the invariant: it leaves a notification due |
| PoolMachine.ExitInv | base/ThreadPool.hpp:257-266 | every step of exit keeps the invariant |
| PoolMachine.StepInv | base/ThreadPool.hpp:139-492 | every step of every thread keeps the invariant |
| PoolTheorems.ExactlyOnce | base/ThreadPool.hpp:421-492 | in every reachable state a task is queued, held or executed exactly as often as it was accepted |
| PoolTheorems.NoLostWakeup | base/TPBlockQueue.hpp:464-466 | a sole worker asleep in the untimed wait has an empty running queue, or a notification is due |
| PoolTheorems.DrainedAtEnd | base/ThreadPool.hpp:466-489 | all workers done after a graceful exit, no push after a stop: queues empty, executed equals accepted |
| PoolTheorems.GracefulExitCompleteIff | base/ThreadPool.hpp:312-319 | a graceful exit executes everything in every interleaving if and only if batch > 1 or there is one worker |
| PoolTheorems.TaskLeftBehind | base/ThreadPool.hpp:386-394 | for any number of workers on single tasks, an interleaving that loses a task |
| PoolTheorems.LatePushIsLost | SPSock.cpp:696-697 | in every configuration a push after the stop, as the still running IO loops can make, can be accepted and never executed |
| PoolRefinement.SubmissionIsPlaced | base/ThreadPool.hpp:207-245 | a producer that draws, chooses and pushes undisturbed, in any state of the machine, does what `Append` and `AppendBulk` promise |
| PoolRefinement.TakeIsProgress | base/TPBlockQueue.hpp:426-449 | what a worker takes is what `PopFrom` promises |
| PoolRefinement.SearchIsStolen | base/ThreadPool.hpp:435-451 | a worker that looks at its victims undisturbed ends as `Steal` promises, with a batch or in its timed wait |
| PoolRefinement.ExecutesAll | base/ThreadPool.hpp:409-416 | a worker left alone executes all it holds and changes nothing else |
| PoolRefinement.DrainsAlone | base/ThreadPool.hpp:488-489 | a worker that leaves its main loop and is left alone ends as `Drain` promises, and is done |
| PoolTurns.OwnFirst | base/ThreadPool.hpp:468-469 | a worker whose queue holds something takes and executes a batch of it before anything else |
| PoolTurns.SearchesBeforeWaiting | base/ThreadPool.hpp:471-478 | with an empty queue it searches the others from where it last took something, and comes to its timed wait if and only if none of them is worth it |
| PoolTurns.WaitsOnlyAfterSearch | base/ThreadPool.hpp:466-485 | in every run of a worker alone, whenever it waits its queue is empty and it has passed over every other |
| PoolTurns.BeginsAgain | base/ThreadPool.hpp:482-485 | after a wait that brought nothing on a running queue it begins again with its own queue |
| PoolTurns.Leaves | base/ThreadPool.hpp:386-401 | on a stopped queue it leaves: with single tasks at once, otherwise through the loop that drains its queue |
| PoolTurns.TimedTurn | base/ThreadPool.hpp:478-483 | the timed wait takes and executes what is there, sleeps on an empty running queue, and ends at the deadline or the stop |
| PoolTurns.IdleTurn | base/ThreadPool.hpp:459-463 | the same for the untimed wait of a sole worker, which leaves from an empty stopped queue |
| PoolTurns.NotifyWakes | base/TPBlockQueue.hpp:291-305 | the notification behind a push wakes the queue's owner if it sleeps, to look at its queue again, and does nothing else |
| PoolTurns.ExitStopsAll | base/ThreadPool.hpp:251-260 | exit stores the policy asked for, stops every queue and wakes every sleeper before it waits for the workers |
| PoolTurns.PolicyIsAsked | base/ThreadPool.hpp:255 | in every run the policy is the one the exit asked for, graceful until then |
| PoolTurns.LateIff | base/TPBlockQueue.hpp:291-344 | only a push adds to a queue, and it counts as late exactly when that queue has been stopped |
| PoolTermination.TakeLess | base/ThreadPool.hpp:427-451 | taking tasks lowers the measure by more than executing them and starting over can cost |
| PoolTermination.SearchLess | base/ThreadPool.hpp:468-471 | looking for work lowers the measure |
| PoolTermination.WaitLess | base/ThreadPool.hpp:478-483 | waiting on a stopped queue lowers the measure |
| PoolTermination.WorkLess | base/ThreadPool.hpp:459-489 | every worker step on stopped queues lowers the measure |
| PoolTermination.QuietStep | base/ThreadPool.hpp:251-275 | so does every step of every thread but a new submission |
| PoolTermination.QuietRun | base/ThreadPool.hpp:251-275 | runs after the stop are no longer than the measure, without any fairness |
| PoolTermination.NeverStuck | base/ThreadPool.hpp:262-266 | until exit has returned some thread can take a step other than a spurious wakeup |
| PoolTermination.ComesToRest | base/ThreadPool.hpp:251-275 | from every quiet state the threads, left alone, reach a state where none can go on |
| PoolTermination.ExitReturns | base/ThreadPool.hpp:251-275 | every maximal run after the stop ends with exit returned and, where the code drains, everything executed |
| BatchRing.CommitLosesIff | SPTask.hpp:130-142 | submitted, re-enabled and lost make up the batch; something is lost iff a wrapped batch's first piece falls short, and then exactly the wrapped tail |
| BatchRing.LosesNothingIff | SPTask.hpp:112-149 | no answer of the pool loses a task iff the batch does not run past the end of the ring, which an IO loop could check before it commits |
| BatchRing.SecondPiece | SPTask.hpp:144-148 | when the first piece goes through, the commit comes out as that piece and a commit of the rest |
| BatchRing.UtilTaskTcp_Single.Append | SPTask.hpp:57-67 | each task is offered to the pool and re-enabled if that refuses, and with the flag cleared re-enabled as well |
| BatchRing.UtilTaskTcp_Multipe.Append | SPTask.hpp:94-106 | a pending task is never overwritten; a full batch is offered to the pool, any other is not; with the flag cleared its connection is re-enabled as well |
| BatchRing.UtilTaskTcp_Multipe.SubmitFirst | SPTask.hpp:117-128 | one call offers the whole first piece, singly if it is one task, and submits the prefix the pool takes |
| BatchRing.UtilTaskTcp_Multipe.Rollback | SPTask.hpp:132-137 | exactly what was refused of the first piece is re-enabled, in order |
| BatchRing.UtilTaskTcp_Multipe.Commit | SPTask.hpp:112-149 | offers the pool the first piece, and the rest exactly if there is one and the first was taken whole; always ends empty with back == front, having submitted and re-enabled as CommitLosesIff says; the flag stays set iff all was taken |
| BatchRing.UtilTaskTcp_Multipe.Reset | SPTask.hpp:203-214 | what is buffered is offered to the pool and committed, and the flag set again |
| LoadBalance.ChooseLoop | SPSock.cpp:132-138 | the scan finds the first loop with the fewest connections |
| LoadBalance.ConnectKeepsLevel | SPSock.cpp:132-156 | a connection keeps the spread of the counts at most one |
| LoadBalance.RoundRobin | SPSock.cpp:132-156 | choosing the least loaded loop is a round robin: the quotient of n by the loops for each, one more for the first remainder-many |
| Lifecycle.LevelWithoutCloses | SPSock.cpp:132-156 | in every run of the server without closes, proper or not, the counts are that round robin of the connections accepted, and level |
| Lifecycle.AcceptedAreLive | SPSock.cpp:132-156 | where every step is proper those are the live connections |
| Lifecycle.BufferOwnedIff | SPTask.hpp:94-102 | buffering gives a connection one owner iff the flag is set, and two otherwise |
| Lifecycle.DispatchOwnedIff | SPSock.cpp:390-421 | dispatching keeps single ownership iff the flag is set where a task is appended, and an event without its callback gets its enable through |
| Lifecycle.TwoOwners | SPTask.hpp:94-102 | a task appended with the flag cleared gives its connection two owners, in every state |
| Lifecycle.NoOwner | SPSock.cpp:594-598 | an event without its callback whose enable fails leaves its connection with none, in every state |
| Lifecycle.TailUnowned | SPTask.hpp:130-142 | a wrapped batch cut short in its first piece leaves the connection of the next task with none, in every state |
| Lifecycle.CommitOwnedIff | SPTask.hpp:112-149 | a submission of a commit keeps single ownership iff it is not the first piece of a wrapped batch, cut short |
| Lifecycle.OnePieceCommit | SPTask.hpp:112-142 | a submission refused in part, or of a batch that has not wrapped, is what one call of commit does |
| Lifecycle.TwoPieceCommit | SPTask.hpp:144-148 | the two submissions of a wrapped batch are what one call of commit does |
| Lifecycle.AcceptOwnedIff | SPSock.cpp:108-160 | accepting keeps it iff init succeeds or the new descriptor is 0, which is what a failed init closes and erases |
| Lifecycle.HandOnOwned | SPSock.cpp:173-199 | the first enable or close of a callback hands its connection on |
| Lifecycle.AgainOwnedIff | SPSock.cpp:173-199 | a further enable or close keeps single ownership iff epoll has not reported the connection since |
| Lifecycle.ReturnOwnedIff | SPTask.hpp:36-39 | a callback that returns keeps it iff it has handed its connection on |
| Lifecycle.SweepKeeps | SPSock.cpp:539-565 | taking over and closing the close list keeps the connection invariant |
| Lifecycle.StepKeepsIff | SPSock.cpp:108-643 | every step of every thread keeps the connection invariant iff it hands connections on properly |
| Lifecycle.SingleOwner | SPSock.cpp:390-643 | along every run of proper steps every open connection is in exactly one place, and no two callbacks own it |
| Lifecycle.MapIsExact | SPSock.cpp:108-114 | in every run, proper or not, the map keys are the open descriptors, so emplace never collides |
| Lifecycle.CountsAreLive | SPSock.cpp:132-158 | along every run of proper steps every count is the number of its loop's live connections |
| Lifecycle.SweepIsSafe | SPSock.cpp:539-565 | along every run of proper steps the close list never holds a controller that is gone or one twice, and no count falls below zero |
| LifecycleSteps.DispatchDoes | SPSock.cpp:390-643 | a connection is closed on a hangup and when its socket fails, armed again below the water mark or closed when that fails, and buffered otherwise; without its callback it is closed, even when the enable for the other succeeds, and dropped when that fails |
| LifecycleSteps.RenableDoes | SPTask.hpp:132-137 | a refused connection is armed again, or closed when that fails |
| LifecycleSteps.CallbackDoes | SPSock.cpp:173-199 | an enable that succeeds arms the connection and one that fails changes nothing; a close puts it on the close list |
| LifecycleSteps.ConnectDoes | SPSock.cpp:108-160 | a new connection goes to the first of the least loaded loops and is armed there; when epoll does not take it nothing stays; when init fails it stays, and descriptor 0 is closed and forgotten instead |
| LifecycleSteps.RoundDoes | SPSock.cpp:379-424 | what epoll reports is disarmed and comes before the loop in that order; the end of a round sets the flag |
| LifecycleSteps.LeftLess | SPSock.cpp:390-424 | every step of a round leaves less of it |
| LifecycleSteps.RoundNeverStuck | SPSock.cpp:390-424 | within a round a loop can always go on, whatever epoll, the sockets and the pool answer |
| LifecycleSteps.RoundEnds | SPSock.cpp:377-425 | every round comes to an end with nothing left before the loop and its flag set |
| LifecycleSteps.SweepCloses | SPSock.cpp:539-565 | the whole close list is taken over, exactly the connections on it are closed, and the counts are those of the others |
| LifecycleGaps.InitFails | SPController.cpp:9-15 | a failed init leaves the connection open and in the map with no owner |
| LifecycleGaps.CallbackMissing | SPSock.cpp:594-598 | with one of the two callbacks set, a proper run to a state where an event of the other kind leaves its connection with no owner |
| LifecycleGaps.TwiceOwned | SPTask.hpp:96-102 | whatever a batch holds, if epoll can report more, a proper run to a state where the next event gives a connection two owners, after a refusal in the same round |
| LifecycleGaps.TailLost | SPTask.hpp:130-142 | for batches and rounds of two and more, a proper run to a state where a commit leaves an open connection without any owner |
| LifecycleGaps.TwoCallbacks | SPTask.hpp:36-39 | a run in which a second callback for a connection starts before the first, which has enabled it, returns |
| LifecycleLimits.RoundKept | SPSock.cpp:377-421 | every step keeps events and tasks of a round within EPOLL_MAX_EVENT_BSIZE, and, if a batch holds that many, no events left once one is submitted |
| LifecycleLimits.LateAppendIff | SPTask.hpp:96-102 | a task can be appended after a refusal in the same round iff EPOLL_MAX_EVENT_BSIZE exceeds THREADPOOL_BATCH_SIZE_SUBMIT |
| LifecycleLimits.CutShortIff | SPTask.hpp:130-142 | a wrapped batch can be cut short in its first piece iff both are at least two |
| LifecycleLimits.OwnershipSafeIff | SPSock.cpp:377-424 | whatever the pool refuses, a server whose init succeeds, whose events have their callbacks and whose callbacks hand connections on keeps single ownership in every run iff EPOLL_MAX_EVENT_BSIZE is 1 |

## Left out

- PoolMachine: the workers' main loops are steps of a state machine on values, not loops over shared objects, because
  their steps interleave; `ThreadPools` has the loops that one thread runs to the end.
- Lifecycle: `SPSockTcp` is a state machine on values for the same reason; what socket calls and water marks make of an
  event is a nondeterministic verdict.
- ThreadPools.ThreadPool.Init: does not start threads; what they do from then on is `PoolMachine`.
- `ThreadPool::exit` deleting the queues, which destroys what an ungraceful exit leaves: `BlockQueue.TPBlockQueue.Release`
  states it for one queue.
- `ThreadPool::emplaceBulk`: calls a queue method that does not exist.
- The caller's arrays of `pushBulk` and `popBulk` are sequences; construction by copy or move, `ASSIGN` or `PLACE` extraction
  and the rounding of the block size in `TPBlockQueue::init` are not modelled.
- `wait_pop` of single elements: `wait_popBulk` with a count of one.
- Controller.SOCKController.Init: the rings are arrays of their own; what the pool hands out for them is tracked as
  addresses, which share no byte, and not as the bytes that the rings store.
- BufferPool.SPTcpBufferPool.constructor: leaves out the configurations in which a size wraps, where the code writes its
  nodes behind the end of a block that is too small; `BufferLayout.AskedHoldsIff` says which those are.
- BlockQueue.TPBlockQueue.Init: gives the queue the nodes it was asked for, also where `BlockFitsIff` says that the block the
  code allocates is too small; the largest configurable queue length stays far below that.
- `SPBuffer::Init` and its destructor are the pool calls of `OpenPair` and `ClosePair`; the ring starts with its memory in place.
- The descriptor, the context and the address strings that `SOCKController::init` stores.
- `DEFER::funcEvent` failing is an arbitrary failure of `epoll_ctl`; the `armed` set of a controller is the interests it last handed over.
- Closing of a pending event's connection while epoll reports it, and IO loops that exit with events pending.
- The 50 ms throttle of the close list, durations of timeouts, and the thread-ratio arithmetic.
- Sockets, address parsing, keep-alive, linger, signals, logging, the singleton and its status bits: no deep invariant.
- UDP (`SPSockUdp`), `base/TPTask.h` type erasure, CPU affinity: language and operating-system plumbing.
- Memory-model effects of the unlocked reads and of the unsynchronised `connections` map.
