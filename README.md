# cacti: a verified model of an actor runtime

cacti is a small actor runtime in C. An actor has a role, which is a table of
handlers (`prompts`, with `nprompts` entries). It also has a mailbox of messages
and a state slot. A message has a tag, a size and an opaque payload.
`send_message` appends a message to an actor's mailbox. When the mailbox was
empty, it also puts the actor's id on a global ready-queue. Worker threads take
ids off the ready-queue, and `work_with_actor` processes one message per visit:

- `MSG_GODIE` kills the actor;
- `MSG_SPAWN` creates a child actor and sends it `MSG_HELLO`;
- a tag outside the handler table is dropped;
- any other tag runs `prompts[tag]`.

The system is finished when every actor is dead. Both mailboxes and the
ready-queue are instances of a growable ring-buffer FIFO.

This project models:

- **`queue.dfy`, module `Queue`.** The ring buffer of `queue.c`/`queue.h` as
  a class over an array. It has the fields `q`, `capacity`, `begin`, `end` and
  `size`, plus a ghost sequence `Contents`. Push, pop and the capacity doubling
  are proved to keep FIFO order, including the wrapped and the full
  (`begin == end`) layouts.
- **`cacti_spec.dfy`, module `CactiSpec`.** The bookkeeping of `cacti.c` as a
  sequential state machine over values, with every lock erased.
  - Each runtime operation is a function on a `SystemView`. The view holds:
    - the actor table up to `actor_count`;
    - the ready-queue;
    - `dead_count` and `actors_capacity`;
    - the flags `all_work_done` and `interrupted`.
  - The runtime invariant `Inv` says:
    - the population fits the table and `CAST_LIMIT`;
    - `dead_count` counts the dead actors;
    - `all_work_done` holds exactly when every actor of a non-empty table is dead;
    - every mailbox holds at most `ACTOR_QUEUE_LIMIT` messages;
    - the ready-queue holds distinct alive actors that have mail.
  - Lemmas state what each operation promises and that each operation keeps `Inv`.
  - The module also holds the finding below and its correction.
- **`cacti.dfy`, module `Cacti`.** The class `ActorSystem` holds the actor
  table as an array that is doubled in place, the counters and flags, and a
  `Queue.RingQueue` as the ready-queue. Each method is proved to perform
  exactly the `CactiSpec` transition of the C function it models, and to keep
  `Inv`.
- **`silnia.dfy` (factorial) and `macierz.dfy` (matrix row sums), modules
  `Silnia` and `Macierz`.** The two client programs.
  - Their handlers are methods on the actor's heap state record, and each
    returns the messages it sends.
  - The pipelines are proved at the level of their arithmetic. The chain of
    `compute` steps yields `num!`. The running row sums, under any
    interleaving of rows, end at the row's total.

Handlers are, to the runtime, a function value `behaviour` from an `Invocation` to
an `Effect`. The invocation carries the actor id, the handler table, the tag,
the size, the payload and the state slot. The effect is the new state slot and
the list of messages the handler sends. The runtime performs those sends in
order and then re-enqueues the actor.

The constants of `cacti.h` are left open, because that header is not part of
this model:

- `CAST_LIMIT` and `ACTOR_QUEUE_LIMIT` are some positive numbers;
- `MSG_HELLO`, `MSG_SPAWN` and `MSG_GODIE` are some pairwise distinct tags;
- `ACTOR_ID_SIZE` is some size.

`DATA_SIZE` (32 in `cacti.c`) and `QUEUE_CAP` (4) are the source's values.

## Model

| member | source | states |
|---|---|---|
| Queue.Next | queue.c:32-33 | the advanced index stays below the capacity and wraps to 0 past the last cell |
| Queue.WindowPush | queue.c:31-34 | writing at `end` and advancing extends the logical contents by the new element, wrapped or not |
| Queue.WindowPop | queue.c:40-43 | advancing `begin` drops exactly the head of the logical contents |
| Queue.Window | queue.h:7-13 | the logical contents of the ring: `size` cells read from `begin` on, wrapping past the end; it has exactly `size` elements |
| Queue.RingQueue.Create | queue.c:56-67 | a new queue is empty, with `capacity == 4` and `begin == end == size == 0` |
| Queue.RingQueue.ElementAt | queue.h:7-13 | the i-th element is stored at cell `(begin + i) mod capacity` |
| Queue.RingQueue.IndicesMeet | queue.c:26-26 | `begin == end` exactly when the queue is empty or full, and `size` tells the two apart |
| Queue.RingQueue.ChangeCapacity | queue.c:7-23 | after reallocating to `newSize` cells and moving the wrapped prefix, the contents and their order are unchanged, `begin` and `size` are kept, and `end` moves past the old capacity exactly when the contents wrapped or filled the array |
| Queue.RingQueue.WrappedMoved | queue.c:15-18 | once the prefix `q[0..end)` is copied past the old capacity, the wrapped contents lie contiguously from `begin` |
| Queue.RingQueue.Realloc | queue.c:11-11 | the new block has the requested size and starts with the old cells |
| Queue.RingQueue.MoveBlock | queue.c:16-16 | the first `count` cells are copied to position `at` and no other cell changes |
| Queue.RingQueue.Push | queue.c:25-37 | status 0, the contents become the old contents followed by `el`, `size` grows by 1, and the capacity doubles exactly when the queue was full |
| Queue.RingQueue.Insert | queue.c:31-34 | with room left, the element is appended and the index invariants are kept |
| Queue.RingQueue.Pop | queue.c:39-46 | on a non-empty queue it returns the head, the contents lose their head and `size` drops by 1 |
| Queue.RingQueue.GetSize | queue.c:48-50 | returns the length of the logical contents |
| Queue.RingQueue.Empty | queue.c:52-54 | true exactly when the logical contents are empty |
| CactiSpec.ActorExists | cacti.c:353-365 | the id names an actor exactly when `0 <= id < actor_count`; the class method of the same name is proved equal to it |
| CactiSpec.GrownCapacity | cacti.c:102-116 | the capacity doubles exactly when the incremented count exceeds it; CreateActorResult states it |
| CactiSpec.CreateActor | cacti.c:95-141 | the create_actor transition and result code, with `allocOk` for the per-actor allocations; its outcomes are stated by CreateActorResult |
| CactiSpec.SendMessage | cacti.c:510-579 | the send_message transition and result code; SendMessageResult and SendFrame state what it does |
| CactiSpec.SendAll | cacti.c:271-280 | the handler's sends, one send_message after the other; SendAllKeepsInv, SendAllExtends and SendAllKeepsScheduled are about it |
| CactiSpec.GoDie | cacti.c:300-322 | the go_die transition; GoDieCountsOnce states it |
| CactiSpec.Spawn | cacti.c:324-351 | the spawn transition; SpawnResult states it |
| CactiSpec.PopMessage | cacti.c:245-246 | removes the head of the actor's mailbox; PopKeepsInv is about it |
| CactiSpec.RunHandler | cacti.c:271-280 | stores the handler's state and performs its sends |
| CactiSpec.Requeue | cacti.c:284-295 | appends the actor to the ready-queue exactly when it had more messages |
| CactiSpec.Process | cacti.c:249-297 | the branches of work_with_actor after the pop, in the source's order; ProcessKeepsInv and ProcessFrame are about it |
| CactiSpec.Dispatch | cacti.c:236-298 | work_with_actor; DispatchResult, DispatchFrame and DispatchKeepsInv state it |
| CactiSpec.KeepWorking | cacti.c:184-184 | the worker's outer loop condition |
| CactiSpec.WorkerIteration | cacti.c:184-211 | one pass of the worker loop; WorkerIterationKeepsInv, WorkerIterationFrame and WorkerExitsWhenDrained state it |
| CactiSpec.Initial | cacti.c:426-464 | the state after actor_system_create; InitialState states it |
| CactiSpec.ProcessFixed | cacti.c:249-297 | the branches after the pop with the drop path corrected to re-enqueue; ProcessFixedSchedules states it |
| CactiSpec.DispatchFixed | cacti.c:236-298 | work_with_actor with the corrected drop path |
| CactiSpec.WorkerIterationFixed | cacti.c:184-211 | one worker pass with the corrected work_with_actor; WorkerIterationFixedSchedules states it |
| CactiSpec.DeadCountAppend | cacti.c:118-120 | adding an alive or a dead record adds 0 or 1 to the dead count |
| CactiSpec.DeadCountUpdate | cacti.c:302-318 | replacing a record changes the dead count by the change in its `is_dead` flag |
| CactiSpec.AliveBelowCount | cacti.c:184-184 | an alive actor keeps `dead_count` below `actor_count` |
| CactiSpec.AllCountedAreDead | cacti.c:317-317 | when `dead_count == actor_count` every actor is dead |
| CactiSpec.CreateActorResult | cacti.c:95-141 | -2 and no change at `CAST_LIMIT`; -1 on a failed allocation with the count rolled back but the doubled capacity kept; otherwise 0 and one new alive actor with the role, an empty mailbox and a null state, the capacity doubling when the count outgrows it; the `all_work_done` and `interrupted` flags never change, and on -1 `dead_count` is kept |
| CactiSpec.CreateActorKeepsInv | cacti.c:95-141 | create_actor keeps the runtime invariant |
| CactiSpec.SendMessageResult | cacti.c:510-579 | -2 exactly for a missing actor, -1 exactly for an interrupted system or a dead target, -3 exactly for a full mailbox, else 0; a rejection changes nothing; an accepted message is appended and the target joins the ready-queue exactly when its mailbox was empty |
| CactiSpec.SendKeepsInv | cacti.c:510-579 | send_message keeps the runtime invariant |
| CactiSpec.SendAllKeepsInv | cacti.c:280-280 | a handler's sequence of sends keeps the runtime invariant |
| CactiSpec.SendAllNotToSelf | cacti.c:561-576 | sends that all go to other actors never put the actor in the ready-queue |
| CactiSpec.SendFrame | cacti.c:546-576 | a send changes only the target's mailbox, by appending, and can only append the target to the ready-queue |
| CactiSpec.GoDieCountsOnce | cacti.c:300-322 | go_die marks the actor dead and counts it once; a second go_die changes nothing; `all_work_done` says whether every actor is dead; the other actors are untouched |
| CactiSpec.GoDieKeepsInv | cacti.c:300-322 | go_die keeps the runtime invariant |
| CactiSpec.PopKeepsInv | cacti.c:245-246 | popping the processed actor's head message keeps the runtime invariant |
| CactiSpec.SpawnResult | cacti.c:324-351 | nothing happens when interrupted or at `CAST_LIMIT`; otherwise the new actor is `actor_count`, with the carried role and HELLO carrying the parent's id, and it joins the ready-queue |
| CactiSpec.SpawnHelloAccepted | cacti.c:334-350 | when spawn runs as one uninterrupted step and create_actor's allocations succeed (`allocOk` true), create_actor returns 0 and the HELLO to the new actor is accepted, so neither `exit(1)` of spawn is reached in the model |
| CactiSpec.SpawnKeepsInv | cacti.c:324-351 | spawn keeps the runtime invariant |
| CactiSpec.SendAllKeepsWaiting | cacti.c:562-576 | sends never enqueue an actor whose mailbox is already non-empty |
| CactiSpec.AliveMeansWorkLeft | cacti.c:316-317 | while an actor is alive `all_work_done` is false |
| CactiSpec.StoreStateKeepsInv | cacti.c:278-280 | storing the handler's new state keeps the runtime invariant |
| CactiSpec.SpawnKeepsWaiting | cacti.c:324-351 | spawn does not enqueue or change the spawning actor |
| CactiSpec.RequeueKeepsInv | cacti.c:284-295 | re-enqueueing the processed actor keeps the runtime invariant |
| CactiSpec.ProcessKeepsInv | cacti.c:249-297 | every branch after the pop keeps the runtime invariant |
| CactiSpec.DispatchResult | cacti.c:236-298 | one message is taken; GODIE kills with no handler; SPAWN spawns; a tag outside the table is dropped; any other tag runs `prompts[tag]` with the payload and the state; after GODIE or a drop the actor is not ready; after SPAWN or a handler it is at the tail of the ready-queue when messages remained, and after SPAWN with no message left, or a handler with no message left that sends nothing to the actor itself, it is not in the ready-queue |
| CactiSpec.TableExtendedTrans | cacti.c:510-579 | one extension of the table followed by another is an extension |
| CactiSpec.SendExtends | cacti.c:546-576 | a send keeps every record's `is_dead` flag, role and state and only appends to a mailbox |
| CactiSpec.SendAllExtends | cacti.c:271-280 | a handler's sends keep every record's flag, role and state and only append to mailboxes |
| CactiSpec.SpawnExtends | cacti.c:324-351 | spawn keeps every existing record as it is except for messages appended, and adds the new actor after them |
| CactiSpec.ProcessFrame | cacti.c:249-297 | after any branch, every other actor keeps its flag, role and state with a mailbox that only grows; the processed actor keeps its role and its remaining messages, dies exactly on GODIE and changes its state only by a handler |
| CactiSpec.DispatchFrame | cacti.c:236-298 | work_with_actor never loses or revives a record: every other actor keeps its flag, role and state and its mailbox only grows; the processed actor keeps its role and the messages after the popped one, dies exactly on GODIE, and only a handler changes its state |
| CactiSpec.WorkerIterationFrame | cacti.c:184-211 | a worker pass never shrinks `actor_count`, never changes a role, never revives a dead actor, and leaves every actor other than the one it ran with its flag, role and state and a mailbox that only grows |
| CactiSpec.DispatchKeepsInv | cacti.c:236-298 | work_with_actor keeps the runtime invariant |
| CactiSpec.DequeueKeepsInv | cacti.c:203-205 | taking the head off the ready-queue keeps the runtime invariant |
| CactiSpec.ReadyHeadDispatchable | cacti.c:203-210 | the id popped from the ready-queue names an alive actor with a well-formed head message that is no longer queued |
| CactiSpec.WorkerIterationKeepsInv | cacti.c:184-211 | one pass of the worker loop keeps the runtime invariant |
| CactiSpec.InitialState | cacti.c:426-464 | after system creation, actor 0 is alive with the root role, holds one HELLO, is the only ready actor, and the invariant holds |
| CactiSpec.WorkerExitsWhenDrained | cacti.c:184-201 | the worker leaves exactly when the ready-queue is empty and all work is done or the system is interrupted |
| CactiSpec.WorkerWaitsWhenIdle | cacti.c:188-192 | the worker blocks exactly when the ready-queue is empty, some actor is alive and the system is not interrupted |
| CactiSpec.DroppedTagUnschedules | cacti.c:266-269 | as written, dropping a message at the head of a mailbox that holds more leaves the actor alive with mail and out of the ready-queue |
| CactiSpec.DroppedTagBlocksWorker | cacti.c:266-269 | as written, with one actor whose mailbox holds an unknown tag and then GODIE, the worker drops the first message and then blocks with GODIE pending |
| CactiSpec.SendKeepsScheduled | cacti.c:562-576 | a send keeps every alive actor with mail in the ready-queue |
| CactiSpec.SendAllKeepsScheduled | cacti.c:562-576 | a sequence of sends keeps every alive actor with mail in the ready-queue |
| CactiSpec.SpawnKeepsScheduled | cacti.c:324-351 | spawn keeps every alive actor with mail in the ready-queue |
| CactiSpec.ProcessFixedSchedules | cacti.c:249-297 | with the drop path re-enqueueing, every branch keeps the invariant and keeps every alive actor with mail in the ready-queue |
| CactiSpec.WorkerIterationFixedSchedules | cacti.c:184-211 | with the corrected drop path, every worker pass keeps the invariant and the scheduling property |
| CactiSpec.InitialScheduled | cacti.c:426-464 | the system starts with every alive actor that has mail in the ready-queue, so the corrected worker's scheduling property holds from actor_system_create on |
| CactiSpec.ScheduledWaitMeansIdle | cacti.c:188-192 | under the scheduling property the worker blocks only when no alive actor has mail |
| Cacti.GrowTable | cacti.c:107-108 | the reallocated table has the new size and starts with the old records |
| Cacti.ActorSystem.Create | cacti.c:426-464 | the new system is in the state CactiSpec.Initial describes, and the invariant holds |
| Cacti.ActorSystem.Boot | cacti.c:459-464 | actor 0 is created with the root role and sent HELLO |
| Cacti.ActorSystem.SetActor | cacti.c:118-120 | writes one record of the table in place; the view's table changes at that index only |
| Cacti.ActorSystem.AppendActor | cacti.c:118-120 | fills cell `actor_count` and counts it; the view's table gains exactly that record |
| Cacti.ActorSystem.Grow | cacti.c:102-116 | the table doubles in place and the records are kept |
| Cacti.ActorSystem.Enqueue | cacti.c:566-569 | the id is appended to the ready-queue and nothing else changes |
| Cacti.ActorSystem.Dequeue | cacti.c:203-205 | the head of the ready-queue is returned and removed |
| Cacti.ActorSystem.ActorExists | cacti.c:353-365 | true exactly when `0 <= id < actor_count` |
| Cacti.ActorSystem.CreateActor | cacti.c:95-141 | performs exactly the create_actor transition, including the -2 and -1 results, and keeps the invariant |
| Cacti.ActorSystem.SendMessage | cacti.c:510-579 | performs exactly the send_message transition and result code, and keeps the invariant |
| Cacti.ActorSystem.GoDie | cacti.c:300-322 | performs exactly the go_die transition and keeps the invariant |
| Cacti.ActorSystem.Spawn | cacti.c:324-351 | performs exactly the spawn transition and keeps the invariant |
| Cacti.ActorSystem.RunHandler | cacti.c:271-280 | stores the handler's new state, performs its sends in order, and keeps the invariant |
| Cacti.ActorSystem.SendAll | cacti.c:510-579 | a loop of send_message calls performs the sends one after the other |
| Cacti.ActorSystem.WorkWithActor | cacti.c:236-298 | performs exactly the work_with_actor transition and step, and keeps the invariant |
| Cacti.ActorSystem.Process | cacti.c:249-297 | the branches after the pop, in the source's order, including the early returns of GODIE and of the drop path |
| Cacti.ActorSystem.Requeue | cacti.c:284-295 | re-enqueues the actor exactly when it had more messages |
| Cacti.ActorSystem.WorkerIteration | cacti.c:184-211 | one pass of the worker loop: exit, block, or take the head of the ready-queue and process it |
| Cacti.ActorSystem.Interrupt | cacti.c:154-155 | raises the interrupted flag and changes nothing else |
| Silnia.ComputeStep | silnia.c:85-89 | the arithmetic of compute; ComputeKeepsConsistent states it |
| Silnia.RootFact | silnia.c:51-57 | the record get_data gives the root, factor 1 and factorial 1 |
| Silnia.ChainFact | silnia.c:51-57 | the record held down the chain, the root's followed by compute steps; ChainFactIs states it |
| Silnia.ComputeKeepsConsistent | silnia.c:85-89 | compute keeps `factorial == factor!`, increments the factor and copies `num` |
| Silnia.ChainFactIs | silnia.c:51-57 | the actor at depth d of the chain holds factor d + 1 and its factorial |
| Silnia.ChainPrintsFactorial | silnia.c:91-100 | for an input of at least 2, the actor at depth num - 1 is the only one that stops the chain, and it prints num! |
| Silnia.MainStart | silnia.c:108-125 | a negative input exits with failure, 0 and 1 print their factorial (1) without a system, and any other input starts the system |
| Silnia.State.Hello | silnia.c:38-46 | the new state takes its father's id from the payload and its own id, and sends MEET_CHILD with its id to the father |
| Silnia.State.GetData | silnia.c:51-62 | the root starts at factor 1 and factorial 1 (so `factorial == factor!`), is its own father, and sends SPAWN to itself |
| Silnia.State.MeetYourChild | silnia.c:64-70 | records the child and sends it COMPUTE with this actor's record, changing nothing else |
| Silnia.State.Compute | silnia.c:85-101 | the record becomes the next step of the chain; when `num == factor` it prints the factorial and sends KYS to itself, otherwise it sends SPAWN to itself |
| Silnia.State.KillYourself | silnia.c:72-83 | a non-root actor sends KYS to its father, and every actor then sends GODIE to itself |
| Macierz.AddCell | macierz.c:52-56 | the cell of the given row and column is added to that row's sum; the row index and all other rows are unchanged |
| Macierz.ReadAndSum | macierz.c:52-56 | updates the shared row sums in place exactly as AddCell describes |
| Macierz.ApplyReads | macierz.c:52-56 | the row sums after a history of read_and_sum calls in order; it keeps the number of rows, and ApplyReadsRow states what it does to each row |
| Macierz.RowTotal | macierz.c:111-116 | the sum of the first cells of a row, which the last column prints; RangeSumsRow and PrintedIsRowTotal relate it to the reads |
| Macierz.ApplyReadsRow | macierz.c:111-113 | under any interleaving of reads, a row's sum grows by the cells read for that row, and its index never changes |
| Macierz.RangeSumsRow | macierz.c:53-55 | reading the columns 0 .. m-1 of a row adds up its first m cells |
| Macierz.PrintedIsRowTotal | macierz.c:152-156 | from the initialised row sums, once columns 0 .. n-1 have read for row r in chain order, the sum is the total of row r's n cells |
| Macierz.InitRows | macierz.c:152-156 | every `row_sums[i]` starts as `{sum = 0, row = i}` |
| Macierz.ReadMatrix | macierz.c:146-150 | the matrix holds the cells read, in order |
| Macierz.MainSetup | macierz.c:146-173 | the mat_t handed to the root has the dimensions, column 0, the cells read and initialised row sums |
| Macierz.State.Hello | macierz.c:58-66 | the new state takes its father's id and its own id, and sends MEET_CHILD with its state record to the father |
| Macierz.State.GetData | macierz.c:71-87 | the root is its own father and copies the mat_t; it sends SPAWN to itself when another column follows, otherwise COMPUTE for row 0 |
| Macierz.State.MeetYourChild | macierz.c:89-109 | the child gets the root as its father, the next column, and the shared dimensions, matrix and row sums; it is asked for a grandchild, or the root is told to start row 0 when the child holds the last column |
| Macierz.State.Compute | macierz.c:111-138 | adds this column's cell to the row; the last column prints the sum and any other column forwards the row to its child; after row k-1 the actor sends GODIE to itself, and before it the root starts the next row |

## Left out

- Threads, mutexes, the read-write lock and the condition variable are left out. The runtime is one sequential scheduler: the worker's blocking wait is the `Wait` step and concurrent interleavings of workers are not modelled.
- The thread pool is left out. That covers `create_thread_pool`, `destroy_thread_pool`, `POOL_SIZE`, `returned_threads`, `all_threads_returned` and `actor_system_join`, which only start, count and join threads.
- SIGINT handling is reduced to the flag. `block_system` is modelled only as raising `interrupted`. `set_signal_operation`, `reset_signal_operation` and `raise(SIGINT)` need a process and signal model.
- Teardown is left out: `destroy_actors`, `destroy_actor_system`, `delete_queue` and the unwind chain of `actor_system_create` only release resources.
- The process-wide `actor_system` global is an explicit object. Its NULL checks in `actor_system_create` and `send_message` are not modelled.
- Allocation failures that end in `exit(1)` are treated as never happening. These are the message envelope malloc in `send_message` (cacti.c:515-517), the table realloc in `create_actor`, and the push into the ready-queue (cacti.c:568-569). The per-actor allocations of `create_actor` are modelled, through the `allocOk` parameter.
- The malloc of the queued id in `send_message` (cacti.c:565-566) is not checked for NULL in the source, which writes through it at once. The model treats that malloc as always succeeding.
- The -1 that `send_message` returns when the push into the mailbox fails (cacti.c:546-553) is not modelled: a mailbox push only fails when `realloc` fails, and the model has no failing `realloc`.
- CactiSpec.SendMessageResult: states -1 exactly for an interrupted system or a dead target. That holds only because a mailbox push cannot fail in the model; in the source a failed push also returns -1, with nothing changed.
- Both `exit(1)` paths of `spawn` are not reached in the model. `spawn` is one uninterrupted step that calls `create_actor` with `allocOk` true. In the source, `create_actor` returns -1 inside `spawn` when the state malloc, `create_queue` or the mutex initialisation fails (cacti.c:121-141), and `spawn` then exits (cacti.c:334-335). A SIGINT that raises `interrupted` (cacti.c:154) after spawn's check (cacti.c:325) and before send_message tests the flag makes the HELLO return -1, and `spawn` then exits (cacti.c:347-350). Neither path is modelled, because signals are not interleaved with operations and spawn's allocations always succeed here.
- Queue.RingQueue.Push: always returns status 0, because its only failure is a failed `realloc`. On that failure the source loses `q`.
- Mailboxes are `seq<Message>` values in the actor table, not `Queue.RingQueue` objects. `Queue.RingQueue` is proved to behave as exactly such a FIFO sequence. One ring-buffer object per actor inside the table could not be verified within the resource bound, so in-place updates and aliasing of mailbox buffers are not captured. The ready-queue is a real `Queue.RingQueue`.
- The drop path of `work_with_actor` returns while still holding the `realloc_safety` read lock (cacti.c:239, cacti.c:266-269). Locks are not modelled, so neither is this leak.
- The thread-local `thread_actor`/`actor_id_self` is the `self` field passed with each handler call.
- Handlers are a function value that cannot observe the results of their own sends, or call other runtime functions.
- The two clients' handlers return their sends as lists, with client-level payloads. They are not run inside `Cacti.ActorSystem`. Their chains are proved on the arithmetic (`ChainFact`, `ApplyReads`).
- The cells of a failed `create_actor` are left half-initialised in the source. The model leaves the table unchanged past `actor_count`.
- `cacti.h` is not part of this model, so its constants are left open: positive limits and distinct reserved tags.
- Integer widths are not modelled:
  - Integers are unbounded, so the `long long` factorial in silnia.c and the row sums in macierz.c never overflow.
  - The `(size_t)tag >= nprompts` comparison is modelled as a negative tag or a tag at least `nprompts`.
- Client I/O is not modelled. `scanf` input is a parameter, `printf` output is the returned `printed` value, and the `usleep` of `read_and_sum` is omitted.
- Message sizes (`nbytes`) are not carried by the clients' sends, because no client handler reads them.
- Silnia.State.MeetYourChild: sends the value of the record rather than its address. The parent never changes the record afterwards, so the child reads the same values.
- Macierz.State.Compute: requires the row index and the cell index to be in range. The source does not check them: with `k == 0`, `get_data` and `meet_your_child` send `&row_sums[0]` into an empty array.
- The `read_val` function pointer of `mat_t` is always `read_and_sum` and is not a separate field.
- Macierz.PrintedIsRowTotal: takes the chain's order of reads for a row as a premise. It does not derive that order from the runtime's message scheduling.

## Findings

| source | as written | input that shows it | evidently intended | confidence | as-written member | corrected member |
|---|---|---|---|---|---|---|
| cacti.c:266-269 | `work_with_actor` returns after dropping a message whose tag is outside the handler table. That skips the re-enqueue at cacti.c:284-295, so an actor with more messages leaves the ready-queue with mail pending. Later sends see a non-empty mailbox and never enqueue it again. | one alive actor with `nprompts == 0` whose mailbox is `[tag t, GODIE]`, with t neither GODIE nor SPAWN, alone in the ready-queue: the first worker pass drops t; the next pass blocks, with GODIE never processed and the system never finishing | drop the message but still re-enqueue the actor when messages remain | high, not executed | CactiSpec.DroppedTagBlocksWorker | CactiSpec.WorkerIterationFixedSchedules |

`Cacti.ActorSystem.Process` keeps the code as written, early return included.
`CactiSpec.ProcessFixed`, `CactiSpec.DispatchFixed` and
`CactiSpec.WorkerIterationFixed` are the corrected worker pass. The scheduling
lemmas (`ProcessFixedSchedules`, `WorkerIterationFixedSchedules`,
`ScheduledWaitMeansIdle`) are proved about them. `DroppedTagUnschedules`
shows how the as-written pass breaks the same property.
