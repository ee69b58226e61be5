# Choochoos: a verified model

Choochoos is a microkernel for a model-railway computer together with the programs that drive the
trains. This project models four connected parts of it in Dafny and proves what they promise over
whole runs. `dafny verify dfyconfig.toml` checks everything.

**The microkernel.** `Kernel.dfy` is the kernel as it is written: a task table whose descriptors
hold the heads, tails and `next` links of the lists of waiting senders, a heap-backed ready queue,
event slots and the run loop. `KernelModel.dfy` says what each step does on plain sequences and
maps; every method of `Kernels.Kernel` is proved to take exactly that step and to keep the links
representing the sequences (`KernelLinks.dfy`). `KernelCalls.dfy` states what each of these steps
does without its terms: which bytes move where, who gets which value, and that all else stays.
`KernelInvariant.dfy` shows that each handler keeps every task in the one place its state names,
`KernelRuns.dfy` draws the consequences for every run from boot, whatever user programs and
interrupts do, `KernelMessages.dfy` shows that no task ever sees a placeholder return value and that
events are returned once and with their own data, and `KernelRendezvous.dfy` that messages are
received in arrival order and when the two ways of meeting are equivalent. `Scheduling.dfy` bounds
overtaking in a queue, `KernelFairness.dfy` in every run of the kernel.

**The track.** `Dijkstra.dfy` is the shortest-path search with its arrays, `Route.dfy` the switch
table, the route command's loop and `distance_between`, `Mirror.dfy` the symmetry of the track under
reversal, `Positions.dfy` next and previous sensors and normalization. The track is any graph that
satisfies the predicates in `Track.dfy`, `Route.dfy`, `Mirror.dfy` and `Positions.dfy`.

**The servers.** `UartServer.dfy` (buffering, flushing, the CTS handshake), `ClockServer.dfy` (exact
wake-ups) and `NameServer.dfy` (a string arena as a map).

**Containers and printing.** `PriorityQueue.dfy`, `RingBuffer.dfy`, `OptArray.dfy` and `Printf.dfy`.

## Where the code and its documentation part ways

- An exiting task: `activate` (src/kernel/kernel.cc:25-33) reads the state of a descriptor that Exit
  has destroyed (src/kernel/handlers/exit.cc:44). The model follows docs/k1/kernel.md:114, where an
  exited task is not scheduled again. Read literally, the dead tid would be queued again, and skipped
  when its turn came (src/kernel/kernel.cc:24) unless a new task had taken it by then:
  `KernelRuns.RequeuedDeadTidIsDoubled` shows that this one would be queued twice.
- Receive clamps a negative length to zero only when a message is already waiting
  (src/kernel/handlers/receive.cc:15-23); when it blocks, the length becomes a huge `size_t`. The
  model does the same, so the two orders of Send and Receive are equivalent exactly under the
  condition of `KernelRendezvous.EitherOrderMeetsAlike`.
- The assertion at src/kernel/irq_handler.cc:86 assigns instead of comparing.
  `Kernels.Kernel.WakeBlocked` shows that in every reachable state the task has that state already.
- The sign of a printed number is dropped when the digits and zeros fill the 32-place buffer
  (src/common/printf.c:269). `Printfs.PrintedReadsBack` and `Printfs.PrintedLength` give the exact
  conditions. From a format string this can happen to decimals printed with a precision of 32 or more
  (`Printfs.SignLost`) or zero-padded to a width of 33 or more; 32 binary digits with a sign, and zero
  padding together with a precision, are excluded by src/common/printf.c:716-724, which clears the flags.

## Model

| member | source | states |
|---|---|---|
| `PriorityQueues.PriorityQueue.Push` | include/common/priority_queue.h:44-57 | Pushing puts the element behind everything of its own or a higher priority in the order in which elements will leave, or reports FULL exactly when the queue holds N elements |
| `PriorityQueues.PriorityQueue.Pop` | include/common/priority_queue.h:59-71 | Popping returns and removes the oldest element of the highest priority, and nothing else changes |
| `PriorityQueues.PriorityQueue.Peek` | include/common/priority_queue.h:73-76 | Peeking names the element the next pop returns |
| `PriorityQueues.PushHeap` | include/common/priority_queue.h:49-54 | Sifting up the last element makes a heap of the same elements (std::push_heap) |
| `PriorityQueues.PopHeap` | include/common/priority_queue.h:62-65 | The greatest element goes to the end and the rest is a heap of the same elements again (std::pop_heap) |
| `PriorityQueues.Place` | include/common/priority_queue.h:14-20 | A newcomer stands behind everything of its own or a higher priority and before the first of a lower one: FIFO within a priority |
| `PriorityQueues.InsertKeepsSorted` | include/common/priority_queue.h:26-31 | The leaving order stays sorted by priority |
| `PriorityQueues.RootIsGreatest` | include/common/priority_queue.h:73-76 | No element of a heap is greater than its root |
| `PriorityQueues.RootLeavesFirst` | include/common/priority_queue.h:59-76 | The root of the ticketed heap is the front of the leaving order |
| `OptArrays.OptArray.Put` | include/common/opt_array.h:16-20 | An index in range gets the value and no other changes; out of range nothing happens; the count of present elements stays right |
| `OptArrays.OptArray.Take` | include/common/opt_array.h:38-48 | The value at an index is returned and cleared; the count stays right |
| `OptArrays.OptArray.Get` | include/common/opt_array.h:27-31 | What is stored at an index in range, and nothing out of range |
| `OptArrays.OptArray.Has` | include/common/opt_array.h:22-25 | Whether an index is in range and has a value |
| `OptArrays.OptArray.NumPresent` | include/common/opt_array.h:14 | The number of indices that have a value |
| `OptArrays.CountUpdate` | include/common/opt_array.h:16-20 | How storing a value changes the number of values present |
| `OptArrays.CountZero` | src/kernel/kernel.cc:124 | The number is zero exactly when no index has a value |
| `RingBuffers.Queue.PushBack` | include/common/queue.h:21-27 | The element joins at the back, or FULL is reported exactly when N elements are queued |
| `RingBuffers.Queue.PopFront` | include/common/queue.h:29-36 | The oldest element leaves, the others stay in order |
| `RingBuffers.Queue.PeekIndex` | include/common/queue.h:43-46 | The i-th oldest element, if there are that many |
| `RingBuffers.Queue.Available` | include/common/queue.h:18 | The room left |
| `RingBuffers.Queue.IsEmpty` | include/common/queue.h:19 | Whether nothing is queued |
| `RingBuffers.Queue.Clear` | include/common/queue.h:48-51 | Nothing is queued any more |
| `KernelModel.NextTid` | src/kernel/handlers/create.cc:27-32 | The lowest free tid, or none exactly when all 48 are taken |
| `KernelLinks.AppendRepresents` | src/kernel/handlers/send.cc:29-52 | Rewriting the tail's link and the receiver's head and tail appends the sender to the represented list and leaves every other list alone |
| `KernelLinks.RemoveFrontRepresents` | src/kernel/handlers/receive.cc:38-55 | Advancing the head, and clearing the tail when it was the last, removes the front of the represented list and leaves every other list alone |
| `KernelLinks.ListedOnce` | include/kernel/task_descriptor.h:13-19 | A blocked sender stands in no other list and at no second place of its own |
| `KernelLinks.NotListed` | include/kernel/task_descriptor.h:13-19 | A task that is not blocked sending is in nobody's list |
| `Kernels.Kernel.Empty` | src/kernel/kernel.cc:129-132 | The empty kernel represents the empty abstract state |
| `Kernels.Kernel.Initialize` | src/kernel/kernel.cc:90-93 | After booting, the name server is at tid 1 and the first user task at tid 0, both ready |
| `Kernels.Kernel.NextTid` | src/kernel/handlers/create.cc:27-32 | The scanning loop finds the lowest free tid |
| `Kernels.Kernel.CreateTask` | src/kernel/handlers/create.cc:34-84 | A new ready task without senders, queued by its priority, whose parent is the current task; out of descriptors leaves all as it was; a taken forced tid or a full queue panics |
| `Kernels.Kernel.Create` | src/kernel/handlers/create.cc:8-13 | Negative priorities are refused without effect, others create a task |
| `Kernels.Kernel.Send` | src/kernel/handlers/send.cc:7-85 | Both branches, the refusals and the placeholders, as the step on sequences says; the linked lists still represent those sequences |
| `Kernels.Kernel.SendToBusy` | src/kernel/handlers/send.cc:22-57 | The sender blocks at the end of the receiver's list |
| `Kernels.Kernel.AppendSender` | src/kernel/handlers/send.cc:35-52 | Head, tail and the old tail's link after appending, for an empty list and a non-empty one |
| `Kernels.Kernel.SendToWaiting` | src/kernel/handlers/send.cc:58-79 | The bytes, the tid and the length reach the receiver, which is queued; the sender waits for its reply |
| `Kernels.Kernel.Receive` | src/kernel/handlers/receive.cc:7-64 | Takes the first waiting message or blocks, as the step on sequences says |
| `Kernels.Kernel.TakeMessage` | src/kernel/handlers/receive.cc:23-57 | The front sender's message and tid are copied and its length returned, and the sender waits for its reply |
| `Kernels.Kernel.TakeFront` | src/kernel/handlers/receive.cc:42-55 | The front sender leaves the linked list for REPLY_WAIT; the next one becomes the head, or head and tail are cleared |
| `Kernels.Kernel.Reply` | src/kernel/handlers/reply.cc:7-37 | Only a task waiting for a reply gets the bytes and the length and becomes ready; -1 and -2 otherwise |
| `Kernels.Kernel.AwaitEvent` | src/kernel/handlers/await_event.cc:6-49 | Stored data is returned and cleared, otherwise the task blocks in the event's slot; a second waiter or a bad event stops the kernel |
| `Kernels.Kernel.ResetTask` | src/kernel/handlers/exit.cc:5-37 | The loop over the links ends, and has woken the waiting senders with -2, in order |
| `Kernels.Kernel.Exit` | src/kernel/handlers/exit.cc:39-45 | As ResetTask, and the table slot is free |
| `Kernels.Kernel.WakeBlocked` | src/kernel/irq_handler.cc:81-94 | The waiter of an interrupt becomes ready with the data; it was in the state that the assertion at line 86 assigns, so that assignment changes nothing |
| `Kernels.Kernel.ServiceInterrupt` | src/kernel/irq_handler.cc:32-105 | A waiter is woken, otherwise the data is kept in place of older data; unexpected interrupts stop the kernel |
| `Kernels.Kernel.ServiceLine` | src/kernel/irq_handler.cc:113-117 | One turn of the loop over the lines of a controller |
| `Kernels.Kernel.ServiceAsserted` | src/kernel/irq_handler.cc:113-126 | All asserted lines of one controller are serviced in order |
| `Kernels.Kernel.HandleInterrupt` | src/kernel/irq_handler.cc:109-127 | Both controllers are serviced, the first one first |
| `Kernels.Kernel.HandleSyscall` | src/kernel/swi_handler.cc:6-59 | Every call, Perf included, has the effect of its handler, and its return value is written back, also where the handler has changed the state of the caller |
| `Kernels.Kernel.Schedule` | src/kernel/kernel.cc:19 | The front of the ready queue gets the processor |
| `Kernels.Kernel.Activate` | src/kernel/kernel.cc:21-41 | The trap is handled and the task is queued again exactly if it is still alive and ready |
| `Kernels.Kernel.RequeueCurrent` | src/kernel/kernel.cc:28-40 | The queue always has room for the task that was running: the panic is out of reach |
| `Kernels.Kernel.NumEventBlockedTasks` | src/kernel/kernel.cc:124 | Zero exactly when no slot has a waiter or data |
| `Kernels.Kernel.Pass` | src/kernel/kernel.cc:155-192 | One pass of the run loop is one step of the abstract kernel and keeps its invariant |
| `Kernels.Kernel.RunLoop` | src/kernel/kernel.cc:155-192 | The loop over linked lists, heap and slots computes the abstract run, for every sequence of inputs |
| `KernelInvariant.RoomFor` | src/kernel/handlers/send.cc:68 | Pigeonhole: a queue of distinct tids below 48 has room for any tid that is not in it |
| `KernelInvariant.QueuePush` | include/common/priority_queue.h:44-57 | Making a task runnable and pushing it keeps queue and table in step |
| `KernelInvariant.QueuePop` | src/kernel/kernel.cc:19-33 | Taking the front keeps queue and table in step |
| `KernelInvariant.CreateInv` | src/kernel/handlers/create.cc:8-13 | Create keeps the invariant and never panics |
| `KernelInvariant.DeliverInv` | src/kernel/handlers/send.cc:58-79 | Direct delivery keeps the invariant |
| `KernelInvariant.EnqueueInv` | src/kernel/handlers/send.cc:22-57 | Blocking behind other senders keeps the invariant, also for a task that sends to itself |
| `KernelInvariant.TakeInv` | src/kernel/handlers/receive.cc:23-57 | Taking a waiting message keeps the invariant |
| `KernelInvariant.BlockedReceiveInv` | src/kernel/handlers/receive.cc:14-21 | Blocking in Receive keeps the invariant |
| `KernelInvariant.ReplyInv` | src/kernel/handlers/reply.cc:7-37 | Reply keeps the invariant |
| `KernelInvariant.AwaitInv` | src/kernel/handlers/await_event.cc:20-48 | AwaitEvent keeps the invariant |
| `KernelInvariant.WakeAllEffect` | src/kernel/handlers/exit.cc:16-36 | Each listed task becomes ready with -2 and joins the queue, and nothing else changes |
| `KernelInvariant.ExitEffect` | src/kernel/handlers/exit.cc:5-45 | Exit gives -2 to every waiting sender, queues it and frees the slot, and changes nothing else |
| `KernelInvariant.ExitInv` | src/kernel/handlers/exit.cc:39-45 | Exit keeps the invariant and never panics |
| `KernelInvariant.WakeWaiterInv` | src/kernel/irq_handler.cc:81-94 | Waking an event's waiter keeps the invariant |
| `KernelInvariant.InterruptInv` | src/kernel/irq_handler.cc:109-127 | Interrupts keep the invariant, and stop the kernel exactly when an unexpected line is asserted |
| `KernelInvariant.CallInv` | src/kernel/swi_handler.cc:14-58 | Every system call keeps the invariant |
| `KernelInvariant.RequeueInv` | src/kernel/kernel.cc:28-40 | Putting the running task back keeps the invariant and finds room |
| `KernelCalls.WordStored` | src/kernel/handlers/receive.cc:38-40 | A stored int reads back as its value modulo 2^32, and no other byte changes |
| `KernelCalls.CopyMoves` | src/kernel/handlers/reply.cc:16-19 | A copy puts the source's bytes, and no others, at the destination; with a null pointer nothing happens |
| `KernelCalls.MessageMoves` | src/kernel/handlers/receive.cc:34-40 | The message's bytes come to the buffer and the sender's tid to its place, for null pointers and overlaps too, and no other byte changes |
| `KernelCalls.DeliveredBytes` | src/kernel/handlers/send.cc:59-65 | If buffer and place of the tid do not overlap, all of the message has come |
| `KernelCalls.ReplyEffect` | src/kernel/handlers/reply.cc:7-37 | The whole state after Reply: a task that waits for one gets the bytes, both sides their number, the smaller of the two lengths, and it is queued; -1 for no task, -2 for a task that does not wait, and then nothing else changes |
| `KernelCalls.SendEffect` | src/kernel/handlers/send.cc:7-85 | The whole state after Send: a waiting receiver gets the bytes, the sender's tid and the smaller length and is queued, and the sender waits for a reply in its own buffer; otherwise the sender joins the receiver's list at the end, also its own; -1 for no task |
| `KernelCalls.ReceiveEffect` | src/kernel/handlers/receive.cc:7-64 | The whole state after Receive, for any number of waiting senders: the bytes, tid and length of the one that has waited longest, which then waits for its reply in its own buffer, the others left as they were; or the caller blocks, a negative length taken for a huge one |
| `KernelCalls.AwaitEffect` | src/kernel/handlers/await_event.cc:6-49 | The whole state after AwaitEvent: kept data is returned and forgotten, or the caller waits in the slot; a stop for every number but 4, 5, 51, 52 and 54 and for a second waiter |
| `KernelCalls.CreateEffect` | src/kernel/handlers/create.cc:8-84 | The whole state after Create: the task added has the returned tid, the lowest free one, the priority asked for and the caller for a parent, is ready without senders and is queued; -1 for a negative priority, -2 when all 48 tids are taken |
| `KernelCalls.QuickEffect` | src/kernel/swi_handler.cc:14-58 | MyTid and MyParentTid return the tids, -1 for no parent, Perf stores its number where asked, and otherwise these calls and Yield change nothing |
| `KernelCalls.WokenJoin` | src/kernel/handlers/exit.cc:16-36 | The senders that are woken join the ready queue one after another, in the order of the list |
| `KernelCalls.ExitWakesInOrder` | src/kernel/handlers/exit.cc:16-36 | Woken senders are dispatched in their order of arrival unless a later one has a higher priority, and behind queued tasks of at least their priority |
| `KernelCalls.ServiceEffect` | src/kernel/irq_handler.cc:32-105 | One interrupt: its waiter becomes ready with what the interrupt reports (UART 1 for 52, UART 2 for 54, 0 for timers), or that is kept; no other task and no other slot changes |
| `KernelCalls.LinesEffect` | src/kernel/irq_handler.cc:113-117 | So for all lines of a controller from one on |
| `KernelCalls.InterruptEffect` | src/kernel/irq_handler.cc:109-127 | All asserted interrupts together: each waiter of one is ready with what that one reports, what is reported without a waiter is kept, and no other task and no other slot changes |
| `KernelCalls.PreemptedUnchanged` | src/kernel/kernel.cc:21-33 | An interrupted task keeps its register and everything else |
| `KernelRuns.StepKeepsInv` | src/kernel/kernel.cc:155-192 | Every pass of the run loop, whatever user code, system calls and interrupts do, keeps the invariant |
| `KernelRuns.RunKeepsInv` | src/kernel/kernel.cc:155-192 | So does every run; a run that leaves the loop has an empty queue and empty slots |
| `KernelRuns.EveryTaskInItsPlace` | include/kernel/task_descriptor.h:8-32 | In every reachable state each tid is in the ready queue once if it is ready and never otherwise, in the sender list of just the task it sends to if blocked sending, in just its event slot if it awaits one, and a blocked receiver has no waiting senders; the 48-place queue never overflows |
| `KernelRuns.FinishedMeansAllBlocked` | src/kernel/kernel.cc:160-161 | When run() leaves its loop every live task is in SEND_WAIT, RECV_WAIT or REPLY_WAIT |
| `KernelRuns.StopsOnlyWhenTold` | src/kernel/kernel.cc:155-192 | From a reachable state the kernel stops exactly for Shutdown, an unknown call, a bad or doubled AwaitEvent or an unexpected interrupt: no other assertion fails, no queue is ever full |
| `KernelRuns.RequeuedDeadTidIsDoubled` | src/kernel/kernel.cc:25-33 | Were an exited task's tid put back into the queue, the next Create would stop the kernel if the queue then had no room, and would leave that tid queued twice if it takes that tid, once if it takes another |
| `KernelRuns.Boot` | src/kernel/kernel.cc:90-93 | The booted kernel satisfies the invariant with tasks 0 and 1 ready |
| `KernelRuns.BootState` | src/kernel/kernel.cc:90-93 | The whole state after booting: two ready tasks of priority 0 without senders, the name server first in the queue, their parent the impossible tid current_task starts with |
| `KernelMessages.StepKeepsSystem` | src/kernel/swi_handler.cc:55-58 | In every pass, ready tasks hold return values their calls promise, blocked ones the buffer sizes they asked for, and event slots the data of an interrupt that has not been returned yet |
| `KernelMessages.RunKeepsSystem` | src/kernel/kernel.cc:155-192 | So in every run |
| `KernelMessages.NoPlaceholderIsSeen` | src/user/syscalls.c:38-42 | In every run the task dispatched next sees -1, -2 or a length within its reply buffer after Send, so that the assertion ret >= -2 holds; a length within its buffer after Receive; after AwaitEvent what the latest interrupt of that number reported, 0 for timers, with no other return of the event since that interrupt; its own tid after MyTid; and likewise for Reply, Create and MyParentTid |
| `KernelMessages.NoInterruptTwice` | src/kernel/irq_handler.cc:67-104 | Between two returns of an event there is an interrupt of it, the last thing to happen to the event before the second return: no interrupt is delivered twice |
| `KernelMessages.ReturnsAreReports` | src/kernel/irq_handler.cc:32-105 | In every run each return of an event follows the task's own call for it and an interrupt of it on an asserted line, with nothing else for the event in between, and gives what that interrupt reported: the first UART's status for 52, the second's for 54, 0 for timers |
| `KernelMessages.InterruptRecorded` | src/kernel/irq_handler.cc:109-127 | The history that these statements are about gains an interrupt for just the asserted lines, with what the UARTs report |
| `KernelRendezvous.SendKeepsOrder` | src/kernel/handlers/send.cc:29-52 | A Send appends the caller to its receiver's senders, or delivers at once, and leaves others' lists alone |
| `KernelRendezvous.ReceiveKeepsOrder` | src/kernel/handlers/receive.cc:28-55 | A Receive takes the front sender and leaves others' lists alone |
| `KernelRendezvous.ReceivedInArrivalOrder` | src/kernel/handlers/receive.cc:28-55 | Over any run a receiver survives, those waiting before and then arriving are, in order, those received from and then still waiting |
| `KernelRendezvous.SendThenReceive` | src/kernel/handlers/receive.cc:23-57 | The whole state after Send and then Receive on an idle pair |
| `KernelRendezvous.ReceiveThenSend` | src/kernel/handlers/send.cc:58-79 | The whole state after Receive and then Send on an idle pair |
| `KernelRendezvous.LengthsAgree` | src/kernel/handlers/receive.cc:15-23 | The two branches' lengths agree exactly when the buffer length is not negative or the message is empty |
| `KernelRendezvous.EitherOrderMeetsAlike` | src/kernel/handlers/send.cc:25-79 | Over passes of the run loop, for two tasks of one priority at the front of the queue: the two orders end in the same state, but for the sender's unseen placeholder and the last task to run, if and only if the receiver's length is not negative or the message is empty |
| `KernelRendezvous.CallsMeetAlike` | src/kernel/handlers/send.cc:14-79 | For any priorities and queue, the two orders of the calls leave the receiver ready with the smaller length and the sender waiting for the same reply, and the same state but for the sender's placeholder if and only if the receiver's length is not negative or the message is empty |
| `KernelRendezvous.BytesTaken` | src/kernel/handlers/receive.cc:15-40 | What the receiver gets, and how the memory ends, in each of the two orders |
| `KernelRendezvous.NegativeLengthDiffers` | src/kernel/handlers/receive.cc:15-23 | A pair for which the orders differ: one byte sent to a buffer of length -1 stays where it is in one order, and is received in the other |
| `Scheduling.ArrivalMovesBack` | include/common/priority_queue.h:26-31 | An arrival moves a waiting element back by one place if its priority is strictly higher and not at all otherwise |
| `Scheduling.BoundedOvertaking` | src/kernel/kernel.cc:19-33 | Over any run of pushes and pops, an element's rank is its old rank less the pops plus the pushes of strictly higher priority, until it leaves at the pop this count makes its own |
| `Scheduling.AloneInTurn` | src/kernel/kernel.cc:19-33 | With no arrivals a task at rank k is dispatched by the (k + 1)-st pop |
| `KernelFairness.CallArrives` | src/kernel/swi_handler.cc:14-58 | A system call changes the ready queue by arrivals only, namely of the tasks it makes ready |
| `KernelFairness.InterruptArrives` | src/kernel/irq_handler.cc:109-127 | So do interrupts, by the arrivals of the waiters they wake |
| `KernelFairness.StepQueues` | src/kernel/kernel.cc:155-192 | A pass dispatches the front of the queue, if there is one, and otherwise only lets tasks arrive |
| `KernelFairness.RunQueues` | src/kernel/kernel.cc:155-192 | A run of the kernel is a run of pops and pushes that serves the tasks it dispatches |
| `KernelFairness.OvertakenByHigherOnly` | src/kernel/kernel.cc:19-33 | In every run from a reachable state a queued task keeps its turn: its rank falls by one with each dispatch and rises only with arrivals of strictly higher priority, until the dispatch that is its own |
| `Tracks.FindSensor` | src/assignments/t1/track_graph.cc:75-78 | The searching loop ends with the last node that is the sensor, or nothing if none is |
| `Tracks.SensorRoundTrip` | src/assignments/t1/track_graph.cc:23-33 | A sensor node's name leads back to that node only |
| `Tracks.SensorNames` | src/assignments/t1/track_graph.cc:23-33 | The 80 sensor numbers have the names A1 to E16 in this order, and a sensor node matches its own name only |
| `Dijkstra.ShortestPath` | src/assignments/t1/track_graph.cc:195-303 | No path is reported exactly when the end is unreachable, and the panic for a short buffer comes exactly when the path found has more nodes than the buffer; otherwise the buffer holds that path: distinct nodes joined by edges from start to end, none an EXIT, its length the distance, and no walk shorter, also with edges of length zero; both walks back along prev end |
| `Dijkstra.PathBetween` | src/assignments/t1/track_graph.cc:222-303 | As ShortestPath, for two different nodes |
| `Dijkstra.SearchLoop` | src/assignments/t1/track_graph.cc:229-265 | The main loop leaves the arrays as the abstract search does |
| `Dijkstra.FindNearest` | src/assignments/t1/track_graph.cc:231-241 | The inner loop picks the first of the open unvisited nodes with the least label below INT_MAX |
| `Dijkstra.Nearby` | src/assignments/t1/track_graph.cc:231-241 | No open unvisited node has a smaller label |
| `Dijkstra.RelaxEdge` | src/assignments/t1/track_graph.cc:251-264 | One turn of the loop over edges relaxes the edge, without overflow of the sum |
| `Dijkstra.VisitNode` | src/assignments/t1/track_graph.cc:247-264 | Visiting a node relaxes all its edges and no others |
| `Dijkstra.RelaxOk` | src/assignments/t1/track_graph.cc:251-264 | Relaxing an edge keeps the search invariant |
| `Dijkstra.VisitOk` | src/assignments/t1/track_graph.cc:247-248 | Visiting the nearest node keeps the search invariant |
| `Dijkstra.ExpandOk` | src/assignments/t1/track_graph.cc:247-264 | Visiting the nearest node and relaxing its edges keeps the search invariant |
| `Dijkstra.SearchFrom` | src/assignments/t1/track_graph.cc:229-265 | The search ends, with its invariant and the end as the nearest unvisited node or none left |
| `Dijkstra.FirstGap` | src/assignments/t1/track_graph.cc:229-265 | A walk from a visited node to an unvisited one has a first edge out of the visited nodes |
| `Dijkstra.SearchAnswers` | src/assignments/t1/track_graph.cc:267-284 | The search ended at its goal exactly if that is reachable, and then the tree path is a shortest one |
| `Dijkstra.FoundPath` | src/assignments/t1/track_graph.cc:195-303 | The path found is empty exactly when the end is unreachable, and otherwise a shortest one of at most TRACK_MAX nodes |
| `Dijkstra.TreePathOk` | src/assignments/t1/track_graph.cc:274-298 | Following prev from a labelled node reaches the start along distinct nodes, and its length is the label |
| `Dijkstra.CountPath` | src/assignments/t1/track_graph.cc:274-284 | The first walk back ends and counts the nodes of the tree path |
| `Dijkstra.WritePath` | src/assignments/t1/track_graph.cc:291-298 | The second walk back fills the path with the tree path |
| `Routes.SetDirOne` | src/assignments/t1/track_oracle.cc:472-476 | Setting a switch that has an entry sets that switch and no other |
| `Routes.FindBranchDir` | src/assignments/t1/track_graph.cc:36-46 | The scan finds the first entry of the switch |
| `Routes.FirstEntryCounts` | src/assignments/t1/track_graph.cc:36-46 | The direction of a switch is that of its first entry, and there is none only if it has no entry |
| `Routes.FindNextEdge` | src/assignments/t1/track_graph.cc:48-69 | The edge the switches lead along, or none at the end of the track |
| `Routes.LeadsByTheSwitches` | src/assignments/t1/track_graph.cc:48-69 | The switches lead along the straight or the curved edge of a branch as its first entry says, along the only edge of other nodes, and nowhere from the end of the track |
| `Routes.DistanceBetween` | src/assignments/t1/track_graph.cc:91-131 | A distance is found exactly if the switches lead from the one sensor to the other over distinct nodes in at most 41 edges, and it is the length of that way; none at a dead end, back at the start, in another cycle or farther off |
| `Routes.MeasuredIff` | src/assignments/t1/track_graph.cc:107-130 | The loop measures d if and only if there is such a way of length d |
| `Routes.SameWayOn` | src/assignments/t1/track_graph.cc:111-127 | A way that comes to a node twice comes to its end twice, so a measured way does not |
| `Routes.MeasureAlong` | src/assignments/t1/track_graph.cc:111-127 | Along a path the switches lead, the loop measures the path's length exactly if it has at most 41 edges, and gives up otherwise |
| `Routes.TrackOracle.SetBranchDir` | src/assignments/t1/track_oracle.cc:472-501 | The first entry of the switch changes; no entry means a panic |
| `Routes.TrackOracle.SetSwitchAt` | src/assignments/t1/t1.cc:160-212 | One turn of the loop, with the exact conditions of its panics |
| `Routes.TrackOracle.SetSwitches` | src/assignments/t1/t1.cc:155-213 | Along a shortest path no panic is reachable, and afterwards the switches lead along exactly that path; a dry run changes nothing |
| `Routes.TrackOracle.Route` | src/assignments/t1/t1.cc:117-213 | The route command finds a path exactly when there is one, with the exact panic for a short buffer; then following the switches walks the computed path, and distance_between gives the distance of the search exactly when the path has at most 41 edges |
| `Routes.PathNodes` | src/assignments/t1/t1.cc:160-212 | A shortest path between sensors has sensors, branches and merges only, ends in a sensor and passes each branch once |
| `Routes.SwitchTurned` | src/assignments/t1/t1.cc:180-201 | Turning one switch makes it lead along the path and leaves the earlier ones alone |
| `Routes.RoutedDistance` | src/assignments/t1/track_graph.cc:107-130 | The measured distance between the ends of a path the switches lead along is the path's, exactly when it has at most 41 edges |
| `Mirrors.MirrorWalk` | src/assignments/t1/track_node.h:18-30 | A walk reversed through the reverse nodes is a walk of the same length |
| `Mirrors.MirrorSymmetry` | src/assignments/t1/track_graph.cc:195-303 | The shortest distance from a to b is that from the reverse of b to the reverse of a, and both or neither are reachable |
| `Positions.NextSensor` | src/assignments/t1/track_graph.cc:71-89 | The walk ends, with the first sensor the switches lead to and its distance, or nothing at a dead end |
| `Positions.NextSensorIff` | src/assignments/t1/track_graph.cc:71-89 | A sensor and a distance are found if and only if the switches lead to that sensor along that distance without passing another |
| `Positions.NextSensorOk` | src/assignments/t1/track_graph.cc:71-89 | The distance is positive and the sensor is on the track |
| `Positions.SensorWalkComplete` | src/assignments/t1/track_graph.cc:81-88 | If the switches lead to a sensor, the walk finds it |
| `Positions.UnderWayShort` | src/assignments/t1/track_graph.cc:81-88 | A walk without sensors has no more nodes than the track: why the loop ends |
| `Positions.InvertSensor` | src/assignments/t1/track_graph.cc:133-141 | The sensor at the same place for the other direction |
| `Positions.InverseOk` | src/assignments/t1/track_graph.cc:133-141 | Inverting twice gives the sensor back |
| `Positions.PrevSensor` | src/assignments/t1/track_graph.cc:143-152 | The sensor reached backwards and its distance; the panic exactly for unknown sensors |
| `Positions.PrevSensorIff` | src/assignments/t1/track_graph.cc:143-152 | A sensor and a distance are found if and only if, turned round, the switches lead to that sensor turned round along that distance without passing another |
| `Positions.PrevThenNext` | src/assignments/t1/track_graph.cc:143-152 | With prev_sensor(s) = (p, d), the switches lead from p along the same track to s exactly when every branch crossed is set toward it, and then next_sensor(p) = (s, d) |
| `Positions.Normalize` | src/assignments/t1/track_graph.cc:154-181 | The loop ends; for known positions with the normal position, for unknown ones unchanged, or with the panic if the offset is negative |
| `Positions.NormalIsNormal` | src/assignments/t1/track_graph.cc:154-181 | The result lies short of the next sensor, or has nowhere to go; offsets that were not negative stay so |
| `Positions.NormalizeIdempotent` | src/assignments/t1/track_graph.cc:154-181 | Normalizing twice is normalizing once |
| `Positions.NormalizeSamePoint` | src/assignments/t1/track_graph.cc:161-169 | For offsets that are not negative the result names the same point of the track |
| `Positions.NormalizeSamePointBack` | src/assignments/t1/track_graph.cc:170-179 | So for negative offsets, if each step back crosses only branches that are set toward where it came from |
| `Positions.StepBack` | src/assignments/t1/track_graph.cc:170-179 | A step back over such branches leads to a sensor with the old one ahead at the distance stepped, and a position short of it is normal |
| `ClockServers.Server.EnqueueTask` | src/user/tasks/clockserver.cc:61-69 | The task joins behind those with its threshold or an earlier one, or the full queue panics; the assertion about the front holds |
| `ClockServers.Server.WakeDue` | src/user/tasks/clockserver.cc:107-118 | The inner loop pops exactly the tasks whose threshold has come |
| `ClockServers.Server.Handle` | src/user/tasks/clockserver.cc:99-152 | A turn of the server loop answers and changes the queue as the abstract clock does, and keeps every waiting threshold in the future |
| `ClockServers.Server.Serve` | src/user/tasks/clockserver.cc:92-172 | The loop stops exactly for the messages it cannot handle; otherwise every tick was answered with just the delays that end at it, in order of arrival, every delay that has not to wait and every Time at once, and nothing else |
| `ClockServers.DueExactly` | src/user/tasks/clockserver.cc:107-118 | A tick wakes exactly the tasks that wait for it, in their order |
| `ClockServers.TickWakes` | src/user/tasks/clockserver.cc:105-118 | A tick wakes those waiting for it, and leaves those waiting for each later one |
| `ClockServers.StepExact` | src/user/tasks/clockserver.cc:99-152 | One message is handled exactly if it can be, and answered as the earlier messages promise |
| `ClockServers.RunExact` | src/user/tasks/clockserver.cc:92-152 | A run goes through exactly if no message overflows a sum, meets a full queue or fails an assertion, as told from the messages alone; then every message has been answered as the earlier messages promise, and for each later tick those waiting are those accepted for it, in order |
| `ClockServers.DelaysEndOnTime` | src/user/tasks/clockserver.cc:100-151 | In every run a delay accepted for tick t is answered by the message that is tick t |
| `ClockServers.DelayEndsAfter` | src/user/tasks/clockserver.cc:100-151 | In every run a positive Delay(n) made after m ticks, and a DelayUntil(m + n), is answered by tick m + n and not when it is made |
| `UartServers.Transmitter.ClearToSend` | src/user/tasks/uartserver.cc:189-222 | The answer joins the record, and is yes exactly if the transmitter has room and, on COM1, CTS is set, has been seen to rise since it was last seen low, and has been seen low since the last byte, if any, or that byte is more than 25 ticks old; after a yes the handshake holds the time of the byte |
| `UartServers.Transmitter.SendByte` | src/user/tasks/uartserver.cc:331 | After a yes one byte joins the record, on COM1 with the time that was read for it |
| `UartServers.Transmitter.RecordByteSent` | src/user/tasks/uartserver.cc:245-254 | One byte less remains to be flushed; at zero the reply joins the record |
| `UartServers.Transmitter.SeeModem` | src/user/tasks/uartserver.cc:309-322 | What a modem notification does to the handshake, and its sighting of CTS joins the record |
| `UartServers.Transmitter.SendBuffered` | src/user/tasks/uartserver.cc:325-334 | If clear_to_send says yes the oldest buffered byte moves to the wire; otherwise its no is all that joins the record |
| `UartServers.Transmitter.Notify` | src/user/tasks/uartserver.cc:308-344 | A modem notification starts with a look at CTS; then buffered bytes are sent until none is left or clear_to_send says no, which is the last event on record; nothing is lost |
| `UartServers.Transmitter.BufferByte` | include/common/queue.h:21-27 | A buffered byte is an accepted byte, or the buffer is full |
| `UartServers.Transmitter.BufferRest` | src/user/tasks/uartserver.cc:394-428 | The rest of a message is buffered, or panics exactly when it does not fit |
| `UartServers.Transmitter.SendDirectly` | src/user/tasks/uartserver.cc:388-392 | With an empty buffer, bytes go straight to the wire until clear_to_send says no, which is the last event on record |
| `UartServers.Transmitter.ReplyFlush` | src/user/tasks/uartserver.cc:250-251 | The reply is on record with the number of bytes sent before it |
| `UartServers.Transmitter.Putstr` | src/user/tasks/uartserver.cc:374-429 | The payload is accepted whole, behind everything accepted before, or panics exactly when the buffer was not empty and has no room; no flush is pending when the buffer is empty (the assertion at line 385) |
| `UartServers.Transmitter.Flush` | src/user/tasks/uartserver.cc:498-513 | Answered at once when nothing is buffered, otherwise pending for exactly the buffered bytes; a second pending flush panics |
| `UartServers.Transmitter.HandleRequest` | src/user/tasks/uartserver.cc:288-513 | A request panics exactly if it is a payload without room behind a buffer that is not empty, or a second pending flush; otherwise its payload is accepted and it makes the server send as it should |
| `UartServers.Transmitter.Serve` | src/user/tasks/uartserver.cc:285-513 | Over any run, the server goes on exactly as long as requests are acceptable. In every state between requests, wire followed by buffer is the accepted payloads in order; the flushes asked for, each with the bytes accepted before it as told from the requests, are in order those answered, each when just that many bytes were sent, and the pending one; the record is what the hardware showed at its readings; each yes of clear_to_send is spent on one byte; every byte was sent when the line was free; bytes are left by a request that makes the server send only if the line was then not free; and between consecutive COM1 bytes CTS was seen low and later high, or more than 25 ticks passed |
| `UartServers.PhaseMeans` | src/user/tasks/uartserver.cc:308-333 | What has been seen of CTS since the last byte |
| `UartServers.HandshakeMeans` | src/user/tasks/uartserver.cc:189-222 | COM1 waits for CTS to fall exactly if it has not been seen low since the last byte, and to rise exactly if it was seen low and neither seen high nor a byte sent since |
| `UartServers.ClearIff` | src/user/tasks/uartserver.cc:189-222 | clear_to_send says yes exactly if there is room in the transmitter and, on COM1, CTS is set and the handshake, as told from the events, holds nothing back |
| `UartServers.TruthfulJustified` | src/user/tasks/uartserver.cc:189-333 | Everything on record is justified: each yes and no by the flags, the clock and the events before it, each byte by the yes just before it, with a time read after the flags, each sighting of CTS by the flags |
| `UartServers.TrailLeftOver` | src/user/tasks/uartserver.cc:325-344 | A server that had to send leaves bytes only when the transmitter is full, CTS is low, or COM1 waits for CTS to rise or, for at most 25 ticks, to fall |
| `UartServers.TruthfulPaced` | src/user/tasks/uartserver.cc:189-222 | Whatever the hardware shows, the handshake paces COM1 |
| `UartServers.YesesSpent` | src/user/tasks/uartserver.cc:325-332 | The yeses of clear_to_send on record are as many as the bytes |
| `UartServers.ConsecutiveBytes` | src/user/tasks/uartserver.cc:189-222 | In a paced record, between consecutive COM1 bytes CTS was seen low and later high, or more than 25 ticks passed |
| `NameServers.StringArena.Add` | src/kernel/tasks/nameserver.cc:20-28 | The string is stored zero-terminated behind the others, which stay; the panic for a full arena |
| `NameServers.StringArena.Equals` | src/kernel/tasks/nameserver.cc:102 | Comparing with a stored string up to the zeros is comparing the names |
| `NameServers.NameServer.WhoIs` | src/kernel/tasks/nameserver.cc:96-118 | The tid the registry map has for exactly this name, or none |
| `NameServers.NameServer.RegisterAs` | src/kernel/tasks/nameserver.cc:119-155 | The registry map is updated for exactly this name; panics exactly for a full table or a new name that does not fit |
| `NameServers.NameServer.AddEntry` | src/kernel/tasks/nameserver.cc:138-147 | A new name joins the table, stored apart from the others |
| `NameServers.NameServer.Serve` | src/kernel/tasks/nameserver.cc:85-157 | Up to the first Shutdown every request is answered from the registrations before it, and the registry is that of the requests; the server panics exactly if a registration finds the table full or no room for a new name |
| `NameServers.NameServer.Handle` | src/kernel/tasks/nameserver.cc:86-156 | One request: its reply, the new registry, the places taken in the arena, and the exact panic |
| `NameServers.LatestRegistrant` | src/kernel/tasks/nameserver.cc:119-155 | A name is known exactly if it has been registered; it belongs to the task its last registration names, or to the sender if that was the first |
| `NameServers.WhoIsAnswered` | src/kernel/tasks/nameserver.cc:96-155 | Who-is is answered with the sender of the name's only registration before it, or the task that the last of several names; with a failure and -1 if there is none or that task is -1 |
| `NameServers.StillStored` | src/kernel/tasks/nameserver.cc:20-28 | A stored string survives writes behind the end of the arena |
| `Printfs.WriteDigits` | src/common/printf.c:296-303 | The buffer holds the value's numeral, reversed; 32 places are enough for every 32-bit value in every base |
| `Printfs.FillZeros` | src/common/printf.c:234-245 | The zeros of precision and zero padding, and no others |
| `Printfs.AppendSign` | src/common/printf.c:269-279 | The sign wanted, if the buffer has a place for it |
| `Printfs.Format` | src/common/printf.c:232-279 | The buffer holds sign, zeros and digits, reversed |
| `Printfs.OutRev` | src/common/printf.c:204-228 | Blanks to the width on the side the flags say, around the reversed buffer |
| `Printfs.NtoaLong` | src/common/printf.c:286-306 | The output is the layout of the value, for every 32-bit value, precision, width and flags but HASH |
| `Printfs.BlanksPad` | src/common/printf.c:204-228 | The width adds the missing blanks behind the number with LEFT, in front of it without LEFT and ZEROPAD |
| `Printfs.ZerosPad` | src/common/printf.c:236-245 | With ZEROPAD and without LEFT it adds the missing zeros between the sign and the rest, up to a width of 32 |
| `Printfs.SignInFront` | src/common/printf.c:269-279 | The sign stands in front: minus for a negative number, else plus, else a blank, as the flags ask |
| `Printfs.PrecisionFills` | src/common/printf.c:239-241 | The precision adds zeros in front of the digits, to 32 places at most, and none with LEFT |
| `Printfs.NumeralReads` | src/common/printf.c:298-302 | A numeral reads back as its value, whatever follows it |
| `Printfs.NumeralShape` | src/common/printf.c:298-302 | A numeral is made of digits, with letters in the case asked for, and starts with 0 only for 0 |
| `Printfs.PrintedReadsBack` | src/common/printf.c:232-306 | What is printed reads back as the value, for every base, precision, width and flags; the minus sign reads back exactly when it found a place |
| `Printfs.SignLost` | src/common/printf.c:269-279 | The sign of -5 printed with precision 32 does not read back |
| `Printfs.NumeralLength` | src/common/printf.c:302 | A value below 2^n has at most n digits |
| `Printfs.PrintedLength` | src/common/printf.c:204-306 | With precision below 32 and width at most 32 the length is the larger of the width and the characters needed, if and only if the digits do not fill the buffer or no sign is wanted |
| `Printfs.WordLength` | src/common/printf.c:204-306 | So for every 32-bit value in bases 8, 10 and 16, and for those below 2^31 in base 2, the length is the larger of the width and the characters needed |
| `Printfs.ZeroWithPrecision` | src/common/printf.c:296-297 | Zero with explicit precision 0 prints no digits, except exactly when zero padding fills a width |
| `Printfs.Atoi` | src/common/printf.c:193-200 | The digits at the head of the string are taken, and their value comes back modulo 2^32 |
| `Printfs.PrintedDigitsRead` | src/common/printf.c:193-200 | From behind its blanks and sign, whatever is printed reads as the value |
| `Printfs.PrintAndRead` | src/common/printf.c:193-306 | In base 10 _atoi recovers every word that _ntoa_long prints, at any precision and width and with any flags |

## Left out

- PriorityQueues.PriorityQueue.Push: tickets are unbounded; the wrap-around of the 32-bit counter after 2^32 pushes, where FIFO order is lost (docs/k1/kernel.md:70), is not modelled.
- PriorityQueues.PushHeap: the library's heap operations are written out as sift-up and sift-down, following sections 25.4.6.1 and 25.4.6.2 of ISO/IEC 14882:2011; the library's own code is not part of this model.
- Positions.NormalizeSamePointBack: one direction only; when a step back crosses a branch that is set the other way, the walk forward takes the other arm, and whether it still comes to the old sensor is up to the track.
- Printfs.PrintedReadsBack: the HASH flag is not modelled, because src/common/printf.c:249-253 can drop digits of the value; nor are floats, format strings, variable arguments, 64-bit values and truncation at `maxlen`.
- ClockServers.Server.Serve: an overflow of the tick count or of a threshold, which the language leaves undefined, ends the run; the Shutdown request and the notifier task are not modelled.
- UartServers.Transmitter.Serve: one channel at a time; receiving (Getn and Drain), Shutdown and the enabling of interrupts are not modelled. Flags and time are arbitrary functions of the number of readings; pacing is stated for clocks that never run backwards, and payloads fit the request buffer, as the client asserts. Replies to Putstr, sent at once, are not on record.
- NameServers.NameServer.Serve: names are zero-terminated with at most 127 characters and their stated length is right, as the client functions see to; malformed messages are not modelled.
- Kernels.Kernel.HandleSyscall: the idle time that Perf reports is an input, and its counters are not modelled; Shutdown ends the run.
- Kernels.Kernel.Activate: the context switch in assembly, stacks, caches and protection are replaced by one return register per task, a byte map as memory and arbitrary user code between traps.
- Kernels.Kernel.Initialize: device and interrupt-controller set-up are not modelled; interrupts are inputs.
- Kernels.Kernel.SendToWaiting: copies read all source bytes first; overlapping buffers, which memcpy does not allow, are not excluded but not meant either.
- A panic or failed assertion of the kernel is a stop of the model; kprintf, bwio, logs and the user interface have no counterpart.
- The tables of the two physical tracks: replaced by predicates (edge lengths between 0 and 14 kilometres, so that sums fit in an int; distinct arms; distinct numbers; mirrored edges; no cycle without a sensor; positive distances between sensors; a switch entry for each branch).
- Routes.TrackOracle.SetBranchDir: the command sent to the track and the recomputed arrival estimates of the trains, which rest on measured velocities, are not modelled.
- Routes.TrackOracle.Route: from a known train position; the validity checks, the attempt after reversing the train and everything after the loop are not modelled. The path buffer may have any length; with the source's 64 places a longer path is a panic.
- src/assignments/t2: an unfinished copy of the same programs.
- Command parsing, the calibration data, the rock-paper-scissors demo and the other demo programs.
