/** What the kernel does, without linked lists, arrays or heaps: each receiver has a sequence of
    waiting senders, and the ready queue is a sequence of tids in dispatching order. */
module KernelModel {
  import opened Options
  import opened Integers
  import opened PriorityQueues

  const MAX_SCHEDULED_TASKS: nat := 48
  const INVALID_PRIORITY := -1
  const OUT_OF_TASK_DESCRIPTORS := -2
  /** The value of current_task before the first dispatch: (size_t)-1. */
  const NOBODY: nat := 0xFFFF_FFFF

  type Tid = nat
  type Address = nat // 0 is the null pointer
  type Byte = x: int | 0 <= x < 0x100

  // ---------------------------------------------------------------------------------------------
  // User memory.

  type Memory = map<Address, Byte>

  function Load(mem: Memory, p: Address, n: nat): seq<Byte> {
    seq(n, i requires 0 <= i < n => if p + i in mem then mem[p + i] else 0)
  }

  predicate InRange(a: Address, p: Address, n: nat) { p <= a < p + n }

  function Store(mem: Memory, p: Address, bytes: seq<Byte>): Memory {
    mem + (map a | p <= a < p + |bytes| && InRange(a, p, |bytes|) :: bytes[a - p])
  }

  /** memcpy, skipped when either pointer is null. */
  function CopyIfPresent(mem: Memory, to: Address, from: Address, n: nat): Memory {
    if to != 0 && from != 0 then Store(mem, to, Load(mem, from, n)) else mem
  }

  /** The four bytes of an int, least significant first. */
  function WordBytes(w: nat): seq<Byte> {
    [w % 0x100, w / 0x100 % 0x100, w / 0x1_0000 % 0x100, w / 0x100_0000 % 0x100]
  }

  function StoreWordIfPresent(mem: Memory, p: Address, w: nat): Memory {
    if p != 0 then Store(mem, p, WordBytes(w)) else mem
  }

  // ---------------------------------------------------------------------------------------------
  // State.

  datatype RunState =
    | Ready
    | SendWait(to: Tid, msg: Address, msglen: nat, reply: Address, rplen: nat)
    | RecvWait(tidOut: Address, buf: Address, len: nat)
    | ReplyWait(reply: Address, rplen: nat)
    | EventWait(id: nat)

  /** `senders` are the tasks blocked sending to this one, in arrival order; `ret` is the register
      a system call returns in. */
  datatype Task = Task(priority: nat, parent: Option<nat>, state: RunState, senders: seq<Tid>, ret: int)

  datatype Slot = Waiter(tid: Tid) | Data(raw: Int32)

  datatype Kernel = Kernel(
    tasks: map<Tid, Task>,
    ready: seq<Item<Tid>>,
    events: map<nat, Slot>,
    current: nat,
    mem: Memory)

  datatype Outcome = Running(k: Kernel) | Halted

  /** `idlePct` is what the kernel has measured of its idle time. */
  datatype Call =
    | Yield
    | Exit
    | MyParentTid
    | MyTid
    | Create(priority: Int32)
    | Send(to: Int32, msg: Address, mlen: Int32, reply: Address, rlen: Int32)
    | Receive(tidOut: Address, buf: Address, len: Int32)
    | Reply(to: Int32, reply: Address, rlen: Int32)
    | AwaitEvent(id: Int32)
    | Perf(p: Address, idlePct: nat)
    | Shutdown
    | Unknown

  type Lines = s: seq<bool> | |s| == 32 witness seq(32, _ => false)

  /** Which interrupt lines are asserted, and what the two UARTs report. */
  datatype Interrupts = Interrupts(vic1: Lines, vic2: Lines, uart1: Int32, uart2: Int32)

  /** The second controller's lines are the interrupts from 32 on. */
  predicate Asserted(irq: Interrupts, no: nat) {
    if no < 32 then irq.vic1[no] else no < 64 && irq.vic2[no - 32]
  }

  /** Why user code stopped running; after an interrupt r0 is whatever the task left in it. */
  datatype Trap = Swi(call: Call) | Irq(r0: int, irq: Interrupts)

  /** One pass of the run loop: what the dispatched task does, or the interrupts that end idling. */
  datatype Input = Input(mem: Memory, trap: Trap, idle: Interrupts)

  // ---------------------------------------------------------------------------------------------
  // Steps.

  /** The conversion of an int to size_t. */
  function ToSize(n: Int32): nat { if n < 0 then n + 0x1_0000_0000 else n }

  function Push(ready: seq<Item<Tid>>, tid: Tid, priority: nat): seq<Item<Tid>> {
    if |ready| < MAX_SCHEDULED_TASKS then Insert(ready, Item(priority, tid)) else ready
  }

  function SetTask(k: Kernel, tid: Tid, task: Task): Kernel {
    k.(tasks := k.tasks[tid := task])
  }

  function WriteReturn(k: Kernel, tid: Tid, value: int): Kernel
    requires tid in k.tasks
  {
    SetTask(k, tid, k.tasks[tid].(ret := value))
  }

  function NextTid(tasks: map<Tid, Task>, from: nat): (r: Option<Tid>)
    requires from <= MAX_SCHEDULED_TASKS
    ensures r.None? ==> forall t :: from <= t < MAX_SCHEDULED_TASKS ==> t in tasks
    ensures r.Some? ==> from <= r.value < MAX_SCHEDULED_TASKS && r.value !in tasks
    ensures r.Some? ==> forall t :: from <= t < r.value ==> t in tasks
    decreases MAX_SCHEDULED_TASKS - from
  {
    if from == MAX_SCHEDULED_TASKS then None
    else if from !in tasks then Some(from)
    else NextTid(tasks, from + 1)
  }

  function AddTask(k: Kernel, tid: Tid, priority: nat): Kernel {
    SetTask(k, tid, Task(priority, Some(k.current), Ready, [], 0)).(ready := Push(k.ready, tid, priority))
  }

  function CreateTaskStep(k: Kernel, priority: nat, forceTid: Option<Tid>): (Outcome, int) {
    match NextTid(k.tasks, 0)
    case None => (Running(k), OUT_OF_TASK_DESCRIPTORS)
    case Some(freshTid) =>
      var tid := if forceTid.Some? then forceTid.value else freshTid;
      if tid in k.tasks || |k.ready| >= MAX_SCHEDULED_TASKS then (Halted, 0)
      else (Running(AddTask(k, tid, priority)), tid)
  }

  function CreateStep(k: Kernel, priority: Int32): (Outcome, int) {
    if priority < 0 then (Running(k), INVALID_PRIORITY) else CreateTaskStep(k, priority, None)
  }

  /** A message meets a receiver that is already waiting for one. */
  function Deliver(k: Kernel, to: Tid, msg: Address, msglen: nat, reply: Address, rplen: nat): Kernel
    requires k.current in k.tasks && to in k.tasks && k.tasks[to].state.RecvWait?
  {
    var receiver := k.tasks[to];
    var n := Min(msglen, receiver.state.len);
    var mem := CopyIfPresent(k.mem, receiver.state.buf, msg, n);
    var k1 := k.(mem := StoreWordIfPresent(mem, receiver.state.tidOut, k.current));
    var k2 := SetTask(k1, to, receiver.(state := Ready, ret := n));
    var k3 := k2.(ready := Push(k.ready, to, receiver.priority));
    SetTask(k3, k.current, k3.tasks[k.current].(state := ReplyWait(reply, rplen)))
  }

  /** A sender queues up behind the receiver's other senders. */
  function Enqueue(k: Kernel, to: Tid, msg: Address, msglen: nat, reply: Address, rplen: nat): Kernel
    requires k.current in k.tasks && to in k.tasks
  {
    var k1 := SetTask(k, k.current, k.tasks[k.current].(state := SendWait(to, msg, msglen, reply, rplen)));
    SetTask(k1, to, k1.tasks[to].(senders := k1.tasks[to].senders + [k.current]))
  }

  function SendStep(k: Kernel, to: Int32, msg: Address, mlen: Int32, reply: Address, rlen: Int32): (Kernel, int)
    requires k.current in k.tasks
  {
    if to < 0 || to >= MAX_SCHEDULED_TASKS || to !in k.tasks then (k, -1)
    else if k.tasks[to].state.RecvWait? then (Deliver(k, to, msg, Max(mlen, 0), reply, Max(rlen, 0)), -3)
    else (Enqueue(k, to, msg, Max(mlen, 0), reply, Max(rlen, 0)), -4)
  }

  ghost predicate FrontSenderWaits(k: Kernel, r: Tid) {
    r in k.tasks && (k.tasks[r].senders != [] ==>
      k.tasks[r].senders[0] in k.tasks && k.tasks[k.tasks[r].senders[0]].state.SendWait?
      && k.tasks[r].senders[0] != r)
  }

  /** The running task takes the message of its first waiting sender. */
  function Take(k: Kernel, tidOut: Address, buf: Address, len: nat): (Kernel, int)
    requires FrontSenderWaits(k, k.current) && k.tasks[k.current].senders != []
  {
    var receiver := k.tasks[k.current];
    var from := receiver.senders[0];
    var sender := k.tasks[from];
    var n := Min(sender.state.msglen, len);
    var mem := CopyIfPresent(k.mem, buf, sender.state.msg, n);
    var k1 := k.(mem := StoreWordIfPresent(mem, tidOut, from));
    var k2 := SetTask(k1, from, sender.(state := ReplyWait(sender.state.reply, sender.state.rplen)));
    (SetTask(k2, k.current, receiver.(senders := receiver.senders[1..])), n)
  }

  function ReceiveStep(k: Kernel, tidOut: Address, buf: Address, len: Int32): (Kernel, int)
    requires FrontSenderWaits(k, k.current)
  {
    var receiver := k.tasks[k.current];
    if !receiver.state.Ready? then (k, -1)
    else if receiver.senders == [] then
      (SetTask(k, k.current, receiver.(state := RecvWait(tidOut, buf, ToSize(len)))), -3)
    else Take(k, tidOut, buf, Max(len, 0))
  }

  function ReplyStep(k: Kernel, to: Int32, reply: Address, rlen: Int32): (Kernel, int) {
    if to < 0 || to >= MAX_SCHEDULED_TASKS || to !in k.tasks then (k, -1)
    else
      var task := k.tasks[to];
      if !task.state.ReplyWait? then (k, -2)
      else
        var n := Min(task.state.rplen, Max(rlen, 0));
        var k1 := k.(mem := CopyIfPresent(k.mem, task.state.reply, reply, n));
        (SetTask(k1, to, task.(state := Ready, ret := n)).(ready := Push(k.ready, to, task.priority)), n)
  }

  predicate IsEvent(id: int) { id in {4, 5, 51, 52, 54} }

  function AwaitStep(k: Kernel, id: Int32): (Outcome, int)
    requires k.current in k.tasks
  {
    if !IsEvent(id) then (Halted, 0)
    else if id in k.events then
      match k.events[id]
      case Waiter(_) => (Halted, 0)
      case Data(raw) => (Running(k.(events := k.events - {id})), raw)
    else
      var k1 := k.(events := k.events[id := Waiter(k.current)]);
      (Running(SetTask(k1, k.current, k1.tasks[k.current].(state := EventWait(id)))), -3)
  }

  /** Sends -2 to the tasks in `list` and makes them ready, in that order. */
  function WakeAll(k: Kernel, list: seq<Tid>): Outcome
    requires forall s :: s in list ==> s in k.tasks
    decreases |list|
  {
    if list == [] then Running(k)
    else if |k.ready| >= MAX_SCHEDULED_TASKS then Halted
    else
      var task := k.tasks[list[0]];
      var k1 := SetTask(k, list[0], task.(state := Ready, ret := -2));
      WakeAll(k1.(ready := Push(k.ready, list[0], task.priority)), list[1..])
  }

  function ExitStep(k: Kernel): Outcome
    requires k.current in k.tasks && forall s :: s in k.tasks[k.current].senders ==> s in k.tasks
  {
    var task := k.tasks[k.current];
    match WakeAll(SetTask(k, k.current, task.(parent := None, senders := [])), task.senders)
    case Halted => Halted
    case Running(k1) => Running(k1.(tasks := k1.tasks - {k.current}))
  }

  ghost predicate WaitersLive(k: Kernel) {
    forall id :: id in k.events && k.events[id].Waiter? ==> k.events[id].tid in k.tasks
  }

  /** The task waiting in slot `no` wakes with the data of the interrupt. */
  function WakeWaiter(k: Kernel, no: nat, raw: Int32): Kernel
    requires no in k.events && k.events[no].Waiter? && k.events[no].tid in k.tasks
  {
    var tid := k.events[no].tid;
    var task := k.tasks[tid];
    var k1 := SetTask(k.(events := k.events - {no}), tid, task.(state := Ready, ret := raw));
    k1.(ready := Push(k.ready, tid, task.priority))
  }

  /** What AwaitEvent returns: timers have no data. */
  function EventData(no: nat, irq: Interrupts): Int32 {
    if no == 52 then irq.uart1 else if no == 54 then irq.uart2 else 0
  }

  /** One interrupt line is serviced: its waiter wakes with the data, or the data is kept. */
  function ServiceStep(k: Kernel, no: nat, irq: Interrupts): Outcome
    requires WaitersLive(k)
  {
    if !IsEvent(no) then Halted
    else if no in k.events && k.events[no].Waiter? then
      if |k.ready| >= MAX_SCHEDULED_TASKS then Halted else Running(WakeWaiter(k, no, EventData(no, irq)))
    else Running(k.(events := k.events[no := Data(EventData(no, irq))]))
  }

  /** The lines from number `from` on, of the controller whose first line is interrupt `base`. */
  function ServiceLines(k: Kernel, lines: Lines, base: nat, from: nat, irq: Interrupts): Outcome
    requires from <= 32 && WaitersLive(k)
    decreases 32 - from
  {
    if from == 32 then Running(k)
    else if !lines[from] then ServiceLines(k, lines, base, from + 1, irq)
    else match ServiceStep(k, base + from, irq)
      case Halted => Halted
      case Running(k1) => ServiceLines(k1, lines, base, from + 1, irq)
  }

  lemma {:induction false} ServiceLinesWaitersLive(k: Kernel, lines: Lines, base: nat, from: nat, irq: Interrupts)
    requires from <= 32 && WaitersLive(k)
    ensures var r := ServiceLines(k, lines, base, from, irq); r.Running? ==> WaitersLive(r.k)
    decreases 32 - from
  {
    if from == 32 {
    } else {
      if !lines[from] {
        ServiceLinesWaitersLive(k, lines, base, from + 1, irq);
      } else if ServiceStep(k, base + from, irq).Running? {
        ServiceLinesWaitersLive(ServiceStep(k, base + from, irq).k, lines, base, from + 1, irq);
      }
    }
  }

  function InterruptStep(k: Kernel, irq: Interrupts): Outcome
    requires WaitersLive(k)
  {
    match ServiceLines(k, irq.vic1, 0, 0, irq)
    case Halted => Halted
    case Running(k1) =>
      ServiceLinesWaitersLive(k, irq.vic1, 0, 0, irq);
      ServiceLines(k1, irq.vic2, 32, 0, irq)
  }

  function Returning(o: (Outcome, int), tid: Tid): Outcome
    requires o.0.Running? ==> tid in o.0.k.tasks
  {
    if o.0.Running? then Running(WriteReturn(o.0.k, tid, o.1)) else Halted
  }

  ghost predicate CallerOk(k: Kernel) {
    && FrontSenderWaits(k, k.current)
    && (forall s :: s in k.tasks[k.current].senders ==> s in k.tasks)
  }

  function ParentTid(task: Task): int { if task.parent.Some? then AsInt(task.parent.value) else -1 }

  function CallStep(k: Kernel, call: Call): Outcome
    requires CallerOk(k)
  {
    match call
    case Yield => Running(k)
    case Exit => ExitStep(k)
    case MyParentTid =>
      Running(WriteReturn(k, k.current, ParentTid(k.tasks[k.current])))
    case MyTid => Running(WriteReturn(k, k.current, AsInt(k.current)))
    case Create(priority) => Returning(CreateStep(k, priority), k.current)
    case Send(to, msg, mlen, reply, rlen) =>
      var (k1, ret) := SendStep(k, to, msg, mlen, reply, rlen);
      Running(WriteReturn(k1, k.current, ret))
    case Receive(tidOut, buf, len) =>
      var (k1, ret) := ReceiveStep(k, tidOut, buf, len);
      Running(WriteReturn(k1, k.current, ret))
    case Reply(to, reply, rlen) =>
      var (k1, ret) := ReplyStep(k, to, reply, rlen);
      Running(WriteReturn(k1, k.current, ret))
    case AwaitEvent(id) => Returning(AwaitStep(k, id), k.current)
    case Perf(p, idlePct) => Running(k.(mem := StoreWordIfPresent(k.mem, p, idlePct)))
    case Shutdown => Halted
    case Unknown => Halted
  }

  /** The conversion of a 32-bit size_t to int. */
  function AsInt(n: nat): int { if n >= 0x8000_0000 then n - 0x1_0000_0000 else n }

  /** The end of activate(): a task that is still ready goes back to the queue. */
  function Requeue(k: Kernel): Outcome {
    if k.current in k.tasks && k.tasks[k.current].state.Ready? then
      if |k.ready| >= MAX_SCHEDULED_TASKS then Halted
      else Running(k.(ready := Push(k.ready, k.current, k.tasks[k.current].priority)))
    else Running(k)
  }

  function TrapStep(k: Kernel, trap: Trap): Outcome
    requires CallerOk(k) && WaitersLive(k)
  {
    match trap
    case Swi(call) => CallStep(k, call)
    case Irq(r0, irq) => InterruptStep(WriteReturn(k, k.current, r0), irq)
  }
}
