/** The kernel as it is written: a task table with linked sender lists, event slots and a heap,
    all updated in place. Every handler is shown to do what the model's step does. */
module Kernels {
  import opened Options
  import opened Integers
  import opened Sequences
  import opened PriorityQueues
  import opened OptArrays
  import opened KernelModel
  import opened KernelInvariant
  import opened KernelRuns
  import opened KernelLinks

  ghost predicate SlotsMatch(slots: seq<Option<Slot>>, events: map<nat, Slot>) {
    && |slots| == 64
    && (forall id :: 0 <= id < 64 ==> (slots[id].Some? <==> id in events))
    && (forall id :: id in events ==> id < 64 && slots[id] == Some(events[id]))
  }

  lemma NoSlots(slots: seq<Option<Slot>>, events: map<nat, Slot>)
    requires SlotsMatch(slots, events)
    ensures CountPresent(slots) == 0 <==> events == map[]
  {
    CountZero(slots);
    if events != map[] {
      var id :| id in events;
      assert slots[id].Some?;
    }
  }

  class Kernel {
    const tasks: array<Option<TaskDescriptor>>
    const eventQueue: OptArray<Slot>
    const readyQueue: PriorityQueue<Tid>
    var currentTask: nat
    var mem: Memory
    /** The state of the model that this object represents. */
    ghost var abs: KernelModel.Kernel

    ghost predicate Valid()
      reads this, tasks, eventQueue, eventQueue.arr, readyQueue, readyQueue.arr
    {
      && tasks as object != eventQueue.arr && tasks as object != readyQueue.arr
      && eventQueue.arr as object != readyQueue.arr
      && TableShows(tasks[..], abs.tasks)
      && readyQueue.Valid() && readyQueue.arr.Length == MAX_SCHEDULED_TASKS && readyQueue.Items() == abs.ready
      && eventQueue.Valid() && SlotsMatch(eventQueue.arr[..], abs.events)
      && currentTask == abs.current && mem == abs.mem
    }

    /** Valid, with the running task still as its trap left it. */
    ghost predicate Trapped()
      reads this, tasks, eventQueue, eventQueue.arr, readyQueue, readyQueue.arr
    {
      Valid() && InvRunning(abs)
    }

    /** The kernel before initialize() creates its first tasks. */
    constructor Empty(m: Memory)
      ensures Valid() && abs == KernelModel.Kernel(map[], [], map[], NOBODY, m)
      ensures fresh(tasks) && fresh(eventQueue) && fresh(eventQueue.arr) && fresh(readyQueue) && fresh(readyQueue.arr)
    {
      tasks := new Option<TaskDescriptor>[MAX_SCHEDULED_TASKS](_ => None);
      eventQueue := new OptArray(64);
      readyQueue := new PriorityQueue(MAX_SCHEDULED_TASKS);
      currentTask := NOBODY;
      mem := m;
      abs := KernelModel.Kernel(map[], [], map[], NOBODY, m);
    }

    /** initialize(): the name server at tid 1, then the first user task. */
    method Initialize()
      requires Valid() && abs == KernelModel.Kernel(map[], [], map[], NOBODY, mem)
      modifies this`abs, tasks, readyQueue, readyQueue.arr
      ensures Valid() && abs == Boot(mem)
    {
      BootSteps(abs);
      hide Valid, CreateTaskStep, CreateStep, Boot, SendersOk;
      var nameServer := CreateTask(0, Some(1));
      var firstUserTask := Create(0);
    }

    /** Writes a descriptor that stays where it is in the sender lists. */
    method SetDescriptor(tid: Tid, d: TaskDescriptor, ghost task: Task)
      requires Valid() && tid in abs.tasks && task.senders == abs.tasks[tid].senders && Matches(d, tid, task)
      requires (forall r :: !Listed(abs.tasks, tid, r))
               || NextOf(tasks[..][tid := Some(d)], tid) == NextOf(tasks[..], tid)
      modifies this`abs, tasks
      ensures Valid() && abs == SetTask(old(abs), tid, task) && tasks[..] == old(tasks[..])[tid := Some(d)]
    {
      UpdateRepresents(tasks[..], abs.tasks, tid, d, task);
      ghost var ts := tasks[..][tid := Some(d)];
      tasks[tid] := Some(d);
      assert tasks[..] == ts;
      abs := SetTask(abs, tid, task);
    }

    method PushReady(tid: Tid, priority: nat) returns (ok: bool)
      requires Valid()
      modifies this`abs, readyQueue, readyQueue.arr
      ensures Valid() && abs == old(abs).(ready := KernelModel.Push(old(abs).ready, tid, priority))
      ensures ok == (|old(abs).ready| < MAX_SCHEDULED_TASKS)
    {
      ok := readyQueue.Push(tid, priority);
      abs := abs.(ready := KernelModel.Push(abs.ready, tid, priority));
    }

    method SetMemory(m: Memory)
      requires Valid()
      modifies this`abs, this`mem
      ensures Valid() && abs == old(abs).(mem := m)
    {
      mem := m;
      abs := abs.(mem := m);
    }

    method WriteReturn(tid: Tid, value: int)
      requires Valid() && tid in abs.tasks
      modifies this`abs, tasks
      ensures Valid() && abs == KernelModel.WriteReturn(old(abs), tid, value)
    {
      SetDescriptor(tid, tasks[tid].value.(ret := value), abs.tasks[tid].(ret := value));
    }

    method NextTid() returns (r: Option<Tid>)
      requires Valid()
      ensures r == KernelModel.NextTid(abs.tasks, 0)
    {
      var tid: nat := 0;
      while tid < MAX_SCHEDULED_TASKS
        invariant tid <= MAX_SCHEDULED_TASKS
        invariant KernelModel.NextTid(abs.tasks, 0) == KernelModel.NextTid(abs.tasks, tid)
      {
        assert tasks[..][tid] == tasks[tid];
        if !tasks[tid].Some? { return Some(tid); }
        tid := tid + 1;
      }
      return None;
    }

    /** No result means that the kernel panicked. */
    method CreateTask(priority: nat, forceTid: Option<Tid>) returns (r: Option<int>)
      requires Valid() && SendersOk(abs.tasks)
      requires forceTid.Some? ==> forceTid.value < MAX_SCHEDULED_TASKS
      modifies this`abs, tasks, readyQueue, readyQueue.arr
      ensures var (o, ret) := CreateTaskStep(old(abs), priority, forceTid);
              if o.Halted? then r == None else Valid() && abs == o.k && r == Some(ret)
    {
      hide SlotsMatch, SendersOk;
      var freshTid := NextTid();
      if !freshTid.Some? { return Some(OUT_OF_TASK_DESCRIPTORS); }
      var tid := freshTid.value;
      if forceTid.Some? { tid := forceTid.value; }
      r := CreateAt(tid, priority);
    }

    method CreateAt(tid: Tid, priority: nat) returns (r: Option<int>)
      requires Valid() && SendersOk(abs.tasks) && tid < MAX_SCHEDULED_TASKS
      modifies this`abs, tasks, readyQueue, readyQueue.arr
      ensures if tid in old(abs).tasks || |old(abs).ready| >= MAX_SCHEDULED_TASKS then r == None
              else Valid() && abs == AddTask(old(abs), tid, priority) && r == Some(tid)
    {
      assert tasks[..][tid] == tasks[tid];
      if tasks[tid].Some? { return None; }
      var ok := PushReady(tid, priority);
      if !ok { return None; }
      AddDescriptor(tid, priority);
      return Some(tid);
    }

    method AddDescriptor(tid: Tid, priority: nat)
      requires Valid() && SendersOk(abs.tasks) && tid < MAX_SCHEDULED_TASKS && tid !in abs.tasks
      modifies this`abs, tasks
      ensures Valid() && abs == SetTask(old(abs), tid, Task(priority, Some(old(abs).current), Ready, [], 0))
    {
      var d := TaskDescriptor(tid, None, None, priority, READY, Some(currentTask), 0);
      ghost var task := Task(priority, Some(abs.current), Ready, [], 0);
      NotListed(abs.tasks, tid);
      NewRepresents(tasks[..], abs.tasks, tid, d, task);
      ghost var ts := tasks[..][tid := Some(d)];
      tasks[tid] := Some(d);
      assert tasks[..] == ts;
      abs := SetTask(abs, tid, task);
    }

    method Create(priority: Int32) returns (r: Option<int>)
      requires Valid() && SendersOk(abs.tasks)
      modifies this`abs, tasks, readyQueue, readyQueue.arr
      ensures var (o, ret) := CreateStep(old(abs), priority);
              if o.Halted? then r == None else Valid() && abs == o.k && r == Some(ret)
    {
      if priority < 0 { return Some(INVALID_PRIORITY); }
      r := CreateTask(priority, None);
    }

    /** The branch of Send for a receiver that is waiting. */
    method SendToWaiting(receiverTid: Tid, msg: Address, msglen: nat, reply: Address, rplen: nat)
      requires Trapped() && receiverTid in abs.tasks && abs.tasks[receiverTid].state.RecvWait?
      modifies this, tasks, readyQueue, readyQueue.arr
      ensures Valid() && abs == Deliver(old(abs), receiverTid, msg, msglen, reply, rplen)
    {
      hide SlotsMatch, QueueOk, EventsOk, Linked;
      ghost var k := abs;
      NotListed(k.tasks, receiverTid);
      NotListed(k.tasks, currentTask);
      var receiver := tasks[receiverTid].value;
      var n := Min(msglen, receiver.state.len);
      SetMemory(CopyIfPresent(mem, receiver.state.recvBuf, msg, n));
      SetMemory(StoreWordIfPresent(mem, receiver.state.tid, currentTask));
      SetDescriptor(receiverTid, receiver.(state := READY, ret := n), k.tasks[receiverTid].(state := Ready, ret := n));
      assert forall r :: Listed(abs.tasks, currentTask, r) <==> Listed(k.tasks, currentTask, r);
      var _ := PushReady(receiverTid, receiver.priority);
      var sender := tasks[currentTask].value;
      SetDescriptor(currentTask, sender.(state := REPLY_WAIT(reply, rplen)),
                    abs.tasks[currentTask].(state := ReplyWait(reply, rplen)));
    }

    /** The branch of Send for a receiver that is busy. */
    method SendToBusy(receiverTid: Tid, msg: Address, msglen: nat, reply: Address, rplen: nat)
      requires Trapped() && receiverTid in abs.tasks && !abs.tasks[receiverTid].state.RecvWait?
      modifies this`abs, tasks
      ensures Valid() && abs == Enqueue(old(abs), receiverTid, msg, msglen, reply, rplen)
    {
      ghost var k := abs;
      NotListed(k.tasks, currentTask);
      SetDescriptor(currentTask, tasks[currentTask].value.(state := SEND_WAIT(msg, msglen, reply, rplen, None)),
                    k.tasks[currentTask].(state := SendWait(receiverTid, msg, msglen, reply, rplen)));
      BusyAppend(k, tasks[..], abs.tasks, receiverTid);
      AppendSender(receiverTid, currentTask);
    }

    /** Puts `senderTid` behind the other senders of `receiverTid`. */
    method AppendSender(receiverTid: Tid, senderTid: Tid)
      requires Valid() && receiverTid in abs.tasks && senderTid in abs.tasks
      requires abs.tasks[receiverTid].senders != [] ==> TailReady(tasks[..], receiverTid)
      requires TableShows(Appended(tasks[..], receiverTid, senderTid),
        abs.tasks[receiverTid := abs.tasks[receiverTid].(senders := abs.tasks[receiverTid].senders + [senderTid])])
      modifies this`abs, tasks
      ensures Valid() && abs == SetTask(old(abs), receiverTid,
        old(abs).tasks[receiverTid].(senders := old(abs).tasks[receiverTid].senders + [senderTid]))
    {
      ghost var ts := tasks[..];
      var receiver := tasks[receiverTid].value;
      if !receiver.sendQueueHead.Some? {
        tasks[receiverTid] := Some(receiver.(sendQueueHead := Some(senderTid), sendQueueTail := Some(senderTid)));
      } else {
        var tail := receiver.sendQueueTail.value;
        var oldTail := tasks[tail].value;
        assert oldTail.state.SEND_WAIT? && !oldTail.state.next.Some?;
        tasks[tail] := Some(oldTail.(state := oldTail.state.(next := Some(senderTid))));
        tasks[receiverTid] := Some(tasks[receiverTid].value.(sendQueueTail := Some(senderTid)));
      }
      assert tasks[..] == Appended(ts, receiverTid, senderTid);
      abs := SetTask(abs, receiverTid,
        abs.tasks[receiverTid].(senders := abs.tasks[receiverTid].senders + [senderTid]));
    }

    method Send(receiverTid: Int32, msg: Address, mlen: Int32, reply: Address, rlen: Int32) returns (ret: int)
      requires Trapped()
      modifies this, tasks, readyQueue, readyQueue.arr
      ensures Valid() && (abs, ret) == SendStep(old(abs), receiverTid, msg, mlen, reply, rlen)
    {
      if receiverTid < 0 || receiverTid >= MAX_SCHEDULED_TASKS { return -1; }
      assert tasks[..][receiverTid] == tasks[receiverTid];
      if !tasks[receiverTid].Some? { return -1; }
      if tasks[receiverTid].value.state.RECV_WAIT? {
        SendToWaiting(receiverTid, msg, Max(mlen, 0), reply, Max(rlen, 0));
        return -3;
      }
      SendToBusy(receiverTid, msg, Max(mlen, 0), reply, Max(rlen, 0));
      return -4;
    }

    /** The branch of Receive for a message that is already there. */
    method TakeMessage(senderTidOut: Address, msg: Address, len: nat) returns (n: int)
      requires Trapped() && CallerOk(abs) && abs.tasks[abs.current].senders != []
      modifies this, tasks
      ensures Valid() && (abs, n) == Take(old(abs), senderTidOut, msg, len)
    {
      var head := tasks[currentTask].value.sendQueueHead.value;
      var sender := tasks[head].value;
      assert sender.state.SEND_WAIT?;
      hide Inv, TableShows, SlotsMatch;
      n := Min(sender.state.msglen, len);
      SetMemory(CopyIfPresent(mem, msg, sender.state.msg, n));
      SetMemory(StoreWordIfPresent(mem, senderTidOut, head));
      TakeFront();
    }

    /** The front sender's message counts as received: it waits for its reply, and leaves the list. */
    method TakeFront()
      requires Valid() && Inv(abs, Some(abs.current)) && CallerOk(abs) && abs.tasks[abs.current].senders != []
      modifies this`abs, tasks
      ensures Valid() && abs == Take(old(abs), 0, 0, 0).0
    {
      ghost var k := abs;
      var head := tasks[currentTask].value.sendQueueHead.value;
      var sender := tasks[head].value;
      assert sender.state.SEND_WAIT?;
      var d := sender.(state := REPLY_WAIT(sender.state.reply, sender.state.rplen));
      RemoveFrontRepresents(tasks[..], k.tasks, currentTask, d,
        k.tasks[head].(state := ReplyWait(sender.state.reply, sender.state.rplen)));
      Unlink(currentTask, head, sender.state.next, d);
      abs := Take(k, 0, 0, 0).0;
    }

    /** Replaces the front sender's descriptor by d, and makes `next` the front of the list. */
    method Unlink(receiverTid: Tid, head: Tid, next: Option<Tid>, d: TaskDescriptor)
      requires receiverTid < tasks.Length && head < tasks.Length && receiverTid != head
      requires tasks[receiverTid].Some? && next == NextOf(tasks[..], head)
      modifies tasks
      ensures tasks[..] == Removed(old(tasks[..]), receiverTid, head, d)
    {
      tasks[head] := Some(d);
      var receiver := tasks[receiverTid].value.(sendQueueHead := next);
      if !next.Some? { receiver := receiver.(sendQueueTail := None); }
      tasks[receiverTid] := Some(receiver);
    }

    method Receive(senderTidOut: Address, msg: Address, msglen: Int32) returns (ret: int)
      requires Trapped() && CallerOk(abs)
      modifies this, tasks
      ensures Valid() && (abs, ret) == ReceiveStep(old(abs), senderTidOut, msg, msglen)
    {
      var receiver := tasks[currentTask].value;
      if !receiver.state.READY? { return -1; }
      if !receiver.sendQueueHead.Some? {
        NotListed(abs.tasks, currentTask);
        SetDescriptor(currentTask, receiver.(state := RECV_WAIT(senderTidOut, msg, ToSize(msglen))),
                      abs.tasks[currentTask].(state := RecvWait(senderTidOut, msg, ToSize(msglen))));
        return -3;
      }
      ret := TakeMessage(senderTidOut, msg, Max(msglen, 0));
    }

    method Reply(tid: Int32, reply: Address, rplen: Int32) returns (ret: int)
      requires Trapped()
      modifies this, tasks, readyQueue, readyQueue.arr
      ensures Valid() && (abs, ret) == ReplyStep(old(abs), tid, reply, rplen)
    {
      if tid < 0 || tid >= MAX_SCHEDULED_TASKS { return -1; }
      assert tasks[..][tid] == tasks[tid];
      if !tasks[tid].Some? { return -1; }
      var receiver := tasks[tid].value;
      if !receiver.state.REPLY_WAIT? { return -2; }
      NotListed(abs.tasks, tid);
      var n := Min(receiver.state.rplen, Max(rplen, 0));
      SetMemory(CopyIfPresent(mem, receiver.state.reply, reply, n));
      SetDescriptor(tid, receiver.(state := READY, ret := n), abs.tasks[tid].(state := Ready, ret := n));
      var _ := PushReady(tid, receiver.priority);
      return n;
    }

    /** AwaitEvent's and the interrupt handler's view of the event slots. */
    method PutSlot(id: nat, slot: Slot)
      requires Valid() && id < 64
      modifies this`abs, eventQueue, eventQueue.arr
      ensures Valid() && abs == old(abs).(events := old(abs).events[id := slot])
    {
      eventQueue.Put(slot, id);
      abs := abs.(events := abs.events[id := slot]);
    }

    method TakeSlot(id: nat) returns (r: Option<Slot>)
      requires Valid() && id < 64
      modifies this`abs, eventQueue, eventQueue.arr
      ensures Valid() && abs == old(abs).(events := old(abs).events - {id})
      ensures r == if id in old(abs).events then Some(old(abs).events[id]) else None
    {
      assert eventQueue.arr[..][id] == eventQueue.arr[id];
      r := eventQueue.Take(id);
      abs := abs.(events := abs.events - {id});
    }

    method GetSlot(id: nat) returns (r: Option<Slot>)
      requires Valid() && id < 64
      ensures r == if id in abs.events then Some(abs.events[id]) else None
    {
      assert eventQueue.arr[..][id] == eventQueue.arr[id];
      r := eventQueue.Get(id);
    }

    method AwaitEvent(id: Int32) returns (r: Option<int>)
      requires Trapped()
      modifies this`abs, tasks, eventQueue, eventQueue.arr
      ensures var (o, ret) := AwaitStep(old(abs), id);
              if o.Halted? then r == None else Valid() && abs == o.k && r == Some(ret)
    {
      hide SlotsMatch, QueueOk, EventsOk, Linked;
      if !IsEvent(id) { return None; }
      var slot := GetSlot(id);
      if slot.Some? {
        if slot.value.Waiter? { return None; }
        var _ := TakeSlot(id);
        assert tasks[currentTask].value.state.READY?;
        return Some(slot.value.raw);
      }
      PutSlot(id, Waiter(currentTask));
      NotListed(abs.tasks, currentTask);
      SetDescriptor(currentTask, tasks[currentTask].value.(state := EVENT_WAIT),
                    abs.tasks[currentTask].(state := EventWait(id)));
      return Some(-3);
    }

    /** The list of waiting senders is cut off from its receiver. */
    method ForgetSenders(tid: Tid)
      requires Valid() && tid in abs.tasks
      modifies this`abs, tasks
      ensures Valid() && abs == SetTask(old(abs), tid, old(abs).tasks[tid].(parent := None, senders := []))
      ensures forall t :: NextOf(tasks[..], t) == NextOf(old(tasks[..]), t)
    {
      hide StateMatches;
      var d := tasks[tid].value.(parentTid := None, sendQueueHead := None, sendQueueTail := None);
      ghost var task := abs.tasks[tid].(parent := None, senders := []);
      SetRepresents(tasks[..], abs.tasks, tid, d, task);
      ghost var ts := tasks[..][tid := Some(d)];
      tasks[tid] := Some(d);
      assert tasks[..] == ts;
      abs := SetTask(abs, tid, task);
    }

    /** reset_task(): every waiting sender is told that its receiver is gone. */
    method ResetTask()
      requires Trapped() && CallerOk(abs)
      modifies this`abs, tasks, readyQueue, readyQueue.arr
      ensures Valid()
      ensures WakeAll(SetTask(old(abs), old(abs).current,
                              old(abs).tasks[old(abs).current].(parent := None, senders := [])),
                      old(abs).tasks[old(abs).current].senders) == Running(abs)
    {
      hide SlotsMatch, QueueOk, EventsOk, Linked;
      ghost var k := abs;
      ghost var list := k.tasks[k.current].senders;
      var head := tasks[currentTask].value.sendQueueHead;
      ghost var ts := tasks[..];
      ForgetSenders(currentTask);
      ghost var k0 := abs;
      if !head.Some? { return; }
      WakingStarts(k, ts, tasks[..]);
      var tid := head.value;
      ghost var rest := list;
      while true
        invariant Valid() && rest != [] && tid == rest[0]
        invariant Waking(tasks[..], abs.tasks, rest)
        invariant WakeAll(k0, list).Running? && WakeAll(abs, rest) == WakeAll(k0, list)
        decreases |rest|
      {
        WakingFront(tasks[..], abs.tasks, rest);
        var task := tasks[tid].value;
        assert task.state.SEND_WAIT?;
        var nextTid := task.state.next;
        ghost var before, m := tasks[..], abs.tasks;
        SetDescriptor(tid, task.(state := READY, ret := -2), Woken(abs.tasks[tid]));
        WakingRest(before, m, rest, Some(task.(state := READY, ret := -2)), abs.tasks);
        var ok := PushReady(tid, task.priority);
        assert ok;
        rest := rest[1..];
        if !nextTid.Some? { break; }
        tid := nextTid.value;
      }
    }

    method Exit()
      requires Trapped() && CallerOk(abs)
      modifies this`abs, tasks, readyQueue, readyQueue.arr
      ensures Valid() && ExitStep(old(abs)) == Running(abs)
    {
      ghost var k := abs;
      ExitEffect(k);
      var tid := currentTask;
      ResetTask();
      GoneUnlisted(k, abs);
      RemoveRepresents(tasks[..], abs.tasks, tid);
      ghost var ts := tasks[..][tid := None];
      tasks[tid] := None;
      assert tasks[..] == ts;
      abs := abs.(tasks := abs.tasks - {tid});
    }

    /** A blocked task is woken by the interrupt it waits for. */
    method WakeBlocked(no: nat, raw: Int32, ghost run: Option<Tid>, blockedTid: Tid, ghost k: KernelModel.Kernel)
      requires Valid() && Inv(k, run) && Beside(k, run) && HasWaiter(k.events, no, blockedTid)
      requires abs == k.(events := k.events - {no})
      modifies this`abs, tasks, readyQueue, readyQueue.arr
      ensures blockedTid < tasks.Length && old(tasks[blockedTid]).Some?
      ensures old(tasks[blockedTid]).value == old(tasks[blockedTid]).value.(state := EVENT_WAIT)
      ensures blockedTid in k.tasks && Valid() && abs == WakeWaiter(k, no, raw)
    {
      hide SlotsMatch, QueueOk, EventsOk, Linked;
      WakeWaiterInv(k, run, no, raw);
      NotListed(k.tasks, blockedTid);
      var blockedTask := tasks[blockedTid].value;
      // the assignment in the assertion at src/kernel/irq_handler.cc:86 stores what is there already
      assert blockedTask == blockedTask.(state := EVENT_WAIT);
      blockedTask := blockedTask.(state := EVENT_WAIT);
      SetDescriptor(blockedTid, blockedTask.(state := READY, ret := raw),
                    abs.tasks[blockedTid].(state := Ready, ret := raw));
      var ok := PushReady(blockedTid, blockedTask.priority);
      assert ok;
    }

    /** False means that the kernel panicked. */
    method ServiceInterrupt(no: nat, irq: Interrupts, ghost run: Option<Tid>) returns (ok: bool)
      requires Valid() && Steady(abs, run)
      modifies this`abs, tasks, eventQueue, eventQueue.arr, readyQueue, readyQueue.arr
      ensures if IsEvent(no) then ok && Valid() && ServiceStep(old(abs), no, irq) == Running(abs) && Steady(abs, run)
              else !ok && ServiceStep(old(abs), no, irq) == Halted
    {
      if !IsEvent(no) { return false; }
      ghost var k := abs;
      var raw := EventData(no, irq);
      var slot := TakeSlot(no);
      if slot.Some? && slot.value.Waiter? {
        WakeWaiterInv(k, run, no, raw);
        WakeBlocked(no, raw, run, slot.value.tid, k);
      } else {
        PutSlot(no, Data(raw));
        Replaced(k.events, no, Data(raw));
      }
      StaysSteady(k, run, no, irq);
      return true;
    }

    method ServiceLine(lines: Lines, base: nat, i: nat, irq: Interrupts, ghost run: Option<Tid>) returns (ok: bool)
      requires Valid() && Steady(abs, run) && base <= 32 && i < 32
      modifies this`abs, tasks, eventQueue, eventQueue.arr, readyQueue, readyQueue.arr
      ensures !ok ==> ServiceLines(old(abs), lines, base, i, irq) == Halted
      ensures ok ==> Valid() && Steady(abs, run)
      ensures ok ==> ServiceLines(old(abs), lines, base, i, irq) == ServiceLines(abs, lines, base, i + 1, irq)
    {
      ok := true;
      if lines[i] {
        ok := ServiceInterrupt(base + i, irq, run);
      }
    }

    method ServiceAsserted(lines: Lines, base: nat, irq: Interrupts, ghost run: Option<Tid>) returns (ok: bool)
      requires Valid() && Steady(abs, run) && base <= 32
      modifies this`abs, tasks, eventQueue, eventQueue.arr, readyQueue, readyQueue.arr
      ensures var o := ServiceLines(old(abs), lines, base, 0, irq);
              if o.Halted? then !ok else ok && Valid() && abs == o.k && Steady(abs, run)
    {
      ghost var k := abs;
      var i: nat := 0;
      while i < 32
        invariant i <= 32 && Valid() && Steady(abs, run)
        invariant ServiceLines(abs, lines, base, i, irq) == ServiceLines(k, lines, base, 0, irq)
      {
        ok := ServiceLine(lines, base, i, irq, run);
        if !ok { return; }
        i := i + 1;
      }
      ok := true;
    }

    method HandleInterrupt(irq: Interrupts, ghost run: Option<Tid>) returns (ok: bool)
      requires Valid() && Steady(abs, run)
      modifies this`abs, tasks, eventQueue, eventQueue.arr, readyQueue, readyQueue.arr
      ensures var o := InterruptStep(old(abs), irq);
              if o.Halted? then !ok else ok && Valid() && abs == o.k
    {
      ok := ServiceAsserted(irq.vic1, 0, irq, run);
      if !ok { return; }
      ok := ServiceAsserted(irq.vic2, 32, irq, run);
    }

    method MyParentTid() returns (ret: int)
      requires Trapped()
      ensures ret == ParentTid(abs.tasks[abs.current])
    {
      var parent := tasks[currentTask].value.parentTid;
      return if parent.Some? then AsInt(parent.value) else -1;
    }

    /** handle_syscall(): false means that the kernel panicked or was shut down. */
    method HandleSyscall(call: Call) returns (ok: bool)
      requires Trapped() && CallerOk(abs)
      modifies this, tasks, eventQueue, eventQueue.arr, readyQueue, readyQueue.arr
      ensures var o := CallStep(old(abs), call);
              if o.Halted? then !ok else ok && Valid() && abs == o.k
    {
      hide QueueOk, EventsOk, SendersOk, TableShows, SlotsMatch;
      ghost var k := abs;
      var me := currentTask;
      var ret: Option<int> := None;
      match call {
        case Yield =>
        case Exit => Exit();
        case MyParentTid =>
          var r := MyParentTid();
          ret := Some(r);
        case MyTid => ret := Some(if me == NOBODY then -1 else AsInt(me));
        case Create(priority) =>
          CreateInv(k, priority);
          ret := Create(priority);
        case Send(to, msg, mlen, reply, rlen) =>
          var r := Send(to, msg, mlen, reply, rlen);
          ret := Some(r);
        case Receive(tidOut, buf, len) =>
          var r := Receive(tidOut, buf, len);
          ret := Some(r);
        case Reply(to, reply, rlen) =>
          var r := Reply(to, reply, rlen);
          ret := Some(r);
        case AwaitEvent(id) =>
          ret := AwaitEvent(id);
          if !ret.Some? { return false; }
        case Perf(p, idlePct) => SetMemory(StoreWordIfPresent(mem, p, idlePct));
        case Shutdown => return false;
        case Unknown => return false;
      }
      if ret.Some? { WriteReturn(me, ret.value); }
      return true;
    }

    method HandleTrap(trap: Trap) returns (ok: bool)
      requires Trapped() && CallerOk(abs) && WaitersLive(abs)
      modifies this, tasks, eventQueue, eventQueue.arr, readyQueue, readyQueue.arr
      ensures var o := TrapStep(old(abs), trap);
              if o.Halted? then !ok else ok && Valid() && abs == o.k
    {
      match trap {
        case Swi(call) => ok := HandleSyscall(call);
        case Irq(r0, irq) =>
          ghost var run := Some(abs.current);
          WriteReturnInv(abs, run, currentTask, r0);
          WriteReturn(currentTask, r0);
          WaitersAreLive(abs, run);
          ok := HandleInterrupt(irq, run);
      }
    }

    /** activate(): the task has run and `trap` says why it stopped. */
    method Activate(trap: Trap) returns (ok: bool)
      requires Trapped() && CallerOk(abs) && WaitersLive(abs)
      modifies this, tasks, eventQueue, eventQueue.arr, readyQueue, readyQueue.arr
      ensures var p := KernelRuns.Activate(old(abs), trap);
              if p.Stopped? then !ok else ok && Valid() && p == Next(abs)
    {
      TrapInv(abs, trap);
      ok := HandleTrap(trap);
      if ok { RequeueCurrent(); }
    }

    /** The end of activate(): the queue never lacks room. */
    method RequeueCurrent()
      requires Valid() && Inv(abs, Some(abs.current)) && abs.current < MAX_SCHEDULED_TASKS
      modifies this`abs, readyQueue, readyQueue.arr
      ensures Valid() && Requeue(old(abs)) == Running(abs)
    {
      RequeueInv(abs);
      var tid := currentTask;
      assert tasks[..][tid] == tasks[tid];
      if tasks[tid].Some? && tasks[tid].value.state.READY? {
        var ok := PushReady(tid, tasks[tid].value.priority);
        assert ok;
      }
    }

    /** schedule() and the entry of activate(): the front of the ready queue gets the processor, and
        user code leaves memory as `m`. */
    method Schedule(m: Memory) returns (r: Option<Tid>)
      requires Valid() && Usable(abs)
      modifies this, readyQueue, readyQueue.arr
      ensures Valid()
      ensures old(abs).ready == [] ==> r == None && abs == old(abs)
      ensures old(abs).ready != [] ==> r == Some(old(abs).ready[0].data) && abs == Dispatch(old(abs), m)
      ensures old(abs).ready != [] ==> Trapped() && CallerOk(abs) && WaitersLive(abs)
    {
      hide Inv, CallerOk, WaitersLive;
      if abs.ready != [] { DispatchInv(abs, m); }
      r := PopReady(m);
    }

    method PopReady(m: Memory) returns (r: Option<Tid>)
      requires Valid()
      modifies this, readyQueue, readyQueue.arr
      ensures Valid()
      ensures if old(abs).ready == [] then r == None && abs == old(abs)
              else r == Some(old(abs).ready[0].data) && abs == Dispatch(old(abs), m)
    {
      hide TableShows, SlotsMatch, Represents, Strip;
      r := readyQueue.Pop();
      if r.Some? {
        abs := Dispatch(abs, m);
        currentTask := r.value;
        mem := m;
      }
    }

    method NumEventBlockedTasks() returns (n: nat)
      requires Valid()
      ensures n == 0 <==> abs.events == map[]
    {
      n := eventQueue.NumPresent();
      NoSlots(eventQueue.arr[..], abs.events);
    }

    /** One pass of the loop in run(). */
    method Pass(input: Input) returns (p: PassResult)
      requires Valid() && Usable(abs)
      modifies this, tasks, eventQueue, eventQueue.arr, readyQueue, readyQueue.arr
      ensures match Step(old(abs), input)
              case Stopped => p == Panicked
              case Next(k) => p == Continue && Valid() && abs == k && Usable(abs)
              case Finished(k) => p == Leave && Valid() && abs == k && Usable(abs)
    {
      ghost var k := abs;
      StepKeepsInv(k, input);
      var nextTask := Schedule(input.mem);
      if nextTask.Some? {
        var ok := Activate(input.trap);
        return if ok then Continue else Panicked;
      }
      var n := NumEventBlockedTasks();
      if n == 0 { return Leave; }
      WaitersAreLive(abs, None);
      var ok := HandleInterrupt(input.idle, None);
      return if ok then Continue else Panicked;
    }

    /** run(), for as long as there are inputs. */
    method RunLoop(inputs: seq<Input>) returns (p: PassResult)
      requires Valid() && Usable(abs)
      modifies this, tasks, eventQueue, eventQueue.arr, readyQueue, readyQueue.arr
      ensures match Run(old(abs), inputs)
              case Stopped => p == Panicked
              case Next(k) => p == Continue && Valid() && abs == k
              case Finished(k) => p == Leave && Valid() && abs == k
    {
      hide Usable, Step, TableShows, SlotsMatch;
      ghost var k := abs;
      var i: nat := 0;
      assert inputs[0..] == inputs;
      while i < |inputs|
        invariant i <= |inputs| && Valid() && Usable(abs)
        invariant Run(k, inputs) == Run(abs, inputs[i..])
      {
        RunFrom(abs, inputs, i);
        p := Pass(inputs[i]);
        if !p.Continue? { return; }
        i := i + 1;
      }
      RunFrom(abs, inputs, i);
      return Continue;
    }
  }

  datatype PassResult = Continue | Leave | Panicked

  /** What servicing interrupts relies on and keeps. */
  ghost predicate Steady(k: KernelModel.Kernel, run: Option<Tid>) {
    Inv(k, run) && Beside(k, run) && WaitersLive(k)
  }

  lemma Replaced(events: map<nat, Slot>, id: nat, slot: Slot)
    ensures (events - {id})[id := slot] == events[id := slot]
  {
  }

  lemma StaysSteady(k: KernelModel.Kernel, run: Option<Tid>, no: nat, irq: Interrupts)
    requires Steady(k, run) && IsEvent(no)
    ensures ServiceStep(k, no, irq).Running? && Steady(ServiceStep(k, no, irq).k, run)
  {
    ServiceInv(k, run, no, irq);
    WaitersAreLive(ServiceStep(k, no, irq).k, run);
  }

  /** The senders in `rest` still wait, linked in order, but stand in no list. */
  ghost predicate Waking(ts: Table, m: map<Tid, Task>, rest: seq<Tid>) {
    && Linked(ts, rest) && Distinct(rest)
    && (forall s :: s in rest ==> s in m && m[s].state.SendWait?)
    && (forall s, r :: s in rest ==> !Listed(m, s, r))
  }

  lemma WakingStarts(k: KernelModel.Kernel, ts: Table, ts': Table)
    requires InvRunning(k) && TableShows(ts, k.tasks)
    requires forall t :: NextOf(ts', t) == NextOf(ts, t)
    ensures var k0 := SetTask(k, k.current, k.tasks[k.current].(parent := None, senders := []));
            && Waking(ts', k0.tasks, k.tasks[k.current].senders)
            && (forall s :: s in k.tasks[k.current].senders ==> s in k0.tasks)
            && WakeAll(k0, k.tasks[k.current].senders).Running?
  {
    var list := k.tasks[k.current].senders;
    var k0 := SetTask(k, k.current, k.tasks[k.current].(parent := None, senders := []));
    SendersBlocked(k.tasks, k.current);
    LinkedKept(ts, ts', list);
    forall s, r | s in list ensures !Listed(k0.tasks, s, r) {
      assert Listed(k.tasks, s, k.current);
      ListedOnce(k.tasks, s, k.current);
      assert Listed(k0.tasks, s, r) ==> Listed(k.tasks, s, r);
    }
    QueueSame(k.tasks, k.ready, Some(k.current), k0.tasks, Some(k.current));
    WakeAllEffect(k0, list, Some(k.current));
  }

  lemma WakingFront(ts: Table, m: map<Tid, Task>, rest: seq<Tid>)
    requires TableShows(ts, m) && Waking(ts, m, rest) && rest != []
    ensures rest[0] in rest && rest[0] in m && rest[0] < |ts| && ts[rest[0]].Some? && ts[rest[0]].value.state.SEND_WAIT?
    ensures ts[rest[0]].value.state.next == if |rest| > 1 then Some(rest[1]) else None
    ensures forall r :: !Listed(m, rest[0], r)
  {
    assert LinkAt(ts, rest, 0) && rest[0] in rest;
  }

  lemma WakingRest(ts: Table, m: map<Tid, Task>, rest: seq<Tid>, d: Option<TaskDescriptor>, m': map<Tid, Task>)
    requires Waking(ts, m, rest) && rest != [] && rest[0] in m && rest[0] < |ts|
    requires m' == m[rest[0] := Woken(m[rest[0]])]
    ensures Waking(ts[rest[0] := d], m', rest[1..])
  {
    var ts' := ts[rest[0] := d];
    FrontApart(rest);
    LinkedTail(ts, rest);
    LinkedKept(ts, ts', rest[1..]);
    forall s, r | s in rest[1..] ensures !Listed(m', s, r) {
      assert !Listed(m, s, r);
    }
  }

  /** An exiting task stands in nobody's list. */
  lemma GoneUnlisted(k: KernelModel.Kernel, k': KernelModel.Kernel)
    requires InvRunning(k) && CallerOk(k)
    requires WakeAll(SetTask(k, k.current, k.tasks[k.current].(parent := None, senders := [])),
                     k.tasks[k.current].senders) == Running(k')
    ensures k.current in k'.tasks && k'.current == k.current && forall r :: !Listed(k'.tasks, k.current, r)
  {
    var list := k.tasks[k.current].senders;
    var k0 := SetTask(k, k.current, k.tasks[k.current].(parent := None, senders := []));
    SendersBlocked(k.tasks, k.current);
    QueueSame(k.tasks, k.ready, Some(k.current), k0.tasks, Some(k.current));
    WakeAllEffect(k0, list, Some(k.current));
    NotListed(k.tasks, k.current);
    forall r ensures !Listed(k'.tasks, k.current, r) {
      assert !Listed(k.tasks, k.current, r);
    }
  }

  /** A free slot of the table gets a task. */
  lemma NewRepresents(ts: Table, m: map<Tid, Task>, t: Tid, d: TaskDescriptor, task: Task)
    requires TableShows(ts, m) && t < MAX_SCHEDULED_TASKS && t !in m
    requires Matches(d, t, task) && task.senders == []
    requires forall r :: !Listed(m, t, r)
    ensures TableShows(ts[t := Some(d)], m[t := task])
  {
    forall r | r in m && r != t && t in m[r].senders ensures false { assert Listed(m, t, r); }
    SetRepresents(ts, m, t, d, task);
  }

  /** What SendToBusy needs to know of the receiver's list before it appends to it. */
  lemma BusyAppend(k: KernelModel.Kernel, ts: Table, m: map<Tid, Task>, to: Tid)
    requires InvRunning(k) && to in k.tasks && TableShows(ts, m)
    requires exists task: Task :: task.state.SendWait? && task.senders == k.tasks[k.current].senders
               && m == k.tasks[k.current := task]
    requires NextOf(ts, k.current) == None
    ensures m[to].senders == k.tasks[to].senders
    ensures m[to].senders != [] ==> TailReady(ts, to)
    ensures TableShows(Appended(ts, to, k.current),
                                   m[to := m[to].(senders := m[to].senders + [k.current])])
  {
    NotListed(k.tasks, k.current);
    assert !Listed(k.tasks, k.current, to);
    forall s | s in m[to].senders ensures s in m && m[s].state.SendWait? {
      assert Listed(k.tasks, s, to);
      ListedOnce(k.tasks, s, to);
    }
    forall r, s | Listed(m, s, r) && Listed(m, s, to) ensures r == to {
      assert Listed(k.tasks, s, r) && Listed(k.tasks, s, to);
      ListedOnce(k.tasks, s, to);
    }
    AppendRepresents(ts, m, to, k.current);
  }
}
