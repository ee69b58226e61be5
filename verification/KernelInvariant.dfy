/** Where every live task is: each step of the kernel keeps this. */
module KernelInvariant {
  import opened Options
  import opened Integers
  import opened Sequences
  import opened PriorityQueues
  import opened KernelModel

  ghost function Tids(q: seq<Item<Tid>>): (r: seq<Tid>)
    ensures |r| == |q| && forall i :: 0 <= i < |q| ==> r[i] == q[i].data
  {
    seq(|q|, i requires 0 <= i < |q| => q[i].data)
  }

  /** Ready, and not the task that has the processor. */
  ghost predicate Runnable(tasks: map<Tid, Task>, run: Option<Tid>, t: Tid) {
    t in tasks && tasks[t].state.Ready? && run != Some(t)
  }

  /** The ready queue holds exactly the runnable tasks, each once, at its own priority, in order. */
  ghost predicate QueueOk(tasks: map<Tid, Task>, ready: seq<Item<Tid>>, run: Option<Tid>) {
    && (forall t :: t in Tids(ready) <==> Runnable(tasks, run, t))
    && Distinct(Tids(ready))
    && Sorted(ready)
    && (forall i :: 0 <= i < |ready| ==>
          ready[i].data in tasks && ready[i].priority == tasks[ready[i].data].priority)
  }

  ghost predicate BlockedOn(tasks: map<Tid, Task>, s: Tid, r: Tid) {
    s in tasks && tasks[s].state.SendWait? && tasks[s].state.to == r
  }

  ghost predicate Listed(tasks: map<Tid, Task>, s: Tid, r: Tid) {
    r in tasks && s in tasks[r].senders
  }

  /** Blocked senders are exactly the entries of sender lists, each once, in its own receiver's
      list; a task waiting for a message has none waiting. */
  ghost predicate SendersOk(tasks: map<Tid, Task>) {
    && (forall s, r :: BlockedOn(tasks, s, r) <==> Listed(tasks, s, r))
    && (forall r :: r in tasks ==> Distinct(tasks[r].senders))
    && (forall r :: r in tasks && tasks[r].state.RecvWait? ==> tasks[r].senders == [])
  }

  ghost predicate Awaits(tasks: map<Tid, Task>, t: Tid, id: nat) {
    t in tasks && tasks[t].state == EventWait(id)
  }

  ghost predicate HasWaiter(events: map<nat, Slot>, id: nat, t: Tid) {
    id in events && events[id] == Waiter(t)
  }

  /** Tasks blocked on an event are exactly the waiters in event slots, one slot each. */
  ghost predicate EventsOk(tasks: map<Tid, Task>, events: map<nat, Slot>) {
    && (forall t, id :: Awaits(tasks, t, id) <==> HasWaiter(events, id, t))
    && (forall id :: id in events ==> IsEvent(id))
  }

  ghost predicate TidsOk(tasks: map<Tid, Task>) {
    forall t :: t in tasks ==> t < MAX_SCHEDULED_TASKS
  }

  ghost predicate Inv(k: Kernel, run: Option<Tid>) {
    && TidsOk(k.tasks)
    && QueueOk(k.tasks, k.ready, run)
    && SendersOk(k.tasks)
    && EventsOk(k.tasks, k.events)
  }

  /** A task that has the processor and has not yet been blocked or removed by its trap. */
  ghost predicate InvRunning(k: Kernel) {
    Inv(k, Some(k.current)) && k.current in k.tasks && k.tasks[k.current].state.Ready?
  }

  // ---------------------------------------------------------------------------------------------
  // The ready queue.

  lemma InsertTids(q: seq<Item<Tid>>, x: Item<Tid>)
    ensures forall t :: t in Tids(Insert(q, x)) <==> t in Tids(q) || t == x.data
    ensures Distinct(Tids(q)) && x.data !in Tids(q) ==> Distinct(Tids(Insert(q, x)))
  {
    var k := Place(q, x.priority);
    var r := Insert(q, x);
    forall t ensures t in Tids(r) <==> t in Tids(q) || t == x.data {
      if t in Tids(q) {
        var i :| 0 <= i < |q| && Tids(q)[i] == t;
        assert Tids(r)[if i < k then i else i + 1] == t;
      }
      if t in Tids(r) {
        var i :| 0 <= i < |r| && Tids(r)[i] == t;
        assert i != k ==> Tids(q)[if i < k then i else i - 1] == t;
      }
      assert Tids(r)[k] == x.data;
    }
    if Distinct(Tids(q)) && x.data !in Tids(q) {
      forall i, j | 0 <= i < j < |r| ensures Tids(r)[i] != Tids(r)[j] {
        assert i != k ==> Tids(r)[i] == Tids(q)[if i < k then i else i - 1];
        assert j != k ==> Tids(r)[j] == Tids(q)[if j < k then j else j - 1];
      }
    }
  }

  /** There is room in the queue whenever some tid is not in it. */
  lemma RoomFor(tasks: map<Tid, Task>, ready: seq<Item<Tid>>, run: Option<Tid>, t: Tid)
    requires TidsOk(tasks) && QueueOk(tasks, ready, run)
    requires t < MAX_SCHEDULED_TASKS && !Runnable(tasks, run, t)
    ensures |ready| < MAX_SCHEDULED_TASKS
  {
    var s := Tids(ready) + [t];
    forall x | x in s ensures x < MAX_SCHEDULED_TASKS {
      assert x in Tids(ready) || x == t;
    }
    Pigeonhole(s, MAX_SCHEDULED_TASKS);
  }

  /** One more task becomes runnable and is pushed. */
  lemma QueuePush(tasks: map<Tid, Task>, ready: seq<Item<Tid>>, run: Option<Tid>,
                  t: Tid, tasks': map<Tid, Task>, run': Option<Tid>)
    requires TidsOk(tasks) && QueueOk(tasks, ready, run)
    requires t < MAX_SCHEDULED_TASKS && !Runnable(tasks, run, t) && t in tasks'
    requires forall u :: Runnable(tasks', run', u) <==> Runnable(tasks, run, u) || u == t
    requires forall u :: u in tasks && u != t ==> u in tasks' && tasks'[u].priority == tasks[u].priority
    ensures |ready| < MAX_SCHEDULED_TASKS
    ensures QueueOk(tasks', Push(ready, t, tasks'[t].priority), run')
  {
    RoomFor(tasks, ready, run, t);
    var x := Item(tasks'[t].priority, t);
    InsertTids(ready, x);
    InsertKeepsSorted(ready, x);
    var k := Place(ready, x.priority);
    var r := Insert(ready, x);
    forall i | 0 <= i < |r| ensures r[i].data in tasks' && r[i].priority == tasks'[r[i].data].priority {
      if i != k {
        var j := if i < k then i else i - 1;
        assert r[i] == ready[j] && Tids(ready)[j] in Tids(ready);
      }
    }
  }

  /** Nothing becomes or stops being runnable. */
  lemma QueueSame(tasks: map<Tid, Task>, ready: seq<Item<Tid>>, run: Option<Tid>,
                  tasks': map<Tid, Task>, run': Option<Tid>)
    requires QueueOk(tasks, ready, run)
    requires forall u :: Runnable(tasks', run', u) <==> Runnable(tasks, run, u)
    requires forall u :: Runnable(tasks, run, u) ==> u in tasks' && tasks'[u].priority == tasks[u].priority
    ensures QueueOk(tasks', ready, run')
  {
    forall i | 0 <= i < |ready| ensures ready[i].data in tasks' && ready[i].priority == tasks'[ready[i].data].priority {
      assert Tids(ready)[i] in Tids(ready);
      assert Runnable(tasks, run, ready[i].data);
    }
  }

  /** The front of the queue gets the processor. */
  lemma QueuePop(tasks: map<Tid, Task>, ready: seq<Item<Tid>>)
    requires QueueOk(tasks, ready, None) && ready != []
    ensures QueueOk(tasks, ready[1..], Some(ready[0].data))
    ensures Runnable(tasks, None, ready[0].data)
  {
    assert Tids(ready)[0] in Tids(ready);
    assert Tids(ready)[1..] == Tids(ready[1..]);
    FrontApart(Tids(ready));
    assert forall u :: u in Tids(ready) <==> u == ready[0].data || u in Tids(ready)[1..];
  }

  // ---------------------------------------------------------------------------------------------
  // The steps.

  /** Sender lists stay right when lists and blocked senders stay as they are. */
  lemma SendersKept(tasks: map<Tid, Task>, tasks': map<Tid, Task>)
    requires SendersOk(tasks)
    requires forall s, r :: BlockedOn(tasks', s, r) <==> BlockedOn(tasks, s, r)
    requires forall t :: t in tasks ==> t in tasks' && tasks'[t].senders == tasks[t].senders
    requires forall t :: t in tasks' && (t !in tasks || tasks'[t].state.RecvWait?) ==> tasks'[t].senders == []
    ensures SendersOk(tasks')
  {
    forall s, r ensures Listed(tasks', s, r) <==> Listed(tasks, s, r) {}
  }

  lemma EventsKept(tasks: map<Tid, Task>, tasks': map<Tid, Task>, events: map<nat, Slot>)
    requires EventsOk(tasks, events)
    requires forall t, id :: Awaits(tasks', t, id) <==> Awaits(tasks, t, id)
    ensures EventsOk(tasks', events)
  {
  }

  lemma AddTaskInv(k: Kernel, run: Option<Tid>, tid: Tid, priority: nat)
    requires Inv(k, run) && tid < MAX_SCHEDULED_TASKS && tid !in k.tasks && run != Some(tid)
    ensures |k.ready| < MAX_SCHEDULED_TASKS && Inv(AddTask(k, tid, priority), run)
  {
    var tasks' := AddTask(k, tid, priority).tasks;
    QueuePush(k.tasks, k.ready, run, tid, tasks', run);
    SendersKept(k.tasks, tasks');
    EventsKept(k.tasks, tasks', k.events);
  }

  lemma CreateInv(k: Kernel, priority: Int32)
    requires InvRunning(k)
    ensures var r := CreateStep(k, priority);
            && r.0.Running? && Inv(r.0.k, Some(k.current)) && r.0.k.current == k.current
            && k.current in r.0.k.tasks && r.0.k.tasks[k.current] == k.tasks[k.current]
  {
    if priority >= 0 && NextTid(k.tasks, 0).Some? {
      AddTaskInv(k, Some(k.current), NextTid(k.tasks, 0).value, priority);
    }
  }

  lemma DeliverInv(k: Kernel, to: Tid, msg: Address, msglen: nat, reply: Address, rplen: nat)
    requires InvRunning(k) && to in k.tasks && k.tasks[to].state.RecvWait?
    ensures Inv(Deliver(k, to, msg, msglen, reply, rplen), Some(k.current))
  {
    hide QueueOk, EventsOk;
    var k' := Deliver(k, to, msg, msglen, reply, rplen);
    QueuePush(k.tasks, k.ready, Some(k.current), to, k'.tasks, Some(k.current));
    SendersKept(k.tasks, k'.tasks);
    EventsKept(k.tasks, k'.tasks, k.events);
  }

  /** A running task blocks behind the other senders of `to`. */
  lemma EnqueueSenders(tasks: map<Tid, Task>, me: Tid, to: Tid, tasks': map<Tid, Task>)
    requires SendersOk(tasks) && me in tasks && tasks[me].state.Ready? && to in tasks && !tasks[to].state.RecvWait?
    requires tasks'.Keys == tasks.Keys
    requires forall t :: t in tasks && t != me ==> tasks'[t].state == tasks[t].state
    requires tasks'[me].state.SendWait? && tasks'[me].state.to == to
    requires forall t :: t in tasks && t != to ==> tasks'[t].senders == tasks[t].senders
    requires tasks'[to].senders == tasks[to].senders + [me]
    ensures SendersOk(tasks')
  {
    assert !BlockedOn(tasks, me, to);
    forall s, r ensures BlockedOn(tasks', s, r) <==> Listed(tasks', s, r) {
      assert BlockedOn(tasks, s, r) <==> Listed(tasks, s, r);
      assert BlockedOn(tasks', s, r) <==> BlockedOn(tasks, s, r) || (s == me && r == to);
    }
  }

  lemma EnqueueInv(k: Kernel, to: Tid, msg: Address, msglen: nat, reply: Address, rplen: nat)
    requires InvRunning(k) && to in k.tasks && !k.tasks[to].state.RecvWait?
    ensures Inv(Enqueue(k, to, msg, msglen, reply, rplen), Some(k.current))
  {
    var k' := Enqueue(k, to, msg, msglen, reply, rplen);
    QueueSame(k.tasks, k.ready, Some(k.current), k'.tasks, Some(k.current));
    EnqueueSenders(k.tasks, k.current, to, k'.tasks);
    EventsKept(k.tasks, k'.tasks, k.events);
  }

  /** The first waiting sender of `me` stops being one. */
  lemma TakeSenders(tasks: map<Tid, Task>, me: Tid, tasks': map<Tid, Task>)
    requires SendersOk(tasks) && me in tasks && tasks[me].senders != [] && tasks'.Keys == tasks.Keys
    requires forall t :: t in tasks && t != tasks[me].senders[0] ==> tasks'[t].state == tasks[t].state
    requires tasks[me].senders[0] in tasks' && tasks'[tasks[me].senders[0]].state.ReplyWait?
    requires forall t :: t in tasks && t != me ==> tasks'[t].senders == tasks[t].senders
    requires tasks'[me].senders == tasks[me].senders[1..]
    ensures SendersOk(tasks')
  {
    var front := tasks[me].senders[0];
    assert front in tasks[me].senders;
    FrontApart(tasks[me].senders);
    assert Listed(tasks, front, me);
    forall s, r ensures BlockedOn(tasks', s, r) <==> Listed(tasks', s, r) {
      assert BlockedOn(tasks, s, r) <==> Listed(tasks, s, r);
      assert BlockedOn(tasks', s, r) <==> BlockedOn(tasks, s, r) && s != front;
    }
  }

  lemma TakeInv(k: Kernel, tidOut: Address, buf: Address, len: nat)
    requires InvRunning(k) && FrontSenderWaits(k, k.current) && k.tasks[k.current].senders != []
    ensures Inv(Take(k, tidOut, buf, len).0, Some(k.current))
  {
    var k' := Take(k, tidOut, buf, len).0;
    QueueSame(k.tasks, k.ready, Some(k.current), k'.tasks, Some(k.current));
    TakeSenders(k.tasks, k.current, k'.tasks);
    EventsKept(k.tasks, k'.tasks, k.events);
  }

  lemma BlockedReceiveInv(k: Kernel, tidOut: Address, buf: Address, len: nat)
    requires InvRunning(k) && k.tasks[k.current].senders == []
    ensures Inv(SetTask(k, k.current, k.tasks[k.current].(state := RecvWait(tidOut, buf, len))), Some(k.current))
  {
    var k' := SetTask(k, k.current, k.tasks[k.current].(state := RecvWait(tidOut, buf, len)));
    QueueSame(k.tasks, k.ready, Some(k.current), k'.tasks, Some(k.current));
    SendersKept(k.tasks, k'.tasks);
    EventsKept(k.tasks, k'.tasks, k.events);
  }

  lemma ReplyInv(k: Kernel, to: Int32, reply: Address, rlen: Int32)
    requires InvRunning(k)
    ensures Inv(ReplyStep(k, to, reply, rlen).0, Some(k.current))
  {
    hide Sorted, Distinct, Tids;
    if 0 <= to < MAX_SCHEDULED_TASKS && to in k.tasks && k.tasks[to].state.ReplyWait? {
      var k' := ReplyStep(k, to, reply, rlen).0;
      QueuePush(k.tasks, k.ready, Some(k.current), to, k'.tasks, Some(k.current));
      SendersKept(k.tasks, k'.tasks);
      EventsKept(k.tasks, k'.tasks, k.events);
    }
  }

  lemma AwaitInv(k: Kernel, id: Int32)
    requires InvRunning(k)
    ensures var r := AwaitStep(k, id);
            r.0.Running? ==> Inv(r.0.k, Some(k.current)) && r.0.k.current == k.current && k.current in r.0.k.tasks
  {
    var o := AwaitStep(k, id).0;
    if o.Running? {
      forall t, i ensures Awaits(o.k.tasks, t, i) <==> HasWaiter(o.k.events, i, t) {
        assert Awaits(k.tasks, t, i) <==> HasWaiter(k.events, i, t);
      }
      if id !in k.events {
        QueueSame(k.tasks, k.ready, Some(k.current), o.k.tasks, Some(k.current));
        SendersKept(k.tasks, o.k.tasks);
      }
    }
  }

  lemma SendersBlocked(tasks: map<Tid, Task>, r: Tid)
    requires SendersOk(tasks) && r in tasks
    ensures forall s :: s in tasks[r].senders ==> BlockedOn(tasks, s, r)
  {
    forall s | s in tasks[r].senders ensures BlockedOn(tasks, s, r) {
      assert Listed(tasks, s, r);
    }
  }

  ghost function Woken(t: Task): Task { t.(state := Ready, ret := -2) }

  /** Only the tasks in `list` differ between k and k', and they have been woken. */
  ghost predicate WokenFrom(k: Kernel, list: seq<Tid>, k': Kernel) {
    && k'.tasks.Keys == k.tasks.Keys
    && (forall t :: t in k.tasks ==> k'.tasks[t] == if t in list then Woken(k.tasks[t]) else k.tasks[t])
    && k'.events == k.events && k'.current == k.current && k'.mem == k.mem
  }

  /** Waking a list of blocked tasks never finds the queue full; every one of them becomes ready with
      -2 and joins the queue, and nothing else changes. */
  lemma {:induction false} WakeAllEffect(k: Kernel, list: seq<Tid>, run: Option<Tid>)
    requires TidsOk(k.tasks) && QueueOk(k.tasks, k.ready, run) && Distinct(list)
    requires forall s :: s in list ==> s in k.tasks && !k.tasks[s].state.Ready? && run != Some(s)
    ensures var o := WakeAll(k, list);
            o.Running? && WokenFrom(k, list, o.k) && QueueOk(o.k.tasks, o.k.ready, run)
    decreases |list|
  {
    if list == [] {
    } else {
      var s, rest := list[0], list[1..];
      FrontApart(list);
      assert forall t :: t in list <==> t == s || t in rest;
      QueuePush(k.tasks, k.ready, run, s, k.tasks[s := Woken(k.tasks[s])], run);
      WakeAllEffect(SetTask(k, s, Woken(k.tasks[s])).(ready := Push(k.ready, s, k.tasks[s].priority)), rest, run);
    }
  }

  /** Exit: every waiting sender gets -2 and becomes ready, the task is gone, nothing else changes. */
  lemma ExitEffect(k: Kernel)
    requires InvRunning(k) && CallerOk(k)
    ensures var o := ExitStep(k);
            && o.Running?
            && o.k.tasks.Keys == k.tasks.Keys - {k.current}
            && (forall t :: t in o.k.tasks ==>
                  o.k.tasks[t] == if t in k.tasks[k.current].senders then Woken(k.tasks[t]) else k.tasks[t])
            && QueueOk(o.k.tasks, o.k.ready, Some(k.current))
            && o.k.events == k.events && o.k.current == k.current && o.k.mem == k.mem
  {
    var task := k.tasks[k.current];
    var k0 := SetTask(k, k.current, task.(parent := None, senders := []));
    QueueSame(k.tasks, k.ready, Some(k.current), k0.tasks, Some(k.current));
    SendersBlocked(k.tasks, k.current);
    WakeAllEffect(k0, task.senders, Some(k.current));
    var k1 := WakeAll(k0, task.senders).k;
    QueueSame(k1.tasks, k1.ready, Some(k.current), k1.tasks - {k.current}, Some(k.current));
  }

  lemma ExitSenders(tasks: map<Tid, Task>, me: Tid, tasks': map<Tid, Task>)
    requires SendersOk(tasks) && me in tasks && tasks[me].state.Ready? && tasks'.Keys == tasks.Keys - {me}
    requires forall t :: t in tasks' ==>
               tasks'[t] == if t in tasks[me].senders then Woken(tasks[t]) else tasks[t]
    ensures SendersOk(tasks')
  {
    forall s, r ensures BlockedOn(tasks', s, r) <==> Listed(tasks', s, r) {
      assert BlockedOn(tasks, s, r) <==> Listed(tasks, s, r);
      assert BlockedOn(tasks, s, me) <==> Listed(tasks, s, me);
    }
  }

  lemma ExitInv(k: Kernel)
    requires InvRunning(k) && CallerOk(k)
    ensures ExitStep(k).Running? && Inv(ExitStep(k).k, Some(k.current)) && ExitStep(k).k.current == k.current
    ensures k.current !in ExitStep(k).k.tasks
  {
    ExitEffect(k);
    SendersBlocked(k.tasks, k.current);
    ExitSenders(k.tasks, k.current, ExitStep(k).k.tasks);
    EventsKept(k.tasks, ExitStep(k).k.tasks, k.events);
  }

  /** Interrupts are serviced beside the running task `run`, if any. */
  ghost predicate Beside(k: Kernel, run: Option<Tid>) {
    run.Some? ==> run.value in k.tasks && k.tasks[run.value].state.Ready?
  }

  ghost predicate Undisturbed(k: Kernel, run: Option<Tid>, k': Kernel) {
    && Inv(k', run) && k'.current == k.current
    && (run.Some? && run.value in k.tasks ==> run.value in k'.tasks && k'.tasks[run.value] == k.tasks[run.value])
  }

  lemma WakeWaiterInv(k: Kernel, run: Option<Tid>, no: nat, raw: Int32)
    requires Inv(k, run) && Beside(k, run) && no in k.events && k.events[no].Waiter?
    ensures k.events[no].tid in k.tasks && Awaits(k.tasks, k.events[no].tid, no)
    ensures |k.ready| < MAX_SCHEDULED_TASKS && Inv(WakeWaiter(k, no, raw), run)
  {
    var t := k.events[no].tid;
    assert HasWaiter(k.events, no, t) && Awaits(k.tasks, t, no);
    var tasks' := k.tasks[t := k.tasks[t].(state := Ready, ret := raw)];
    QueuePush(k.tasks, k.ready, run, t, tasks', run);
    SendersKept(k.tasks, tasks');
    ServedEvents(k.tasks, k.events, no, t, tasks');
  }

  lemma ServiceInv(k: Kernel, run: Option<Tid>, no: nat, irq: Interrupts)
    requires Inv(k, run) && WaitersLive(k) && Beside(k, run)
    ensures ServiceStep(k, no, irq).Halted? <==> !IsEvent(no)
    ensures IsEvent(no) ==> Undisturbed(k, run, ServiceStep(k, no, irq).k)
  {
    if IsEvent(no) {
      if no in k.events && k.events[no].Waiter? {
        WakeWaiterInv(k, run, no, EventData(no, irq));
      } else {
        ForgottenEvents(k.tasks, k.events, no, k.events[no := Data(EventData(no, irq))]);
      }
    }
  }

  lemma ServedEvents(tasks: map<Tid, Task>, events: map<nat, Slot>, no: nat, t: Tid, tasks': map<Tid, Task>)
    requires EventsOk(tasks, events) && Awaits(tasks, t, no)
    requires exists task: Task :: task.state.Ready? && tasks' == tasks[t := task]
    ensures EventsOk(tasks', events - {no})
  {
    forall u, id ensures Awaits(tasks', u, id) <==> HasWaiter(events - {no}, id, u) {
      assert Awaits(tasks, u, id) <==> HasWaiter(events, id, u);
      assert Awaits(tasks, t, no) <==> HasWaiter(events, no, t);
    }
  }

  lemma ForgottenEvents(tasks: map<Tid, Task>, events: map<nat, Slot>, no: nat, events': map<nat, Slot>)
    requires EventsOk(tasks, events) && IsEvent(no) && (no in events ==> events[no].Data?)
    requires exists raw :: events' == events[no := Data(raw)]
    ensures EventsOk(tasks, events')
  {
    forall u, id ensures Awaits(tasks, u, id) <==> HasWaiter(events', id, u) {
      assert Awaits(tasks, u, id) <==> HasWaiter(events, id, u);
    }
  }

  lemma WriteReturnInv(k: Kernel, run: Option<Tid>, tid: Tid, value: int)
    requires Inv(k, run) && tid in k.tasks
    ensures Inv(WriteReturn(k, tid, value), run)
  {
    var k' := WriteReturn(k, tid, value);
    QueueSame(k.tasks, k.ready, run, k'.tasks, run);
    SendersKept(k.tasks, k'.tasks);
    EventsKept(k.tasks, k'.tasks, k.events);
  }

  lemma WaitersAreLive(k: Kernel, run: Option<Tid>)
    requires Inv(k, run)
    ensures WaitersLive(k)
  {
    forall id | id in k.events && k.events[id].Waiter? ensures k.events[id].tid in k.tasks {
      assert HasWaiter(k.events, id, k.events[id].tid);
      assert Awaits(k.tasks, k.events[id].tid, id);
    }
  }

  lemma CallerIsOk(k: Kernel)
    requires InvRunning(k)
    ensures CallerOk(k)
  {
    SendersBlocked(k.tasks, k.current);
    assert k.tasks[k.current].senders != [] ==> k.tasks[k.current].senders[0] in k.tasks[k.current].senders;
  }

  lemma {:induction false} ServiceLinesInv(k: Kernel, run: Option<Tid>, lines: Lines, base: nat, from: nat,
                                           irq: Interrupts)
    requires Inv(k, run) && WaitersLive(k) && Beside(k, run) && from <= 32
    ensures var o := ServiceLines(k, lines, base, from, irq);
            && (o.Halted? <==> exists i :: from <= i < 32 && lines[i] && !IsEvent(base + i))
            && (o.Running? ==> Undisturbed(k, run, o.k))
    decreases 32 - from
  {
    hide Inv, WaitersLive;
    if from == 32 {
    } else {
      if !lines[from] {
        ServiceLinesInv(k, run, lines, base, from + 1, irq);
      } else {
        ServiceInv(k, run, base + from, irq);
        if IsEvent(base + from) {
          WaitersAreLive(ServiceStep(k, base + from, irq).k, run);
          ServiceLinesInv(ServiceStep(k, base + from, irq).k, run, lines, base, from + 1, irq);
        }
      }
    }
  }

  ghost predicate UnexpectedInterrupt(irq: Interrupts) {
    exists i :: 0 <= i < 32 && ((irq.vic1[i] && !IsEvent(i)) || (irq.vic2[i] && !IsEvent(32 + i)))
  }

  /** Interrupts never disturb the task that has the processor, and only an interrupt line the kernel
      does not expect stops the kernel. */
  lemma InterruptInv(k: Kernel, run: Option<Tid>, irq: Interrupts)
    requires Inv(k, run) && WaitersLive(k) && Beside(k, run)
    ensures InterruptStep(k, irq).Halted? <==> UnexpectedInterrupt(irq)
    ensures InterruptStep(k, irq).Running? ==> Undisturbed(k, run, InterruptStep(k, irq).k)
  {
    ServiceLinesInv(k, run, irq.vic1, 0, 0, irq);
    var o := ServiceLines(k, irq.vic1, 0, 0, irq);
    if o.Running? {
      WaitersAreLive(o.k, run);
      ServiceLinesInv(o.k, run, irq.vic2, 32, 0, irq);
    }
  }

  lemma CallInv(k: Kernel, call: Call)
    requires InvRunning(k) && CallerOk(k)
    ensures var o := CallStep(k, call); o.Running? ==> Inv(o.k, Some(k.current)) && o.k.current == k.current
  {
    hide QueueOk, EventsOk;
    var run := Some(k.current);
    match call
    case Yield =>
    case Perf(_, _) =>
    case Exit => ExitInv(k);
    case MyParentTid => WriteReturnInv(k, run, k.current, ParentTid(k.tasks[k.current]));
    case MyTid => WriteReturnInv(k, run, k.current, AsInt(k.current));
    case Create(priority) =>
      CreateInv(k, priority);
      var (o, ret) := CreateStep(k, priority);
      WriteReturnInv(o.k, run, k.current, ret);
    case Send(to, msg, mlen, reply, rlen) =>
      if 0 <= to < MAX_SCHEDULED_TASKS && to in k.tasks {
        if k.tasks[to].state.RecvWait? {
          DeliverInv(k, to, msg, Max(mlen, 0), reply, Max(rlen, 0));
        } else {
          EnqueueInv(k, to, msg, Max(mlen, 0), reply, Max(rlen, 0));
        }
      }
      var (k1, ret) := SendStep(k, to, msg, mlen, reply, rlen);
      WriteReturnInv(k1, run, k.current, ret);
    case Receive(tidOut, buf, len) =>
      if k.tasks[k.current].senders == [] {
        BlockedReceiveInv(k, tidOut, buf, ToSize(len));
      } else {
        TakeInv(k, tidOut, buf, Max(len, 0));
      }
      var (k1, ret) := ReceiveStep(k, tidOut, buf, len);
      WriteReturnInv(k1, run, k.current, ret);
    case Reply(to, reply, rlen) =>
      ReplyInv(k, to, reply, rlen);
      var (k1, ret) := ReplyStep(k, to, reply, rlen);
      WriteReturnInv(k1, run, k.current, ret);
    case AwaitEvent(id) =>
      AwaitInv(k, id);
      var (o, ret) := AwaitStep(k, id);
      if o.Running? { WriteReturnInv(o.k, run, k.current, ret); }
    case Shutdown =>
    case Unknown =>
  }

  /** The task whose trap was handled goes back to the queue if it is still ready. */
  lemma RequeueInv(k: Kernel)
    requires Inv(k, Some(k.current))
    ensures Requeue(k).Running? && Inv(Requeue(k).k, None)
  {
    if k.current in k.tasks && k.tasks[k.current].state.Ready? {
      QueuePush(k.tasks, k.ready, Some(k.current), k.current, k.tasks, None);
    } else {
      QueueSame(k.tasks, k.ready, Some(k.current), k.tasks, None);
    }
  }

  lemma TrapInv(k: Kernel, trap: Trap)
    requires InvRunning(k) && CallerOk(k) && WaitersLive(k)
    ensures var o := TrapStep(k, trap); o.Running? ==> Inv(o.k, Some(k.current)) && o.k.current == k.current
  {
    match trap
    case Swi(call) => CallInv(k, call);
    case Irq(r0, irq) =>
      WriteReturnInv(k, Some(k.current), k.current, r0);
      InterruptInv(WriteReturn(k, k.current, r0), Some(k.current), irq);
  }
}
