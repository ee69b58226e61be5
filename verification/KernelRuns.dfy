/** Whole runs of the kernel: what holds of every state any sequence of user programs, system calls
    and interrupts can lead to. */
module KernelRuns {
  import opened Options
  import opened Integers
  import opened Sequences
  import opened PriorityQueues
  import opened KernelModel
  import opened KernelInvariant

  /** One pass of the run loop goes on, leaves the loop, or stops in kpanic or kexit. */
  datatype Pass = Next(k: Kernel) | Finished(k: Kernel) | Stopped

  /** The state of a dispatched task just before it traps. */
  function Dispatch(k: Kernel, mem: Memory): Kernel
    requires k.ready != []
  {
    k.(ready := k.ready[1..], current := k.ready[0].data, mem := mem)
  }

  function Activate(k: Kernel, trap: Trap): Pass
    requires CallerOk(k) && WaitersLive(k)
  {
    match TrapStep(k, trap)
    case Halted => Stopped
    case Running(k1) => match Requeue(k1) case Halted => Stopped case Running(k2) => Next(k2)
  }

  ghost predicate Usable(k: Kernel) { Inv(k, None) }

  lemma DispatchInv(k: Kernel, mem: Memory)
    requires Usable(k) && k.ready != []
    ensures InvRunning(Dispatch(k, mem)) && CallerOk(Dispatch(k, mem)) && WaitersLive(Dispatch(k, mem))
  {
    QueuePop(k.tasks, k.ready);
    CallerIsOk(Dispatch(k, mem));
    WaitersAreLive(Dispatch(k, mem), Some(Dispatch(k, mem).current));
  }

  function Step(k: Kernel, input: Input): Pass
    requires Usable(k)
  {
    if k.ready != [] then
      DispatchInv(k, input.mem);
      Activate(Dispatch(k, input.mem), input.trap)
    else if k.events == map[] then Finished(k)
    else
      WaitersAreLive(k, None);
      match InterruptStep(k, input.idle) case Halted => Stopped case Running(k1) => Next(k1)
  }

  lemma ActivateInv(k: Kernel, trap: Trap)
    requires InvRunning(k) && CallerOk(k) && WaitersLive(k)
    ensures Activate(k, trap).Next? ==> Usable(Activate(k, trap).k)
    ensures Activate(k, trap).Stopped? <==> TrapStep(k, trap).Halted?
    ensures !Activate(k, trap).Finished?
  {
    TrapInv(k, trap);
    var o := TrapStep(k, trap);
    if o.Running? { RequeueInv(o.k); }
  }

  /** Every pass keeps every live task where its state says it is. */
  lemma StepKeepsInv(k: Kernel, input: Input)
    requires Usable(k)
    ensures Step(k, input).Next? ==> Usable(Step(k, input).k)
    ensures Step(k, input).Finished? <==> k.ready == [] && k.events == map[]
    ensures Step(k, input).Finished? ==> Step(k, input).k == k
  {
    if k.ready != [] {
      DispatchInv(k, input.mem);
      ActivateInv(Dispatch(k, input.mem), input.trap);
    } else if k.events != map[] {
      WaitersAreLive(k, None);
      InterruptInv(k, None, input.idle);
    }
  }

  /** The kernel as initialize() leaves it: the name server at tid 1, the first user task at tid 0. */
  function Boot(mem: Memory): (k: Kernel)
    ensures Usable(k) && k.tasks.Keys == {0, 1} && k.tasks[0].state.Ready? && k.tasks[1].state.Ready?
  {
    var k0 := Kernel(map[], [], map[], NOBODY, mem);
    assert Usable(k0);
    AddTaskInv(k0, None, 1, 0);
    var k1 := CreateTaskStep(k0, 0, Some(1)).0.k;
    AddTaskInv(k1, None, 0, 0);
    CreateStep(k1, 0).0.k
  }

  /** The two tasks are created without a panic. */
  lemma BootSteps(k: Kernel)
    requires k == Kernel(map[], [], map[], NOBODY, k.mem)
    ensures SendersOk(k.tasks) && CreateTaskStep(k, 0, Some(1)).0.Running?
    ensures var k1 := CreateTaskStep(k, 0, Some(1)).0.k;
            SendersOk(k1.tasks) && CreateStep(k1, 0).0.Running? && CreateStep(k1, 0).0.k == Boot(k.mem)
  {
    AddTaskInv(k, None, 1, 0);
    AddTaskInv(CreateTaskStep(k, 0, Some(1)).0.k, None, 0, 0);
  }

  /** The name server is dispatched first; both tasks have priority 0, nobody for a parent and no senders. */
  lemma BootState(mem: Memory)
    ensures Boot(mem) == Kernel(map[0 := Task(0, Some(0xFFFF_FFFF), Ready, [], 0),
                                    1 := Task(0, Some(0xFFFF_FFFF), Ready, [], 0)],
                                [Item(0, 1), Item(0, 0)], map[], 0xFFFF_FFFF, mem)
  {
  }

  function Run(k: Kernel, inputs: seq<Input>): Pass
    requires Usable(k)
    decreases |inputs|
  {
    if inputs == [] then Next(k)
    else
      StepKeepsInv(k, inputs[0]);
      match Step(k, inputs[0])
      case Next(k1) => Run(k1, inputs[1..])
      case Finished(k1) => Finished(k1)
      case Stopped => Stopped
  }

  /** The rest of a run after one pass. */
  ghost function After(p: Pass, inputs: seq<Input>): Pass {
    if p.Next? && Usable(p.k) then Run(p.k, inputs) else p
  }

  lemma RunFrom(k: Kernel, inputs: seq<Input>, i: nat)
    requires Usable(k) && i <= |inputs|
    ensures i == |inputs| ==> Run(k, inputs[i..]) == Next(k)
    ensures i < |inputs| ==> Run(k, inputs[i..]) == After(Step(k, inputs[i]), inputs[i + 1..])
  {
    if i < |inputs| {
      StepKeepsInv(k, inputs[i]);
      assert inputs[i..][0] == inputs[i] && inputs[i..][1..] == inputs[i + 1..];
    }
  }

  lemma {:induction false} RunKeepsInv(k: Kernel, inputs: seq<Input>)
    requires Usable(k)
    ensures Run(k, inputs).Next? || Run(k, inputs).Finished? ==> Usable(Run(k, inputs).k)
    ensures Run(k, inputs).Finished? ==> Run(k, inputs).k.ready == [] && Run(k, inputs).k.events == map[]
    decreases |inputs|
  {
    if inputs == [] {
    } else {
      StepKeepsInv(k, inputs[0]);
      if Step(k, inputs[0]).Next? { RunKeepsInv(Step(k, inputs[0]).k, inputs[1..]); }
    }
  }

  /** How often a tid stands in the ready queue. */
  ghost function TimesQueued(ready: seq<Item<Tid>>, t: Tid): nat { multiset(Tids(ready))[t] }

  /** How often a tid stands in the list of senders waiting for r. */
  ghost function TimesListed(k: Kernel, r: Tid, t: Tid): nat
    requires r in k.tasks
  {
    multiset(k.tasks[r].senders)[t]
  }

  ghost predicate InItsPlace(k: Kernel, t: Tid) {
    && TimesQueued(k.ready, t) == (if t in k.tasks && k.tasks[t].state.Ready? then 1 else 0)
    && (forall r :: r in k.tasks ==> TimesListed(k, r, t) == (if BlockedOn(k.tasks, t, r) then 1 else 0))
    && (t in k.tasks && k.tasks[t].state.SendWait? ==> k.tasks[t].state.to in k.tasks)
    && (forall id :: HasWaiter(k.events, id, t) <==> Awaits(k.tasks, t, id))
    && (t in k.tasks && k.tasks[t].state.RecvWait? ==> k.tasks[t].senders == [])
  }

  lemma UsableInPlace(k: Kernel, t: Tid)
    requires Usable(k)
    ensures InItsPlace(k, t) && |k.ready| <= MAX_SCHEDULED_TASKS
  {
    Pigeonhole(Tids(k.ready), MAX_SCHEDULED_TASKS);
    DistinctCount(Tids(k.ready), t);
    assert t in Tids(k.ready) <==> Runnable(k.tasks, None, t);
    forall r | r in k.tasks ensures TimesListed(k, r, t) == (if BlockedOn(k.tasks, t, r) then 1 else 0) {
      DistinctCount(k.tasks[r].senders, t);
      assert BlockedOn(k.tasks, t, r) <==> Listed(k.tasks, t, r);
    }
    var to := if t in k.tasks && k.tasks[t].state.SendWait? then k.tasks[t].state.to else 0;
    assert BlockedOn(k.tasks, t, to) <==> Listed(k.tasks, t, to);
  }

  /** In every state of every run, every live task sits exactly where its state says, and the
      48-place ready queue has never overflowed. */
  lemma EveryTaskInItsPlace(mem: Memory, inputs: seq<Input>, t: Tid)
    ensures !Run(Boot(mem), inputs).Stopped? ==>
      && InItsPlace(Run(Boot(mem), inputs).k, t)
      && |Run(Boot(mem), inputs).k.ready| <= MAX_SCHEDULED_TASKS
  {
    RunKeepsInv(Boot(mem), inputs);
    var p := Run(Boot(mem), inputs);
    if !p.Stopped? { UsableInPlace(p.k, t); }
  }

  lemma {:induction false} DistinctCount<T>(s: seq<T>, x: T)
    requires Distinct(s)
    ensures multiset(s)[x] == if x in s then 1 else 0
  {
    if s == [] {
    } else {
      FrontApart(s);
      assert s == [s[0]] + s[1..];
      DistinctCount(s[1..], x);
    }
  }

  predicate WaitsForATask(s: RunState) { s.SendWait? || s.RecvWait? || s.ReplyWait? }

  lemma NothingToDo(k: Kernel, t: Tid)
    requires Usable(k) && k.ready == [] && k.events == map[] && t in k.tasks
    ensures WaitsForATask(k.tasks[t].state)
  {
    assert t in Tids(k.ready) <==> Runnable(k.tasks, None, t);
    var id := if k.tasks[t].state.EventWait? then k.tasks[t].state.id else 0;
    assert Awaits(k.tasks, t, id) <==> HasWaiter(k.events, id, t);
  }

  /** run() leaves its loop only when every live task waits for another task. */
  lemma FinishedMeansAllBlocked(mem: Memory, inputs: seq<Input>, t: Tid)
    ensures Run(Boot(mem), inputs).Finished? && t in Run(Boot(mem), inputs).k.tasks ==>
              WaitsForATask(Run(Boot(mem), inputs).k.tasks[t].state)
  {
    RunKeepsInv(Boot(mem), inputs);
    var p := Run(Boot(mem), inputs);
    if p.Finished? && t in p.k.tasks { NothingToDo(p.k, t); }
  }

  /** What a user program or the hardware has to do to stop the kernel. */
  ghost predicate Fatal(k: Kernel, trap: Trap) {
    match trap
    case Irq(_, irq) => UnexpectedInterrupt(irq)
    case Swi(call) =>
      match call
      case AwaitEvent(id) => !IsEvent(id) || (id in k.events && k.events[id].Waiter?)
      case Shutdown => true
      case Unknown => true
      case _ => false
  }

  /** No assertion of the kernel ever fails and no queue ever overflows: it stops for nothing else. */
  lemma StopsOnlyWhenTold(k: Kernel, input: Input)
    requires Usable(k)
    ensures Step(k, input).Stopped? <==>
              if k.ready != [] then Fatal(Dispatch(k, input.mem), input.trap)
              else k.events != map[] && UnexpectedInterrupt(input.idle)
  {
    if k.ready != [] {
      DispatchInv(k, input.mem);
      var k1 := Dispatch(k, input.mem);
      ActivateInv(k1, input.trap);
      match input.trap
      case Irq(r0, irq) =>
        WriteReturnInv(k1, Some(k1.current), k1.current, r0);
        InterruptInv(WriteReturn(k1, k1.current, r0), Some(k1.current), irq);
      case Swi(call) =>
        if call.Exit? { ExitInv(k1); }
        if call.Create? { CreateInv(k1, call.priority); }
    } else if k.events != map[] {
      WaitersAreLive(k, None);
      InterruptInv(k, None, input.idle);
    }
  }

  /** Why an exited task must not be put back: were its tid queued again, it would stand in the ready
      queue twice after the next Create if and only if that Create took it - and a queue left without
      room would stop the kernel. */
  lemma RequeuedDeadTidIsDoubled(k: Kernel, priority: Int32)
    requires InvRunning(k) && CallerOk(k) && priority >= 0
    ensures ExitStep(k).Running?
    ensures var k1 := ExitStep(k).k;
            var o := CreateStep(Revived(k), priority).0;
            && (o.Halted? <==> |k1.ready| + 2 > MAX_SCHEDULED_TASKS)
            && (o.Running? ==>
                  TimesQueued(o.k.ready, k.current) == if NextTid(k1.tasks, 0) == Some(k.current) then 2 else 1)
  {
    hide SendersOk, EventsOk, Sorted;
    ExitInv(k);
    var k1 := ExitStep(k).k;
    assert NextTid(k1.tasks, 0).Some?;
    assert k.current in Tids(k1.ready) <==> Runnable(k1.tasks, Some(k.current), k.current);
    if |k1.ready| + 2 <= MAX_SCHEDULED_TASKS {
      var x := Item(k.tasks[k.current].priority, k.current);
      InsertCounts(k1.ready, x, k.current);
      InsertCounts(Insert(k1.ready, x), Item(priority, NextTid(k1.tasks, 0).value), k.current);
    }
  }

  /** The state after Exit, were the dead tid put back into the queue. */
  function Revived(k: Kernel): Kernel
    requires CallerOk(k) && ExitStep(k).Running?
  {
    var k1 := ExitStep(k).k;
    k1.(ready := Push(k1.ready, k.current, k.tasks[k.current].priority))
  }

  lemma InsertCounts(q: seq<Item<Tid>>, x: Item<Tid>, t: Tid)
    ensures TimesQueued(Insert(q, x), t) == TimesQueued(q, t) + if x.data == t then 1 else 0
  {
    var k := Place(q, x.priority);
    assert Tids(Insert(q, x)) == Tids(q)[..k] + [x.data] + Tids(q)[k..];
    assert Tids(q) == Tids(q)[..k] + Tids(q)[k..];
  }
}
