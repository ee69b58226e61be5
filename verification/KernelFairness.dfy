/** The ready queue of a running kernel: every run is a sequence of arrivals and dispatches, so no
    task is overtaken more often than strictly higher priorities arrive. */
module KernelFairness {
  import opened Options
  import opened Integers
  import opened PriorityQueues
  import opened KernelModel
  import opened KernelInvariant
  import opened KernelRuns
  import opened Scheduling

  type Ops = seq<Op<Tid>>

  // ---------------------------------------------------------------------------------------------
  // What each step does to the queue.

  function PushOps(ready: seq<Item<Tid>>, tid: Tid, priority: nat): Ops {
    if |ready| < MAX_SCHEDULED_TASKS then [Arrive(Item(priority, tid))] else []
  }

  /** The tasks of `list` that join the queue in WakeAll. */
  function WakeOps(k: Kernel, list: seq<Tid>): Ops
    requires forall s :: s in list ==> s in k.tasks
    decreases |list|
  {
    if list == [] || |k.ready| >= MAX_SCHEDULED_TASKS then []
    else
      var task := k.tasks[list[0]];
      var k1 := SetTask(k, list[0], task.(state := Ready, ret := -2));
      PushOps(k.ready, list[0], task.priority) + WakeOps(k1.(ready := Push(k.ready, list[0], task.priority)), list[1..])
  }

  function ServiceOps(k: Kernel, lines: Lines, base: nat, from: nat, irq: Interrupts): Ops
    requires from <= 32 && WaitersLive(k)
    decreases 32 - from
  {
    if from == 32 then []
    else if !lines[from] then ServiceOps(k, lines, base, from + 1, irq)
    else match ServiceStep(k, base + from, irq)
      case Halted => []
      case Running(k1) => WaiterOps(k, base + from) + ServiceOps(k1, lines, base, from + 1, irq)
  }

  /** The task waiting for interrupt `no`, if any, joins the queue. */
  function WaiterOps(k: Kernel, no: nat): Ops
    requires WaitersLive(k)
  {
    if no in k.events && k.events[no].Waiter? then
      PushOps(k.ready, k.events[no].tid, k.tasks[k.events[no].tid].priority)
    else []
  }

  function InterruptOps(k: Kernel, irq: Interrupts): Ops
    requires WaitersLive(k)
  {
    ServiceOps(k, irq.vic1, 0, 0, irq) +
    match ServiceLines(k, irq.vic1, 0, 0, irq)
    case Halted => []
    case Running(k1) =>
      ServiceLinesWaitersLive(k, irq.vic1, 0, 0, irq);
      ServiceOps(k1, irq.vic2, 32, 0, irq)
  }

  predicate Known(k: Kernel, t: Int32) { 0 <= t < MAX_SCHEDULED_TASKS && t in k.tasks }

  function CallOps(k: Kernel, call: Call): Ops
    requires CallerOk(k)
  {
    match call
    case Exit =>
      var task := k.tasks[k.current];
      WakeOps(SetTask(k, k.current, task.(parent := None, senders := [])), task.senders)
    case Create(priority) =>
      if priority >= 0 && NextTid(k.tasks, 0).Some? then PushOps(k.ready, NextTid(k.tasks, 0).value, priority) else []
    case Send(to, _, _, _, _) =>
      if Known(k, to) && k.tasks[to].state.RecvWait? then PushOps(k.ready, to, k.tasks[to].priority) else []
    case Reply(to, _, _) =>
      if Known(k, to) && k.tasks[to].state.ReplyWait? then PushOps(k.ready, to, k.tasks[to].priority) else []
    case _ => []
  }

  function RequeueOps(k: Kernel): Ops {
    if k.current in k.tasks && k.tasks[k.current].state.Ready? then
      PushOps(k.ready, k.current, k.tasks[k.current].priority)
    else []
  }

  function TrapOps(k: Kernel, trap: Trap): Ops
    requires CallerOk(k) && WaitersLive(k)
  {
    match trap
    case Swi(call) => CallOps(k, call)
    case Irq(r0, irq) => InterruptOps(WriteReturn(k, k.current, r0), irq)
  }

  /** A pass dispatches the front of the queue, if there is one, and lets tasks arrive. */
  function StepOps(k: Kernel, input: Input): Ops
    requires Usable(k)
  {
    if k.ready != [] then
      DispatchInv(k, input.mem);
      var k0 := Dispatch(k, input.mem);
      [Serve] + (TrapOps(k0, input.trap) +
        match TrapStep(k0, input.trap) case Halted => [] case Running(k1) => RequeueOps(k1))
    else
      WaitersAreLive(k, None);
      InterruptOps(k, input.idle)
  }

  function RunOps(k: Kernel, inputs: seq<Input>): Ops
    requires Usable(k)
    decreases |inputs|
  {
    if inputs == [] then []
    else
      StepKeepsInv(k, inputs[0]);
      match Step(k, inputs[0])
      case Next(k1) => StepOps(k, inputs[0]) + RunOps(k1, inputs[1..])
      case Finished(_) => []
      case Stopped => []
  }

  /** The tasks that get the processor in a run, in order, with their priorities. */
  function Dispatched(k: Kernel, inputs: seq<Input>): seq<Item<Tid>>
    requires Usable(k)
    decreases |inputs|
  {
    if inputs == [] then []
    else
      StepKeepsInv(k, inputs[0]);
      match Step(k, inputs[0])
      case Next(k1) => (if k.ready != [] then [k.ready[0]] else []) + Dispatched(k1, inputs[1..])
      case Finished(_) => []
      case Stopped => []
  }

  // ---------------------------------------------------------------------------------------------
  // Runs of the queue.

  /** From q to q' by arrivals only. */
  ghost predicate Arriving(q: seq<Item<Tid>>, ops: Ops, q': seq<Item<Tid>>) {
    Queue(q, ops) == q' && Served(q, ops) == [] && Serves(ops) == 0
  }

  lemma {:induction false} OpsConcat(q: seq<Item<Tid>>, a: Ops, b: Ops)
    ensures Queue(q, a + b) == Queue(Queue(q, a), b)
    ensures Served(q, a + b) == Served(q, a) + Served(Queue(q, a), b)
    ensures Serves(a + b) == Serves(a) + Serves(b)
    decreases |a|
  {
    if a == [] {
      assert a + b == b;
    } else {
      var c, rest := a + b, a[1..];
      assert c[0] == a[0] && c[1..] == rest + b;
      match a[0]
      case Arrive(x) => OpsConcat(Insert(q, x), rest, b);
      case Serve =>
        if q == [] {
          OpsConcat(q, rest, b);
        } else {
          OpsConcat(q[1..], rest, b);
          assert ([q[0]] + Served(q[1..], rest)) + Served(Queue(q[1..], rest), b)
              == [q[0]] + (Served(q[1..], rest) + Served(Queue(q[1..], rest), b));
        }
    }
  }

  lemma ArrivingConcat(q: seq<Item<Tid>>, a: Ops, q': seq<Item<Tid>>, b: Ops, q'': seq<Item<Tid>>)
    requires Arriving(q, a, q') && Arriving(q', b, q'')
    ensures Arriving(q, a + b, q'')
  {
    OpsConcat(q, a, b);
  }

  lemma PushArrives(ready: seq<Item<Tid>>, tid: Tid, priority: nat)
    ensures Arriving(ready, PushOps(ready, tid, priority), Push(ready, tid, priority))
  {
    var ops := PushOps(ready, tid, priority);
    if ops != [] {
      assert ops[1..] == [];
      assert Queue(Insert(ready, Item(priority, tid)), []) == Insert(ready, Item(priority, tid));
    }
  }

  lemma {:induction false} WakeArrives(k: Kernel, list: seq<Tid>)
    requires forall s :: s in list ==> s in k.tasks
    ensures WakeAll(k, list).Running? ==> Arriving(k.ready, WakeOps(k, list), WakeAll(k, list).k.ready)
    decreases |list|
  {
    if list == [] || |k.ready| >= MAX_SCHEDULED_TASKS {
    } else {
      var task := k.tasks[list[0]];
      var k1 := SetTask(k, list[0], task.(state := Ready, ret := -2)).(ready := Push(k.ready, list[0], task.priority));
      PushArrives(k.ready, list[0], task.priority);
      WakeArrives(k1, list[1..]);
      if WakeAll(k1, list[1..]).Running? {
        ArrivingConcat(k.ready, PushOps(k.ready, list[0], task.priority), k1.ready, WakeOps(k1, list[1..]),
                       WakeAll(k1, list[1..]).k.ready);
      }
    }
  }

  lemma WaiterArrives(k: Kernel, no: nat, irq: Interrupts)
    requires WaitersLive(k) && ServiceStep(k, no, irq).Running?
    ensures WaitersLive(ServiceStep(k, no, irq).k)
    ensures Arriving(k.ready, WaiterOps(k, no), ServiceStep(k, no, irq).k.ready)
  {
    if no in k.events && k.events[no].Waiter? {
      PushArrives(k.ready, k.events[no].tid, k.tasks[k.events[no].tid].priority);
    }
  }

  lemma {:induction false} ServiceArrives(k: Kernel, lines: Lines, base: nat, from: nat, irq: Interrupts)
    requires from <= 32 && WaitersLive(k)
    ensures var o := ServiceLines(k, lines, base, from, irq);
            o.Running? ==> Arriving(k.ready, ServiceOps(k, lines, base, from, irq), o.k.ready)
    decreases 32 - from
  {
    if from == 32 {
    } else {
      if !lines[from] {
        ServiceArrives(k, lines, base, from + 1, irq);
      } else if ServiceStep(k, base + from, irq).Running? {
        var k1 := ServiceStep(k, base + from, irq).k;
        WaiterArrives(k, base + from, irq);
        ServiceArrives(k1, lines, base, from + 1, irq);
        if ServiceLines(k1, lines, base, from + 1, irq).Running? {
          ArrivingConcat(k.ready, WaiterOps(k, base + from), k1.ready, ServiceOps(k1, lines, base, from + 1, irq),
                         ServiceLines(k1, lines, base, from + 1, irq).k.ready);
        }
      }
    }
  }

  lemma InterruptArrives(k: Kernel, irq: Interrupts)
    requires WaitersLive(k)
    ensures InterruptStep(k, irq).Running? ==> Arriving(k.ready, InterruptOps(k, irq), InterruptStep(k, irq).k.ready)
  {
    ServiceArrives(k, irq.vic1, 0, 0, irq);
    var o := ServiceLines(k, irq.vic1, 0, 0, irq);
    if o.Running? {
      ServiceLinesWaitersLive(k, irq.vic1, 0, 0, irq);
      ServiceArrives(o.k, irq.vic2, 32, 0, irq);
      if ServiceLines(o.k, irq.vic2, 32, 0, irq).Running? {
        ArrivingConcat(k.ready, ServiceOps(k, irq.vic1, 0, 0, irq), o.k.ready, ServiceOps(o.k, irq.vic2, 32, 0, irq),
                       ServiceLines(o.k, irq.vic2, 32, 0, irq).k.ready);
      }
    }
  }

  lemma CallArrives(k: Kernel, call: Call)
    requires CallerOk(k)
    ensures CallStep(k, call).Running? ==> Arriving(k.ready, CallOps(k, call), CallStep(k, call).k.ready)
  {
    match call
    case Exit =>
      var task := k.tasks[k.current];
      WakeArrives(SetTask(k, k.current, task.(parent := None, senders := [])), task.senders);
    case Create(priority) =>
      if priority >= 0 && NextTid(k.tasks, 0).Some? { PushArrives(k.ready, NextTid(k.tasks, 0).value, priority); }
    case Send(to, _, _, _, _) =>
      if Known(k, to) { PushArrives(k.ready, to, k.tasks[to].priority); }
    case Reply(to, _, _) =>
      if Known(k, to) { PushArrives(k.ready, to, k.tasks[to].priority); }
    case _ =>
  }

  lemma TrapArrives(k: Kernel, trap: Trap)
    requires CallerOk(k) && WaitersLive(k)
    ensures TrapStep(k, trap).Running? ==> Arriving(k.ready, TrapOps(k, trap), TrapStep(k, trap).k.ready)
  {
    match trap
    case Swi(call) => CallArrives(k, call);
    case Irq(r0, irq) => InterruptArrives(WriteReturn(k, k.current, r0), irq);
  }

  lemma RequeueArrives(k: Kernel)
    ensures Requeue(k).Running? ==> Arriving(k.ready, RequeueOps(k), Requeue(k).k.ready)
  {
    if k.current in k.tasks { PushArrives(k.ready, k.current, k.tasks[k.current].priority); }
  }

  /** A pass is one dispatch, if the queue was not empty, and arrivals. */
  lemma StepQueues(k: Kernel, input: Input)
    requires Usable(k) && Step(k, input).Next?
    ensures Queue(k.ready, StepOps(k, input)) == Step(k, input).k.ready
    ensures Served(k.ready, StepOps(k, input)) == if k.ready != [] then [k.ready[0]] else []
    ensures Serves(StepOps(k, input)) == if k.ready != [] then 1 else 0
  {
    if k.ready != [] {
      DispatchInv(k, input.mem);
      var k0 := Dispatch(k, input.mem);
      var k1 := TrapStep(k0, input.trap).k;
      TrapArrives(k0, input.trap);
      RequeueArrives(k1);
      ArrivingConcat(k0.ready, TrapOps(k0, input.trap), k1.ready, RequeueOps(k1), Requeue(k1).k.ready);
      var rest := TrapOps(k0, input.trap) + RequeueOps(k1);
      assert ([Serve] + rest)[1..] == rest;
    } else {
      WaitersAreLive(k, None);
      InterruptArrives(k, input.idle);
    }
  }

  /** A whole run of the kernel is a run of the queue, and serves the tasks the kernel dispatches. */
  lemma {:induction false} RunQueues(k: Kernel, inputs: seq<Input>)
    requires Usable(k) && Run(k, inputs).Next?
    ensures Queue(k.ready, RunOps(k, inputs)) == Run(k, inputs).k.ready
    ensures Served(k.ready, RunOps(k, inputs)) == Dispatched(k, inputs)
    ensures Serves(RunOps(k, inputs)) == |Dispatched(k, inputs)|
    decreases |inputs|
  {
    if inputs == [] {
    } else {
      StepKeepsInv(k, inputs[0]);
      StepQueues(k, inputs[0]);
      var k1 := Step(k, inputs[0]).k;
      RunQueues(k1, inputs[1..]);
      OpsConcat(k.ready, StepOps(k, inputs[0]), RunOps(k1, inputs[1..]));
    }
  }

  /** x, once at rank j, is where the dispatches and `higher` arrivals of strictly higher priority have
      put it, or was among the first j + 1 + higher to be dispatched. */
  ghost predicate KeepsItsTurn(ready: seq<Item<Tid>>, dispatched: seq<Item<Tid>>, j: nat, higher: nat, x: Item<Tid>) {
    WaitsAt(ready, j + higher - |dispatched|, x) || LeftWithin(dispatched, j + 1 + higher, x)
  }

  lemma TurnKept(q: seq<Item<Tid>>, j: nat, ops: Ops)
    requires Sorted(q) && j < |q| && Serves(ops) == |Served(q, ops)|
    ensures KeepsItsTurn(Queue(q, ops), Served(q, ops), j, Higher(ops, q[j].priority), q[j])
  {
    BoundedOvertaking(q, j, ops);
    assert InTurn(q, j, q[j], ops);
  }

  /** In every run from a reachable state, a task in the ready queue keeps its turn: it is overtaken by
      nothing but arrivals of strictly higher priority. */
  lemma OvertakenByHigherOnly(k: Kernel, inputs: seq<Input>, j: nat)
    requires Usable(k) && j < |k.ready| && Run(k, inputs).Next?
    ensures KeepsItsTurn(Run(k, inputs).k.ready, Dispatched(k, inputs), j,
                         Higher(RunOps(k, inputs), k.ready[j].priority), k.ready[j])
  {
    RunQueues(k, inputs);
    TurnKept(k.ready, j, RunOps(k, inputs));
  }
}
