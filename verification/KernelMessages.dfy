/** Return values: no task ever sees a placeholder, and an event is returned once, with its own data. */
module KernelMessages {
  import opened Options
  import opened Integers
  import opened KernelModel
  import opened KernelInvariant
  import opened KernelRuns

  /** What a task did last before it stopped running. */
  datatype Origin = Fresh | Called(call: Call) | Preempted

  /** What happens around an event: its interrupt is serviced, a task calls AwaitEvent for it, and the call
      returns with data. */
  datatype Happening =
    | Raised(no: nat, irq: Interrupts)
    | Awaited(tid: Tid, no: nat)
    | Returned(tid: Tid, no: nat, raw: int)

  /** What each task did last, and what has happened around events, oldest first. */
  datatype Past = Past(origin: map<Tid, Origin>, history: seq<Happening>)

  datatype System = System(k: Kernel, past: Past)

  /** The latest interrupt or return of the event. */
  function Latest(h: seq<Happening>, no: nat): Option<Happening> {
    if h == [] then None
    else
      var last := h[|h| - 1];
      if !last.Awaited? && last.no == no then Some(last) else Latest(h[..|h| - 1], no)
  }

  /** The latest call or return of the task. */
  function LastFor(h: seq<Happening>, t: Tid): Option<Happening> {
    if h == [] then None
    else
      var last := h[|h| - 1];
      if !last.Raised? && last.tid == t then Some(last) else LastFor(h[..|h| - 1], t)
  }

  /** An interrupt of the event has not been returned yet, and `raw` is what the latest one reported. */
  predicate Undelivered(h: seq<Happening>, no: nat, raw: int) {
    var l := Latest(h, no);
    l.Some? && l.value.Raised? && raw == EventData(no, l.value.irq)
  }

  /** An interrupt is one that was asserted; a return answers the task's own call with what the latest
      interrupt of the event reported, and no other return has come since that interrupt. */
  predicate MayHappen(h: seq<Happening>, e: Happening) {
    match e
    case Raised(no, irq) => Asserted(irq, no)
    case Awaited(_, _) => true
    case Returned(t, no, raw) => LastFor(h, t) == Some(Awaited(t, no)) && Undelivered(h, no, raw)
  }

  ghost predicate HappenedAt(h: seq<Happening>, i: int) {
    0 <= i < |h| ==> MayHappen(h[..i], h[i])
  }

  ghost predicate HistoryOk(h: seq<Happening>) {
    forall i :: HappenedAt(h, i)
  }

  /** What the return register of a ready task may hold after each kind of call; the other calls return
      nothing. */
  ghost predicate GoodReturn(t: Tid, task: Task, call: Call, h: seq<Happening>) {
    match call
    case Send(_, _, _, _, rlen) => task.ret == -1 || task.ret == -2 || 0 <= task.ret <= Max(rlen, 0)
    case Receive(_, _, len) => 0 <= task.ret <= ToSize(len)
    case Reply(_, _, rlen) => task.ret == -1 || task.ret == -2 || 0 <= task.ret <= Max(rlen, 0)
    case Create(_) =>
      || task.ret == INVALID_PRIORITY || task.ret == OUT_OF_TASK_DESCRIPTORS
      || 0 <= task.ret < MAX_SCHEDULED_TASKS
    case AwaitEvent(id) => id >= 0 && LastFor(h, t) == Some(Returned(t, id, task.ret))
    case MyTid => task.ret == t
    case MyParentTid => task.ret == ParentTid(task)
    case _ => true
  }

  /** A blocked task is blocked in the call it made, with that call's buffer sizes; a ready one has a
      return value its call promises. */
  ghost predicate Consistent(t: Tid, task: Task, origin: Origin, h: seq<Happening>) {
    match task.state
    case Ready => origin.Called? ==> GoodReturn(t, task, origin.call, h)
    case SendWait(_, _, _, _, rplen) => origin.Called? && origin.call.Send? && rplen == Max(origin.call.rlen, 0)
    case ReplyWait(_, rplen) => origin.Called? && origin.call.Send? && rplen == Max(origin.call.rlen, 0)
    case RecvWait(_, _, len) => origin.Called? && origin.call.Receive? && len == ToSize(origin.call.len)
    case EventWait(id) =>
      origin.Called? && origin.call.AwaitEvent? && id == origin.call.id && LastFor(h, t) == Some(Awaited(t, id))
  }

  /** All live tasks but `except` are consistent. */
  ghost predicate ConsistentBut(tasks: map<Tid, Task>, past: Past, except: Option<Tid>) {
    forall t :: t in tasks && except != Some(t) ==>
      t in past.origin && Consistent(t, tasks[t], past.origin[t], past.history)
  }

  /** Event slots keep the data of the latest interrupt, which has not been returned yet. */
  ghost predicate SlotsFresh(events: map<nat, Slot>, h: seq<Happening>) {
    forall id :: id in events && events[id].Data? ==> Undelivered(h, id, events[id].raw)
  }

  ghost predicate PastOk(k: Kernel, past: Past, except: Option<Tid>) {
    ConsistentBut(k.tasks, past, except) && SlotsFresh(k.events, past.history) && HistoryOk(past.history)
  }

  function Then(past: Past, more: seq<Happening>): Past {
    past.(history := past.history + more)
  }

  /** What an AwaitEvent call adds to the history. */
  function CallHappened(k: Kernel, call: Call): seq<Happening> {
    if !call.AwaitEvent? || !IsEvent(call.id) then []
    else if call.id in k.events && k.events[call.id].Data? then
      [Awaited(k.current, call.id), Returned(k.current, call.id, k.events[call.id].raw)]
    else [Awaited(k.current, call.id)]
  }

  /** What the service of an interrupt adds. */
  function ServiceHappened(k: Kernel, no: nat, irq: Interrupts): seq<Happening> {
    if no in k.events && k.events[no].Waiter? then
      [Raised(no, irq), Returned(k.events[no].tid, no, EventData(no, irq))]
    else [Raised(no, irq)]
  }

  function LinesHappened(k: Kernel, lines: Lines, base: nat, from: nat, irq: Interrupts): seq<Happening>
    requires from <= 32 && WaitersLive(k)
    decreases 32 - from
  {
    if from == 32 then []
    else if !lines[from] then LinesHappened(k, lines, base, from + 1, irq)
    else match ServiceStep(k, base + from, irq)
      case Halted => []
      case Running(k1) => ServiceHappened(k, base + from, irq) + LinesHappened(k1, lines, base, from + 1, irq)
  }

  function InterruptHappened(k: Kernel, irq: Interrupts): seq<Happening>
    requires WaitersLive(k)
  {
    LinesHappened(k, irq.vic1, 0, 0, irq) +
    match ServiceLines(k, irq.vic1, 0, 0, irq)
    case Halted => []
    case Running(k1) =>
      ServiceLinesWaitersLive(k, irq.vic1, 0, 0, irq);
      LinesHappened(k1, irq.vic2, 32, 0, irq)
  }

  lemma {:induction false} LinesRecorded(k: Kernel, lines: Lines, base: nat, from: nat, irq: Interrupts, no: nat,
                                         irq': Interrupts)
    requires from <= 32 && WaitersLive(k) && ServiceLines(k, lines, base, from, irq).Running?
    ensures Raised(no, irq') in LinesHappened(k, lines, base, from, irq)
        <==> irq' == irq && base + from <= no < base + 32 && lines[no - base]
    decreases 32 - from
  {
    if from == 32 {
    } else if !lines[from] {
      LinesRecorded(k, lines, base, from + 1, irq, no, irq');
    } else {
      LinesRecorded(ServiceStep(k, base + from, irq).k, lines, base, from + 1, irq, no, irq');
      assert ServiceHappened(k, base + from, irq)[0] == Raised(base + from, irq);
    }
  }

  /** The history gains an interrupt for just the lines that are asserted, with what the UARTs then report. */
  lemma InterruptRecorded(k: Kernel, irq: Interrupts, no: nat, irq': Interrupts)
    requires WaitersLive(k) && InterruptStep(k, irq).Running?
    ensures Raised(no, irq') in InterruptHappened(k, irq) <==> irq' == irq && Asserted(irq, no)
  {
    hide WaitersLive;
    LinesRecorded(k, irq.vic1, 0, 0, irq, no, irq');
    ServiceLinesWaitersLive(k, irq.vic1, 0, 0, irq);
    LinesRecorded(ServiceLines(k, irq.vic1, 0, 0, irq).k, irq.vic2, 32, 0, irq, no, irq');
  }

  /** The past after a system call: the caller's origin changes, and a created task is fresh. */
  function Recorded(k: Kernel, past: Past, call: Call): Past {
    var o1 := past.origin[k.current := Called(call)];
    var o2 := if call.Create? && call.priority >= 0 && NextTid(k.tasks, 0).Some?
              then o1[NextTid(k.tasks, 0).value := Fresh] else o1;
    Past(o2, past.history + CallHappened(k, call))
  }

  ghost predicate SystemOk(s: System) {
    Usable(s.k) && PastOk(s.k, s.past, None)
  }

  /** The past after a pass of the run loop. */
  function PastAfter(s: System, input: Input): Past
    requires Usable(s.k)
  {
    if s.k.ready == [] then
      WaitersAreLive(s.k, None);
      Then(s.past, InterruptHappened(s.k, input.idle))
    else
      DispatchInv(s.k, input.mem);
      var k := Dispatch(s.k, input.mem);
      match input.trap
      case Swi(call) => Recorded(k, s.past, call)
      case Irq(r0, irq) => Preempting(k, s.past, r0, irq)
  }

  function Preempting(k: Kernel, past: Past, r0: int, irq: Interrupts): Past
    requires k.current in k.tasks && WaitersLive(k)
  {
    Past(past.origin[k.current := Preempted], past.history + InterruptHappened(WriteReturn(k, k.current, r0), irq))
  }

  function SystemBoot(mem: Memory): (s: System)
    ensures SystemOk(s)
  {
    System(Boot(mem), Past(map[0 := Fresh, 1 := Fresh], []))
  }

  // Interrupts.

  lemma HistoryMore(h: seq<Happening>, e: Happening)
    requires HistoryOk(h) && MayHappen(h, e)
    ensures HistoryOk(h + [e])
  {
    hide MayHappen;
    forall i ensures HappenedAt(h + [e], i) {
      assert HappenedAt(h, i);
      if 0 <= i < |h| { assert (h + [e])[..i] == h[..i]; } else if i == |h| { assert (h + [e])[..i] == h; }
    }
  }

  lemma LatestMore(h: seq<Happening>, e: Happening, no: nat, t: Tid)
    ensures Latest(h + [e], no) == if !e.Awaited? && e.no == no then Some(e) else Latest(h, no)
    ensures LastFor(h + [e], t) == if !e.Raised? && e.tid == t then Some(e) else LastFor(h, t)
  {
    assert (h + [e])[..|h|] == h;
  }

  /** A happening around another task, or an interrupt, leaves a task consistent. */
  lemma StillConsistent(t: Tid, task: Task, origin: Origin, h: seq<Happening>, e: Happening)
    requires Consistent(t, task, origin, h) && (!e.Raised? ==> e.tid != t)
    ensures Consistent(t, task, origin, h + [e])
  {
    hide LastFor, Latest;
    LatestMore(h, e, 0, t);
  }

  lemma OthersConsistent(tasks: map<Tid, Task>, past: Past, except: Option<Tid>, e: Happening)
    requires ConsistentBut(tasks, past, except) && (!e.Raised? ==> except == Some(e.tid))
    ensures ConsistentBut(tasks, Then(past, [e]), except)
  {
    hide Consistent;
    forall t | t in tasks && except != Some(t)
      ensures t in past.origin && Consistent(t, tasks[t], past.origin[t], past.history + [e])
    {
      StillConsistent(t, tasks[t], past.origin[t], past.history, e);
    }
  }

  /** The data of an interrupt that nobody waits for is kept. */
  lemma KeptOk(k: Kernel, past: Past, except: Option<Tid>, no: nat, irq: Interrupts)
    requires PastOk(k, past, except) && Asserted(irq, no)
    ensures PastOk(k.(events := k.events[no := Data(EventData(no, irq))]), Then(past, [Raised(no, irq)]), except)
  {
    var h, e := past.history, Raised(no, irq);
    HistoryMore(h, e);
    OthersConsistent(k.tasks, past, except, e);
    var events := k.events[no := Data(EventData(no, irq))];
    forall id | id in events && events[id].Data? ensures Undelivered(h + [e], id, events[id].raw) {
      LatestMore(h, e, id, 0);
    }
  }

  lemma SlotsKept(events: map<nat, Slot>, h: seq<Happening>, e: Happening)
    requires SlotsFresh(events, h) && (e.Awaited? || e.no !in events)
    ensures SlotsFresh(events, h + [e])
  {
    forall id | id in events && events[id].Data? ensures Undelivered(h + [e], id, events[id].raw) {
      LatestMore(h, e, id, 0);
    }
  }

  /** The woken waiter of an interrupt gets what the interrupt reports. */
  lemma WakeHistory(h: seq<Happening>, t: Tid, no: nat, irq: Interrupts)
    requires HistoryOk(h) && Asserted(irq, no) && LastFor(h, t) == Some(Awaited(t, no))
    ensures HistoryOk(h + [Raised(no, irq)] + [Returned(t, no, EventData(no, irq))])
  {
    var h1 := h + [Raised(no, irq)];
    HistoryMore(h, Raised(no, irq));
    LatestMore(h, Raised(no, irq), no, t);
    HistoryMore(h1, Returned(t, no, EventData(no, irq)));
  }

  lemma WakeConsistent(k: Kernel, past: Past, run: Option<Tid>, no: nat, irq: Interrupts)
    requires WaitersLive(k) && EventsOk(k.tasks, k.events) && no in k.events && k.events[no].Waiter?
    requires PastOk(k, past, run) && Asserted(irq, no) && run != Some(k.events[no].tid)
    ensures PastOk(WakeWaiter(k, no, EventData(no, irq)), Then(past, ServiceHappened(k, no, irq)), run)
  {
    var t, raw := k.events[no].tid, EventData(no, irq);
    var h, e1, e2 := past.history, Raised(no, irq), Returned(k.events[no].tid, no, EventData(no, irq));
    assert HasWaiter(k.events, no, t) && Awaits(k.tasks, t, no);
    assert Consistent(t, k.tasks[t], past.origin[t], h);
    WakeHistory(h, t, no, irq);
    assert h + ServiceHappened(k, no, irq) == h + [e1] + [e2];
    var events := k.events - {no};
    SlotsKept(events, h, e1);
    SlotsKept(events, h + [e1], e2);
    LatestMore(h + [e1], e2, no, t);
    var k1 := WakeWaiter(k, no, raw);
    hide LastFor, Latest;
    forall t' | t' in k1.tasks && run != Some(t')
      ensures t' in past.origin && Consistent(t', k1.tasks[t'], past.origin[t'], h + [e1] + [e2])
    {
      assert Consistent(t', k.tasks[t'], past.origin[t'], h);
      if t' != t {
        StillConsistent(t', k.tasks[t'], past.origin[t'], h, e1);
        StillConsistent(t', k.tasks[t'], past.origin[t'], h + [e1], e2);
      }
    }
  }

  lemma ServiceConsistent(k: Kernel, past: Past, run: Option<Tid>, no: nat, irq: Interrupts)
    requires Inv(k, run) && WaitersLive(k) && Beside(k, run) && IsEvent(no)
    requires PastOk(k, past, run) && Asserted(irq, no) && ServiceStep(k, no, irq).Running?
    ensures PastOk(ServiceStep(k, no, irq).k, Then(past, ServiceHappened(k, no, irq)), run)
  {
    hide PastOk;
    if no in k.events && k.events[no].Waiter? {
      WakeWaiterInv(k, run, no, EventData(no, irq));
      WaiterIsBlocked(k, run, no);
      WakeConsistent(k, past, run, no, irq);
    } else {
      KeptOk(k, past, run, no, irq);
    }
  }

  lemma WaiterIsBlocked(k: Kernel, run: Option<Tid>, no: nat)
    requires Inv(k, run) && Beside(k, run) && no in k.events && k.events[no].Waiter?
    ensures run != Some(k.events[no].tid) && EventsOk(k.tasks, k.events)
  {
    assert HasWaiter(k.events, no, k.events[no].tid) && Awaits(k.tasks, k.events[no].tid, no);
  }

  /** The lines of one of the two controllers. */
  predicate LinesOf(irq: Interrupts, lines: Lines, base: nat) {
    (base == 0 && lines == irq.vic1) || (base == 32 && lines == irq.vic2)
  }

  lemma ThenThen(past: Past, a: seq<Happening>, b: seq<Happening>)
    ensures Then(Then(past, a), b) == Then(past, a + b) && Then(past, []) == past
  {
    assert (past.history + a) + b == past.history + (a + b);
  }

  lemma {:induction false} LinesConsistent(k: Kernel, past: Past, run: Option<Tid>, lines: Lines, base: nat, from: nat,
                                           irq: Interrupts)
    requires Inv(k, run) && WaitersLive(k) && Beside(k, run) && from <= 32 && LinesOf(irq, lines, base)
    requires PastOk(k, past, run)
    ensures var o := ServiceLines(k, lines, base, from, irq);
            o.Running? ==> PastOk(o.k, Then(past, LinesHappened(k, lines, base, from, irq)), run)
    decreases 32 - from
  {
    hide Inv, PastOk, WaitersLive, Then;
    ThenThen(past, [], []);
    if from == 32 {
    } else if !lines[from] {
      LinesConsistent(k, past, run, lines, base, from + 1, irq);
    } else {
      ServiceInv(k, run, base + from, irq);
      if IsEvent(base + from) {
        var k1 := ServiceStep(k, base + from, irq).k;
        WaitersAreLive(k1, run);
        ServiceConsistent(k, past, run, base + from, irq);
        LinesConsistent(k1, Then(past, ServiceHappened(k, base + from, irq)), run, lines, base, from + 1, irq);
        ThenThen(past, ServiceHappened(k, base + from, irq), LinesHappened(k1, lines, base, from + 1, irq));
      }
    }
  }

  lemma InterruptConsistent(k: Kernel, past: Past, run: Option<Tid>, irq: Interrupts)
    requires Inv(k, run) && WaitersLive(k) && Beside(k, run) && PastOk(k, past, run)
    ensures InterruptStep(k, irq).Running? ==>
              PastOk(InterruptStep(k, irq).k, Then(past, InterruptHappened(k, irq)), run)
  {
    hide Inv, PastOk, WaitersLive, Then, LinesHappened;
    ServiceLinesInv(k, run, irq.vic1, 0, 0, irq);
    LinesConsistent(k, past, run, irq.vic1, 0, 0, irq);
    var o := ServiceLines(k, irq.vic1, 0, 0, irq);
    if o.Running? {
      var a := LinesHappened(k, irq.vic1, 0, 0, irq);
      WaitersAreLive(o.k, run);
      LinesConsistent(o.k, Then(past, a), run, irq.vic2, 32, 0, irq);
      ThenThen(past, a, LinesHappened(o.k, irq.vic2, 32, 0, irq));
    }
  }

  // Calls.

  lemma DeliverConsistent(k: Kernel, past: Past, to: Tid, msg: Address, msglen: nat, reply: Address, rplen: nat)
    requires k.current in k.tasks && k.tasks[k.current].state.Ready? && to in k.tasks && k.tasks[to].state.RecvWait?
    requires ConsistentBut(k.tasks, past, Some(k.current))
    ensures ConsistentBut(Deliver(k, to, msg, msglen, reply, rplen).tasks, past, Some(k.current))
  {
  }

  lemma EnqueueConsistent(k: Kernel, past: Past, to: Tid, msg: Address, msglen: nat, reply: Address, rplen: nat)
    requires k.current in k.tasks && to in k.tasks
    requires ConsistentBut(k.tasks, past, Some(k.current))
    ensures ConsistentBut(Enqueue(k, to, msg, msglen, reply, rplen).tasks, past, Some(k.current))
  {
  }

  lemma ReceiveConsistent(k: Kernel, past: Past, tidOut: Address, buf: Address, len: Int32)
    requires FrontSenderWaits(k, k.current)
    requires ConsistentBut(k.tasks, past, Some(k.current))
    ensures ConsistentBut(ReceiveStep(k, tidOut, buf, len).0.tasks, past, Some(k.current))
  {
  }

  lemma ReplyConsistent(k: Kernel, past: Past, to: Int32, reply: Address, rlen: Int32)
    requires k.current in k.tasks && k.tasks[k.current].state.Ready?
    requires ConsistentBut(k.tasks, past, Some(k.current))
    ensures ConsistentBut(ReplyStep(k, to, reply, rlen).0.tasks, past, Some(k.current))
  {
  }

  lemma ReturnConsistent(k: Kernel, past: Past, me: Tid, ret: int, o: Origin)
    requires me in k.tasks && ConsistentBut(k.tasks, past, Some(me))
    requires Consistent(me, k.tasks[me].(ret := ret), o, past.history)
    ensures ConsistentBut(WriteReturn(k, me, ret).tasks, past.(origin := past.origin[me := o]), None)
  {
    hide Consistent;
  }

  lemma ExitConsistent(k: Kernel, past: Past, o: Origin)
    requires InvRunning(k) && CallerOk(k)
    requires ConsistentBut(k.tasks, past, Some(k.current))
    ensures ExitStep(k).Running? && ExitStep(k).k.events == k.events
    ensures ConsistentBut(ExitStep(k).k.tasks, past.(origin := past.origin[k.current := o]), None)
  {
    ExitEffect(k);
    SendersBlocked(k.tasks, k.current);
    hide LastFor;
  }

  lemma NothingHappened(k: Kernel, past: Past, call: Call)
    requires !call.AwaitEvent?
    ensures Recorded(k, past, call).history == past.history
  {
    assert past.history + [] == past.history;
  }

  lemma SendCallConsistent(k: Kernel, past: Past, call: Call)
    requires k.current in k.tasks && k.tasks[k.current].state.Ready? && CallerOk(k) && call.Send?
    requires ConsistentBut(k.tasks, past, Some(k.current))
    ensures CallStep(k, call).Running?
    ensures ConsistentBut(CallStep(k, call).k.tasks, Recorded(k, past, call), None)
  {
    NothingHappened(k, past, call);
    var to, msg, msglen, reply, rplen := call.to, call.msg, Max(call.mlen, 0), call.reply, Max(call.rlen, 0);
    var (k1, ret) := SendStep(k, to, msg, call.mlen, reply, call.rlen);
    hide ConsistentBut;
    if 0 <= to < MAX_SCHEDULED_TASKS && to in k.tasks {
      if k.tasks[to].state.RecvWait? {
        DeliverConsistent(k, past, to, msg, msglen, reply, rplen);
      } else {
        EnqueueConsistent(k, past, to, msg, msglen, reply, rplen);
      }
    }
    ReturnConsistent(k1, past, k.current, ret, Called(call));
  }

  lemma ReceiveCallConsistent(k: Kernel, past: Past, call: Call)
    requires k.current in k.tasks && k.tasks[k.current].state.Ready? && CallerOk(k) && call.Receive?
    requires ConsistentBut(k.tasks, past, Some(k.current))
    ensures CallStep(k, call).Running?
    ensures ConsistentBut(CallStep(k, call).k.tasks, Recorded(k, past, call), None)
  {
    NothingHappened(k, past, call);
    hide ConsistentBut;
    ReceiveConsistent(k, past, call.tidOut, call.buf, call.len);
    var (k1, ret) := ReceiveStep(k, call.tidOut, call.buf, call.len);
    ReturnConsistent(k1, past, k.current, ret, Called(call));
  }

  lemma ReplyCallConsistent(k: Kernel, past: Past, call: Call)
    requires k.current in k.tasks && k.tasks[k.current].state.Ready? && CallerOk(k) && call.Reply?
    requires ConsistentBut(k.tasks, past, Some(k.current))
    ensures CallStep(k, call).Running?
    ensures ConsistentBut(CallStep(k, call).k.tasks, Recorded(k, past, call), None)
  {
    NothingHappened(k, past, call);
    hide ConsistentBut;
    ReplyConsistent(k, past, call.to, call.reply, call.rlen);
    var (k1, ret) := ReplyStep(k, call.to, call.reply, call.rlen);
    ReturnConsistent(k1, past, k.current, ret, Called(call));
  }

  lemma CreateCallConsistent(k: Kernel, past: Past, call: Call)
    requires InvRunning(k) && CallerOk(k) && call.Create?
    requires ConsistentBut(k.tasks, past, Some(k.current))
    ensures CallStep(k, call).Running? ==>
              ConsistentBut(CallStep(k, call).k.tasks, Recorded(k, past, call), None)
  {
    hide QueueOk, SendersOk, EventsOk;
    NothingHappened(k, past, call);
    CreateInv(k, call.priority);
    hide LastFor;
  }

  /** The history after an AwaitEvent call that goes on. */
  lemma AwaitHistory(k: Kernel, past: Past, id: nat)
    requires PastOk(k, past, Some(k.current)) && IsEvent(id) && (id in k.events ==> k.events[id].Data?)
    ensures var h' := past.history + CallHappened(k, AwaitEvent(id));
            && HistoryOk(h') && SlotsFresh(k.events - {id}, h')
            && ConsistentBut(k.tasks, past.(history := h'), Some(k.current))
            && LastFor(h', k.current) ==
                 Some(if id in k.events then Returned(k.current, id, k.events[id].raw) else Awaited(k.current, id))
  {
    var h, me := past.history, k.current;
    var e1 := Awaited(me, id);
    var past1 := Then(past, [e1]);
    HistoryMore(h, e1);
    LatestMore(h, e1, id, me);
    SlotsKept(k.events - {id}, h, e1);
    OthersConsistent(k.tasks, past, Some(me), e1);
    if id in k.events {
      var e2 := Returned(me, id, k.events[id].raw);
      assert h + CallHappened(k, AwaitEvent(id)) == h + [e1] + [e2];
      hide ConsistentBut, HistoryOk, SlotsFresh, LastFor;
      HistoryMore(h + [e1], e2);
      LatestMore(h + [e1], e2, id, me);
      SlotsKept(k.events - {id}, h + [e1], e2);
      OthersConsistent(k.tasks, past1, Some(me), e2);
    }
  }

  lemma AwaitCallConsistent(k: Kernel, past: Past, call: Call)
    requires k.current in k.tasks && k.tasks[k.current].state.Ready? && CallerOk(k) && call.AwaitEvent?
    requires PastOk(k, past, Some(k.current))
    ensures CallStep(k, call).Running? ==> PastOk(CallStep(k, call).k, Recorded(k, past, call), None)
  {
    var (o, ret) := AwaitStep(k, call.id);
    if o.Running? {
      var past1 := Then(past, CallHappened(k, call));
      assert call == AwaitEvent(call.id);
      AwaitHistory(k, past, call.id);
      hide LastFor, HistoryOk;
      SlotsWithWaiter(k.events, past1.history, call.id, k.current);
      OthersAlike(k.tasks, o.k.tasks, past1, k.current);
      ReturnConsistent(o.k, past1, k.current, ret, Called(call));
    }
  }

  lemma SlotsWithWaiter(events: map<nat, Slot>, h: seq<Happening>, id: nat, t: Tid)
    requires SlotsFresh(events - {id}, h)
    ensures SlotsFresh(events[id := Waiter(t)], h)
  {
    hide Undelivered;
    var events' := events[id := Waiter(t)];
    forall x | x in events' && events'[x].Data? ensures Undelivered(h, x, events'[x].raw) {
      assert x in events - {id};
    }
  }

  lemma OthersAlike(tasks: map<Tid, Task>, tasks': map<Tid, Task>, past: Past, me: Tid)
    requires ConsistentBut(tasks, past, Some(me)) && tasks'.Keys == tasks.Keys
    requires forall t :: t in tasks && t != me ==> tasks'[t] == tasks[t]
    ensures ConsistentBut(tasks', past, Some(me))
  {
    hide Consistent;
  }

  lemma QuickCallConsistent(k: Kernel, past: Past, call: Call)
    requires InvRunning(k) && CallerOk(k) && (call.Yield? || call.MyTid? || call.MyParentTid? || call.Perf?)
    requires ConsistentBut(k.tasks, past, Some(k.current))
    ensures CallStep(k, call).Running?
    ensures ConsistentBut(CallStep(k, call).k.tasks, Recorded(k, past, call), None)
  {
    NothingHappened(k, past, call);
    var k1 := CallStep(k, call).k;
    assert WriteReturn(k, k.current, k1.tasks[k.current].ret).tasks == k1.tasks;
    ReturnConsistent(k, past, k.current, k1.tasks[k.current].ret, Called(call));
  }

  /** Calls other than AwaitEvent leave the event slots alone. */
  lemma CallKeepsEvents(k: Kernel, call: Call)
    requires InvRunning(k) && CallerOk(k) && !call.AwaitEvent?
    ensures CallStep(k, call).Running? ==> CallStep(k, call).k.events == k.events
  {
    if call.Exit? { ExitEffect(k); }
  }

  lemma CallConsistent(k: Kernel, past: Past, call: Call)
    requires InvRunning(k) && CallerOk(k) && PastOk(k, past, Some(k.current))
    ensures CallStep(k, call).Running? ==> PastOk(CallStep(k, call).k, Recorded(k, past, call), None)
  {
    hide Inv, CallerOk, ConsistentBut, SlotsFresh, HistoryOk;
    if !call.AwaitEvent? {
      CallKeepsEvents(k, call);
      NothingHappened(k, past, call);
    }
    match call
    case Send(_, _, _, _, _) => SendCallConsistent(k, past, call);
    case Receive(_, _, _) => ReceiveCallConsistent(k, past, call);
    case Reply(_, _, _) => ReplyCallConsistent(k, past, call);
    case Create(_) => CreateCallConsistent(k, past, call);
    case AwaitEvent(_) => AwaitCallConsistent(k, past, call);
    case Exit => ExitConsistent(k, past, Called(call));
    case Shutdown =>
    case Unknown =>
    case _ => QuickCallConsistent(k, past, call);
  }

  /** An interrupt finds a task running: whatever its register holds is its own business. */
  lemma PreemptConsistent(k: Kernel, past: Past, r0: int, irq: Interrupts)
    requires InvRunning(k) && WaitersLive(k) && PastOk(k, past, Some(k.current))
    ensures var o := InterruptStep(WriteReturn(k, k.current, r0), irq);
            o.Running? ==> PastOk(o.k, Preempting(k, past, r0, irq), None)
  {
    var k1 := WriteReturn(k, k.current, r0);
    WriteReturnInv(k, Some(k.current), k.current, r0);
    InterruptInv(k1, Some(k.current), irq);
    OthersAlike(k.tasks, k1.tasks, past, k.current);
    InterruptConsistent(k1, past, Some(k.current), irq);
    var o := InterruptStep(k1, irq);
    if o.Running? { PreemptedOk(o.k, Then(past, InterruptHappened(k1, irq)), k.current); }
  }

  lemma PreemptedOk(k: Kernel, past: Past, me: Tid)
    requires PastOk(k, past, Some(me)) && (me in k.tasks ==> k.tasks[me].state.Ready?)
    ensures PastOk(k, past.(origin := past.origin[me := Preempted]), None)
  {
    hide LastFor, HistoryOk, SlotsFresh;
  }

  /** No pass ever lets a task go on with a return value its call does not promise. */
  lemma StepKeepsSystem(s: System, input: Input)
    requires SystemOk(s)
    ensures Step(s.k, input).Next? ==> SystemOk(System(Step(s.k, input).k, PastAfter(s, input)))
  {
    StepKeepsInv(s.k, input);
    if s.k.ready != [] {
      DispatchInv(s.k, input.mem);
      var k := Dispatch(s.k, input.mem);
      ActivateInv(k, input.trap);
      DispatchConsistent(s, input.mem);
      hide PastOk, Inv, WaitersLive, CallerOk;
      match input.trap
      case Swi(call) =>
        CallConsistent(k, s.past, call);
        if CallStep(k, call).Running? { RequeueConsistent(CallStep(k, call).k, Recorded(k, s.past, call)); }
      case Irq(r0, irq) =>
        PreemptConsistent(k, s.past, r0, irq);
        var o := InterruptStep(WriteReturn(k, k.current, r0), irq);
        if o.Running? { RequeueConsistent(o.k, PastAfter(s, input)); }
    } else if s.k.events != map[] {
      WaitersAreLive(s.k, None);
      InterruptInv(s.k, None, input.idle);
      InterruptConsistent(s.k, s.past, None, input.idle);
    }
  }

  lemma DispatchConsistent(s: System, mem: Memory)
    requires SystemOk(s) && s.k.ready != []
    ensures PastOk(Dispatch(s.k, mem), s.past, Some(Dispatch(s.k, mem).current))
  {
    hide Consistent, LastFor;
  }

  lemma RequeueConsistent(k: Kernel, past: Past)
    requires PastOk(k, past, None)
    ensures Requeue(k).Running? ==> PastOk(Requeue(k).k, past, None)
  {
  }

  function RunSystem(s: System, inputs: seq<Input>): Option<System>
    requires SystemOk(s)
    decreases |inputs|
  {
    if inputs == [] then Some(s)
    else
      StepKeepsSystem(s, inputs[0]);
      match Step(s.k, inputs[0])
      case Next(k1) => RunSystem(System(k1, PastAfter(s, inputs[0])), inputs[1..])
      case Finished(_) => None
      case Stopped => None
  }

  lemma {:induction false} RunKeepsSystem(s: System, inputs: seq<Input>)
    requires SystemOk(s)
    ensures RunSystem(s, inputs).Some? ==> SystemOk(RunSystem(s, inputs).value)
    ensures RunSystem(s, inputs).Some? <==> Run(s.k, inputs).Next?
    ensures RunSystem(s, inputs).Some? ==> RunSystem(s, inputs).value.k == Run(s.k, inputs).k
    decreases |inputs|
  {
    if inputs == [] {
    } else {
      StepKeepsSystem(s, inputs[0]);
      if Step(s.k, inputs[0]).Next? {
        RunKeepsSystem(System(Step(s.k, inputs[0]).k, PastAfter(s, inputs[0])), inputs[1..]);
      }
    }
  }

  ghost predicate NextReturnGood(s: System) {
    s.k.ready != [] ==>
      var t := s.k.ready[0].data;
      && t in s.k.tasks && t in s.past.origin
      && (s.past.origin[t].Called? ==> GoodReturn(t, s.k.tasks[t], s.past.origin[t].call, s.past.history))
      && (s.past.origin[t].Called? && s.past.origin[t].call.Send? ==> s.k.tasks[t].ret >= -2)
  }

  lemma OkMeansNextReturnGood(s: System)
    requires SystemOk(s)
    ensures NextReturnGood(s)
  {
    hide LastFor;
    if s.k.ready != [] {
      var t := s.k.ready[0].data;
      QueuePop(s.k.tasks, s.k.ready);
      assert Consistent(t, s.k.tasks[t], s.past.origin[t], s.past.history);
    }
  }

  /** The task that is dispatched next never sees a placeholder: coming back from Send it finds -1, -2
      or a reply length within its buffer, from AwaitEvent what the latest interrupt of that number
      reported, which no call has returned before, and so on for the other calls. */
  lemma NoPlaceholderIsSeen(mem: Memory, inputs: seq<Input>)
    requires RunSystem(SystemBoot(mem), inputs).Some?
    ensures NextReturnGood(RunSystem(SystemBoot(mem), inputs).value)
    ensures HistoryOk(RunSystem(SystemBoot(mem), inputs).value.past.history)
  {
    RunKeepsSystem(SystemBoot(mem), inputs);
    OkMeansNextReturnGood(RunSystem(SystemBoot(mem), inputs).value);
  }

  /** Interrupt k is the last thing to happen to its event before j. */
  ghost predicate LastRaise(h: seq<Happening>, no: nat, k: int, j: nat) {
    && 0 <= k < j <= |h| && h[k].Raised? && h[k].no == no
    && forall i :: k < i < j && !h[i].Awaited? ==> h[i].no != no
  }

  /** Call c, for the event, is the last thing that the task does before j. */
  ghost predicate LastCall(h: seq<Happening>, t: Tid, no: nat, c: int, j: nat) {
    && 0 <= c < j <= |h| && h[c] == Awaited(t, no)
    && forall i :: c < i < j && !h[i].Raised? ==> h[i].tid != t
  }

  /** Every return of an event comes after the task's call for it, and after an interrupt of it whose line was
      asserted and which nothing has followed for that event; it gives what that one reported: for 52 the first
      UART's status, for 54 the second's, for a timer 0. */
  lemma ReturnsAreReports(h: seq<Happening>, j: nat)
    requires HistoryOk(h) && j < |h| && h[j].Returned?
    ensures exists c :: LastCall(h, h[j].tid, h[j].no, c, j)
    ensures exists k :: LastRaise(h, h[j].no, k, j)
    ensures forall k :: LastRaise(h, h[j].no, k, j) ==>
              && Asserted(h[k].irq, h[j].no)
              && (h[j].no == 52 ==> h[j].raw == h[k].irq.uart1)
              && (h[j].no == 54 ==> h[j].raw == h[k].irq.uart2)
              && (h[j].no != 52 && h[j].no != 54 ==> h[j].raw == 0)
  {
    hide Latest, LastFor;
    assert HappenedAt(h, j);
    var no := h[j].no;
    var c := LastForAt(h[..j], h[j].tid);
    assert LastCall(h, h[j].tid, no, c, j);
    var k := LatestAt(h[..j], no);
    assert LastRaise(h, no, k, j) && HappenedAt(h, k);
    forall k' | LastRaise(h, no, k', j) ensures k' == k {
      assert h[..j][k'] == h[k'];
    }
  }

  lemma {:induction false} LatestAt(h: seq<Happening>, no: nat) returns (k: nat)
    requires Latest(h, no).Some?
    ensures k < |h| && h[k] == Latest(h, no).value && !h[k].Awaited? && h[k].no == no
    ensures forall i :: k < i < |h| && !h[i].Awaited? ==> h[i].no != no
    decreases |h|
  {
    k := |h| - 1;
    if h[k].Awaited? || h[k].no != no { k := LatestAt(h[..k], no); }
  }

  lemma {:induction false} LastForAt(h: seq<Happening>, t: Tid) returns (c: nat)
    requires LastFor(h, t).Some?
    ensures c < |h| && h[c] == LastFor(h, t).value
    ensures forall i :: c < i < |h| && !h[i].Raised? ==> h[i].tid != t
    decreases |h|
  {
    c := |h| - 1;
    if h[c].Raised? || h[c].tid != t { c := LastForAt(h[..c], t); }
  }

  /** Between two returns of an event there is an interrupt of it, the last one before the second return, which
      gives what that one reported: none is delivered twice. */
  lemma NoInterruptTwice(h: seq<Happening>, i: nat, j: nat)
    requires HistoryOk(h) && i < j < |h| && h[i].Returned? && h[j].Returned? && h[i].no == h[j].no
    ensures exists k :: i < k && LastRaise(h, h[j].no, k, j)
  {
    ReturnsAreReports(h, j);
    var k :| LastRaise(h, h[j].no, k, j);
    assert i <= k;
  }
}
