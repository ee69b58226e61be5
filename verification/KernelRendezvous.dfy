/** Senders are received in arrival order, and a message is the same whoever comes first. */
module KernelRendezvous {
  import opened Options
  import opened Integers
  import opened Sequences
  import opened PriorityQueues
  import opened KernelModel
  import opened KernelInvariant
  import opened KernelRuns

  // ---------------------------------------------------------------------------------------------
  // Arrival order.

  /** The sender that a trap of the running task adds to the list of r. */
  function Arriving(k: Kernel, trap: Trap, r: Tid): seq<Tid> {
    if trap.Swi? && trap.call.Send? && trap.call.to == r && 0 <= r < MAX_SCHEDULED_TASKS
       && r in k.tasks && !k.tasks[r].state.RecvWait?
    then [k.current] else []
  }

  /** The sender whose message a trap of the running task takes from the list of r. */
  function Leaving(k: Kernel, trap: Trap, r: Tid): seq<Tid> {
    if trap.Swi? && trap.call.Receive? && k.current == r && r in k.tasks && k.tasks[r].senders != []
    then [k.tasks[r].senders[0]] else []
  }

  lemma {:induction false} ServiceKeepsLists(k: Kernel, run: Option<Tid>, lines: Lines, base: nat, from: nat,
                                             irq: Interrupts, r: Tid)
    requires Inv(k, run) && WaitersLive(k) && Beside(k, run) && from <= 32 && r in k.tasks
    ensures var o := ServiceLines(k, lines, base, from, irq);
            o.Running? ==> r in o.k.tasks && o.k.tasks[r].senders == k.tasks[r].senders
    decreases 32 - from
  {
    if from == 32 {
    } else {
      if !lines[from] {
        ServiceKeepsLists(k, run, lines, base, from + 1, irq, r);
      } else {
        ServiceInv(k, run, base + from, irq);
        if IsEvent(base + from) {
          WaitersAreLive(ServiceStep(k, base + from, irq).k, run);
          ServiceKeepsLists(ServiceStep(k, base + from, irq).k, run, lines, base, from + 1, irq, r);
        }
      }
    }
  }

  lemma InterruptKeepsLists(k: Kernel, run: Option<Tid>, irq: Interrupts, r: Tid)
    requires Inv(k, run) && WaitersLive(k) && Beside(k, run) && r in k.tasks
    ensures var o := InterruptStep(k, irq);
            o.Running? ==> r in o.k.tasks && o.k.tasks[r].senders == k.tasks[r].senders
  {
    ServiceLinesInv(k, run, irq.vic1, 0, 0, irq);
    ServiceKeepsLists(k, run, irq.vic1, 0, 0, irq, r);
    var o := ServiceLines(k, irq.vic1, 0, 0, irq);
    if o.Running? {
      WaitersAreLive(o.k, run);
      ServiceKeepsLists(o.k, run, irq.vic2, 32, 0, irq, r);
    }
  }

  lemma SendKeepsOrder(k: Kernel, call: Call, r: Tid)
    requires InvRunning(k) && CallerOk(k) && CallStep(k, call).Running?
    requires r in k.tasks && r in CallStep(k, call).k.tasks && call.Send?
    ensures k.tasks[r].senders + Arriving(k, Swi(call), r)
         == Leaving(k, Swi(call), r) + CallStep(k, call).k.tasks[r].senders
  {
    hide SendersOk, QueueOk, EventsOk, Insert;
    var k1 := SendStep(k, call.to, call.msg, call.mlen, call.reply, call.rlen).0;
    assert CallStep(k, call).k.tasks[r].senders == k1.tasks[r].senders;
    assert k1.tasks[r].senders == k.tasks[r].senders + Arriving(k, Swi(call), r);
  }

  lemma ReceiveKeepsOrder(k: Kernel, call: Call, r: Tid)
    requires InvRunning(k) && CallerOk(k) && CallStep(k, call).Running?
    requires r in k.tasks && r in CallStep(k, call).k.tasks && call.Receive?
    ensures k.tasks[r].senders + Arriving(k, Swi(call), r)
         == Leaving(k, Swi(call), r) + CallStep(k, call).k.tasks[r].senders
  {
    var k1 := ReceiveStep(k, call.tidOut, call.buf, call.len).0;
    assert CallStep(k, call).k.tasks[r].senders == k1.tasks[r].senders;
    assert k.tasks[r].senders == Leaving(k, Swi(call), r) + k1.tasks[r].senders;
  }

  lemma OtherCallKeepsList(k: Kernel, call: Call, r: Tid)
    requires InvRunning(k) && CallerOk(k) && CallStep(k, call).Running?
    requires r in k.tasks && r in CallStep(k, call).k.tasks && !call.Send? && !call.Receive?
    ensures CallStep(k, call).k.tasks[r].senders == k.tasks[r].senders
  {
    hide Sorted, Distinct, Insert, QueueOk, EventsOk;
    if call.Exit? { ExitEffect(k); }
  }

  lemma CallKeepsOrder(k: Kernel, call: Call, r: Tid)
    requires InvRunning(k) && CallerOk(k) && CallStep(k, call).Running?
    requires r in k.tasks && r in CallStep(k, call).k.tasks
    ensures k.tasks[r].senders + Arriving(k, Swi(call), r)
         == Leaving(k, Swi(call), r) + CallStep(k, call).k.tasks[r].senders
  {
    if call.Send? {
      SendKeepsOrder(k, call, r);
    } else if call.Receive? {
      ReceiveKeepsOrder(k, call, r);
    } else {
      OtherCallKeepsList(k, call, r);
    }
  }

  lemma StepKeepsOrder(k: Kernel, input: Input, r: Tid)
    requires Usable(k) && Step(k, input).Next?
    requires r in k.tasks && r in Step(k, input).k.tasks
    ensures k.tasks[r].senders + PassArrivals(k, input, r)
         == PassDepartures(k, input, r) + Step(k, input).k.tasks[r].senders
  {
    if k.ready != [] {
      DispatchInv(k, input.mem);
      var k1 := Dispatch(k, input.mem);
      match input.trap
      case Swi(call) => CallKeepsOrder(k1, call, r);
      case Irq(r0, irq) =>
        WriteReturnInv(k1, Some(k1.current), k1.current, r0);
        InterruptKeepsLists(WriteReturn(k1, k1.current, r0), Some(k1.current), irq, r);
    } else {
      WaitersAreLive(k, None);
      InterruptKeepsLists(k, None, input.idle, r);
    }
  }

  function PassArrivals(k: Kernel, input: Input, r: Tid): seq<Tid> {
    if k.ready == [] then [] else Arriving(Dispatch(k, input.mem), input.trap, r)
  }

  function PassDepartures(k: Kernel, input: Input, r: Tid): seq<Tid> {
    if k.ready == [] then [] else Leaving(Dispatch(k, input.mem), input.trap, r)
  }

  /** r stays alive throughout the run. */
  ghost predicate Survives(k: Kernel, inputs: seq<Input>, r: Tid)
    requires Usable(k)
    decreases |inputs|
  {
    r in k.tasks && (inputs != [] ==>
      (StepKeepsInv(k, inputs[0]); Step(k, inputs[0]).Next? && Survives(Step(k, inputs[0]).k, inputs[1..], r)))
  }

  function Arrivals(k: Kernel, inputs: seq<Input>, r: Tid): seq<Tid>
    requires Usable(k)
    decreases |inputs|
  {
    if inputs == [] then []
    else
      StepKeepsInv(k, inputs[0]);
      var p := Step(k, inputs[0]);
      PassArrivals(k, inputs[0], r) + if p.Next? then Arrivals(p.k, inputs[1..], r) else []
  }

  function Departures(k: Kernel, inputs: seq<Input>, r: Tid): seq<Tid>
    requires Usable(k)
    decreases |inputs|
  {
    if inputs == [] then []
    else
      StepKeepsInv(k, inputs[0]);
      var p := Step(k, inputs[0]);
      PassDepartures(k, inputs[0], r) + if p.Next? then Departures(p.k, inputs[1..], r) else []
  }

  /** Over any run a receiver survives, the senders it has received from and those still waiting are,
      in order, the senders that waited before and those that have arrived. */
  lemma {:induction false} ReceivedInArrivalOrder(k: Kernel, inputs: seq<Input>, r: Tid)
    requires Usable(k) && Survives(k, inputs, r)
    ensures Run(k, inputs).Next? && r in Run(k, inputs).k.tasks
    ensures k.tasks[r].senders + Arrivals(k, inputs, r)
         == Departures(k, inputs, r) + Run(k, inputs).k.tasks[r].senders
    decreases |inputs|
  {
    if inputs == [] {
    } else {
      StepKeepsInv(k, inputs[0]);
      StepKeepsOrder(k, inputs[0], r);
      var k1 := Step(k, inputs[0]).k;
      ReceivedInArrivalOrder(k1, inputs[1..], r);
      Regroup(k.tasks[r].senders, PassArrivals(k, inputs[0], r), PassDepartures(k, inputs[0], r), k1.tasks[r].senders,
              Arrivals(k1, inputs[1..], r), Departures(k1, inputs[1..], r), Run(k, inputs).k.tasks[r].senders);
    }
  }

  lemma Regroup<T>(x: seq<T>, a: seq<T>, d: seq<T>, y: seq<T>, a': seq<T>, d': seq<T>, z: seq<T>)
    requires x + a == d + y && y + a' == d' + z
    ensures x + (a + a') == (d + d') + z
  {
    assert x + (a + a') == (x + a) + a';
    assert (d + d') + z == d + (d' + z);
  }

  // ---------------------------------------------------------------------------------------------
  // Who comes first does not matter.

  /** s and r are next in line, in that order. */
  function Lined(k: Kernel, p: nat, s: Tid, r: Tid): Kernel {
    k.(ready := [Item(p, s), Item(p, r)] + k.ready)
  }

  function Quiet(k: Kernel, call: Call, idle: Interrupts): Input { Input(k.mem, Swi(call), idle) }

  /** The state both orders should reach. */
  function Met(k: Kernel, p: nat, s: Tid, r: Tid, send: Call, recv: Call, n: nat, ret: int, current: Tid): Kernel
    requires s in k.tasks && r in k.tasks && send.Send? && recv.Receive?
  {
    var mem := StoreWordIfPresent(CopyIfPresent(k.mem, recv.buf, send.msg, n), recv.tidOut, s);
    k.(mem := mem, current := current, ready := Push(k.ready, r, p),
       tasks := k.tasks[s := k.tasks[s].(state := ReplyWait(send.reply, Max(send.rlen, 0)), ret := ret)]
                       [r := k.tasks[r].(state := Ready, ret := n)])
  }

  /** The first pass of each order. */
  function Sent(k: Kernel, p: nat, s: Tid, r: Tid, send: Call): Kernel
    requires s in k.tasks && r in k.tasks && send.Send?
  {
    var blocked := SendWait(r, send.msg, Max(send.mlen, 0), send.reply, Max(send.rlen, 0));
    k.(ready := [Item(p, r)] + k.ready, current := s,
       tasks := k.tasks[s := k.tasks[s].(state := blocked, ret := -4)][r := k.tasks[r].(senders := [s])])
  }

  function Awaiting(k: Kernel, p: nat, s: Tid, r: Tid, recv: Call): Kernel
    requires s in k.tasks && r in k.tasks && recv.Receive?
  {
    k.(ready := [Item(p, s)] + k.ready, current := r,
       tasks := k.tasks[r := k.tasks[r].(state := RecvWait(recv.tidOut, recv.buf, ToSize(recv.len)), ret := -3)])
  }

  lemma FirstSend(k: Kernel, p: nat, s: Tid, r: Tid, send: Call, idle: Interrupts)
    requires Usable(Lined(k, p, s, r)) && s != r && r in k.tasks && k.tasks[r].senders == []
    requires send.Send? && send.to == r
    ensures s in k.tasks && Step(Lined(k, p, s, r), Quiet(k, send, idle)) == Next(Sent(k, p, s, r, send))
    ensures Usable(Sent(k, p, s, r, send))
  {
    hide Sorted, Distinct, SendersOk, EventsOk;
    var k0 := Lined(k, p, s, r);
    LinedUp(k, p, s, r);
    DispatchInv(k0, k.mem);
    StepKeepsInv(k0, Quiet(k, send, idle));
    var a := Step(k0, Quiet(k, send, idle)).k;
    assert a.ready == [Item(p, r)] + k.ready;
    assert k.tasks[r].senders + [s] == [s];
    assert a.tasks == Sent(k, p, s, r, send).tasks;
  }

  lemma FirstReceive(k: Kernel, p: nat, s: Tid, r: Tid, recv: Call, idle: Interrupts)
    requires Usable(Lined(k, p, r, s)) && s != r && r in k.tasks && k.tasks[r].senders == []
    requires recv.Receive?
    ensures s in k.tasks && Step(Lined(k, p, r, s), Quiet(k, recv, idle)) == Next(Awaiting(k, p, s, r, recv))
    ensures Usable(Awaiting(k, p, s, r, recv))
  {
    var k0 := Lined(k, p, r, s);
    LinedUp(k, p, r, s);
    DispatchInv(k0, k.mem);
    StepKeepsInv(k0, Quiet(k, recv, idle));
    var a := Step(k0, Quiet(k, recv, idle)).k;
    assert a.ready == [Item(p, s)] + k.ready;
    assert a.tasks == Awaiting(k, p, s, r, recv).tasks;
  }

  lemma TakeTheMessage(k: Kernel, p: nat, s: Tid, r: Tid, send: Call, recv: Call)
    requires s in k.tasks && r in k.tasks && s != r && k.tasks[r].state.Ready? && k.tasks[r].senders == []
    requires send.Send? && recv.Receive?
    requires CallerOk(Sent(k, p, s, r, send).(ready := k.ready, current := r))
    ensures var n := Min(Max(send.mlen, 0), Max(recv.len, 0));
            CallStep(Sent(k, p, s, r, send).(ready := k.ready, current := r), recv)
              == Running(Met(k, p, s, r, send, recv, n, -4, r).(ready := k.ready))
  {
    var n := Min(Max(send.mlen, 0), Max(recv.len, 0));
    var d := Sent(k, p, s, r, send).(ready := k.ready, current := r);
    assert [s][1..] == [];
    assert CallStep(d, recv).k.tasks == Met(k, p, s, r, send, recv, n, -4, r).tasks;
  }

  lemma HandOverTheMessage(k: Kernel, p: nat, s: Tid, r: Tid, send: Call, recv: Call)
    requires s in k.tasks && r in k.tasks && s != r && k.tasks[r].senders == [] && k.tasks[r].priority == p
    requires send.Send? && send.to == r && recv.Receive? && r < MAX_SCHEDULED_TASKS
    requires CallerOk(Awaiting(k, p, s, r, recv).(ready := k.ready, current := s))
    ensures var n := Min(Max(send.mlen, 0), ToSize(recv.len));
            CallStep(Awaiting(k, p, s, r, recv).(ready := k.ready, current := s), send)
              == Running(Met(k, p, s, r, send, recv, n, -3, s))
  {
    var n := Min(Max(send.mlen, 0), ToSize(recv.len));
    var d := Awaiting(k, p, s, r, recv).(ready := k.ready, current := s);
    assert CallStep(d, send).k.tasks == Met(k, p, s, r, send, recv, n, -3, s).tasks;
  }

  lemma BackInLine(k: Kernel, p: nat, s: Tid, r: Tid, send: Call, recv: Call, n: nat)
    requires s in k.tasks && r in k.tasks && s != r && send.Send? && recv.Receive?
    requires k.tasks[r].priority == p && |k.ready| < MAX_SCHEDULED_TASKS
    ensures Requeue(Met(k, p, s, r, send, recv, n, -4, r).(ready := k.ready))
         == Running(Met(k, p, s, r, send, recv, n, -4, r))
  {
  }

  lemma RoomAfterTwo(k: Kernel, p: nat, s: Tid, r: Tid)
    requires Usable(Lined(k, p, s, r))
    ensures |k.ready| < MAX_SCHEDULED_TASKS
  {
    Pigeonhole(Tids(Lined(k, p, s, r).ready), MAX_SCHEDULED_TASKS);
  }

  lemma SendThenReceive(k: Kernel, p: nat, s: Tid, r: Tid, send: Call, recv: Call, idle: Interrupts)
    requires Usable(Lined(k, p, s, r)) && s != r && r in k.tasks && k.tasks[r].senders == []
    requires send.Send? && send.to == r && recv.Receive?
    ensures s in k.tasks && Usable(Sent(k, p, s, r, send))
    ensures Step(Sent(k, p, s, r, send), Quiet(k, recv, idle)) ==
              Next(Met(k, p, s, r, send, recv, Min(Max(send.mlen, 0), Max(recv.len, 0)), -4, r))
  {
    FirstSend(k, p, s, r, send, idle);
    LinedUp(k, p, s, r);
    var a := Sent(k, p, s, r, send);
    var d := a.(ready := k.ready, current := r);
    assert Dispatch(a, k.mem) == d by { assert a.ready[1..] == k.ready; }
    DispatchInv(a, k.mem);
    TakeTheMessage(k, p, s, r, send, recv);
    RoomAfterTwo(k, p, s, r);
    BackInLine(k, p, s, r, send, recv, Min(Max(send.mlen, 0), Max(recv.len, 0)));
    assert Activate(d, Swi(recv)) ==
      Next(Met(k, p, s, r, send, recv, Min(Max(send.mlen, 0), Max(recv.len, 0)), -4, r));
  }

  lemma ReceiveThenSend(k: Kernel, p: nat, s: Tid, r: Tid, send: Call, recv: Call, idle: Interrupts)
    requires Usable(Lined(k, p, r, s)) && s != r && r in k.tasks && k.tasks[r].senders == []
    requires send.Send? && send.to == r && recv.Receive?
    ensures s in k.tasks && Usable(Awaiting(k, p, s, r, recv))
    ensures Step(Awaiting(k, p, s, r, recv), Quiet(k, send, idle)) ==
              Next(Met(k, p, s, r, send, recv, Min(Max(send.mlen, 0), ToSize(recv.len)), -3, s))
  {
    FirstReceive(k, p, s, r, recv, idle);
    LinedUp(k, p, r, s);
    var a := Awaiting(k, p, s, r, recv);
    var d := a.(ready := k.ready, current := s);
    assert Dispatch(a, k.mem) == d by { assert a.ready[1..] == k.ready; }
    DispatchInv(a, k.mem);
    HandOverTheMessage(k, p, s, r, send, recv);
    ActivateInv(d, Swi(send));
  }

  /** Equal but for the placeholder in the blocked sender's register and the last task to run. */
  ghost predicate SameBut(a: Kernel, b: Kernel, s: Tid) {
    && a.mem == b.mem && a.ready == b.ready && a.events == b.events && a.tasks.Keys == b.tasks.Keys
    && (forall t :: t in a.tasks && t != s ==> a.tasks[t] == b.tasks[t])
    && (s in a.tasks ==> a.tasks[s].(ret := 0) == b.tasks[s].(ret := 0))
  }

  lemma MetAlike(k: Kernel, p: nat, s: Tid, r: Tid, send: Call, recv: Call, n1: nat, n2: nat)
    requires s in k.tasks && r in k.tasks && s != r && send.Send? && recv.Receive?
    ensures SameBut(Met(k, p, s, r, send, recv, n1, -4, r), Met(k, p, s, r, send, recv, n2, -3, s), s) <==> n1 == n2
  {
    assert Met(k, p, s, r, send, recv, n1, -4, r).tasks[r].ret == n1;
    assert Met(k, p, s, r, send, recv, n2, -3, s).tasks[r].ret == n2;
  }

  lemma LengthsAgree(mlen: Int32, len: Int32)
    ensures Min(Max(mlen, 0), Max(len, 0)) == Min(Max(mlen, 0), ToSize(len)) <==> len >= 0 || mlen <= 0
  {
  }

  lemma LinedUp(k: Kernel, p: nat, s: Tid, r: Tid)
    requires Usable(Lined(k, p, s, r))
    ensures s in k.tasks && r in k.tasks && k.tasks[s].state.Ready? && k.tasks[r].state.Ready?
    ensures k.tasks[s].priority == p && k.tasks[r].priority == p
  {
    var q := Lined(k, p, s, r).ready;
    assert Tids(q)[0] in Tids(q) && Tids(q)[1] in Tids(q);
    assert Runnable(k.tasks, None, q[0].data) && Runnable(k.tasks, None, q[1].data);
  }

  /** Send-then-Receive and Receive-then-Send on an idle pair end alike exactly when the receiver's
      buffer length is not negative or the message is empty: only the second order takes a negative
      length for a huge one. */
  lemma EitherOrderMeetsAlike(k: Kernel, p: nat, s: Tid, r: Tid, send: Call, recv: Call, idle: Interrupts)
    requires Usable(Lined(k, p, s, r)) && Usable(Lined(k, p, r, s))
    requires s != r && r in k.tasks && k.tasks[r].senders == []
    requires send.Send? && send.to == r && recv.Receive?
    ensures var a := Step(Lined(k, p, s, r), Quiet(k, send, idle));
            var b := Step(Lined(k, p, r, s), Quiet(k, recv, idle));
            && a.Next? && b.Next? && Usable(a.k) && Usable(b.k)
            && Step(a.k, Quiet(k, recv, idle)).Next? && Step(b.k, Quiet(k, send, idle)).Next?
            && (SameBut(Step(a.k, Quiet(k, recv, idle)).k, Step(b.k, Quiet(k, send, idle)).k, s)
                <==> recv.len >= 0 || send.mlen <= 0)
  {
    FirstSend(k, p, s, r, send, idle);
    FirstReceive(k, p, s, r, recv, idle);
    SendThenReceive(k, p, s, r, send, recv, idle);
    ReceiveThenSend(k, p, s, r, send, recv, idle);
    MetAlike(k, p, s, r, send, recv, Min(Max(send.mlen, 0), Max(recv.len, 0)),
             Min(Max(send.mlen, 0), ToSize(recv.len)));
    LengthsAgree(send.mlen, recv.len);
  }

  /** The calls themselves, wherever the two tasks stand in the ready queue: s sends, then r receives
      and goes back to the queue. */
  function SendFirst(k: Kernel, s: Tid, r: Tid, send: Call, recv: Call): Kernel
    requires IdlePair(k, s, r, send, recv)
  {
    var (k1, ret1) := SendStep(k.(current := s), send.to, send.msg, send.mlen, send.reply, send.rlen);
    var k2 := WriteReturn(k1, s, ret1).(current := r);
    var (k3, ret3) := ReceiveStep(k2, recv.tidOut, recv.buf, recv.len);
    WriteReturn(k3, r, ret3).(ready := Push(k3.ready, r, k.tasks[r].priority))
  }

  /** As above, but r receives first. */
  function ReceiveFirst(k: Kernel, s: Tid, r: Tid, send: Call, recv: Call): Kernel
    requires IdlePair(k, s, r, send, recv)
  {
    var (k1, ret1) := ReceiveStep(k.(current := r), recv.tidOut, recv.buf, recv.len);
    var k2 := WriteReturn(k1, r, ret1).(current := s);
    var (k3, ret3) := SendStep(k2, send.to, send.msg, send.mlen, send.reply, send.rlen);
    WriteReturn(k3, s, ret3)
  }

  predicate IdlePair(k: Kernel, s: Tid, r: Tid, send: Call, recv: Call) {
    && s in k.tasks && r in k.tasks && s != r && r < MAX_SCHEDULED_TASKS && send.Send? && send.to == r && recv.Receive?
    && k.tasks[s].state.Ready? && k.tasks[r].state.Ready? && k.tasks[r].senders == []
  }

  /** Whatever the priorities and the queue, the two orders of the calls themselves end alike under
      just the same condition. */
  lemma CallsMeetAlike(k: Kernel, s: Tid, r: Tid, send: Call, recv: Call)
    requires IdlePair(k, s, r, send, recv)
    ensures var a, b := SendFirst(k, s, r, send, recv), ReceiveFirst(k, s, r, send, recv);
            && a.tasks[r].state.Ready? && a.tasks[r].ret == Min(Max(send.mlen, 0), Max(recv.len, 0))
            && a.tasks[s].state == b.tasks[s].state == ReplyWait(send.reply, Max(send.rlen, 0))
            && (SameBut(a, b, s) <==> recv.len >= 0 || send.mlen <= 0)
  {
    var a, b := SendFirst(k, s, r, send, recv), ReceiveFirst(k, s, r, send, recv);
    LengthsAgree(send.mlen, recv.len);
    assert a.tasks[r].ret == Min(Max(send.mlen, 0), Max(recv.len, 0));
    assert b.tasks[r].ret == Min(Max(send.mlen, 0), ToSize(recv.len));
  }

  /** What the receiver gets in the two orders. */
  lemma BytesTaken(k: Kernel, s: Tid, r: Tid, send: Call, recv: Call)
    requires IdlePair(k, s, r, send, recv) && recv.tidOut == 0
    ensures var n := Min(Max(send.mlen, 0), Max(recv.len, 0));
            && SendFirst(k, s, r, send, recv).tasks[r].ret == n
            && SendFirst(k, s, r, send, recv).mem == CopyIfPresent(k.mem, recv.buf, send.msg, n)
    ensures var n := Min(Max(send.mlen, 0), ToSize(recv.len));
            && ReceiveFirst(k, s, r, send, recv).tasks[r].ret == n
            && ReceiveFirst(k, s, r, send, recv).mem == CopyIfPresent(k.mem, recv.buf, send.msg, n)
  {
    hide CopyIfPresent, Push;
  }

  /** The failing case is real: one byte, 7, for a receiver that gives its buffer the length -1. If the
      send comes first the byte is not taken, if the receive comes first it is. */
  lemma NegativeLengthDiffers()
    ensures var k, send, recv := Boot(map[100 := 7]), Send(1, 100, 1, 0, 0), Receive(0, 200, -1);
            && IdlePair(k, 0, 1, send, recv)
            && SendFirst(k, 0, 1, send, recv).tasks[1].ret == 0
            && Load(SendFirst(k, 0, 1, send, recv).mem, 200, 1) == [0]
            && ReceiveFirst(k, 0, 1, send, recv).tasks[1].ret == 1
            && Load(ReceiveFirst(k, 0, 1, send, recv).mem, 200, 1) == [7]
  {
    hide Boot, SendFirst, ReceiveFirst, CopyIfPresent, Load;
    var mem: Memory := map[100 := 7];
    BootState(mem);
    BytesTaken(Boot(mem), 0, 1, Send(1, 100, 1, 0, 0), Receive(0, 200, -1));
    OneByteCopied(mem);
  }

  lemma OneByteCopied(mem: Memory)
    requires mem == map[100 := 7]
    ensures Load(CopyIfPresent(mem, 200, 100, 0), 200, 1) == [0]
    ensures Load(CopyIfPresent(mem, 200, 100, 1), 200, 1) == [7]
  {
    assert Load(mem, 100, 1) == [7];
    assert InRange(200, 200, 1);
  }
}
