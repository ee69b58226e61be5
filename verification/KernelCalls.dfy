/** What each system call and each interrupt does, told from the state before it: whose state and register
    change, which bytes move where, and that all else stays. */
module KernelCalls {
  import opened Options
  import opened Integers
  import opened PriorityQueues
  import opened KernelModel
  import opened KernelInvariant

  // ---------------------------------------------------------------------------------------------
  // Memory.

  function ByteAt(mem: Memory, a: Address): Byte { if a in mem then mem[a] else 0 }

  /** The int at p, least significant byte first. */
  function WordAt(mem: Memory, p: Address): nat {
    ByteAt(mem, p) + 0x100 * ByteAt(mem, p + 1) + 0x1_0000 * ByteAt(mem, p + 2) + 0x100_0000 * ByteAt(mem, p + 3)
  }

  /** The n bytes that were at `from` are at `to`, and no other byte has changed; for a null pointer, none
      has. */
  ghost predicate Copied(before: Memory, after: Memory, to: Address, from: Address, n: nat) {
    if to == 0 || from == 0 then after == before
    else
      && Load(after, to, n) == Load(before, from, n)
      && (forall a :: !InRange(a, to, n) ==> ByteAt(after, a) == ByteAt(before, a))
  }

  ghost predicate InWord(a: Address, p: Address) { p != 0 && InRange(a, p, 4) }

  /** Byte i of the message has come to the buffer, if both exist and the tid was not written over it. */
  ghost predicate ByteCame(before: Memory, after: Memory, buf: Address, msg: Address, i: nat, tidOut: Address) {
    buf != 0 && msg != 0 && !InWord(buf + i, tidOut) ==> ByteAt(after, buf + i) == ByteAt(before, msg + i)
  }

  /** The n bytes of a message are in the receiver's buffer and the sender's tid is where it asked for it,
      as far as these places exist, and no other byte has changed. */
  ghost predicate MessageLeft(before: Memory, after: Memory, buf: Address, msg: Address, n: nat, tidOut: Address,
                              tid: Tid)
  {
    && (tidOut != 0 ==> WordAt(after, tidOut) == tid)
    && (forall i :: 0 <= i < n ==> ByteCame(before, after, buf, msg, i, tidOut))
    && (forall a :: !(buf != 0 && msg != 0 && InRange(a, buf, n)) && !InWord(a, tidOut) ==>
          ByteAt(after, a) == ByteAt(before, a))
  }

  ghost predicate Apart(p: Address, n: nat, q: Address, m: nat) { p + n <= q || q + m <= p }

  /** Where the buffer and the place for the tid do not overlap, all of the message has come. */
  lemma DeliveredBytes(before: Memory, after: Memory, buf: Address, msg: Address, n: nat, tidOut: Address, tid: Tid)
    requires MessageLeft(before, after, buf, msg, n, tidOut, tid)
    requires buf != 0 && msg != 0 && (tidOut == 0 || Apart(buf, n, tidOut, 4))
    ensures Load(after, buf, n) == Load(before, msg, n)
  {
    forall i | 0 <= i < n ensures Load(after, buf, n)[i] == Load(before, msg, n)[i] {
      assert ByteCame(before, after, buf, msg, i, tidOut);
    }
  }

  lemma StoredAt(mem: Memory, p: Address, bytes: seq<Byte>, a: Address)
    ensures ByteAt(Store(mem, p, bytes), a) == if InRange(a, p, |bytes|) then bytes[a - p] else ByteAt(mem, a)
  {
  }

  lemma TwoBytes(h: nat)
    ensures h % 0x100 + 0x100 * (h / 0x100 % 0x100) == h % 0x1_0000
  {
    var low, high := h % 0x100, h / 0x100;
    assert h == low + 0x100 * (high % 0x100) + 0x1_0000 * (high / 0x100);
  }

  lemma TwoHalves(w: nat)
    ensures w % 0x1_0000 + 0x1_0000 * (w / 0x1_0000 % 0x1_0000) == w % 0x1_0000_0000
  {
    var low, high := w % 0x1_0000, w / 0x1_0000;
    assert w == low + 0x1_0000 * (high % 0x1_0000) + 0x1_0000_0000 * (high / 0x1_0000);
  }

  lemma TopByte(w: nat)
    ensures w / 0x100_0000 == w / 0x1_0000 / 0x100
  {
  }

  /** The four bytes of a word make up the word. */
  lemma WordValue(w: nat)
    ensures var b: seq<int> := WordBytes(w);
            b[0] + 0x100 * b[1] + 0x1_0000 * b[2] + 0x100_0000 * b[3] == w % 0x1_0000_0000
  {
    TwoHalves(w);
    TopByte(w);
    TwoBytes(w);
    TwoBytes(w / 0x1_0000);
  }

  lemma WordStored(mem: Memory, p: Address, w: nat)
    ensures WordAt(Store(mem, p, WordBytes(w)), p) == w % 0x1_0000_0000
    ensures forall a :: !InRange(a, p, 4) ==> ByteAt(Store(mem, p, WordBytes(w)), a) == ByteAt(mem, a)
  {
    WordValue(w);
    hide Store, ByteAt;
    var b := WordBytes(w);
    forall a: Address ensures ByteAt(Store(mem, p, b), a) == if InRange(a, p, 4) then b[a - p] else ByteAt(mem, a) {
      StoredAt(mem, p, b, a);
    }
  }

  lemma CopyMoves(mem: Memory, to: Address, from: Address, n: nat)
    ensures Copied(mem, CopyIfPresent(mem, to, from, n), to, from, n)
  {
    hide Store;
    if to != 0 && from != 0 {
      var bytes := Load(mem, from, n);
      forall a ensures !InRange(a, to, n) ==> ByteAt(Store(mem, to, bytes), a) == ByteAt(mem, a) {
        StoredAt(mem, to, bytes, a);
      }
      forall i | 0 <= i < n ensures Load(Store(mem, to, bytes), to, n)[i] == bytes[i] {
        StoredAt(mem, to, bytes, to + i);
      }
    }
  }

  lemma MessageMoves(mem: Memory, buf: Address, msg: Address, n: nat, tidOut: Address, tid: Tid)
    requires tid < MAX_SCHEDULED_TASKS
    ensures MessageLeft(mem, StoreWordIfPresent(CopyIfPresent(mem, buf, msg, n), tidOut, tid), buf, msg, n, tidOut, tid)
  {
    hide Store, CopyIfPresent, WordAt;
    var copy := CopyIfPresent(mem, buf, msg, n);
    CopyMoves(mem, buf, msg, n);
    WordStored(copy, tidOut, tid);
    var after := StoreWordIfPresent(copy, tidOut, tid);
    forall i | 0 <= i < n ensures ByteCame(mem, after, buf, msg, i, tidOut) {
      if buf != 0 && msg != 0 {
        assert Load(copy, buf, n)[i] == Load(mem, msg, n)[i];
        assert ByteAt(copy, buf + i) == ByteAt(mem, msg + i);
      }
    }
  }

  // ---------------------------------------------------------------------------------------------
  // Calls.

  /** Nothing changes but the caller's return register. */
  ghost predicate OnlyReturns(k: Kernel, k': Kernel, ret: int) {
    k.current in k.tasks && k' == k.(tasks := k.tasks[k.current := k.tasks[k.current].(ret := ret)])
  }

  /** A task that is not runnable finds room in the queue. */
  lemma QueueHasRoom(k: Kernel, t: Tid)
    requires InvRunning(k) && t in k.tasks && !k.tasks[t].state.Ready?
    ensures |k.ready| < MAX_SCHEDULED_TASKS && t < MAX_SCHEDULED_TASKS && t != k.current
  {
    RoomFor(k.tasks, k.ready, Some(k.current), t);
  }

  /** Reply gives a task that waits for one the bytes, and both sides their number; it refuses all others. */
  lemma ReplyEffect(k: Kernel, to: Int32, reply: Address, rlen: Int32)
    requires InvRunning(k) && CallerOk(k)
    ensures CallStep(k, Reply(to, reply, rlen)).Running?
    ensures var k' := CallStep(k, Reply(to, reply, rlen)).k;
            if to < 0 || to !in k.tasks then OnlyReturns(k, k', -1)
            else if !k.tasks[to].state.ReplyWait? then OnlyReturns(k, k', -2)
            else
              var client, me := k.tasks[to], k.current;
              var n := Min(client.state.rplen, Max(rlen, 0));
              && k'.tasks == k.tasks[to := client.(state := Ready, ret := n)][me := k.tasks[me].(ret := n)]
              && k'.ready == Insert(k.ready, Item(client.priority, to))
              && Copied(k.mem, k'.mem, client.state.reply, reply, n)
              && k'.events == k.events && k'.current == me
  {
    hide Insert, CopyIfPresent, QueueOk, SendersOk, EventsOk;
    if 0 <= to && to in k.tasks && k.tasks[to].state.ReplyWait? {
      QueueHasRoom(k, to);
      CopyMoves(k.mem, k.tasks[to].state.reply, reply, Min(k.tasks[to].state.rplen, Max(rlen, 0)));
    }
  }

  /** Send gives a waiting receiver the bytes, the sender's tid and the length, or joins the receiver's
      senders; the sender waits. */
  lemma SendEffect(k: Kernel, to: Int32, msg: Address, mlen: Int32, reply: Address, rlen: Int32)
    requires InvRunning(k) && CallerOk(k)
    ensures CallStep(k, Send(to, msg, mlen, reply, rlen)).Running?
    ensures var k' := CallStep(k, Send(to, msg, mlen, reply, rlen)).k;
            var me, len, room := k.current, Max(mlen, 0), Max(rlen, 0);
            if to < 0 || to !in k.tasks then OnlyReturns(k, k', -1)
            else if k.tasks[to].state.RecvWait? then
              var server := k.tasks[to];
              var n := Min(len, server.state.len);
              && to != me
              && k'.tasks == k.tasks[to := server.(state := Ready, ret := n)]
                                    [me := k.tasks[me].(state := ReplyWait(reply, room), ret := -3)]
              && k'.ready == Insert(k.ready, Item(server.priority, to))
              && MessageLeft(k.mem, k'.mem, server.state.buf, msg, n, server.state.tidOut, me)
              && k'.events == k.events && k'.current == me
            else
              && k'.tasks.Keys == k.tasks.Keys
              && (forall t :: t in k.tasks ==>
                    && k'.tasks[t].senders == (if t == to then k.tasks[t].senders + [me] else k.tasks[t].senders)
                    && k'.tasks[t].(senders := [])
                         == (if t == me then k.tasks[t].(state := SendWait(to, msg, len, reply, room), ret := -4)
                             else k.tasks[t]).(senders := []))
              && k'.mem == k.mem && k'.ready == k.ready && k'.events == k.events && k'.current == me
  {
    hide Insert, CopyIfPresent, StoreWordIfPresent, MessageLeft, QueueOk, SendersOk, EventsOk;
    if 0 <= to && to in k.tasks && k.tasks[to].state.RecvWait? {
      var s := k.tasks[to].state;
      QueueHasRoom(k, to);
      MessageMoves(k.mem, s.buf, msg, Min(Max(mlen, 0), s.len), s.tidOut, k.current);
    }
  }

  /** Receive takes the message of the sender that has waited longest, or waits for one. */
  lemma ReceiveEffect(k: Kernel, tidOut: Address, buf: Address, len: Int32)
    requires InvRunning(k) && CallerOk(k)
    ensures CallStep(k, Receive(tidOut, buf, len)).Running?
    ensures var k', me := CallStep(k, Receive(tidOut, buf, len)).k, k.current;
            var server := k.tasks[me];
            if server.senders == [] then
              var room := if len < 0 then len + 0x1_0000_0000 else len;
              k' == k.(tasks := k.tasks[me := server.(state := RecvWait(tidOut, buf, room), ret := -3)])
            else
              var from := server.senders[0];
              && from in k.tasks && from != me && k.tasks[from].state.SendWait? && k.tasks[from].state.to == me
              && var s := k.tasks[from].state;
                 var n := Min(s.msglen, Max(len, 0));
                 && k'.tasks == k.tasks[from := k.tasks[from].(state := ReplyWait(s.reply, s.rplen))]
                                       [me := server.(senders := server.senders[1..], ret := n)]
                 && MessageLeft(k.mem, k'.mem, buf, s.msg, n, tidOut, from)
                 && k'.ready == k.ready && k'.events == k.events && k'.current == me
  {
    hide CopyIfPresent, StoreWordIfPresent, MessageLeft, QueueOk, EventsOk;
    var server := k.tasks[k.current];
    if server.senders != [] {
      var from := server.senders[0];
      assert Listed(k.tasks, from, k.current);
      assert BlockedOn(k.tasks, from, k.current);
      var s := k.tasks[from].state;
      MessageMoves(k.mem, buf, s.msg, Min(s.msglen, Max(len, 0)), tidOut, from);
    }
  }

  /** AwaitEvent returns the data that has been kept and forgets it, or waits in the event's slot; the events
      are the three timers and the two UARTs. */
  lemma AwaitEffect(k: Kernel, id: Int32)
    requires InvRunning(k) && CallerOk(k)
    ensures var o, me := CallStep(k, AwaitEvent(id)), k.current;
            if id != 4 && id != 5 && id != 51 && id != 52 && id != 54 then o == Halted
            else if id !in k.events then
              o == Running(k.(events := k.events[id := Waiter(me)],
                              tasks := k.tasks[me := k.tasks[me].(state := EventWait(id), ret := -3)]))
            else match k.events[id]
              case Waiter(_) => o == Halted
              case Data(raw) =>
                && o.Running? && OnlyReturns(k.(events := o.k.events), o.k, raw)
                && o.k.events.Keys == k.events.Keys - {id}
                && forall x :: x in o.k.events ==> o.k.events[x] == k.events[x]
  {
    hide QueueOk, SendersOk, EventsOk;
  }

  /** Create adds a ready task at the lowest free tid, which it returns: of the priority asked for, with the
      caller as its parent and nobody waiting, queued once. */
  lemma CreateEffect(k: Kernel, priority: Int32)
    requires InvRunning(k) && CallerOk(k)
    ensures CallStep(k, Create(priority)).Running?
    ensures var k', me := CallStep(k, Create(priority)).k, k.current;
            if priority < 0 then OnlyReturns(k, k', -1)
            else if forall t :: 0 <= t < 48 ==> t in k.tasks then OnlyReturns(k, k', -2)
            else
              var tid := k'.tasks[me].ret;
              && 0 <= tid < 48 && tid !in k.tasks && (forall t :: 0 <= t < tid ==> t in k.tasks)
              && k'.tasks == k.tasks[me := k.tasks[me].(ret := tid)][tid := Task(priority, Some(me), Ready, [], 0)]
              && k'.ready == Insert(k.ready, Item(priority, tid))
              && k'.mem == k.mem && k'.events == k.events && k'.current == me
  {
    hide Insert, QueueOk, SendersOk, EventsOk;
    CreateInv(k, priority);
    var next := NextTid(k.tasks, 0);
    if priority >= 0 && next.Some? { assert next.value !in k.tasks; }
  }

  /** The other calls: who am I, who created me, how idle is the kernel, and nothing. */
  lemma QuickEffect(k: Kernel, p: Address, idlePct: nat)
    requires InvRunning(k) && CallerOk(k)
    ensures CallStep(k, MyTid).Running? && OnlyReturns(k, CallStep(k, MyTid).k, k.current)
    ensures CallStep(k, Yield) == Running(k)
    ensures k.tasks[k.current].parent.Some? && k.tasks[k.current].parent.value < 0x8000_0000 ==>
              var o := CallStep(k, MyParentTid);
              o.Running? && OnlyReturns(k, o.k, k.tasks[k.current].parent.value)
    ensures k.tasks[k.current].parent == None || k.tasks[k.current].parent == Some(0xFFFF_FFFF) ==>
              CallStep(k, MyParentTid).Running? && OnlyReturns(k, CallStep(k, MyParentTid).k, -1)
    ensures var o := CallStep(k, Perf(p, idlePct));
            && o.Running? && o.k == k.(mem := o.k.mem)
            && (p == 0 ==> o.k.mem == k.mem)
            && (p != 0 ==> WordAt(o.k.mem, p) == idlePct % 0x1_0000_0000)
            && (forall a :: !InWord(a, p) ==> ByteAt(o.k.mem, a) == ByteAt(k.mem, a))
  {
    hide Store, WordAt, QueueOk, SendersOk, EventsOk;
    WordStored(k.mem, p, idlePct);
  }

  /** Task a is dispatched before task b. */
  ghost predicate Before(q: seq<Item<Tid>>, a: Tid, b: Tid) {
    exists i, j :: 0 <= i < j < |q| && q[i].data == a && q[j].data == b
  }

  lemma StaysBefore(q: seq<Item<Tid>>, x: Item<Tid>, a: Tid, b: Tid)
    requires Before(q, a, b)
    ensures Before(Insert(q, x), a, b)
  {
    var i, j :| 0 <= i < j < |q| && q[i].data == a && q[j].data == b;
    var k, r := Place(q, x.priority), Insert(q, x);
    var i', j' := if i < k then i else i + 1, if j < k then j else j + 1;
    assert r[i'] == q[i] && r[j'] == q[j];
  }

  /** An item of no higher priority joins behind. */
  lemma JoinsBehind(q: seq<Item<Tid>>, i: nat, x: Item<Tid>)
    requires Sorted(q) && i < |q| && x.priority <= q[i].priority
    ensures Before(Insert(q, x), q[i].data, x.data)
  {
    var k, r := Place(q, x.priority), Insert(q, x);
    assert i < k;
    assert r[i] == q[i] && r[k] == x;
  }

  /** The queue after all of `items` have joined, one after another. */
  ghost function JoinAll(q: seq<Item<Tid>>, items: seq<Item<Tid>>): seq<Item<Tid>>
    decreases |items|
  {
    if items == [] then q else JoinAll(Insert(q, items[0]), items[1..])
  }

  lemma {:induction false} StaysBeforeAll(q: seq<Item<Tid>>, items: seq<Item<Tid>>, a: Tid, b: Tid)
    requires Before(q, a, b)
    ensures Before(JoinAll(q, items), a, b)
    decreases |items|
  {
    hide Before, Insert;
    if items == [] {
    } else {
      StaysBefore(q, items[0], a, b);
      StaysBeforeAll(Insert(q, items[0]), items[1..], a, b);
    }
  }

  /** A queued task stays before those of no higher priority that join. */
  lemma {:induction false} JoinBehind(q: seq<Item<Tid>>, items: seq<Item<Tid>>, i: nat, j: nat)
    requires Sorted(q) && i < |q| && j < |items| && items[j].priority <= q[i].priority
    ensures Before(JoinAll(q, items), q[i].data, items[j].data)
    decreases |items|
  {
    var x := items[0];
    var i' := if i < Place(q, x.priority) then i else i + 1;
    var q1 := Insert(q, x);
    assert i' < |q1| && q1[i'] == q[i];
    hide Before, Insert, Sorted;
    InsertKeepsSorted(q, x);
    if j == 0 {
      JoinsBehind(q, i, x);
      StaysBeforeAll(q1, items[1..], q[i].data, x.data);
    } else {
      JoinBehind(q1, items[1..], i', j - 1);
    }
  }

  lemma {:induction false} JoinInOrder(q: seq<Item<Tid>>, items: seq<Item<Tid>>, i: nat, j: nat)
    requires Sorted(q) && i < j < |items| && items[j].priority <= items[i].priority
    ensures Before(JoinAll(q, items), items[i].data, items[j].data)
    decreases |items|
  {
    var x := items[0];
    var place, q1 := Place(q, x.priority), Insert(q, x);
    assert place < |q1| && q1[place] == x;
    hide Before, Insert, Sorted;
    InsertKeepsSorted(q, x);
    if i == 0 {
      JoinBehind(q1, items[1..], place, j - 1);
    } else {
      JoinInOrder(q1, items[1..], i - 1, j - 1);
    }
  }

  ghost function ItemOf(tasks: map<Tid, Task>, t: Tid): Item<Tid>
    requires t in tasks
  {
    Item(tasks[t].priority, t)
  }

  ghost function ItemsOf(tasks: map<Tid, Task>, list: seq<Tid>): (items: seq<Item<Tid>>)
    requires forall s :: s in list ==> s in tasks
    ensures |items| == |list| && forall i :: 0 <= i < |list| ==> items[i] == ItemOf(tasks, list[i])
  {
    seq(|list|, i requires 0 <= i < |list| => ItemOf(tasks, list[i]))
  }

  /** The tasks that are woken join the queue one after another. */
  lemma {:induction false} WokenJoin(k: Kernel, list: seq<Tid>)
    requires (forall s :: s in list ==> s in k.tasks) && WakeAll(k, list).Running?
    ensures WakeAll(k, list).k.ready == JoinAll(k.ready, ItemsOf(k.tasks, list))
    decreases |list|
  {
    if list == [] {
    } else {
      var k1 := SetTask(k, list[0], Woken(k.tasks[list[0]])).(ready := Insert(k.ready, ItemOf(k.tasks, list[0])));
      WokenJoin(k1, list[1..]);
      assert ItemsOf(k.tasks, list)[1..] == ItemsOf(k1.tasks, list[1..]);
    }
  }

  /** The senders that Exit wakes join the queue in their order of arrival: they are dispatched in this order, but
      for higher priorities, and behind those of at least their priority that were queued before. */
  lemma ExitWakesInOrder(k: Kernel, i: nat, j: nat)
    requires InvRunning(k) && CallerOk(k) && j < |k.tasks[k.current].senders|
    ensures CallStep(k, Exit).Running?
    ensures var q, senders := CallStep(k, Exit).k.ready, k.tasks[k.current].senders;
            && (i < j && k.tasks[senders[j]].priority <= k.tasks[senders[i]].priority ==>
                  Before(q, senders[i], senders[j]))
            && (i < |k.ready| && k.tasks[senders[j]].priority <= k.ready[i].priority ==>
                  Before(q, k.ready[i].data, senders[j]))
  {
    hide Before, Sorted, SendersOk, EventsOk, JoinAll;
    ExitInv(k);
    var me, senders := k.tasks[k.current], k.tasks[k.current].senders;
    var k0 := SetTask(k, k.current, me.(parent := None, senders := []));
    var items := ItemsOf(k0.tasks, senders);
    WokenJoin(k0, senders);
    if i < j && items[j].priority <= items[i].priority { JoinInOrder(k.ready, items, i, j); }
    if i < |k.ready| && items[j].priority <= k.ready[i].priority { JoinBehind(k.ready, items, i, j); }
  }

  // ---------------------------------------------------------------------------------------------
  // Interrupts.

  /** What the kernel passes on of an interrupt: for 52 what the first UART reports, for 54 what the second
      reports, for a timer nothing. */
  ghost predicate Reported(irq: Interrupts, no: nat, raw: int) {
    && (no == 52 ==> raw == irq.uart1)
    && (no == 54 ==> raw == irq.uart2)
    && (no != 52 && no != 54 ==> raw == 0)
  }

  /** The slot of event `no` after interrupts, `hit` if its own was among them: a waiter is gone, otherwise
      what the interrupt reports is kept. */
  ghost predicate SlotAfter(before: Kernel, after: Kernel, irq: Interrupts, no: nat, hit: bool) {
    if !hit then
      && (no in after.events <==> no in before.events)
      && (no in before.events ==> after.events[no] == before.events[no])
    else if no in before.events && before.events[no].Waiter? then no !in after.events
    else no in after.events && after.events[no].Data? && Reported(irq, no, after.events[no].raw)
  }

  /** Task t after interrupts, `hit` if one was the event it waits for: it is ready with what that one
      reports; all others are as before. */
  ghost predicate TaskAfter(before: Kernel, after: Kernel, irq: Interrupts, t: Tid, hit: bool) {
    t in before.tasks ==>
      && t in after.tasks
      && if hit && before.tasks[t].state.EventWait? then
           && after.tasks[t] == before.tasks[t].(state := Ready, ret := after.tasks[t].ret)
           && Reported(irq, before.tasks[t].state.id, after.tasks[t].ret)
         else after.tasks[t] == before.tasks[t]
  }

  ghost predicate RestSame(before: Kernel, after: Kernel) {
    after.tasks.Keys == before.tasks.Keys && after.mem == before.mem && after.current == before.current
  }

  lemma ServiceEffect(k: Kernel, run: Option<Tid>, served: nat, irq: Interrupts, no: nat, t: Tid)
    requires Inv(k, run) && WaitersLive(k) && Beside(k, run) && ServiceStep(k, served, irq).Running?
    ensures var k' := ServiceStep(k, served, irq).k;
            && SlotAfter(k, k', irq, no, no == served) && TaskAfter(k, k', irq, t, Awaits(k.tasks, t, served))
            && RestSame(k, k')
  {
    hide QueueOk, SendersOk, Insert;
    assert Awaits(k.tasks, t, served) <==> HasWaiter(k.events, served, t);
    if served in k.events && k.events[served].Waiter? {
      assert HasWaiter(k.events, served, k.events[served].tid);
      assert Awaits(k.tasks, k.events[served].tid, served);
    }
  }

  lemma SlotThen(k: Kernel, k1: Kernel, k2: Kernel, irq: Interrupts, no: nat, hit1: bool, hit2: bool)
    requires SlotAfter(k, k1, irq, no, hit1) && SlotAfter(k1, k2, irq, no, hit2) && !(hit1 && hit2)
    ensures SlotAfter(k, k2, irq, no, hit1 || hit2)
  {
  }

  /** Line `no` of a controller is asserted, at place `from` or later. */
  ghost predicate Hit(lines: Lines, base: nat, from: nat, no: nat) {
    base + from <= no < base + 32 && lines[no - base]
  }

  ghost predicate AwaitsHit(k: Kernel, t: Tid, lines: Lines, base: nat, from: nat) {
    t in k.tasks && k.tasks[t].state.EventWait? && Hit(lines, base, from, k.tasks[t].state.id)
  }

  lemma {:induction false} LinesEffect(k: Kernel, run: Option<Tid>, lines: Lines, base: nat, from: nat, irq: Interrupts,
                                       no: nat, t: Tid)
    requires Inv(k, run) && WaitersLive(k) && Beside(k, run) && from <= 32
    requires ServiceLines(k, lines, base, from, irq).Running?
    ensures var k' := ServiceLines(k, lines, base, from, irq).k;
            && SlotAfter(k, k', irq, no, Hit(lines, base, from, no))
            && TaskAfter(k, k', irq, t, AwaitsHit(k, t, lines, base, from))
            && RestSame(k, k')
    decreases 32 - from
  {
    hide Inv, WaitersLive, Reported, ServiceStep;
    if from == 32 {
    } else if !lines[from] {
      LinesEffect(k, run, lines, base, from + 1, irq, no, t);
    } else {
      ServiceInv(k, run, base + from, irq);
      var k1 := ServiceStep(k, base + from, irq).k;
      WaitersAreLive(k1, run);
      ServiceEffect(k, run, base + from, irq, no, t);
      LinesEffect(k1, run, lines, base, from + 1, irq, no, t);
      SlotThen(k, k1, ServiceLines(k, lines, base, from, irq).k, irq, no, no == base + from,
               Hit(lines, base, from + 1, no));
    }
  }

  /** Interrupts, together: the waiter of each asserted event becomes ready with what that interrupt reports, and
      what is reported for an event without a waiter is kept in its slot; no other task and no other slot
      changes. */
  lemma InterruptEffect(k: Kernel, run: Option<Tid>, irq: Interrupts, no: nat, t: Tid)
    requires Inv(k, run) && WaitersLive(k) && Beside(k, run) && InterruptStep(k, irq).Running?
    ensures var k' := InterruptStep(k, irq).k;
            && SlotAfter(k, k', irq, no, Asserted(irq, no))
            && TaskAfter(k, k', irq, t,
                         t in k.tasks && k.tasks[t].state.EventWait? && Asserted(irq, k.tasks[t].state.id))
            && RestSame(k, k')
  {
    hide Inv, WaitersLive, Reported;
    ServiceLinesInv(k, run, irq.vic1, 0, 0, irq);
    LinesEffect(k, run, irq.vic1, 0, 0, irq, no, t);
    var k1 := ServiceLines(k, irq.vic1, 0, 0, irq).k;
    WaitersAreLive(k1, run);
    LinesEffect(k1, run, irq.vic2, 32, 0, irq, no, t);
    SlotThen(k, k1, InterruptStep(k, irq).k, irq, no, Hit(irq.vic1, 0, 0, no), Hit(irq.vic2, 32, 0, no));
  }

  /** A task that is interrupted finds its register as it left it, and is otherwise as before. */
  lemma PreemptedUnchanged(k: Kernel, r0: int, irq: Interrupts)
    requires InvRunning(k) && CallerOk(k) && WaitersLive(k) && TrapStep(k, Irq(r0, irq)).Running?
    ensures var k', me := TrapStep(k, Irq(r0, irq)).k, k.current;
            k'.current == me && me in k'.tasks && k'.tasks[me] == k.tasks[me].(ret := r0)
  {
    WriteReturnInv(k, Some(k.current), k.current, r0);
    InterruptInv(WriteReturn(k, k.current, r0), Some(k.current), irq);
  }
}
