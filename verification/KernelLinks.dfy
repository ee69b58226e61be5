/** How the task table with its linked sender lists represents the tasks of the model. */
module KernelLinks {
  import opened Options
  import opened Sequences
  import opened KernelModel
  import opened KernelInvariant

  /** The tagged union of include/kernel/task_descriptor.h. */
  datatype TaskState =
    | READY
    | SEND_WAIT(msg: Address, msglen: nat, reply: Address, rplen: nat, next: Option<Tid>)
    | RECV_WAIT(tid: Address, recvBuf: Address, len: nat)
    | REPLY_WAIT(reply: Address, rplen: nat)
    | EVENT_WAIT

  /** The saved stack is reduced to the register that returns the result of a system call. */
  datatype TaskDescriptor = TaskDescriptor(
    tid: Tid,
    sendQueueHead: Option<Tid>,
    sendQueueTail: Option<Tid>,
    priority: nat,
    state: TaskState,
    parentTid: Option<nat>,
    ret: int)

  type Table = seq<Option<TaskDescriptor>>

  ghost predicate StateMatches(s: TaskState, m: RunState) {
    match s
    case READY => m.Ready?
    case SEND_WAIT(msg, msglen, reply, rplen, _) =>
      m.SendWait? && m.msg == msg && m.msglen == msglen && m.reply == reply && m.rplen == rplen
    case RECV_WAIT(tid, recvBuf, len) => m == RecvWait(tid, recvBuf, len)
    case REPLY_WAIT(reply, rplen) => m == ReplyWait(reply, rplen)
    case EVENT_WAIT => m.EventWait?
  }

  ghost predicate Matches(d: TaskDescriptor, t: Tid, task: Task) {
    && d.tid == t && d.priority == task.priority && d.parentTid == task.parent && d.ret == task.ret
    && StateMatches(d.state, task.state)
    && d.sendQueueHead == (if task.senders == [] then None else Some(task.senders[0]))
    && d.sendQueueTail == (if task.senders == [] then None else Some(task.senders[|task.senders| - 1]))
  }

  ghost function NextOf(ts: Table, t: Tid): Option<Tid> {
    if t < |ts| && ts[t].Some? && ts[t].value.state.SEND_WAIT? then ts[t].value.state.next else None
  }

  ghost predicate LinkAt(ts: Table, list: seq<Tid>, i: int) {
    0 <= i < |list| ==> NextOf(ts, list[i]) == if i + 1 < |list| then Some(list[i + 1]) else None
  }

  /** The next pointers lead through the list, front to back, and end there. */
  ghost predicate Linked(ts: Table, list: seq<Tid>) {
    forall i :: LinkAt(ts, list, i)
  }

  ghost predicate TableShows(ts: Table, m: map<Tid, Task>) {
    && |ts| == MAX_SCHEDULED_TASKS
    && TidsOk(m)
    && (forall t :: 0 <= t < |ts| ==> (ts[t].Some? <==> t in m))
    && (forall t :: t in m ==> ts[t].Some? && Matches(ts[t].value, t, m[t]))
    && (forall t :: t in m ==> Linked(ts, m[t].senders))
  }

  lemma LinkedKept(ts: Table, ts': Table, list: seq<Tid>)
    requires Linked(ts, list) && forall s :: s in list ==> NextOf(ts', s) == NextOf(ts, s)
    ensures Linked(ts', list)
  {
    forall i ensures LinkAt(ts', list, i) { assert LinkAt(ts, list, i); }
  }

  /** One descriptor is written; where it stands in other tasks' lists, its next pointer stays. */
  lemma SetRepresents(ts: Table, m: map<Tid, Task>, t: Tid, d: TaskDescriptor, task: Task)
    requires TableShows(ts, m) && t < MAX_SCHEDULED_TASKS
    requires Matches(d, t, task) && Linked(ts[t := Some(d)], task.senders)
    requires forall r :: r in m && r != t && t in m[r].senders ==> NextOf(ts[t := Some(d)], t) == NextOf(ts, t)
    ensures TableShows(ts[t := Some(d)], m[t := task])
  {
    var ts' := ts[t := Some(d)];
    forall r | r in m && r != t ensures Linked(ts', m[r].senders) {
      LinkedKept(ts, ts', m[r].senders);
    }
  }

  /** As above, for a task whose own list stays. */
  lemma UpdateRepresents(ts: Table, m: map<Tid, Task>, t: Tid, d: TaskDescriptor, task: Task)
    requires TableShows(ts, m) && t in m && task.senders == m[t].senders && Matches(d, t, task)
    requires (forall r :: !Listed(m, t, r)) || NextOf(ts[t := Some(d)], t) == NextOf(ts, t)
    ensures TableShows(ts[t := Some(d)], m[t := task])
  {
    var ts' := ts[t := Some(d)];
    forall s | s in task.senders ensures NextOf(ts', s) == NextOf(ts, s) {
      assert Listed(m, s, t);
    }
    LinkedKept(ts, ts', task.senders);
    forall r | r in m && r != t && t in m[r].senders ensures NextOf(ts', t) == NextOf(ts, t) {
      assert Listed(m, t, r);
    }
    SetRepresents(ts, m, t, d, task);
  }

  lemma RemoveRepresents(ts: Table, m: map<Tid, Task>, t: Tid)
    requires TableShows(ts, m) && t in m && forall r :: !Listed(m, t, r)
    ensures TableShows(ts[t := None], m - {t})
  {
    var ts' := ts[t := None];
    forall r | r in m && r != t ensures Linked(ts', m[r].senders) {
      assert !Listed(m, t, r);
      LinkedKept(ts, ts', m[r].senders);
    }
  }

  /** A task that is not blocked sending is in nobody's list. */
  lemma NotListed(m: map<Tid, Task>, t: Tid)
    requires SendersOk(m) && (t in m ==> !m[t].state.SendWait?)
    ensures forall r :: !Listed(m, t, r)
  {
    forall r ensures !Listed(m, t, r) { assert BlockedOn(m, t, r) <==> Listed(m, t, r); }
  }

  lemma ListedOnce(m: map<Tid, Task>, s: Tid, r: Tid)
    requires SendersOk(m) && Listed(m, s, r)
    ensures s in m && m[s].state.SendWait? && forall r' :: Listed(m, s, r') ==> r' == r
    ensures forall i, j :: 0 <= i < j < |m[r].senders| ==> !(m[r].senders[i] == s == m[r].senders[j])
  {
    assert BlockedOn(m, s, r);
    forall r' | Listed(m, s, r') ensures r' == r { assert BlockedOn(m, s, r'); }
  }

  /** The front of a list gives way to the rest, which stays linked. */
  lemma LinkedTail(ts: Table, list: seq<Tid>)
    requires list != [] && Linked(ts, list)
    ensures NextOf(ts, list[0]) == if |list| > 1 then Some(list[1]) else None
    ensures Linked(ts, list[1..])
  {
    assert LinkAt(ts, list, 0);
    forall i ensures LinkAt(ts, list[1..], i) { assert LinkAt(ts, list, i + 1); }
  }

  /** Appending: the old tail points to the newcomer, which points nowhere. */
  lemma LinkedAppend(ts: Table, ts': Table, list: seq<Tid>, s: Tid)
    requires Linked(ts, list) && Distinct(list) && s !in list
    requires forall x :: x in list && x != list[|list| - 1] ==> NextOf(ts', x) == NextOf(ts, x)
    requires list != [] ==> NextOf(ts', list[|list| - 1]) == Some(s)
    requires NextOf(ts', s) == None
    ensures Linked(ts', list + [s])
  {
    forall i ensures LinkAt(ts', list + [s], i) {
      assert LinkAt(ts, list, i);
      if 0 <= i < |list| - 1 { assert list[i] in list && list[i] != list[|list| - 1]; }
    }
  }

  /** The writes of Send that put `me` behind the other senders of `to`. */
  ghost function Appended(ts: Table, to: Tid, me: Tid): Table
    requires to < |ts| && ts[to].Some?
    requires ts[to].value.sendQueueHead.Some? ==> TailReady(ts, to)
  {
    if ts[to].value.sendQueueHead.None? then
      ts[to := Some(ts[to].value.(sendQueueHead := Some(me), sendQueueTail := Some(me)))]
    else
      var tail := ts[to].value.sendQueueTail.value;
      var ts1 := ts[tail := Some(ts[tail].value.(state := ts[tail].value.state.(next := Some(me))))];
      ts1[to := Some(ts1[to].value.(sendQueueTail := Some(me)))]
  }

  predicate TailOk(ts: Table, tail: Tid) {
    tail < |ts| && ts[tail].Some? && ts[tail].value.state.SEND_WAIT?
  }

  /** The tail of the receiver's list is a blocked sender that points nowhere. */
  predicate TailReady(ts: Table, to: Tid) {
    && to < |ts| && ts[to].Some? && ts[to].value.sendQueueTail.Some?
    && TailOk(ts, ts[to].value.sendQueueTail.value)
    && ts[ts[to].value.sendQueueTail.value].value.state.next.None?
  }

  /** The links of all lists, with the newcomer at the end of its receiver's. */
  lemma AppendLinks(ts: Table, m: map<Tid, Task>, to: Tid, me: Tid)
    requires TableShows(ts, m) && to in m && me in m && me !in m[to].senders && Distinct(m[to].senders)
    requires m[me].state.SendWait? && NextOf(ts, me) == None && (m[to].senders != [] ==> TailReady(ts, to))
    requires forall r, s :: Listed(m, s, r) && Listed(m, s, to) ==> r == to
    ensures Linked(Appended(ts, to, me), m[to].senders + [me])
    ensures forall r :: r in m && r != to ==> Linked(Appended(ts, to, me), m[r].senders)
  {
    var list := m[to].senders;
    var ts' := Appended(ts, to, me);
    LinkedAppend(ts, ts', list, me);
    forall r | r in m && r != to ensures Linked(ts', m[r].senders) {
      forall s | s in m[r].senders ensures NextOf(ts', s) == NextOf(ts, s) {
        assert Listed(m, s, r);
        assert list != [] && s == list[|list| - 1] ==> Listed(m, s, to);
      }
      LinkedKept(ts, ts', m[r].senders);
    }
  }

  /** The descriptors, with the newcomer at the end of its receiver's list. */
  lemma AppendMatches(ts: Table, m: map<Tid, Task>, to: Tid, me: Tid)
    requires TableShows(ts, m) && to in m && me in m && (m[to].senders != [] ==> TailReady(ts, to))
    ensures var ts', m' := Appended(ts, to, me), m[to := m[to].(senders := m[to].senders + [me])];
            |ts'| == |ts| && forall t :: 0 <= t < |ts| ==>
              (ts'[t].Some? <==> t in m') && (t in m' ==> Matches(ts'[t].value, t, m'[t]))
  {
    var ts', m' := Appended(ts, to, me), m[to := m[to].(senders := m[to].senders + [me])];
    assert |ts'| == |ts|;
    hide Linked, Appended, Matches, TailReady;
    forall t | 0 <= t < |ts|
      ensures (ts'[t].Some? <==> t in m') && (t in m' ==> Matches(ts'[t].value, t, m'[t]))
    {
      AppendMatchesAt(ts, m, to, me, t);
    }
  }

  lemma AppendMatchesAt(ts: Table, m: map<Tid, Task>, to: Tid, me: Tid, t: Tid)
    requires |ts| == MAX_SCHEDULED_TASKS && to in m && to < |ts| && t < |ts|
    requires (ts[t].Some? <==> t in m) && (t in m ==> Matches(ts[t].value, t, m[t]))
    requires ts[to].Some? && Matches(ts[to].value, to, m[to]) && (m[to].senders != [] ==> TailReady(ts, to))
    ensures var ts', m' := Appended(ts, to, me), m[to := m[to].(senders := m[to].senders + [me])];
            |ts'| == |ts| && (ts'[t].Some? <==> t in m') && (t in m' ==> Matches(ts'[t].value, t, m'[t]))
  {
  }

  lemma TailIsReady(ts: Table, m: map<Tid, Task>, to: Tid)
    requires TableShows(ts, m) && to in m
    requires forall s :: s in m[to].senders ==> s in m && m[s].state.SendWait?
    ensures ts[to].Some? && (ts[to].value.sendQueueHead.Some? <==> m[to].senders != [])
    ensures m[to].senders != [] ==> TailReady(ts, to)
  {
    var list := m[to].senders;
    if list != [] {
      var tail := list[|list| - 1];
      assert tail in list && LinkAt(ts, list, |list| - 1);
    }
  }

  lemma AppendRepresents(ts: Table, m: map<Tid, Task>, to: Tid, me: Tid)
    requires TableShows(ts, m) && to in m && me in m && me !in m[to].senders && Distinct(m[to].senders)
    requires m[me].state.SendWait? && NextOf(ts, me) == None
    requires forall s :: s in m[to].senders ==> s in m && m[s].state.SendWait?
    requires forall r, s :: Listed(m, s, r) && Listed(m, s, to) ==> r == to
    ensures m[to].senders != [] ==> TailReady(ts, to)
    ensures TableShows(Appended(ts, to, me), m[to := m[to].(senders := m[to].senders + [me])])
  {
    hide Linked, Listed, Distinct, Appended, Matches, TailReady, NextOf;
    TailIsReady(ts, m, to);
    AppendLinks(ts, m, to, me);
    AppendMatches(ts, m, to, me);
  }

  /** The writes of Receive that take the front sender off the list of `me`. */
  ghost function Removed(ts: Table, me: Tid, front: Tid, d: TaskDescriptor): Table
    requires me < |ts| && ts[me].Some? && front < |ts|
  {
    var next := NextOf(ts, front);
    ts[front := Some(d)][me := Some(ts[me].value.(sendQueueHead := next,
      sendQueueTail := if next.None? then None else ts[me].value.sendQueueTail))]
  }

  lemma RemoveFrontRepresents(ts: Table, m: map<Tid, Task>, me: Tid, d: TaskDescriptor, sender: Task)
    requires TableShows(ts, m) && SendersOk(m) && me in m && m[me].senders != [] && m[me].senders[0] != me
    requires m[me].senders[0] in m && sender.senders == m[m[me].senders[0]].senders
    requires Matches(d, m[me].senders[0], sender) && !d.state.SEND_WAIT?
    ensures TableShows(Removed(ts, me, m[me].senders[0], d),
                       m[m[me].senders[0] := sender][me := m[me].(senders := m[me].senders[1..])])
  {
    hide StateMatches, Distinct;
    var list := m[me].senders;
    var front := list[0];
    assert Listed(m, front, me);
    ListedOnce(m, front, me);
    FrontApart(list);
    LinkedTail(ts, list);
    var ts' := Removed(ts, me, front, d);
    assert forall s :: s != front ==> NextOf(ts', s) == NextOf(ts, s);
    LinkedKept(ts, ts', list[1..]);
    forall r | r in m && r != me ensures Linked(ts', m[r].senders) {
      assert !Listed(m, front, r);
      LinkedKept(ts, ts', m[r].senders);
    }
  }
}
