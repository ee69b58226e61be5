/** The clock server of src/user/tasks/clockserver.cc: delays end at their tick, neither earlier nor
    later, and in the order in which they were asked for. */
module ClockServers {
  import opened Options
  import opened Integers
  import opened PriorityQueues

  const MAX_DELAYED: nat := 32

  datatype DelayedTask = DelayedTask(tid: int, threshold: int)

  datatype Request = NotifierTick | Time | Delay(ticks: Int32) | DelayUntil(ticks: Int32)
  datatype Response = CarryOn | TimeIs(now: int) | Empty
  datatype Answer = Answer(tid: int, response: Response)

  // ---------------------------------------------------------------------------------------------
  // What the server does.

  datatype Clock = Clock(now: int, waiting: seq<Item<DelayedTask>>)

  /** Panicked stands for the server's assertions and its full queue, Overflowed for a sum that does
      not fit in an int. */
  datatype Outcome = Handled(clock: Clock, answers: seq<Answer>) | Panicked | Overflowed

  /** The waiting tasks whose tick has come, and the others. */
  function Due(q: seq<Item<DelayedTask>>, now: int): seq<DelayedTask> {
    if q == [] || q[0].data.threshold > now then [] else [q[0].data] + Due(q[1..], now)
  }

  function NotDue(q: seq<Item<DelayedTask>>, now: int): seq<Item<DelayedTask>> {
    if q == [] || q[0].data.threshold > now then q else NotDue(q[1..], now)
  }

  function Wakings(tasks: seq<DelayedTask>): seq<Answer> {
    seq(|tasks|, i requires 0 <= i < |tasks| => Answer(tasks[i].tid, Empty))
  }

  function Joined(c: Clock, t: DelayedTask): Clock {
    c.(waiting := Insert(c.waiting, Item(-t.threshold, t)))
  }

  function Enqueued(c: Clock, tid: int, threshold: int): Outcome {
    if |c.waiting| >= MAX_DELAYED then Panicked else Handled(Joined(c, DelayedTask(tid, threshold)), [])
  }

  function Step(c: Clock, notifier: int, tid: int, req: Request): Outcome {
    match req
    case NotifierTick =>
      if tid != notifier then Panicked
      else if c.now >= INT_MAX then Overflowed
      else
        Handled(Clock(c.now + 1, NotDue(c.waiting, c.now + 1)),
                [Answer(tid, CarryOn)] + Wakings(Due(c.waiting, c.now + 1)))
    case Time => if c.now >= INT_MAX then Panicked else Handled(c, [Answer(tid, TimeIs(c.now))])
    case Delay(ticks) =>
      if ticks <= 0 then Handled(c, [Answer(tid, Empty)])
      else if c.now + ticks > INT_MAX then Overflowed
      else Enqueued(c, tid, c.now + ticks)
    case DelayUntil(ticks) =>
      if ticks <= c.now then Handled(c, [Answer(tid, Empty)]) else Enqueued(c, tid, ticks)
  }

  predicate ForLater(x: Item<DelayedTask>, now: int) {
    x.priority == -x.data.threshold && x.data.threshold > now
  }

  /** Between requests every waiting task's tick lies in the future, earliest first. */
  ghost predicate ClockOk(c: Clock) {
    && 0 <= c.now <= INT_MAX
    && Sorted(c.waiting)
    && (forall i :: 0 <= i < |c.waiting| ==> ForLater(c.waiting[i], c.now))
  }

  // ---------------------------------------------------------------------------------------------
  // The program.

  datatype ServerResult = Replied(answers: seq<Answer>) | Panic | Overflow

  class Server {
    const notifierTid: int
    const pq: PriorityQueue<DelayedTask>
    var currentTime: int

    ghost predicate Valid()
      reads this, pq, pq.arr
    {
      pq.Valid() && pq.arr.Length == MAX_DELAYED && ClockOk(Now())
    }

    /** The clock that this object represents. */
    ghost function Now(): Clock
      reads this, pq
    {
      Clock(currentTime, pq.Items())
    }

    constructor (notifier: int)
      ensures Valid() && notifierTid == notifier && Now() == Clock(0, []) && fresh(pq) && fresh(pq.arr)
    {
      notifierTid := notifier;
      pq := new PriorityQueue(MAX_DELAYED);
      currentTime := 0;
    }

    /** enqueue_task(): false is its panic for a full queue. */
    method EnqueueTask(tid: int, threshold: int) returns (ok: bool)
      requires Valid() && threshold > currentTime
      modifies pq, pq.arr
      ensures Valid() && ok == (|old(Now()).waiting| < MAX_DELAYED)
      ensures Now() == if ok then Joined(old(Now()), DelayedTask(tid, threshold)) else old(Now())
    {
      InsertWaiting(Now(), DelayedTask(tid, threshold));
      FrontAfterInsert(Now(), DelayedTask(tid, threshold));
      ok := PushDelayed(tid, threshold);
      if ok {
        var front := pq.Peek();
        assert front.value.threshold <= threshold;
      }
    }

    method PushDelayed(tid: int, threshold: int) returns (ok: bool)
      requires pq.Valid() && pq.arr.Length == MAX_DELAYED
      modifies pq, pq.arr
      ensures pq.Valid() && ok == (|old(Now()).waiting| < MAX_DELAYED)
      ensures Now() == if ok then Joined(old(Now()), DelayedTask(tid, threshold)) else old(Now())
    {
      hide Insert;
      ok := pq.Push(DelayedTask(tid, threshold), -threshold);
    }

    /** The inner loop of a tick. */
    method WakeDue() returns (woken: seq<DelayedTask>)
      requires pq.Valid()
      modifies pq, pq.arr
      ensures pq.Valid() && woken == Due(old(pq.Items()), currentTime)
      ensures pq.Items() == NotDue(old(pq.Items()), currentTime)
    {
      woken := [];
      while true
        invariant pq.Valid()
        invariant woken + Due(pq.Items(), currentTime) == Due(old(pq.Items()), currentTime)
        invariant NotDue(pq.Items(), currentTime) == NotDue(old(pq.Items()), currentTime)
        decreases |pq.Items()|
      {
        var hd := pq.Peek();
        if !hd.Some? { break; }
        if hd.value.threshold > currentTime { break; }
        ghost var before := pq.Items();
        var delayedTask := pq.Pop();
        DueStep(woken, before, currentTime);
        woken := woken + [delayedTask.value];
      }
    }

    /** The result r and the new state are those of the outcome o. */
    ghost predicate Did(o: Outcome, r: ServerResult)
      reads this, pq, pq.arr
    {
      match o
      case Panicked => r == Panic
      case Overflowed => r == Overflow
      case Handled(c, answers) => Valid() && r == Replied(answers) && Now() == c
    }

    /** One turn of the server loop. */
    method Handle(tid: int, req: Request) returns (r: ServerResult)
      requires Valid()
      modifies this, pq, pq.arr
      ensures Did(Step(old(Now()), notifierTid, tid, req), r)
    {
      match req {
        case NotifierTick => r := HandleTick(tid);
        case Time => r := HandleTime(tid);
        case Delay(ticks) => r := HandleDelay(tid, ticks);
        case DelayUntil(ticks) => r := HandleDelayUntil(tid, ticks);
      }
    }

    method HandleTime(tid: int) returns (r: ServerResult)
      requires Valid()
      ensures Did(Step(Now(), notifierTid, tid, Time), r)
    {
      if currentTime >= INT_MAX { return Panic; }
      return Replied([Answer(tid, TimeIs(currentTime))]);
    }

    method HandleDelay(tid: int, ticks: Int32) returns (r: ServerResult)
      requires Valid()
      modifies pq, pq.arr
      ensures Did(Step(old(Now()), notifierTid, tid, Delay(ticks)), r)
    {
      hide Sorted, ForLater, Insert;
      if ticks <= 0 { return Replied([Answer(tid, Empty)]); }
      if currentTime + ticks > INT_MAX { return Overflow; }
      var ok := EnqueueTask(tid, currentTime + ticks);
      return if ok then Replied([]) else Panic;
    }

    method HandleDelayUntil(tid: int, ticks: Int32) returns (r: ServerResult)
      requires Valid()
      modifies pq, pq.arr
      ensures Did(Step(old(Now()), notifierTid, tid, DelayUntil(ticks)), r)
    {
      hide Sorted, ForLater, Insert;
      if ticks <= currentTime { return Replied([Answer(tid, Empty)]); }
      var ok := EnqueueTask(tid, ticks);
      return if ok then Replied([]) else Panic;
    }

    method HandleTick(tid: int) returns (r: ServerResult)
      requires Valid()
      modifies this, pq, pq.arr
      ensures Did(Step(old(Now()), notifierTid, tid, NotifierTick), r)
    {
      hide Sorted, ForLater, Due, NotDue;
      if tid != notifierTid { return Panic; }
      if currentTime >= INT_MAX { return Overflow; }
      TickOk(Now());
      currentTime := currentTime + 1;
      var woken := WakeDue();
      return Replied([Answer(tid, CarryOn)] + Wakings(woken));
    }

    /** The server loop: false if a message made it panic or overflow. */
    method Serve(messages: seq<Message>) returns (ok: bool, replies: seq<seq<Answer>>)
      requires Valid() && Now() == Clock(0, [])
      modifies this, pq, pq.arr
      ensures ok <==> HandlesAll(notifierTid, messages)
      ensures ok ==> Valid() && Run(notifierTid, messages) == Some(History(Now(), replies))
      ensures ok ==> replies == AllAnswers(messages) && currentTime == Ticks(messages)
    {
      hide AllAnswers, HandlesAll, UpToDate, ClockOk, Step, Ticks;
      replies := [];
      var i := 0;
      while i < |messages|
        invariant i <= |messages| && Valid() && Run(notifierTid, messages[..i]) == Some(History(Now(), replies))
      {
        ghost var before := messages[..i];
        assert messages[..i + 1][..i] == before && messages[..i + 1][i] == messages[i];
        var r := Handle(messages[i].tid, messages[i].req);
        if !r.Replied? {
          StoppedForGood(notifierTid, messages, i + 1);
          return false, replies;
        }
        replies := replies + [r.answers];
        i := i + 1;
      }
      assert messages[..i] == messages;
      RunExact(notifierTid, messages);
      ok := true;
    }
  }

  /** A server that has stopped handles no more messages. */
  lemma {:induction false} StoppedForGood(notifier: int, messages: seq<Message>, i: nat)
    requires i <= |messages| && Run(notifier, messages[..i]).None?
    ensures !HandlesAll(notifier, messages)
    decreases |messages|
  {
    if i == |messages| {
      assert messages[..i] == messages;
      RunExact(notifier, messages);
    } else {
      var front := messages[..|messages| - 1];
      assert front[..i] == messages[..i];
      StoppedForGood(notifier, front, i);
    }
  }

  lemma DueStep(woken: seq<DelayedTask>, q: seq<Item<DelayedTask>>, now: int)
    requires q != [] && q[0].data.threshold <= now
    ensures woken + Due(q, now) == woken + [q[0].data] + Due(q[1..], now)
    ensures NotDue(q, now) == NotDue(q[1..], now)
  {
    assert woken + ([q[0].data] + Due(q[1..], now)) == woken + [q[0].data] + Due(q[1..], now);
  }

  // ---------------------------------------------------------------------------------------------
  // Exactness.

  lemma InsertForLater(q: seq<Item<DelayedTask>>, k: nat, item: Item<DelayedTask>, now: int)
    requires k <= |q| && ForLater(item, now) && forall i :: 0 <= i < |q| ==> ForLater(q[i], now)
    ensures forall i :: 0 <= i <= |q| ==> ForLater(InsertAt(q, k, item)[i], now)
  {
  }

  lemma InsertWaiting(c: Clock, t: DelayedTask)
    requires ClockOk(c) && t.threshold > c.now
    ensures ClockOk(Joined(c, t))
  {
    var item := Item(-t.threshold, t);
    assert ForLater(item, c.now);
    hide InsertAt, Place, Sorted, ForLater;
    InsertKeepsSorted(c.waiting, item);
    InsertForLater(c.waiting, Place(c.waiting, item.priority), item, c.now);
  }

  lemma FrontAfterInsert(c: Clock, t: DelayedTask)
    requires ClockOk(c)
    ensures Joined(c, t).waiting[0].data.threshold <= t.threshold
  {
    var k := Place(c.waiting, -t.threshold);
    if k > 0 { assert ForLater(c.waiting[0], c.now) && c.waiting[0].priority >= -t.threshold; }
  }

  /** A tick wakes exactly the tasks waiting for it, in their order. */
  lemma {:induction false} DueExactly(q: seq<Item<DelayedTask>>, now: int)
    requires ClockOk(Clock(now - 1, q)) && now <= INT_MAX
    ensures ClockOk(Clock(now, NotDue(q, now)))
    ensures forall i :: 0 <= i < |Due(q, now)| ==> Due(q, now)[i].threshold == now
  {
    if q != [] {
      if q[0].data.threshold <= now {
        DueExactly(q[1..], now);
      } else {
        forall i | 0 <= i < |q| ensures ForLater(q[i], now) {
          assert ForLater(q[i], now - 1) && q[0].priority >= q[i].priority;
        }
      }
    }
  }

  lemma TickOk(c: Clock)
    requires ClockOk(c) && c.now < INT_MAX
    ensures ClockOk(Clock(c.now + 1, NotDue(c.waiting, c.now + 1)))
  {
    DueExactly(c.waiting, c.now + 1);
  }

  /** What a request at time `now` adds to the waiting tasks. */
  function Accepts(now: int, tid: int, req: Request): seq<DelayedTask> {
    match req
    case Delay(ticks) => if ticks > 0 then [DelayedTask(tid, now + ticks)] else []
    case DelayUntil(ticks) => if ticks > now then [DelayedTask(tid, ticks)] else []
    case _ => []
  }

  /** Apart from ticks, a request leaves the clock alone or lets one task join. */
  lemma StepShape(c: Clock, notifier: int, tid: int, req: Request)
    requires Step(c, notifier, tid, req).Handled? && !req.NotifierTick?
    ensures |Accepts(c.now, tid, req)| <= 1
    ensures Step(c, notifier, tid, req).clock ==
              if Accepts(c.now, tid, req) == [] then c else Joined(c, Accepts(c.now, tid, req)[0])
    ensures Accepts(c.now, tid, req) != [] ==> Accepts(c.now, tid, req)[0].threshold > c.now
  {
  }

  /** The tasks of the list that wait for tick t, in order. */
  function WaitingFor(tasks: seq<DelayedTask>, t: int): seq<DelayedTask> {
    if tasks == [] then []
    else (if tasks[0].threshold == t then [tasks[0]] else []) + WaitingFor(tasks[1..], t)
  }

  function Tasks(q: seq<Item<DelayedTask>>): seq<DelayedTask> {
    if q == [] then [] else [q[0].data] + Tasks(q[1..])
  }

  lemma {:induction false} WaitingForConcat(a: seq<DelayedTask>, b: seq<DelayedTask>, t: int)
    ensures WaitingFor(a + b, t) == WaitingFor(a, t) + WaitingFor(b, t)
  {
    if a == [] {
      assert a + b == b;
    } else {
      var x := if a[0].threshold == t then [a[0]] else [];
      assert (a + b)[0] == a[0] && (a + b)[1..] == a[1..] + b;
      WaitingForConcat(a[1..], b, t);
      assert x + (WaitingFor(a[1..], t) + WaitingFor(b, t)) == (x + WaitingFor(a[1..], t)) + WaitingFor(b, t);
    }
  }

  lemma {:induction false} TasksConcat(a: seq<Item<DelayedTask>>, b: seq<Item<DelayedTask>>)
    ensures Tasks(a + b) == Tasks(a) + Tasks(b)
  {
    if a == [] {
      assert a + b == b;
    } else {
      assert (a + b)[1..] == a[1..] + b;
      TasksConcat(a[1..], b);
    }
  }

  lemma {:induction false} NoneWaiting(q: seq<Item<DelayedTask>>, t: int)
    requires forall i :: 0 <= i < |q| ==> q[i].data.threshold != t
    ensures WaitingFor(Tasks(q), t) == []
  {
    if q == [] {
    } else {
      NoneWaiting(q[1..], t);
    }
  }

  lemma InsertAtWaitingFor(q: seq<Item<DelayedTask>>, k: nat, item: Item<DelayedTask>, t: int)
    requires k <= |q| && (item.data.threshold == t ==> WaitingFor(Tasks(q[k..]), t) == [])
    ensures WaitingFor(Tasks(q[..k] + ([item] + q[k..])), t)
         == WaitingFor(Tasks(q[..k] + q[k..]), t) + WaitingFor([item.data], t)
  {
    SplitWaitingFor(q[..k], [item] + q[k..], t);
    SplitWaitingFor([item], q[k..], t);
    SplitWaitingFor(q[..k], q[k..], t);
    OneWaitingFor(item, t);
  }

  /** A new task joins behind those that wait for the same tick. */
  lemma InsertWaitingFor(c: Clock, x: DelayedTask, t: int)
    requires ClockOk(c)
    ensures WaitingFor(Tasks(Joined(c, x).waiting), t) == WaitingFor(Tasks(c.waiting), t) + WaitingFor([x], t)
  {
    var q := c.waiting;
    var k := Place(q, -x.threshold);
    var item := Item(-x.threshold, x);
    InsertSplits(q, item);
    if x.threshold == t { LaterOnes(c, k, t); }
    InsertAtWaitingFor(q, k, item, t);
  }

  lemma OneWaitingFor(item: Item<DelayedTask>, t: int)
    ensures WaitingFor(Tasks([item]), t) == WaitingFor([item.data], t)
  {
    assert Tasks([item]) == [item.data];
  }

  lemma SplitWaitingFor(a: seq<Item<DelayedTask>>, b: seq<Item<DelayedTask>>, t: int)
    ensures WaitingFor(Tasks(a + b), t) == WaitingFor(Tasks(a), t) + WaitingFor(Tasks(b), t)
  {
    TasksConcat(a, b);
    WaitingForConcat(Tasks(a), Tasks(b), t);
  }

  lemma LaterOnes(c: Clock, k: nat, t: int)
    requires ClockOk(c) && k <= |c.waiting| && (k < |c.waiting| ==> c.waiting[k].priority < -t)
    ensures WaitingFor(Tasks(c.waiting[k..]), t) == []
  {
    var q := c.waiting[k..];
    forall i | 0 <= i < |q| ensures q[i].data.threshold != t {
      assert q[i] == c.waiting[k + i] && c.waiting[k].priority >= c.waiting[k + i].priority;
      assert ForLater(c.waiting[k + i], c.now);
    }
    NoneWaiting(q, t);
  }

  lemma {:induction false} DueThenNotDue(q: seq<Item<DelayedTask>>, now: int)
    ensures Tasks(q) == Due(q, now) + Tasks(NotDue(q, now))
  {
    if q == [] || q[0].data.threshold > now {
    } else {
      DueThenNotDue(q[1..], now);
    }
  }

  lemma {:induction false} AllWaiting(tasks: seq<DelayedTask>, t: int)
    requires forall i :: 0 <= i < |tasks| ==> tasks[i].threshold == t
    ensures WaitingFor(tasks, t) == tasks
  {
    if tasks == [] {
    } else {
      AllWaiting(tasks[1..], t);
    }
  }

  lemma {:induction false} NoneFor(tasks: seq<DelayedTask>, t: int)
    requires forall i :: 0 <= i < |tasks| ==> tasks[i].threshold != t
    ensures WaitingFor(tasks, t) == []
  {
    if tasks == [] {
    } else {
      NoneFor(tasks[1..], t);
    }
  }

  lemma TickSplits(c: Clock, t: int)
    ensures WaitingFor(Tasks(c.waiting), t)
         == WaitingFor(Due(c.waiting, c.now + 1), t) + WaitingFor(Tasks(NotDue(c.waiting, c.now + 1)), t)
  {
    DueThenNotDue(c.waiting, c.now + 1);
    WaitingForConcat(Due(c.waiting, c.now + 1), Tasks(NotDue(c.waiting, c.now + 1)), t);
  }

  /** The tasks woken by a tick are those waiting for it; those waiting for later ticks stay. */
  lemma TickWakes(c: Clock, t: int)
    requires ClockOk(c) && c.now < INT_MAX && t > c.now
    ensures t == c.now + 1 ==> Due(c.waiting, c.now + 1) == WaitingFor(Tasks(c.waiting), t)
    ensures t > c.now + 1 ==> WaitingFor(Tasks(NotDue(c.waiting, c.now + 1)), t) == WaitingFor(Tasks(c.waiting), t)
  {
    var now := c.now + 1;
    DueExactly(c.waiting, now);
    TickSplits(c, t);
    if t == now {
      AllWaiting(Due(c.waiting, now), t);
      var rest := NotDue(c.waiting, now);
      forall i | 0 <= i < |rest| ensures rest[i].data.threshold != t { assert ForLater(rest[i], now); }
      NoneWaiting(rest, t);
    } else {
      NoneFor(Due(c.waiting, now), t);
    }
  }

  lemma {:induction false} DueCount(q: seq<Item<DelayedTask>>, now: int)
    ensures |Due(q, now)| + |NotDue(q, now)| == |q|
  {
    if q == [] || q[0].data.threshold > now {
    } else {
      DueCount(q[1..], now);
    }
  }

  // ---------------------------------------------------------------------------------------------
  // What clients are promised, from the messages alone.

  datatype Message = Message(tid: int, req: Request)

  /** The time after the messages: the ticks among them. */
  function Ticks(messages: seq<Message>): nat {
    if messages == [] then 0
    else Ticks(messages[..|messages| - 1]) + if messages[|messages| - 1].req.NotifierTick? then 1 else 0
  }

  /** The delays accepted, in order of arrival, each with the tick it is to end at. */
  function Accepted(messages: seq<Message>): seq<DelayedTask> {
    if messages == [] then []
    else
      var front, last := messages[..|messages| - 1], messages[|messages| - 1];
      Accepted(front) + Accepts(Ticks(front), last.tid, last.req)
  }

  /** The tasks that wait for a tick after `now`. */
  function Later(tasks: seq<DelayedTask>, now: int): seq<DelayedTask> {
    if tasks == [] then []
    else (if tasks[0].threshold > now then [tasks[0]] else []) + Later(tasks[1..], now)
  }

  /** The answers to a message that follows `before`: a tick answers the delays that end at it, in their
      order of arrival; a delay that has not to wait is answered at once. */
  function Answers(before: seq<Message>, m: Message): seq<Answer> {
    match m.req
    case NotifierTick => [Answer(m.tid, CarryOn)] + Wakings(WaitingFor(Accepted(before), Ticks(before) + 1))
    case Time => [Answer(m.tid, TimeIs(Ticks(before)))]
    case Delay(ticks) => if ticks <= 0 then [Answer(m.tid, Empty)] else []
    case DelayUntil(ticks) => if ticks <= Ticks(before) then [Answer(m.tid, Empty)] else []
  }

  /** What each of the messages is answered with. */
  function AllAnswers(messages: seq<Message>): seq<seq<Answer>> {
    if messages == [] then []
    else
      var front := messages[..|messages| - 1];
      AllAnswers(front) + [Answers(front, messages[|messages| - 1])]
  }

  /** Whether the server can handle a message that follows `before`: no panic, no overflow. */
  predicate Handles(notifier: int, before: seq<Message>, m: Message) {
    var now, room := Ticks(before), |Later(Accepted(before), Ticks(before))| < MAX_DELAYED;
    match m.req
    case NotifierTick => m.tid == notifier && now < INT_MAX
    case Time => now < INT_MAX
    case Delay(ticks) => ticks <= 0 || (now + ticks <= INT_MAX && room)
    case DelayUntil(ticks) => ticks <= now || room
  }

  predicate HandlesAll(notifier: int, messages: seq<Message>) {
    messages == [] ||
    var front := messages[..|messages| - 1];
    HandlesAll(notifier, front) && Handles(notifier, front, messages[|messages| - 1])
  }

  // ---------------------------------------------------------------------------------------------
  // Whole runs.

  datatype History = History(clock: Clock, replies: seq<seq<Answer>>)

  /** The server after the messages, with what it answered to each; none if it has stopped. */
  function Run(notifier: int, messages: seq<Message>): Option<History> {
    if messages == [] then Some(History(Clock(0, []), []))
    else
      var m := messages[|messages| - 1];
      match Run(notifier, messages[..|messages| - 1])
      case None => None
      case Some(h) =>
        match Step(h.clock, notifier, m.tid, m.req)
        case Handled(c, answers) => Some(History(c, h.replies + [answers]))
        case _ => None
  }

  /** For every tick to come, those waiting for it are those accepted for it, in order. */
  ghost predicate Keeps(c: Clock, accepted: seq<DelayedTask>, t: int) {
    t > c.now ==> WaitingFor(Tasks(c.waiting), t) == WaitingFor(accepted, t)
  }

  /** The queue holds just what the messages leave to do. */
  ghost predicate UpToDate(c: Clock, messages: seq<Message>) {
    && ClockOk(c) && c.now == Ticks(messages)
    && |c.waiting| == |Later(Accepted(messages), c.now)|
    && (forall t :: Keeps(c, Accepted(messages), t))
  }

  lemma {:induction false} LaterConcat(a: seq<DelayedTask>, b: seq<DelayedTask>, now: int)
    ensures |Later(a + b, now)| == |Later(a, now)| + |Later(b, now)|
  {
    if a == [] {
      assert a + b == b;
    } else {
      assert (a + b)[0] == a[0] && (a + b)[1..] == a[1..] + b;
      LaterConcat(a[1..], b, now);
    }
  }

  lemma {:induction false} LaterByOne(tasks: seq<DelayedTask>, now: int)
    ensures |Later(tasks, now)| == |Later(tasks, now + 1)| + |WaitingFor(tasks, now + 1)|
  {
    if tasks == [] {
    } else {
      LaterByOne(tasks[1..], now);
    }
  }

  lemma TickKeeps(c: Clock, accepted: seq<DelayedTask>, t: int)
    requires ClockOk(c) && c.now < INT_MAX && Keeps(c, accepted, t)
    ensures Keeps(Clock(c.now + 1, NotDue(c.waiting, c.now + 1)), accepted, t)
  {
    hide WaitingFor, NotDue, Tasks, ClockOk;
    if t > c.now + 1 { TickWakes(c, t); }
  }

  /** A tick counts down both what the queue holds and what the messages leave to do. */
  lemma TickCounts(c: Clock, accepted: seq<DelayedTask>)
    requires ClockOk(c) && c.now < INT_MAX && Keeps(c, accepted, c.now + 1)
    requires |c.waiting| == |Later(accepted, c.now)|
    ensures Due(c.waiting, c.now + 1) == WaitingFor(accepted, c.now + 1)
    ensures |NotDue(c.waiting, c.now + 1)| == |Later(accepted, c.now + 1)|
  {
    hide Due, NotDue, Later, WaitingFor, ClockOk;
    TickWakes(c, c.now + 1);
    DueCount(c.waiting, c.now + 1);
    LaterByOne(accepted, c.now);
  }

  lemma TickUpToDate(c: Clock, before: seq<Message>, m: Message)
    requires UpToDate(c, before) && m.req.NotifierTick? && c.now < INT_MAX
    ensures UpToDate(Clock(c.now + 1, NotDue(c.waiting, c.now + 1)), before + [m])
    ensures Due(c.waiting, c.now + 1) == WaitingFor(Accepted(before), c.now + 1)
  {
    assert (before + [m])[..|before|] == before;
    var accepted, c1 := Accepted(before), Clock(c.now + 1, NotDue(c.waiting, c.now + 1));
    assert Accepted(before + [m]) == accepted && Ticks(before + [m]) == c1.now;
    hide Due, NotDue, Later, WaitingFor, ClockOk, Tasks, Accepted, Ticks;
    TickOk(c);
    assert Keeps(c, accepted, c.now + 1);
    TickCounts(c, accepted);
    forall t ensures Keeps(c1, accepted, t) {
      assert Keeps(c, accepted, t);
      TickKeeps(c, accepted, t);
    }
  }

  lemma JoinUpToDate(c: Clock, before: seq<Message>, m: Message, x: DelayedTask)
    requires UpToDate(c, before) && !m.req.NotifierTick? && x.threshold > c.now
    requires Accepts(c.now, m.tid, m.req) == [x]
    ensures UpToDate(Joined(c, x), before + [m])
  {
    assert (before + [m])[..|before|] == before;
    var accepted := Accepted(before);
    assert Accepted(before + [m]) == accepted + [x];
    InsertWaiting(c, x);
    LaterConcat(accepted, [x], c.now);
    assert Later([x], c.now) == [x] + Later([], c.now);
    forall t ensures Keeps(Joined(c, x), accepted + [x], t) {
      assert Keeps(c, accepted, t);
      InsertWaitingFor(c, x, t);
      WaitingForConcat(accepted, [x], t);
    }
  }

  lemma StayUpToDate(c: Clock, before: seq<Message>, m: Message)
    requires UpToDate(c, before) && !m.req.NotifierTick? && Accepts(c.now, m.tid, m.req) == []
    ensures UpToDate(c, before + [m])
  {
    assert (before + [m])[..|before|] == before;
    assert Accepted(before + [m]) == Accepted(before);
  }

  lemma StepAnswers(c: Clock, notifier: int, before: seq<Message>, m: Message)
    requires UpToDate(c, before)
    requires m.req.NotifierTick? && c.now < INT_MAX ==>
               Due(c.waiting, c.now + 1) == WaitingFor(Accepted(before), c.now + 1)
    ensures Step(c, notifier, m.tid, m.req).Handled? <==> Handles(notifier, before, m)
    ensures Step(c, notifier, m.tid, m.req).Handled? ==>
              Step(c, notifier, m.tid, m.req).answers == Answers(before, m)
  {
    hide ClockOk, Due, NotDue, Later, WaitingFor, Tasks, Accepted, Ticks, Joined;
  }

  /** One message: the server handles it exactly if it can, answers as promised and stays up to date. */
  lemma StepExact(c: Clock, notifier: int, before: seq<Message>, m: Message)
    requires UpToDate(c, before)
    ensures Step(c, notifier, m.tid, m.req).Handled? <==> Handles(notifier, before, m)
    ensures Step(c, notifier, m.tid, m.req).Handled? ==>
      && Step(c, notifier, m.tid, m.req).answers == Answers(before, m)
      && UpToDate(Step(c, notifier, m.tid, m.req).clock, before + [m])
  {
    hide UpToDate, Due, NotDue, Later, WaitingFor, Tasks, Answers, Accepted, Ticks, Handles, Joined;
    if m.req.NotifierTick? && c.now < INT_MAX { TickUpToDate(c, before, m); }
    StepAnswers(c, notifier, before, m);
    if !m.req.NotifierTick? && Step(c, notifier, m.tid, m.req).Handled? {
      StepShape(c, notifier, m.tid, m.req);
      if Accepts(c.now, m.tid, m.req) == [] {
        StayUpToDate(c, before, m);
      } else {
        JoinUpToDate(c, before, m, Accepts(c.now, m.tid, m.req)[0]);
      }
    }
  }

  /** Every run that the server can handle, and no other, goes through; every message is answered as
      promised, and whoever has not been answered is still waiting. */
  lemma {:induction false} RunExact(notifier: int, messages: seq<Message>)
    ensures Run(notifier, messages).Some? <==> HandlesAll(notifier, messages)
    ensures Run(notifier, messages).Some? ==>
      && Run(notifier, messages).value.replies == AllAnswers(messages)
      && Run(notifier, messages).value.clock.now == Ticks(messages)
      && UpToDate(Run(notifier, messages).value.clock, messages)
    decreases |messages|
  {
    if messages == [] {
      forall t ensures Keeps(Clock(0, []), [], t) {}
    } else {
      var front, m := messages[..|messages| - 1], messages[|messages| - 1];
      assert messages == front + [m];
      RunExact(notifier, front);
      if Run(notifier, front).Some? { StepExact(Run(notifier, front).value.clock, notifier, front, m); }
    }
  }

  /** A delay that is accepted for tick t. */
  predicate AcceptedFor(messages: seq<Message>, i: nat, t: int) {
    i < |messages| &&
    Accepts(Ticks(messages[..i]), messages[i].tid, messages[i].req) == [DelayedTask(messages[i].tid, t)]
  }

  lemma {:induction false} AcceptedIsWaiting(messages: seq<Message>, i: nat, t: int)
    requires AcceptedFor(messages, i, t)
    ensures DelayedTask(messages[i].tid, t) in WaitingFor(Accepted(messages), t)
    decreases |messages|
  {
    var front, last := messages[..|messages| - 1], messages[|messages| - 1];
    WaitingForConcat(Accepted(front), Accepts(Ticks(front), last.tid, last.req), t);
    if i == |messages| - 1 {
      assert WaitingFor([DelayedTask(last.tid, t)], t)[0] == DelayedTask(last.tid, t);
    } else {
      assert front[..i] == messages[..i];
      AcceptedIsWaiting(front, i, t);
    }
  }

  /** In every run: a delay accepted for tick t is answered by the message that is tick t. */
  lemma DelaysEndOnTime(notifier: int, messages: seq<Message>, i: nat, j: nat, t: int)
    requires Run(notifier, messages).Some? && AcceptedFor(messages, i, t)
    requires i < j < |messages| && messages[j].req.NotifierTick? && Ticks(messages[..j]) + 1 == t
    ensures |Run(notifier, messages).value.replies| == |messages|
    ensures Answer(messages[i].tid, Empty) in Run(notifier, messages).value.replies[j]
  {
    hide Run, UpToDate, AllAnswers, Answers, Accepted, Accepts, WaitingFor, Ticks;
    RunExact(notifier, messages);
    AnswersAt(messages, j);
    var before := messages[..j];
    assert before[..i] == messages[..i];
    AcceptedIsWaiting(before, i, t);
    WaiterAnswered(before, messages[j], DelayedTask(messages[i].tid, t));
  }

  /** A delay to a later tick is accepted for that tick, and is not answered at once. */
  lemma WaitsForTick(messages: seq<Message>, i: nat, t: int)
    requires i < |messages| && t > Ticks(messages[..i])
    requires match messages[i].req
             case Delay(n) => t == Ticks(messages[..i]) + n
             case DelayUntil(u) => t == u
             case _ => false
    ensures AcceptedFor(messages, i, t) && Answers(messages[..i], messages[i]) == []
  {
    hide Ticks, Accepted, WaitingFor;
  }

  /** In terms of the requests: a positive Delay(n) made after m ticks is not answered when it is made, but by tick
      m + n, and a DelayUntil(t) made before tick t by tick t. */
  lemma DelayEndsAfter(notifier: int, messages: seq<Message>, i: nat, j: nat)
    requires Run(notifier, messages).Some? && i < j < |messages| && messages[j].req.NotifierTick?
    requires match messages[i].req
             case Delay(n) => n > 0 && Ticks(messages[..j + 1]) == Ticks(messages[..i]) + n
             case DelayUntil(t) => t > Ticks(messages[..i]) && Ticks(messages[..j + 1]) == t
             case _ => false
    ensures var replies := Run(notifier, messages).value.replies;
            |replies| == |messages| && replies[i] == [] && Answer(messages[i].tid, Empty) in replies[j]
  {
    var t := Ticks(messages[..j + 1]);
    assert messages[..j + 1][..j] == messages[..j];
    WaitsForTick(messages, i, t);
    hide Run, UpToDate, AllAnswers, Answers, Accepted, Accepts, WaitingFor, AcceptedFor;
    DelaysEndOnTime(notifier, messages, i, j, t);
    RunExact(notifier, messages);
    AnswersAt(messages, i);
  }

  lemma WaiterAnswered(before: seq<Message>, m: Message, x: DelayedTask)
    requires m.req.NotifierTick? && x in WaitingFor(Accepted(before), Ticks(before) + 1)
    ensures Answer(x.tid, Empty) in Answers(before, m)
  {
    hide Accepted, WaitingFor, Ticks;
    var w := WaitingFor(Accepted(before), Ticks(before) + 1);
    var k :| 0 <= k < |w| && w[k] == x;
    assert Answers(before, m)[k + 1] == Answer(x.tid, Empty);
  }

  lemma {:induction false} AnswersAt(messages: seq<Message>, j: nat)
    requires j < |messages|
    ensures |AllAnswers(messages)| == |messages| && AllAnswers(messages)[j] == Answers(messages[..j], messages[j])
    decreases |messages|
  {
    var front := messages[..|messages| - 1];
    if j == |messages| - 1 {
      if front == [] {
      } else {
        AnswersAt(front, 0);
      }
    } else {
      AnswersAt(front, j);
      assert front[..j] == messages[..j];
    }
  }
}
