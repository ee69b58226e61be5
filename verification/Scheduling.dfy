/** Fairness of the ready queue: how far a waiting task can be overtaken. */
module Scheduling {
  import opened PriorityQueues

  datatype Op<T> = Arrive(item: Item<T>) | Serve

  function Queue<T>(q: seq<Item<T>>, ops: seq<Op<T>>): seq<Item<T>>
    decreases |ops|
  {
    if ops == [] then q
    else match ops[0]
      case Arrive(x) => Queue(Insert(q, x), ops[1..])
      case Serve => Queue(if q == [] then q else q[1..], ops[1..])
  }

  function Served<T>(q: seq<Item<T>>, ops: seq<Op<T>>): seq<Item<T>>
    decreases |ops|
  {
    if ops == [] then []
    else match ops[0]
      case Arrive(x) => Served(Insert(q, x), ops[1..])
      case Serve => if q == [] then Served(q, ops[1..]) else [q[0]] + Served(q[1..], ops[1..])
  }

  function Serves<T>(ops: seq<Op<T>>): nat {
    if ops == [] then 0 else (if ops[0].Serve? then 1 else 0) + Serves(ops[1..])
  }

  /** How many of the arrivals have a strictly higher priority. */
  function Higher<T>(ops: seq<Op<T>>, priority: int): nat {
    if ops == [] then 0
    else (if ops[0].Arrive? && ops[0].item.priority > priority then 1 else 0) + Higher(ops[1..], priority)
  }

  /** An arrival moves a waiting item back by one place if its priority is strictly higher, and not at
      all otherwise. */
  lemma ArrivalMovesBack<T>(q: seq<Item<T>>, rank: nat, x: Item<T>)
    requires Sorted(q) && rank < |q|
    ensures var rank' := if x.priority > q[rank].priority then rank + 1 else rank;
            rank' < |Insert(q, x)| && Insert(q, x)[rank'] == q[rank]
  {
    var k := Place(q, x.priority);
    if k <= rank {
      assert k < |q| && q[k].priority >= q[rank].priority;
    }
  }

  ghost predicate WaitsAt<T>(q: seq<Item<T>>, rank: int, x: Item<T>) {
    0 <= rank < |q| && q[rank] == x
  }

  /** x was among the first `count` items to leave. */
  ghost predicate LeftWithin<T>(served: seq<Item<T>>, count: int, x: Item<T>) {
    exists i :: 0 <= i < |served| && i < count && served[i] == x
  }

  /** After the run, x is where the count of dispatches and overtakers puts it, or has left in time. */
  ghost predicate InTurn<T>(q: seq<Item<T>>, rank: nat, x: Item<T>, ops: seq<Op<T>>) {
    || WaitsAt(Queue(q, ops), rank + Higher(ops, x.priority) - Serves(ops), x)
    || LeftWithin(Served(q, ops), rank + 1 + Higher(ops, x.priority), x)
  }

  lemma ArriveInTurn<T>(q: seq<Item<T>>, rank: nat, x: Item<T>, ops: seq<Op<T>>)
    requires ops != [] && ops[0].Arrive?
    requires InTurn(Insert(q, ops[0].item), if ops[0].item.priority > x.priority then rank + 1 else rank, x, ops[1..])
    ensures InTurn(q, rank, x, ops)
  {
    var q1 := Insert(q, ops[0].item);
    assert Queue(q, ops) == Queue(q1, ops[1..]) && Served(q, ops) == Served(q1, ops[1..]);
  }

  lemma ServeInTurn<T>(q: seq<Item<T>>, rank: nat, x: Item<T>, ops: seq<Op<T>>)
    requires ops != [] && ops[0].Serve? && WaitsAt(q, rank, x)
    requires rank > 0 ==> InTurn(q[1..], rank - 1, x, ops[1..])
    ensures InTurn(q, rank, x, ops)
  {
    var rest := ops[1..];
    assert Queue(q, ops) == Queue(q[1..], rest) && Served(q, ops) == [q[0]] + Served(q[1..], rest);
    if rank == 0 {
      assert Served(q, ops)[0] == x;
    } else {
      LeftLater(q[0], Served(q[1..], rest), rank + Higher(rest, x.priority), x);
    }
  }

  /** Over any run of arrivals and dispatches, a waiting item's rank is its old rank, less one for each
      dispatch, plus one for each arrival of strictly higher priority - until the dispatch that the
      count makes its own. */
  lemma {:induction false} BoundedOvertaking<T>(q: seq<Item<T>>, rank: nat, ops: seq<Op<T>>)
    requires Sorted(q) && rank < |q|
    ensures InTurn(q, rank, q[rank], ops)
    decreases |ops|
  {
    if ops == [] {
    } else {
      if ops[0].Arrive? {
        var x := ops[0].item;
        ArrivalMovesBack(q, rank, x);
        InsertKeepsSorted(q, x);
        BoundedOvertaking(Insert(q, x), if x.priority > q[rank].priority then rank + 1 else rank, ops[1..]);
        ArriveInTurn(q, rank, q[rank], ops);
      } else {
        if rank > 0 { BoundedOvertaking(q[1..], rank - 1, ops[1..]); }
        ServeInTurn(q, rank, q[rank], ops);
      }
    }
  }

  lemma LeftLater<T>(first: Item<T>, served: seq<Item<T>>, count: int, x: Item<T>)
    ensures LeftWithin(served, count, x) ==> LeftWithin([first] + served, count + 1, x)
  {
    if LeftWithin(served, count, x) {
      var i :| 0 <= i < |served| && i < count && served[i] == x;
      assert ([first] + served)[i + 1] == x;
    }
  }

  /** With no arrivals, an item at rank k leaves with the (k + 1)-st dispatch. */
  lemma {:induction false} AloneInTurn<T>(q: seq<Item<T>>, rank: nat, ops: seq<Op<T>>)
    requires rank < |q| && |ops| == rank + 1 && forall i :: 0 <= i < |ops| ==> ops[i].Serve?
    ensures |Served(q, ops)| == rank + 1 && Served(q, ops)[rank] == q[rank]
    decreases |ops|
  {
    if rank > 0 {
      AloneInTurn(q[1..], rank - 1, ops[1..]);
    } else {
      assert ops[1..] == [];
    }
  }
}
