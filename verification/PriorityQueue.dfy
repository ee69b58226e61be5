/** The ticketed binary heap of include/common/priority_queue.h and the simple queue it stands for. */
module PriorityQueues {
  import opened Options

  // ---------------------------------------------------------------------------------------------
  // What the queue means: items in the order in which they will leave.

  datatype Item<T> = Item(priority: int, data: T)

  ghost predicate Sorted<T>(q: seq<Item<T>>) {
    forall i, j :: 0 <= i < j < |q| ==> q[i].priority >= q[j].priority
  }

  /** Where a newcomer stands: behind everything of its own or a higher priority. */
  function Place<T>(q: seq<Item<T>>, priority: int): (k: nat)
    ensures k <= |q|
    ensures forall i :: 0 <= i < k ==> q[i].priority >= priority
    ensures k < |q| ==> q[k].priority < priority
  {
    PlaceFrom(q, priority, 0)
  }

  function PlaceFrom<T>(q: seq<Item<T>>, priority: int, from: nat): (k: nat)
    requires from <= |q|
    ensures from <= k <= |q|
    ensures forall i :: from <= i < k ==> q[i].priority >= priority
    ensures k < |q| ==> q[k].priority < priority
    decreases |q| - from
  {
    if from == |q| || q[from].priority < priority then from else PlaceFrom(q, priority, from + 1)
  }

  function InsertAt<T>(s: seq<T>, k: nat, x: T): (r: seq<T>)
    requires k <= |s|
    ensures |r| == |s| + 1 && r[k] == x
    ensures forall i :: 0 <= i < |r| && i != k ==> r[i] == s[if i < k then i else i - 1]
  {
    s[..k] + [x] + s[k..]
  }

  function Insert<T>(q: seq<Item<T>>, x: Item<T>): seq<Item<T>> {
    InsertAt(q, Place(q, x.priority), x)
  }

  lemma InsertSplits<T>(q: seq<Item<T>>, x: Item<T>)
    ensures var k := Place(q, x.priority);
            Insert(q, x) == q[..k] + ([x] + q[k..]) && q == q[..k] + q[k..]
  {
  }

  lemma InsertKeepsSorted<T>(q: seq<Item<T>>, x: Item<T>)
    requires Sorted(q)
    ensures Sorted(Insert(q, x))
  {
    var k := Place(q, x.priority);
    var r := Insert(q, x);
    forall i, j | 0 <= i < j < |r| ensures r[i].priority >= r[j].priority {
    }
  }

  // ---------------------------------------------------------------------------------------------
  // The heap.

  datatype Element<T> = Element(priority: int, ticket: nat, data: T)

  /** operator<: the smaller element leaves later. */
  predicate Less<T>(a: Element<T>, b: Element<T>) {
    if a.priority == b.priority then a.ticket > b.ticket else a.priority < b.priority
  }

  function Parent(i: nat): nat
    requires 0 < i
  {
    (i - 1) / 2
  }

  ghost predicate IsHeap<T>(s: seq<Element<T>>) {
    forall i :: 0 < i < |s| ==> !Less(s[Parent(i)], s[i])
  }

  /** A heap but for the link between k and its parent. */
  ghost predicate HeapAbove<T>(s: seq<Element<T>>, k: nat) {
    && (forall i :: 0 < i < |s| && i != k ==> !Less(s[Parent(i)], s[i]))
    && (forall i :: 0 < i < |s| && 0 < k < |s| && Parent(i) == k ==> !Less(s[Parent(k)], s[i]))
  }

  /** A heap but for the links between k and its children. */
  ghost predicate HeapBelow<T>(s: seq<Element<T>>, k: nat) {
    && (forall i :: 0 < i < |s| && Parent(i) != k ==> !Less(s[Parent(i)], s[i]))
    && (forall i :: 0 < i < |s| && 0 < k < |s| && Parent(i) == k ==> !Less(s[Parent(k)], s[i]))
  }

  ghost predicate GreatestChild<T>(s: seq<Element<T>>, k: nat, c: nat) {
    && 0 < c < |s| && Parent(c) == k
    && (forall i :: 0 < i < |s| && Parent(i) == k ==> !Less(s[c], s[i]))
  }

  function Swapped<T>(s: seq<T>, i: nat, j: nat): seq<T>
    requires i < |s| && j < |s|
  {
    s[i := s[j]][j := s[i]]
  }

  lemma SwapKeepsElements<T>(s: seq<T>, i: nat, j: nat)
    requires i < |s| && j < |s|
    ensures multiset(Swapped(s, i, j)) == multiset(s)
  {
  }

  lemma {:induction false} RootIsGreatest<T>(s: seq<Element<T>>, i: nat)
    requires IsHeap(s) && i < |s|
    ensures !Less(s[0], s[i])
  {
    if i == 0 {
    } else {
      RootIsGreatest(s, Parent(i));
    }
  }

  lemma HeapAtEnd<T>(s: seq<Element<T>>)
    requires |s| > 0 && IsHeap(s[..|s| - 1])
    ensures HeapAbove(s, |s| - 1)
  {
    forall i | 0 < i < |s| - 1 ensures !Less(s[Parent(i)], s[i]) {
      assert s[..|s| - 1][i] == s[i] && s[..|s| - 1][Parent(i)] == s[Parent(i)];
    }
  }

  lemma HeapUp<T>(s: seq<Element<T>>, k: nat)
    requires 0 < k < |s| && HeapAbove(s, k) && Less(s[Parent(k)], s[k])
    ensures HeapAbove(Swapped(s, Parent(k), k), Parent(k))
  {
    var t := Swapped(s, Parent(k), k);
    forall i | 0 < i < |t| && i != Parent(k) ensures !Less(t[Parent(i)], t[i]) {
      assert i != k && Parent(i) != Parent(k) ==> t[i] == s[i];
    }
  }

  lemma HeapAboveTop<T>(s: seq<Element<T>>, k: nat)
    requires k < |s| && HeapAbove(s, k) && (k > 0 ==> !Less(s[Parent(k)], s[k]))
    ensures IsHeap(s)
  {
  }

  /** The last element takes the place of the root. */
  ghost function WithoutRoot<T>(s: seq<T>): (t: seq<T>)
    requires |s| > 0
    ensures |t| == |s| - 1
  {
    s[0 := s[|s| - 1]][..|s| - 1]
  }

  lemma HeapWithoutRoot<T>(s: seq<Element<T>>)
    requires |s| > 0 && IsHeap(s)
    ensures HeapBelow(WithoutRoot(s), 0)
    ensures multiset(WithoutRoot(s)) == multiset(s[1..])
  {
    var t := WithoutRoot(s);
    forall i | 0 < i < |t| && Parent(i) != 0 ensures !Less(t[Parent(i)], t[i]) {
      assert t[i] == s[i] && t[Parent(i)] == s[Parent(i)];
    }
    if |s| > 1 {
      assert t == [s[|s| - 1]] + s[1..|s| - 1];
      assert s[1..] == s[1..|s| - 1] + [s[|s| - 1]];
    }
  }

  lemma ChildChosen<T>(s: seq<Element<T>>, k: nat, c: nat)
    requires 2 * k + 1 < |s|
    requires c == if 2 * k + 2 < |s| && Less(s[2 * k + 1], s[2 * k + 2]) then 2 * k + 2 else 2 * k + 1
    ensures GreatestChild(s, k, c)
  {
    forall i | 0 < i < |s| && Parent(i) == k ensures !Less(s[c], s[i]) {
      assert i == 2 * k + 1 || i == 2 * k + 2;
    }
  }

  lemma HeapDown<T>(s: seq<Element<T>>, k: nat, c: nat)
    requires HeapBelow(s, k) && GreatestChild(s, k, c) && Less(s[k], s[c])
    ensures HeapBelow(Swapped(s, k, c), c)
  {
  }

  lemma HeapBelowDone<T>(s: seq<Element<T>>, k: nat, c: nat)
    requires HeapBelow(s, k)
    requires |s| <= 2 * k + 1 || (GreatestChild(s, k, c) && !Less(s[k], s[c]))
    ensures IsHeap(s)
  {
  }

  method Swap<T>(a: array<Element<T>>, i: nat, j: nat, n: nat)
    requires i < n <= a.Length && j < n
    modifies a
    ensures a[..n] == Swapped(old(a[..n]), i, j)
    ensures multiset(a[..n]) == multiset(old(a[..n]))
  {
    SwapKeepsElements(a[..n], i, j);
    a[i], a[j] := a[j], a[i];
    assert a[..n] == Swapped(old(a[..n]), i, j);
  }

  /** std::push_heap (section 25.4.6.1 of ISO/IEC 14882:2011): a[..n - 1] is a heap, a[n - 1] is new. */
  method PushHeap<T>(a: array<Element<T>>, n: nat)
    requires 0 < n <= a.Length && IsHeap(a[..n][..n - 1])
    modifies a
    ensures IsHeap(a[..n])
    ensures multiset(a[..n]) == multiset(old(a[..n]))
  {
    var k: nat := n - 1;
    HeapAtEnd(a[..n]);
    while k > 0 && Less(a[Parent(k)], a[k])
      invariant k < n
      invariant HeapAbove(a[..n], k)
      invariant multiset(a[..n]) == multiset(old(a[..n]))
    {
      HeapUp(a[..n], k);
      Swap(a, Parent(k), k, n);
      k := Parent(k);
    }
    HeapAboveTop(a[..n], k);
  }

  method Append<T>(a: array<Element<T>>, n: nat, e: Element<T>)
    requires n < a.Length && IsHeap(a[..n])
    modifies a
    ensures IsHeap(a[..n + 1])
    ensures multiset(a[..n + 1]) == multiset(old(a[..n]) + [e])
  {
    a[n] := e;
    assert a[..n + 1] == old(a[..n]) + [e] && a[..n + 1][..n] == old(a[..n]);
    PushHeap(a, n + 1);
  }

  method GreaterChild<T>(a: array<Element<T>>, n: nat, k: nat) returns (c: nat)
    requires n <= a.Length && 2 * k + 1 < n
    ensures GreatestChild(a[..n], k, c)
  {
    c := 2 * k + 1;
    if c + 1 < n && Less(a[c], a[c + 1]) { c := c + 1; }
    ChildChosen(a[..n], k, c);
  }

  /** The loop of std::pop_heap: lets the root of a[..n] sink to where it belongs. */
  method SiftDown<T>(a: array<Element<T>>, n: nat)
    requires n <= a.Length && HeapBelow(a[..n], 0)
    modifies a
    ensures IsHeap(a[..n])
    ensures multiset(a[..n]) == multiset(old(a[..n]))
  {
    var k: nat := 0;
    while 2 * k + 1 < n
      invariant HeapBelow(a[..n], k)
      invariant multiset(a[..n]) == multiset(old(a[..n]))
      decreases n - k
    {
      var c := GreaterChild(a, n, k);
      if !Less(a[k], a[c]) {
        HeapBelowDone(a[..n], k, c);
        return;
      }
      HeapDown(a[..n], k, c);
      Swap(a, k, c, n);
      k := c;
    }
    HeapBelowDone(a[..n], k, 0);
  }

  /** std::pop_heap (section 25.4.6.2): the greatest goes to the end, the rest is a heap again. */
  method PopHeap<T>(a: array<Element<T>>, n: nat)
    requires 0 < n <= a.Length && IsHeap(a[..n])
    modifies a
    ensures IsHeap(a[..n][..n - 1]) && a[n - 1] == old(a[0])
    ensures multiset(a[..n][..n - 1]) == multiset(old(a[..n])[1..])
  {
    HeapWithoutRoot(a[..n]);
    var top := a[0];
    a[0] := a[n - 1];
    assert a[..n - 1] == WithoutRoot(old(a[..n]));
    SiftDown(a, n - 1);
    ghost var rest := a[..n - 1];
    a[n - 1] := top;
    assert a[..n][..n - 1] == rest;
  }

  // ---------------------------------------------------------------------------------------------
  // The heap stands for the queue.

  function Strip<T>(s: seq<Element<T>>): (q: seq<Item<T>>)
    ensures |q| == |s|
    ensures forall i :: 0 <= i < |s| ==> q[i] == Item(s[i].priority, s[i].data)
  {
    seq(|s|, i requires 0 <= i < |s| => Item(s[i].priority, s[i].data))
  }

  ghost predicate LeavingOrder<T>(s: seq<Element<T>>) {
    forall i, j :: 0 <= i < j < |s| ==> Less(s[j], s[i])
  }

  ghost predicate Represents<T>(view: seq<Element<T>>, order: seq<Element<T>>, counter: nat) {
    && multiset(view) == multiset(order)
    && IsHeap(view)
    && LeavingOrder(order)
    && (forall i :: 0 <= i < |order| ==> order[i].ticket < counter)
  }

  lemma SameSize<T>(view: seq<Element<T>>, order: seq<Element<T>>, counter: nat)
    requires Represents(view, order, counter)
    ensures |view| == |order|
  {
    assert |multiset(view)| == |view| && |multiset(order)| == |order|;
  }

  /** The root of the heap is the front of the queue. */
  lemma RootLeavesFirst<T>(view: seq<Element<T>>, order: seq<Element<T>>, counter: nat)
    requires Represents(view, order, counter) && |view| > 0
    ensures |order| > 0 && order[0] == view[0]
  {
    SameSize(view, order, counter);
    assert view[0] in multiset(order) && order[0] in multiset(view);
    var j :| 0 <= j < |order| && order[j] == view[0];
    var i :| 0 <= i < |view| && view[i] == order[0];
    RootIsGreatest(view, i);
  }

  lemma FrontGone<T>(view: seq<Element<T>>, order: seq<Element<T>>, counter: nat, view': seq<Element<T>>)
    requires Represents(view, order, counter) && |view| > 0
    requires IsHeap(view') && multiset(view') == multiset(view[1..])
    ensures |order| > 0 && Represents(view', order[1..], counter)
  {
    RootLeavesFirst(view, order, counter);
    assert view == [view[0]] + view[1..];
    assert order == [order[0]] + order[1..];
    assert multiset(view[1..]) == multiset(view) - multiset{order[0]};
    assert multiset(order[1..]) == multiset(order) - multiset{order[0]};
  }

  lemma PlaceInOrder<T>(order: seq<Element<T>>, e: Element<T>, i: nat)
    requires LeavingOrder(order) && forall i :: 0 <= i < |order| ==> order[i].ticket < e.ticket
    requires i < |order|
    ensures if i < Place(Strip(order), e.priority) then Less(e, order[i]) else Less(order[i], e)
  {
    var k := Place(Strip(order), e.priority);
    assert Strip(order)[i].priority == order[i].priority;
    if k < i { assert Less(order[i], order[k]) && Strip(order)[k].priority == order[k].priority; }
  }

  lemma InsertLeavingOrder<T>(order: seq<Element<T>>, e: Element<T>)
    requires LeavingOrder(order) && forall i :: 0 <= i < |order| ==> order[i].ticket < e.ticket
    ensures LeavingOrder(InsertAt(order, Place(Strip(order), e.priority), e))
  {
    var k := Place(Strip(order), e.priority);
    var r := InsertAt(order, k, e);
    forall i, j | 0 <= i < j < |r| ensures Less(r[j], r[i]) {
      if i == k {
        PlaceInOrder(order, e, j - 1);
      } else if j == k {
        PlaceInOrder(order, e, i);
      }
    }
  }

  lemma InsertMultiset<T>(s: seq<T>, k: nat, e: T)
    requires k <= |s|
    ensures multiset(InsertAt(s, k, e)) == multiset(s + [e])
  {
    assert s == s[..k] + s[k..];
  }

  lemma StripInsert<T>(order: seq<Element<T>>, e: Element<T>)
    ensures Strip(InsertAt(order, Place(Strip(order), e.priority), e))
         == Insert(Strip(order), Item(e.priority, e.data))
  {
  }

  lemma InsertedTickets<T>(order: seq<Element<T>>, k: nat, e: Element<T>)
    requires k <= |order| && forall i :: 0 <= i < |order| ==> order[i].ticket < e.ticket
    ensures forall i :: 0 <= i <= |order| ==> InsertAt(order, k, e)[i].ticket < e.ticket + 1
  {
  }

  lemma Inserted<T>(view: seq<Element<T>>, order: seq<Element<T>>, e: Element<T>, view': seq<Element<T>>)
    returns (order': seq<Element<T>>)
    requires Represents(view, order, e.ticket)
    requires IsHeap(view') && multiset(view') == multiset(view + [e])
    ensures Represents(view', order', e.ticket + 1)
    ensures Strip(order') == Insert(Strip(order), Item(e.priority, e.data))
  {
    var k := Place(Strip(order), e.priority);
    order' := InsertAt(order, k, e);
    InsertLeavingOrder(order, e);
    InsertMultiset(order, k, e);
    InsertedTickets(order, k, e);
    StripInsert(order, e);
  }

  class PriorityQueue<T(0)> {
    const arr: array<Element<T>>
    var len: nat
    var ticketCounter: nat
    /** The elements in the order in which they will leave. */
    ghost var order: seq<Element<T>>

    ghost predicate Valid()
      reads this, arr
    {
      && len <= arr.Length
      && Represents(arr[..len], order, ticketCounter)
    }

    ghost function Items(): seq<Item<T>>
      reads this
    {
      Strip(order)
    }

    constructor (capacity: nat)
      ensures Valid() && fresh(arr) && arr.Length == capacity && Items() == []
    {
      arr := new Element<T>[capacity];
      len := 0;
      ticketCounter := 0;
      order := [];
    }

    /** False reports FULL. */
    method Push(t: T, priority: int) returns (ok: bool)
      requires Valid()
      modifies this, arr
      ensures Valid()
      ensures ok == (|old(Items())| < arr.Length)
      ensures Items() == if ok then Insert(old(Items()), Item(priority, t)) else old(Items())
    {
      hide Less, Insert, Place;
      SameSize(arr[..len], order, ticketCounter);
      if len >= arr.Length { return false; }
      var e := Element(priority, ticketCounter, t);
      ghost var view := arr[..len];
      Append(arr, len, e);
      order := Inserted(view, order, e, arr[..len + 1]);
      len, ticketCounter := len + 1, ticketCounter + 1;
      return true;
    }

    method Pop() returns (r: Option<T>)
      requires Valid()
      modifies this, arr
      ensures Valid()
      ensures old(Items()) == [] ==> r == None && Items() == []
      ensures old(Items()) != [] ==> r == Some(old(Items())[0].data) && Items() == old(Items())[1..]
    {
      SameSize(arr[..len], order, ticketCounter);
      if len == 0 { return None; }
      ghost var view := arr[..len];
      RootLeavesFirst(view, order, ticketCounter);
      PopHeap(arr, len);
      r := Some(arr[len - 1].data);
      FrontGone(view, order, ticketCounter, arr[..len][..len - 1]);
      len := len - 1;
      assert arr[..len] == arr[..len + 1][..len];
      order := order[1..];
      assert Items() == old(Items())[1..];
    }

    method Peek() returns (r: Option<T>)
      requires Valid()
      ensures r == if Items() == [] then None else Some(Items()[0].data)
    {
      SameSize(arr[..len], order, ticketCounter);
      if len == 0 { return None; }
      RootLeavesFirst(arr[..len], order, ticketCounter);
      return Some(arr[0].data);
    }
  }
}
