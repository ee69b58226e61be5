/** The ring buffer of include/common/queue.h. */
module RingBuffers {
  import opened Options

  /** The `len` places from `start` on, going round at the end. */
  function Window<T>(buf: seq<T>, start: nat, len: nat): (s: seq<T>)
    requires start < |buf| && len <= |buf|
    ensures |s| == len
    ensures forall i :: 0 <= i < len ==> s[i] == buf[if start + i < |buf| then start + i else start + i - |buf|]
  {
    if start + len <= |buf| then buf[start..start + len] else buf[start..] + buf[..start + len - |buf|]
  }

  lemma FrontLeaves<T>(buf: seq<T>, start: nat, len: nat)
    requires start < |buf| && 0 < len <= |buf|
    ensures Window(buf, start, len)[0] == buf[start]
    ensures Window(buf, if start + 1 < |buf| then start + 1 else 0, len - 1) == Window(buf, start, len)[1..]
  {
    hide Window;
  }

  lemma BackJoins<T>(buf: seq<T>, start: nat, len: nat, t: T)
    requires start < |buf| && len < |buf|
    ensures var i := if start + len < |buf| then start + len else start + len - |buf|;
            Window(buf[i := t], start, len + 1) == Window(buf, start, len) + [t]
  {
    hide Window;
  }

  class Queue<T(0)> {
    const buf: array<T>
    var start: nat
    var len: nat

    ghost predicate Valid()
      reads this
    {
      start < buf.Length && len <= buf.Length
    }

    /** The queued elements, oldest first. */
    ghost function Contents(): (s: seq<T>)
      requires Valid()
      reads this, buf
      ensures |s| == len
    {
      Window(buf[..], start, len)
    }

    constructor (capacity: nat)
      requires capacity > 0
      ensures Valid() && fresh(buf) && buf.Length == capacity && Contents() == []
    {
      buf := new T[capacity];
      start := 0;
      len := 0;
    }

    method Available() returns (n: nat)
      requires Valid()
      ensures n == buf.Length - |Contents()|
    {
      n := buf.Length - len;
    }

    method IsEmpty() returns (r: bool)
      requires Valid()
      ensures r <==> Contents() == []
    {
      r := len == 0;
    }

    /** False reports FULL. */
    method PushBack(t: T) returns (ok: bool)
      requires Valid()
      modifies this, buf
      ensures Valid() && ok == (|old(Contents())| < buf.Length)
      ensures Contents() == if ok then old(Contents()) + [t] else old(Contents())
    {
      if len >= buf.Length { return false; }
      BackJoins(buf[..], start, len, t);
      ghost var before := buf[..];
      buf[Wrapped(start + len)] := t;
      assert buf[..] == before[Wrapped(start + len) := t];
      len := len + 1;
      return true;
    }

    method PopFront() returns (r: Option<T>)
      requires Valid()
      modifies this
      ensures Valid()
      ensures old(Contents()) == [] ==> r == None && Contents() == []
      ensures old(Contents()) != [] ==> r == Some(old(Contents())[0]) && Contents() == old(Contents())[1..]
    {
      if len == 0 { return None; }
      FrontLeaves(buf[..], start, len);
      r := Some(buf[start]);
      start := Wrapped(start + 1);
      len := len - 1;
    }

    method PeekIndex(i: nat) returns (r: Option<T>)
      requires Valid()
      ensures r == if i < |Contents()| then Some(Contents()[i]) else None
    {
      if i >= len { return None; }
      return Some(buf[Wrapped(start + i)]);
    }

    method Clear()
      requires Valid()
      modifies this
      ensures Valid() && Contents() == []
    {
      start := 0;
      len := 0;
    }

    /** x % N for the sums that occur. */
    function Wrapped(x: nat): (r: nat)
      requires x < 2 * buf.Length
      ensures r < buf.Length && r == if x < buf.Length then x else x - buf.Length
    {
      x % buf.Length
    }
  }
}
