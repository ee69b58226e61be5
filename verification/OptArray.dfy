/** The fixed-size array of optional values of include/common/opt_array.h. */
module OptArrays {
  import opened Options

  function CountPresent<T>(s: seq<Option<T>>): nat {
    if s == [] then 0 else (if s[0].Some? then 1 else 0) + CountPresent(s[1..])
  }

  lemma {:induction false} CountUpdate<T>(s: seq<Option<T>>, i: nat, v: Option<T>)
    requires i < |s|
    ensures CountPresent(s[i := v]) + (if s[i].Some? then 1 else 0) == CountPresent(s) + (if v.Some? then 1 else 0)
  {
    if i > 0 {
      CountUpdate(s[1..], i - 1, v);
      assert s[i := v][1..] == s[1..][i - 1 := v];
    } else {
      assert s[i := v][1..] == s[1..];
    }
  }

  lemma {:induction false} CountZero<T>(s: seq<Option<T>>)
    ensures CountPresent(s) == 0 <==> forall i :: 0 <= i < |s| ==> s[i].None?
  {
    if s == [] {
    } else {
      CountZero(s[1..]);
      if CountPresent(s) == 0 {
        forall i | 0 <= i < |s| ensures s[i].None? {
          assert i > 0 ==> s[i] == s[1..][i - 1];
        }
      }
    }
  }

  class OptArray<T> {
    const arr: array<Option<T>>
    var size: nat

    ghost predicate Valid()
      reads this, arr
    {
      size == CountPresent(arr[..])
    }

    constructor (capacity: nat)
      ensures Valid() && fresh(arr) && arr[..] == seq(capacity, _ => None)
    {
      arr := new Option<T>[capacity](_ => None);
      size := 0;
      new;
      assert arr[..] == seq(capacity, _ => None);
      CountZero(arr[..]);
    }

    method NumPresent() returns (n: nat)
      requires Valid()
      ensures n == CountPresent(arr[..])
    {
      n := size;
    }

    method Put(t: T, index: nat)
      requires Valid()
      modifies this, arr
      ensures Valid()
      ensures arr[..] == if index < arr.Length then old(arr[..])[index := Some(t)] else old(arr[..])
    {
      if index >= arr.Length { return; }
      CountUpdate(arr[..], index, Some(t));
      if !arr[index].Some? { size := size + 1; }
      arr[index] := Some(t);
      assert arr[..] == old(arr[..])[index := Some(t)];
    }

    method Get(index: nat) returns (r: Option<T>)
      ensures r == if index < arr.Length then arr[index] else None
    {
      if index >= arr.Length { return None; }
      return arr[index];
    }

    method Has(index: nat) returns (r: bool)
      ensures r <==> index < arr.Length && arr[index].Some?
    {
      if index >= arr.Length { return false; }
      return arr[index].Some?;
    }

    method Take(index: nat) returns (r: Option<T>)
      requires Valid()
      modifies this, arr
      ensures Valid()
      ensures index < arr.Length ==> r == old(arr[index]) && arr[..] == old(arr[..])[index := None]
      ensures index >= arr.Length ==> r == None && arr[..] == old(arr[..])
    {
      if index >= arr.Length { return None; }
      CountUpdate(arr[..], index, None);
      r := arr[index];
      if r.Some? {
        size := size - 1;
        arr[index] := None;
      }
      assert arr[..] == old(arr[..])[index := None];
    }
  }
}
