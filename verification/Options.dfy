/** Values that may be absent. */
module Options {
  datatype Option<+T> = None | Some(value: T)
}

/** Machine integers. */
module Integers {
  const INT_MAX: int := 0x7FFF_FFFF

  type Int32 = x: int | -0x8000_0000 <= x <= INT_MAX

  function Max(a: int, b: int): int { if a < b then b else a }
  function Min(a: int, b: int): int { if b < a then b else a }
}

/** Facts about duplicate-free sequences. */
module Sequences {
  ghost predicate Distinct<T>(s: seq<T>) {
    forall i, j :: 0 <= i < j < |s| ==> s[i] != s[j]
  }

  lemma FrontApart<T>(s: seq<T>)
    requires Distinct(s) && s != []
    ensures s[0] !in s[1..] && Distinct(s[1..])
  {
  }

  /** The pigeonhole principle: numbers below a bound, without duplicates, are at most that many. */
  lemma {:induction false} Pigeonhole(s: seq<nat>, bound: nat)
    requires Distinct(s)
    requires forall x :: x in s ==> x < bound
    ensures |s| <= bound
  {
    if s == [] {
    } else {
      assert s[0] in s;
      if bound - 1 in s {
        var k :| 0 <= k < |s| && s[k] == bound - 1;
        var rest := s[..k] + s[k + 1..];
        forall x | x in rest ensures x < bound - 1 {
          var i :| 0 <= i < |rest| && rest[i] == x;
          var j := if i < k then i else i + 1;
          assert rest[i] == s[j] && s[j] in s && s[j] != s[k];
        }
        Pigeonhole(rest, bound - 1);
      } else {
        Pigeonhole(s, bound - 1);
      }
    }
  }
}
