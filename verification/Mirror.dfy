/** Every walk can be taken backwards through the `reverse` nodes. */
module Mirrors {
  import opened Tracks

  function Reverse(g: Track, n: nat): nat { if n < |g| then g[n].reverse else n }

  /** `reverse` pairs the nodes up, sensors with sensors, and each edge has its mirror image. */
  ghost predicate MirrorOk(g: Track) {
    && (forall n :: 0 <= n < |g| && g[n].kind != NODE_NONE ==>
          && g[n].reverse < |g| && g[g[n].reverse].kind != NODE_NONE && g[g[n].reverse].reverse == n
          && (g[n].kind == NODE_SENSOR ==> g[g[n].reverse].kind == NODE_SENSOR))
    && (forall n, i :: 0 <= n < |g| && 0 <= i < NumEdges(g[n]) ==> EdgeMirrored(g, n, Out(g[n], i)))
  }

  predicate EdgeMirrored(g: Track, n: nat, e: Edge) {
    && n < |g| && e.dest < |g| && e.reverseSrc == g[e.dest].reverse < |g|
    && e.reverseDir < NumEdges(g[e.reverseSrc])
    && Out(g[e.reverseSrc], e.reverseDir).dest == g[n].reverse
    && Out(g[e.reverseSrc], e.reverseDir).dist == e.dist
  }

  function Mirror(g: Track, p: seq<nat>): (q: seq<nat>)
    ensures |q| == |p|
  {
    if p == [] then [] else [Reverse(g, p[|p| - 1])] + Mirror(g, p[..|p| - 1])
  }

  lemma {:induction false} MirrorAt(g: Track, p: seq<nat>, i: nat)
    requires i < |p|
    ensures Mirror(g, p)[i] == Reverse(g, p[|p| - 1 - i])
  {
    if i == 0 {
    } else {
      MirrorAt(g, p[..|p| - 1], i - 1);
    }
  }

  lemma JoinedKinds(g: Track, a: nat, b: nat)
    requires EdgesOk(g) && Joined(g, a, b)
    ensures g[a].kind != NODE_NONE && g[b].kind != NODE_NONE
  {
    assert Out(g[a], 0) == g[a].ahead && Out(g[a], 1) == g[a].curved;
  }

  lemma JoinedMirror(g: Track, a: nat, b: nat)
    requires EdgesOk(g) && ArmsOk(g) && MirrorOk(g) && Joined(g, a, b)
    ensures Joined(g, Reverse(g, b), Reverse(g, a)) && Hop(g, Reverse(g, b), Reverse(g, a)) == Hop(g, a, b)
  {
    JoinedKinds(g, a, b);
    var i := if g[a].ahead.dest == b then 0 else 1;
    assert EdgeMirrored(g, a, Out(g[a], i));
    var c, j := Out(g[a], i).reverseSrc, Out(g[a], i).reverseDir;
    assert Out(g[c], 0) == g[c].ahead && Out(g[c], 1) == g[c].curved;
  }

  lemma {:induction false} LengthFront(g: Track, a: nat, p: seq<nat>)
    requires |p| > 0
    ensures Length(g, [a] + p) == Hop(g, a, p[0]) + Length(g, p)
    decreases |p|
  {
    if |p| > 1 {
      LengthFront(g, a, p[..|p| - 1]);
      assert ([a] + p)[..|p|] == [a] + p[..|p| - 1];
    } else {
      assert ([a] + p)[..1] == [a];
    }
  }

  lemma WalkFront(g: Track, a: nat, p: seq<nat>)
    requires IsWalk(g, p) && Joined(g, a, p[0])
    ensures IsWalk(g, [a] + p)
  {
    forall i ensures JoinedAt(g, [a] + p, i) { assert JoinedAt(g, p, i - 1); }
  }

  /** A walk reversed through `reverse` is a walk of the same length between the reversed ends. */
  lemma {:induction false} MirrorWalk(g: Track, p: seq<nat>)
    requires EdgesOk(g) && ArmsOk(g) && MirrorOk(g) && IsWalk(g, p) && g[p[0]].kind != NODE_NONE
    ensures IsWalk(g, Mirror(g, p)) && Length(g, Mirror(g, p)) == Length(g, p)
    ensures Mirror(g, p)[0] == Reverse(g, Last(p)) && Last(Mirror(g, p)) == Reverse(g, p[0])
    decreases |p|
  {
    if |p| > 1 {
      var q := p[..|p| - 1];
      WalkPrefix(g, p, |p| - 1);
      MirrorWalk(g, q);
      assert JoinedAt(g, p, |p| - 2);
      JoinedMirror(g, Last(q), Last(p));
      WalkFront(g, Reverse(g, Last(p)), Mirror(g, q));
      LengthFront(g, Reverse(g, Last(p)), Mirror(g, q));
    } else {
      assert p[..|p| - 1] == [];
      forall i ensures JoinedAt(g, Mirror(g, p), i) {}
    }
  }

  lemma MirrorBetween(g: Track, p: seq<nat>, a: nat, b: nat)
    requires EdgesOk(g) && ArmsOk(g) && MirrorOk(g) && WalkBetween(g, p, a, b) && g[a].kind != NODE_NONE
    ensures WalkBetween(g, Mirror(g, p), Reverse(g, b), Reverse(g, a)) && Length(g, Mirror(g, p)) == Length(g, p)
  {
    MirrorWalk(g, p);
  }

  /** What holds of the way there holds of the way back. */
  lemma MirrorOneWay(g: Track, a: nat, b: nat, d: int)
    requires EdgesOk(g) && ArmsOk(g) && MirrorOk(g)
    requires a < |g| && b < |g| && g[a].kind != NODE_NONE && g[b].kind != NODE_NONE
    ensures Reachable(g, a, b) ==> Reachable(g, Reverse(g, b), Reverse(g, a))
    ensures ShortestDistance(g, a, b, d) ==> ShortestDistance(g, Reverse(g, b), Reverse(g, a), d)
  {
    if Reachable(g, a, b) {
      var p :| WalkBetween(g, p, a, b);
      MirrorBetween(g, p, a, b);
    }
    if ShortestDistance(g, a, b, d) {
      var p :| WalkBetween(g, p, a, b) && Length(g, p) == d;
      MirrorBetween(g, p, a, b);
      forall q | WalkBetween(g, q, Reverse(g, b), Reverse(g, a)) ensures d <= Length(g, q) {
        MirrorBetween(g, q, Reverse(g, b), Reverse(g, a));
      }
    }
  }

  /** The shortest distance from a to b is the one from the reverse of b to the reverse of a; both or
      neither are reachable. */
  lemma MirrorSymmetry(g: Track, a: nat, b: nat, d: int)
    requires EdgesOk(g) && ArmsOk(g) && MirrorOk(g)
    requires a < |g| && b < |g| && g[a].kind != NODE_NONE && g[b].kind != NODE_NONE
    ensures Reachable(g, a, b) <==> Reachable(g, Reverse(g, b), Reverse(g, a))
    ensures ShortestDistance(g, a, b, d) <==> ShortestDistance(g, Reverse(g, b), Reverse(g, a), d)
  {
    MirrorOneWay(g, a, b, d);
    MirrorOneWay(g, Reverse(g, b), Reverse(g, a), d);
  }
}
