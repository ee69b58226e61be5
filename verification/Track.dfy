/** The track graph of src/assignments/t1/track_node.h and the walks on it. */
module Tracks {
  import opened Options

  const TRACK_MAX: nat := 144
  /** Edge lengths (in millimetres) for which sums along a path without repetitions fit in an int. */
  const MAX_EDGE: int := 14_000_000

  datatype NodeType = NODE_NONE | NODE_SENSOR | NODE_BRANCH | NODE_MERGE | NODE_ENTER | NODE_EXIT

  /** `reverseSrc` and `reverseDir` say which edge of which node runs the other way. */
  datatype Edge = Edge(dest: nat, dist: int, reverseSrc: nat, reverseDir: nat)

  /** `ahead` is edge[DIR_AHEAD], also edge[DIR_STRAIGHT]; `curved` is edge[DIR_CURVED]. */
  datatype Node = Node(kind: NodeType, num: int, reverse: nat, ahead: Edge, curved: Edge)

  type Track = g: seq<Node> | |g| == TRACK_MAX
    witness seq(TRACK_MAX, _ => Node(NODE_NONE, 0, 0, Edge(0, 0, 0, 0), Edge(0, 0, 0, 0)))

  function NumEdges(n: Node): nat {
    match n.kind
    case NODE_NONE => 0
    case NODE_EXIT => 0
    case NODE_BRANCH => 2
    case _ => 1
  }

  function Out(n: Node, i: nat): Edge { if i == 0 then n.ahead else n.curved }

  // ---------------------------------------------------------------------------------------------
  // Well-formed tracks.

  ghost predicate EdgesOk(g: Track) {
    forall n, i :: 0 <= n < |g| && 0 <= i < NumEdges(g[n]) ==>
      && Out(g[n], i).dest < |g| && g[Out(g[n], i).dest].kind != NODE_NONE
      && 0 <= Out(g[n], i).dist <= MAX_EDGE
  }

  /** The two arms of a branch lead to different nodes. */
  ghost predicate ArmsOk(g: Track) {
    forall n :: 0 <= n < |g| && g[n].kind == NODE_BRANCH ==> g[n].ahead.dest != g[n].curved.dest
  }

  /** No two nodes of the kind have the same number. */
  ghost predicate Numbered(g: Track, kind: NodeType) {
    forall m, n :: 0 <= m < |g| && 0 <= n < |g| && SameName(g[m], g[n], kind) ==> m == n
  }

  predicate SameName(a: Node, b: Node, kind: NodeType) {
    a.kind == kind && b.kind == kind && a.num == b.num
  }

  ghost predicate NumbersOk(g: Track) {
    && Numbered(g, NODE_SENSOR) && Numbered(g, NODE_BRANCH)
    && (forall n :: 0 <= n < |g| && g[n].kind != NODE_NONE ==> 0 <= g[n].num < 0x100)
  }

  // ---------------------------------------------------------------------------------------------
  // Walks.

  predicate Joined(g: Track, a: nat, b: nat) {
    && a < |g| && b < |g|
    && ((NumEdges(g[a]) >= 1 && g[a].ahead.dest == b) || (NumEdges(g[a]) == 2 && g[a].curved.dest == b))
  }

  function Hop(g: Track, a: nat, b: nat): int {
    if !Joined(g, a, b) then 0 else if g[a].ahead.dest == b then g[a].ahead.dist else g[a].curved.dist
  }

  predicate JoinedAt(g: Track, p: seq<nat>, i: int) {
    0 <= i < |p| - 1 ==> Joined(g, p[i], p[i + 1])
  }

  ghost predicate IsWalk(g: Track, p: seq<nat>) {
    |p| > 0 && p[0] < |g| && forall i :: JoinedAt(g, p, i)
  }

  function Last(p: seq<nat>): nat
    requires |p| > 0
  {
    p[|p| - 1]
  }

  function Length(g: Track, p: seq<nat>): int {
    if |p| < 2 then 0 else Length(g, p[..|p| - 1]) + Hop(g, p[|p| - 2], p[|p| - 1])
  }

  ghost predicate WalkBetween(g: Track, p: seq<nat>, a: nat, b: nat) {
    IsWalk(g, p) && p[0] == a && Last(p) == b
  }

  ghost predicate Reachable(g: Track, a: nat, b: nat) {
    exists p :: WalkBetween(g, p, a, b)
  }

  /** d is the length of a walk from a to b, and no walk is shorter. */
  ghost predicate ShortestDistance(g: Track, a: nat, b: nat, d: int) {
    && (exists p :: WalkBetween(g, p, a, b) && Length(g, p) == d)
    && (forall p :: WalkBetween(g, p, a, b) ==> d <= Length(g, p))
  }

  lemma HopOk(g: Track, a: nat, b: nat)
    requires EdgesOk(g)
    ensures 0 <= Hop(g, a, b) <= MAX_EDGE
  {
    if Joined(g, a, b) {
      assert Out(g[a], 0) == g[a].ahead && Out(g[a], 1) == g[a].curved;
    }
  }

  lemma WalkPrefix(g: Track, p: seq<nat>, k: nat)
    requires IsWalk(g, p) && 0 < k <= |p|
    ensures IsWalk(g, p[..k])
  {
    forall i ensures JoinedAt(g, p[..k], i) { assert JoinedAt(g, p, i); }
  }

  lemma WalkSuffix(g: Track, p: seq<nat>, k: nat)
    requires IsWalk(g, p) && k < |p|
    ensures IsWalk(g, p[k..])
  {
    assert k > 0 ==> JoinedAt(g, p, k - 1);
    forall i ensures JoinedAt(g, p[k..], i) { assert JoinedAt(g, p, i + k); }
  }

  lemma WalkExtend(g: Track, p: seq<nat>, b: nat)
    requires IsWalk(g, p) && Joined(g, Last(p), b)
    ensures IsWalk(g, p + [b]) && Length(g, p + [b]) == Length(g, p) + Hop(g, Last(p), b)
  {
    forall i ensures JoinedAt(g, p + [b], i) { assert JoinedAt(g, p, i); }
    assert (p + [b])[..|p|] == p;
  }

  lemma WalkNodesOk(g: Track, p: seq<nat>, i: nat)
    requires IsWalk(g, p) && i < |p|
    ensures p[i] < |g|
  {
    assert JoinedAt(g, p, i - 1);
  }

  lemma {:induction false} LengthGrows(g: Track, p: seq<nat>, k: nat)
    requires EdgesOk(g) && 0 < k <= |p|
    ensures 0 <= Length(g, p[..k]) <= Length(g, p)
    decreases |p|
  {
    if k < |p| {
      HopOk(g, p[|p| - 2], p[|p| - 1]);
      assert p[..|p| - 1][..k] == p[..k];
      LengthGrows(g, p[..|p| - 1], k);
    } else {
      assert p[..k] == p;
      if |p| >= 2 {
        HopOk(g, p[|p| - 2], p[|p| - 1]);
        LengthGrows(g, p[..|p| - 1], |p| - 1);
        assert p[..|p| - 1][..|p| - 1] == p[..|p| - 1];
      }
    }
  }

  lemma WholePrefix(p: seq<nat>)
    ensures p[..|p|] == p
  {
  }

  lemma {:induction false} LengthSplit(g: Track, p: seq<nat>, k: nat)
    requires k < |p|
    ensures Length(g, p) == Length(g, p[..k + 1]) + Length(g, p[k..])
    decreases |p|
  {
    if k == |p| - 1 {
      WholePrefix(p);
      assert |p[k..]| == 1;
    } else {
      var q := p[..|p| - 1];
      LengthSplit(g, q, k);
      assert q[..k + 1] == p[..k + 1];
      assert p[k..][..|p[k..]| - 1] == q[k..];
    }
  }

  // ---------------------------------------------------------------------------------------------
  // Sensors.

  datatype Sensor = Sensor(group: int, idx: int)

  const A: int := 65

  function NumOf(s: Sensor): int { (s.group - A) * 16 + (s.idx - 1) }

  predicate NodeIsSensor(n: Node, s: Sensor) { n.kind == NODE_SENSOR && n.num == NumOf(s) }

  function SensorOf(n: Node): Sensor
    requires n.num >= 0
  {
    Sensor(A + n.num / 16, n.num % 16 + 1)
  }

  /** Naming a sensor node and looking the name up again finds the node. */
  lemma SensorRoundTrip(g: Track, n: nat)
    requires NumbersOk(g) && n < |g| && g[n].kind == NODE_SENSOR
    ensures NodeIsSensor(g[n], SensorOf(g[n]))
    ensures forall m :: 0 <= m < |g| && NodeIsSensor(g[m], SensorOf(g[n])) ==> m == n
  {
    forall m | 0 <= m < |g| && NodeIsSensor(g[m], SensorOf(g[n])) ensures m == n {
      assert SameName(g[m], g[n], NODE_SENSOR);
    }
  }

  /** Sensors are numbered group by group, 16 to a group from A on: the 80 numbers from 0 have the names A1 to E16,
      in this order, and a node is no other sensor than the one it is named after. */
  lemma SensorNames(m: Node, n: Node, s: Sensor)
    requires m.kind == NODE_SENSOR && n.kind == NODE_SENSOR && m.num >= 0 && n.num >= 0
    ensures A <= SensorOf(n).group && 1 <= SensorOf(n).idx <= 16
    ensures n.num < 80 <==> SensorOf(n).group <= A + 4
    ensures m.num < n.num <==>
              || SensorOf(m).group < SensorOf(n).group
              || (SensorOf(m).group == SensorOf(n).group && SensorOf(m).idx < SensorOf(n).idx)
    ensures 1 <= s.idx <= 16 ==> (NodeIsSensor(n, s) <==> s == SensorOf(n))
  {
    assert n.num == 16 * (SensorOf(n).group - A) + (SensorOf(n).idx - 1);
    assert m.num == 16 * (SensorOf(m).group - A) + (SensorOf(m).idx - 1);
  }

  /** The last node that is the sensor, as the searching loops leave it. */
  function NodeOf(g: seq<Node>, s: Sensor): (r: Option<nat>)
    ensures r.Some? ==> r.value < |g| && NodeIsSensor(g[r.value], s)
    ensures r.None? ==> forall n :: 0 <= n < |g| ==> !NodeIsSensor(g[n], s)
  {
    if g == [] then None
    else if NodeIsSensor(g[|g| - 1], s) then Some(|g| - 1)
    else NodeOf(g[..|g| - 1], s)
  }

  method FindSensor(g: Track, s: Sensor) returns (r: Option<nat>)
    ensures r == NodeOf(g, s)
    ensures r.Some? ==> NodeIsSensor(g[r.value], s) && forall n :: r.value < n < |g| ==> !NodeIsSensor(g[n], s)
  {
    r := None;
    var i := 0;
    while i < |g|
      invariant i <= |g| && r == NodeOf(g[..i], s)
      invariant r.Some? ==> forall n :: r.value < n < i ==> !NodeIsSensor(g[n], s)
    {
      assert g[..i + 1][..i] == g[..i];
      if NodeIsSensor(g[i], s) { r := Some(i); }
      i := i + 1;
    }
    assert g[..i] == g;
  }
}
