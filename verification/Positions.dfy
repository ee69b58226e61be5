/** next_sensor, prev_sensor, invert_sensor and normalize of src/assignments/t1/track_graph.cc. */
module Positions {
  import opened Options
  import opened Sequences
  import opened Tracks
  import opened Routes
  import opened Mirrors

  // ---------------------------------------------------------------------------------------------
  // What the loops rely on to end.

  ghost predicate HasSensor(g: Track, p: seq<nat>) {
    exists i :: 0 <= i < |p| && p[i] < |g| && g[p[i]].kind == NODE_SENSOR
  }

  /** There is no cycle without a sensor. */
  ghost predicate CyclesOk(g: Track) {
    forall p :: IsWalk(g, p) && |p| >= 2 && p[0] == Last(p) ==> HasSensor(g, p)
  }

  ghost predicate BetweenSensors(g: Track, p: seq<nat>) {
    IsWalk(g, p) && |p| >= 2 && g[p[0]].kind == NODE_SENSOR && Last(p) < |g| && g[Last(p)].kind == NODE_SENSOR
  }

  ghost predicate DistancesOk(g: Track) {
    forall p :: BetweenSensors(g, p) ==> Length(g, p) > 0
  }

  ghost predicate LayoutOk(g: Track) {
    EdgesOk(g) && ArmsOk(g) && NumbersOk(g) && MirrorOk(g) && CyclesOk(g) && DistancesOk(g)
  }

  // ---------------------------------------------------------------------------------------------
  // The walk to the next sensor.

  /** Under way from p[0], the switches followed, with no sensor since. */
  ghost predicate UnderWay(g: Track, branches: seq<BranchState>, p: seq<nat>)
    requires SwitchesOk(g, branches)
  {
    Follows(g, branches, p) && forall i :: 1 <= i < |p| ==> p[i] < |g| && g[p[i]].kind != NODE_SENSOR
  }

  lemma FollowingWalks(g: Track, branches: seq<BranchState>, p: seq<nat>)
    requires EdgesOk(g) && ArmsOk(g) && SwitchesOk(g, branches) && Follows(g, branches, p)
    ensures IsWalk(g, p)
  {
    forall i ensures JoinedAt(g, p, i) {
      assert LeadsAt(g, branches, p, i);
      if 0 <= i < |p| - 1 { LeadingJoins(g, branches, p[i], p[i + 1]); }
    }
  }

  lemma FollowOn(g: Track, branches: seq<BranchState>, p: seq<nat>)
    requires EdgesOk(g) && ArmsOk(g) && SwitchesOk(g, branches) && Follows(g, branches, p)
    requires Last(p) < |g| && NextEdge(g, branches, Last(p)).Some?
    ensures var e := NextEdge(g, branches, Last(p)).value;
            e.dest < |g| && Follows(g, branches, p + [e.dest]) && Length(g, p + [e.dest]) == Length(g, p) + e.dist
  {
    var e := NextEdge(g, branches, Last(p)).value;
    NextInTrack(g, branches, Last(p));
    FollowingWalks(g, branches, p);
    LeadingJoins(g, branches, Last(p), e.dest);
    WalkExtend(g, p, e.dest);
    forall i ensures LeadsAt(g, branches, p + [e.dest], i) { assert LeadsAt(g, branches, p, i); }
  }

  /** A walk that meets no sensor returns to no node. */
  lemma NoReturn(g: Track, p: seq<nat>, i: nat, j: nat)
    requires CyclesOk(g) && IsWalk(g, p) && 1 <= i < j < |p|
    requires forall k :: 1 <= k < |p| ==> p[k] < |g| && g[p[k]].kind != NODE_SENSOR
    ensures p[i] != p[j]
  {
    WalkSuffix(g, p, i);
    WalkPrefix(g, p[i..], j - i + 1);
    var q := p[i..][..j - i + 1];
    assert forall k :: 0 <= k < |q| ==> q[k] == p[i + k];
    assert !HasSensor(g, q);
    assert q[0] == p[i] && Last(q) == p[j];
  }

  /** Without a sensor there is no room for more nodes than the track has. */
  lemma UnderWayShort(g: Track, branches: seq<BranchState>, p: seq<nat>)
    requires LayoutOk(g) && SwitchesOk(g, branches) && UnderWay(g, branches, p)
    ensures |p| <= TRACK_MAX + 1
  {
    FollowingWalks(g, branches, p);
    var q := p[1..];
    forall i, j | 0 <= i < j < |q| ensures q[i] != q[j] { NoReturn(g, p, i + 1, j + 1); }
    forall x | x in q ensures x < TRACK_MAX {
      var i :| 0 <= i < |q| && q[i] == x;
      assert p[i + 1] == x;
    }
    Pigeonhole(q, TRACK_MAX);
  }

  ghost function SensorWalk(g: Track, branches: seq<BranchState>, p: seq<nat>): (r: Option<seq<nat>>)
    requires LayoutOk(g) && SwitchesOk(g, branches) && UnderWay(g, branches, p)
    ensures r.Some? ==> |r.value| > |p| && r.value[..|p|] == p && IsSensorWalk(g, branches, r.value)
    decreases TRACK_MAX + 1 - |p|
  {
    UnderWayShort(g, branches, p);
    FollowingWalks(g, branches, p);
    WalkNodesOk(g, p, |p| - 1);
    match NextEdge(g, branches, Last(p))
    case None => None
    case Some(e) =>
      FollowOn(g, branches, p);
      assert (p + [e.dest])[..|p|] == p;
      if g[e.dest].kind == NODE_SENSOR then Some(p + [e.dest])
      else
        UnderWayShort(g, branches, p + [e.dest]);
        SensorWalk(g, branches, p + [e.dest])
  }

  /** From p[0] the switches lead along p, whose last node is the first sensor met. */
  ghost predicate IsSensorWalk(g: Track, branches: seq<BranchState>, p: seq<nat>)
    requires SwitchesOk(g, branches)
  {
    && |p| >= 2 && UnderWay(g, branches, p[..|p| - 1]) && Follows(g, branches, p)
    && Last(p) < |g| && g[Last(p)].kind == NODE_SENSOR
  }

  /** The walk to the next sensor is found if there is one. */
  lemma {:induction false} SensorWalkComplete(g: Track, branches: seq<BranchState>, w: seq<nat>, k: nat)
    requires LayoutOk(g) && SwitchesOk(g, branches) && IsSensorWalk(g, branches, w) && 1 <= k < |w|
    ensures UnderWay(g, branches, w[..k]) && SensorWalk(g, branches, w[..k]) == Some(w)
    decreases |w| - k
  {
    hide LayoutOk, UnderWay, SensorWalk;
    UnderWayPrefix(g, branches, w, k);
    NextOnWalk(g, branches, w, k);
    WalkStep(g, branches, w[..k]);
    hide IsSensorWalk, Follows;
    if k == |w| - 1 {
      assert w[..k + 1] == w;
    } else {
      SensorWalkComplete(g, branches, w, k + 1);
    }
  }

  lemma NextOnWalk(g: Track, branches: seq<BranchState>, w: seq<nat>, k: nat)
    requires LayoutOk(g) && SwitchesOk(g, branches) && IsSensorWalk(g, branches, w) && 1 <= k < |w|
    ensures w[..k + 1] == w[..k] + [w[k]] && Last(w[..k]) == w[k - 1] < |g| && LeadsTo(g, branches, w[k - 1], w[k])
    ensures w[k] < |g| && (g[w[k]].kind == NODE_SENSOR <==> k == |w| - 1)
  {
    assert LeadsAt(g, branches, w, k - 1);
    assert k < |w| - 1 ==> w[..|w| - 1][k] == w[k];
  }

  lemma UnderWayPrefix(g: Track, branches: seq<BranchState>, w: seq<nat>, k: nat)
    requires SwitchesOk(g, branches) && IsSensorWalk(g, branches, w) && 1 <= k < |w|
    ensures UnderWay(g, branches, w[..k])
  {
    var p := w[..|w| - 1];
    forall i ensures LeadsAt(g, branches, w[..k], i) { assert LeadsAt(g, branches, w, i); }
    forall i | 1 <= i < k ensures w[..k][i] < |g| && g[w[..k][i]].kind != NODE_SENSOR { assert w[..k][i] == p[i]; }
  }

  lemma AtRest(g: Track, branches: seq<BranchState>, n: nat)
    requires SwitchesOk(g, branches) && n < |g|
    ensures UnderWay(g, branches, [n])
  {
    forall i ensures LeadsAt(g, branches, [n], i) {}
  }

  ghost function NextWalk(g: Track, branches: seq<BranchState>, n: nat): (r: Option<seq<nat>>)
    requires LayoutOk(g) && SwitchesOk(g, branches) && n < |g|
    ensures r.Some? ==> IsSensorWalk(g, branches, r.value) && r.value[0] == n
  {
    AtRest(g, branches, n);
    var r := SensorWalk(g, branches, [n]);
    assert r.Some? ==> r.value[..1][0] == r.value[0];
    r
  }

  ghost function NextSensorOf(g: Track, branches: seq<BranchState>, s: Sensor): Option<(Sensor, int)>
    requires LayoutOk(g) && SwitchesOk(g, branches)
  {
    if NodeOf(g, s).None? then None
    else match NextWalk(g, branches, NodeOf(g, s).value)
      case None => None
      case Some(p) => Some((SensorOf(g[Last(p)]), Length(g, p)))
  }

  lemma NoLength(g: Track, n: nat)
    ensures Length(g, [n]) == 0
  {
  }

  /** One turn of the walk's loop. */
  lemma WalkStep(g: Track, branches: seq<BranchState>, p: seq<nat>)
    requires LayoutOk(g) && SwitchesOk(g, branches) && UnderWay(g, branches, p) && Last(p) < |g|
    ensures match NextEdge(g, branches, Last(p))
            case None => SensorWalk(g, branches, p) == None
            case Some(e) =>
              && e.dest < |g| && Length(g, p + [e.dest]) == Length(g, p) + e.dist
              && if g[e.dest].kind == NODE_SENSOR then
                   SensorWalk(g, branches, p) == Some(p + [e.dest]) && g[e.dest].num >= 0
                 else
                   && UnderWay(g, branches, p + [e.dest]) && |p| <= TRACK_MAX
                   && SensorWalk(g, branches, p + [e.dest]) == SensorWalk(g, branches, p)
  {
    hide CyclesOk, MirrorOk, DistancesOk;
    FollowingWalks(g, branches, p);
    match NextEdge(g, branches, Last(p))
    case None =>
    case Some(e) =>
      FollowOn(g, branches, p);
      hide Follows, EdgesOk, ArmsOk;
      if g[e.dest].kind != NODE_SENSOR {
        assert UnderWay(g, branches, p + [e.dest]);
        UnderWayShort(g, branches, p + [e.dest]);
      }
  }

  method NextSensor(g: Track, s: Sensor, branches: array<BranchState>) returns (r: Option<(Sensor, int)>)
    requires LayoutOk(g) && SwitchesOk(g, branches[..])
    ensures r == NextSensorOf(g, branches[..], s)
  {
    hide LayoutOk, UnderWay, SensorWalk, NextEdge, Length;
    var node := FindSensor(g, s);
    if !node.Some? { return None; }
    var curr := node.value;
    var distance := 0;
    AtRest(g, branches[..], curr);
    ghost var p := [curr];
    NoLength(g, curr);
    while true
      invariant UnderWay(g, branches[..], p) && curr == Last(p) < |g| && distance == Length(g, p)
      invariant SensorWalk(g, branches[..], p) == NextWalk(g, branches[..], node.value)
      invariant |p| <= TRACK_MAX + 1
      decreases TRACK_MAX + 1 - |p|
    {
      WalkStep(g, branches[..], p);
      var edge := FindNextEdge(g, branches, curr);
      if !edge.Some? { return None; }
      p := p + [edge.value.dest];
      distance := distance + edge.value.dist;
      curr := edge.value.dest;
      if g[curr].kind == NODE_SENSOR { return Some((SensorOf(g[curr]), distance)); }
    }
  }

  /** The distance to the next sensor is positive, and the sensor is on the track. */
  lemma NextSensorOk(g: Track, branches: seq<BranchState>, s: Sensor)
    requires LayoutOk(g) && SwitchesOk(g, branches) && NextSensorOf(g, branches, s).Some?
    ensures NodeOf(g, s).Some? && NextWalk(g, branches, NodeOf(g, s).value).Some?
    ensures var (t, d) := NextSensorOf(g, branches, s).value;
            d > 0 && NodeOf(g, t) == Some(Last(NextWalk(g, branches, NodeOf(g, s).value).value))
  {
    var p := NextWalk(g, branches, NodeOf(g, s).value).value;
    FollowingWalks(g, branches, p);
    assert BetweenSensors(g, p);
    SensorRoundTrip(g, Last(p));
  }

  /** next_sensor finds t after d millimetres exactly if the switches lead from s to the sensor node of t along d
      millimetres without passing another sensor: nothing only at a dead end or for an unknown sensor. */
  lemma NextSensorIff(g: Track, branches: seq<BranchState>, s: Sensor, t: Sensor, d: int)
    requires LayoutOk(g) && SwitchesOk(g, branches)
    ensures NextSensorOf(g, branches, s) == Some((t, d)) <==>
              exists w :: IsSensorWalk(g, branches, w) && NodeOf(g, s) == Some(w[0])
                && t == SensorOf(g[Last(w)]) && d == Length(g, w)
  {
    forall w | IsSensorWalk(g, branches, w) && NodeOf(g, s) == Some(w[0])
      ensures NextWalk(g, branches, NodeOf(g, s).value) == Some(w)
    {
      SensorWalkComplete(g, branches, w, 1);
      assert w[..1] == [w[0]];
    }
  }

  // ---------------------------------------------------------------------------------------------
  // Backwards.

  function InverseOf(g: Track, s: Sensor): Sensor
    requires NumbersOk(g) && MirrorOk(g) && NodeOf(g, s).Some?
  {
    SensorOf(g[g[NodeOf(g, s).value].reverse])
  }

  method InvertSensor(g: Track, s: Sensor) returns (r: Option<Sensor>)
    requires NumbersOk(g) && MirrorOk(g)
    ensures r == if NodeOf(g, s).None? then None else Some(InverseOf(g, s))
  {
    var node := FindSensor(g, s);
    if !node.Some? { return None; }
    return Some(SensorOf(g[g[node.value].reverse]));
  }

  lemma InverseOk(g: Track, s: Sensor)
    requires NumbersOk(g) && MirrorOk(g) && NodeOf(g, s).Some?
    ensures NodeOf(g, InverseOf(g, s)) == Some(g[NodeOf(g, s).value].reverse)
    ensures InverseOf(g, InverseOf(g, s)) == SensorOf(g[NodeOf(g, s).value])
  {
    SensorRoundTrip(g, g[NodeOf(g, s).value].reverse);
  }

  ghost function PrevSensorOf(g: Track, branches: seq<BranchState>, s: Sensor): Option<(Sensor, int)>
    requires LayoutOk(g) && SwitchesOk(g, branches) && NodeOf(g, s).Some?
  {
    match NextSensorOf(g, branches, InverseOf(g, s))
    case None => None
    case Some((t, d)) => NextSensorOk(g, branches, InverseOf(g, s)); Some((InverseOf(g, t), d))
  }

  /** False is the panic of invert_sensor for an unknown sensor. */
  method PrevSensor(g: Track, s: Sensor, branches: array<BranchState>) returns (ok: bool, r: Option<(Sensor, int)>)
    requires LayoutOk(g) && SwitchesOk(g, branches[..])
    ensures ok <==> NodeOf(g, s).Some?
    ensures ok ==> r == PrevSensorOf(g, branches[..], s)
  {
    var inverse := InvertSensor(g, s);
    if !inverse.Some? { return false, None; }
    InverseOk(g, s);
    var next := NextSensor(g, inverse.value, branches);
    if !next.Some? { return true, None; }
    NextSensorOk(g, branches[..], inverse.value);
    var t := InvertSensor(g, next.value.0);
    return true, Some((t.value, next.value.1));
  }

  lemma EndOfWalk(g: Track, branches: seq<BranchState>, w: seq<nat>)
    requires LayoutOk(g) && SwitchesOk(g, branches) && IsSensorWalk(g, branches, w)
    ensures g[Last(w)].reverse < |g| && g[g[Last(w)].reverse].kind == NODE_SENSOR && g[g[Last(w)].reverse].num >= 0
    ensures g[Last(w)].num >= 0 && NodeOf(g, SensorOf(g[Last(w)])) == Some(Last(w))
    ensures InverseOf(g, SensorOf(g[Last(w)])) == SensorOf(g[g[Last(w)].reverse])
  {
    SensorRoundTrip(g, Last(w));
  }

  /** Backwards from node n the first sensor the switches lead to is at w's end, and t is its name for the other
      direction. */
  ghost predicate BackTo(g: Track, branches: seq<BranchState>, n: nat, w: seq<nat>, t: Sensor, d: int)
    requires SwitchesOk(g, branches) && n < |g|
  {
    && IsSensorWalk(g, branches, w) && w[0] == g[n].reverse && d == Length(g, w)
    && g[Last(w)].reverse < |g| && g[g[Last(w)].reverse].num >= 0 && t == SensorOf(g[g[Last(w)].reverse])
  }

  /** prev_sensor finds t after d millimetres exactly if, turned round, the switches lead from s to t turned round
      along d millimetres without passing another sensor. */
  lemma PrevSensorIff(g: Track, branches: seq<BranchState>, s: Sensor, t: Sensor, d: int)
    requires LayoutOk(g) && SwitchesOk(g, branches) && NodeOf(g, s).Some?
    ensures PrevSensorOf(g, branches, s) == Some((t, d)) <==>
              exists w :: BackTo(g, branches, NodeOf(g, s).value, w, t, d)
  {
    InverseOk(g, s);
    hide LayoutOk, SwitchesOk, IsSensorWalk, NextSensorOf, NodeOf, Length, InverseOf, SensorOf;
    var inverse := InverseOf(g, s);
    if PrevSensorOf(g, branches, s) == Some((t, d)) {
      var u := NextSensorOf(g, branches, inverse).value.0;
      NextSensorIff(g, branches, inverse, u, d);
      var w :| IsSensorWalk(g, branches, w) && NodeOf(g, inverse) == Some(w[0])
               && u == SensorOf(g[Last(w)]) && d == Length(g, w);
      EndOfWalk(g, branches, w);
      assert BackTo(g, branches, NodeOf(g, s).value, w, t, d);
    }
    forall w | BackTo(g, branches, NodeOf(g, s).value, w, t, d)
      ensures PrevSensorOf(g, branches, s) == Some((t, d))
    {
      EndOfWalk(g, branches, w);
      NextSensorIff(g, branches, inverse, SensorOf(g[Last(w)]), d);
    }
  }

  ghost predicate SetAt(g: Track, branches: seq<BranchState>, p: seq<nat>, i: int)
    requires SwitchesOk(g, branches)
  {
    0 <= i < |p| - 1 && p[i] < |g| && g[p[i]].kind == NODE_BRANCH ==>
      DirOf(branches, g[p[i]].num) == Some(Toward(g, p[i], p[i + 1]))
  }

  /** Every branch that p crosses is set toward the next node of p. */
  ghost predicate SetAlong(g: Track, branches: seq<BranchState>, p: seq<nat>)
    requires SwitchesOk(g, branches)
  {
    forall i :: SetAt(g, branches, p, i)
  }

  lemma FollowsIffSet(g: Track, branches: seq<BranchState>, p: seq<nat>)
    requires EdgesOk(g) && ArmsOk(g) && SwitchesOk(g, branches) && IsWalk(g, p)
    ensures Follows(g, branches, p) <==> SetAlong(g, branches, p)
  {
    forall i ensures LeadsAt(g, branches, p, i) <==> SetAt(g, branches, p, i) {
      assert JoinedAt(g, p, i);
    }
    if SetAlong(g, branches, p) {
      forall i ensures LeadsAt(g, branches, p, i) { assert SetAt(g, branches, p, i); }
    }
    if Follows(g, branches, p) {
      forall i ensures SetAt(g, branches, p, i) { assert LeadsAt(g, branches, p, i); }
    }
  }

  /** Backwards, a walk between neighbouring sensors meets no other sensor. */
  lemma MirrorInner(g: Track, branches: seq<BranchState>, w: seq<nat>)
    requires LayoutOk(g) && SwitchesOk(g, branches) && IsSensorWalk(g, branches, w) && g[w[0]].kind == NODE_SENSOR
    ensures IsWalk(g, Mirror(g, w)) && Length(g, Mirror(g, w)) == Length(g, w)
    ensures Mirror(g, w)[0] == g[Last(w)].reverse && Last(Mirror(g, w)) == g[w[0]].reverse
    ensures forall i :: 1 <= i < |w| - 1 ==> Mirror(g, w)[i] < |g| && g[Mirror(g, w)[i]].kind != NODE_SENSOR
  {
    FollowingWalks(g, branches, w);
    MirrorWalk(g, w);
    forall i | 1 <= i < |w| - 1 ensures Mirror(g, w)[i] < |g| && g[Mirror(g, w)[i]].kind != NODE_SENSOR {
      var n := w[|w| - 1 - i];
      MirrorAt(g, w, i);
      assert w[..|w| - 1][|w| - 1 - i] == n;
      assert JoinedAt(g, w, |w| - 1 - i);
      JoinedKinds(g, n, w[|w| - i]);
    }
  }

  /** prev_sensor(s) = (p, d) took some walk backwards. The switches lead from p along that walk to s
      exactly when every branch it crosses is set toward it; then next_sensor(p) = (s, d). */
  lemma PrevThenNext(g: Track, branches: seq<BranchState>, s: Sensor)
    requires LayoutOk(g) && SwitchesOk(g, branches) && NodeOf(g, s).Some? && PrevSensorOf(g, branches, s).Some?
    ensures var n := NodeOf(g, s).value;
            var (p, d) := PrevSensorOf(g, branches, s).value;
            var w := NextWalk(g, branches, g[n].reverse);
            && w.Some? && NodeOf(g, p) == Some(Mirror(g, w.value)[0])
            && (NextWalk(g, branches, NodeOf(g, p).value) == Some(Mirror(g, w.value))
                <==> SetAlong(g, branches, Mirror(g, w.value)))
            && (SetAlong(g, branches, Mirror(g, w.value)) ==>
                  NextSensorOf(g, branches, p) == Some((SensorOf(g[n]), d)))
  {
    var n := NodeOf(g, s).value;
    InverseOk(g, s);
    NextSensorOk(g, branches, InverseOf(g, s));
    var (t, d) := NextSensorOf(g, branches, InverseOf(g, s)).value;
    InverseOk(g, t);
    var w := NextWalk(g, branches, g[n].reverse).value;
    MirrorInner(g, branches, w);
    var m := Mirror(g, w);
    FollowsIffSet(g, branches, m);
    if SetAlong(g, branches, m) {
      MirroredIsSensorWalk(g, branches, m);
      SensorWalkComplete(g, branches, m, 1);
      assert m[..1] == [m[0]];
    }
  }

  lemma MirroredIsSensorWalk(g: Track, branches: seq<BranchState>, m: seq<nat>)
    requires SwitchesOk(g, branches) && Follows(g, branches, m) && |m| >= 2
    requires Last(m) < |g| && g[Last(m)].kind == NODE_SENSOR
    requires forall i :: 1 <= i < |m| - 1 ==> m[i] < |g| && g[m[i]].kind != NODE_SENSOR
    ensures IsSensorWalk(g, branches, m)
  {
    var q := m[..|m| - 1];
    forall i ensures LeadsAt(g, branches, q, i) { assert LeadsAt(g, branches, m, i); }
  }

  // ---------------------------------------------------------------------------------------------
  // Normal positions.

  datatype Position = Position(sensor: Sensor, offset: int)

  predicate Closer(p: Position, q: Position) {
    if q.offset < 0 then p.offset >= 0 || p.offset > q.offset else 0 <= p.offset < q.offset
  }

  /** One turn of the loop: the position it moves to, if it does not return. */
  ghost function Moved(g: Track, branches: seq<BranchState>, pos: Position): (r: Option<Position>)
    requires LayoutOk(g) && SwitchesOk(g, branches) && NodeOf(g, pos.sensor).Some?
    ensures r.Some? ==> NodeOf(g, r.value.sensor).Some? && Closer(r.value, pos)
  {
    if pos.offset == 0 then None
    else if pos.offset > 0 then
      match NextSensorOf(g, branches, pos.sensor)
      case None => None
      case Some((t, d)) =>
        NextSensorOk(g, branches, pos.sensor);
        if d > pos.offset then None else Some(Position(t, pos.offset - d))
    else
      match PrevSensorOf(g, branches, pos.sensor)
      case None => None
      case Some((t, d)) => PrevSensorOk(g, branches, pos.sensor); Some(Position(t, pos.offset + d))
  }

  ghost function Normal(g: Track, branches: seq<BranchState>, pos: Position): (r: Position)
    requires LayoutOk(g) && SwitchesOk(g, branches) && NodeOf(g, pos.sensor).Some?
    ensures NodeOf(g, r.sensor).Some?
    decreases pos.offset < 0, if pos.offset < 0 then -pos.offset else pos.offset
  {
    match Moved(g, branches, pos)
    case None => pos
    case Some(q) => Normal(g, branches, q)
  }

  lemma PrevSensorOk(g: Track, branches: seq<BranchState>, s: Sensor)
    requires LayoutOk(g) && SwitchesOk(g, branches) && NodeOf(g, s).Some? && PrevSensorOf(g, branches, s).Some?
    ensures var (t, d) := PrevSensorOf(g, branches, s).value; d > 0 && NodeOf(g, t).Some?
  {
    NextSensorOk(g, branches, InverseOf(g, s));
    InverseOk(g, NextSensorOf(g, branches, InverseOf(g, s)).value.0);
  }

  /** No result is the panic for an unknown sensor, which only a step back can meet. */
  method Normalize(g: Track, pos: Position, branches: array<BranchState>) returns (r: Option<Position>)
    requires LayoutOk(g) && SwitchesOk(g, branches[..])
    ensures r == if NodeOf(g, pos.sensor).Some? then Some(Normal(g, branches[..], pos))
                 else if pos.offset < 0 then None else Some(pos)
  {
    hide LayoutOk, SwitchesOk, NodeOf, NextSensorOf, PrevSensorOf, Normal;
    var ret := pos;
    while true
      invariant ret == pos || NodeOf(g, pos.sensor).Some?
      invariant NodeOf(g, pos.sensor).Some? ==>
        NodeOf(g, ret.sensor).Some? && Normal(g, branches[..], ret) == Normal(g, branches[..], pos)
      decreases ret.offset < 0, if ret.offset < 0 then -ret.offset else ret.offset
    {
      if NodeOf(g, ret.sensor).Some? { NormalMoves(g, branches[..], ret); }
      if ret.offset == 0 { return Some(ret); }
      if ret.offset > 0 {
        var next := NextSensor(g, ret.sensor, branches);
        if !next.Some? { return Some(ret); }
        var (sensor, distance) := next.value;
        if distance > ret.offset { return Some(ret); }
        NextSensorOk(g, branches[..], ret.sensor);
        ret := Position(sensor, ret.offset - distance);
        assert ret.offset >= 0;
      } else {
        var ok, prev := PrevSensor(g, ret.sensor, branches);
        if !ok { return None; }
        if !prev.Some? { return Some(ret); }
        PrevSensorOk(g, branches[..], ret.sensor);
        var (sensor, distance) := prev.value;
        assert distance > 0;
        ret := Position(sensor, ret.offset + distance);
      }
    }
  }

  /** A position that normalize leaves alone: short of the next sensor, or with nowhere to go. */
  ghost predicate IsNormal(g: Track, branches: seq<BranchState>, pos: Position)
    requires LayoutOk(g) && SwitchesOk(g, branches) && NodeOf(g, pos.sensor).Some?
  {
    if pos.offset >= 0 then
      var next := NextSensorOf(g, branches, pos.sensor);
      next.None? || pos.offset < next.value.1
    else PrevSensorOf(g, branches, pos.sensor).None?
  }

  lemma StayingIsNormal(g: Track, branches: seq<BranchState>, pos: Position)
    requires LayoutOk(g) && SwitchesOk(g, branches) && NodeOf(g, pos.sensor).Some? && Moved(g, branches, pos).None?
    ensures IsNormal(g, branches, pos)
  {
    if pos.offset == 0 && NextSensorOf(g, branches, pos.sensor).Some? { NextSensorOk(g, branches, pos.sensor); }
  }

  lemma {:induction false} NormalIsNormal(g: Track, branches: seq<BranchState>, pos: Position)
    requires LayoutOk(g) && SwitchesOk(g, branches) && NodeOf(g, pos.sensor).Some?
    ensures IsNormal(g, branches, Normal(g, branches, pos))
    ensures pos.offset >= 0 ==> Normal(g, branches, pos).offset >= 0
    decreases pos.offset < 0, if pos.offset < 0 then -pos.offset else pos.offset
  {
    var q := Moved(g, branches, pos);
    if q.Some? { NormalIsNormal(g, branches, q.value); } else { StayingIsNormal(g, branches, pos); }
  }

  lemma NormalStays(g: Track, branches: seq<BranchState>, pos: Position)
    requires LayoutOk(g) && SwitchesOk(g, branches) && NodeOf(g, pos.sensor).Some? && IsNormal(g, branches, pos)
    ensures Moved(g, branches, pos).None?
  {
  }

  /** Normalizing twice is normalizing once. */
  lemma NormalizeIdempotent(g: Track, branches: seq<BranchState>, pos: Position)
    requires LayoutOk(g) && SwitchesOk(g, branches) && NodeOf(g, pos.sensor).Some?
    ensures Normal(g, branches, Normal(g, branches, pos)) == Normal(g, branches, pos)
  {
    NormalIsNormal(g, branches, pos);
    NormalStays(g, branches, Normal(g, branches, pos));
  }

  /** The switches lead along p, from a to b over d millimetres. */
  ghost predicate LeadsFor(g: Track, branches: seq<BranchState>, p: seq<nat>, a: nat, b: nat, d: int)
    requires SwitchesOk(g, branches)
  {
    Follows(g, branches, p) && p[0] == a && Last(p) == b && Length(g, p) == d
  }

  /** Following the switches from sensor a for d millimetres ends at sensor b. */
  ghost predicate AheadBy(g: Track, branches: seq<BranchState>, a: Sensor, b: Sensor, d: int)
    requires SwitchesOk(g, branches)
  {
    NodeOf(g, a).Some? && NodeOf(g, b).Some? &&
    exists p :: LeadsFor(g, branches, p, NodeOf(g, a).value, NodeOf(g, b).value, d)
  }

  lemma FollowsConcat(g: Track, branches: seq<BranchState>, p: seq<nat>, q: seq<nat>)
    requires SwitchesOk(g, branches) && Follows(g, branches, p) && Follows(g, branches, q) && Last(p) == q[0]
    ensures var r := p + q[1..];
            Follows(g, branches, r) && Last(r) == Last(q) && Length(g, r) == Length(g, p) + Length(g, q)
  {
    var r := p + q[1..];
    forall i ensures LeadsAt(g, branches, r, i) {
      assert LeadsAt(g, branches, p, i) && LeadsAt(g, branches, q, i - |p| + 1);
    }
    LengthSplit(g, r, |p| - 1);
    assert r[..|p|] == p && r[|p| - 1..] == q;
  }

  lemma AheadByBoth(g: Track, branches: seq<BranchState>, a: Sensor, d: int, b: Sensor, e: int, c: Sensor)
    requires SwitchesOk(g, branches) && AheadBy(g, branches, a, b, d) && AheadBy(g, branches, b, c, e)
    ensures AheadBy(g, branches, a, c, d + e)
  {
    var p :| LeadsFor(g, branches, p, NodeOf(g, a).value, NodeOf(g, b).value, d);
    var q :| LeadsFor(g, branches, q, NodeOf(g, b).value, NodeOf(g, c).value, e);
    FollowsConcat(g, branches, p, q);
    assert LeadsFor(g, branches, p + q[1..], NodeOf(g, a).value, NodeOf(g, c).value, d + e);
  }

  /** The next sensor lies ahead by its distance, whatever its name. */
  lemma NextIsAhead(g: Track, branches: seq<BranchState>, a: Sensor, t: Sensor, d: int, b: Sensor)
    requires LayoutOk(g) && SwitchesOk(g, branches)
    requires NextSensorOf(g, branches, a) == Some((t, d)) && NodeOf(g, b) == NodeOf(g, t)
    ensures AheadBy(g, branches, a, b, d)
  {
    NextSensorOk(g, branches, a);
    var p := NextWalk(g, branches, NodeOf(g, a).value).value;
    assert LeadsFor(g, branches, p, NodeOf(g, a).value, NodeOf(g, b).value, d);
  }

  lemma AheadByNothing(g: Track, branches: seq<BranchState>, a: Sensor)
    requires SwitchesOk(g, branches) && NodeOf(g, a).Some?
    ensures AheadBy(g, branches, a, a, 0)
  {
    var n := NodeOf(g, a).value;
    AtRest(g, branches, n);
    assert LeadsFor(g, branches, [n], n, n, 0);
  }

  lemma MovedAhead(g: Track, branches: seq<BranchState>, pos: Position)
    requires LayoutOk(g) && SwitchesOk(g, branches) && NodeOf(g, pos.sensor).Some?
    requires pos.offset >= 0 && Moved(g, branches, pos).Some?
    ensures var q := Moved(g, branches, pos).value;
            && q.offset >= 0 && NodeOf(g, q.sensor).Some?
            && NextSensorOf(g, branches, pos.sensor) == Some((q.sensor, pos.offset - q.offset))
  {
    hide NextSensorOf, PrevSensorOf, NodeOf, LayoutOk, SwitchesOk;
  }

  /** For offsets that are not negative, the normal position names the same point: its sensor lies
      ahead of the old one by just the difference of the offsets. */
  lemma {:induction false} NormalizeSamePoint(g: Track, branches: seq<BranchState>, pos: Position)
    requires LayoutOk(g) && SwitchesOk(g, branches) && NodeOf(g, pos.sensor).Some? && pos.offset >= 0
    ensures AheadBy(g, branches, pos.sensor, Normal(g, branches, pos).sensor,
                    pos.offset - Normal(g, branches, pos).offset)
    decreases pos.offset
  {
    hide LayoutOk, SwitchesOk, AheadBy, Normal, Moved, NextSensorOf, NodeOf;
    NormalMoves(g, branches, pos);
    if Moved(g, branches, pos).None? {
      AheadByNothing(g, branches, pos.sensor);
    } else {
      var q, r := Moved(g, branches, pos).value, Normal(g, branches, pos);
      MovedAhead(g, branches, pos);
      NormalizeSamePoint(g, branches, q);
      NextIsAhead(g, branches, pos.sensor, q.sensor, pos.offset - q.offset, q.sensor);
      AheadByBoth(g, branches, pos.sensor, pos.offset - q.offset, q.sensor, q.offset - r.offset, r.sensor);
    }
  }

  lemma NormalMoves(g: Track, branches: seq<BranchState>, pos: Position)
    requires LayoutOk(g) && SwitchesOk(g, branches) && NodeOf(g, pos.sensor).Some?
    ensures Normal(g, branches, pos) ==
      if Moved(g, branches, pos).None? then pos else Normal(g, branches, Moved(g, branches, pos).value)
  {
    hide Moved, NodeOf, LayoutOk, SwitchesOk;
  }

  /** The way that prev_sensor(s) took back, turned round. */
  ghost function WayBack(g: Track, branches: seq<BranchState>, s: Sensor): seq<nat>
    requires LayoutOk(g) && SwitchesOk(g, branches) && NodeOf(g, s).Some? && PrevSensorOf(g, branches, s).Some?
  {
    PrevThenNext(g, branches, s);
    Mirror(g, NextWalk(g, branches, g[NodeOf(g, s).value].reverse).value)
  }

  /** Each step back that normalize takes from pos crosses only branches that are set toward where it
      came from. */
  ghost predicate Retraced(g: Track, branches: seq<BranchState>, pos: Position)
    requires LayoutOk(g) && SwitchesOk(g, branches) && NodeOf(g, pos.sensor).Some?
    decreases pos.offset < 0, -pos.offset
  {
    pos.offset < 0 && Moved(g, branches, pos).Some? ==>
      && SetAlong(g, branches, WayBack(g, branches, pos.sensor))
      && (Moved(g, branches, pos).value.offset < 0 ==> Retraced(g, branches, Moved(g, branches, pos).value))
  }

  lemma MovedBack(g: Track, branches: seq<BranchState>, pos: Position)
    requires LayoutOk(g) && SwitchesOk(g, branches) && NodeOf(g, pos.sensor).Some?
    requires pos.offset < 0 && Moved(g, branches, pos).Some?
    ensures var q := Moved(g, branches, pos).value;
            && q.offset > pos.offset && NodeOf(g, q.sensor).Some?
            && PrevSensorOf(g, branches, pos.sensor) == Some((q.sensor, q.offset - pos.offset))
  {
    hide NextSensorOf, PrevSensorOf, NodeOf, LayoutOk, SwitchesOk;
  }

  /** Short of the next sensor, a position is normal. */
  lemma ShortIsNormal(g: Track, branches: seq<BranchState>, q: Position, t: Sensor, d: int)
    requires LayoutOk(g) && SwitchesOk(g, branches) && NodeOf(g, q.sensor).Some?
    requires NextSensorOf(g, branches, q.sensor) == Some((t, d)) && 0 <= q.offset < d
    ensures Normal(g, branches, q) == q
  {
    hide NextSensorOf, PrevSensorOf, NodeOf, LayoutOk, SwitchesOk;
    assert Moved(g, branches, q).None?;
  }

  /** A step back over branches that are set toward it leads to a sensor whose next one is the old one. */
  lemma StepBack(g: Track, branches: seq<BranchState>, pos: Position)
    requires LayoutOk(g) && SwitchesOk(g, branches) && NodeOf(g, pos.sensor).Some? && pos.offset < 0
    requires PrevSensorOf(g, branches, pos.sensor).Some? && SetAlong(g, branches, WayBack(g, branches, pos.sensor))
    ensures var (p, d) := PrevSensorOf(g, branches, pos.sensor).value;
            && AheadBy(g, branches, p, pos.sensor, d)
            && (pos.offset + d >= 0 ==> NodeOf(g, p).Some? && Normal(g, branches, Position(p, pos.offset + d))
                                                          == Position(p, pos.offset + d))
  {
    var n := NodeOf(g, pos.sensor).value;
    var (p, d) := PrevSensorOf(g, branches, pos.sensor).value;
    PrevThenNext(g, branches, pos.sensor);
    NodeIsSensorNode(g, pos.sensor);
    hide LayoutOk, SwitchesOk, AheadBy, Normal, Moved, NextSensorOf, PrevSensorOf, NextWalk, SetAlong;
    NextIsAhead(g, branches, p, SensorOf(g[n]), d, pos.sensor);
    if pos.offset + d >= 0 { ShortIsNormal(g, branches, Position(p, pos.offset + d), SensorOf(g[n]), d); }
  }

  lemma NodeIsSensorNode(g: Track, s: Sensor)
    requires NumbersOk(g) && NodeOf(g, s).Some?
    ensures g[NodeOf(g, s).value].kind == NODE_SENSOR && NodeOf(g, SensorOf(g[NodeOf(g, s).value])) == NodeOf(g, s)
  {
    SensorRoundTrip(g, NodeOf(g, s).value);
  }

  lemma RetracedBack(g: Track, branches: seq<BranchState>, pos: Position)
    requires LayoutOk(g) && SwitchesOk(g, branches) && NodeOf(g, pos.sensor).Some? && pos.offset < 0
    requires Retraced(g, branches, pos) && Moved(g, branches, pos).Some?
    ensures PrevSensorOf(g, branches, pos.sensor).Some? && SetAlong(g, branches, WayBack(g, branches, pos.sensor))
    ensures Moved(g, branches, pos).value.offset < 0 ==> Retraced(g, branches, Moved(g, branches, pos).value)
  {
    hide NextSensorOf, PrevSensorOf, NodeOf, LayoutOk, SwitchesOk, SetAlong, WayBack;
  }

  /** For negative offsets too, if every step back can be retraced: the old sensor lies ahead of the new
      one by just the difference of the offsets. */
  lemma {:induction false} NormalizeSamePointBack(g: Track, branches: seq<BranchState>, pos: Position)
    requires LayoutOk(g) && SwitchesOk(g, branches) && NodeOf(g, pos.sensor).Some? && pos.offset < 0
    requires Retraced(g, branches, pos)
    ensures AheadBy(g, branches, Normal(g, branches, pos).sensor, pos.sensor,
                    Normal(g, branches, pos).offset - pos.offset)
    decreases -pos.offset
  {
    hide LayoutOk, SwitchesOk, AheadBy, Normal, Moved, NextSensorOf, PrevSensorOf, NodeOf, SetAlong, WayBack, Retraced;
    NormalMoves(g, branches, pos);
    if Moved(g, branches, pos).None? {
      AheadByNothing(g, branches, pos.sensor);
    } else {
      var q, r := Moved(g, branches, pos).value, Normal(g, branches, pos);
      MovedBack(g, branches, pos);
      RetracedBack(g, branches, pos);
      StepBack(g, branches, pos);
      if q.offset < 0 {
        NormalizeSamePointBack(g, branches, q);
        AheadByBoth(g, branches, r.sensor, r.offset - q.offset, q.sensor, q.offset - pos.offset, pos.sensor);
      }
    }
  }
}
