/** Following the switches, and setting them along a route: next_edge and distance_between of
    src/assignments/t1/track_graph.cc, set_branch_dir of track_oracle.cc, the loop of t1.cc. */
module Routes {
  import opened Options
  import opened Sequences
  import opened Tracks
  import opened Dijkstra

  const MAX_ITERS: nat := 40

  datatype BranchDir = Straight | Curved
  datatype BranchState = BranchState(no: nat, dir: BranchDir)

  // ---------------------------------------------------------------------------------------------
  // The switch table.

  function DirOf(branches: seq<BranchState>, num: int): Option<BranchDir> {
    if branches == [] then None
    else if branches[0].no == num then Some(branches[0].dir)
    else DirOf(branches[1..], num)
  }

  /** Entry i is the first one of switch `num`. */
  ghost predicate FirstEntry(branches: seq<BranchState>, num: int, i: int) {
    0 <= i < |branches| && branches[i].no == num && forall j :: 0 <= j < i ==> branches[j].no != num
  }

  /** The direction of a switch is that of its first entry. */
  lemma {:induction false} FirstEntryCounts(branches: seq<BranchState>, num: int)
    ensures DirOf(branches, num).None? ==> forall i :: 0 <= i < |branches| ==> branches[i].no != num
    ensures DirOf(branches, num).Some? ==>
              exists i :: FirstEntry(branches, num, i) && DirOf(branches, num) == Some(branches[i].dir)
  {
    if branches == [] {
    } else if branches[0].no == num {
      assert FirstEntry(branches, num, 0);
    } else {
      var rest := branches[1..];
      FirstEntryCounts(rest, num);
      if DirOf(rest, num).Some? {
        var i :| FirstEntry(rest, num, i) && DirOf(rest, num) == Some(rest[i].dir);
        assert FirstEntry(branches, num, i + 1);
      }
    }
  }

  function SetDir(branches: seq<BranchState>, id: int, dir: BranchDir): seq<BranchState> {
    if branches == [] then []
    else if branches[0].no == id then [branches[0].(dir := dir)] + branches[1..]
    else [branches[0]] + SetDir(branches[1..], id, dir)
  }

  /** Setting a switch that has an entry sets that switch and no other. */
  lemma {:induction false} SetDirOne(branches: seq<BranchState>, id: int, dir: BranchDir, num: int)
    requires DirOf(branches, id).Some?
    ensures DirOf(SetDir(branches, id, dir), num) == if num == id then Some(dir) else DirOf(branches, num)
    ensures |SetDir(branches, id, dir)| == |branches|
  {
    if branches[0].no != id {
      SetDirOne(branches[1..], id, dir, num);
      assert SetDir(branches, id, dir)[1..] == SetDir(branches[1..], id, dir);
    } else {
      assert SetDir(branches, id, dir)[1..] == branches[1..];
    }
  }

  lemma NothingSet(id: int, dir: BranchDir)
    ensures DirOf([], id) == None && SetDir([], id, dir) == []
  {
  }

  /** Looking at entry i of the table on the way to the first one for `id`. */
  lemma ScanStep(table: seq<BranchState>, i: nat, id: int, dir: BranchDir)
    requires i < |table|
    ensures if table[i].no == id then
              && DirOf(table[i..], id).Some?
              && table[..i] + SetDir(table[i..], id, dir) == table[i := table[i].(dir := dir)]
            else
              && DirOf(table[i..], id) == DirOf(table[i + 1..], id)
              && table[..i] + SetDir(table[i..], id, dir) == table[..i + 1] + SetDir(table[i + 1..], id, dir)
  {
    assert table[i..][0] == table[i] && table[i..][1..] == table[i + 1..];
  }

  /** branch_dir(): no result is its panic. */
  method FindBranchDir(branches: array<BranchState>, num: int) returns (r: Option<BranchDir>)
    ensures r == DirOf(branches[..], num)
  {
    var i := 0;
    while i < branches.Length
      invariant i <= branches.Length && DirOf(branches[..], num) == DirOf(branches[i..], num)
    {
      assert branches[i..][0] == branches[i] && branches[i..][1..] == branches[i + 1..];
      if branches[i].no == num { return Some(branches[i].dir); }
      i := i + 1;
    }
    return None;
  }

  /** Every branch node has an entry in the switch table. */
  ghost predicate SwitchesOk(g: Track, branches: seq<BranchState>) {
    forall n :: 0 <= n < |g| && g[n].kind == NODE_BRANCH ==> DirOf(branches, g[n].num).Some?
  }

  // ---------------------------------------------------------------------------------------------
  // Following the switches.

  function NextEdge(g: Track, branches: seq<BranchState>, n: nat): Option<Edge>
    requires n < |g| && SwitchesOk(g, branches)
  {
    match g[n].kind
    case NODE_NONE => None
    case NODE_EXIT => None
    case NODE_BRANCH => if DirOf(branches, g[n].num).value == Straight then Some(g[n].ahead) else Some(g[n].curved)
    case _ => Some(g[n].ahead)
  }

  method FindNextEdge(g: Track, branches: array<BranchState>, n: nat) returns (r: Option<Edge>)
    requires n < |g| && SwitchesOk(g, branches[..])
    ensures r == NextEdge(g, branches[..], n)
  {
    match g[n].kind {
      case NODE_NONE => return None;
      case NODE_EXIT => return None;
      case NODE_BRANCH =>
        var dir := FindBranchDir(branches, g[n].num);
        return match dir.value case Straight => Some(g[n].ahead) case Curved => Some(g[n].curved);
      case _ => return Some(g[n].ahead);
    }
  }

  predicate LeadsTo(g: Track, branches: seq<BranchState>, a: nat, b: nat)
    requires SwitchesOk(g, branches)
  {
    a < |g| && NextEdge(g, branches, a).Some? && NextEdge(g, branches, a).value.dest == b
  }

  ghost predicate LeadsAt(g: Track, branches: seq<BranchState>, p: seq<nat>, i: int)
    requires SwitchesOk(g, branches)
  {
    0 <= i < |p| - 1 ==> LeadsTo(g, branches, p[i], p[i + 1])
  }

  /** A train that starts at p[0] passes the nodes of p, in order. */
  ghost predicate Follows(g: Track, branches: seq<BranchState>, p: seq<nat>)
    requires SwitchesOk(g, branches)
  {
    |p| > 0 && p[0] < |g| && forall i :: LeadsAt(g, branches, p, i)
  }

  /** The switches lead on along the straight edge of a branch whose first entry says so, along its curved edge
      if that says so, along the only edge of other nodes, and nowhere from the end of the track. */
  lemma LeadsByTheSwitches(g: Track, branches: seq<BranchState>, a: nat, b: nat)
    requires SwitchesOk(g, branches) && a < |g|
    ensures LeadsTo(g, branches, a, b) <==>
              && g[a].kind != NODE_NONE && g[a].kind != NODE_EXIT
              && if g[a].kind == NODE_BRANCH then
                   exists i :: FirstEntry(branches, g[a].num, i) &&
                     b == (if branches[i].dir == Straight then g[a].ahead.dest else g[a].curved.dest)
                 else b == g[a].ahead.dest
  {
    if g[a].kind == NODE_BRANCH {
      FirstEntryCounts(branches, g[a].num);
      var i :| FirstEntry(branches, g[a].num, i) && DirOf(branches, g[a].num) == Some(branches[i].dir);
      forall j | FirstEntry(branches, g[a].num, j) ensures j == i {}
    }
  }

  lemma LeadingJoins(g: Track, branches: seq<BranchState>, a: nat, b: nat)
    requires EdgesOk(g) && ArmsOk(g) && SwitchesOk(g, branches) && LeadsTo(g, branches, a, b)
    ensures Joined(g, a, b) && NextEdge(g, branches, a).value.dist == Hop(g, a, b)
  {
    assert Out(g[a], 0) == g[a].ahead && Out(g[a], 1) == g[a].curved;
    assert NextEdge(g, branches, a).value == Out(g[a], if NextEdge(g, branches, a).value == g[a].ahead then 0 else 1);
  }

  // ---------------------------------------------------------------------------------------------
  // distance_between.

  /** The walk of distance_between from `curr`, after i edges of total length `distance`. */
  function MeasureFrom(g: Track, branches: seq<BranchState>, start: nat, curr: nat, end: nat, i: nat,
                       distance: int): Option<int>
    requires EdgesOk(g) && SwitchesOk(g, branches) && curr < |g|
    decreases MAX_ITERS + 1 - i
  {
    if curr == end then Some(distance)
    else if i > MAX_ITERS then None
    else match NextEdge(g, branches, curr)
      case None => None
      case Some(edge) =>
        NextInTrack(g, branches, curr);
        if edge.dest == start then None
        else MeasureFrom(g, branches, start, edge.dest, end, i + 1, distance + edge.dist)
  }

  lemma NextInTrack(g: Track, branches: seq<BranchState>, n: nat)
    requires EdgesOk(g) && SwitchesOk(g, branches) && n < |g| && NextEdge(g, branches, n).Some?
    ensures NextEdge(g, branches, n).value.dest < |g| && 0 <= NextEdge(g, branches, n).value.dist <= MAX_EDGE
  {
    assert Out(g[n], 0) == g[n].ahead && Out(g[n], 1) == g[n].curved;
  }

  function Measured(g: Track, branches: seq<BranchState>, start: nat, end: nat): Option<int>
    requires EdgesOk(g) && SwitchesOk(g, branches) && start < |g|
  {
    if start == end then Some(0) else MeasureFrom(g, branches, start, start, end, 0, 0)
  }

  /** Along a simple path that the switches follow, distance_between measures the path's length if it
      has at most 41 edges, and gives up otherwise. */
  lemma {:induction false} MeasureAlong(g: Track, branches: seq<BranchState>, p: seq<nat>, i: nat)
    requires EdgesOk(g) && ArmsOk(g) && SwitchesOk(g, branches) && Follows(g, branches, p) && Distinct(p) && i < |p|
    requires i <= MAX_ITERS + 1
    ensures p[i] < |g|
    ensures MeasureFrom(g, branches, p[0], p[i], Last(p), i, Length(g, p[..i + 1]))
         == if |p| - 1 <= MAX_ITERS + 1 then Some(Length(g, p)) else None
    decreases |p| - i
  {
    assert LeadsAt(g, branches, p, i - 1);
    if i > 0 { NextInTrack(g, branches, p[i - 1]); }
    if i == |p| - 1 {
      assert p[..i + 1] == p;
    } else if i <= MAX_ITERS {
      assert LeadsAt(g, branches, p, i);
      LeadingJoins(g, branches, p[i], p[i + 1]);
      assert p[..i + 2][..i + 1] == p[..i + 1];
      MeasureAlong(g, branches, p, i + 1);
    }
  }

  /** A train at `start` passes, under the switches, distinct nodes of p up to `end` over d millimetres, in at
      most 41 edges. */
  ghost predicate LeadsBetween(g: Track, branches: seq<BranchState>, p: seq<nat>, start: nat, end: nat, d: int)
    requires SwitchesOk(g, branches)
  {
    Follows(g, branches, p) && Distinct(p) && p[0] == start && Last(p) == end && |p| <= 42 && Length(g, p) == d
  }

  /** The distance along which the switches lead from start to end, if they do. */
  ghost predicate LedDistance(g: Track, branches: seq<BranchState>, start: nat, end: nat, d: int)
    requires SwitchesOk(g, branches)
  {
    exists p :: LeadsBetween(g, branches, p, start, end, d)
  }

  /** Where the switches lead is determined: a way that comes twice to a node comes twice to its end. */
  lemma {:induction false} SameWayOn(g: Track, branches: seq<BranchState>, p: seq<nat>, i: nat, j: nat)
    requires SwitchesOk(g, branches) && Follows(g, branches, p) && i < j < |p| && p[i] == p[j]
    ensures Last(p) in p[..|p| - 1]
    decreases |p| - j
  {
    if j == |p| - 1 {
      assert p[..|p| - 1][i] == Last(p);
    } else {
      assert LeadsAt(g, branches, p, i) && LeadsAt(g, branches, p, j);
      SameWayOn(g, branches, p, i + 1, j + 1);
    }
  }

  /** A measured way: distance_between has walked p and goes on to `end`. */
  lemma {:induction false} MeasuredWay(g: Track, branches: seq<BranchState>, p: seq<nat>, end: nat)
    returns (q: seq<nat>)
    requires EdgesOk(g) && ArmsOk(g) && SwitchesOk(g, branches) && Follows(g, branches, p) && Last(p) < |g|
    requires |p| <= MAX_ITERS + 2 && end !in p[..|p| - 1]
    requires MeasureFrom(g, branches, p[0], Last(p), end, |p| - 1, Length(g, p)).Some?
    ensures Follows(g, branches, q) && q[0] == p[0] && Last(q) == end && end !in q[..|q| - 1] && |q| <= MAX_ITERS + 2
    ensures MeasureFrom(g, branches, p[0], Last(p), end, |p| - 1, Length(g, p)) == Some(Length(g, q))
    decreases MAX_ITERS + 2 - |p|
  {
    if Last(p) == end {
      q := p;
    } else {
      var e := NextEdge(g, branches, Last(p)).value;
      NextInTrack(g, branches, Last(p));
      LeadingJoins(g, branches, Last(p), e.dest);
      var p' := p + [e.dest];
      assert p'[..|p|] == p && p == p[..|p| - 1] + [Last(p)];
      forall i ensures LeadsAt(g, branches, p', i) { assert LeadsAt(g, branches, p, i); }
      q := MeasuredWay(g, branches, p', end);
    }
  }

  /** distance_between finds a distance exactly if the switches lead to the end in at most 41 edges without
      passing a node twice, and it is the length of that way: none at a dead end, back at the start, in a cycle,
      or farther off. */
  lemma MeasuredIff(g: Track, branches: seq<BranchState>, start: nat, end: nat, d: int)
    requires EdgesOk(g) && ArmsOk(g) && SwitchesOk(g, branches) && start < |g|
    ensures Measured(g, branches, start, end) == Some(d) <==> LedDistance(g, branches, start, end, d)
  {
    var one := [start];
    assert Follows(g, branches, one) by { forall i ensures LeadsAt(g, branches, one, i) {} }
    assert Measured(g, branches, start, end) == MeasureFrom(g, branches, start, start, end, 0, 0);
    if Measured(g, branches, start, end) == Some(d) {
      var q := MeasuredWay(g, branches, one, end);
      forall i, j | 0 <= i < j < |q| ensures q[i] != q[j] {
        if q[i] == q[j] { SameWayOn(g, branches, q, i, j); }
      }
      assert LeadsBetween(g, branches, q, start, end, d);
    }
    forall p | LeadsBetween(g, branches, p, start, end, d) ensures Measured(g, branches, start, end) == Some(d) {
      MeasureAlong(g, branches, p, 0);
      assert p[..1] == one;
    }
  }

  datatype Distance = UnknownSensors | Unreached | Reached(mm: int)

  /** UnknownSensors is a failed assertion. */
  method DistanceBetween(g: Track, oldSensor: Sensor, newSensor: Sensor, branches: array<BranchState>)
    returns (r: Distance)
    requires EdgesOk(g) && SwitchesOk(g, branches[..])
    ensures var s, e := NodeOf(g, oldSensor), NodeOf(g, newSensor);
            if s.None? || e.None? then r == UnknownSensors
            else r == match Measured(g, branches[..], s.value, e.value)
                      case None => Unreached
                      case Some(d) => Reached(d)
    ensures !r.UnknownSensors? && ArmsOk(g) ==>
              forall d :: r == Reached(d) <==>
                LedDistance(g, branches[..], NodeOf(g, oldSensor).value, NodeOf(g, newSensor).value, d)
  {
    hide LedDistance;
    var s := FindSensor(g, oldSensor);
    var e := FindSensor(g, newSensor);
    if !s.Some? || !e.Some? { return UnknownSensors; }
    var start, end := s.value, e.value;
    forall d | ArmsOk(g)
      ensures Measured(g, branches[..], start, end) == Some(d) <==> LedDistance(g, branches[..], start, end, d)
    {
      MeasuredIff(g, branches[..], start, end, d);
    }
    if start == end { return Reached(0); }
    var distance := 0;
    var curr: nat := start;
    var i: nat := 0;
    while curr != end
      invariant curr < |g|
      invariant MeasureFrom(g, branches[..], start, curr, end, i, distance) == Measured(g, branches[..], start, end)
      decreases MAX_ITERS + 1 - i
    {
      if i > MAX_ITERS { return Unreached; }
      var edge := FindNextEdge(g, branches, curr);
      if !edge.Some? { return Unreached; }
      NextInTrack(g, branches[..], curr);
      curr := edge.value.dest;
      distance := distance + edge.value.dist;
      if curr == start { return Unreached; }
      i := i + 1;
    }
    return Reached(distance);
  }

  // ---------------------------------------------------------------------------------------------
  // Setting the switches along a path.

  class TrackOracle {
    const branches: array<BranchState>

    constructor (table: seq<BranchState>)
      ensures fresh(branches) && branches[..] == table
    {
      branches := new BranchState[|table|](i requires 0 <= i < |table| => table[i]);
      new;
      assert branches[..] == table;
    }

    /** False is the panic for a switch without an entry. */
    method SetBranchDir(id: int, dir: BranchDir) returns (ok: bool)
      modifies branches
      ensures ok <==> DirOf(old(branches[..]), id).Some?
      ensures branches[..] == SetDir(old(branches[..]), id, dir)
    {
      hide DirOf, SetDir;
      ghost var table := branches[..];
      NothingSet(id, dir);
      var i := 0;
      while i < branches.Length
        invariant i <= branches.Length && branches[..] == table
        invariant DirOf(table, id) == DirOf(table[i..], id)
        invariant SetDir(table, id, dir) == table[..i] + SetDir(table[i..], id, dir)
      {
        ScanStep(table, i, id, dir);
        if branches[i].no == id {
          branches[i] := branches[i].(dir := dir);
          assert branches[..] == table[i := table[i].(dir := dir)];
          return true;
        }
        i := i + 1;
      }
      assert table[i..] == [] && table[..i] == table;
      return false;
    }

    /** Sets the switch at path[i], if there is one; false is one of the loop's panics. */
    method SetSwitchAt(g: Track, path: seq<nat>, i: nat, dryRun: bool) returns (ok: bool)
      requires i < |path| && forall k :: 0 <= k < |path| ==> path[k] < |g|
      modifies branches
      ensures dryRun || g[path[i]].kind != NODE_BRANCH ==> branches[..] == old(branches[..])
      ensures ok <==>
        match g[path[i]].kind
        case NODE_SENSOR => true
        case NODE_MERGE => true
        case NODE_BRANCH => i + 1 < |path| && Joined(g, path[i], path[i + 1])
                            && (dryRun || DirOf(old(branches[..]), g[path[i]].num).Some?)
        case _ => false
      ensures ok && !dryRun && g[path[i]].kind == NODE_BRANCH ==>
        branches[..] == SetDir(old(branches[..]), g[path[i]].num, Toward(g, path[i], path[i + 1]))
    {
      var n := g[path[i]];
      match n.kind {
        case NODE_SENSOR => return true;
        case NODE_MERGE => return true;
        case NODE_BRANCH =>
          if i + 1 >= |path| { return false; }
          var dir: BranchDir;
          if n.ahead.dest == path[i + 1] {
            dir := Straight;
          } else if n.curved.dest == path[i + 1] {
            dir := Curved;
          } else {
            return false;
          }
          if dryRun { return true; }
          ok := SetBranchDir(n.num, dir);
        case _ => return false;
      }
    }

    /** The switch-setting loop of do_route_cmd along a shortest path. Its panics are out of reach, and
        the switches then lead along the path. */
    method SetSwitches(g: Track, path: seq<nat>, dryRun: bool, ghost start: nat, ghost end: nat, ghost d: int)
      returns (ok: bool)
      requires TrackOk(g) && SwitchesOk(g, branches[..])
      requires IsShortestPath(g, path, start, end, d) && g[start].kind == NODE_SENSOR && g[end].kind == NODE_SENSOR
      modifies branches
      ensures ok && SwitchesOk(g, branches[..])
      ensures dryRun ==> branches[..] == old(branches[..])
      ensures !dryRun ==> Follows(g, branches[..], path)
    {
      PathNodes(g, path, start, end, d);
      var i := 0;
      while i < |path|
        invariant i <= |path| && SwitchesOk(g, branches[..])
        invariant dryRun ==> branches[..] == old(branches[..])
        invariant !dryRun ==> forall k :: 0 <= k < i ==> LeadsAt(g, branches[..], path, k)
      {
        ghost var before := branches[..];
        assert JoinedAt(g, path, i);
        ok := SetSwitchAt(g, path, i, dryRun);
        assert ok;
        SwitchTurned(g, path, i, before, branches[..], dryRun);
        i := i + 1;
      }
      if !dryRun { forall k ensures LeadsAt(g, branches[..], path, k) {} }
      return true;
    }

    /** The route command from a known position to a sensor: search, then set the switches. */
    method Route(g: Track, from: Sensor, to: Sensor, path: array<nat>, dryRun: bool) returns (r: PathResult)
      requires TrackOk(g) && SwitchesOk(g, branches[..]) && path as object != branches
      modifies branches, path
      ensures SwitchesOk(g, branches[..])
      ensures dryRun || !r.Found? ==> branches[..] == old(branches[..])
      ensures r.UnknownSensor? <==> NodeOf(g, from).None? || NodeOf(g, to).None?
      ensures !r.UnknownSensor? ==>
        var start, end := NodeOf(g, from).value, NodeOf(g, to).value;
        && (r.SameSensor? <==> start == end)
        && (r.NoPath? <==> !Reachable(g, start, end))
        && (r.PathTooLong? <==> start != end && |FoundPath(g, start, end)| > path.Length)
      ensures r.Found? ==>
        var start, end := NodeOf(g, from).value, NodeOf(g, to).value;
        && r.len <= path.Length && IsShortestPath(g, path[..r.len], start, end, r.distance)
        && (!dryRun ==> Follows(g, branches[..], path[..r.len]))
        && (!dryRun ==> Measured(g, branches[..], start, end) ==
                          if r.len - 1 <= MAX_ITERS + 1 then Some(r.distance) else None)
    {
      r := ShortestPath(g, from, to, path);
      if r.Found? {
        ghost var start, end := NodeOf(g, from).value, NodeOf(g, to).value;
        ghost var p := path[..r.len];
        var ok := SetSwitches(g, path[..r.len], dryRun, start, end, r.distance);
        assert path[..r.len] == p;
        if !dryRun { RoutedDistance(g, branches[..], p, start, end, r.distance); }
      }
    }
  }

  /** What the switch-setting loop relies on. */
  ghost predicate TrackOk(g: Track) {
    && EdgesOk(g) && ArmsOk(g) && NumbersOk(g)
    && (forall a: nat, b: nat :: Joined(g, a, b) ==> g[b].kind != NODE_ENTER)
  }

  function Toward(g: Track, a: nat, b: nat): BranchDir
    requires a < |g|
  {
    if g[a].ahead.dest == b then Straight else Curved
  }

  /** A path between sensors passes sensors, branches and merges only, and each branch once. */
  lemma PathNodes(g: Track, path: seq<nat>, start: nat, end: nat, d: int)
    requires TrackOk(g) && IsShortestPath(g, path, start, end, d)
    requires g[start].kind == NODE_SENSOR && g[end].kind == NODE_SENSOR
    ensures forall i :: 0 <= i < |path| ==> path[i] < |g| && g[path[i]].kind in {NODE_SENSOR, NODE_BRANCH, NODE_MERGE}
    ensures g[path[|path| - 1]].kind == NODE_SENSOR
    ensures forall i, j :: 0 <= i < j < |path| && g[path[i]].kind == NODE_BRANCH && g[path[j]].kind == NODE_BRANCH ==>
              g[path[i]].num != g[path[j]].num
  {
    forall i | 0 <= i < |path| ensures path[i] < |g| && g[path[i]].kind in {NODE_SENSOR, NODE_BRANCH, NODE_MERGE} {
      assert Open(g, path[i]);
      if i > 0 { assert JoinedAt(g, path, i - 1); }
    }
    forall i, j | 0 <= i < j < |path| && g[path[i]].kind == NODE_BRANCH && g[path[j]].kind == NODE_BRANCH
      ensures g[path[i]].num != g[path[j]].num {
      assert path[i] != path[j] && !SameName(g[path[i]], g[path[j]], NODE_BRANCH);
    }
  }

  /** Setting the switch at path[i] makes it lead on along the path and leaves the earlier ones. */
  lemma SwitchTurned(g: Track, path: seq<nat>, i: nat, before: seq<BranchState>, after: seq<BranchState>, dryRun: bool)
    requires ArmsOk(g) && SwitchesOk(g, before) && i < |path| && (forall k :: 0 <= k < |path| ==> path[k] < |g|)
    requires i + 1 < |path| ==> Joined(g, path[i], path[i + 1])
    requires g[path[i]].kind == NODE_BRANCH ==> i + 1 < |path|
    requires forall k :: 0 <= k < i && g[path[k]].kind == NODE_BRANCH && g[path[i]].kind == NODE_BRANCH ==>
               g[path[k]].num != g[path[i]].num
    requires dryRun || g[path[i]].kind != NODE_BRANCH ==> after == before
    requires !dryRun && g[path[i]].kind == NODE_BRANCH ==>
               after == SetDir(before, g[path[i]].num, Toward(g, path[i], path[i + 1]))
    ensures SwitchesOk(g, after)
    ensures !dryRun && (forall k :: 0 <= k < i ==> LeadsAt(g, before, path, k)) ==>
              forall k :: 0 <= k <= i ==> LeadsAt(g, after, path, k)
  {
    if !dryRun && g[path[i]].kind == NODE_BRANCH {
      var num, dir := g[path[i]].num, Toward(g, path[i], path[i + 1]);
      forall n | 0 <= n < |g| && g[n].kind == NODE_BRANCH
        ensures DirOf(after, g[n].num) == if g[n].num == num then Some(dir) else DirOf(before, g[n].num) {
        SetDirOne(before, num, dir, g[n].num);
      }
      if forall k :: 0 <= k < i ==> LeadsAt(g, before, path, k) {
        forall k | 0 <= k <= i ensures LeadsAt(g, after, path, k) {
          assert k < i ==> LeadsAt(g, before, path, k);
        }
      }
    }
  }

  /** Once the switches follow a shortest path, distance_between finds the distance that the search
      found - as long as the path has at most 41 edges. */
  lemma RoutedDistance(g: Track, branches: seq<BranchState>, p: seq<nat>, start: nat, end: nat, d: int)
    requires TrackOk(g) && SwitchesOk(g, branches) && IsShortestPath(g, p, start, end, d) && Follows(g, branches, p)
    ensures start < |g|
    ensures Measured(g, branches, start, end) == if |p| - 1 <= MAX_ITERS + 1 then Some(d) else None
  {
    MeasureAlong(g, branches, p, 0);
    assert p[..1] == [start];
  }
}
