/** TrackGraph::shortest_path: Dijkstra's algorithm and the extraction of the path. */
module Dijkstra {
  import opened Options
  import opened Integers
  import opened Sequences
  import opened Tracks

  // ---------------------------------------------------------------------------------------------
  // The invariant of the search.

  /** The local arrays, and the order in which nodes have been visited: `rank` numbers the visited
      nodes, and is TRACK_MAX for the others. */
  datatype Search = Search(
    dist: seq<int>,
    prev: seq<Option<nat>>,
    visited: seq<bool>,
    rank: seq<nat>,
    order: seq<nat>)

  ghost predicate SizesOk(s: Search) {
    && |s.dist| == |s.prev| == |s.visited| == |s.rank| == TRACK_MAX
    && |s.order| <= TRACK_MAX
  }

  /** The visiting order lists the visited nodes, each at its rank. */
  ghost predicate OrderOk(s: Search)
    requires SizesOk(s)
  {
    && (forall v :: 0 <= v < TRACK_MAX ==>
          if s.visited[v] then s.rank[v] < |s.order| && s.order[s.rank[v]] == v else s.rank[v] == TRACK_MAX)
    && (forall i :: 0 <= i < |s.order| ==> s.order[i] < TRACK_MAX && s.visited[s.order[i]] && s.rank[s.order[i]] == i)
  }

  predicate Open(g: Track, v: nat) {
    v < |g| && g[v].kind != NODE_NONE && g[v].kind != NODE_EXIT
  }

  /** Every finite label comes from a visited predecessor, along an edge. */
  ghost predicate LabelOk(g: Track, start: nat, s: Search, v: nat)
    requires SizesOk(s) && v < TRACK_MAX
  {
    if v == start then s.dist[v] == 0 && s.prev[v] == None
    else if s.dist[v] >= INT_MAX then s.dist[v] == INT_MAX && s.prev[v] == None
    else
      && s.prev[v].Some? && s.prev[v].value < TRACK_MAX && s.visited[s.prev[v].value]
      && s.rank[s.prev[v].value] < s.rank[v]
      && Joined(g, s.prev[v].value, v)
      && s.dist[v] == s.dist[s.prev[v].value] + Hop(g, s.prev[v].value, v)
  }

  ghost predicate LabelsOk(g: Track, start: nat, s: Search)
    requires SizesOk(s)
  {
    forall v :: 0 <= v < TRACK_MAX ==> LabelOk(g, start, s, v)
  }

  ghost predicate Bounded(s: Search)
    requires SizesOk(s)
  {
    forall v :: 0 <= v < TRACK_MAX ==>
      && 0 <= s.dist[v]
      && (s.visited[v] ==> s.dist[v] <= s.rank[v] * MAX_EDGE)
      && (s.dist[v] < INT_MAX ==> s.dist[v] <= |s.order| * MAX_EDGE)
  }

  ghost predicate RelaxedAt(g: Track, s: Search, u: nat, i: nat)
    requires SizesOk(s) && u < TRACK_MAX
  {
    Out(g[u], i).dest < TRACK_MAX && s.dist[Out(g[u], i).dest] <= s.dist[u] + Out(g[u], i).dist
  }

  /** All edges out of visited nodes are relaxed, but for those of `curr` from number k on. */
  ghost predicate RelaxedBut(g: Track, s: Search, curr: nat, k: nat)
    requires SizesOk(s)
  {
    forall u, i :: 0 <= u < TRACK_MAX && s.visited[u] && 0 <= i < NumEdges(g[u]) && (u == curr ==> i < k) ==>
      RelaxedAt(g, s, u, i)
  }

  /** Visited nodes are open, finite, and no further away than unvisited open ones. */
  ghost predicate Settled(g: Track, s: Search)
    requires SizesOk(s)
  {
    && (forall u :: 0 <= u < TRACK_MAX && s.visited[u] ==> Open(g, u) && s.dist[u] < INT_MAX)
    && (forall u, v :: 0 <= u < TRACK_MAX && 0 <= v < TRACK_MAX && s.visited[u] && !s.visited[v] && Open(g, v) ==>
          s.dist[u] <= s.dist[v])
  }

  ghost predicate SearchOk(g: Track, start: nat, s: Search, curr: nat, k: nat) {
    && SizesOk(s) && start < TRACK_MAX && Open(g, start)
    && OrderOk(s) && LabelsOk(g, start, s) && Bounded(s) && RelaxedBut(g, s, curr, k) && Settled(g, s)
    && (s.visited[start] || (s.order == [] && forall v :: 0 <= v < TRACK_MAX && v != start ==> s.dist[v] == INT_MAX))
  }

  const NOWHERE: nat := TRACK_MAX

  lemma OrderShort(s: Search)
    requires SizesOk(s) && OrderOk(s)
    ensures Distinct(s.order)
    ensures (exists v :: 0 <= v < TRACK_MAX && !s.visited[v]) ==> |s.order| < TRACK_MAX
  {
    if v :| 0 <= v < TRACK_MAX && !s.visited[v] {
      assert v !in s.order;
      forall x | x in s.order + [v] ensures x < TRACK_MAX {}
      Pigeonhole(s.order + [v], TRACK_MAX);
    }
  }

  // ---------------------------------------------------------------------------------------------
  // Steps.

  /** The unvisited, open node with the least finite label, if there is one. */
  ghost predicate Nearest(g: Track, s: Search, r: Option<nat>)
    requires SizesOk(s)
  {
    match r
    case None => forall v :: 0 <= v < TRACK_MAX && !s.visited[v] && Open(g, v) ==> s.dist[v] >= INT_MAX
    case Some(c) =>
      && c < TRACK_MAX && !s.visited[c] && Open(g, c) && s.dist[c] < INT_MAX
      && (forall v :: 0 <= v < TRACK_MAX && !s.visited[v] && Open(g, v) ==> s.dist[c] <= s.dist[v])
  }

  ghost function Visit(s: Search, c: nat): Search
    requires SizesOk(s) && c < TRACK_MAX && |s.order| < TRACK_MAX
  {
    s.(visited := s.visited[c := true], rank := s.rank[c := |s.order|], order := s.order + [c])
  }

  lemma VisitLabels(g: Track, start: nat, s: Search, c: nat)
    requires SizesOk(s) && OrderOk(s) && LabelsOk(g, start, s) && c < TRACK_MAX && !s.visited[c]
    requires |s.order| < TRACK_MAX
    ensures LabelsOk(g, start, Visit(s, c))
  {
    hide Joined, Hop;
    var t := Visit(s, c);
    forall v | 0 <= v < TRACK_MAX ensures LabelOk(g, start, t, v) { assert LabelOk(g, start, s, v); }
  }

  lemma VisitRelaxed(g: Track, s: Search, c: nat)
    requires SizesOk(s) && RelaxedBut(g, s, NOWHERE, 0) && c < TRACK_MAX && |s.order| < TRACK_MAX
    ensures RelaxedBut(g, Visit(s, c), c, 0)
  {
    var t := Visit(s, c);
    forall u, i | 0 <= u < TRACK_MAX && t.visited[u] && 0 <= i < NumEdges(g[u]) && (u == c ==> i < 0)
      ensures RelaxedAt(g, t, u, i) {
      assert RelaxedAt(g, s, u, i);
    }
  }

  lemma VisitOk(g: Track, start: nat, s: Search, c: nat)
    requires EdgesOk(g) && SearchOk(g, start, s, NOWHERE, 0) && Nearest(g, s, Some(c))
    ensures |s.order| < TRACK_MAX && SearchOk(g, start, Visit(s, c), c, 0)
  {
    OrderShort(s);
    VisitLabels(g, start, s, c);
    VisitRelaxed(g, s, c);
    assert s.visited[start] || c == start by {
      assert LabelOk(g, start, s, start);
    }
    hide LabelsOk, RelaxedBut, EdgesOk;
  }

  /** The body of the loop over the edges of c. */
  ghost function Relax(g: Track, s: Search, c: nat, i: nat): Search
    requires SizesOk(s) && c < TRACK_MAX && Out(g[c], i).dest < TRACK_MAX
  {
    var next := Out(g[c], i).dest;
    var alt := s.dist[c] + Out(g[c], i).dist;
    if s.visited[next] || alt >= s.dist[next] then s
    else s.(dist := s.dist[next := alt], prev := s.prev[next := Some(c)])
  }

  /** c has just been visited, and lies no nearer than the other visited nodes. */
  ghost predicate JustVisited(g: Track, start: nat, s: Search, c: nat, i: nat) {
    && SearchOk(g, start, s, c, i) && c < TRACK_MAX && s.visited[c] && i < NumEdges(g[c])
    && s.rank[c] == |s.order| - 1
    && (forall u :: 0 <= u < TRACK_MAX && s.visited[u] ==> s.dist[u] <= s.dist[c])
  }

  lemma EdgeFits(g: Track, start: nat, s: Search, c: nat, i: nat)
    requires EdgesOk(g) && ArmsOk(g) && JustVisited(g, start, s, c, i)
    ensures var e := Out(g[c], i);
            && e.dest < TRACK_MAX && g[e.dest].kind != NODE_NONE && 0 <= e.dist <= MAX_EDGE
            && Joined(g, c, e.dest) && Hop(g, c, e.dest) == e.dist
            && s.dist[c] + e.dist <= |s.order| * MAX_EDGE < INT_MAX
  {
    assert s.dist[c] <= s.rank[c] * MAX_EDGE;
  }

  lemma RelaxLabels(g: Track, start: nat, s: Search, c: nat, i: nat)
    requires EdgesOk(g) && ArmsOk(g) && JustVisited(g, start, s, c, i)
    ensures Out(g[c], i).dest < TRACK_MAX && LabelsOk(g, start, Relax(g, s, c, i)) && Bounded(Relax(g, s, c, i))
  {
    EdgeFits(g, start, s, c, i);
    var t := Relax(g, s, c, i);
    forall v | 0 <= v < TRACK_MAX ensures LabelOk(g, start, t, v) { assert LabelOk(g, start, s, v); }
  }

  lemma RelaxRelaxed(g: Track, start: nat, s: Search, c: nat, i: nat)
    requires EdgesOk(g) && ArmsOk(g) && JustVisited(g, start, s, c, i)
    ensures Out(g[c], i).dest < TRACK_MAX && RelaxedBut(g, Relax(g, s, c, i), c, i + 1)
  {
    EdgeFits(g, start, s, c, i);
    var t := Relax(g, s, c, i);
    forall u, j | 0 <= u < TRACK_MAX && t.visited[u] && 0 <= j < NumEdges(g[u]) && (u == c ==> j < i + 1)
      ensures RelaxedAt(g, t, u, j) {
      assert u != c || j < i ==> RelaxedAt(g, s, u, j);
    }
  }

  lemma RelaxOk(g: Track, start: nat, s: Search, c: nat, i: nat)
    requires EdgesOk(g) && ArmsOk(g) && JustVisited(g, start, s, c, i)
    ensures Out(g[c], i).dest < TRACK_MAX && SearchOk(g, start, Relax(g, s, c, i), c, i + 1)
    ensures forall u :: 0 <= u < TRACK_MAX && s.visited[u] ==> Relax(g, s, c, i).dist[u] <= Relax(g, s, c, i).dist[c]
  {
    EdgeFits(g, start, s, c, i);
    RelaxLabels(g, start, s, c, i);
    RelaxRelaxed(g, start, s, c, i);
  }

  lemma AllRelaxed(g: Track, start: nat, s: Search, c: nat)
    requires c < TRACK_MAX && SearchOk(g, start, s, c, NumEdges(g[c]))
    ensures SearchOk(g, start, s, NOWHERE, 0)
  {
  }

  // ---------------------------------------------------------------------------------------------
  // Why the labels are shortest distances.

  /** Following an edge out of a visited node. */
  lemma OneFurther(g: Track, start: nat, s: Search, u: nat, v: nat)
    requires EdgesOk(g) && SearchOk(g, start, s, NOWHERE, 0) && Joined(g, u, v) && s.visited[u]
    ensures s.dist[v] <= s.dist[u] + Hop(g, u, v) < INT_MAX
  {
    HopOk(g, u, v);
    var i := if g[u].ahead.dest == v then 0 else 1;
    assert RelaxedAt(g, s, u, i);
    assert s.dist[u] <= s.rank[u] * MAX_EDGE;
  }

  /** j is where the walk first meets an unvisited node, whose label is at most the length so far; or
      all its nodes are visited, and the last label is at most its length. */
  ghost predicate GapAt(g: Track, s: Search, p: seq<nat>, j: nat)
    requires SizesOk(s) && |p| > 0
  {
    && j <= |p| && (forall i :: 0 <= i < j ==> p[i] < TRACK_MAX && s.visited[p[i]])
    && (j < |p| ==> p[j] < TRACK_MAX && !s.visited[p[j]] && s.dist[p[j]] < INT_MAX
                    && s.dist[p[j]] <= Length(g, p[..j + 1]))
    && (j == |p| ==> Last(p) < TRACK_MAX && s.dist[Last(p)] <= Length(g, p))
  }

  lemma {:induction false} FirstGap(g: Track, start: nat, s: Search, p: seq<nat>) returns (j: nat)
    requires EdgesOk(g) && SearchOk(g, start, s, NOWHERE, 0) && IsWalk(g, p) && p[0] == start
    ensures GapAt(g, s, p, j)
    decreases |p|
  {
    if |p| == 1 {
      assert LabelOk(g, start, s, start);
      j := if s.visited[start] then 1 else 0;
      assert p[..1] == p;
    } else {
      var q := p[..|p| - 1];
      WalkPrefix(g, p, |p| - 1);
      j := FirstGap(g, start, s, q);
      hide SearchOk, EdgesOk, IsWalk, Length;
      GapBefore(g, start, s, p, j);
      if j == |q| && s.visited[Last(p)] { j := |p|; }
    }
  }

  lemma GapBefore(g: Track, start: nat, s: Search, p: seq<nat>, j: nat)
    requires EdgesOk(g) && SearchOk(g, start, s, NOWHERE, 0) && IsWalk(g, p) && |p| >= 2
    requires GapAt(g, s, p[..|p| - 1], j)
    ensures Last(p) < TRACK_MAX
    ensures GapAt(g, s, p, if j == |p| - 1 && s.visited[Last(p)] then |p| else j)
  {
    var q := p[..|p| - 1];
    assert JoinedAt(g, p, |p| - 2);
    if j < |q| {
      GapStays(g, s, p, j);
    } else {
      assert s.visited[q[|q| - 1]];
      OneFurther(g, start, s, Last(q), Last(p));
      GapCloses(g, s, p);
    }
  }

  lemma GapStays(g: Track, s: Search, p: seq<nat>, j: nat)
    requires SizesOk(s) && j < |p| - 1 && GapAt(g, s, p[..|p| - 1], j)
    ensures GapAt(g, s, p, j)
  {
    hide Length;
    assert p[..|p| - 1][..j + 1] == p[..j + 1];
  }

  lemma GapCloses(g: Track, s: Search, p: seq<nat>)
    requires SizesOk(s) && |p| >= 2 && GapAt(g, s, p[..|p| - 1], |p| - 1) && Last(p) < TRACK_MAX
    requires s.dist[Last(p)] <= s.dist[p[|p| - 2]] + Hop(g, p[|p| - 2], Last(p)) && s.dist[Last(p)] < INT_MAX
    ensures GapAt(g, s, p, if s.visited[Last(p)] then |p| else |p| - 1)
  {
    assert p[..|p|] == p;
    assert Length(g, p) == Length(g, p[..|p| - 1]) + Hop(g, p[|p| - 2], Last(p));
    hide Length, Hop;
  }

  /** What a walk to an unvisited end says of the nearest node. */
  lemma WalkMeetsNearest(g: Track, start: nat, s: Search, end: nat, r: Option<nat>, p: seq<nat>)
    requires EdgesOk(g) && SearchOk(g, start, s, NOWHERE, 0) && Nearest(g, s, r)
    requires end < TRACK_MAX && Open(g, end) && !s.visited[end] && WalkBetween(g, p, start, end)
    ensures r.Some? && s.dist[r.value] <= Length(g, p)
  {
    var j := FirstGap(g, start, s, p);
    assert !s.visited[p[|p| - 1]];
    if j < |p| - 1 {
      assert JoinedAt(g, p, j);
    }
    assert Open(g, p[j]);
    LengthGrows(g, p, j + 1);
  }

  // ---------------------------------------------------------------------------------------------
  // The path along `prev`.

  ghost function TreePath(g: Track, start: nat, s: Search, v: nat): (p: seq<nat>)
    requires SearchOk(g, start, s, NOWHERE, 0) && v < TRACK_MAX && s.dist[v] < INT_MAX
    ensures |p| > 0 && Last(p) == v && p[0] == start
    decreases s.rank[v]
  {
    assert LabelOk(g, start, s, v);
    if v == start then [v] else TreePath(g, start, s, s.prev[v].value) + [v]
  }

  /** The path's inner nodes are visited, in order of rank. */
  ghost predicate Ranked(s: Search, p: seq<nat>)
    requires SizesOk(s) && |p| > 0 && Last(p) < TRACK_MAX
  {
    && (forall i :: 0 <= i < |p| - 1 ==> p[i] < TRACK_MAX && s.visited[p[i]] && s.rank[p[i]] < s.rank[Last(p)])
    && Distinct(p)
  }

  lemma RankedExtend(s: Search, q: seq<nat>, v: nat)
    requires SizesOk(s) && v < TRACK_MAX && |q| > 0 && Last(q) < TRACK_MAX && Ranked(s, q)
    requires s.visited[Last(q)] && s.rank[Last(q)] < s.rank[v]
    ensures Ranked(s, q + [v])
  {
    var p := q + [v];
    forall i | 0 <= i < |p| - 1 ensures s.visited[p[i]] && s.rank[p[i]] < s.rank[v] {
      assert p[i] == q[i];
    }
  }

  lemma Predecessor(g: Track, start: nat, s: Search, v: nat) returns (u: nat)
    requires SearchOk(g, start, s, NOWHERE, 0) && v < TRACK_MAX && s.dist[v] < INT_MAX && v != start
    ensures s.prev[v] == Some(u) && u < TRACK_MAX && s.visited[u] && s.dist[u] < INT_MAX && s.rank[u] < s.rank[v]
    ensures Joined(g, u, v) && s.dist[v] == s.dist[u] + Hop(g, u, v)
    ensures TreePath(g, start, s, v) == TreePath(g, start, s, u) + [v]
  {
    assert LabelOk(g, start, s, v);
    u := s.prev[v].value;
  }

  lemma {:induction false} TreePathOk(g: Track, start: nat, s: Search, v: nat)
    requires SearchOk(g, start, s, NOWHERE, 0) && v < TRACK_MAX && s.dist[v] < INT_MAX
    ensures IsWalk(g, TreePath(g, start, s, v)) && Length(g, TreePath(g, start, s, v)) == s.dist[v]
    ensures Ranked(s, TreePath(g, start, s, v))
    decreases s.rank[v]
  {
    if v == start {
      assert LabelOk(g, start, s, v);
    } else {
      var u := Predecessor(g, start, s, v);
      TreePathOk(g, start, s, u);
      WalkExtend(g, TreePath(g, start, s, u), v);
      RankedExtend(s, TreePath(g, start, s, u), v);
    }
  }

  // ---------------------------------------------------------------------------------------------
  // The search as a whole.

  /** Among the first i nodes, the first of those with the least finite label. */
  ghost function Nearby(g: Track, s: Search, i: nat): (r: Option<nat>)
    requires SizesOk(s) && i <= TRACK_MAX
    ensures r.Some? ==> r.value < i && !s.visited[r.value] && Open(g, r.value) && s.dist[r.value] < INT_MAX
    ensures forall v :: 0 <= v < i && !s.visited[v] && Open(g, v) && s.dist[v] < INT_MAX ==>
              r.Some? && s.dist[r.value] <= s.dist[v]
  {
    if i == 0 then None
    else
      var r := Nearby(g, s, i - 1);
      var least := if r.Some? then s.dist[r.value] else INT_MAX;
      if !s.visited[i - 1] && s.dist[i - 1] < least && Open(g, i - 1) then Some(i - 1) else r
  }

  /** The state after visiting c and relaxing its first i edges. */
  ghost function Expand(g: Track, s: Search, c: nat, i: nat): (t: Search)
    requires EdgesOk(g) && SizesOk(s) && c < TRACK_MAX && |s.order| < TRACK_MAX && i <= NumEdges(g[c])
    ensures SizesOk(t) && t.order == s.order + [c] && t.visited == s.visited[c := true]
    decreases i
  {
    if i == 0 then Visit(s, c) else Relax(g, Expand(g, s, c, i - 1), c, i - 1)
  }

  lemma {:induction false} ExpandOk(g: Track, start: nat, s: Search, c: nat, i: nat)
    requires EdgesOk(g) && ArmsOk(g) && SearchOk(g, start, s, NOWHERE, 0) && Nearest(g, s, Some(c))
    requires i <= NumEdges(g[c])
    ensures |s.order| < TRACK_MAX && SearchOk(g, start, Expand(g, s, c, i), c, i)
    ensures i < NumEdges(g[c]) ==> JustVisited(g, start, Expand(g, s, c, i), c, i)
    ensures forall u :: 0 <= u < TRACK_MAX && Expand(g, s, c, i).visited[u] ==>
              Expand(g, s, c, i).dist[u] <= Expand(g, s, c, i).dist[c]
    decreases i
  {
    VisitOk(g, start, s, c);
    if i == 0 {
    } else {
      hide SearchOk;
      ExpandOk(g, start, s, c, i - 1);
      RelaxOk(g, start, Expand(g, s, c, i - 1), c, i - 1);
    }
  }

  ghost function Initial(start: nat): Search
    requires start < TRACK_MAX
  {
    Search(seq(TRACK_MAX, _ => INT_MAX)[start := 0], seq(TRACK_MAX, _ => None), seq(TRACK_MAX, _ => false),
           seq(TRACK_MAX, _ => TRACK_MAX), [])
  }


  /** A state of the search between two passes of its main loop. */
  ghost predicate Searching(g: Track, start: nat, end: nat, s: Search) {
    SearchOk(g, start, s, NOWHERE, 0) && end < TRACK_MAX && !s.visited[end]
  }

  lemma InitialOk(g: Track, start: nat, end: nat)
    requires start < TRACK_MAX && end < TRACK_MAX && Open(g, start)
    ensures SearchOk(g, start, Initial(start), NOWHERE, 0) && Searching(g, start, end, Initial(start))
  {
  }

  /** Where the search ends that goes on from s, and whether it ends at `end`. */
  ghost function SearchFrom(g: Track, start: nat, end: nat, s: Search): (r: (Search, bool))
    requires EdgesOk(g) && ArmsOk(g) && Searching(g, start, end, s)
    ensures Searching(g, start, end, r.0)
    ensures Nearest(g, r.0, if r.1 then Some(end) else None)
    decreases TRACK_MAX - |s.order|
  {
    match Nearby(g, s, TRACK_MAX)
    case None => (s, false)
    case Some(c) =>
      if c == end then (s, true)
      else
        ExpandOk(g, start, s, c, NumEdges(g[c]));
        AllRelaxed(g, start, Expand(g, s, c, NumEdges(g[c])), c);
        SearchFrom(g, start, end, Expand(g, s, c, NumEdges(g[c])))
  }

  /** One pass of the main loop. */
  lemma SearchStep(g: Track, start: nat, end: nat, s: Search)
    requires EdgesOk(g) && ArmsOk(g) && Searching(g, start, end, s)
    ensures SizesOk(s) && SearchOk(g, start, s, NOWHERE, 0) && (Nearby(g, s, TRACK_MAX).Some? ==> |s.order| < TRACK_MAX)
    ensures match Nearby(g, s, TRACK_MAX)
            case None => SearchFrom(g, start, end, s) == (s, false)
            case Some(c) =>
              if c == end then SearchFrom(g, start, end, s) == (s, true)
              else
                && Nearest(g, s, Some(c)) && Searching(g, start, end, Expand(g, s, c, NumEdges(g[c])))
                && SearchFrom(g, start, end, s) == SearchFrom(g, start, end, Expand(g, s, c, NumEdges(g[c])))
  {
    match Nearby(g, s, TRACK_MAX)
    case None =>
    case Some(c) =>
      ExpandOk(g, start, s, c, NumEdges(g[c]));
      AllRelaxed(g, start, Expand(g, s, c, NumEdges(g[c])), c);
  }

  /** No EXIT node lies on a walk to a sensor. */
  ghost predicate NoExit(g: Track, p: seq<nat>) {
    forall i :: 0 <= i < |p| ==> p[i] < |g| && Open(g, p[i])
  }

  /** A simple walk between two different nodes, no longer than any walk. */
  ghost predicate IsShortestPath(g: Track, p: seq<nat>, start: nat, end: nat, distance: int) {
    && |p| >= 2 && WalkBetween(g, p, start, end) && Distinct(p) && NoExit(g, p)
    && distance == Length(g, p) && ShortestDistance(g, start, end, distance)
  }

  /** What the finished search says of the two sensors. */
  lemma SearchAnswers(g: Track, start: nat, end: nat, s: Search, found: bool)
    requires EdgesOk(g) && SearchOk(g, start, s, NOWHERE, 0)
    requires end < TRACK_MAX && start != end && Open(g, end) && !s.visited[end]
    requires Nearest(g, s, if found then Some(end) else None)
    ensures found <==> Reachable(g, start, end)
    ensures found ==> |TreePath(g, start, s, end)| <= TRACK_MAX
    ensures found ==> IsShortestPath(g, TreePath(g, start, s, end), start, end, s.dist[end])
  {
    forall p | WalkBetween(g, p, start, end) ensures found && s.dist[end] <= Length(g, p) {
      WalkMeetsNearest(g, start, s, end, if found then Some(end) else None, p);
    }
    if found {
      var p := TreePath(g, start, s, end);
      TreePathOk(g, start, s, end);
      assert WalkBetween(g, p, start, end);
      forall x | x in p ensures x < TRACK_MAX {
        var i :| 0 <= i < |p| && p[i] == x;
        WalkNodesOk(g, p, i);
      }
      Pigeonhole(p, TRACK_MAX);
    }
  }

  /** The path that the search finds; empty if there is none. */
  ghost function FoundPath(g: Track, start: nat, end: nat): (p: seq<nat>)
    requires EdgesOk(g) && ArmsOk(g) && Open(g, start) && Open(g, end) && start != end
    ensures p == [] <==> !Reachable(g, start, end)
    ensures p != [] ==> IsShortestPath(g, p, start, end, Length(g, p)) && |p| <= TRACK_MAX
  {
    InitialOk(g, start, end);
    var (s, found) := SearchFrom(g, start, end, Initial(start));
    SearchAnswers(g, start, end, s, found);
    if found then TreePath(g, start, s, end) else []
  }

  lemma StayingPut(g: Track, v: nat)
    requires v < |g|
    ensures Reachable(g, v, v)
  {
    assert WalkBetween(g, [v], v, v);
  }

  // ---------------------------------------------------------------------------------------------
  // The program.

  /** -1 is NoPath, 0 is SameSensor; UnknownSensor and PathTooLong are failed assertions. */
  datatype PathResult =
    | UnknownSensor
    | SameSensor
    | NoPath
    | PathTooLong
    | Found(len: nat, distance: int)

  /** The loop that picks the next node to visit. */
  method FindNearest(g: Track, dist: array<int>, visited: array<bool>, ghost s: Search) returns (curr: Option<nat>)
    requires SizesOk(s) && dist[..] == s.dist && visited[..] == s.visited
    ensures curr == Nearby(g, s, TRACK_MAX)
  {
    var minDist := INT_MAX;
    curr := None;
    var i := 0;
    while i < TRACK_MAX
      invariant i <= TRACK_MAX && curr == Nearby(g, s, i)
      invariant minDist == if curr.Some? then s.dist[curr.value] else INT_MAX
    {
      assert dist[i] == s.dist[i] && visited[i] == s.visited[i];
      if !visited[i] && dist[i] < minDist && g[i].kind != NODE_NONE && g[i].kind != NODE_EXIT {
        curr := Some(i);
        minDist := dist[i];
      }
      i := i + 1;
    }
  }

  /** One turn of the loop over edges. */
  method RelaxEdge(g: Track, dist: array<int>, prev: array<Option<nat>>, visited: array<bool>, c: nat, i: nat,
                   ghost start: nat, ghost s: Search)
    requires EdgesOk(g) && ArmsOk(g) && JustVisited(g, start, s, c, i)
    requires Shows(s, dist, prev, visited)
    modifies dist, prev
    ensures Out(g[c], i).dest < TRACK_MAX && Shows(Relax(g, s, c, i), dist, prev, visited)
  {
    EdgeFits(g, start, s, c, i);
    var edge := Out(g[c], i);
    var next := edge.dest;
    assert visited[next] == s.visited[next] && dist[next] == s.dist[next] && dist[c] == s.dist[c];
    if visited[next] { return; }
    var altDist := if dist[c] + edge.dist < dist[next] then dist[c] + edge.dist else dist[next];
    if altDist < dist[next] {
      dist[next] := altDist;
      prev[next] := Some(c);
      assert dist[..] == s.dist[next := altDist] && prev[..] == s.prev[next := Some(c)];
    }
  }

  ghost predicate Shows(s: Search, dist: array<int>, prev: array<Option<nat>>, visited: array<bool>)
    reads dist, prev, visited
  {
    dist[..] == s.dist && prev[..] == s.prev && visited[..] == s.visited
  }

  /** Visits c and relaxes its edges. */
  method VisitNode(g: Track, dist: array<int>, prev: array<Option<nat>>, visited: array<bool>, c: nat,
                   ghost start: nat, ghost s: Search)
    requires EdgesOk(g) && ArmsOk(g) && SearchOk(g, start, s, NOWHERE, 0) && Nearest(g, s, Some(c))
    requires Shows(s, dist, prev, visited)
    modifies dist, prev, visited
    ensures |s.order| < TRACK_MAX && Shows(Expand(g, s, c, NumEdges(g[c])), dist, prev, visited)
  {
    hide RelaxedAt;
    ExpandOk(g, start, s, c, 0);
    hide SearchOk, JustVisited, Relax, EdgesOk, ArmsOk, Nearest;
    visited[c] := true;
    assert visited[..] == Visit(s, c).visited;
    var numEdges := if g[c].kind == NODE_BRANCH then 2 else 1;
    assert numEdges == NumEdges(g[c]);
    var i := 0;
    while i < numEdges
      invariant i <= numEdges && Shows(Expand(g, s, c, i), dist, prev, visited)
    {
      ExpandOk(g, start, s, c, i);
      RelaxEdge(g, dist, prev, visited, c, i, start, Expand(g, s, c, i));
      assert Expand(g, s, c, i + 1) == Relax(g, Expand(g, s, c, i), c, i);
      i := i + 1;
    }
  }

  /** The main loop: found tells whether it ended at `end`. */
  method SearchLoop(g: Track, start: nat, end: nat, dist: array<int>, prev: array<Option<nat>>, visited: array<bool>)
    returns (found: bool, ghost s: Search)
    requires EdgesOk(g) && ArmsOk(g) && start < TRACK_MAX && end < TRACK_MAX && Open(g, start) && Open(g, end)
    requires Shows(Initial(start), dist, prev, visited)
    modifies dist, prev, visited
    ensures Searching(g, start, end, Initial(start))
    ensures (s, found) == SearchFrom(g, start, end, Initial(start)) && Shows(s, dist, prev, visited)
  {
    hide EdgesOk, ArmsOk, SearchOk, Searching, SearchFrom, Expand, Nearby, Initial;
    InitialOk(g, start, end);
    s := Initial(start);
    while true
      invariant Searching(g, start, end, s) && Shows(s, dist, prev, visited)
      invariant SearchFrom(g, start, end, s) == SearchFrom(g, start, end, Initial(start))
      decreases TRACK_MAX - |s.order|
    {
      SearchStep(g, start, end, s);
      var curr := FindNearest(g, dist, visited, s);
      if !curr.Some? { return false, s; }
      if curr.value == end { return true, s; }
      VisitNode(g, dist, prev, visited, curr.value, start, s);
      s := Expand(g, s, curr.value, NumEdges(g[curr.value]));
    }
  }

  /** The first loop back along prev counts the nodes of the path. */
  method CountPath(g: Track, start: nat, end: nat, prev: array<Option<nat>>, ghost s: Search) returns (pathLen: nat)
    requires SearchOk(g, start, s, NOWHERE, 0) && end < TRACK_MAX && s.dist[end] < INT_MAX && prev[..] == s.prev
    ensures pathLen == |TreePath(g, start, s, end)|
  {
    pathLen := 1;
    var curr: nat := end;
    while curr != start
      invariant curr < TRACK_MAX && s.dist[curr] < INT_MAX
      invariant pathLen + |TreePath(g, start, s, curr)| == 1 + |TreePath(g, start, s, end)|
      decreases s.rank[curr]
    {
      ghost var u := Predecessor(g, start, s, curr);
      assert prev[curr] == s.prev[curr];
      curr := prev[curr].value;
      pathLen := pathLen + 1;
    }
  }

  /** The second loop writes the path from its end. */
  method WritePath(g: Track, start: nat, end: nat, prev: array<Option<nat>>, path: array<nat>, pathLen: nat,
                   ghost s: Search)
    requires SearchOk(g, start, s, NOWHERE, 0) && end < TRACK_MAX && s.dist[end] < INT_MAX && prev[..] == s.prev
    requires pathLen == |TreePath(g, start, s, end)| <= path.Length
    modifies path
    ensures path[..pathLen] == TreePath(g, start, s, end)
  {
    hide EdgesOk, OrderOk, Bounded, RelaxedBut, Settled;
    ghost var whole := TreePath(g, start, s, end);
    var curr: nat := end;
    var i := pathLen - 1;
    while curr != start
      invariant curr < TRACK_MAX && s.dist[curr] < INT_MAX
      invariant 0 <= i < pathLen && |TreePath(g, start, s, curr)| == i + 1
      invariant whole[..i + 1] == TreePath(g, start, s, curr)
      invariant forall k :: i < k < pathLen ==> path[k] == whole[k]
      decreases s.rank[curr]
    {
      ghost var u := Predecessor(g, start, s, curr);
      ghost var before := TreePath(g, start, s, u);
      assert prev[curr] == s.prev[curr];
      assert whole[i] == whole[..i + 1][i] == curr;
      assert whole[..i] == whole[..i + 1][..i] == before;
      path[i] := curr;
      curr := prev[curr].value;
      i := i - 1;
    }
    path[0] := start;
    assert whole[..i + 1][0] == start;
  }

  /** The search between two different nodes. */
  method PathBetween(g: Track, start: nat, end: nat, path: array<nat>) returns (r: PathResult)
    requires EdgesOk(g) && ArmsOk(g) && Open(g, start) && Open(g, end) && start != end
    modifies path
    ensures r.NoPath? || r.PathTooLong? || r.Found?
    ensures r.NoPath? <==> FoundPath(g, start, end) == []
    ensures r.PathTooLong? <==> |FoundPath(g, start, end)| > path.Length
    ensures r.Found? ==>
      && r.len == |FoundPath(g, start, end)| && path[..r.len] == FoundPath(g, start, end)
      && IsShortestPath(g, path[..r.len], start, end, r.distance)
  {
    var dist := new int[TRACK_MAX](_ => INT_MAX);
    var visited := new bool[TRACK_MAX](_ => false);
    var prev := new Option<nat>[TRACK_MAX](_ => None);
    dist[start] := 0;
    assert Shows(Initial(start), dist, prev, visited);
    hide EdgesOk, ArmsOk, OrderOk, LabelsOk, Bounded, RelaxedBut, Settled, Initial, SearchFrom, TreePath;
    var found, s := SearchLoop(g, start, end, dist, prev, visited);
    SearchAnswers(g, start, end, s, found);
    if !found { return NoPath; }
    var pathLen := CountPath(g, start, end, prev, s);
    if pathLen > path.Length { return PathTooLong; }
    WritePath(g, start, end, prev, path, pathLen, s);
    assert dist[end] == s.dist[end];
    return Found(pathLen, dist[end]);
  }

  method ShortestPath(g: Track, startSensor: Sensor, endSensor: Sensor, path: array<nat>) returns (r: PathResult)
    requires EdgesOk(g) && ArmsOk(g)
    modifies path
    ensures r.UnknownSensor? <==> NodeOf(g, startSensor).None? || NodeOf(g, endSensor).None?
    ensures !r.UnknownSensor? ==>
      var start, end := NodeOf(g, startSensor).value, NodeOf(g, endSensor).value;
      && (r.SameSensor? <==> start == end)
      && (r.NoPath? <==> !Reachable(g, start, end))
      && (r.PathTooLong? <==> start != end && |FoundPath(g, start, end)| > path.Length)
      && (r.Found? ==> r.len <= path.Length && path[..r.len] == FoundPath(g, start, end)
                       && IsShortestPath(g, path[..r.len], start, end, r.distance))
  {
    var startNode := FindSensor(g, startSensor);
    var endNode := FindSensor(g, endSensor);
    if !startNode.Some? || !endNode.Some? { return UnknownSensor; }
    if startNode.value == endNode.value {
      StayingPut(g, startNode.value);
      return SameSensor;
    }
    r := PathBetween(g, startNode.value, endNode.value, path);
  }
}
