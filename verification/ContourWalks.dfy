/**
  Decomposition of the contour graph into walks.  The walks use every edge exactly
  once on any segment list; on a bitmap's contours there is one walk per connected
  component, and a walk that does not close ends on the border.
*/
module ContourWalks {
  import opened Contours

  predicate PointLess(p: Point, q: Point) {
    p.x < q.x || (p.x == q.x && p.y < q.y)
  }

  function Key(left: Point, right: Point): Edge {
    if PointLess(right, left) then Edge(right, left) else Edge(left, right)
  }

  ghost function EdgeSet(segments: seq<Segment>): set<Edge> {
    set s | s in segments :: Key(s.left, s.right)
  }

  // ----- adjacency lists ---------------------------------------------------------

  // Each point with the points it is joined to.
  type Graph = Point -> seq<Point>

  ghost function GraphOf(segments: seq<Segment>): Graph {
    p => Neighbours(segments, p)
  }

  ghost predicate IsAdjacency(adjacency: map<Point, seq<Point>>, g: Graph) {
    && (forall p :: p in adjacency <==> g(p) != [])
    && (forall p :: p in adjacency ==> adjacency[p] == g(p))
  }

  function AppendNeighbour(adjacency: map<Point, seq<Point>>, p: Point, q: Point): map<Point, seq<Point>> {
    adjacency[p := (if p in adjacency then adjacency[p] else []) + [q]]
  }

  function With(g: Graph, p: Point, q: Point): Graph {
    x => g(x) + (if x == p then [q] else [])
  }

  lemma AppendOne(adjacency: map<Point, seq<Point>>, g: Graph, p: Point, q: Point)
    requires IsAdjacency(adjacency, g)
    ensures IsAdjacency(AppendNeighbour(adjacency, p, q), With(g, p, q))
  {
    forall x | x != p ensures With(g, p, q)(x) == g(x) {
      assert g(x) + [] == g(x);
    }
    assert p !in adjacency ==> g(p) == [];
  }

  lemma OneMoreSegment(segments: seq<Segment>, i: nat, x: Point)
    requires i < |segments|
    ensures var left, right := segments[i].left, segments[i].right;
            GraphOf(segments[..i + 1])(x) == With(With(GraphOf(segments[..i]), left, right), right, left)(x)
  {
    assert segments[..i + 1][..i] == segments[..i];
  }

  lemma SameAdjacency(adjacency: map<Point, seq<Point>>, g: Graph, h: Graph)
    requires IsAdjacency(adjacency, g) && forall x :: h(x) == g(x)
    ensures IsAdjacency(adjacency, h)
  {
  }

  method BuildAdjacency(segments: seq<Segment>) returns (adjacency: map<Point, seq<Point>>)
    ensures IsAdjacency(adjacency, GraphOf(segments))
  {
    adjacency := map[];
    for i := 0 to |segments|
      invariant IsAdjacency(adjacency, GraphOf(segments[..i]))
    {
      var left, right := segments[i].left, segments[i].right;
      ghost var g := GraphOf(segments[..i]);
      AppendOne(adjacency, g, left, right);
      adjacency := AppendNeighbour(adjacency, left, right);
      AppendOne(adjacency, With(g, left, right), right, left);
      adjacency := AppendNeighbour(adjacency, right, left);
      forall x ensures GraphOf(segments[..i + 1])(x) == With(With(g, left, right), right, left)(x) {
        OneMoreSegment(segments, i, x);
      }
      SameAdjacency(adjacency, With(With(g, left, right), right, left), GraphOf(segments[..i + 1]));
    }
    assert segments[..|segments|] == segments;
  }

  // Starting points are tried with those of degree other than two first, then by row, then by column.
  predicate StartsBefore(adjacency: map<Point, seq<Point>>, p: Point, q: Point)
    requires p in adjacency && q in adjacency
  {
    var two, other := |adjacency[p]| == 2, |adjacency[q]| == 2;
    if two != other then other else p.y < q.y || (p.y == q.y && p.x < q.x)
  }

  ghost predicate Sorted(adjacency: map<Point, seq<Point>>, starts: seq<Point>) {
    && (forall i :: 0 <= i < |starts| ==> starts[i] in adjacency)
    && forall i, j :: 0 <= i < j < |starts| ==> StartsBefore(adjacency, starts[i], starts[j])
  }

  method SortedStarts(adjacency: map<Point, seq<Point>>) returns (starts: seq<Point>)
    ensures Sorted(adjacency, starts)
    ensures forall p :: p in starts <==> p in adjacency
  {
    starts := [];
    var rest := adjacency.Keys;
    while rest != {}
      invariant Sorted(adjacency, starts)
      invariant forall p :: p in adjacency <==> p in starts || p in rest
      invariant forall p :: p in starts ==> p !in rest
      decreases rest
    {
      var p :| p in rest;
      rest := rest - {p};
      var i := 0;
      while i < |starts| && StartsBefore(adjacency, starts[i], p)
        invariant 0 <= i <= |starts|
        invariant forall k :: 0 <= k < i ==> StartsBefore(adjacency, starts[k], p)
      {
        i := i + 1;
      }
      starts := starts[..i] + [p] + starts[i..];
    }
  }

  // ----- one walk ------------------------------------------------------------------

  function Candidates(points: seq<Point>, current: Point, previous: Point, used: set<Edge>): (r: seq<Point>)
    ensures forall q :: q in r <==> q in points && q != previous && Key(current, q) !in used
  {
    if points == [] then []
    else
      (if points[0] != previous && Key(current, points[0]) !in used then [points[0]] else [])
      + Candidates(points[1..], current, previous, used)
  }

  function Least(points: seq<Point>): (p: Point)
    requires points != []
    ensures p in points
    ensures forall q :: q in points ==> !PointLess(q, p)
  {
    if |points| == 1 then points[0]
    else
      var rest := Least(points[1..]);
      assert forall q :: q in points ==> q == points[0] || q in points[1..];
      if PointLess(rest, points[0]) then rest else points[0]
  }

  ghost predicate Undirected(g: Graph) {
    forall p, q :: q in g(p) <==> p in g(q)
  }

  lemma GraphIsUndirected(segments: seq<Segment>)
    ensures Undirected(GraphOf(segments))
  {
    forall p, q ensures q in GraphOf(segments)(p) <==> p in GraphOf(segments)(q) {
      NeighboursAreJoined(segments, p, q);
      NeighboursAreJoined(segments, q, p);
    }
  }

  function Last(line: seq<Point>): Point
    requires line != []
  {
    line[|line| - 1]
  }

  ghost predicate Contiguous(g: Graph, line: seq<Point>) {
    forall i :: 0 <= i < |line| - 1 ==> line[i + 1] in g(line[i])
  }

  // The edges that a walk crosses.
  ghost function StepSet(line: seq<Point>): set<Edge> {
    if |line| <= 1 then {}
    else StepSet(line[..|line| - 1]) + {Key(line[|line| - 2], line[|line| - 1])}
  }

  // line is a walk along the graph that crosses no edge twice and none of used.
  ghost predicate IsTrail(g: Graph, line: seq<Point>, used: set<Edge>) {
    && line != []
    && Contiguous(g, line)
    && |StepSet(line)| == |line| - 1
    && StepSet(line) !! used
  }

  // No loops, no parallel edges, and at most two edges at a point.
  ghost predicate IsCurve(g: Graph) {
    forall p :: |g(p)| <= 2 && NoRepeats(g(p)) && p !in g(p)
  }

  ghost predicate Fresh(g: Graph, p: Point, used: set<Edge>) {
    forall q :: q in g(p) ==> Key(p, q) !in used
  }

  ghost predicate Spent(g: Graph, p: Point, used: set<Edge>) {
    forall q :: q in g(p) ==> Key(p, q) in used
  }

  // Between walks no point of a curve graph is left half used.
  ghost predicate Settled(g: Graph, used: set<Edge>) {
    Undirected(g) && IsCurve(g) && forall p :: Fresh(g, p, used) || Spent(g, p, used)
  }

  // A point of degree two is only tried once the loose ends are used up.
  ghost predicate LooseEndsFirst(g: Graph, start: Point, used: set<Edge>) {
    |g(start)| == 2 ==> forall p :: |g(p)| == 1 ==> Spent(g, p, used)
  }

  ghost predicate MayStart(g: Graph, start: Point, used: set<Edge>) {
    Settled(g, used) && LooseEndsFirst(g, start, used)
  }

  // A simple path whose two ends are loose, or a simple cycle.
  ghost predicate IsOpenCurve(g: Graph, line: seq<Point>) {
    |line| >= 2 && NoRepeats(line) && |g(line[0])| == 1 && |g(Last(line))| == 1
  }

  ghost predicate IsClosedCurve(line: seq<Point>) {
    |line| >= 4 && line[0] == Last(line) && NoRepeats(line[1..])
  }

  ghost predicate IsComplete(g: Graph, line: seq<Point>) {
    forall p, q :: p in line && q in g(p) ==> Key(p, q) in StepSet(line)
  }

  ghost predicate IsComponentWalk(g: Graph, line: seq<Point>) {
    line != [] && (IsOpenCurve(g, line) || IsClosedCurve(line)) && IsComplete(g, line)
  }

  // A walk under way: every point was fresh, and an inner point has no neighbour off the walk.
  ghost predicate Underway(g: Graph, line: seq<Point>, used: set<Edge>) {
    && NoRepeats(line)
    && (forall i :: 0 <= i < |line| ==> Fresh(g, line[i], used))
    && forall i, q :: 0 < i < |line| - 1 && q in g(line[i]) ==> q == line[i - 1] || q == line[i + 1]
  }

  lemma TwoElements(s: seq<Point>, a: Point, b: Point)
    requires |s| <= 2 && a in s && b in s && a != b
    ensures forall q :: q in s ==> q == a || q == b
  {
  }

  lemma OnlyOne(s: seq<Point>, a: Point)
    requires a in s && NoRepeats(s) && forall q :: q in s ==> q == a
    ensures |s| == 1
  {
    assert forall i :: 0 <= i < |s| ==> s[i] in s;
    var other := if |s| > 1 then s[1] else a;
    assert other == a && s[0] == a;
  }

  lemma ExtendTrail(g: Graph, line: seq<Point>, used: set<Edge>, next: Point)
    requires IsTrail(g, line, used)
    requires next in g(Last(line))
    requires Key(Last(line), next) !in used + StepSet(line)
    ensures IsTrail(g, line + [next], used)
    ensures StepSet(line + [next]) == StepSet(line) + {Key(Last(line), next)}
  {
    assert (line + [next])[..|line|] == line;
  }

  lemma LastHasTwo(g: Graph, line: seq<Point>, next: Point)
    requires Undirected(g) && IsCurve(g) && |line| >= 2 && Contiguous(g, line)
    requires next in g(Last(line)) && next != line[|line| - 2]
    ensures forall q :: q in g(Last(line)) ==> q == line[|line| - 2] || q == next
  {
    var current, previous := Last(line), line[|line| - 2];
    assert line[|line| - 2 + 1] in g(previous);
    assert previous in g(current);
    TwoElements(g(current), previous, next);
  }

  lemma NextIsNew(g: Graph, line: seq<Point>, used: set<Edge>, next: Point)
    requires Settled(g, used) && line != [] && Underway(g, line, used)
    requires next in g(Last(line)) && Key(Last(line), next) !in used
    requires |line| >= 2 ==> next != line[|line| - 2] && next != line[0]
    ensures next !in line && Fresh(g, next, used)
  {
    var current := Last(line);
    assert current in g(next) && current !in g(current);
    forall i | 0 <= i < |line| ensures line[i] != next {
      if 0 < i < |line| - 1 {
        assert current in g(line[i]) ==> current == line[i - 1] || current == line[i + 1];
      }
    }
    assert Key(next, current) == Key(current, next);
    assert !Spent(g, next, used);
  }

  lemma ExtendCurve(g: Graph, line: seq<Point>, used: set<Edge>, next: Point)
    requires Settled(g, used) && IsTrail(g, line, used) && Underway(g, line, used)
    requires next in g(Last(line)) && Key(Last(line), next) !in used
    requires |line| >= 2 ==> next != line[|line| - 2] && next != line[0]
    ensures Underway(g, line + [next], used)
  {
    NextIsNew(g, line, used, next);
    if |line| >= 2 {
      LastHasTwo(g, line, next);
    }
  }

  ghost predicate IsStep(line: seq<Point>, i: int, p: Point, q: Point) {
    0 <= i < |line| - 1 && ((line[i] == p && line[i + 1] == q) || (line[i] == q && line[i + 1] == p))
  }

  lemma {:induction false} StepIsEdge(line: seq<Point>, i: int, p: Point, q: Point)
    requires IsStep(line, i, p, q)
    ensures Key(p, q) in StepSet(line)
  {
    if i < |line| - 2 {
      StepIsEdge(line[..|line| - 1], i, p, q);
    }
  }

  lemma {:induction false} StepsTouchLine(line: seq<Point>, p: Point, q: Point) returns (i: nat)
    requires Key(p, q) in StepSet(line)
    ensures IsStep(line, i, p, q)
  {
    var n := |line|;
    if Key(line[n - 2], line[n - 1]) == Key(p, q) {
      i := n - 2;
    } else {
      i := StepsTouchLine(line[..n - 1], p, q);
    }
  }

  lemma StuckHasOneNeighbour(g: Graph, line: seq<Point>, used: set<Edge>)
    requires Settled(g, used) && |line| >= 2 && Contiguous(g, line) && Underway(g, line, used)
    requires forall q :: q in g(Last(line)) ==>
      q == line[|line| - 2] || Key(Last(line), q) in used || Key(Last(line), q) in StepSet(line)
    ensures forall q :: q in g(Last(line)) ==> q == line[|line| - 2]
    ensures |g(Last(line))| == 1
  {
    var n := |line|;
    var current, previous := Last(line), line[n - 2];
    forall q | q in g(current) ensures q == previous {
      if q != previous {
        var i := StepsTouchLine(line, current, q);
      }
    }
    assert line[n - 2 + 1] in g(previous);
    assert previous in g(current);
    OnlyOne(g(current), previous);
  }

  lemma InnerSteps(g: Graph, line: seq<Point>, used: set<Edge>, i: nat, q: Point)
    requires Underway(g, line, used) && 0 < i < |line| - 1 && q in g(line[i])
    ensures Key(line[i], q) in StepSet(line)
  {
    if q == line[i - 1] {
      StepIsEdge(line, i - 1, line[i], q);
    } else {
      StepIsEdge(line, i, line[i], q);
    }
  }

  // A loose end that is still fresh was not left behind: the walk started at one.
  lemma StartIsLoose(g: Graph, start: Point, current: Point, previous: Point, used: set<Edge>)
    requires LooseEndsFirst(g, start, used) && g(start) != [] && |g(start)| <= 2
    requires |g(current)| == 1 && previous in g(current) && Fresh(g, current, used)
    ensures |g(start)| == 1
  {
    assert Key(current, previous) !in used;
    assert !Spent(g, current, used);
  }

  // A walk that can go no further has reached a loose end.
  lemma StuckAtLooseEnd(g: Graph, line: seq<Point>, used: set<Edge>)
    requires |line| >= 2 && MayStart(g, line[0], used)
    requires Contiguous(g, line) && Underway(g, line, used)
    requires forall q :: q in g(Last(line)) ==>
      q == line[|line| - 2] || Key(Last(line), q) in used || Key(Last(line), q) in StepSet(line)
    ensures IsComponentWalk(g, line)
  {
    StuckHasOneNeighbour(g, line, used);
    EndsAreLoose(g, line, used);
    PathIsComplete(g, line, used);
  }

  lemma EndsAreLoose(g: Graph, line: seq<Point>, used: set<Edge>)
    requires |line| >= 2 && MayStart(g, line[0], used) && Contiguous(g, line) && Underway(g, line, used)
    requires |g(Last(line))| == 1
    ensures g(line[0]) == [line[1]] && g(Last(line)) == [line[|line| - 2]]
  {
    var n := |line|;
    assert line[0 + 1] in g(line[0]);
    assert line[n - 2 + 1] in g(line[n - 2]) && line[n - 2] in g(Last(line));
    StartIsLoose(g, line[0], Last(line), line[n - 2], used);
  }

  lemma PathIsComplete(g: Graph, line: seq<Point>, used: set<Edge>)
    requires |line| >= 2 && Underway(g, line, used)
    requires g(line[0]) == [line[1]] && g(Last(line)) == [line[|line| - 2]]
    ensures IsComplete(g, line)
  {
    forall p, q | p in line && q in g(p) ensures Key(p, q) in StepSet(line) {
      var i :| 0 <= i < |line| && line[i] == p;
      if 0 < i < |line| - 1 {
        InnerSteps(g, line, used, i, q);
      } else {
        StepIsEdge(line, if i == 0 then 0 else i - 1, p, q);
      }
    }
  }

  lemma RotateNoRepeats(line: seq<Point>)
    requires line != [] && NoRepeats(line)
    ensures NoRepeats((line + [line[0]])[1..])
  {
    assert (line + [line[0]])[1..] == line[1..] + [line[0]];
  }

  // A walk that returns to its start is a simple cycle.
  lemma ClosingIsComplete(g: Graph, line: seq<Point>, used: set<Edge>)
    requires Settled(g, used) && |line| >= 2
    requires Contiguous(g, line) && Underway(g, line, used)
    requires line[0] in g(Last(line)) && line[0] != line[|line| - 2]
    ensures IsComponentWalk(g, line + [line[0]])
  {
    RotateNoRepeats(line);
    assert IsClosedCurve(line + [line[0]]);
    ClosedHasAllEdges(g, line, used);
  }

  lemma StartHasTwo(g: Graph, line: seq<Point>, used: set<Edge>)
    requires Settled(g, used) && |line| >= 2 && Contiguous(g, line) && Underway(g, line, used)
    requires line[0] in g(Last(line)) && line[0] != line[|line| - 2]
    ensures forall q :: q in g(line[0]) ==> q == line[1] || q == Last(line)
    ensures forall q :: q in g(Last(line)) ==> q == line[|line| - 2] || q == line[0]
  {
    LastHasTwo(g, line, line[0]);
    assert line[0 + 1] in g(line[0]) && Last(line) in g(line[0]);
    TwoElements(g(line[0]), line[1], Last(line));
  }

  lemma ClosedHasAllEdges(g: Graph, line: seq<Point>, used: set<Edge>)
    requires Settled(g, used) && |line| >= 2 && Contiguous(g, line) && Underway(g, line, used)
    requires line[0] in g(Last(line)) && line[0] != line[|line| - 2]
    ensures IsComplete(g, line + [line[0]])
  {
    StartHasTwo(g, line, used);
    forall p, q | p in line + [line[0]] && q in g(p) ensures Key(p, q) in StepSet(line + [line[0]]) {
      var i :| 0 <= i < |line| && line[i] == p;
      ClosingStep(g, line, used, i, q);
    }
  }

  // In the closed walk every edge at a point is a step.
  lemma ClosingStep(g: Graph, line: seq<Point>, used: set<Edge>, i: nat, q: Point)
    requires |line| >= 2 && i < |line| && q in g(line[i]) && Underway(g, line, used)
    requires i == 0 ==> q == line[1] || q == Last(line)
    requires i == |line| - 1 ==> q == line[i - 1] || q == line[0]
    ensures Key(line[i], q) in StepSet(line + [line[0]])
  {
    var n, closed := |line|, line + [line[0]];
    if i == 0 {
      StepIsEdge(closed, if q == Last(line) then n - 1 else 0, line[i], q);
    } else {
      StepIsEdge(closed, if q == line[i - 1] then i - 1 else i, line[i], q);
    }
  }

  lemma StaysSettled(g: Graph, line: seq<Point>, used: set<Edge>, after: set<Edge>)
    requires Settled(g, used) && line != [] && IsComplete(g, line)
    requires after == used + StepSet(line)
    ensures Settled(g, after)
    ensures forall p :: p in line ==> Spent(g, p, after)
  {
    forall p ensures Fresh(g, p, after) || Spent(g, p, after) {
      if p !in line && Fresh(g, p, used) {
        forall q | q in g(p) ensures Key(p, q) !in after {
          if Key(p, q) in StepSet(line) {
            var i := StepsTouchLine(line, p, q);
          }
        }
      }
    }
  }

  ghost predicate Bounds(edges: set<Edge>, g: Graph) {
    forall p, q :: q in g(p) ==> Key(p, q) in edges
  }

  // line never turns back, and comes home only with its last step.
  ghost predicate Advances(line: seq<Point>) {
    && (forall i :: 0 <= i < |line| - 2 ==> line[i] != line[i + 2])
    && (forall i :: 1 < i < |line| - 1 ==> line[i] != line[0])
  }

  ghost predicate IsStuck(g: Graph, line: seq<Point>, used: set<Edge>)
    requires |line| >= 2
  {
    forall q :: q in g(Last(line)) ==>
      q == line[|line| - 2] || Key(Last(line), q) in used || Key(Last(line), q) in StepSet(line)
  }

  // A trail that went as far as it could.
  ghost predicate IsMaximalTrail(g: Graph, line: seq<Point>, used: set<Edge>) {
    && |line| >= 2 && IsTrail(g, line, used) && Advances(line)
    && (Last(line) == line[0] || IsStuck(g, line, used))
  }

  lemma {:induction false} HeadSteps(line: seq<Point>, k: nat)
    requires 0 < k <= |line| && |StepSet(line)| == |line| - 1
    ensures StepSet(line[..k]) <= StepSet(line) && |StepSet(line[..k])| == k - 1
  {
    if k < |line| {
      var init := line[..|line| - 1];
      StepSetSize(init);
      HeadSteps(init, k);
      assert init[..k] == line[..k];
    } else {
      assert line[..k] == line;
    }
  }

  lemma {:induction false} StepSetSize(line: seq<Point>)
    requires line != []
    ensures |StepSet(line)| <= |line| - 1
  {
    if |line| > 1 { StepSetSize(line[..|line| - 1]); }
  }

  lemma HeadIsTrail(g: Graph, line: seq<Point>, used: set<Edge>, k: nat)
    requires 0 < k <= |line| && IsTrail(g, line, used)
    ensures IsTrail(g, line[..k], used)
  {
    HeadSteps(line, k);
  }

  lemma StepIsUnused(g: Graph, line: seq<Point>, used: set<Edge>, i: nat)
    requires IsTrail(g, line, used) && i < |line| - 1
    ensures line[i + 1] in g(line[i]) && Key(line[i], line[i + 1]) !in used
  {
    StepIsEdge(line, i, line[i], line[i + 1]);
  }

  lemma FirstIsUnderway(g: Graph, p: Point, q: Point, used: set<Edge>)
    requires Settled(g, used) && q in g(p) && Key(p, q) !in used
    ensures Underway(g, [p], used)
  {
    assert !Spent(g, p, used);
  }

  lemma {:induction false} TrailIsUnderway(g: Graph, line: seq<Point>, used: set<Edge>)
    requires |line| >= 2 && Settled(g, used)
    requires IsTrail(g, line, used) && Advances(line) && Last(line) != line[0]
    ensures Underway(g, line, used)
  {
    var k := |line| - 1;
    var head := line[..k];
    StepIsUnused(g, line, used, k - 1);
    HeadIsTrail(g, line, used, k);
    assert line == head + [line[k]];
    if k == 1 {
      assert head == [line[0]];
      FirstIsUnderway(g, line[0], line[1], used);
    } else {
      StepIsUnused(g, line, used, 0);
      assert line[k - 2] != line[k - 2 + 2];
      TrailIsUnderway(g, head, used);
    }
    ExtendCurve(g, head, used, line[k]);
  }

  // From a proper start, a maximal trail walks one whole component.
  lemma MaximalTrailIsComponent(g: Graph, line: seq<Point>, used: set<Edge>)
    requires IsMaximalTrail(g, line, used)
    requires MayStart(g, line[0], used)
    ensures IsComponentWalk(g, line)
    ensures forall p :: p in line ==> Fresh(g, p, used)
  {
    StepIsUnused(g, line, used, 0);
    if Last(line) == line[0] {
      ClosedTrailIsComponent(g, line, used);
    } else {
      TrailIsUnderway(g, line, used);
      StuckAtLooseEnd(g, line, used);
    }
  }

  lemma ClosedTrailIsComponent(g: Graph, line: seq<Point>, used: set<Edge>)
    requires |line| > 2 && IsTrail(g, line, used) && Advances(line) && Last(line) == line[0]
    requires Settled(g, used)
    ensures IsComponentWalk(g, line)
    ensures forall p :: p in line ==> Fresh(g, p, used)
  {
    var head := line[..|line| - 1];
    assert line == head + [head[0]];
    BeforeClosing(g, head, used);
    ClosingIsComplete(g, head, used);
  }

  lemma BeforeClosing(g: Graph, head: seq<Point>, used: set<Edge>)
    requires |head| > 1 && Settled(g, used)
    requires IsTrail(g, head + [head[0]], used) && Advances(head + [head[0]])
    ensures Contiguous(g, head) && Underway(g, head, used)
    ensures head[0] in g(Last(head)) && head[0] != head[|head| - 2]
  {
    var n := |head|;
    var line := head + [head[0]];
    StepIsUnused(g, line, used, n - 1);
    assert line[n - 2] != line[n - 2 + 2];
    HeadIsTrail(g, line, used, n);
    assert line[..n] == head;
    TrailIsUnderway(g, head, used);
  }

  ghost predicate CanStepTo(g: Graph, line: seq<Point>, used: set<Edge>, next: Point) {
    && IsTrail(g, line, used) && Advances(line)
    && next in g(Last(line)) && Key(Last(line), next) !in used + StepSet(line)
    && (|line| >= 2 ==> next != line[|line| - 2])
    && (|line| > 2 ==> Last(line) != line[0])
  }

  lemma StepOn(g: Graph, line: seq<Point>, used: set<Edge>, next: Point)
    requires CanStepTo(g, line, used, next)
    ensures IsTrail(g, line + [next], used) && Advances(line + [next])
    ensures StepSet(line + [next]) == StepSet(line) + {Key(Last(line), next)}
  {
    ExtendTrail(g, line, used, next);
  }

  lemma NowhereToGo(g: Graph, line: seq<Point>, used: set<Edge>)
    requires |line| >= 2 && IsTrail(g, line, used) && Advances(line)
    requires Candidates(g(Last(line)), Last(line), line[|line| - 2], used + StepSet(line)) == []
    ensures IsMaximalTrail(g, line, used)
  {
    forall q | q in g(Last(line))
      ensures q == line[|line| - 2] || Key(Last(line), q) in used || Key(Last(line), q) in StepSet(line)
    {
      assert q !in Candidates(g(Last(line)), Last(line), line[|line| - 2], used + StepSet(line));
    }
  }

  // Crosses one edge and picks the next one, unless the walk is at its end.
  method Cross(adjacency: map<Point, seq<Point>>, ghost g: Graph, ghost used: set<Edge>,
               line: seq<Point>, after: set<Edge>, following: Point)
    returns (longer: seq<Point>, marked: set<Edge>, candidates: seq<Point>)
    requires IsAdjacency(adjacency, g) && Undirected(g)
    requires CanStepTo(g, line, used, following)
    requires |line| >= 2 ==> following != line[0]
    requires after == used + StepSet(line)
    ensures longer == line + [following] && marked == used + StepSet(longer)
    ensures candidates == [] ==> IsMaximalTrail(g, longer, used)
    ensures forall next :: next in candidates ==> CanStepTo(g, longer, used, next)
    ensures candidates != [] ==> Key(Last(line), following) !in after && following in g(Last(line))
  {
    StepOn(g, line, used, following);
    var current := line[|line| - 1];
    marked := after + {Key(current, following)};
    longer := line + [following];
    assert marked == used + StepSet(longer);
    assert current in g(following) && Last(longer) == following && longer[|longer| - 2] == current;
    candidates := Candidates(adjacency[following], following, current, marked);
    if candidates == [] {
      NowhereToGo(g, longer, used);
    }
  }

  method ComeHome(ghost g: Graph, ghost used: set<Edge>, line: seq<Point>, after: set<Edge>, following: Point)
    returns (longer: seq<Point>, marked: set<Edge>)
    requires CanStepTo(g, line, used, following) && |line| >= 2 && following == line[0]
    requires after == used + StepSet(line)
    ensures longer == line + [following] && marked == used + StepSet(longer)
    ensures IsMaximalTrail(g, longer, used)
  {
    StepOn(g, line, used, following);
    marked := after + {Key(line[|line| - 1], following)};
    longer := line + [following];
  }

  method Follow(adjacency: map<Point, seq<Point>>, ghost g: Graph, ghost edges: set<Edge>,
                start: Point, first: Point, used: set<Edge>)
    returns (line: seq<Point>, after: set<Edge>)
    requires IsAdjacency(adjacency, g) && Undirected(g) && Bounds(edges, g)
    requires start in adjacency && first in adjacency[start] && Key(start, first) !in used
    ensures IsMaximalTrail(g, line, used)
    ensures line[0] == start && line[1] == first
    ensures after == used + StepSet(line)
  {
    line, after := [start], used;
    var following := first;
    while true
      invariant line != [] && line[0] == start
      invariant if |line| == 1 then following == first else line[1] == first && following != line[0]
      invariant CanStepTo(g, line, used, following)
      invariant after == used + StepSet(line)
      decreases edges - after
    {
      ghost var crossed := Key(Last(line), following);
      assert crossed in edges - after;
      var candidates;
      line, after, candidates := Cross(adjacency, g, used, line, after, following);
      if candidates == [] {
        break;
      }
      following := Least(candidates);
      if following == line[0] {
        line, after := ComeHome(g, used, line, after, following);
        break;
      }
    }
  }

  // ----- all walks -----------------------------------------------------------------

  ghost function UsedBy(walks: seq<seq<Point>>): set<Edge> {
    if walks == [] then {} else UsedBy(walks[..|walks| - 1]) + StepSet(walks[|walks| - 1])
  }

  function LongEnough(walks: seq<seq<Point>>): seq<seq<Point>> {
    if walks == [] then []
    else
      var last := walks[|walks| - 1];
      LongEnough(walks[..|walks| - 1]) + (if |last| >= 4 then [last] else [])
  }

  // Contiguous walks, none crossing an edge twice, no two crossing the same edge.
  ghost predicate AreTrails(g: Graph, walks: seq<seq<Point>>) {
    && (forall w :: w in walks ==> |w| >= 2 && Contiguous(g, w) && |StepSet(w)| == |w| - 1)
    && forall i, j :: 0 <= i < j < |walks| ==> StepSet(walks[i]) !! StepSet(walks[j])
  }

  ghost predicate ShareNoPoint(v: seq<Point>, w: seq<Point>) {
    forall p :: p in v ==> p !in w
  }

  // Each walk is a simple cycle or a path between loose ends, and holds every edge at its points.
  ghost predicate AreComponents(g: Graph, walks: seq<seq<Point>>) {
    && (forall w :: w in walks ==> IsComponentWalk(g, w))
    && forall i, j :: 0 <= i < j < |walks| ==> ShareNoPoint(walks[i], walks[j])
  }

  ghost predicate CurveWalks(g: Graph, walks: seq<seq<Point>>, used: set<Edge>) {
    && Settled(g, used)
    && AreComponents(g, walks)
    && forall w, p :: w in walks && p in w ==> Spent(g, p, used)
  }

  lemma {:induction false} UsedByContains(walks: seq<seq<Point>>, e: Edge)
    ensures e in UsedBy(walks) <==> exists w :: w in walks && e in StepSet(w)
  {
    if walks != [] {
      var init, last := walks[..|walks| - 1], walks[|walks| - 1];
      UsedByContains(init, e);
      if e in UsedBy(init) {
        var w :| w in init && e in StepSet(w);
        assert w in walks;
      }
      assert last in walks;
      forall w | w in walks && e in StepSet(w) ensures e in UsedBy(walks) {
        assert w == last || w in init;
      }
    }
  }

  lemma AddTrail(g: Graph, walks: seq<seq<Point>>, line: seq<Point>)
    requires AreTrails(g, walks) && IsMaximalTrail(g, line, UsedBy(walks))
    ensures AreTrails(g, walks + [line])
    ensures UsedBy(walks + [line]) == UsedBy(walks) + StepSet(line)
  {
    assert (walks + [line])[..|walks|] == walks;
    forall w | w in walks ensures StepSet(w) !! StepSet(line) {
      forall e | e in StepSet(w) ensures e !in StepSet(line) {
        UsedByContains(walks, e);
      }
    }
  }

  lemma SpentIsNotFresh(g: Graph, w: seq<Point>, line: seq<Point>, used: set<Edge>)
    requires Undirected(g) && |w| >= 2 && Contiguous(g, w)
    requires forall p :: p in w ==> Spent(g, p, used)
    requires forall p :: p in line ==> Fresh(g, p, used)
    ensures ShareNoPoint(w, line)
  {
    forall p | p in w ensures p !in line {
      HasNeighbour(g, w, p);
      var q :| q in g(p);
      assert Key(p, q) in used;
    }
  }

  lemma HasNeighbour(g: Graph, w: seq<Point>, p: Point)
    requires Undirected(g) && |w| >= 2 && Contiguous(g, w) && p in w
    ensures exists q :: q in g(p)
  {
    var i :| 0 <= i < |w| && w[i] == p;
    if i == 0 {
      assert w[0 + 1] in g(p);
    } else {
      assert w[i - 1 + 1] in g(w[i - 1]);
      assert w[i - 1] in g(p);
    }
  }

  lemma AddComponent(g: Graph, walks: seq<seq<Point>>, line: seq<Point>, used: set<Edge>)
    requires AreTrails(g, walks) && CurveWalks(g, walks, used)
    requires IsMaximalTrail(g, line, used) && MayStart(g, line[0], used)
    ensures CurveWalks(g, walks + [line], used + StepSet(line))
  {
    MaximalTrailIsComponent(g, line, used);
    StaysSettled(g, line, used, used + StepSet(line));
    forall w | w in walks ensures ShareNoPoint(w, line) {
      SpentIsNotFresh(g, w, line, used);
    }
    JoinComponents(g, walks, line);
    forall w, p | w in walks + [line] && p in w ensures Spent(g, p, used + StepSet(line)) {
      if w in walks {
        assert Spent(g, p, used);
      }
    }
  }

  lemma JoinComponents(g: Graph, walks: seq<seq<Point>>, line: seq<Point>)
    requires AreComponents(g, walks) && IsComponentWalk(g, line)
    requires forall w :: w in walks ==> ShareNoPoint(w, line)
    ensures AreComponents(g, walks + [line])
  {
  }

  // The walks in the order in which they were made, each maximal given those before it.
  ghost predicate IsLog(g: Graph, walks: seq<seq<Point>>) {
    walks == []
    || var init, last := walks[..|walks| - 1], walks[|walks| - 1];
       IsLog(g, init) && IsMaximalTrail(g, last, UsedBy(init)) && LooseEndsFirst(g, last[0], UsedBy(init))
  }

  lemma SplitLast<T>(xs: seq<T>)
    requires xs != []
    ensures xs == xs[..|xs| - 1] + [xs[|xs| - 1]]
  {
  }

  lemma {:induction false} LogIsTrails(g: Graph, walks: seq<seq<Point>>)
    requires IsLog(g, walks)
    ensures AreTrails(g, walks)
  {
    if walks != [] {
      var init, last := walks[..|walks| - 1], walks[|walks| - 1];
      LogIsTrails(g, init);
      SplitLast(walks);
      AddTrail(g, init, last);
    }
  }

  lemma {:induction false} LogIsComponents(g: Graph, walks: seq<seq<Point>>)
    requires IsLog(g, walks) && Undirected(g) && IsCurve(g)
    ensures CurveWalks(g, walks, UsedBy(walks))
  {
    if walks == [] {
      assert Settled(g, {});
    } else {
      var init, last := walks[..|walks| - 1], walks[|walks| - 1];
      LogIsComponents(g, init);
      LogIsTrails(g, init);
      SplitLast(walks);
      AddComponent(g, init, last, UsedBy(init));
    }
  }

  lemma ExtendWalks(walks: seq<seq<Point>>, line: seq<Point>)
    ensures UsedBy(walks + [line]) == UsedBy(walks) + StepSet(line)
    ensures LongEnough(walks + [line]) == LongEnough(walks) + (if |line| >= 4 then [line] else [])
  {
    assert (walks + [line])[..|walks|] == walks;
  }

  lemma ExtendIsLog(g: Graph, walks: seq<seq<Point>>, line: seq<Point>, longer: seq<seq<Point>>)
    requires IsLog(g, walks) && IsMaximalTrail(g, line, UsedBy(walks)) && LooseEndsFirst(g, line[0], UsedBy(walks))
    requires longer != [] && longer[..|longer| - 1] == walks && longer[|longer| - 1] == line
    ensures IsLog(g, longer)
  {
  }

  lemma ExtendLog(g: Graph, walks: seq<seq<Point>>, line: seq<Point>)
    requires IsLog(g, walks) && IsMaximalTrail(g, line, UsedBy(walks)) && LooseEndsFirst(g, line[0], UsedBy(walks))
    ensures IsLog(g, walks + [line])
    ensures UsedBy(walks + [line]) == UsedBy(walks) + StepSet(line)
    ensures LongEnough(walks + [line]) == LongEnough(walks) + (if |line| >= 4 then [line] else [])
    ensures Key(line[0], line[1]) in StepSet(line)
  {
    ExtendWalks(walks, line);
    ExtendIsLog(g, walks, line, walks + [line]);
    StepIsEdge(line, 0, line[0], line[1]);
  }

  // Tries every edge at one starting point.
  method WalkFrom(adjacency: map<Point, seq<Point>>, ghost g: Graph, ghost edges: set<Edge>, start: Point,
                  lines0: seq<seq<Point>>, ghost walks0: seq<seq<Point>>, used0: set<Edge>)
    returns (lines: seq<seq<Point>>, ghost walks: seq<seq<Point>>, used: set<Edge>)
    requires IsAdjacency(adjacency, g) && Undirected(g) && Bounds(edges, g) && start in adjacency
    requires IsLog(g, walks0) && used0 == UsedBy(walks0) && lines0 == LongEnough(walks0)
    requires LooseEndsFirst(g, start, used0)
    ensures IsLog(g, walks) && used == UsedBy(walks) && lines == LongEnough(walks)
    ensures used0 <= used && Spent(g, start, used)
  {
    lines, walks, used := lines0, walks0, used0;
    for i := 0 to |adjacency[start]|
      invariant IsLog(g, walks) && used == UsedBy(walks) && lines == LongEnough(walks)
      invariant used0 <= used
      invariant forall k :: 0 <= k < i ==> Key(start, adjacency[start][k]) in used
    {
      var first := adjacency[start][i];
      if Key(start, first) !in used {
        var line;
        line, used := Follow(adjacency, g, edges, start, first, used);
        ExtendLog(g, walks, line);
        lines := lines + if |line| >= 4 then [line] else [];
        walks := walks + [line];
      }
    }
  }

  lemma LooseEndsComeFirst(adjacency: map<Point, seq<Point>>, g: Graph, starts: seq<Point>, i: nat, used: set<Edge>)
    requires IsAdjacency(adjacency, g) && Sorted(adjacency, starts) && i < |starts|
    requires forall p :: p in starts <==> p in adjacency
    requires forall k :: 0 <= k < i ==> Spent(g, starts[k], used)
    ensures LooseEndsFirst(g, starts[i], used)
  {
    if |g(starts[i])| == 2 {
      forall p | |g(p)| == 1 ensures Spent(g, p, used) {
        var k :| 0 <= k < |starts| && starts[k] == p;
        assert k > i ==> StartsBefore(adjacency, starts[i], starts[k]);
      }
    }
  }

  // Tries every starting point in turn.
  method WalkAll(adjacency: map<Point, seq<Point>>, ghost g: Graph, ghost edges: set<Edge>)
    returns (lines: seq<seq<Point>>, ghost walks: seq<seq<Point>>)
    requires IsAdjacency(adjacency, g) && Undirected(g) && Bounds(edges, g)
    ensures IsLog(g, walks) && lines == LongEnough(walks)
    ensures forall p :: Spent(g, p, UsedBy(walks))
  {
    var starts := SortedStarts(adjacency);
    var used: set<Edge> := {};
    lines, walks := [], [];
    for i := 0 to |starts|
      invariant IsLog(g, walks) && used == UsedBy(walks) && lines == LongEnough(walks)
      invariant forall k :: 0 <= k < i ==> Spent(g, starts[k], used)
    {
      LooseEndsComeFirst(adjacency, g, starts, i, used);
      lines, walks, used := WalkFrom(adjacency, g, edges, starts[i], lines, walks, used);
    }
    forall p ensures Spent(g, p, used) {
      assert g(p) != [] ==> p in starts;
    }
  }

  // Walks that use every segment exactly once; on a curve, one for each component.
  ghost predicate IsDecomposition(segments: seq<Segment>, walks: seq<seq<Point>>) {
    && AreTrails(GraphOf(segments), walks) && UsedBy(walks) == EdgeSet(segments)
    && (IsCurve(GraphOf(segments)) ==> AreComponents(GraphOf(segments), walks))
  }

  // The lines are the walks of at least four points.
  method SegmentsToLines(segments: seq<Segment>) returns (lines: seq<seq<Point>>)
    ensures exists walks :: IsDecomposition(segments, walks) && lines == LongEnough(walks)
  {
    hide AreTrails, AreComponents, UsedBy, EdgeSet, IsLog, IsCurve, LongEnough, Undirected, Bounds, IsAdjacency, Spent,
      GraphOf;
    var adjacency := BuildAdjacency(segments);
    GraphIsUndirected(segments);
    EdgesBoundGraph(segments);
    ghost var walks;
    lines, walks := WalkAll(adjacency, GraphOf(segments), EdgeSet(segments));
    AllEdgesUsed(segments, UsedBy(walks));
    LogIsTrails(GraphOf(segments), walks);
    OnlyEdgesUsed(segments, walks);
    if IsCurve(GraphOf(segments)) { LogIsComponents(GraphOf(segments), walks); }
    assert IsDecomposition(segments, walks);
  }

  lemma EdgesBoundGraph(segments: seq<Segment>)
    ensures Bounds(EdgeSet(segments), GraphOf(segments))
  {
    forall p, q | q in GraphOf(segments)(p) ensures Key(p, q) in EdgeSet(segments) {
      NeighboursAreJoined(segments, p, q);
      assert Key(p, q) == Key(q, p);
    }
  }

  lemma AllEdgesUsed(segments: seq<Segment>, used: set<Edge>)
    requires forall p :: Spent(GraphOf(segments), p, used)
    ensures EdgeSet(segments) <= used
  {
    forall s | s in segments ensures Key(s.left, s.right) in used {
      NeighboursAreJoined(segments, s.left, s.right);
      assert Segment(s.left, s.right) in segments;
      assert Spent(GraphOf(segments), s.left, used);
    }
  }

  lemma OnlyEdgesUsed(segments: seq<Segment>, walks: seq<seq<Point>>)
    requires AreTrails(GraphOf(segments), walks)
    ensures UsedBy(walks) <= EdgeSet(segments)
  {
    EdgesBoundGraph(segments);
    forall e | e in UsedBy(walks) ensures e in EdgeSet(segments) {
      UsedByContains(walks, e);
      var w :| w in walks && e in StepSet(w);
      var i := EdgeOfStep(w, e);
      assert w[i + 1] in GraphOf(segments)(w[i]);
    }
  }

  lemma {:induction false} EdgeOfStep(line: seq<Point>, e: Edge) returns (i: nat)
    requires e in StepSet(line)
    ensures i < |line| - 1 && e == Key(line[i], line[i + 1])
  {
    var n := |line|;
    if e == Key(line[n - 2], line[n - 1]) {
      i := n - 2;
    } else {
      i := EdgeOfStep(line[..n - 1], e);
    }
  }
}
