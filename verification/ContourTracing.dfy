/** What the walks of a bitmap's contour graph are: its connected components. */
module ContourTracing {
  import opened Contours
  import opened ContourWalks

  ghost predicate IsPath(g: Graph, path: seq<Point>, p: Point, q: Point) {
    path != [] && path[0] == p && Last(path) == q && Contiguous(g, path)
  }

  ghost predicate Connected(g: Graph, p: Point, q: Point) {
    exists path :: IsPath(g, path, p, q)
  }

  ghost predicate SameWalk(walks: seq<seq<Point>>, p: Point, q: Point) {
    exists w :: w in walks && p in w && q in w
  }

  function Reversed(path: seq<Point>): seq<Point> {
    seq(|path|, i requires 0 <= i < |path| => path[|path| - 1 - i])
  }

  lemma ReversedPath(g: Graph, path: seq<Point>, p: Point, q: Point)
    requires Undirected(g) && IsPath(g, path, p, q)
    ensures IsPath(g, Reversed(path), q, p)
  {
    var n := |path|;
    forall i | 0 <= i < n - 1 ensures Reversed(path)[i + 1] in g(Reversed(path)[i]) {
      assert path[n - 2 - i + 1] in g(path[n - 2 - i]);
    }
  }

  lemma AlongWalk(g: Graph, w: seq<Point>, p: Point, q: Point)
    requires Undirected(g) && Contiguous(g, w) && p in w && q in w
    ensures Connected(g, p, q)
  {
    var i :| 0 <= i < |w| && w[i] == p;
    var j :| 0 <= j < |w| && w[j] == q;
    if i <= j {
      assert IsPath(g, w[i..j + 1], p, q);
    } else {
      assert IsPath(g, w[j..i + 1], q, p);
      ReversedPath(g, w[j..i + 1], q, p);
    }
  }

  lemma {:induction false} PathStaysOnWalk(g: Graph, path: seq<Point>, w: seq<Point>)
    requires path != [] && Contiguous(g, path) && path[0] in w && IsComplete(g, w)
    ensures Last(path) in w
  {
    if |path| > 1 {
      var init, q := path[..|path| - 1], Last(path);
      PathStaysOnWalk(g, init, w);
      assert path[|path| - 2 + 1] in g(path[|path| - 2]);
      var i := StepsTouchLine(w, Last(init), q);
    }
  }

  lemma EveryPointOnAWalk(g: Graph, walks: seq<seq<Point>>, p: Point)
    requires g(p) != [] && Spent(g, p, UsedBy(walks))
    ensures exists w :: w in walks && p in w
  {
    var q := g(p)[0];
    UsedByContains(walks, Key(p, q));
    var w :| w in walks && Key(p, q) in StepSet(w);
    var i := StepsTouchLine(w, p, q);
  }

  // Two contour points are connected exactly when one walk passes through both.
  lemma WalksAreComponents(g: Graph, walks: seq<seq<Point>>, p: Point, q: Point)
    requires Undirected(g) && AreTrails(g, walks) && AreComponents(g, walks)
    requires g(p) != [] && Spent(g, p, UsedBy(walks))
    ensures Connected(g, p, q) <==> SameWalk(walks, p, q)
  {
    if Connected(g, p, q) {
      var path :| IsPath(g, path, p, q);
      EveryPointOnAWalk(g, walks, p);
      var w :| w in walks && p in w;
      PathStaysOnWalk(g, path, w);
    }
    if SameWalk(walks, p, q) {
      var w :| w in walks && p in w && q in w;
      AlongWalk(g, w, p, q);
    }
  }

  lemma ContoursAreCurves(mask: Mask)
    requires mask.Valid()
    ensures IsCurve(GraphOf(AllSegments(mask)))
  {
    forall p
      ensures var n := Neighbours(AllSegments(mask), p);
              |n| <= 2 && NoRepeats(n) && p !in n
    {
      PartnersAreDistinct(mask, p);
    }
  }

  lemma SeparatorsAreContourPoints(mask: Mask, p: Point)
    requires mask.Valid() && Separates(mask, p) && mask.width > 1 && |mask.rows| > 1
    ensures GraphOf(AllSegments(mask))(p) != []
  {
    ContourDegree(mask, p);
  }

  lemma LooseEndsOnBorder(mask: Mask, w: seq<Point>)
    requires mask.Valid() && IsComponentWalk(GraphOf(AllSegments(mask)), w) && w[0] != Last(w)
    ensures OnBorder(mask, w[0]) && OnBorder(mask, Last(w))
  {
    ContourDegree(mask, w[0]);
    ContourDegree(mask, Last(w));
  }

  // What is left after the short walks are dropped.
  lemma {:induction false} LongOnes(walks: seq<seq<Point>>, w: seq<Point>)
    ensures w in LongEnough(walks) <==> w in walks && |w| >= 4
  {
    if walks != [] {
      LongOnes(walks[..|walks| - 1], w);
      SplitLast(walks);
    }
  }

  lemma {:induction false} LongOnesShareNoPoint(g: Graph, walks: seq<seq<Point>>)
    requires AreComponents(g, walks)
    ensures AreComponents(g, LongEnough(walks))
  {
    if walks != [] {
      var init, last := walks[..|walks| - 1], walks[|walks| - 1];
      LongOnesShareNoPoint(g, init);
      var long := LongEnough(init);
      forall i | 0 <= i < |long| ensures ShareNoPoint(long[i], last) {
        LongOnes(init, long[i]);
        var k :| 0 <= k < |init| && init[k] == long[i];
        assert ShareNoPoint(walks[k], walks[|walks| - 1]);
      }
    }
  }

  // Each line runs through one whole component of the graph, no two are the same one, and every other point
  // lies on a component too short for a line.
  ghost predicate TracesComponents(g: Graph, lines: seq<seq<Point>>) {
    && AreComponents(g, lines)
    && (forall line :: line in lines ==> Contiguous(g, line))
    && (forall line, p, q :: line in lines && p in line ==> (Connected(g, p, q) <==> q in line))
    && (forall p :: g(p) != [] ==> exists w :: p in w && IsComponentWalk(g, w) && (w in lines || |w| < 4))
  }

  lemma LineIsComponent(g: Graph, w: seq<Point>, p: Point, q: Point)
    requires Undirected(g) && Contiguous(g, w) && IsComponentWalk(g, w) && p in w
    ensures Connected(g, p, q) <==> q in w
  {
    if Connected(g, p, q) {
      var path :| IsPath(g, path, p, q);
      PathStaysOnWalk(g, path, w);
    }
    if q in w { AlongWalk(g, w, p, q); }
  }

  lemma LongWalksTrace(segments: seq<Segment>, walks: seq<seq<Point>>)
    requires IsDecomposition(segments, walks) && IsCurve(GraphOf(segments))
    ensures TracesComponents(GraphOf(segments), LongEnough(walks))
  {
    var g := GraphOf(segments);
    GraphIsUndirected(segments);
    EdgesBoundGraph(segments);
    LongOnesShareNoPoint(g, walks);
    forall line | line in LongEnough(walks) ensures Contiguous(g, line) {
      LongOnes(walks, line);
    }
    forall line, p, q | line in LongEnough(walks) && p in line ensures Connected(g, p, q) <==> q in line {
      LongOnes(walks, line);
      LineIsComponent(g, line, p, q);
    }
    forall p | g(p) != [] ensures exists w :: p in w && IsComponentWalk(g, w) && (w in LongEnough(walks) || |w| < 4) {
      EveryPointOnAWalk(g, walks, p);
      var w :| w in walks && p in w;
      LongOnes(walks, w);
    }
  }

  // From bitmap to lines: the walks use every edge of the contour graph once, the long ones are the
  // lines, and a line that is not closed starts and ends on the border.
  method TraceContours(mask: Mask) returns (lines: seq<seq<Point>>)
    requires mask.Valid()
    ensures exists walks :: IsDecomposition(AllSegments(mask), walks) && lines == LongEnough(walks)
    ensures TracesComponents(GraphOf(AllSegments(mask)), lines)
    ensures forall line :: line in lines ==>
      |line| >= 4 && (line[0] != Last(line) ==> OnBorder(mask, line[0]) && OnBorder(mask, Last(line)))
  {
    var segments := MarchingSegments(mask);
    lines := SegmentsToLines(segments);
    ghost var walks :| IsDecomposition(segments, walks) && lines == LongEnough(walks);
    ContoursAreCurves(mask);
    LongWalksTrace(segments, walks);
    forall line | line in lines
      ensures |line| >= 4 && (line[0] != Last(line) ==> OnBorder(mask, line[0]) && OnBorder(mask, Last(line)))
    {
      LongOnes(walks, line);
      if line[0] != Last(line) { LooseEndsOnBorder(mask, line); }
    }
  }
}
