/**
  Raster to contour: marching squares over a bitmap and the decomposition of the
  resulting graph into walks.  Half-integer lattice points are stored doubled, so
  the midpoint (x + 0.5, y) is Point(2x + 1, 2y).
*/
module Contours {

  datatype Point = Point(x: int, y: int)
  datatype Segment = Segment(left: Point, right: Point)
  datatype Edge = Edge(low: Point, high: Point)

  // ----- the bitmap and its marching-squares segments ---------------------------

  datatype Mask = Mask(width: nat, rows: seq<seq<bool>>) {
    predicate Valid() {
      forall y :: 0 <= y < |rows| ==> |rows[y]| == width
    }

    predicate IsPixel(x: int, y: int) {
      0 <= x < width && 0 <= y < |rows|
    }

    // A cell is a square of four neighbouring pixels, named by its top-left pixel.
    predicate IsCell(x: int, y: int) {
      0 <= x < width - 1 && 0 <= y < |rows| - 1
    }

    predicate At(x: int, y: int)
      requires Valid() && IsPixel(x, y)
    {
      rows[y][x]
    }
  }

  // The cell edges are numbered 0 top, 1 right, 2 bottom, 3 left.
  function Marching(code: nat): (pairs: seq<(nat, nat)>)
    requires code < 16
    ensures |pairs| <= 2
    ensures forall pair :: pair in pairs ==> pair.0 < 4 && pair.1 < 4
  {
    match code
    case 0 => []
    case 1 => [(3, 0)]
    case 2 => [(0, 1)]
    case 3 => [(3, 1)]
    case 4 => [(1, 2)]
    case 5 => [(3, 2), (0, 1)]
    case 6 => [(0, 2)]
    case 7 => [(3, 2)]
    case 8 => [(2, 3)]
    case 9 => [(0, 2)]
    case 10 => [(0, 3), (1, 2)]
    case 11 => [(1, 2)]
    case 12 => [(1, 3)]
    case 13 => [(0, 1)]
    case 14 => [(3, 0)]
    case _ => []
  }

  function EdgePoint(edge: nat, x: int, y: int): Point
    requires edge < 4
  {
    match edge
    case 0 => Point(2 * x + 1, 2 * y)
    case 1 => Point(2 * x + 2, 2 * y + 1)
    case 2 => Point(2 * x + 1, 2 * y + 2)
    case 3 => Point(2 * x, 2 * y + 1)
  }

  function Code(topLeft: bool, topRight: bool, bottomRight: bool, bottomLeft: bool): (code: nat)
    ensures code < 16
  {
    (if topLeft then 1 else 0) + (if topRight then 2 else 0)
    + (if bottomRight then 4 else 0) + (if bottomLeft then 8 else 0)
  }

  function CellCode(mask: Mask, x: int, y: int): (code: nat)
    requires mask.Valid() && mask.IsCell(x, y)
    ensures code < 16
  {
    Code(mask.At(x, y), mask.At(x + 1, y), mask.At(x + 1, y + 1), mask.At(x, y + 1))
  }

  predicate EdgePairs(pairs: seq<(nat, nat)>) {
    forall pair :: pair in pairs ==> pair.0 < 4 && pair.1 < 4
  }

  function PairSegments(pairs: seq<(nat, nat)>, x: int, y: int): seq<Segment>
    requires EdgePairs(pairs)
  {
    if pairs == [] then []
    else
      var last := pairs[|pairs| - 1];
      PairSegments(pairs[..|pairs| - 1], x, y)
      + [Segment(EdgePoint(last.0, x, y), EdgePoint(last.1, x, y))]
  }

  function CellSegments(mask: Mask, x: int, y: int): seq<Segment>
    requires mask.Valid() && mask.IsCell(x, y)
  {
    PairSegments(Marching(CellCode(mask, x, y)), x, y)
  }

  function CellColumns(mask: Mask): nat {
    if mask.width == 0 then 0 else mask.width - 1
  }

  function CellRows(mask: Mask): nat {
    if |mask.rows| == 0 then 0 else |mask.rows| - 1
  }

  function Flatten(blocks: seq<seq<Segment>>): seq<Segment> {
    if blocks == [] then [] else Flatten(blocks[..|blocks| - 1]) + blocks[|blocks| - 1]
  }

  function RowCells(mask: Mask, y: nat): (cells: seq<seq<Segment>>)
    requires mask.Valid() && y < CellRows(mask)
  {
    seq(CellColumns(mask), x requires 0 <= x < CellColumns(mask) => CellSegments(mask, x, y))
  }

  function CellRowBlocks(mask: Mask): (rows: seq<seq<Segment>>)
    requires mask.Valid()
  {
    seq(CellRows(mask), y requires 0 <= y < CellRows(mask) => Flatten(RowCells(mask, y)))
  }

  function AllSegments(mask: Mask): seq<Segment>
    requires mask.Valid()
  {
    Flatten(CellRowBlocks(mask))
  }

  method AppendPairs(segments: seq<Segment>, pairs: seq<(nat, nat)>, x: int, y: int)
    returns (longer: seq<Segment>)
    requires EdgePairs(pairs)
    ensures longer == segments + PairSegments(pairs, x, y)
  {
    longer := segments;
    for k := 0 to |pairs|
      invariant longer == segments + PairSegments(pairs[..k], x, y)
    {
      assert pairs[..k + 1][..k] == pairs[..k];
      longer := longer + [Segment(EdgePoint(pairs[k].0, x, y), EdgePoint(pairs[k].1, x, y))];
    }
    assert pairs[..|pairs|] == pairs;
  }

  lemma FlattenOneMore(segments: seq<Segment>, cells: seq<seq<Segment>>, x: nat)
    requires x < |cells|
    ensures segments + Flatten(cells[..x]) + cells[x] == segments + Flatten(cells[..x + 1])
  {
    assert cells[..x + 1][..x] == cells[..x];
  }

  method AppendRow(segments: seq<Segment>, mask: Mask, y: nat) returns (longer: seq<Segment>)
    requires mask.Valid() && y < CellRows(mask)
    ensures longer == segments + Flatten(RowCells(mask, y))
  {
    ghost var cells := RowCells(mask, y);
    longer := segments;
    for x := 0 to CellColumns(mask)
      invariant longer == segments + Flatten(cells[..x])
    {
      FlattenOneMore(segments, cells, x);
      longer := AppendPairs(longer, Marching(CellCode(mask, x, y)), x, y);
    }
    assert cells[..|cells|] == cells;
  }

  method MarchingSegments(mask: Mask) returns (segments: seq<Segment>)
    requires mask.Valid()
    ensures segments == AllSegments(mask)
  {
    segments := [];
    ghost var rows := CellRowBlocks(mask);
    for y := 0 to CellRows(mask)
      invariant segments == Flatten(rows[..y])
    {
      assert rows[..y + 1][..y] == rows[..y];
      segments := AppendRow(segments, mask, y);
    }
    assert rows[..|rows|] == rows;
  }

  // ----- the contour graph --------------------------------------------------------

  function Ends(segment: Segment, p: Point): seq<Point> {
    (if segment.left == p then [segment.right] else [])
    + (if segment.right == p then [segment.left] else [])
  }

  // The points joined to p, in the order in which the segments list them.
  function Neighbours(segments: seq<Segment>, p: Point): seq<Point> {
    if segments == [] then []
    else Neighbours(segments[..|segments| - 1], p) + Ends(segments[|segments| - 1], p)
  }

  lemma {:induction false} NeighboursConcat(a: seq<Segment>, b: seq<Segment>, p: Point)
    ensures Neighbours(a + b, p) == Neighbours(a, p) + Neighbours(b, p)
  {
    if b == [] {
      assert a + b == a;
    } else {
      var init, last := b[..|b| - 1], b[|b| - 1];
      NeighboursConcat(a, init, p);
      hide Ends;
      assert (a + b)[..|a + b| - 1] == a + init && (a + b)[|a + b| - 1] == last;
    }
  }

  ghost predicate Joined(segments: seq<Segment>, p: Point, q: Point) {
    Segment(p, q) in segments || Segment(q, p) in segments
  }

  lemma {:induction false} NeighboursAreJoined(segments: seq<Segment>, p: Point, q: Point)
    ensures q in Neighbours(segments, p) <==> Joined(segments, p, q)
  {
    if segments != [] {
      var init, last := segments[..|segments| - 1], segments[|segments| - 1];
      NeighboursAreJoined(init, p, q);
      assert segments == init + [last];
    }
  }

  // ----- degree of a lattice point -------------------------------------------------

  function PartnersIn(mask: Mask, x: int, y: int, p: Point): seq<Point>
    requires mask.Valid()
  {
    if mask.IsCell(x, y) then Neighbours(CellSegments(mask, x, y), p) else []
  }

  // The two cells that share the lattice point p as an edge midpoint, earlier one first.
  function FirstCell(p: Point): (int, int) {
    if p.x % 2 == 1 then ((p.x - 1) / 2, p.y / 2 - 1) else (p.x / 2 - 1, (p.y - 1) / 2)
  }

  function SecondCell(p: Point): (int, int) {
    if p.x % 2 == 1 then ((p.x - 1) / 2, p.y / 2) else (p.x / 2, (p.y - 1) / 2)
  }

  // The two pixels on either side of the midpoint p exist and differ.
  predicate Separates(mask: Mask, p: Point)
    requires mask.Valid()
  {
    if p.x % 2 == 1 then
      p.y % 2 == 0
      && var x, y := (p.x - 1) / 2, p.y / 2;
      mask.IsPixel(x, y) && mask.IsPixel(x + 1, y) && mask.At(x, y) != mask.At(x + 1, y)
    else
      p.y % 2 == 1
      && var x, y := p.x / 2, (p.y - 1) / 2;
      mask.IsPixel(x, y) && mask.IsPixel(x, y + 1) && mask.At(x, y) != mask.At(x, y + 1)
  }

  predicate OnBorder(mask: Mask, p: Point) {
    var a, b := FirstCell(p), SecondCell(p);
    !mask.IsCell(a.0, a.1) || !mask.IsCell(b.0, b.1)
  }

  function PairEnds(pair: (nat, nat), x: int, y: int, p: Point): seq<Point>
    requires pair.0 < 4 && pair.1 < 4
  {
    Ends(Segment(EdgePoint(pair.0, x, y), EdgePoint(pair.1, x, y)), p)
  }

  lemma ShortNeighbours(pairs: seq<(nat, nat)>, x: int, y: int, p: Point)
    requires EdgePairs(pairs) && |pairs| <= 2
    ensures Neighbours(PairSegments(pairs, x, y), p) ==
      (if |pairs| > 0 then PairEnds(pairs[0], x, y, p) else [])
      + (if |pairs| > 1 then PairEnds(pairs[1], x, y, p) else [])
  {
    if |pairs| > 0 {
      assert pairs == pairs[..|pairs| - 1] + [pairs[|pairs| - 1]];
      PairSegmentsLast(pairs, x, y, p);
    }
    if |pairs| == 2 {
      var head := pairs[..1];
      assert head == [pairs[0]] && head[..0] == [];
      PairSegmentsLast(head, x, y, p);
    }
  }

  lemma PairSegmentsLast(pairs: seq<(nat, nat)>, x: int, y: int, p: Point)
    requires EdgePairs(pairs) && pairs != []
    ensures Neighbours(PairSegments(pairs, x, y), p) ==
      Neighbours(PairSegments(pairs[..|pairs| - 1], x, y), p) + PairEnds(pairs[|pairs| - 1], x, y, p)
  {
    var segments, init := PairSegments(pairs, x, y), PairSegments(pairs[..|pairs| - 1], x, y);
    assert segments[..|segments| - 1] == init;
  }

  // Which edge of cell (x, y) the point p is the midpoint of; 4 when it is none.
  function EdgeOf(p: Point, x: int, y: int): (e: nat)
    ensures e < 4 ==> p == EdgePoint(e, x, y)
    ensures e >= 4 ==> forall k: nat :: k < 4 ==> p != EdgePoint(k, x, y)
  {
    if p == EdgePoint(0, x, y) then 0
    else if p == EdgePoint(1, x, y) then 1
    else if p == EdgePoint(2, x, y) then 2
    else if p == EdgePoint(3, x, y) then 3
    else 4
  }

  function EndsAt(pair: (nat, nat), e: nat): nat {
    (if pair.0 == e then 1 else 0) + (if pair.1 == e then 1 else 0)
  }

  // Every table entry joins exactly the edges whose two corners differ, each of them once.
  lemma TableIsBalanced(tl: bool, tr: bool, br: bool, bl: bool, e: nat)
    requires e < 4
    ensures var pairs := Marching(Code(tl, tr, br, bl));
            var differ := match e case 0 => tl != tr case 1 => tr != br case 2 => br != bl case _ => bl != tl;
            (if |pairs| > 0 then EndsAt(pairs[0], e) else 0) + (if |pairs| > 1 then EndsAt(pairs[1], e) else 0)
            == (if differ then 1 else 0)
            && forall pair :: pair in pairs ==> pair.0 != pair.1
  {
  }

  lemma PairEndsAtEdge(pair: (nat, nat), x: int, y: int, e: nat)
    requires pair.0 < 4 && pair.1 < 4 && pair.0 != pair.1 && e < 4
    ensures |PairEnds(pair, x, y, EdgePoint(e, x, y))| == EndsAt(pair, e)
    ensures forall q :: q in PairEnds(pair, x, y, EdgePoint(e, x, y)) ==>
      q != EdgePoint(e, x, y) && EdgeOf(q, x, y) < 4
  {
  }

  lemma NoPartnersOffEdge(pairs: seq<(nat, nat)>, x: int, y: int, p: Point)
    requires EdgePairs(pairs) && |pairs| <= 2
    requires forall e: nat :: e < 4 ==> p != EdgePoint(e, x, y)
    ensures Neighbours(PairSegments(pairs, x, y), p) == []
  {
    ShortNeighbours(pairs, x, y, p);
  }

  lemma EdgeOfCells(p: Point, x: int, y: int)
    ensures EdgeOf(p, x, y) < 4 <==>
      (p.x % 2 == 1) != (p.y % 2 == 1) && (FirstCell(p) == (x, y) || SecondCell(p) == (x, y))
  {
  }

  lemma EdgeHasOnePartner(mask: Mask, x: int, y: int, e: nat)
    requires mask.Valid() && mask.IsCell(x, y) && e < 4
    ensures var p := EdgePoint(e, x, y);
            && |PartnersIn(mask, x, y, p)| == (if Separates(mask, p) then 1 else 0)
            && forall q :: q in PartnersIn(mask, x, y, p) ==> q != p && EdgeOf(q, x, y) < 4
  {
    var pairs, p := Marching(CellCode(mask, x, y)), EdgePoint(e, x, y);
    TableIsBalanced(mask.At(x, y), mask.At(x + 1, y), mask.At(x + 1, y + 1), mask.At(x, y + 1), e);
    CornersDiffer(mask, x, y, e);
    BalancedPairs(pairs, x, y, e);
  }

  lemma BalancedPairs(pairs: seq<(nat, nat)>, x: int, y: int, e: nat)
    requires EdgePairs(pairs) && |pairs| <= 2 && e < 4 && forall pair :: pair in pairs ==> pair.0 != pair.1
    ensures var p := EdgePoint(e, x, y);
            var partners := Neighbours(PairSegments(pairs, x, y), p);
            && |partners| == (if |pairs| > 0 then EndsAt(pairs[0], e) else 0)
              + (if |pairs| > 1 then EndsAt(pairs[1], e) else 0)
            && forall q :: q in partners ==> q != p && EdgeOf(q, x, y) < 4
  {
    ShortNeighbours(pairs, x, y, EdgePoint(e, x, y));
    if |pairs| > 0 { PairEndsAtEdge(pairs[0], x, y, e); }
    if |pairs| > 1 { PairEndsAtEdge(pairs[1], x, y, e); }
  }

  lemma CellPartners(mask: Mask, x: int, y: int, p: Point)
    requires mask.Valid() && mask.IsCell(x, y)
    ensures forall q :: q in PartnersIn(mask, x, y, p) ==> q != p && EdgeOf(q, x, y) < 4
    ensures |PartnersIn(mask, x, y, p)| ==
      (if (FirstCell(p) == (x, y) || SecondCell(p) == (x, y)) && Separates(mask, p) then 1 else 0)
  {
    var e := EdgeOf(p, x, y);
    EdgeOfCells(p, x, y);
    if e < 4 {
      EdgeHasOnePartner(mask, x, y, e);
    } else {
      NoPartnersOffEdge(Marching(CellCode(mask, x, y)), x, y, p);
    }
  }

  lemma CornersDiffer(mask: Mask, x: int, y: int, e: nat)
    requires mask.Valid() && mask.IsCell(x, y) && e < 4
    ensures Separates(mask, EdgePoint(e, x, y)) <==>
      match e
      case 0 => mask.At(x, y) != mask.At(x + 1, y)
      case 1 => mask.At(x + 1, y) != mask.At(x + 1, y + 1)
      case 2 => mask.At(x + 1, y + 1) != mask.At(x, y + 1)
      case _ => mask.At(x, y + 1) != mask.At(x, y)
  {
  }

  function BlockPartners(blocks: seq<seq<Segment>>, k: int, p: Point): seq<Point> {
    if 0 <= k < |blocks| then Neighbours(blocks[k], p) else []
  }

  lemma FlattenLast(blocks: seq<seq<Segment>>, p: Point)
    requires blocks != []
    ensures Neighbours(Flatten(blocks), p) ==
      Neighbours(Flatten(blocks[..|blocks| - 1]), p) + BlockPartners(blocks, |blocks| - 1, p)
  {
    NeighboursConcat(Flatten(blocks[..|blocks| - 1]), blocks[|blocks| - 1], p);
  }

  lemma BlockPartnersInit(blocks: seq<seq<Segment>>, k: int, p: Point)
    requires blocks != [] && k != |blocks| - 1
    ensures BlockPartners(blocks[..|blocks| - 1], k, p) == BlockPartners(blocks, k, p)
  {
  }

  lemma {:induction false} OnlyTwoBlocks(blocks: seq<seq<Segment>>, a: int, b: int, p: Point)
    requires a < b
    requires forall k :: k != a && k != b ==> BlockPartners(blocks, k, p) == []
    ensures Neighbours(Flatten(blocks), p) == BlockPartners(blocks, a, p) + BlockPartners(blocks, b, p)
  {
    if blocks != [] {
      var n := |blocks| - 1;
      forall k | k != a && k != b ensures BlockPartners(blocks[..n], k, p) == [] {
        if k != n { BlockPartnersInit(blocks, k, p); }
      }
      OnlyTwoBlocks(blocks[..n], a, b, p);
      FlattenLast(blocks, p);
      if n != a { BlockPartnersInit(blocks, a, p); }
      if n != b { BlockPartnersInit(blocks, b, p); }
    }
  }

  lemma NoPartnersElsewhere(mask: Mask, x: int, y: int, p: Point)
    requires mask.Valid()
    requires FirstCell(p) != (x, y) && SecondCell(p) != (x, y)
    ensures PartnersIn(mask, x, y, p) == []
  {
    if mask.IsCell(x, y) { CellPartners(mask, x, y, p); }
  }

  function PartnersOf(mask: Mask, p: Point): ((int, int)) -> seq<Point>
    requires mask.Valid()
  {
    (cell: (int, int)) => PartnersIn(mask, cell.0, cell.1, p)
  }

  // What two cells contribute to row y.
  function Share(partners: ((int, int)) -> seq<Point>, a: (int, int), b: (int, int), y: int): seq<Point> {
    (if a.1 == y then partners(a) else []) + (if b.1 == y then partners(b) else [])
  }

  // The partners of p that row y contributes.
  function RowShare(mask: Mask, y: int, p: Point): seq<Point>
    requires mask.Valid()
  {
    Share(PartnersOf(mask, p), FirstCell(p), SecondCell(p), y)
  }

  lemma RowCellPartners(mask: Mask, y: nat, x: int, p: Point)
    requires mask.Valid() && y < CellRows(mask)
    ensures BlockPartners(RowCells(mask, y), x, p) == PartnersIn(mask, x, y, p)
  {
  }

  lemma CellsAreAdjacent(p: Point)
    ensures var a, b := FirstCell(p), SecondCell(p); b == (a.0, a.1 + 1) || b == (a.0 + 1, a.1)
  {
  }

  // Row y has the partners in the two cells at the columns in question.
  lemma ShareIs(partners: ((int, int)) -> seq<Point>, a: (int, int), b: (int, int), y: int)
    requires b == (a.0, a.1 + 1) || b == (a.0 + 1, a.1)
    requires a != (a.0, y) && b != (a.0, y) ==> partners((a.0, y)) == []
    requires a != (a.0 + 1, y) && b != (a.0 + 1, y) ==> partners((a.0 + 1, y)) == []
    ensures Share(partners, a, b, y) == partners((a.0, y)) + partners((a.0 + 1, y))
  {
  }

  // Both rows together have the partners in both cells.
  lemma SharesAddUp(partners: ((int, int)) -> seq<Point>, a: (int, int), b: (int, int))
    requires b == (a.0, a.1 + 1) || b == (a.0 + 1, a.1)
    ensures Share(partners, a, b, a.1) + Share(partners, a, b, a.1 + 1) == partners(a) + partners(b)
    ensures forall y :: y != a.1 && y != a.1 + 1 ==> Share(partners, a, b, y) == []
  {
  }

  lemma RowShareIs(mask: Mask, y: int, p: Point)
    requires mask.Valid()
    ensures var a := FirstCell(p).0; RowShare(mask, y, p) == PartnersIn(mask, a, y, p) + PartnersIn(mask, a + 1, y, p)
  {
    var a, b := FirstCell(p), SecondCell(p);
    CellsAreAdjacent(p);
    if a != (a.0, y) && b != (a.0, y) { NoPartnersElsewhere(mask, a.0, y, p); }
    if a != (a.0 + 1, y) && b != (a.0 + 1, y) { NoPartnersElsewhere(mask, a.0 + 1, y, p); }
    ShareIs(PartnersOf(mask, p), a, b, y);
  }

  lemma RowCellElsewhere(mask: Mask, y: nat, x: int, p: Point)
    requires mask.Valid() && y < CellRows(mask) && x != FirstCell(p).0 && x != FirstCell(p).0 + 1
    ensures BlockPartners(RowCells(mask, y), x, p) == []
  {
    RowCellPartners(mask, y, x, p);
    NoPartnersElsewhere(mask, x, y, p);
  }

  lemma RowTwoCells(mask: Mask, y: nat, p: Point, a: int)
    requires mask.Valid() && y < CellRows(mask) && a == FirstCell(p).0
    ensures Neighbours(Flatten(RowCells(mask, y)), p) == BlockPartners(RowCells(mask, y), a, p)
      + BlockPartners(RowCells(mask, y), a + 1, p)
  {
    hide Neighbours, Flatten, RowCells, BlockPartners, FirstCell;
    forall x | x != a && x != a + 1 ensures BlockPartners(RowCells(mask, y), x, p) == [] {
      RowCellElsewhere(mask, y, x, p);
    }
    OnlyTwoBlocks(RowCells(mask, y), a, a + 1, p);
  }

  lemma RowPartners(mask: Mask, y: nat, p: Point)
    requires mask.Valid() && y < CellRows(mask)
    ensures Neighbours(Flatten(RowCells(mask, y)), p) == RowShare(mask, y, p)
  {
    hide Neighbours, Flatten, RowCells, BlockPartners, RowShare, PartnersIn, FirstCell;
    var a := FirstCell(p).0;
    RowTwoCells(mask, y, p, a);
    RowCellPartners(mask, y, a, p);
    RowCellPartners(mask, y, a + 1, p);
    RowShareIs(mask, y, p);
  }

  lemma RowBlockPartners(mask: Mask, y: int, p: Point)
    requires mask.Valid()
    ensures BlockPartners(CellRowBlocks(mask), y, p) == RowShare(mask, y, p)
  {
    if 0 <= y < CellRows(mask) { RowPartners(mask, y, p); }
  }

  lemma AllPartners(mask: Mask, p: Point)
    requires mask.Valid()
    ensures var a, b := FirstCell(p), SecondCell(p);
            Neighbours(AllSegments(mask), p) == PartnersIn(mask, a.0, a.1, p) + PartnersIn(mask, b.0, b.1, p)
  {
    var a := FirstCell(p).1;
    CellsAreAdjacent(p);
    SharesAddUp(PartnersOf(mask, p), FirstCell(p), SecondCell(p));
    forall y | y != a && y != a + 1 ensures BlockPartners(CellRowBlocks(mask), y, p) == [] {
      RowBlockPartners(mask, y, p);
    }
    OnlyTwoBlocks(CellRowBlocks(mask), a, a + 1, p);
    RowBlockPartners(mask, a, p);
    RowBlockPartners(mask, a + 1, p);
  }

  // A lattice point between two differing pixels has one contour edge in each cell that
  // touches it: two inside the bitmap, one on its border.  Every other point has none.
  lemma ContourDegree(mask: Mask, p: Point)
    requires mask.Valid()
    ensures var a, b := FirstCell(p), SecondCell(p);
            var degree := |Neighbours(AllSegments(mask), p)|;
            degree == (if Separates(mask, p)
                       then (if mask.IsCell(a.0, a.1) then 1 else 0) + (if mask.IsCell(b.0, b.1) then 1 else 0)
                       else 0)
            && (Separates(mask, p) && !OnBorder(mask, p) ==> degree == 2)
            && (degree == 1 ==> OnBorder(mask, p))
  {
    AllPartners(mask, p);
    var a, b := FirstCell(p), SecondCell(p);
    if mask.IsCell(a.0, a.1) { CellPartners(mask, a.0, a.1, p); }
    if mask.IsCell(b.0, b.1) { CellPartners(mask, b.0, b.1, p); }
  }

  ghost predicate NoRepeats<T>(s: seq<T>) {
    forall i, j :: 0 <= i < j < |s| ==> s[i] != s[j]
  }

  lemma PartnersShape(mask: Mask, x: int, y: int, p: Point)
    requires mask.Valid()
    ensures var n := PartnersIn(mask, x, y, p);
            |n| <= 1
            && (|n| == 1 ==> n[0] != p && EdgeOf(n[0], x, y) < 4 && EdgeOf(p, x, y) < 4)
  {
    if mask.IsCell(x, y) {
      CellPartners(mask, x, y, p);
      EdgeOfCells(p, x, y);
    }
  }

  // The contour graph has no loops, no parallel edges, and at most two edges at a point.
  lemma PartnersAreDistinct(mask: Mask, p: Point)
    requires mask.Valid()
    ensures var n := Neighbours(AllSegments(mask), p);
            |n| <= 2 && NoRepeats(n) && p !in n
  {
    var a, b := FirstCell(p), SecondCell(p);
    AllPartners(mask, p);
    PartnersShape(mask, a.0, a.1, p);
    PartnersShape(mask, b.0, b.1, p);
    ShortSequencesJoin(PartnersIn(mask, a.0, a.1, p), PartnersIn(mask, b.0, b.1, p), p);
  }

  lemma ShortSequencesJoin(m: seq<Point>, n: seq<Point>, p: Point)
    requires |m| <= 1 && |n| <= 1
    requires var a, b := FirstCell(p), SecondCell(p);
             (|m| == 1 ==> m[0] != p && EdgeOf(m[0], a.0, a.1) < 4 && EdgeOf(p, a.0, a.1) < 4)
             && (|n| == 1 ==> n[0] != p && EdgeOf(n[0], b.0, b.1) < 4 && EdgeOf(p, b.0, b.1) < 4)
    ensures NoRepeats(m + n) && p !in m + n
  {
    if |m| == 1 && |n| == 1 && m[0] == n[0] {
      CellsShareOnePoint(p, m[0]);
    }
  }

  lemma CellsShareOnePoint(p: Point, q: Point)
    requires var a, b := FirstCell(p), SecondCell(p);
             EdgeOf(p, a.0, a.1) < 4 && EdgeOf(q, a.0, a.1) < 4
             && EdgeOf(p, b.0, b.1) < 4 && EdgeOf(q, b.0, b.1) < 4
    ensures p == q
  {
    var a, b := FirstCell(p), SecondCell(p);
    EdgeOfCells(p, a.0, a.1);
    EdgeOfCells(q, a.0, a.1);
    EdgeOfCells(q, b.0, b.1);
  }
}
