/**
  Douglas-Peucker simplification and fitting to the 48 by 48 view box, over exact reals.
  Distances are compared by their squares.
*/
module LineSimplification {
  import opened Wrappers

  datatype Pt = Pt(x: real, y: real)

  // The deviation of a point from the chord between two others.
  type Deviation = (Pt, Pt, Pt) -> real

  const TOLERANCE := 1.15

  // ----- the recursion, over any measure of deviation ----------------------------------

  // Index of the first inner point, below n, that deviates most from the chord.
  function Farthest(points: seq<Pt>, d: Deviation, n: nat): (k: nat)
    requires 2 <= n < |points|
    ensures 1 <= k < n
  {
    if n == 2 then 1
    else
      var k := Farthest(points, d, n - 1);
      if Dev(points, d, n - 1) > Dev(points, d, k) then n - 1 else k
  }

  lemma {:induction false} FarthestDeviatesMost(points: seq<Pt>, d: Deviation, n: nat)
    requires 2 <= n < |points|
    ensures var k := Farthest(points, d, n);
            (forall j :: 1 <= j < n ==> Dev(points, d, j) <= Dev(points, d, k))
            && forall j :: 1 <= j < k ==> Dev(points, d, j) < Dev(points, d, k)
  {
    if n > 2 { FarthestDeviatesMost(points, d, n - 1); }
  }

  function Dev(points: seq<Pt>, d: Deviation, j: nat): real
    requires j < |points|
  {
    d(points[j], points[0], points[|points| - 1])
  }

  // Where to split a line, if anywhere.
  type Splitter = seq<Pt> -> Option<nat>

  // At the point that deviates most from the chord, if that is more than the limit.
  function SplitAt(d: Deviation, limit: real): Splitter {
    points =>
      if |points| <= 2 || Dev(points, d, Farthest(points, d, |points| - 1)) <= limit then None
      else Some(Farthest(points, d, |points| - 1))
  }

  // A line that is not split becomes its chord.
  function Simplify(points: seq<Pt>, split: Splitter): (r: seq<Pt>)
    ensures |points| <= 2 ==> r == points
    ensures |points| > 2 ==> 2 <= |r| <= |points| && r[0] == points[0] && r[|r| - 1] == points[|points| - 1]
    decreases |points|
  {
    if |points| <= 2 then points
    else
      match split(points)
      case None => [points[0], points[|points| - 1]]
      case Some(k) =>
        if 0 < k < |points| - 1 then Joined(Simplify(points[..k + 1], split), Simplify(points[k..], split))
        else [points[0], points[|points| - 1]]
  }

  // Two parts that meet in one element.
  function Joined<T>(left: seq<T>, right: seq<T>): (r: seq<T>)
    requires left != []
    ensures |r| == |left| - 1 + |right|
    ensures |left| > 1 ==> r[0] == left[0]
    ensures right != [] ==> r[|r| - 1] == right[|right| - 1]
  {
    left[..|left| - 1] + right
  }

  // The indices kept in two parts that meet in point k.
  ghost function Merged(left: seq<nat>, right: seq<nat>, k: nat): (r: seq<nat>)
    ensures |left| >= 2 && |right| >= 2 ==> |r| >= 2
  {
    if left == [] then [] else Joined(left, Shift(right, k))
  }

  // The indices of the points that Simplify keeps.
  ghost function Kept(points: seq<Pt>, split: Splitter): (r: seq<nat>)
    ensures |points| >= 2 ==> |r| >= 2
    decreases |points|
  {
    if |points| <= 2 then [0, 1][..|points|]
    else
      match split(points)
      case None => [0, |points| - 1]
      case Some(k) =>
        if 0 < k < |points| - 1 then Merged(Kept(points[..k + 1], split), Kept(points[k..], split), k)
        else [0, |points| - 1]
  }

  ghost function Shift(indices: seq<nat>, k: nat): (r: seq<nat>)
    ensures |r| == |indices|
  {
    if indices == [] then [] else [indices[0] + k] + Shift(indices[1..], k)
  }

  lemma {:induction false} ShiftAt(indices: seq<nat>, k: nat, i: nat)
    requires i < |indices|
    ensures Shift(indices, k)[i] == indices[i] + k
  {
    if i > 0 { ShiftAt(indices[1..], k, i - 1); }
  }

  lemma ShiftEverywhere(indices: seq<nat>, k: nat)
    ensures forall i :: 0 <= i < |indices| ==> Shift(indices, k)[i] == indices[i] + k
  {
    forall i: nat | i < |indices| ensures Shift(indices, k)[i] == indices[i] + k { ShiftAt(indices, k, i); }
  }

  ghost predicate Increasing(indices: seq<nat>, n: nat) {
    && (forall i :: 0 <= i < |indices| ==> indices[i] < n)
    && forall i, j :: 0 <= i < j < |indices| ==> indices[i] < indices[j]
  }

  // kept selects result out of points, from the first point to the last.
  ghost predicate Selects(points: seq<Pt>, kept: seq<nat>, result: seq<Pt>) {
    && |kept| == |result| && Increasing(kept, |points|)
    && (forall i :: 0 <= i < |kept| ==> result[i] == points[kept[i]])
    && (points != [] ==> kept != [] && kept[0] == 0 && kept[|kept| - 1] == |points| - 1)
  }

  // Every point between two of them lies within the limit of their chord.
  ghost predicate CloseBetween(points: seq<Pt>, low: nat, high: nat, d: Deviation, limit: real)
    requires low < |points| && high < |points|
  {
    forall j :: low < j < high ==> d(points[j], points[low], points[high]) <= limit
  }

  // Every dropped point lies within the limit of the chord between the kept points around it.
  ghost predicate Close(points: seq<Pt>, kept: seq<nat>, d: Deviation, limit: real)
    requires Increasing(kept, |points|)
  {
    forall i :: 0 <= i < |kept| - 1 ==> CloseBetween(points, kept[i], kept[i + 1], d, limit)
  }

  // One step of the recursions, unfolded.
  lemma SplitInto(points: seq<Pt>, split: Splitter, k: nat, left: seq<Pt>, right: seq<Pt>)
    requires |points| > 2 && split(points) == Some(k) && 0 < k < |points| - 1
    requires left == Simplify(points[..k + 1], split) && right == Simplify(points[k..], split)
    ensures left != [] && Simplify(points, split) == Joined(left, right)
  {
    hide Joined;
  }

  lemma KeptInto(points: seq<Pt>, split: Splitter, k: nat, left: seq<nat>, right: seq<nat>)
    requires |points| > 2 && split(points) == Some(k) && 0 < k < |points| - 1
    requires left == Kept(points[..k + 1], split) && right == Kept(points[k..], split)
    ensures left != [] && Kept(points, split) == Merged(left, right, k)
  {
  }

  lemma SplitsInside(points: seq<Pt>, d: Deviation, limit: real)
    requires |points| > 2
    ensures var k := Farthest(points, d, |points| - 1);
            SplitAt(d, limit)(points) == (if Dev(points, d, k) > limit then Some(k) else None) && 0 < k < |points| - 1
  {
  }

  lemma {:induction false} KeptIsSound(points: seq<Pt>, d: Deviation, limit: real, split: Splitter)
    requires split == SplitAt(d, limit)
    ensures var kept := Kept(points, split);
            Selects(points, kept, Simplify(points, split)) && Close(points, kept, d, limit)
    decreases |points|
  {
    if |points| > 2 {
      SplitsInside(points, d, limit);
      var k := Farthest(points, d, |points| - 1);
      if Dev(points, d, k) > limit {
        var head, tail := points[..k + 1], points[k..];
        KeptIsSound(head, d, limit, split);
        KeptIsSound(tail, d, limit, split);
        SplitInto(points, split, k, Simplify(head, split), Simplify(tail, split));
        KeptInto(points, split, k, Kept(head, split), Kept(tail, split));
        PartsAreSound(points, k, d, limit, Kept(head, split), Kept(tail, split), Simplify(head, split),
                      Simplify(tail, split));
      } else {
        FarthestDeviatesMost(points, d, |points| - 1);
        ChordIsSound(points, d, limit);
      }
    } else {
      assert Selects(points, [0, 1][..|points|], points);
    }
  }

  lemma ChordIsSound(points: seq<Pt>, d: Deviation, limit: real)
    requires |points| > 2 && forall j :: 1 <= j < |points| - 1 ==> Dev(points, d, j) <= limit
    ensures Selects(points, [0, |points| - 1], [points[0], points[|points| - 1]])
    ensures Close(points, [0, |points| - 1], d, limit)
  {
    forall j: nat | 0 < j < |points| - 1 ensures d(points[j], points[0], points[|points| - 1]) <= limit {
      assert Dev(points, d, j) <= limit;
    }
    assert CloseBetween(points, 0, |points| - 1, d, limit);
  }

  lemma PartsAreSound(points: seq<Pt>, k: nat, d: Deviation, limit: real, left: seq<nat>, right: seq<nat>, a: seq<Pt>,
                      b: seq<Pt>)
    requires 0 < k < |points| - 1 && |left| >= 2 && |right| >= 2
    requires Selects(points[..k + 1], left, a) && Selects(points[k..], right, b)
    requires Close(points[..k + 1], left, d, limit) && Close(points[k..], right, d, limit)
    ensures Selects(points, Joined(left, Shift(right, k)), Joined(a, b))
    ensures Close(points, Joined(left, Shift(right, k)), d, limit)
  {
    JoinSelects(points, k, left, right, a, b);
    JoinClose(points, k, left, right, d, limit);
  }

  lemma JoinIncreases(left: seq<nat>, right: seq<nat>, k: nat, m: nat)
    requires left != [] && right != [] && right[0] == 0 && left[|left| - 1] == k
    requires Increasing(left, k + 1) && Increasing(right, m)
    ensures Increasing(Joined(left, Shift(right, k)), k + m)
  {
    ShiftEverywhere(right, k);
    var kept, n := Joined(left, Shift(right, k)), |left| - 1;
    assert forall i :: 0 <= i < n ==> kept[i] == left[i] < k;
    assert forall i :: n <= i < |kept| ==> kept[i] == right[i - n] + k;
  }

  lemma JoinSelects(points: seq<Pt>, k: nat, left: seq<nat>, right: seq<nat>, a: seq<Pt>, b: seq<Pt>)
    requires 0 < k < |points| - 1 && |left| >= 2 && |right| >= 2
    requires Selects(points[..k + 1], left, a) && Selects(points[k..], right, b)
    ensures a != [] && Selects(points, Joined(left, Shift(right, k)), Joined(a, b))
  {
    ShiftEverywhere(right, k);
    JoinIncreases(left, right, k, |points| - k);
    var kept, n, result := Joined(left, Shift(right, k)), |left| - 1, Joined(a, b);
    forall i | 0 <= i < |kept| ensures result[i] == points[kept[i]] {
      if i < n {
        assert kept[i] == left[i] && result[i] == a[i] == points[..k + 1][left[i]];
      } else {
        assert kept[i] == right[i - n] + k && result[i] == b[i - n] == points[k..][right[i - n]];
      }
    }
  }

  lemma JoinClose(points: seq<Pt>, k: nat, left: seq<nat>, right: seq<nat>, d: Deviation, limit: real)
    requires 0 < k < |points| - 1 && |left| >= 2 && |right| >= 2
    requires Increasing(left, k + 1) && left[|left| - 1] == k && Close(points[..k + 1], left, d, limit)
    requires Increasing(right, |points| - k) && right[0] == 0 && Close(points[k..], right, d, limit)
    requires Increasing(Joined(left, Shift(right, k)), |points|)
    ensures Close(points, Joined(left, Shift(right, k)), d, limit)
  {
    ShiftEverywhere(right, k);
    var kept, n := Joined(left, Shift(right, k)), |left| - 1;
    forall i | 0 <= i < |kept| - 1 ensures CloseBetween(points, kept[i], kept[i + 1], d, limit) {
      if i < n {
        assert kept[i] == left[i] && kept[i + 1] == left[i + 1];
        CloseInHead(points, k, left[i], left[i + 1], d, limit);
      } else {
        assert kept[i] == right[i - n] + k && kept[i + 1] == right[i - n + 1] + k;
        CloseInTail(points, k, right[i - n], right[i - n + 1], d, limit);
      }
    }
  }

  lemma CloseInHead(points: seq<Pt>, k: nat, low: nat, high: nat, d: Deviation, limit: real)
    requires low <= k < |points| && high <= k && CloseBetween(points[..k + 1], low, high, d, limit)
    ensures CloseBetween(points, low, high, d, limit)
  {
    forall j | low < j < high ensures d(points[j], points[low], points[high]) <= limit {
      assert points[..k + 1][j] == points[j];
    }
  }

  lemma CloseInTail(points: seq<Pt>, k: nat, low: nat, high: nat, d: Deviation, limit: real)
    requires k < |points| && low < |points| - k && high < |points| - k && CloseBetween(points[k..], low, high, d, limit)
    ensures CloseBetween(points, low + k, high + k, d, limit)
  {
    forall j | low + k < j < high + k ensures d(points[j], points[low + k], points[high + k]) <= limit {
      assert points[k..][j - k] == points[j];
    }
  }

  // ----- simplifying twice changes nothing ---------------------------------------------

  lemma InnerResultPoint(points: seq<Pt>, d: Deviation, limit: real, split: Splitter, i: nat) returns (j: nat)
    requires split == SplitAt(d, limit) && 0 < i < |Simplify(points, split)| - 1
    ensures 1 <= j < |points| - 1 && Simplify(points, split)[i] == points[j]
  {
    KeptIsSound(points, d, limit, split);
    var kept := Kept(points, split);
    assert kept[0] < kept[i] < kept[|kept| - 1];
    j := kept[i];
  }

  // A line that the recursion does not shorten, in itself and in its parts.
  ghost predicate IsFixed(points: seq<Pt>, split: Splitter)
    decreases |points|
  {
    |points| <= 2
    || match split(points)
       case None => false
       case Some(k) => 0 < k < |points| - 1 && IsFixed(points[..k + 1], split) && IsFixed(points[k..], split)
  }

  lemma {:induction false} FixedStays(points: seq<Pt>, split: Splitter)
    requires IsFixed(points, split)
    ensures Simplify(points, split) == points
    decreases |points|
  {
    if |points| > 2 {
      var k := split(points).value;
      FixedStays(points[..k + 1], split);
      FixedStays(points[k..], split);
      SplitInto(points, split, k, points[..k + 1], points[k..]);
      JoinedSlices(points, k);
    }
  }

  lemma JoinedSlices(points: seq<Pt>, k: nat)
    requires k < |points|
    ensures Joined(points[..k + 1], points[k..]) == points
  {
  }

  lemma JoinedIsFixed(split: Splitter, left: seq<Pt>, right: seq<Pt>)
    requires |left| >= 2 && |right| >= 2 && left[|left| - 1] == right[0]
    requires IsFixed(left, split) && IsFixed(right, split) && split(Joined(left, right)) == Some(|left| - 1)
    ensures IsFixed(Joined(left, right), split)
  {
    CutAtJoint(left, right);
    var result, m := Joined(left, right), |left| - 1;
    assert IsFixed(result[..m + 1], split);
    assert IsFixed(result[m..], split);
  }

  lemma {:induction false} SimplifiedIsFixed(points: seq<Pt>, d: Deviation, limit: real, split: Splitter)
    requires split == SplitAt(d, limit)
    ensures IsFixed(Simplify(points, split), split)
    decreases |points|
  {
    if |points| > 2 {
      SplitsInside(points, d, limit);
      var k := Farthest(points, d, |points| - 1);
      if Dev(points, d, k) > limit {
        var left, right := Simplify(points[..k + 1], split), Simplify(points[k..], split);
        SimplifiedIsFixed(points[..k + 1], d, limit, split);
        SimplifiedIsFixed(points[k..], d, limit, split);
        JoinsFixed(points, d, limit, split, k, left, right);
      }
    }
  }

  lemma JoinsFixed(points: seq<Pt>, d: Deviation, limit: real, split: Splitter, k: nat, left: seq<Pt>, right: seq<Pt>)
    requires split == SplitAt(d, limit)
    requires |points| > 2 && k == Farthest(points, d, |points| - 1) && Dev(points, d, k) > limit
    requires left == Simplify(points[..k + 1], split) && right == Simplify(points[k..], split)
    requires IsFixed(left, split) && IsFixed(right, split)
    ensures IsFixed(Simplify(points, split), split)
  {
    SplitsInside(points, d, limit);
    SplitInto(points, split, k, left, right);
    SplitsWhereItDid(points, d, limit, split, k, left, right);
    JoinedIsFixed(split, left, right);
  }

  // Simplifying a simplified line changes nothing.
  lemma SimplifyIdempotent(points: seq<Pt>, d: Deviation, limit: real)
    ensures var split := SplitAt(d, limit);
            Simplify(Simplify(points, split), split) == Simplify(points, split)
  {
    SimplifiedIsFixed(points, d, limit, SplitAt(d, limit));
    FixedStays(Simplify(points, SplitAt(d, limit)), SplitAt(d, limit));
  }

  lemma PartsMeet(points: seq<Pt>, split: Splitter, k: nat, left: seq<Pt>, right: seq<Pt>)
    requires 0 < k < |points| - 1
    requires left == Simplify(points[..k + 1], split) && right == Simplify(points[k..], split)
    ensures |left| >= 2 && left[0] == points[0] && left[|left| - 1] == points[k]
    ensures |right| >= 2 && right[0] == points[k] && right[|right| - 1] == points[|points| - 1]
  {
  }

  // The point that deviates most from the chord of the result is the one the line was split at.
  lemma SplitsWhereItDid(points: seq<Pt>, d: Deviation, limit: real, split: Splitter, k: nat, left: seq<Pt>,
                         right: seq<Pt>)
    requires split == SplitAt(d, limit)
    requires |points| > 2 && k == Farthest(points, d, |points| - 1) && Dev(points, d, k) > limit
    requires left == Simplify(points[..k + 1], split) && right == Simplify(points[k..], split)
    ensures |left| >= 2 && |right| >= 2 && left[|left| - 1] == right[0]
    ensures split(Joined(left, right)) == Some(|left| - 1)
  {
    PartsMeet(points, split, k, left, right);
    InnerOfHead(points, d, limit, split, k, left);
    InnerOfTail(points, d, limit, split, k, right);
    SplitsThere(points, d, limit, k, left, right);
  }

  lemma SplitsThere(points: seq<Pt>, d: Deviation, limit: real, k: nat, left: seq<Pt>, right: seq<Pt>)
    requires |points| > 2 && k == Farthest(points, d, |points| - 1) && Dev(points, d, k) > limit
    requires |left| >= 2 && left[0] == points[0] && left[|left| - 1] == points[k]
    requires |right| >= 2 && right[0] == points[k] && right[|right| - 1] == points[|points| - 1]
    requires forall i :: 0 < i < |left| - 1 ==> Among(left[i], points, 1, k)
    requires forall i :: 0 < i < |right| - 1 ==> Among(right[i], points, k + 1, |points| - 1)
    ensures SplitAt(d, limit)(Joined(left, right)) == Some(|left| - 1)
  {
    SameFarthest(points, d, k, left, right);
    SplitsInside(Joined(left, right), d, limit);
  }

  ghost predicate Among(p: Pt, points: seq<Pt>, low: nat, high: nat)
    requires high <= |points|
  {
    exists i: nat :: low <= i < high && points[i] == p
  }

  lemma InnerOfHead(points: seq<Pt>, d: Deviation, limit: real, split: Splitter, k: nat, left: seq<Pt>)
    requires split == SplitAt(d, limit) && 0 < k < |points| - 1 && left == Simplify(points[..k + 1], split)
    ensures forall i :: 0 < i < |left| - 1 ==> Among(left[i], points, 1, k)
  {
    forall i: nat | 0 < i < |left| - 1 ensures Among(left[i], points, 1, k) {
      var j := InnerResultPoint(points[..k + 1], d, limit, split, i);
      assert points[j] == left[i];
    }
  }

  lemma InnerOfTail(points: seq<Pt>, d: Deviation, limit: real, split: Splitter, k: nat, right: seq<Pt>)
    requires split == SplitAt(d, limit) && 0 < k < |points| - 1 && right == Simplify(points[k..], split)
    ensures forall i :: 0 < i < |right| - 1 ==> Among(right[i], points, k + 1, |points| - 1)
  {
    forall i: nat | 0 < i < |right| - 1 ensures Among(right[i], points, k + 1, |points| - 1) {
      var j := InnerResultPoint(points[k..], d, limit, split, i);
      assert points[k + j] == right[i];
    }
  }

  lemma CutAtJoint(left: seq<Pt>, right: seq<Pt>)
    requires |left| > 0 && |right| > 0 && left[|left| - 1] == right[0]
    ensures var m := |left| - 1; Joined(left, right)[..m + 1] == left && Joined(left, right)[m..] == right
  {
  }

  lemma FarthestIsFirstMaximum(points: seq<Pt>, d: Deviation, m: nat)
    requires 1 <= m < |points| - 1
    requires forall j :: 1 <= j < m ==> Dev(points, d, j) < Dev(points, d, m)
    requires forall j :: m < j < |points| - 1 ==> Dev(points, d, j) <= Dev(points, d, m)
    ensures Farthest(points, d, |points| - 1) == m
  {
    FarthestDeviatesMost(points, d, |points| - 1);
    var k := Farthest(points, d, |points| - 1);
    assert Dev(points, d, m) <= Dev(points, d, k);
  }

  lemma SameFarthest(points: seq<Pt>, d: Deviation, k: nat, left: seq<Pt>, right: seq<Pt>)
    requires |points| > 2 && k == Farthest(points, d, |points| - 1)
    requires |left| >= 2 && left[0] == points[0] && left[|left| - 1] == points[k]
    requires |right| >= 2 && right[0] == points[k] && right[|right| - 1] == points[|points| - 1]
    requires forall i :: 0 < i < |left| - 1 ==> Among(left[i], points, 1, k)
    requires forall i :: 0 < i < |right| - 1 ==> Among(right[i], points, k + 1, |points| - 1)
    ensures var result := Joined(left, right);
            Farthest(result, d, |result| - 1) == |left| - 1
            && Dev(result, d, |left| - 1) == Dev(points, d, k)
  {
    var result, m := Joined(left, right), |left| - 1;
    FarthestDeviatesMost(points, d, |points| - 1);
    assert result[m] == points[k];
    forall j: nat | 1 <= j < m ensures Dev(result, d, j) < Dev(result, d, m) {
      DeviatesLess(points, d, k, result, m, j, 1, k);
    }
    forall j: nat | m < j < |result| - 1 ensures Dev(result, d, j) <= Dev(result, d, m) {
      DeviatesLess(points, d, k, result, m, j, k + 1, |points| - 1);
    }
    FarthestIsFirstMaximum(result, d, m);
  }

  // A point of the result that comes from a range of the points deviates as it did there.
  lemma DeviatesLess(points: seq<Pt>, d: Deviation, k: nat, result: seq<Pt>, m: nat, j: nat, low: nat, high: nat)
    requires 1 <= low <= high <= |points| - 1 && 1 <= k < |points| - 1 && (high <= k || k < low)
    requires forall i :: 1 <= i < |points| - 1 ==> Dev(points, d, i) <= Dev(points, d, k)
    requires forall i :: 1 <= i < k ==> Dev(points, d, i) < Dev(points, d, k)
    requires m < |result| && j < |result| && result[0] == points[0] && result[|result| - 1] == points[|points| - 1]
    requires result[m] == points[k] && Among(result[j], points, low, high)
    ensures Dev(result, d, j) <= Dev(result, d, m)
    ensures high <= k ==> Dev(result, d, j) < Dev(result, d, m)
  {
    var i: nat :| low <= i < high && points[i] == result[j];
    assert Dev(points, d, i) == Dev(result, d, j);
  }

  // ----- the distances of the program ------------------------------------------------------

  function Product(a: real, b: real): real {
    a * b
  }

  lemma ProductSign(a: real, b: real)
    ensures a > 0.0 && b > 0.0 ==> Product(a, b) > 0.0
    ensures a < 0.0 && b < 0.0 ==> Product(a, b) > 0.0
    ensures a == 0.0 ==> Product(a, b) == 0.0
  {
  }

  function Square(r: real): (s: real)
    ensures s >= 0.0 && (r != 0.0 ==> s > 0.0)
  {
    ProductSign(r, r);
    Product(r, r)
  }

  // Square of the distance from p to the line through start and end, or to start when they coincide.
  function DistanceSq(p: Pt, start: Pt, end: Pt): (d: real) {
    var dx, dy := end.x - start.x, end.y - start.y;
    if dx == 0.0 && dy == 0.0 then
      Square(p.x - start.x) + Square(p.y - start.y)
    else
      Square(dy * p.x - dx * p.y + end.x * start.y - end.y * start.x) / (Square(dx) + Square(dy))
  }

  function SimplifyLine(points: seq<Pt>): (r: seq<Pt>) {
    Simplify(points, SplitAt(DistanceSq, TOLERANCE * TOLERANCE))
  }

  // What is left of a line runs through the same ends, in order, and every point that was
  // dropped lies within the tolerance of the chord that replaces it.  Doing it again changes nothing.
  lemma SimplifyLineIsFaithful(points: seq<Pt>)
    ensures exists kept :: Selects(points, kept, SimplifyLine(points))
                           && Close(points, kept, DistanceSq, TOLERANCE * TOLERANCE)
    ensures SimplifyLine(SimplifyLine(points)) == SimplifyLine(points)
  {
    var split := SplitAt(DistanceSq, TOLERANCE * TOLERANCE);
    KeptIsSound(points, DistanceSq, TOLERANCE * TOLERANCE, split);
    assert Selects(points, Kept(points, split), SimplifyLine(points));
    SimplifyIdempotent(points, DistanceSq, TOLERANCE * TOLERANCE);
  }

  // ----- fitting to the view box --------------------------------------------------------------

  function Flatten(lines: seq<seq<Pt>>): (points: seq<Pt>)
    ensures forall line, p :: line in lines && p in line ==> p in points
    ensures forall p :: p in points ==> exists line :: line in lines && p in line
  {
    if lines == [] then [] else lines[0] + Flatten(lines[1..])
  }

  function Least(values: seq<real>): (r: real)
    requires values != []
    ensures r in values && forall v :: v in values ==> r <= v
  {
    if |values| == 1 then values[0]
    else
      var rest := Least(values[1..]);
      assert forall v :: v in values ==> v == values[0] || v in values[1..];
      if values[0] <= rest then values[0] else rest
  }

  function Greatest(values: seq<real>): (r: real)
    requires values != []
    ensures r in values && forall v :: v in values ==> r >= v
  {
    if |values| == 1 then values[0]
    else
      var rest := Greatest(values[1..]);
      assert forall v :: v in values ==> v == values[0] || v in values[1..];
      if values[0] >= rest then values[0] else rest
  }

  function Xs(points: seq<Pt>): (r: seq<real>) {
    seq(|points|, i requires 0 <= i < |points| => points[i].x)
  }

  function Ys(points: seq<Pt>): (r: seq<real>) {
    seq(|points|, i requires 0 <= i < |points| => points[i].y)
  }

  function Max(a: real, b: real): real {
    if a >= b then a else b
  }

  datatype Frame = Frame(minX: real, maxX: real, minY: real, maxY: real) {
    predicate Valid() {
      minX <= maxX && minY <= maxY
    }

    predicate Holds(p: Pt) {
      minX <= p.x <= maxX && minY <= p.y <= maxY
    }

    function Extent(): (e: real)
      ensures e >= 1.0 && e >= maxX - minX && e >= maxY - minY
    {
      Max(Max(maxX - minX, maxY - minY), 1.0)
    }
  }

  function FrameOf(points: seq<Pt>): (f: Frame)
    requires points != []
  {
    Frame(Least(Xs(points)), Greatest(Xs(points)), Least(Ys(points)), Greatest(Ys(points)))
  }

  lemma FrameIsTight(points: seq<Pt>)
    requires points != []
    ensures var f := FrameOf(points);
            f.Valid() && (forall p :: p in points ==> f.Holds(p))
            && (exists p :: p in points && p.x == f.minX) && (exists p :: p in points && p.x == f.maxX)
            && (exists p :: p in points && p.y == f.minY) && (exists p :: p in points && p.y == f.maxY)
  {
    var xs, ys, f := Xs(points), Ys(points), FrameOf(points);
    forall p | p in points ensures f.Holds(p) {
      var i :| 0 <= i < |points| && points[i] == p;
      assert xs[i] == p.x && ys[i] == p.y;
      assert p.x in xs && p.y in ys;
    }
    var a :| 0 <= a < |xs| && xs[a] == f.minX;
    var b :| 0 <= b < |xs| && xs[b] == f.maxX;
    var c :| 0 <= c < |ys| && ys[c] == f.minY;
    var e :| 0 <= e < |ys| && ys[e] == f.maxY;
    assert points[a] in points && points[b] in points && points[c] in points && points[e] in points;
  }

  function Fit(value: real, low: real, high: real, extent: real): real
    requires extent > 0.0
  {
    var scale := 40.0 / extent;
    var offset := 24.0 - (low + high) * scale / 2.0;
    value * scale + offset
  }

  lemma FitIsCentred(value: real, low: real, high: real, extent: real)
    requires extent > 0.0
    ensures Fit(value, low, high, extent) == 24.0 + (value - (low + high) / 2.0) * (40.0 / extent)
  {
    var scale := 40.0 / extent;
    assert (low + high) * scale / 2.0 == (low + high) / 2.0 * scale;
    assert value * scale - (low + high) / 2.0 * scale == (value - (low + high) / 2.0) * scale;
  }

  lemma FitInBox(value: real, low: real, high: real, extent: real)
    requires low <= value <= high && extent >= high - low && extent > 0.0
    ensures 4.0 <= Fit(value, low, high, extent) <= 44.0
  {
    FitIsCentred(value, low, high, extent);
    var t, scale := value - (low + high) / 2.0, 40.0 / extent;
    assert -extent / 2.0 <= t <= extent / 2.0;
    ScaleBound(t, extent, scale);
  }

  lemma ScaleBound(t: real, extent: real, scale: real)
    requires extent > 0.0 && scale == 40.0 / extent && -extent / 2.0 <= t <= extent / 2.0
    ensures -20.0 <= t * scale <= 20.0
  {
    assert scale > 0.0;
    assert extent * scale == 40.0;
    assert (extent / 2.0 - t) * scale >= 0.0;
    assert (t + extent / 2.0) * scale >= 0.0;
  }

  // The axis that determines the extent is stretched from margin to margin.
  lemma FitFillsBox(low: real, high: real, extent: real)
    requires extent == high - low && extent > 0.0
    ensures Fit(low, low, high, extent) == 4.0 && Fit(high, low, high, extent) == 44.0
  {
    FitIsCentred(low, low, high, extent);
    FitIsCentred(high, low, high, extent);
    var scale := 40.0 / extent;
    assert extent * scale == 40.0;
    assert (low - (low + high) / 2.0) * scale == -(extent * scale) / 2.0;
    assert (high - (low + high) / 2.0) * scale == extent * scale / 2.0;
  }

  function FitPoint(p: Pt, f: Frame): Pt {
    Pt(Fit(p.x, f.minX, f.maxX, f.Extent()), Fit(p.y, f.minY, f.maxY, f.Extent()))
  }

  function FitLines(lines: seq<seq<Pt>>, f: Frame): (r: seq<seq<Pt>>) {
    seq(|lines|, i requires 0 <= i < |lines| =>
      seq(|lines[i]|, j requires 0 <= j < |lines[i]| => FitPoint(lines[i][j], f)))
  }

  // The lines worth drawing: at least four points, and long enough once simplified.
  function Usable(lines: seq<seq<Pt>>, longEnough: seq<Pt> -> bool): (r: seq<seq<Pt>>)
    ensures forall line :: line in r ==> line != []
  {
    if lines == [] then []
    else
      var simplified := SimplifyLine(lines[0]);
      (if |lines[0]| >= 4 && longEnough(simplified) then [simplified] else []) + Usable(lines[1..], longEnough)
  }

  function NormalizeLines(lines: seq<seq<Pt>>, longEnough: seq<Pt> -> bool): (r: seq<seq<Pt>>) {
    var usable := Usable(lines, longEnough);
    if usable == [] then []
    else
      assert usable[0] in usable && usable[0][0] in usable[0];
      FitLines(usable, FrameOf(Flatten(usable)))
  }

  // Every drawn coordinate lies between 4 and 44.
  lemma NormalizedFitsBox(lines: seq<seq<Pt>>, longEnough: seq<Pt> -> bool)
    ensures var r := NormalizeLines(lines, longEnough);
            forall line, p :: line in r && p in line ==> 4.0 <= p.x <= 44.0 && 4.0 <= p.y <= 44.0
  {
    var usable, r := Usable(lines, longEnough), NormalizeLines(lines, longEnough);
    if usable != [] {
      assert usable[0] in usable && usable[0][0] in usable[0];
      FrameIsTight(Flatten(usable));
      var f := FrameOf(Flatten(usable));
      forall line, p | line in r && p in line ensures 4.0 <= p.x <= 44.0 && 4.0 <= p.y <= 44.0 {
        var i :| 0 <= i < |r| && r[i] == line;
        var j :| 0 <= j < |line| && line[j] == p;
        assert usable[i] in usable && usable[i][j] in usable[i];
        FitPointInBox(usable[i][j], f);
      }
    }
  }

  lemma FitPointInBox(p: Pt, f: Frame)
    requires f.Holds(p)
    ensures var q := FitPoint(p, f); 4.0 <= q.x <= 44.0 && 4.0 <= q.y <= 44.0
  {
    FitInBox(p.x, f.minX, f.maxX, f.Extent());
    FitInBox(p.y, f.minY, f.maxY, f.Extent());
  }

  // Unless the drawing is smaller than one pixel, its wider side runs from 4 to 44 exactly.
  lemma NormalizedFillsBox(lines: seq<seq<Pt>>, longEnough: seq<Pt> -> bool)
    requires Usable(lines, longEnough) != [] && Flatten(Usable(lines, longEnough)) != []
    requires FrameOf(Flatten(Usable(lines, longEnough))).Extent() > 1.0
    ensures var r := NormalizeLines(lines, longEnough);
            (Reaches(r, 4.0, true) && Reaches(r, 44.0, true)) || (Reaches(r, 4.0, false) && Reaches(r, 44.0, false))
  {
    var usable := Usable(lines, longEnough);
    var f := FrameOf(Flatten(usable));
    FrameIsTight(Flatten(usable));
    if f.Extent() == f.maxX - f.minX {
      FitFillsBox(f.minX, f.maxX, f.Extent());
      ReachesX(usable, f, f.minX);
      ReachesX(usable, f, f.maxX);
    } else {
      FitFillsBox(f.minY, f.maxY, f.Extent());
      ReachesY(usable, f, f.minY);
      ReachesY(usable, f, f.maxY);
    }
  }

  ghost predicate Reaches(lines: seq<seq<Pt>>, value: real, horizontal: bool) {
    exists line, p :: line in lines && p in line && value == if horizontal then p.x else p.y
  }

  lemma FittedPoint(lines: seq<seq<Pt>>, f: Frame, p: Pt)
    requires p in Flatten(lines)
    ensures exists line :: line in FitLines(lines, f) && FitPoint(p, f) in line
  {
    var line :| line in lines && p in line;
    var i :| 0 <= i < |lines| && lines[i] == line;
    var j :| 0 <= j < |line| && line[j] == p;
    assert FitLines(lines, f)[i] in FitLines(lines, f);
    assert FitLines(lines, f)[i][j] == FitPoint(p, f);
  }

  lemma ReachesX(lines: seq<seq<Pt>>, f: Frame, value: real)
    requires exists p :: p in Flatten(lines) && p.x == value
    ensures Reaches(FitLines(lines, f), Fit(value, f.minX, f.maxX, f.Extent()), true)
  {
    var p :| p in Flatten(lines) && p.x == value;
    FittedPoint(lines, f, p);
  }

  lemma ReachesY(lines: seq<seq<Pt>>, f: Frame, value: real)
    requires exists p :: p in Flatten(lines) && p.y == value
    ensures Reaches(FitLines(lines, f), Fit(value, f.minY, f.maxY, f.Extent()), false)
  {
    var p :| p in Flatten(lines) && p.y == value;
    FittedPoint(lines, f, p);
  }
}
