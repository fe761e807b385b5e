/** The validator of the compositor's spatial state: which windows each output shows, and where. */
module SpatialDiagnostics {

  datatype View = View(x: int, y: int, columns: nat, rows: nat) {
    predicate Contains(px: int, py: int) {
      x <= px < x + columns && y <= py < y + rows
    }
  }

  datatype Window = Window(
    address: string, x: int, y: int, visible: bool, mode: string, fragmentOutputs: seq<int>, boardId: int)

  datatype OutputView = OutputView(outputId: int, rect: View, anchorKey: string, boardId: int)

  datatype State = State(
    protocolVersion: int, revision: int, columns: int, rows: int, windows: seq<Window>, committed: bool,
    topologyRevision: int, committedModelRevision: int, committedTopologyRevision: int, presentationMode: string,
    outputViews: seq<OutputView>, wideKey: string, focusedKey: string)

  datatype Diagnostic =
    | StaleRevision | InvalidMode | MissingOutputViews | InvalidOutput | ViewOutOfBounds | OverlappingViews
    | InvalidAnchor | InvalidFocus | InvalidWide | WideLeak | DesktopLeak | UnexpectedWideKey | InvalidFragments
    | InvalidBoardBinding | InvalidBoardCoordinate | DuplicateBoardCell

  const COORDINATE_LIMIT := 0x8000_0000_0000_0000

  predicate ViewsOverlap(left: View, right: View) {
    && left.x < right.x + right.columns && right.x < left.x + left.columns
    && left.y < right.y + right.rows && right.y < left.y + left.rows
  }

  // The four comparisons say exactly that the two views share a cell; views are never empty.
  lemma OverlapMeansCommonCell(left: View, right: View)
    requires left.columns > 0 && left.rows > 0 && right.columns > 0 && right.rows > 0
    ensures ViewsOverlap(left, right) <==> exists x, y :: left.Contains(x, y) && right.Contains(x, y)
  {
    if ViewsOverlap(left, right) {
      var x := if left.x < right.x then right.x else left.x;
      var y := if left.y < right.y then right.y else left.y;
      assert left.Contains(x, y) && right.Contains(x, y);
    }
  }

  // ----- what each diagnostic means -------------------------------------------------------

  predicate IsTiledAt(w: Window, key: string, rect: View) {
    w.address == key && w.mode == "tiled" && rect.Contains(w.x, w.y)
  }

  predicate OutOfBounds(rect: View, s: State) {
    rect.x < 0 || rect.y < 0 || rect.x + rect.columns > s.columns || rect.y + rect.rows > s.rows
  }

  // The output view that a tiled window claims to be on.
  predicate ShowsWindow(v: OutputView, w: Window, s: State)
    requires w.fragmentOutputs != []
  {
    && v.outputId == w.fragmentOutputs[0]
    && (s.protocolVersion == 1 || v.boardId == w.boardId)
    && v.rect.Contains(w.x, w.y)
  }

  predicate AllSame(ids: seq<int>) {
    ids != [] && forall i :: 0 <= i < |ids| ==> ids[i] == ids[0]
  }

  predicate ProperlyPlaced(w: Window, s: State) {
    AllSame(w.fragmentOutputs) && exists v :: v in s.outputViews && ShowsWindow(v, w, s)
  }

  // The first window with that address, as a one-element sequence.
  function Lookup(windows: seq<Window>, key: string): (r: seq<Window>)
    ensures |r| <= 1
    ensures r == [] ==> forall w :: w in windows ==> w.address != key
    ensures r != [] ==> r[0] in windows && r[0].address == key
  {
    if windows == [] then []
    else if windows[0].address == key then [windows[0]]
    else Lookup(windows[1..], key)
  }

  predicate SharesOutput(w: Window, wide: Window) {
    exists id :: id in w.fragmentOutputs && id in wide.fragmentOutputs
  }

  predicate Leaks(w: Window, wide: seq<Window>, s: State) {
    w.visible && w.address != s.wideKey
    && (s.protocolVersion == 1 || (wide != [] && SharesOutput(w, wide[0])))
  }

  function WideWindow(s: State): seq<Window> {
    if s.wideKey == "" then [] else Lookup(s.windows, s.wideKey)
  }

  predicate BadCoordinate(w: Window) {
    || w.boardId <= 0
    || !(-COORDINATE_LIMIT <= w.x < COORDINATE_LIMIT)
    || !(-COORDINATE_LIMIT <= w.y < COORDINATE_LIMIT)
  }

  predicate SameCell(v: Window, w: Window) {
    v.boardId == w.boardId && v.x == w.x && v.y == w.y
  }

  // What one output view, or one window of protocol 2, contributes.
  ghost predicate ViewFault(s: State, k: int, d: Diagnostic)
    requires 0 <= k < |s.outputViews|
  {
    var views := s.outputViews;
    match d
    case InvalidOutput => views[k].outputId <= 0 || exists j :: 0 <= j < k && views[j].outputId == views[k].outputId
    case ViewOutOfBounds => s.protocolVersion == 1 && OutOfBounds(views[k].rect, s)
    case OverlappingViews =>
      s.protocolVersion == 1 && exists j :: k < j < |views| && ViewsOverlap(views[k].rect, views[j].rect)
    case InvalidAnchor =>
      views[k].anchorKey != "" && !exists w :: w in s.windows && IsTiledAt(w, views[k].anchorKey, views[k].rect)
    case _ => false
  }

  ghost predicate WindowFault(s: State, k: int, d: Diagnostic)
    requires 0 <= k < |s.windows|
  {
    match d
    case InvalidBoardCoordinate => BadCoordinate(s.windows[k])
    case DuplicateBoardCell => exists j :: 0 <= j < k && SameCell(s.windows[j], s.windows[k])
    case _ => false
  }

  ghost predicate Wrong(s: State, d: Diagnostic) {
    var views, windows, wide := s.outputViews, s.windows, WideWindow(s);
    match d
    case StaleRevision =>
      !s.committed || s.revision != s.committedModelRevision || s.topologyRevision != s.committedTopologyRevision
    case InvalidMode => s.presentationMode !in {"normal", "wide", "desktop"}
    case MissingOutputViews => s.committed && views == []
    case InvalidOutput => exists k :: 0 <= k < |views| && ViewFault(s, k, d)
    case ViewOutOfBounds => exists k :: 0 <= k < |views| && ViewFault(s, k, d)
    case OverlappingViews => exists k :: 0 <= k < |views| && ViewFault(s, k, d)
    case InvalidAnchor => exists k :: 0 <= k < |views| && ViewFault(s, k, d)
    case InvalidFocus =>
      s.focusedKey != "" && (Lookup(windows, s.focusedKey) == [] || Lookup(windows, s.focusedKey)[0].mode != "tiled")
    case InvalidWide =>
      || (s.presentationMode == "wide"
          && (wide == [] || !wide[0].visible || (s.protocolVersion == 1 && |wide[0].fragmentOutputs| != |views|)))
      || (s.presentationMode == "desktop" && s.wideKey != ""
          && !exists w :: w in windows && w.address == s.wideKey && w.mode == "tiled")
    case WideLeak => s.presentationMode == "wide" && exists w :: w in windows && Leaks(w, wide, s)
    case DesktopLeak =>
      s.presentationMode == "desktop" && exists w :: w in windows && (w.visible || w.fragmentOutputs != [])
    case UnexpectedWideKey => s.presentationMode !in {"wide", "desktop"} && s.wideKey != ""
    case InvalidFragments =>
      && s.presentationMode !in {"wide", "desktop"} && s.wideKey == ""
      && exists w :: w in windows && w.visible && w.mode == "tiled" && !ProperlyPlaced(w, s)
    case InvalidBoardBinding =>
      && s.protocolVersion == 2
      && ((exists v :: v in views && v.boardId <= 0)
          || exists i, j :: 0 <= i < j < |views| && views[i].boardId == views[j].boardId)
    case InvalidBoardCoordinate => s.protocolVersion == 2 && exists k :: 0 <= k < |windows| && WindowFault(s, k, d)
    case DuplicateBoardCell => s.protocolVersion == 2 && exists k :: 0 <= k < |windows| && WindowFault(s, k, d)
  }

  // ----- the validator ----------------------------------------------------------------------

  function When(wrong: bool, d: Diagnostic): set<Diagnostic> {
    if wrong then {d} else {}
  }

  function ViewFaults(s: State, k: nat, ids: set<int>): set<Diagnostic>
    requires k < |s.outputViews|
  {
    var v := s.outputViews[k];
    When(v.outputId <= 0 || v.outputId in ids, InvalidOutput)
    + When(s.protocolVersion == 1 && OutOfBounds(v.rect, s), ViewOutOfBounds)
    + When(s.protocolVersion == 1
           && exists j :: k < j < |s.outputViews| && ViewsOverlap(v.rect, s.outputViews[j].rect), OverlappingViews)
    + When(v.anchorKey != "" && !exists w :: w in s.windows && IsTiledAt(w, v.anchorKey, v.rect), InvalidAnchor)
  }

  method CheckViews(s: State) returns (found: set<Diagnostic>)
    ensures forall d :: d in found <==> exists k :: 0 <= k < |s.outputViews| && ViewFault(s, k, d)
  {
    found := {};
    var ids: set<int> := {};
    for n := 0 to |s.outputViews|
      invariant forall id :: id in ids <==> exists j :: 0 <= j < n && s.outputViews[j].outputId == id
      invariant forall d :: d in found <==> exists k :: 0 <= k < n && ViewFault(s, k, d)
    {
      var faults := ViewFaults(s, n, ids);
      assert forall d :: d in faults <==> ViewFault(s, n, d);
      found := found + faults;
      ids := ids + {s.outputViews[n].outputId};
    }
  }

  method CheckBoards(s: State) returns (found: set<Diagnostic>)
    ensures forall d :: d in found <==> exists k :: 0 <= k < |s.windows| && WindowFault(s, k, d)
  {
    found := {};
    var seen: set<(int, int, int)> := {};
    for n := 0 to |s.windows|
      invariant forall cell :: cell in seen <==>
        exists j :: 0 <= j < n && (s.windows[j].boardId, s.windows[j].x, s.windows[j].y) == cell
      invariant forall d :: d in found <==> exists k :: 0 <= k < n && WindowFault(s, k, d)
    {
      var w := s.windows[n];
      var cell := (w.boardId, w.x, w.y);
      var faults := When(BadCoordinate(w), InvalidBoardCoordinate) + When(cell in seen, DuplicateBoardCell);
      assert cell in seen <==> exists j :: 0 <= j < n && SameCell(s.windows[j], w);
      assert forall d :: d in faults <==> WindowFault(s, n, d);
      found := found + faults;
      seen := seen + {cell};
    }
  }

  function ModeFaults(s: State): set<Diagnostic> {
    var windows, wide := s.windows, WideWindow(s);
    if s.presentationMode == "wide" then
      When(wide == [] || !wide[0].visible
           || (s.protocolVersion == 1 && |wide[0].fragmentOutputs| != |s.outputViews|), InvalidWide)
      + When(exists w :: w in windows && Leaks(w, wide, s), WideLeak)
    else if s.presentationMode == "desktop" then
      When(exists w :: w in windows && (w.visible || w.fragmentOutputs != []), DesktopLeak)
      + When(s.wideKey != "" && !exists w :: w in windows && w.address == s.wideKey && w.mode == "tiled", InvalidWide)
    else if s.wideKey != "" then {UnexpectedWideKey}
    else When(exists w :: w in windows && w.visible && w.mode == "tiled" && !ProperlyPlaced(w, s), InvalidFragments)
  }

  function BoardIds(views: seq<OutputView>): set<int> {
    set v | v in views :: v.boardId
  }

  function BoardBindingFault(s: State): bool {
    (exists v :: v in s.outputViews && v.boardId <= 0) || |BoardIds(s.outputViews)| != |s.outputViews|
  }

  function StateFaults(s: State): set<Diagnostic> {
    var focused := Lookup(s.windows, s.focusedKey);
    When(!s.committed || s.revision != s.committedModelRevision
         || s.topologyRevision != s.committedTopologyRevision, StaleRevision)
    + When(s.presentationMode !in {"normal", "wide", "desktop"}, InvalidMode)
    + When(s.committed && s.outputViews == [], MissingOutputViews)
    + When(s.focusedKey != "" && (focused == [] || focused[0].mode != "tiled"), InvalidFocus)
  }

  ghost predicate IsStateKind(d: Diagnostic) {
    d.StaleRevision? || d.InvalidMode? || d.MissingOutputViews? || d.InvalidFocus?
  }

  ghost predicate IsModeKind(d: Diagnostic) {
    d.InvalidWide? || d.WideLeak? || d.DesktopLeak? || d.UnexpectedWideKey? || d.InvalidFragments?
  }

  lemma StateFaultsAreWrong(s: State, d: Diagnostic)
    ensures d in StateFaults(s) <==> IsStateKind(d) && Wrong(s, d)
  {
  }

  lemma ModeFaultsAreWrong(s: State, d: Diagnostic)
    ensures d in ModeFaults(s) <==> IsModeKind(d) && Wrong(s, d)
  {
    match d
    case InvalidWide =>
    case WideLeak =>
    case DesktopLeak =>
    case UnexpectedWideKey =>
    case InvalidFragments =>
    case _ =>
  }

  // Reports exactly what is wrong with the state.
  method Diagnose(s: State) returns (found: set<Diagnostic>)
    ensures forall d :: d in found <==> Wrong(s, d)
  {
    var perView := CheckViews(s);
    var boards: set<Diagnostic> := {};
    if s.protocolVersion == 2 {
      var perWindow := CheckBoards(s);
      boards := When(BoardBindingFault(s), InvalidBoardBinding) + perWindow;
    }
    found := StateFaults(s) + perView + ModeFaults(s) + boards;
    forall d ensures d in found <==> Wrong(s, d) {
      StateFaultsAreWrong(s, d);
      ModeFaultsAreWrong(s, d);
      ItemFaultsAreWrong(s, d, perView, boards);
    }
  }

  lemma ItemFaultsAreWrong(s: State, d: Diagnostic, perView: set<Diagnostic>, boards: set<Diagnostic>)
    requires d in perView <==> exists k :: 0 <= k < |s.outputViews| && ViewFault(s, k, d)
    requires d in boards <==>
      && s.protocolVersion == 2
      && ((d == InvalidBoardBinding && BoardBindingFault(s))
          || exists k :: 0 <= k < |s.windows| && WindowFault(s, k, d))
    ensures d in perView || d in boards <==> !IsStateKind(d) && !IsModeKind(d) && Wrong(s, d)
  {
    if s.protocolVersion == 2 { BoardFaultIsWrong(s); }
    match d
    case InvalidBoardBinding =>
    case _ =>
  }

  lemma BoardFaultIsWrong(s: State)
    requires s.protocolVersion == 2
    ensures Wrong(s, InvalidBoardBinding) <==> BoardBindingFault(s)
  {
    DistinctBoards(s.outputViews);
  }

  // A sequence has as many different board ids as elements exactly when no two are equal.
  lemma {:induction false} DistinctBoards(views: seq<OutputView>)
    ensures |BoardIds(views)| <= |views|
    ensures |BoardIds(views)| == |views| <==> BoardsDiffer(views)
  {
    if views != [] {
      var n := |views| - 1;
      var init, last := views[..n], views[n].boardId;
      DistinctBoards(init);
      assert views == init + [views[n]];
      assert BoardIds(views) == BoardIds(init) + {last};
      OneMoreBoard(init, views[n]);
      assert last in BoardIds(init) ==> BoardIds(views) == BoardIds(init);
    }
  }

  ghost predicate BoardsDiffer(views: seq<OutputView>) {
    forall i, j :: 0 <= i < j < |views| ==> views[i].boardId != views[j].boardId
  }

  lemma OneMoreBoard(init: seq<OutputView>, view: OutputView)
    ensures BoardsDiffer(init + [view]) <==> BoardsDiffer(init) && view.boardId !in BoardIds(init)
  {
    var views := init + [view];
    if BoardsDiffer(views) {
      forall i, j | 0 <= i < j < |init| ensures init[i].boardId != init[j].boardId {
        assert views[i].boardId != views[j].boardId;
      }
      forall v | v in init ensures v.boardId != view.boardId {
        var i :| 0 <= i < |init| && init[i] == v;
        assert views[i].boardId != views[|init|].boardId;
      }
    }
    if BoardsDiffer(init) && view.boardId !in BoardIds(init) {
      forall i, j | 0 <= i < j < |views| ensures views[i].boardId != views[j].boardId {
        assert init[i] in init;
      }
    }
  }

  // ----- what a clean report guarantees --------------------------------------------------------

  ghost predicate Clean(s: State) {
    forall d :: !Wrong(s, d)
  }

  // The window lies in the view of an output of its board.
  ghost predicate IsOn(w: Window, s: State, k: int)
    requires 0 <= k < |s.outputViews|
  {
    s.outputViews[k].rect.Contains(w.x, w.y) && (s.protocolVersion == 1 || s.outputViews[k].boardId == w.boardId)
  }

  // In a clean normal state a visible tiled window lies in the view of exactly one output of its
  // board, and that is the output it is presented on.
  lemma CleanMeansPlaced(s: State, w: Window) returns (k: nat)
    requires Clean(s) && s.presentationMode == "normal" && w in s.windows && w.visible && w.mode == "tiled"
    requires s.protocolVersion == 1 || s.protocolVersion == 2
    requires forall v :: v in s.outputViews ==> v.rect.columns > 0 && v.rect.rows > 0
    ensures k < |s.outputViews| && IsOn(w, s, k)
    ensures AllSame(w.fragmentOutputs) && w.fragmentOutputs[0] == s.outputViews[k].outputId
    ensures forall j :: 0 <= j < |s.outputViews| && IsOn(w, s, j) ==> j == k
  {
    var views := s.outputViews;
    assert !Wrong(s, InvalidFragments) && !Wrong(s, UnexpectedWideKey);
    var v :| v in views && ShowsWindow(v, w, s);
    k :| 0 <= k < |views| && views[k] == v;
    forall j | 0 <= j < |views| && j != k ensures !IsOn(w, s, j) {
      assert !Wrong(s, OverlappingViews) && !Wrong(s, InvalidBoardBinding);
      var a, b := if j < k then j else k, if j < k then k else j;
      if s.protocolVersion == 1 {
        assert !ViewFault(s, a, OverlappingViews);
        OverlapMeansCommonCell(views[a].rect, views[b].rect);
      } else {
        assert views[a].boardId != views[b].boardId;
      }
    }
  }

  // In protocol 1 clean views lie inside the extent and share no cell.
  lemma CleanViewsAreDisjoint(s: State, i: nat, j: nat, x: int, y: int)
    requires Clean(s) && s.protocolVersion == 1 && i < |s.outputViews| && j < |s.outputViews|
    requires forall v :: v in s.outputViews ==> v.rect.columns > 0 && v.rect.rows > 0
    requires s.outputViews[i].rect.Contains(x, y)
    ensures 0 <= x < s.columns && 0 <= y < s.rows
    ensures s.outputViews[j].rect.Contains(x, y) ==> i == j
  {
    assert !Wrong(s, OverlappingViews) && !Wrong(s, ViewOutOfBounds);
    assert !ViewFault(s, i, ViewOutOfBounds);
    var a, b := if j < i then j else i, if j < i then i else j;
    if i != j {
      assert !ViewFault(s, a, OverlappingViews);
      OverlapMeansCommonCell(s.outputViews[a].rect, s.outputViews[b].rect);
    }
  }

  // In protocol 2 clean outputs bind different boards and no two windows share a board cell.
  lemma CleanBoardsAreDistinct(s: State)
    requires Clean(s) && s.protocolVersion == 2
    ensures forall i, j :: 0 <= i < j < |s.outputViews| ==> s.outputViews[i].boardId != s.outputViews[j].boardId
    ensures forall i, j :: 0 <= i < j < |s.windows| ==> !SameCell(s.windows[i], s.windows[j])
  {
    assert !Wrong(s, InvalidBoardBinding) && !Wrong(s, DuplicateBoardCell);
    forall i, j | 0 <= i < j < |s.windows| ensures !SameCell(s.windows[i], s.windows[j]) {
      assert !WindowFault(s, j, DuplicateBoardCell);
    }
  }
}
