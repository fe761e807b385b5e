/** Finding the one line of a key in the one section of that name. */
module KeyPlaces {
  import opened Wrappers

  // For each line: the section it opens, if any; and whether it holds the key.
  type Headers = seq<Option<string>>
  type Hits = seq<bool>

  predicate UniqueHeader(headers: Headers, section: string, start: nat) {
    start < |headers| && headers[start] == Some(section)
    && forall j | 0 <= j < |headers| :: headers[j] == Some(section) ==> j == start
  }

  predicate InSection(headers: Headers, start: nat, i: nat) {
    start < i < |headers| && forall j | start < j <= i :: headers[j].None?
  }

  // The section exists once, and the key once in it, on line i.
  predicate IsPlace(headers: Headers, hits: Hits, section: string, start: nat, i: nat)
    requires |headers| == |hits|
  {
    UniqueHeader(headers, section, start) && InSection(headers, start, i) && hits[i]
    && forall j | start < j < |headers| :: InSection(headers, start, j) && hits[j] ==> j == i
  }

  lemma PlaceIsUnique(headers: Headers, hits: Hits, section: string, s: nat, i: nat, s': nat, i': nat)
    requires |headers| == |hits| && IsPlace(headers, hits, section, s, i) && IsPlace(headers, hits, section, s', i')
    ensures s == s' && i == i'
  {
  }

  // A line belongs to one section only.
  lemma SectionsAreDistinct(headers: Headers, section: string, other: string, s: nat, s': nat, i: nat)
    requires UniqueHeader(headers, section, s) && UniqueHeader(headers, other, s')
    requires InSection(headers, s, i) && InSection(headers, s', i)
    ensures section == other
  {
  }

  method SectionBounds(headers: Headers, section: string) returns (bounds: Option<(nat, nat)>)
    ensures bounds.None? ==> forall start :: !UniqueHeader(headers, section, start)
    ensures bounds.Some? ==>
      var (start, end) := bounds.value;
      UniqueHeader(headers, section, start) && start < end <= |headers|
      && forall j: nat :: InSection(headers, start, j) <==> start < j < end
  {
    var starts: seq<nat> := [];
    for i := 0 to |headers|
      invariant forall j :: 0 <= j < i && headers[j] == Some(section) ==> j in starts
      invariant forall k :: 0 <= k < |starts| ==> starts[k] < i && headers[starts[k]] == Some(section)
      invariant |starts| > 1 ==> starts[0] < starts[1]
    {
      if headers[i] == Some(section) {
        starts := starts + [i];
      }
    }
    if |starts| != 1 {
      return None;
    }
    var start := starts[0];
    var end := start + 1;
    while end < |headers| && headers[end].None?
      invariant start < end <= |headers|
      invariant forall j :: start < j < end ==> headers[j].None?
    {
      end := end + 1;
    }
    bounds := Some((start, end));
  }

  // The line to change, or none if the key cannot be told.
  method FindKey(headers: Headers, hits: Hits, section: string) returns (place: Option<(nat, nat)>)
    requires |headers| == |hits|
    ensures place.Some? ==> IsPlace(headers, hits, section, place.value.0, place.value.1)
    ensures place.None? ==> forall start, i :: !IsPlace(headers, hits, section, start, i)
  {
    var bounds := SectionBounds(headers, section);
    if bounds.None? {
      return None;
    }
    var (start, end) := bounds.value;
    var matches: seq<nat> := [];
    for i := start + 1 to end
      invariant forall j :: start < j < i && hits[j] ==> j in matches
      invariant forall k :: 0 <= k < |matches| ==> start < matches[k] < i && hits[matches[k]]
      invariant |matches| > 1 ==> matches[0] < matches[1]
    {
      if hits[i] {
        matches := matches + [i];
      }
    }
    place := None;
    if |matches| == 1 {
      place := Some((start, matches[0]));
    } else if |matches| > 1 {
      assert InSection(headers, start, matches[0]) && InSection(headers, start, matches[1]);
    }
  }

  // ----- rewriting the line ------------------------------------------------------------------------

  // How lines are read and rewritten for one key of one section.
  datatype Edit = Edit(
    header: string -> Option<string>,
    hits: string -> bool,
    section: string,
    rewrite: string -> string)

  function Map<B>(f: string -> B, lines: seq<string>): (r: seq<B>)
    ensures |r| == |lines|
  {
    if lines == [] then [] else [f(lines[0])] + Map(f, lines[1..])
  }

  lemma {:induction false} MapAt<B>(f: string -> B, lines: seq<string>, i: nat, x: string)
    requires i < |lines|
    ensures Map(f, lines)[i] == f(lines[i])
    ensures Map(f, lines[i := x]) == Map(f, lines)[i := f(x)]
  {
    if i == 0 {
      assert lines[i := x][1..] == lines[1..];
    } else {
      MapAt(f, lines[1..], i - 1, x);
      assert lines[i := x][1..] == lines[1..][i - 1 := x];
    }
  }

  // The key is found once, on line i, in the section that starts at start.
  predicate IsAt(lines: seq<string>, e: Edit, start: nat, i: nat) {
    IsPlace(Map(e.header, lines), Map(e.hits, lines), e.section, start, i)
  }

  lemma IsAtUnique(lines: seq<string>, e: Edit, s: nat, i: nat, s': nat, i': nat)
    requires IsAt(lines, e, s, i) && IsAt(lines, e, s', i')
    ensures s == s' && i == i'
  {
    PlaceIsUnique(Map(e.header, lines), Map(e.hits, lines), e.section, s, i, s', i');
  }

  lemma IsAtHits(lines: seq<string>, e: Edit, s: nat, i: nat)
    requires IsAt(lines, e, s, i)
    ensures i < |lines| && e.hits(lines[i])
  {
    MapAt(e.hits, lines, i, lines[i]);
  }

  ghost function Patch(lines: seq<string>, e: Edit): Option<seq<string>> {
    if exists start: nat, i: nat :: IsAt(lines, e, start, i) then
      var start: nat, i: nat :| IsAt(lines, e, start, i);
      Some(lines[i := e.rewrite(lines[i])])
    else None
  }

  lemma PatchesAt(lines: seq<string>, e: Edit, start: nat, i: nat)
    requires IsAt(lines, e, start, i)
    ensures i < |lines| && Patch(lines, e) == Some(lines[i := e.rewrite(lines[i])])
  {
    var s': nat, i': nat :| IsAt(lines, e, s', i') && Patch(lines, e) == Some(lines[i' := e.rewrite(lines[i'])]);
    IsAtUnique(lines, e, start, i, s', i');
  }

  ghost function Then(lines: Option<seq<string>>, e: Edit): Option<seq<string>> {
    match lines
    case None => None
    case Some(ls) => Patch(ls, e)
  }

  // Rewriting a line of e neither makes nor removes a header, and it holds the key of d as before.
  ghost predicate LeavesPlaces(e: Edit, d: Edit) {
    e.header == d.header
    && forall line :: e.hits(line) ==>
         e.header(e.rewrite(line)) == e.header(line) && d.hits(e.rewrite(line)) == d.hits(line)
  }

  // Where an edit succeeds, another finds its place exactly where it did before.
  lemma PlacesStay(lines: seq<string>, e: Edit, d: Edit, s: nat, i: nat, s': nat, i': nat)
    requires LeavesPlaces(e, d) && IsAt(lines, e, s, i)
    ensures i < |lines| && (IsAt(lines[i := e.rewrite(lines[i])], d, s', i') <==> IsAt(lines, d, s', i'))
  {
    IsAtHits(lines, e, s, i);
    var x := e.rewrite(lines[i]);
    MapAt(d.header, lines, i, x);
    MapAt(d.hits, lines, i, x);
    assert Map(d.header, lines[i := x]) == Map(d.header, lines);
    assert Map(d.hits, lines[i := x]) == Map(d.hits, lines);
  }

  lemma FailureCommutes(lines: seq<string>, e: Edit, d: Edit)
    requires LeavesPlaces(d, e) && Patch(lines, e).None?
    ensures Then(Patch(lines, d), e).None?
  {
    if Patch(lines, d).Some? {
      var s: nat, i: nat :| IsAt(lines, d, s, i);
      PatchesAt(lines, d, s, i);
      forall s': nat, i': nat ensures !IsAt(Patch(lines, d).value, e, s', i') {
        PlacesStay(lines, d, e, s, i, s', i');
      }
    }
  }

  // No line is in question for both.
  ghost predicate Distinct(e: Edit, d: Edit) {
    LeavesPlaces(e, d) && LeavesPlaces(d, e)
    && (e.section != d.section || forall line :: !(e.hits(line) && d.hits(line)))
  }

  lemma PlacesAreDistinct(lines: seq<string>, e: Edit, d: Edit, s: nat, i: nat, s': nat, i': nat)
    requires Distinct(e, d) && IsAt(lines, e, s, i) && IsAt(lines, d, s', i')
    ensures i != i'
  {
    if i == i' {
      IsAtHits(lines, e, s, i);
      IsAtHits(lines, d, s', i');
      SectionsAreDistinct(Map(e.header, lines), e.section, d.section, s, s', i);
    }
  }

  lemma SecondPatch(lines: seq<string>, e: Edit, d: Edit, s: nat, i: nat, s': nat, i': nat)
    requires Distinct(e, d) && IsAt(lines, e, s, i) && IsAt(lines, d, s', i')
    ensures i != i' && i < |lines| && i' < |lines|
    ensures Then(Patch(lines, e), d) == Some(lines[i := e.rewrite(lines[i])][i' := d.rewrite(lines[i'])])
  {
    PatchesAt(lines, e, s, i);
    PlacesAreDistinct(lines, e, d, s, i, s', i');
    PlacesStay(lines, e, d, s, i, s', i');
    PatchesAt(lines[i := e.rewrite(lines[i])], d, s', i');
  }

  // The order of two edits does not matter, nor whether one of them fails.
  lemma DistinctEditsCommute(lines: seq<string>, e: Edit, d: Edit)
    requires Distinct(e, d)
    ensures Then(Patch(lines, e), d) == Then(Patch(lines, d), e)
  {
    if Patch(lines, e).None? {
      FailureCommutes(lines, e, d);
    } else if Patch(lines, d).None? {
      FailureCommutes(lines, d, e);
    } else {
      var s: nat, i: nat :| IsAt(lines, e, s, i);
      var s': nat, i': nat :| IsAt(lines, d, s', i');
      SecondPatch(lines, e, d, s, i, s', i');
      SecondPatch(lines, d, e, s', i', s, i);
      assert lines[i := e.rewrite(lines[i])][i' := d.rewrite(lines[i'])] ==
        lines[i' := d.rewrite(lines[i'])][i := e.rewrite(lines[i])];
    }
  }

  // Editing the same line again has the effect of the second edit alone.
  lemma LastEditWins(lines: seq<string>, e: Edit, d: Edit, start: nat, i: nat)
    requires LeavesPlaces(e, d) && IsAt(lines, e, start, i) && IsAt(lines, d, start, i)
    requires forall line :: e.hits(line) ==> d.rewrite(e.rewrite(line)) == d.rewrite(line)
    ensures Then(Patch(lines, e), d) == Patch(lines, d)
  {
    IsAtHits(lines, e, start, i);
    PatchesAt(lines, e, start, i);
    PatchesAt(lines, d, start, i);
    PlacesStay(lines, e, d, start, i, start, i);
    var x := e.rewrite(lines[i]);
    PatchesAt(lines[i := x], d, start, i);
    assert lines[i := x][i := d.rewrite(x)] == lines[i := d.rewrite(x)];
  }

  // ----- a line less ---------------------------------------------------------------------------------

  function Dropped<T>(s: seq<T>, k: nat): (r: seq<T>)
    requires k < |s|
    ensures |r| == |s| - 1
    ensures forall j :: 0 <= j < |r| ==> r[j] == if j < k then s[j] else s[j + 1]
  {
    s[..k] + s[k + 1..]
  }

  lemma {:induction false} MapDropped<B>(f: string -> B, lines: seq<string>, k: nat)
    requires k < |lines|
    ensures Map(f, Dropped(lines, k)) == Dropped(Map(f, lines), k)
  {
    if k == 0 {
      assert Dropped(lines, 0) == lines[1..] && Dropped(Map(f, lines), 0) == Map(f, lines)[1..];
    } else {
      MapDropped(f, lines[1..], k - 1);
      assert Dropped(lines, k)[1..] == Dropped(lines[1..], k - 1);
    }
  }

  // A line after that of the key that opens no section may go.
  lemma PlaceStaysWithout(headers: Headers, hits: Hits, section: string, start: nat, i: nat, k: nat)
    requires |headers| == |hits| && IsPlace(headers, hits, section, start, i)
    requires i < k < |headers| && headers[k].None?
    ensures IsPlace(Dropped(headers, k), Dropped(hits, k), section, start, i)
  {
    var h, m := Dropped(headers, k), Dropped(hits, k);
    assert h[start] == Some(section);
    forall j | start < j < |h| && InSection(h, start, j) && m[j] ensures j == i {
      var was := if j < k then j else j + 1;
      assert InSection(headers, start, was) by {
        forall n | start < n <= was ensures headers[n].None? {
          if n < k { assert h[n] == headers[n]; } else if n > k { assert h[n - 1] == headers[n]; }
        }
      }
    }
    assert InSection(h, start, i);
  }

  // If the key is found with and without line k, it is found on the same line, and that is not k.
  lemma SamePlaceWithout(headers: Headers, hits: Hits, section: string, s: nat, i: nat, k: nat, s': nat, i': nat)
    requires |headers| == |hits| && IsPlace(headers, hits, section, s, i) && k < |headers|
    requires hits[k] ==> headers[k].None?
    requires IsPlace(Dropped(headers, k), Dropped(hits, k), section, s', i')
    ensures i != k && i' == if i < k then i else i - 1
  {
    var h, m := Dropped(headers, k), Dropped(hits, k);
    var start := if s' < k then s' else s' + 1;
    assert headers[start] == h[s'] == Some(section);
    var was := if i' < k then i' else i' + 1;
    assert hits[was] == m[i'];
    if i < k {
      assert InSection(h, s, i) by {
        forall n | s < n <= i ensures h[n].None? { assert h[n] == headers[n]; }
      }
      assert m[i] == hits[i];
    }
    if !(s < k < was && headers[k].Some?) {
      assert InSection(headers, s, was) by {
        forall n | s < n <= was ensures headers[n].None? {
          if n < k { assert h[n] == headers[n]; } else if n > k { assert h[n - 1] == headers[n]; }
        }
      }
    }
  }

  ghost function PatchAll(lines: seq<string>, edits: seq<Edit>): Option<seq<string>> {
    if edits == [] then Some(lines) else Then(PatchAll(lines, edits[..|edits| - 1]), edits[|edits| - 1])
  }

  lemma {:induction false} FailureStays(lines: seq<string>, edits: seq<Edit>, n: nat)
    requires n <= |edits| && PatchAll(lines, edits[..n]).None?
    ensures PatchAll(lines, edits).None?
  {
    if n < |edits| {
      assert edits[..|edits| - 1][..n] == edits[..n];
      FailureStays(lines, edits[..|edits| - 1], n);
    } else {
      assert edits[..n] == edits;
    }
  }
}
