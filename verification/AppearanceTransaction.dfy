/**
  Applying a previewed appearance: wallpapers through commands that can fail in any way, then two
  files and the running shell, with compensation.  What the outside world does is a script.
*/
module AppearanceTransaction {
  import opened Wrappers

  type Connector = string
  type Source = string
  type Wallpaper = map<Connector, Source>
  type File = Option<string>

  datatype Row = Row(connector: Connector, source: Source)

  datatype Category =
    | Validation | ProviderMissing | Incomplete | InvalidSource | CompilerIncompatible | StalePreview | Busy
    | CompletionUnknown | ApplyFailedRolledBack | RollbackFailed | Uncaught

  // What a call raises: an error of the provider, which a batch of wallpapers makes up for, or any other,
  // like output that cannot be decoded, which it does not expect.
  datatype Error = ProviderError | OtherError

  // One call to the outside: as asked, failed, or something else is left, with or without an error.
  datatype Outcome = Fine | Fails(cause: Error) | Left(source: Option<string>, raised: Option<Error>)
  type Script = seq<Outcome>

  function Next(script: Script): (Outcome, Script) {
    if script == [] then (Fine, []) else (script[0], script[1..])
  }

  function ErrorOf(o: Outcome): Option<Error> {
    match o
    case Fine => None
    case Fails(cause) => Some(cause)
    case Left(_, raised) => raised
  }

  predicate Raises(o: Outcome) {
    ErrorOf(o).Some?
  }

  // A call that fails after it left something behind.
  predicate IsDirty(o: Outcome) {
    o.Left? && o.source.Some? && o.raised.Some?
  }

  // How many calls misbehave.
  function Faults(script: Script): nat {
    if script == [] then 0 else (if script[0] == Fine then 0 else 1) + Faults(script[1..])
  }

  predicate HasDirty(script: Script) {
    script != [] && (IsDirty(script[0]) || HasDirty(script[1..]))
  }

  // How much has to be made up for: a call that fails after it left something behind counts twice.
  function Weight(script: Script): nat {
    if script == [] then 0
    else (if script[0] == Fine then 0 else if IsDirty(script[0]) then 2 else 1) + Weight(script[1..])
  }

  lemma {:induction false} WhatWeighs(script: Script)
    ensures Weight(script) >= 1 <==> Faults(script) >= 1
    ensures Weight(script) >= 2 <==> Faults(script) >= 2 || HasDirty(script)
  {
    if script != [] { WhatWeighs(script[1..]); }
  }

  // The script after n calls, and what the call after those does.
  function Later(script: Script, n: nat): Script {
    if n <= |script| then script[n..] else []
  }

  function CallAfter(script: Script, n: nat): Outcome {
    Next(Later(script, n)).0
  }

  lemma LaterIsNext(script: Script, n: nat)
    ensures Later(script, 0) == script && Later(script, n + 1) == Next(Later(script, n)).1
    ensures Faults(script) >= Faults(Later(script, 1)) + if CallAfter(script, 0) == Fine then 0 else 1
    ensures var l := Later(script, n); Faults(Next(l).1) + (if Next(l).0 == Fine then 0 else 1) == Faults(l)
  {
  }

  // ----- the wallpaper commands ----------------------------------------------------------------------

  datatype World = World(wallpaper: Wallpaper, script: Script)

  function WallpaperOf(rows: seq<Row>): Wallpaper {
    if rows == [] then map[]
    else WallpaperOf(rows[..|rows| - 1])[rows[|rows| - 1].connector := rows[|rows| - 1].source]
  }

  // Sets one wallpaper.
  function Command(w: World, row: Row): (Option<Error>, World) {
    var (o, rest) := Next(w.script);
    (ErrorOf(o), match o
                 case Fine => World(w.wallpaper[row.connector := row.source], rest)
                 case Fails(_) => World(w.wallpaper, rest)
                 case Left(None, _) => World(w.wallpaper, rest)
                 case Left(Some(source), _) => World(w.wallpaper[row.connector := source], rest))
  }

  // Sets the wallpapers in order until one fails: how many were set, and what the last one raised.
  function CommandAll(w: World, rows: seq<Row>): (nat, Option<Error>, World)
    decreases |rows|
  {
    if rows == [] then (0, None, w)
    else
      var (error, after) := Command(w, rows[0]);
      if error.Some? then (0, error, after)
      else
        var (n, failed, end) := CommandAll(after, rows[1..]);
        (n + 1, failed, end)
  }

  // Asks what is shown; a query that answers tells the truth, and any other answer than expected is an
  // error of the provider.
  function Verify(w: World, expected: Wallpaper): (Option<Error>, World) {
    var (o, rest) := Next(w.script);
    (if ErrorOf(o).None? && w.wallpaper != expected then Some(ProviderError) else ErrorOf(o), World(w.wallpaper, rest))
  }

  function Reversed(rows: seq<Row>): seq<Row> {
    if rows == [] then [] else Reversed(rows[1..]) + [rows[0]]
  }

  // The old sources of those rows.
  function Olden(rows: seq<Row>, before: Wallpaper): seq<Row> {
    if rows == [] then []
    else
      var connector := rows[0].connector;
      [Row(connector, if connector in before then before[connector] else "")] + Olden(rows[1..], before)
  }

  // Puts rows back, and makes sure of it.
  function PutBack(w: World, rows: seq<Row>, before: Wallpaper): (bool, World) {
    var (_, failed, after) := CommandAll(w, rows);
    if failed.Some? then (false, after)
    else
      var (error, end) := Verify(after, before);
      (error.None?, end)
  }

  // Sets all wallpapers.  If a command fails with an error of the provider, those already set are put
  // back; if it raises anything else, or only the check at the end fails, nothing is.
  function Batch(w: World, rows: seq<Row>, before: Wallpaper): (Option<Category>, World) {
    var (o, rest) := Next(w.script);
    match ErrorOf(o)
    case Some(ProviderError) => (Some(InvalidSource), World(w.wallpaper, rest))
    case Some(OtherError) => (Some(Uncaught), World(w.wallpaper, rest))
    case None =>
      var (n, failed, after) := CommandAll(World(w.wallpaper, rest), rows);
      match failed
      case Some(ProviderError) =>
        var (restored, end) := PutBack(after, Olden(Reversed(if n <= |rows| then rows[..n] else rows), before), before);
        (Some(if restored then ApplyFailedRolledBack else RollbackFailed), end)
      case Some(OtherError) => (Some(Uncaught), after)
      case None =>
        var (error, end) := Verify(after, WallpaperOf(rows));
        (match error
         case None => None
         case Some(ProviderError) => Some(CompletionUnknown)
         case Some(OtherError) => Some(Uncaught), end)
  }

  // Restoring validates the files, sets every wallpaper in reverse, and makes sure of it.
  function RestoreWallpaper(w: World, rows: seq<Row>, before: Wallpaper): (bool, World) {
    var (o, rest) := Next(w.script);
    if Raises(o) then (false, World(w.wallpaper, rest))
    else PutBack(World(w.wallpaper, rest), Olden(Reversed(rows), before), before)
  }

  lemma {:induction false} CountIsBounded(w: World, rows: seq<Row>)
    ensures CommandAll(w, rows).0 <= |rows|
    ensures CommandAll(w, rows).0 < |rows| <==> CommandAll(w, rows).1.Some?
    decreases |rows|
  {
    if rows != [] && Command(w, rows[0]).0.None? {
      CountIsBounded(Command(w, rows[0]).1, rows[1..]);
    }
  }

  lemma {:induction false} FirstRow(rows: seq<Row>)
    requires rows != []
    ensures WallpaperOf(rows) == map[rows[0].connector := rows[0].source] + WallpaperOf(rows[1..])
  {
    if |rows| > 1 {
      var init := rows[..|rows| - 1];
      FirstRow(init);
      assert init[1..] == rows[1..][..|rows| - 2];
    } else {
      assert rows[..0] == [] && rows[1..] == [];
    }
  }

  lemma SetThenOthers(w: Wallpaper, row: Row, others: Wallpaper)
    ensures w[row.connector := row.source] + others == w + (map[row.connector := row.source] + others)
  {
  }

  // Without trouble every wallpaper is set.
  lemma {:induction false} QuietCommands(w: World, rows: seq<Row>)
    requires Weight(w.script) == 0
    ensures var (n, failed, end) := CommandAll(w, rows);
            n == |rows| && failed.None? && end.wallpaper == w.wallpaper + WallpaperOf(rows) && Weight(end.script) == 0
    decreases |rows|
  {
    if rows == [] {
      assert w.wallpaper + map[] == w.wallpaper;
    } else {
      QuietCommands(Command(w, rows[0]).1, rows[1..]);
      FirstRow(rows);
      SetThenOthers(w.wallpaper, rows[0], WallpaperOf(rows[1..]));
    }
  }

  lemma {:induction false} FailuresCost(w: World, rows: seq<Row>)
    ensures var (_, failed, end) := CommandAll(w, rows);
            Weight(end.script) <= Weight(w.script) && (failed.Some? ==> Weight(end.script) < Weight(w.script))
    decreases |rows|
  {
    if rows != [] && Command(w, rows[0]).0.None? {
      FailuresCost(Command(w, rows[0]).1, rows[1..]);
    }
  }

  // If just one command is refused, exactly those before it took effect.
  lemma {:induction false} OneRefusal(w: World, rows: seq<Row>)
    requires Weight(w.script) == 1 && CommandAll(w, rows).1.Some?
    ensures var (n, _, end) := CommandAll(w, rows);
            n < |rows| && end.wallpaper == w.wallpaper + WallpaperOf(rows[..n]) && Weight(end.script) == 0
    decreases |rows|
  {
    var (error, after) := Command(w, rows[0]);
    var n := CommandAll(w, rows).0;
    if error.Some? {
      assert rows[..0] == [] && w.wallpaper + map[] == w.wallpaper;
    } else {
      if Weight(after.script) == 0 { QuietCommands(after, rows[1..]); }
      OneRefusal(after, rows[1..]);
      assert rows[..n][1..] == rows[1..][..n - 1];
      FirstRow(rows[..n]);
      SetThenOthers(w.wallpaper, rows[0], WallpaperOf(rows[..n][1..]));
    }
  }

  lemma {:induction false} OldenLast(rows: seq<Row>, row: Row, before: Wallpaper)
    ensures Olden(rows + [row], before) == Olden(rows, before) + Olden([row], before)
  {
    if rows == [] {
      assert [] + [row] == [row] && [row][1..] == [];
    } else {
      var first, rest := rows[0], rows[1..];
      OldenLast(rest, row, before);
      assert (rows + [row])[0] == first && (rows + [row])[1..] == rest + [row];
      var olden := Olden([row], before);
      assert Olden(rows, before)[..1] + (Olden(rest, before) + olden) == Olden(rows, before) + olden;
    }
  }

  // The commands that put rows back name the same monitors with their old wallpapers.
  lemma {:induction false} OldenIsBefore(rows: seq<Row>, before: Wallpaper)
    requires WallpaperOf(rows).Keys <= before.Keys
    ensures var olden := WallpaperOf(Olden(Reversed(rows), before));
            olden.Keys == WallpaperOf(rows).Keys && forall c :: c in olden ==> olden[c] == before[c]
  {
    if rows != [] {
      FirstRow(rows);
      OldenIsBefore(rows[1..], before);
      OldenLast(Reversed(rows[1..]), rows[0], before);
      var last := Olden([rows[0]], before);
      assert [rows[0]][1..] == [] && last == [Row(rows[0].connector, before[rows[0].connector])];
      var all := Olden(Reversed(rows), before);
      assert all[..|all| - 1] == Olden(Reversed(rows[1..]), before);
    }
  }

  lemma OldOverNew(before: Wallpaper, set_: Wallpaper, olden: Wallpaper)
    requires set_.Keys <= olden.Keys <= before.Keys && forall c :: c in olden ==> olden[c] == before[c]
    ensures before + set_ + olden == before
  {
  }

  // Without trouble whatever was set is put back.
  lemma QuietPutBack(w: World, rows: seq<Row>, before: Wallpaper, set_: seq<Row>)
    requires Weight(w.script) == 0 && WallpaperOf(rows).Keys <= before.Keys
    requires w.wallpaper == before + WallpaperOf(set_) && WallpaperOf(set_).Keys <= WallpaperOf(rows).Keys
    ensures PutBack(w, Olden(Reversed(rows), before), before).0
    ensures PutBack(w, Olden(Reversed(rows), before), before).1.wallpaper == before
  {
    var olden := Olden(Reversed(rows), before);
    OldenIsBefore(rows, before);
    QuietCommands(w, olden);
    OldOverNew(before, WallpaperOf(set_), WallpaperOf(olden));
    hide WallpaperOf, Olden, Reversed, CommandAll;
  }

  // Without trouble a batch for all monitors succeeds.
  lemma QuietBatchSucceeds(w: World, rows: seq<Row>)
    requires Faults(w.script) == 0 && w.wallpaper.Keys <= WallpaperOf(rows).Keys
    ensures var (e, end) := Batch(w, rows, w.wallpaper);
            e == None && end.wallpaper == WallpaperOf(rows) && Weight(end.script) == 0
  {
    WhatWeighs(w.script);
    QuietCommands(World(w.wallpaper, Next(w.script).1), rows);
    assert w.wallpaper + WallpaperOf(rows) == WallpaperOf(rows);
  }

  lemma {:induction false} FirstRowsCover(rows: seq<Row>, n: nat)
    requires n <= |rows|
    ensures WallpaperOf(rows[..n]).Keys <= WallpaperOf(rows).Keys
  {
    if n < |rows| {
      FirstRowsCover(rows[..|rows| - 1], n);
      assert rows[..|rows| - 1][..n] == rows[..n];
    } else {
      assert rows[..n] == rows;
    }
  }

  // What one failure interrupted is put back.
  lemma FailureIsMadeUpFor(start: World, rows: seq<Row>)
    requires Weight(start.script) == 1 && CommandAll(start, rows).1.Some?
    requires WallpaperOf(rows).Keys <= start.wallpaper.Keys
    ensures var (n, _, after) := CommandAll(start, rows);
            && n <= |rows|
            && var (restored, end) := PutBack(after, Olden(Reversed(rows[..n]), start.wallpaper), start.wallpaper);
               restored && end.wallpaper == start.wallpaper && Weight(end.script) == 0
  {
    var (n, _, after) := CommandAll(start, rows);
    hide WallpaperOf, Olden, Reversed, Command;
    OneRefusal(start, rows);
    FirstRowsCover(rows, n);
    QuietPutBack(after, rows[..n], start.wallpaper, rows[..n]);
    QuietCommands(after, Olden(Reversed(rows[..n]), start.wallpaper));
  }

  // If a single call misbehaves, and does not leave a change and then fail, no restoration fails; what an
  // error of the provider interrupted is as before.
  lemma OneRefusalIsCompensated(w: World, rows: seq<Row>)
    requires Faults(w.script) <= 1 && !HasDirty(w.script) && WallpaperOf(rows).Keys <= w.wallpaper.Keys
    ensures Batch(w, rows, w.wallpaper).0 != Some(RollbackFailed)
    ensures Weight(Batch(w, rows, w.wallpaper).1.script) <= Weight(w.script)
    ensures var start := World(w.wallpaper, Next(w.script).1);
            !Raises(Next(w.script).0) && CommandAll(start, rows).1 == Some(ProviderError) ==>
              && Batch(w, rows, w.wallpaper).0 == Some(ApplyFailedRolledBack)
              && Batch(w, rows, w.wallpaper).1.wallpaper == w.wallpaper
  {
    hide CommandAll, PutBack, WallpaperOf, Olden, Reversed, HasDirty;
    WhatWeighs(w.script);
    var start := World(w.wallpaper, Next(w.script).1);
    FailuresCost(start, rows);
    CountIsBounded(start, rows);
    if !Raises(Next(w.script).0) && CommandAll(start, rows).1.Some? { FailureIsMadeUpFor(start, rows); }
  }

  // A command that fails after it changed its monitor is not made up for: only those before it are.
  lemma FailingChangeStays(connector: Connector, old_: Source, new_: Source)
    requires old_ != new_
    ensures var w := World(map[connector := old_], [Fine, Left(Some(new_), Some(ProviderError))]);
            Batch(w, [Row(connector, new_)], w.wallpaper) == (Some(RollbackFailed), World(map[connector := new_], []))
  {
    var rows := [Row(connector, new_)];
    var start := World(map[connector := old_], [Left(Some(new_), Some(ProviderError))]);
    assert [Fine, Left(Some(new_), Some(ProviderError))][1..] == start.script && start.script[1..] == [];
    assert map[connector := old_][connector := new_] == map[connector := new_];
    assert CommandAll(start, rows) == (0, Some(ProviderError), World(map[connector := new_], []));
    assert rows[..0] == [] && map[connector := new_][connector] != map[connector := old_][connector];
    assert PutBack(World(map[connector := new_], []), [], map[connector := old_]) ==
      (false, World(map[connector := new_], []));
  }

  // How a batch ends: everything new and checked; everything as before and checked; a failed
  // restoration; or, with nothing put back, exactly when every command was accepted and the check of the
  // new wallpapers failed, or when something else than an error of the provider was raised, by the
  // validation, by a command, or by that check.
  lemma BatchEnds(w: World, rows: seq<Row>)
    ensures var (e, end) := Batch(w, rows, w.wallpaper);
            var first := ErrorOf(Next(w.script).0);
            var (n, failed, after) := CommandAll(World(w.wallpaper, Next(w.script).1), rows);
            var check := Verify(after, WallpaperOf(rows)).0;
            && (e == None <==> first.None? && failed.None? && check.None?)
            && (e == None ==> end.wallpaper == WallpaperOf(rows))
            && (e.Some? && e.value !in {RollbackFailed, CompletionUnknown, Uncaught} ==> end.wallpaper == w.wallpaper)
            && (e == Some(CompletionUnknown) <==> first.None? && failed.None? && check == Some(ProviderError))
            && (e == Some(Uncaught) <==>
                  first == Some(OtherError)
                  || (first.None? && (failed == Some(OtherError) || (failed.None? && check == Some(OtherError)))))
            && (e == Some(CompletionUnknown) || (e == Some(Uncaught) && first.None?) ==>
                end.wallpaper == after.wallpaper)
            && (first.Some? ==> end.wallpaper == w.wallpaper)
            && (failed.None? ==> n == |rows|)
  {
    hide CommandAll, Olden, Reversed, WallpaperOf;
    CountIsBounded(World(w.wallpaper, Next(w.script).1), rows);
  }

  // A batch that fails without admitting a failed restoration leaves things as they were, except exactly
  // when its commands changed something and none of them failed with an error of the provider.
  lemma BatchCompensatesUnlessUnverified(w: World, rows: seq<Row>)
    requires Batch(w, rows, w.wallpaper).0.Some? && Batch(w, rows, w.wallpaper).0 != Some(RollbackFailed)
    ensures var (_, end) := Batch(w, rows, w.wallpaper);
            var (_, failed, after) := CommandAll(World(w.wallpaper, Next(w.script).1), rows);
            end.wallpaper != w.wallpaper <==>
              !Raises(Next(w.script).0) && failed != Some(ProviderError) && after.wallpaper != w.wallpaper
  {
    BatchEnds(w, rows);
  }

  const REFUSED := Fails(ProviderError)

  // All commands succeed and the query fails: the new wallpaper stays.
  lemma UnverifiedBatchStays(connector: Connector, old_: Source, new_: Source)
    requires old_ != new_
    ensures var w := World(map[connector := old_], [Fine, Fine, REFUSED]);
            Batch(w, [Row(connector, new_)], w.wallpaper) ==
              (Some(CompletionUnknown), World(map[connector := new_], []))
  {
    var rows := [Row(connector, new_)];
    var start := World(map[connector := old_], [Fine, REFUSED]);
    assert [Fine, Fine, REFUSED][1..] == [Fine, REFUSED];
    assert [Fine, REFUSED][1..] == [REFUSED] && [REFUSED][1..] == [];
    assert rows[1..] == [] && map[connector := old_][connector := new_] == map[connector := new_];
    assert Command(start, rows[0]) == (None, World(map[connector := new_], [REFUSED]));
    assert CommandAll(World(map[connector := new_], [REFUSED]), []) ==
      (0, None, World(map[connector := new_], [REFUSED]));
    assert CommandAll(start, rows) == (1, None, World(map[connector := new_], [REFUSED]));
  }

  // The first command is accepted, the second prints something that cannot be decoded: nothing is put
  // back, and the first monitor keeps its new wallpaper.
  lemma BatchBreaksOff(one: Connector, two: Connector, old_: Source, new_: Source)
    requires one != two && old_ != new_
    ensures var before := map[one := old_, two := old_];
            var rows := [Row(one, new_), Row(two, new_)];
            Batch(World(before, [Fine, Fine, Fails(OtherError)]), rows, before) ==
              (Some(Uncaught), World(before[one := new_], []))
            && before[one := new_] != before
  {
    var before, broken := map[one := old_, two := old_], Fails(OtherError);
    var rows := [Row(one, new_), Row(two, new_)];
    assert [Fine, Fine, broken][1..] == [Fine, broken] && [Fine, broken][1..] == [broken] && [broken][1..] == [];
    var after := World(before[one := new_], [broken]);
    assert rows[1..][0] == Row(two, new_);
    assert Command(World(before, [Fine, broken]), rows[0]) == (None, after);
    assert CommandAll(after, rows[1..]) == (0, Some(OtherError), World(before[one := new_], []));
    assert CommandAll(World(before, [Fine, broken]), rows) == (1, Some(OtherError), World(before[one := new_], []));
    assert before[one := new_][one] != before[one];
  }

  // ----- the service -----------------------------------------------------------------------------

  const PROVIDER_NAMES: set<string> := {"hyprpaper", "awww"}

  datatype Content = Content(
    provider: string,
    rows: seq<Row>,
    topology: set<Connector>,
    config: string,
    generations: seq<string>)

  // The id of a token is the hash of its content; a caller may present any pair.
  datatype Token = Token(id: Content, content: Content)
  datatype Preview = Preview(content: Content, palette: string, theme: string)

  // The wallpaper and the two files.
  datatype Appearance = Appearance(wallpaper: Wallpaper, palette: File, theme: File)

  // The provider and then the files tell what there is before.
  function AfterReads(w: World): World {
    World(w.wallpaper, Next(Next(w.script).1).1)
  }

  predicate CanRead(w: World, content: Content, providers: set<string>) {
    && content.provider in providers && w.wallpaper.Keys == WallpaperOf(content.rows).Keys
    && !Raises(Next(w.script).0) && !Raises(Next(Next(w.script).1).0)
  }

  // The batch will break off, or every wallpaper will be set and the check of them will fail.
  predicate StaysUnverified(w: World, rows: seq<Row>) {
    Batch(w, rows, w.wallpaper).0 in {Some(CompletionUnknown), Some(Uncaught)}
  }

  // The names of the monitors make a topology.
  predicate IsTopology(connectors: seq<Connector>) {
    && connectors != [] && "" !in connectors
    && forall i, j | 0 <= i < j < |connectors| :: connectors[i] != connectors[j]
  }

  function NamesOf(connectors: seq<Connector>): set<Connector> {
    set c | c in connectors
  }

  // Every monitor has a row, and none is named twice.
  predicate HaveRows(rows: seq<Row>, connectors: seq<Connector>) {
    && WallpaperOf(rows).Keys == NamesOf(connectors)
    && forall i, j | 0 <= i < j < |connectors| :: connectors[i] != connectors[j]
  }

  class AppearanceService {
    var wallpaper: Wallpaper
    var palette: File
    var theme: File
    var script: Script
    var busy: bool
    var connectors: seq<Connector>
    var config: string
    var providers: set<string>
    var previews: map<Content, Preview>
    ghost var stored: multiset<Content>    // each time a preview was stored, applied, or given up
    ghost var consumed: multiset<Content>

    // Previews are taken out at most as often as they were put in.
    ghost predicate Valid()
      reads this
    {
      consumed + multiset(previews.Keys) <= stored
      && forall id :: id in previews ==> previews[id].content == id
    }

    constructor (wallpaper: Wallpaper, palette: File, theme: File, script: Script, connectors: seq<Connector>,
                 config: string, providers: set<string>)
      ensures Valid() && previews == map[] && stored == multiset{} && consumed == multiset{} && !busy
      ensures Shown() == Appearance(wallpaper, palette, theme) && this.script == script
      ensures this.connectors == connectors && this.config == config && this.providers == providers
    {
      this.wallpaper, this.palette, this.theme, this.script := wallpaper, palette, theme, script;
      this.connectors, this.config, this.providers := connectors, config, providers;
      busy, previews, stored, consumed := false, map[], multiset{}, multiset{};
    }

    function Shown(): Appearance
      reads this
    {
      Appearance(wallpaper, palette, theme)
    }

    function Now(): World
      reads this
    {
      World(wallpaper, script)
    }

    method Call() returns (o: Outcome)
      modifies this`script
      ensures (o, script) == Next(old(script))
    {
      o := Fine;
      if script != [] {
        o := script[0];
        script := script[1..];
      }
    }

    // ----- wallpapers

    method ApplyOne(row: Row) returns (error: Option<Error>)
      modifies this`wallpaper, this`script
      ensures (error, Now()) == Command(old(Now()), row)
    {
      var o := Call();
      match o {
        case Fine => wallpaper := wallpaper[row.connector := row.source];
        case Fails(_) =>
        case Left(None, _) =>
        case Left(Some(source), _) => wallpaper := wallpaper[row.connector := source];
      }
      error := ErrorOf(o);
    }

    method ApplyRows(rows: seq<Row>) returns (n: nat, failed: Option<Error>)
      modifies this`wallpaper, this`script
      ensures (n, failed, Now()) == CommandAll(old(Now()), rows)
    {
      n, failed := 0, None;
      while n < |rows| && failed.None?
        invariant n <= |rows|
        invariant failed.None? ==>
          var (k, f, end) := CommandAll(Now(), rows[n..]); CommandAll(old(Now()), rows) == (n + k, f, end)
        invariant failed.Some? ==> CommandAll(old(Now()), rows) == (n, failed, Now())
        decreases |rows| - n, failed.None?
      {
        assert rows[n..][0] == rows[n] && rows[n..][1..] == rows[n + 1..];
        failed := ApplyOne(rows[n]);
        if failed.None? {
          n := n + 1;
        }
      }
    }

    method VerifyShown(expected: Wallpaper) returns (error: Option<Error>)
      modifies this`script
      ensures (error, Now()) == Verify(old(Now()), expected)
    {
      var o := Call();
      error := ErrorOf(o);
      if error.None? && wallpaper != expected {
        error := Some(ProviderError);
      }
    }

    method PutBackRows(rows: seq<Row>, before: Wallpaper) returns (ok: bool)
      modifies this`wallpaper, this`script
      ensures (ok, Now()) == PutBack(old(Now()), rows, before)
    {
      var _, failed := ApplyRows(rows);
      if failed.Some? {
        return false;
      }
      var error := VerifyShown(before);
      ok := error.None?;
    }

    // Only an error of the provider is caught, and made up for.
    method ApplyBatch(rows: seq<Row>, before: Wallpaper) returns (e: Option<Category>)
      modifies this`wallpaper, this`script
      ensures (e, Now()) == Batch(old(Now()), rows, before)
    {
      var o := Call();
      if Raises(o) {
        return Some(if ErrorOf(o) == Some(ProviderError) then InvalidSource else Uncaught);
      }
      CountIsBounded(Now(), rows);
      var n, failed := ApplyRows(rows);
      if failed == Some(ProviderError) {
        var restored := PutBackRows(Olden(Reversed(rows[..n]), before), before);
        return Some(if restored then ApplyFailedRolledBack else RollbackFailed);
      }
      if failed.Some? {
        return Some(Uncaught);
      }
      var error := VerifyShown(WallpaperOf(rows));
      e := match error
        case None => None
        case Some(ProviderError) => Some(CompletionUnknown)
        case Some(OtherError) => Some(Uncaught);
    }

    method Restore(rows: seq<Row>, before: Wallpaper) returns (ok: bool)
      modifies this`wallpaper, this`script
      ensures (ok, Now()) == RestoreWallpaper(old(Now()), rows, before)
    {
      var o := Call();
      if Raises(o) {
        return false;
      }
      ok := PutBackRows(Olden(Reversed(rows), before), before);
    }

    // ----- the two files and the shell

    // Replaces a file; an error may strike after something else was left.
    method PutPalette(content: File) returns (raised: bool)
      modifies this`palette, this`script
      ensures !raised ==> palette == content
      ensures Weight(script) <= Weight(old(script)) && (raised ==> Weight(script) < Weight(old(script)))
    {
      var o := Call();
      raised := Raises(o);
      palette := if !raised then content else if o.Left? then o.source else palette;
    }

    method PutTheme(content: File) returns (raised: bool)
      modifies this`theme, this`script
      ensures !raised ==> theme == content
      ensures Weight(script) <= Weight(old(script)) && (raised ==> Weight(script) < Weight(old(script)))
    {
      var o := Call();
      raised := Raises(o);
      theme := if !raised then content else if o.Left? then o.source else theme;
    }

    // Both files, then the running shell; an error at any point.
    method PutState(palette_: File, theme_: File) returns (raised: bool)
      modifies this`palette, this`theme, this`script
      ensures !raised ==> palette == palette_ && theme == theme_
      ensures Weight(script) <= Weight(old(script)) && (raised ==> Weight(script) < Weight(old(script)))
    {
      raised := PutPalette(palette_);
      if !raised {
        raised := PutTheme(theme_);
      }
      if !raised {
        var o := Call();
        raised := Raises(o);
      }
    }

    // ----- previews

    method Discard(id: Content) returns (known: bool)
      requires Valid()
      modifies this`previews, this`consumed
      ensures Valid() && known == (id in old(previews)) && previews == old(previews) - {id}
      ensures consumed == if known then old(consumed) + multiset{id} else old(consumed)
    {
      known := id in previews;
      if known {
        TakenOut(id);
        consumed := consumed + multiset{id};
        previews := previews - {id};
      }
      assert !known ==> previews - {id} == previews;
    }

    lemma TakenOut(id: Content)
      requires id in previews
      ensures multiset(previews.Keys) == multiset((previews - {id}).Keys) + multiset{id}
    {
      assert previews.Keys == (previews - {id}).Keys + {id};
    }

    // The compiler is asked for every row, and may refuse with an error of its own.
    method Compile(rows: seq<Row>) returns (refused: bool)
      modifies this`script
      ensures Faults(script) <= Faults(old(script)) && (refused ==> Faults(script) < Faults(old(script)))
      ensures refused <==> exists i :: 0 <= i < |rows| && Raises(CallAfter(old(script), i))
    {
      refused := false;
      var i := 0;
      while i < |rows| && !refused
        invariant i <= |rows| && Faults(script) <= Faults(old(script))
        invariant !refused ==> script == Later(old(script), i)
        invariant !refused ==> forall k :: 0 <= k < i ==> !Raises(CallAfter(old(script), k))
        invariant refused ==> exists k :: 0 <= k < i && Raises(CallAfter(old(script), k))
        invariant refused ==> Faults(script) < Faults(old(script))
      {
        LaterIsNext(old(script), i);
        var o := Call();
        assert o == CallAfter(old(script), i);
        refused := Raises(o);
        i := i + 1;
      }
    }

    // Every monitor gets a wallpaper; the provider validates them and the compiler may refuse.  The
    // preview is kept under its content.
    method MakePreview(provider: string, rows: seq<Row>, generations: seq<string>, palette_: string, theme_: string,
                       refusal: Category)
      returns (r: Result<Token, Category>)
      requires Valid()
      modifies this`script, this`previews, this`stored
      ensures Valid()
      ensures r.Err? ==> previews == old(previews) && stored == old(stored)
      ensures var invalid := ErrorOf(CallAfter(old(script), 0));
              var refused := exists i :: 0 <= i < |rows| && Raises(CallAfter(Later(old(script), 1), i));
              if provider !in PROVIDER_NAMES then r == Err(Validation)
              else if provider !in providers then r == Err(ProviderMissing)
              else if rows == [] || !HaveRows(rows, connectors) then r == Err(Incomplete)
              else if invalid.Some? then r == Err(if invalid.value == ProviderError then InvalidSource else Uncaught)
              else if refused then r == Err(refusal)
              else if !IsTopology(connectors) then r == Err(Validation)
              else r.Ok?
      ensures r.Ok? ==>
        && r.value.content == Content(provider, rows, NamesOf(connectors), config, generations)
          && r.value.id == r.value.content
        && previews == old(previews)[r.value.id := Preview(r.value.content, palette_, theme_)]
        && stored == old(stored) + multiset{r.value.id}
    {
      if provider !in PROVIDER_NAMES {
        return Err(Validation);
      }
      if provider !in providers {
        return Err(ProviderMissing);
      }
      if rows == [] || !HaveRows(rows, connectors) {
        return Err(Incomplete);
      }
      LaterIsNext(script, 0);
      var validated := Call();
      if Raises(validated) {
        return Err(if ErrorOf(validated) == Some(ProviderError) then InvalidSource else Uncaught);
      }
      var refused := Compile(rows);
      if refused {
        return Err(refusal);
      }
      if !IsTopology(connectors) {
        return Err(Validation);
      }
      var content := Content(provider, rows, NamesOf(connectors), config, generations);
      assert previews[content := Preview(content, palette_, theme_)].Keys == previews.Keys + {content};
      previews := previews[content := Preview(content, palette_, theme_)];
      stored := stored + multiset{content};
      r := Ok(Token(content, content));
    }

    // ----- applying

    // The preview is the one the token was made for, and neither monitors nor configuration changed.
    predicate IsCurrent(token: Token)
      reads this
    {
      IsKept(token) && IsTopology(connectors) && token.content.topology == NamesOf(connectors)
        && token.content.config == config
    }

    predicate IsKept(token: Token)
      reads this
    {
      token.id in previews && previews[token.id].content == token.content
    }

    predicate IsApplicable(token: Token)
      reads this
    {
      IsCurrent(token) && token.content.provider in providers && wallpaper.Keys == WallpaperOf(token.content.rows).Keys
    }

    // Current, all can be read, and the batch will break off or not be verified.
    predicate IsLeftUnverified(token: Token)
      reads this
    {
      && IsCurrent(token) && CanRead(Now(), token.content, providers)
      && StaysUnverified(AfterReads(Now()), token.content.rows)
    }

    // Wallpapers first, then the files.  The result says what is left: everything new, everything as
    // before, or a rollback that failed; only a batch of wallpapers that broke off or could not be verified
    // is not undone.
    method ApplyBoth(preview: Preview) returns (e: Option<Category>)
      requires wallpaper.Keys == WallpaperOf(preview.content.rows).Keys
      modifies this`wallpaper, this`palette, this`theme, this`script
      ensures e == None ==>
        Shown() == Appearance(WallpaperOf(preview.content.rows), Some(preview.palette), Some(preview.theme))
      ensures e.Some? && e != Some(RollbackFailed) ==>
        e == Some(ApplyFailedRolledBack) && palette == old(palette) && theme == old(theme) && Weight(old(script)) >= 1
      ensures if StaysUnverified(old(Now()), preview.content.rows)
              then e == Some(ApplyFailedRolledBack)
                && wallpaper == Batch(old(Now()), preview.content.rows, old(wallpaper)).1.wallpaper
              else e == Some(ApplyFailedRolledBack) ==> wallpaper == old(wallpaper)
      ensures e == Some(RollbackFailed) ==> Weight(old(script)) >= 2
    {
      var rows := preview.content.rows;
      var before := wallpaper;
      BatchEnds(Now(), rows);
      WhatWeighs(script);
      if Weight(script) == 0 { QuietBatchSucceeds(Now(), rows); }
      if Weight(script) <= 1 { OneRefusalIsCompensated(Now(), rows); }
      var failure := ApplyBatch(rows, before);
      if failure.Some? {
        return Some(if failure.value == RollbackFailed then RollbackFailed else ApplyFailedRolledBack);
      }
      e := PutStateOrUndo(preview, before);
    }

    // The files, and everything back if that fails.
    method PutStateOrUndo(preview: Preview, before: Wallpaper) returns (e: Option<Category>)
      requires wallpaper == WallpaperOf(preview.content.rows) && before.Keys == wallpaper.Keys
      modifies this`wallpaper, this`palette, this`theme, this`script
      ensures e == None ==> Shown() == Appearance(old(wallpaper), Some(preview.palette), Some(preview.theme))
      ensures e.Some? && e != Some(RollbackFailed) ==>
        e == Some(ApplyFailedRolledBack) && Shown() == Appearance(before, old(palette), old(theme))
          && Weight(old(script)) >= 1
      ensures e == Some(RollbackFailed) ==> Weight(old(script)) >= 2
    {
      var beforePalette, beforeTheme := palette, theme;
      var raised := PutState(Some(preview.palette), Some(preview.theme));
      if !raised {
        return None;
      }
      raised := PutState(beforePalette, beforeTheme);
      if raised {
        return Some(RollbackFailed);
      }
      if Weight(script) == 0 {
        assert before + wallpaper == wallpaper;
        QuietPutBack(World(wallpaper, Next(script).1), preview.content.rows, before, preview.content.rows);
      }
      var ok := Restore(preview.content.rows, before);
      e := Some(if ok then ApplyFailedRolledBack else RollbackFailed);
    }

    // Takes the preview out for good, and checks that it still fits.
    method Consume(token: Token) returns (r: Result<Preview, Category>)
      requires Valid()
      modifies this`previews, this`consumed
      ensures Valid() && previews == old(previews) - {token.id}
      ensures r.Ok? <==> old(IsCurrent(token))
      ensures r.Ok? ==> r.value == old(previews)[token.id] && r.value.content == token.content
                        && consumed == old(consumed) + multiset{token.id}
      ensures r.Err? ==> r.error == if old(IsKept(token)) && !IsTopology(connectors) then Validation else StalePreview
    {
      if token.id !in previews {
        assert previews - {token.id} == previews;
        return Err(StalePreview);
      }
      var preview := previews[token.id];
      var _ := Discard(token.id);
      if preview.content != token.content {
        return Err(StalePreview);
      }
      if !IsTopology(connectors) {
        return Err(Validation);
      }
      r := if token.content.topology != NamesOf(connectors) || token.content.config != config then Err(StalePreview)
           else Ok(preview);
    }

    // Asks the provider and the files for what there is before.
    method ReadBefore(content: Content) returns (failure: Option<Category>)
      modifies this`script
      ensures failure.None? <==> CanRead(old(Now()), content, providers)
      ensures failure.Some? ==> failure.value in {ProviderMissing, Incomplete, Uncaught}
      ensures failure.None? ==> Now() == AfterReads(old(Now()))
      ensures Weight(script) <= Weight(old(script))
      ensures wallpaper.Keys == WallpaperOf(content.rows).Keys && content.provider in providers ==>
        failure.None? || Weight(old(script)) >= 1
    {
      if content.provider !in providers {
        return Some(ProviderMissing);
      }
      var queried := Call();
      if ErrorOf(queried) == Some(OtherError) {
        return Some(Uncaught);
      }
      if Raises(queried) || wallpaper.Keys != WallpaperOf(content.rows).Keys {
        return Some(Incomplete);
      }
      var snapshot := Call();
      failure := if Raises(snapshot) then Some(Uncaught) else None;
    }

    // A preview in hand: its provider and what is shown are read, then it is applied.
    method ApplyPreview(preview: Preview) returns (r: Result<(), Category>)
      modifies this`wallpaper, this`palette, this`theme, this`script
      ensures r.Ok? ==>
        Shown() == Appearance(WallpaperOf(preview.content.rows), Some(preview.palette), Some(preview.theme))
      ensures r.Err? ==> r.error !in {StalePreview, Validation}
      ensures if old(CanRead(Now(), preview.content, providers)
                     && StaysUnverified(AfterReads(Now()), preview.content.rows))
              then && r == Err(ApplyFailedRolledBack) && palette == old(palette) && theme == old(theme)
                   && wallpaper == Batch(old(AfterReads(Now())), preview.content.rows, old(wallpaper)).1.wallpaper
              else r.Err? && r.error != RollbackFailed ==> Shown() == old(Shown())
      ensures preview.content.provider in providers && old(wallpaper).Keys == WallpaperOf(preview.content.rows).Keys ==>
        r.Ok? || Weight(old(script)) >= 1
      ensures r == Err(RollbackFailed) ==> Weight(old(script)) >= 2
    {
      var failure := ReadBefore(preview.content);
      if failure.Some? {
        return Err(failure.value);
      }
      var e := ApplyBoth(preview);
      r := if e.Some? then Err(e.value) else Ok(());
    }

    // All new, all as before, or an admitted failure of the rollback, which takes two calls that
    // misbehave or one that changed something and failed; except exactly if the batch breaks off or is left
    // unverified: then the wallpapers stay as it left them.
    method Apply(token: Token) returns (r: Result<(), Category>)
      requires Valid()
      modifies this`wallpaper, this`palette, this`theme, this`script, this`previews, this`consumed
      ensures Valid()
      ensures busy ==> r == Err(Busy) && previews == old(previews) && Shown() == old(Shown())
      ensures !busy ==> previews == old(previews) - {token.id}
      ensures r.Ok? ==>
        && token.id in old(previews) && consumed == old(consumed) + multiset{token.id}
        && var preview := old(previews)[token.id];
           Shown() == Appearance(WallpaperOf(token.content.rows), Some(preview.palette), Some(preview.theme))
      ensures r.Ok? || Shown() != old(Shown()) ==> old(IsCurrent(token))
      ensures if !busy && old(IsLeftUnverified(token))
              then && r == Err(ApplyFailedRolledBack) && palette == old(palette) && theme == old(theme)
                   && wallpaper == Batch(old(AfterReads(Now())), token.content.rows, old(wallpaper)).1.wallpaper
              else r.Err? && r.error != RollbackFailed ==> Shown() == old(Shown())
      ensures r == Err(Validation) <==> !busy && old(IsKept(token)) && !IsTopology(connectors)
      ensures r == Err(StalePreview) <==>
        !busy && !old(IsCurrent(token)) && (old(IsKept(token)) ==> IsTopology(connectors))
      ensures !busy && old(IsApplicable(token)) ==> r.Ok? || Faults(old(script)) >= 1
      ensures r == Err(RollbackFailed) ==> Faults(old(script)) >= 2 || HasDirty(old(script))
    {
      WhatWeighs(script);
      if busy {
        return Err(Busy);
      }
      var preview := Consume(token);
      if preview.Err? {
        return Err(preview.error);
      }
      r := ApplyPreview(preview.value);
    }
  }

  lemma OneRow(row: Row)
    ensures WallpaperOf([row]) == map[row.connector := row.source]
  {
    assert [row][..0] == [];
  }

  // Both reads and the validation go well, the command is accepted, and the check is refused.
  lemma UnverifiedAfterReads(connector: Connector, old_: Source, new_: Source, content: Content, providers: set<string>)
    requires old_ != new_ && content.rows == [Row(connector, new_)] && content.provider in providers
    ensures var w := World(map[connector := old_], [Fine, Fine, Fine, Fine, REFUSED]);
            && CanRead(w, content, providers) && StaysUnverified(AfterReads(w), content.rows)
            && Batch(AfterReads(w), content.rows, w.wallpaper).1.wallpaper == map[connector := new_]
  {
    hide Batch;
    OneRow(content.rows[0]);
    assert [Fine, Fine, Fine, Fine, REFUSED][1..] == [Fine, Fine, Fine, REFUSED];
    assert [Fine, Fine, Fine, REFUSED][1..] == [Fine, Fine, REFUSED];
    UnverifiedBatchStays(connector, old_, new_);
  }

  // A service with these monitors, all with the old wallpaper, and a token for the new one.
  method Previewed(monitors: seq<Connector>, old_: Source, new_: Source, config: string)
    returns (service: AppearanceService, token: Token)
    requires IsTopology(monitors)
    ensures fresh(service) && service.Valid() && !service.busy && service.IsCurrent(token)
    ensures service.wallpaper == WallpaperOf(RowsOf(monitors, old_)) && service.providers == {"awww"}
    ensures token.content.rows == RowsOf(monitors, new_) && token.content.provider == "awww"
  {
    service := new AppearanceService(WallpaperOf(RowsOf(monitors, old_)), None, None, [], monitors, config, {"awww"});
    var rows := RowsOf(monitors, new_);
    RowsCover(monitors, new_);
    assert rows != [] && HaveRows(rows, monitors);
    forall i | 0 <= i < |rows| ensures !Raises(CallAfter(Later([], 1), i)) {}
    var made := service.MakePreview("awww", rows, ["1"], "palette", "theme", CompilerIncompatible);
    token := made.value;
  }

  // The same wallpaper for every monitor.
  function RowsOf(monitors: seq<Connector>, source: Source): (rows: seq<Row>)
    ensures |rows| == |monitors|
  {
    if monitors == [] then [] else RowsOf(monitors[..|monitors| - 1], source) + [Row(monitors[|monitors| - 1], source)]
  }

  lemma {:induction false} RowsCover(monitors: seq<Connector>, source: Source)
    ensures WallpaperOf(RowsOf(monitors, source)) == map c | c in monitors :: source
  {
    if monitors != [] {
      var init, last := monitors[..|monitors| - 1], monitors[|monitors| - 1];
      RowsCover(init, source);
      var rows := RowsOf(monitors, source);
      assert rows[..|rows| - 1] == RowsOf(init, source) && rows[|rows| - 1] == Row(last, source);
      assert monitors == init + [last];
    }
  }

  lemma OneRowOf(one: Connector, source: Source)
    ensures RowsOf([one], source) == [Row(one, source)] && WallpaperOf([Row(one, source)]) == map[one := source]
  {
    assert [one][..0] == [];
    OneRow(Row(one, source));
  }

  lemma TwoRowsOf(one: Connector, two: Connector, source: Source)
    requires one != two
    ensures RowsOf([one, two], source) == [Row(one, source), Row(two, source)]
    ensures WallpaperOf(RowsOf([one, two], source)) == map[one := source, two := source]
  {
    OneRowOf(one, source);
    assert [one, two][..1] == [one];
    RowsCover([one, two], source);
  }

  // One monitor: its command is accepted and the check is refused.  The apply is reported as rolled
  // back, and the new wallpaper stays.
  method UnverifiedApplyStays(connector: Connector, old_: Source, new_: Source, config: string)
    returns (r: Result<(), Category>, shown: Wallpaper)
    requires old_ != new_ && connector != ""
    ensures r == Err(ApplyFailedRolledBack) && shown == map[connector := new_] != map[connector := old_]
  {
    hide Batch, CanRead, AfterReads, StaysUnverified, Faults, HasDirty, WallpaperOf, RowsOf;
    OneRowOf(connector, old_);
    OneRowOf(connector, new_);
    var service, token := Previewed([connector], old_, new_, config);
    service.script := [Fine, Fine, Fine, Fine, REFUSED];
    UnverifiedAfterReads(connector, old_, new_, token.content, service.providers);
    r := service.Apply(token);
    shown := service.wallpaper;
    assert map[connector := new_][connector] != map[connector := old_][connector];
  }

  // Both reads and the validation go well, the first command is accepted, and the second breaks off.
  lemma BreaksOffAfterReads(one: Connector, two: Connector, old_: Source, new_: Source, content: Content,
                            providers: set<string>)
    requires one != two && old_ != new_ && content.rows == RowsOf([one, two], new_) && content.provider in providers
    ensures var before := map[one := old_, two := old_];
            var w := World(before, [Fine, Fine, Fine, Fine, Fails(OtherError)]);
            && CanRead(w, content, providers) && StaysUnverified(AfterReads(w), content.rows)
            && Batch(AfterReads(w), content.rows, before).1.wallpaper == before[one := new_] != before
  {
    hide Batch, RowsOf, WallpaperOf;
    TwoRowsOf(one, two, new_);
    var broken := Fails(OtherError);
    assert [Fine, Fine, Fine, Fine, broken][1..] == [Fine, Fine, Fine, broken];
    assert [Fine, Fine, Fine, broken][1..] == [Fine, Fine, broken];
    BatchBreaksOff(one, two, old_, new_);
  }

  // Two monitors: the first command is accepted and the second prints what cannot be decoded.  The apply
  // is reported as rolled back, and the first monitor keeps its new wallpaper.
  method BrokenApplyStays(one: Connector, two: Connector, old_: Source, new_: Source, config: string)
    returns (r: Result<(), Category>, before: Wallpaper, shown: Wallpaper)
    requires one != two && one != "" && two != "" && old_ != new_
    ensures before == map[one := old_, two := old_]
    ensures r == Err(ApplyFailedRolledBack) && shown == before[one := new_] != before
  {
    hide Batch, CanRead, AfterReads, StaysUnverified, Faults, HasDirty, WallpaperOf, RowsOf;
    TwoRowsOf(one, two, old_);
    var service, token := Previewed([one, two], old_, new_, config);
    before := service.wallpaper;
    service.script := [Fine, Fine, Fine, Fine, Fails(OtherError)];
    BreaksOffAfterReads(one, two, old_, new_, token.content, service.providers);
    r := service.Apply(token);
    shown := service.wallpaper;
  }
}
