/**
  The registry of key bindings, its updates, and the JSON document it is stored as.  The text of
  the document is not modelled; the spelling of chords and the hash behind the generation id are
  parameters, and the hash may raise: text with lone surrogates cannot be encoded.
*/
module Bindings {
  import opened Wrappers
  import opened Chords
  import opened JsonValues

  datatype RawFlags = Flags(locked: bool, repeating: bool, release: bool, nonConsuming: bool)

  // Release bindings cannot repeat.
  type BindingFlags = f: RawFlags | !(f.release && f.repeating) witness Flags(false, false, false, false)

  datatype Action = Action(
    id: string,
    lbl: string,
    category: string,
    chord: Option<string>,
    flags: BindingFlags,
    group: string,
    recovery: bool)

  type Registry = seq<Action>

  datatype Change = Change(chord: Option<string>, flags: Option<BindingFlags>)
  type Changes = map<string, Change>

  // A document that is refused, or an error of another kind that comes through.
  datatype BindingError = Invalid | FlagsRaised | HashRaised

  // ----- what makes a registry valid ------------------------------------------------------------

  // No two actions share a chord in the same phase.
  predicate DistinctTriggers(actions: seq<Action>) {
    forall i, j | 0 <= i < j < |actions| ::
      actions[i].chord.Some? && actions[i].chord == actions[j].chord ==>
        actions[i].flags.release != actions[j].flags.release
  }

  function Members(actions: seq<Action>, g: string): seq<Action> {
    if actions == [] then []
    else
      var last := actions[|actions| - 1];
      Members(actions[..|actions| - 1], g) + (if last.group == g then [last] else [])
  }

  function GroupIds(actions: seq<Action>): set<string> {
    if actions == [] then {}
    else
      var last := actions[|actions| - 1];
      GroupIds(actions[..|actions| - 1]) + (if last.group != "" then {last.group} else {})
  }

  // A group is unbound as a whole, or one press and one release of the same chord.
  predicate GroupOk(members: seq<Action>) {
    || (forall m | m in members :: m.chord.None?)
    || (&& |members| == 2
        && members[0].chord.Some? && members[0].chord == members[1].chord
        && members[0].flags.release != members[1].flags.release
        && members[0].flags.locked == members[1].flags.locked)
  }

  predicate HasRecovery(actions: seq<Action>) {
    exists a | a in actions :: a.recovery && a.chord.Some?
  }

  predicate RegistryOk(actions: seq<Action>) {
    DistinctTriggers(actions) && (forall g | g in GroupIds(actions) :: GroupOk(Members(actions, g)))
      && HasRecovery(actions)
  }

  ghost function Triggers(actions: seq<Action>): set<(string, bool)> {
    set a | a in actions && a.chord.Some? :: (a.chord.value, a.flags.release)
  }

  method TriggersAreDistinct(actions: seq<Action>) returns (ok: bool)
    ensures ok == DistinctTriggers(actions)
  {
    var triggers: set<(string, bool)> := {};
    for i := 0 to |actions|
      invariant triggers == Triggers(actions[..i]) && DistinctTriggers(actions[..i])
    {
      var a := actions[i];
      assert actions[..i + 1] == actions[..i] + [a];
      if a.chord.Some? {
        if (a.chord.value, a.flags.release) in triggers {
          var b :| b in actions[..i] && b.chord == a.chord && b.flags.release == a.flags.release;
          var j :| 0 <= j < i && actions[j] == b;
          return false;
        }
        triggers := triggers + {(a.chord.value, a.flags.release)};
      }
    }
    assert actions[..|actions|] == actions;
    ok := true;
  }

  method GroupsOf(actions: seq<Action>) returns (groups: map<string, seq<Action>>)
    ensures groups.Keys == GroupIds(actions)
    ensures forall g :: g in groups ==> groups[g] == Members(actions, g)
  {
    groups := map[];
    for i := 0 to |actions|
      invariant groups.Keys == GroupIds(actions[..i]) && "" !in groups
      invariant forall g :: g in groups ==> groups[g] == Members(actions[..i], g)
    {
      var a := actions[i];
      assert actions[..i + 1][..i] == actions[..i];
      if a.group != "" {
        if a.group !in groups { NoMembers(actions[..i], a.group); }
        groups := groups[a.group := (if a.group in groups then groups[a.group] else []) + [a]];
      }
    }
    assert actions[..|actions|] == actions;
  }

  lemma {:induction false} NoMembers(actions: seq<Action>, g: string)
    requires g != "" && g !in GroupIds(actions)
    ensures Members(actions, g) == []
  {
    if actions != [] { NoMembers(actions[..|actions| - 1], g); }
  }

  method Validate(actions: seq<Action>) returns (ok: bool)
    ensures ok == RegistryOk(actions)
  {
    ok := TriggersAreDistinct(actions);
    if !ok {
      return;
    }
    var groups := GroupsOf(actions);
    var rest := groups.Keys;
    while rest != {}
      invariant rest <= groups.Keys
      invariant forall g | g in groups.Keys - rest :: GroupOk(Members(actions, g))
      decreases |rest|
    {
      var g :| g in rest;
      if !GroupOk(groups[g]) {
        return false;
      }
      rest := rest - {g};
    }
    ok := HasRecovery(actions);
  }

  // ----- updates ------------------------------------------------------------------------------

  ghost predicate UniqueIds(actions: seq<Action>) {
    forall i, j :: 0 <= i < j < |actions| ==> actions[i].id != actions[j].id
  }

  type Spelling = string -> Result<string, ChordError>

  predicate IsSpelled(spell: Spelling, chord: Option<string>) {
    chord.Some? ==> spell(chord.value) == Ok(chord.value)
  }

  // What the constructors make sure of.
  ghost predicate AllSpelled(spell: Spelling, actions: seq<Action>) {
    forall a :: a in actions ==> IsSpelled(spell, a.chord)
  }

  ghost predicate IsRegistry(spell: Spelling, actions: seq<Action>) {
    UniqueIds(actions) && RegistryOk(actions) && AllSpelled(spell, actions)
  }

  function Ids(actions: seq<Action>): set<string> {
    set a | a in actions :: a.id
  }

  // The action with another chord, in the given spelling, and perhaps other flags.
  function Changed(spell: Spelling, a: Action, change: Change): Option<Action> {
    var flags := if change.flags.Some? then change.flags.value else a.flags;
    match change.chord
    case None => Some(a.(chord := None, flags := flags))
    case Some(text) =>
      match spell(text)
      case Err(_) => None
      case Ok(canonical) => Some(a.(chord := Some(canonical), flags := flags))
  }

  function ChangedAll(spell: Spelling, actions: seq<Action>, changes: Changes): Option<seq<Action>> {
    if actions == [] then Some([])
    else
      var head := if actions[0].id in changes then Changed(spell, actions[0], changes[actions[0].id])
        else Some(actions[0]);
      var tail := ChangedAll(spell, actions[1..], changes);
      if head.None? || tail.None? then None else Some([head.value] + tail.value)
  }

  function Update(spell: Spelling, actions: Registry, changes: Changes): Option<Registry> {
    if !(changes.Keys <= Ids(actions)) then None
    else
      var updated := ChangedAll(spell, actions, changes);
      if updated.None? || !RegistryOk(updated.value) then None else updated
  }

  // Everything but chords and flags is the same.
  ghost predicate SameActions(a: seq<Action>, b: seq<Action>) {
    |a| == |b| && forall i :: 0 <= i < |a| ==> b[i].(chord := a[i].chord, flags := a[i].flags) == a[i]
  }

  // Spelling twice is spelling once.
  ghost predicate IsStable(spell: Spelling) {
    forall text :: IsSpelledOnce(spell, text)
  }

  ghost predicate IsSpelledOnce(spell: Spelling, text: string) {
    spell(text).Ok? ==> spell(spell(text).value) == spell(text)
  }

  lemma ChangedKeeps(spell: Spelling, a: Action, change: Change)
    requires IsStable(spell) && Changed(spell, a, change).Some?
    ensures var b := Changed(spell, a, change).value;
            IsSpelled(spell, b.chord) && b.(chord := a.chord, flags := a.flags) == a
  {
    if change.chord.Some? { assert IsSpelledOnce(spell, change.chord.value); }
  }

  lemma OneMoreKept(spell: Spelling, a: Action, b: Action, actions: seq<Action>, updated: seq<Action>)
    requires b.(chord := a.chord, flags := a.flags) == a && IsSpelled(spell, b.chord)
    requires SameActions(actions, updated) && AllSpelled(spell, updated)
    ensures SameActions([a] + actions, [b] + updated)
    ensures AllSpelled(spell, [b] + updated)
  {
  }

  lemma {:induction false} ChangedAllKeeps(spell: Spelling, actions: seq<Action>, changes: Changes)
    requires ChangedAll(spell, actions, changes).Some? && IsStable(spell)
    requires AllSpelled(spell, actions)
    ensures var updated := ChangedAll(spell, actions, changes).value;
            SameActions(actions, updated) && AllSpelled(spell, updated)
  {
    if actions == [] {
      assert SameActions([], []) && AllSpelled(spell, []);
    } else {
      var first, rest := actions[0], actions[1..];
      assert AllSpelled(spell, rest) && IsSpelled(spell, first.chord);
      hide IsStable, IsSpelled, Changed, SameActions, AllSpelled;
      ChangedAllKeeps(spell, rest, changes);
      assert actions == [first] + rest;
      if first.id in changes { ChangedKeeps(spell, first, changes[first.id]); }
      var changed := if first.id in changes then Changed(spell, first, changes[first.id]).value else first;
      OneMoreKept(spell, first, changed, rest, ChangedAll(spell, rest, changes).value);
    }
  }

  // Normalising chords is a spelling of this kind.
  function NormalForm(upper: Casing): Spelling {
    (text: string) => Normalize(upper, text)
  }

  lemma NormalFormIsStable(upper: Casing)
    requires IsCasing(upper)
    ensures IsStable(NormalForm(upper))
  {
    var spell := NormalForm(upper);
    forall text ensures IsSpelledOnce(spell, text) {
      if Normalize(upper, text).Ok? { NormalizeIsIdempotent(upper, text); }
    }
  }

  lemma UpdateKeepsRegistry(spell: Spelling, actions: Registry, changes: Changes)
    requires IsStable(spell) && IsRegistry(spell, actions) && Update(spell, actions, changes).Some?
    ensures var updated := Update(spell, actions, changes).value;
            IsRegistry(spell, updated) && SameActions(actions, updated)
  {
    ChangedAllKeeps(spell, actions, changes);
    var updated := Update(spell, actions, changes).value;
    forall i, j | 0 <= i < j < |updated| ensures updated[i].id != updated[j].id {
      assert updated[i].id == actions[i].id && updated[j].id == actions[j].id;
    }
  }

  // A registry after updates; those that are refused leave it alone.
  function Updates(spell: Spelling, baseline: Registry, all: seq<Changes>): Registry {
    if all == [] then baseline
    else
      var before := Updates(spell, baseline, all[..|all| - 1]);
      var after := Update(spell, before, all[|all| - 1]);
      if after.Some? then after.value else before
  }

  lemma {:induction false} UpdatesKeepRegistry(spell: Spelling, baseline: Registry, all: seq<Changes>)
    requires IsStable(spell) && IsRegistry(spell, baseline)
    ensures IsRegistry(spell, Updates(spell, baseline, all)) && SameActions(baseline, Updates(spell, baseline, all))
  {
    if all != [] {
      UpdatesKeepRegistry(spell, baseline, all[..|all| - 1]);
      var before := Updates(spell, baseline, all[..|all| - 1]);
      if Update(spell, before, all[|all| - 1]).Some? {
        UpdateKeepsRegistry(spell, before, all[|all| - 1]);
      }
    }
  }

  // ----- the document -------------------------------------------------------------------------

  function ChordJson(chord: Option<string>): Json {
    if chord.Some? then String(chord.value) else Null
  }

  function FlagsJson(f: BindingFlags): Json {
    Object(map["locked" := Bool(f.locked), "non_consuming" := Bool(f.nonConsuming),
               "release" := Bool(f.release), "repeating" := Bool(f.repeating)])
  }

  function Row(a: Action): Json {
    Object(map["action_id" := String(a.id), "chord" := ChordJson(a.chord), "flags" := FlagsJson(a.flags),
               "group_id" := String(a.group), "recovery" := Bool(a.recovery)])
  }

  function Rows(actions: seq<Action>): (rows: seq<Json>)
    ensures |rows| == |actions| && forall i :: 0 <= i < |rows| ==> rows[i] == Row(actions[i])
  {
    if actions == [] then [] else [Row(actions[0])] + Rows(actions[1..])
  }

  // How chords are spelled, and the hash of the rows; None if their text cannot be encoded.
  datatype Format = Format(spell: Spelling, hash: seq<Json> -> Option<string>)

  function Document(rows: seq<Json>, id: Json): Json {
    Object(map["bindings" := Array(rows), "generation_id" := id, "version" := Number(1.0)])
  }

  function Serialize(f: Format, actions: Registry): Option<Json> {
    match f.hash(Rows(actions))
    case None => None
    case Some(id) => Some(Document(Rows(actions), String(id)))
  }

  // Python compares true with 1 as equal.
  predicate IsVersion(v: Json) {
    v == Number(1.0) || v == Bool(true)
  }

  function ReadFlags(v: Json): Result<BindingFlags, BindingError> {
    if !v.Object? || v.fields.Keys != {"locked", "non_consuming", "release", "repeating"} then Err(Invalid)
    else if exists k | k in v.fields.Keys :: !v.fields[k].Bool? then Err(Invalid)
    else if v.fields["release"].value && v.fields["repeating"].value then Err(FlagsRaised)
    else Ok(Flags(v.fields["locked"].value, v.fields["repeating"].value,
                  v.fields["release"].value, v.fields["non_consuming"].value))
  }

  function Find(actions: seq<Action>, id: string): Option<Action> {
    if actions == [] then None
    else if actions[0].id == id then Some(actions[0])
    else Find(actions[1..], id)
  }

  // One row: the id of a known action not seen before, its fixed metadata, and its chord and flags.
  function ReadRow(row: Json, baseline: Registry, seen: set<string>): Result<(string, Change), BindingError> {
    if !row.Object? || row.fields.Keys != {"action_id", "chord", "flags", "group_id", "recovery"} then Err(Invalid)
    else
      var id, chord := row.fields["action_id"], row.fields["chord"];
      if !id.String? || id.text in seen then Err(Invalid)
      else
        var base := Find(baseline, id.text);
        if base.None? || row.fields["group_id"] != String(base.value.group)
          || row.fields["recovery"] != Bool(base.value.recovery)
        then Err(Invalid)
        else
          match ReadFlags(row.fields["flags"])
          case Err(e) => Err(if !chord.Null? && !chord.String? && e == FlagsRaised then Invalid else e)
          case Ok(flags) =>
            if chord.Null? then Ok((id.text, Change(None, Some(flags))))
            else if chord.String? then Ok((id.text, Change(Some(chord.text), Some(flags))))
            else Err(Invalid)
  }

  function ReadRows(rows: seq<Json>, baseline: Registry): Result<Changes, BindingError> {
    if rows == [] then Ok(map[])
    else
      match ReadRows(rows[..|rows| - 1], baseline)
      case Err(e) => Err(e)
      case Ok(changes) =>
        match ReadRow(rows[|rows| - 1], baseline, changes.Keys)
        case Err(e) => Err(e)
        case Ok(entry) => Ok(changes[entry.0 := entry.1])
  }

  predicate HasFields(doc: Json) {
    doc.Object? && doc.fields.Keys == {"bindings", "generation_id", "version"}
    && IsVersion(doc.fields["version"]) && doc.fields["bindings"].Array?
  }

  // After the rows: every action must be there, the result valid, and the generation id its hash.
  function Finish(f: Format, id: Json, baseline: Registry, changes: Changes): Result<Registry, BindingError> {
    if changes.Keys != Ids(baseline) then Err(Invalid)
    else
      var updated := Update(f.spell, baseline, changes);
      if updated.None? then Err(Invalid)
      else
        match f.hash(Rows(updated.value))
        case None => Err(HashRaised)
        case Some(hash) => if id != String(hash) then Err(Invalid) else Ok(updated.value)
  }

  function Decode(f: Format, doc: Json, baseline: Registry): Result<Registry, BindingError> {
    if !HasFields(doc) then Err(Invalid)
    else
      match ReadRows(doc.fields["bindings"].items, baseline)
      case Err(e) => Err(e)
      case Ok(changes) => Finish(f, doc.fields["generation_id"], baseline, changes)
  }

  lemma {:induction false} ErrorsStay(rows: seq<Json>, i: nat, baseline: Registry)
    requires i <= |rows| && ReadRows(rows[..i], baseline).Err?
    ensures ReadRows(rows, baseline) == ReadRows(rows[..i], baseline)
  {
    if i < |rows| {
      assert rows[..|rows| - 1][..i] == rows[..i];
      ErrorsStay(rows[..|rows| - 1], i, baseline);
    } else {
      assert rows[..i] == rows;
    }
  }

  // The loop over the rows.
  method DecodeRegistry(f: Format, doc: Json, baseline: Registry) returns (r: Result<Registry, BindingError>)
    ensures r == Decode(f, doc, baseline)
  {
    if !HasFields(doc) {
      return Err(Invalid);
    }
    var rows := doc.fields["bindings"].items;
    var changes: Changes := map[];
    for i := 0 to |rows|
      invariant ReadRows(rows[..i], baseline) == Ok(changes)
    {
      assert rows[..i + 1][..i] == rows[..i];
      var entry := ReadRow(rows[i], baseline, changes.Keys);
      if entry.Err? {
        ErrorsStay(rows, i + 1, baseline);
        return Err(entry.error);
      }
      changes := changes[entry.value.0 := entry.value.1];
    }
    assert rows[..|rows|] == rows;
    r := Finish(f, doc.fields["generation_id"], baseline, changes);
  }

  // ----- the round trip -------------------------------------------------------------------------

  lemma FlagsRoundTrip(f: BindingFlags)
    ensures ReadFlags(FlagsJson(f)) == Ok(f)
  {
    var v := FlagsJson(f);
    assert v.fields.Keys == {"locked", "non_consuming", "release", "repeating"};
    assert forall k | k in v.fields.Keys :: v.fields[k].Bool?;
  }

  lemma {:induction false} FindIsUnique(actions: seq<Action>, i: nat)
    requires i < |actions| && UniqueIds(actions)
    ensures Find(actions, actions[i].id) == Some(actions[i])
  {
    if i > 0 {
      var rest := actions[1..];
      assert forall j, k :: 0 <= j < k < |rest| ==> rest[j].id == actions[j + 1].id && rest[k].id == actions[k + 1].id;
      FindIsUnique(rest, i - 1);
    }
  }

  function AsChange(a: Action): Change {
    Change(a.chord, Some(a.flags))
  }

  lemma RowRoundTrip(a: Action, baseline: Registry, i: nat, seen: set<string>)
    requires UniqueIds(baseline) && i < |baseline|
      && a.(chord := baseline[i].chord, flags := baseline[i].flags) == baseline[i]
    requires a.id !in seen
    ensures ReadRow(Row(a), baseline, seen) == Ok((a.id, AsChange(a)))
  {
    FindIsUnique(baseline, i);
    FlagsRoundTrip(a.flags);
    var row := Row(a);
    assert row.fields.Keys == {"action_id", "chord", "flags", "group_id", "recovery"};
  }

  ghost predicate Covers(changes: Changes, actions: seq<Action>) {
    changes.Keys == Ids(actions) && forall a :: a in actions ==> a.id in changes && changes[a.id] == AsChange(a)
  }

  lemma ReadOneMore(rows: seq<Json>, n: nat, baseline: Registry, changes: Changes, entry: (string, Change))
    requires n < |rows| && ReadRows(rows[..n], baseline) == Ok(changes)
    requires ReadRow(rows[n], baseline, changes.Keys) == Ok(entry)
    ensures ReadRows(rows[..n + 1], baseline) == Ok(changes[entry.0 := entry.1])
  {
    assert rows[..n + 1][..n] == rows[..n];
  }

  lemma CoverOneMore(changes: Changes, actions: seq<Action>, n: nat)
    requires n < |actions| && Covers(changes, actions[..n]) && UniqueIds(actions)
    ensures Covers(changes[actions[n].id := AsChange(actions[n])], actions[..n + 1])
    ensures actions[n].id !in changes
  {
    forall b | b in actions[..n] ensures b.id != actions[n].id {
      var j :| 0 <= j < n && actions[j] == b;
    }
    assert actions[..n + 1] == actions[..n] + [actions[n]];
  }

  lemma OneRow(rows: seq<Json>, actions: Registry, baseline: Registry, n: nat, before: Changes) returns (after: Changes)
    requires UniqueIds(baseline) && UniqueIds(actions) && SameActions(baseline, actions) && n < |actions| <= |rows|
    requires rows[n] == Row(actions[n]) && Covers(before, actions[..n]) && ReadRows(rows[..n], baseline) == Ok(before)
    ensures ReadRows(rows[..n + 1], baseline) == Ok(after) && Covers(after, actions[..n + 1])
  {
    CoverOneMore(before, actions, n);
    RowRoundTrip(actions[n], baseline, n, before.Keys);
    ReadOneMore(rows, n, baseline, before, (actions[n].id, AsChange(actions[n])));
    after := before[actions[n].id := AsChange(actions[n])];
  }

  lemma {:induction false} RowsRoundTrip(rows: seq<Json>, actions: Registry, baseline: Registry, n: nat)
    returns (changes: Changes)
    requires UniqueIds(baseline) && UniqueIds(actions) && SameActions(baseline, actions) && n <= |actions|
    requires |rows| == |actions| && forall i :: 0 <= i < |rows| ==> rows[i] == Row(actions[i])
    ensures ReadRows(rows[..n], baseline) == Ok(changes) && Covers(changes, actions[..n])
  {
    if n == 0 {
      changes := map[];
    } else {
      var before := RowsRoundTrip(rows, actions, baseline, n - 1);
      changes := OneRow(rows, actions, baseline, n - 1, before);
    }
  }

  lemma ChangedInto(spell: Spelling, a: Action, b: Action)
    requires b.(chord := a.chord, flags := a.flags) == a && IsSpelled(spell, b.chord)
    ensures Changed(spell, a, AsChange(b)) == Some(b)
  {
  }

  lemma {:induction false} ChangedIntoActions(spell: Spelling, baseline: seq<Action>, actions: seq<Action>,
                                              changes: Changes)
    requires SameActions(baseline, actions)
    requires forall a :: a in actions ==> a.id in changes && changes[a.id] == AsChange(a) && IsSpelled(spell, a.chord)
    ensures ChangedAll(spell, baseline, changes) == Some(actions)
  {
    if baseline != [] {
      SameTails(baseline, actions);
      ChangedIntoActions(spell, baseline[1..], actions[1..], changes);
      assert actions[0] in actions;
      ChangedInto(spell, baseline[0], actions[0]);
      assert actions == [actions[0]] + actions[1..];
    }
  }

  lemma SameTails(a: seq<Action>, b: seq<Action>)
    requires SameActions(a, b) && a != []
    ensures SameActions(a[1..], b[1..]) && b[0].(chord := a[0].chord, flags := a[0].flags) == a[0] && a[0].id == b[0].id
  {
    assert forall i :: 0 <= i < |a| - 1 ==> a[1..][i] == a[i + 1] && b[1..][i] == b[i + 1];
  }

  lemma SameIds(a: seq<Action>, b: seq<Action>)
    requires SameActions(a, b)
    ensures Ids(a) == Ids(b)
  {
    forall id ensures id in Ids(a) <==> id in Ids(b) {
      if id in Ids(a) {
        var i :| 0 <= i < |a| && a[i].id == id;
        assert b[i].id == id && b[i] in b;
      }
      if id in Ids(b) {
        var i :| 0 <= i < |b| && b[i].id == id;
        assert a[i].id == id && a[i] in a;
      }
    }
  }

  lemma UpdateRoundTrip(spell: Spelling, baseline: Registry, actions: Registry, changes: Changes)
    requires IsRegistry(spell, actions) && SameActions(baseline, actions) && Covers(changes, actions)
    ensures Update(spell, baseline, changes) == Some(actions) && changes.Keys == Ids(baseline)
  {
    SameIds(baseline, actions);
    ChangedIntoActions(spell, baseline, actions, changes);
  }

  lemma DocumentOfRows(f: Format, rows: seq<Json>, id: Json, baseline: Registry, changes: Changes)
    requires ReadRows(rows, baseline) == Ok(changes)
    ensures Decode(f, Document(rows, id), baseline) == Finish(f, id, baseline, changes)
  {
    hide Finish, ReadRow;
    assert Document(rows, id).fields.Keys == {"bindings", "generation_id", "version"};
  }

  // Rows of a registry with the same actions are read as changes into that registry.
  lemma DocumentIsRead(f: Format, actions: Registry, baseline: Registry, id: Json) returns (changes: Changes)
    requires IsRegistry(f.spell, actions) && UniqueIds(baseline) && SameActions(baseline, actions)
    ensures Decode(f, Document(Rows(actions), id), baseline) == Finish(f, id, baseline, changes)
    ensures Update(f.spell, baseline, changes) == Some(actions) && changes.Keys == Ids(baseline)
  {
    hide Decode, Finish, Update, ReadRow, RegistryOk;
    var rows := Rows(actions);
    changes := RowsRoundTrip(rows, actions, baseline, |actions|);
    assert rows[..|actions|] == rows && actions[..|actions|] == actions;
    DocumentOfRows(f, rows, id, baseline, changes);
    UpdateRoundTrip(f.spell, baseline, actions, changes);
  }

  // Any registry with the same actions is read back from its document.
  lemma DocumentRoundTrip(f: Format, actions: Registry, baseline: Registry)
    requires IsRegistry(f.spell, actions) && UniqueIds(baseline) && SameActions(baseline, actions)
    requires Serialize(f, actions).Some?
    ensures Decode(f, Serialize(f, actions).value, baseline) == Ok(actions)
  {
    var changes := DocumentIsRead(f, actions, baseline, String(f.hash(Rows(actions)).value));
  }

  // Decoding what was serialised gives back the registry, whatever updates led to it.
  lemma EveryReachableRegistryRoundTrips(f: Format, baseline: Registry, all: seq<Changes>)
    requires IsStable(f.spell) && IsRegistry(f.spell, baseline)
    ensures var doc := Serialize(f, Updates(f.spell, baseline, all));
            doc.Some? ==> Decode(f, doc.value, baseline) == Ok(Updates(f.spell, baseline, all))
  {
    UpdatesKeepRegistry(f.spell, baseline, all);
    if Serialize(f, Updates(f.spell, baseline, all)).Some? {
      DocumentRoundTrip(f, Updates(f.spell, baseline, all), baseline);
    }
  }

  // With chords spelled in their normal form, nothing is left to ask for: from a valid default every
  // registry round-trips.
  lemma RegistriesOfNormalChordsRoundTrip(upper: Casing, f: Format, baseline: Registry, all: seq<Changes>)
    requires IsCasing(upper) && f.spell == NormalForm(upper) && IsRegistry(f.spell, baseline)
    ensures var reached := Updates(f.spell, baseline, all);
            && IsRegistry(f.spell, reached)
            && (Serialize(f, reached).Some? ==> Decode(f, Serialize(f, reached).value, baseline) == Ok(reached))
  {
    NormalFormIsStable(upper);
    UpdatesKeepRegistry(f.spell, baseline, all);
    EveryReachableRegistryRoundTrips(f, baseline, all);
  }

  // Whatever document is accepted, the result is a valid registry with the actions of the baseline, in
  // canonical spelling, and carries the generation id of that result; serialising it is stable.
  lemma DecodedIsRegistry(f: Format, doc: Json, baseline: Registry)
    requires IsStable(f.spell) && IsRegistry(f.spell, baseline) && Decode(f, doc, baseline).Ok?
    ensures var actions := Decode(f, doc, baseline).value;
            && IsRegistry(f.spell, actions) && SameActions(baseline, actions)
            && Serialize(f, actions).Some?
            && doc.fields["generation_id"] == String(f.hash(Rows(actions)).value)
            && Decode(f, Serialize(f, actions).value, baseline) == Ok(actions)
  {
    var changes := ReadRows(doc.fields["bindings"].items, baseline).value;
    UpdateKeepsRegistry(f.spell, baseline, changes);
    DocumentRoundTrip(f, Decode(f, doc, baseline).value, baseline);
  }

  // ----- what an accepted document says ---------------------------------------------------------

  // The row has the fixed metadata and the flags of the action, and spells its chord in some way.
  ghost predicate Denotes(spell: Spelling, row: Json, a: Action) {
    && row.Object? && row.fields.Keys == {"action_id", "chord", "flags", "group_id", "recovery"}
    && row.fields["action_id"] == String(a.id) && row.fields["group_id"] == String(a.group)
    && row.fields["recovery"] == Bool(a.recovery) && row.fields["flags"] == FlagsJson(a.flags)
    && (if a.chord.None? then row.fields["chord"] == Null
        else row.fields["chord"].String? && spell(row.fields["chord"].text) == Ok(a.chord.value))
  }

  // What a row says on its own.
  function Reader(baseline: Registry): Json -> Result<(string, Change), BindingError> {
    (row: Json) => ReadRow(row, baseline, {})
  }

  ghost predicate Says(read: Json -> Result<(string, Change), BindingError>, row: Json, changes: Changes, id: string) {
    id in changes && read(row) == Ok((id, changes[id]))
  }

  // The rows say the changes, one each: the change of an id comes from the row at that place.
  ghost predicate SayAll(read: Json -> Result<(string, Change), BindingError>, rows: seq<Json>, changes: Changes,
                         at: map<string, nat>) {
    && at.Keys == changes.Keys
    && (forall id :: id in at ==> at[id] < |rows| && Says(read, rows[at[id]], changes, id))
    && (forall i :: 0 <= i < |rows| ==>
        read(rows[i]).Ok? && read(rows[i]).value.0 in at && at[read(rows[i]).value.0] == i)
  }

  lemma SeenOnlyRefuses(row: Json, baseline: Registry, seen: set<string>)
    ensures ReadRow(row, baseline, seen).Ok? ==>
      Reader(baseline)(row) == ReadRow(row, baseline, seen) && ReadRow(row, baseline, seen).value.0 !in seen
  {
  }

  lemma OneMoreSays(read: Json -> Result<(string, Change), BindingError>, rows: seq<Json>, before: Changes,
                    at: map<string, nat>,
                    row: Json, id: string, change: Change)
    requires SayAll(read, rows, before, at) && id !in before && read(row) == Ok((id, change))
    ensures SayAll(read, rows + [row], before[id := change], at[id := |rows|])
  {
  }

  lemma {:induction false} RowsSayAll(rows: seq<Json>, baseline: Registry) returns (at: map<string, nat>)
    requires ReadRows(rows, baseline).Ok?
    ensures SayAll(Reader(baseline), rows, ReadRows(rows, baseline).value, at)
  {
    if rows == [] {
      at := map[];
    } else {
      var init, last := rows[..|rows| - 1], rows[|rows| - 1];
      var places := RowsSayAll(init, baseline);
      var before := ReadRows(init, baseline).value;
      SeenOnlyRefuses(last, baseline, before.Keys);
      var (id, change) := ReadRow(last, baseline, before.Keys).value;
      OneMoreSays(Reader(baseline), init, before, places, last, id, change);
      assert init + [last] == rows;
      at := places[id := |init|];
    }
  }

  lemma {:induction false} ChangedAt(spell: Spelling, actions: seq<Action>, changes: Changes, k: nat)
    requires ChangedAll(spell, actions, changes).Some? && k < |actions| && actions[k].id in changes
    ensures var updated := ChangedAll(spell, actions, changes).value;
            |updated| == |actions| && Changed(spell, actions[k], changes[actions[k].id]) == Some(updated[k])
  {
    if k > 0 {
      ChangedAt(spell, actions[1..], changes, k - 1);
    } else if |actions| > 1 && actions[1].id in changes {
      ChangedAt(spell, actions[1..], changes, 0);
    }
    ChangedLength(spell, actions, changes);
  }

  lemma {:induction false} ChangedLength(spell: Spelling, actions: seq<Action>, changes: Changes)
    ensures ChangedAll(spell, actions, changes).Some? ==> |ChangedAll(spell, actions, changes).value| == |actions|
  {
    if actions != [] { ChangedLength(spell, actions[1..], changes); }
  }

  lemma FlagsAreTheirJson(v: Json)
    ensures ReadFlags(v).Ok? ==> v == FlagsJson(ReadFlags(v).value)
  {
    if ReadFlags(v).Ok? {
      var f := FlagsJson(ReadFlags(v).value).fields;
      forall k | k in v.fields ensures k in f && f[k] == v.fields[k] {
        assert k in v.fields.Keys;
      }
      assert v.fields.Keys == f.Keys;
      assert v.fields == f;
    }
  }

  lemma SaidIsDenoted(spell: Spelling, row: Json, baseline: Registry, changes: Changes, k: nat, a: Action)
    requires UniqueIds(baseline) && k < |baseline| && Says(Reader(baseline), row, changes, baseline[k].id)
    requires Changed(spell, baseline[k], changes[baseline[k].id]) == Some(a)
    ensures Denotes(spell, row, a)
  {
    FindIsUnique(baseline, k);
    FlagsAreTheirJson(row.fields["flags"]);
  }

  lemma DenotedId(spell: Spelling, row: Json, baseline: Registry, a: Action)
    requires Reader(baseline)(row).Ok? && Denotes(spell, row, a)
    ensures Reader(baseline)(row).value.0 == a.id
  {
  }

  lemma OnlyThere(spell: Spelling, rows: seq<Json>, baseline: Registry, changes: Changes, at: map<string, nat>,
                  a: Action, j: nat)
    requires SayAll(Reader(baseline), rows, changes, at) && j < |rows| && Denotes(spell, rows[j], a)
    ensures a.id in at && j == at[a.id]
  {
    DenotedId(spell, rows[j], baseline, a);
  }

  // What an accepted document was read as.
  lemma AcceptedChanges(f: Format, doc: Json, baseline: Registry) returns (changes: Changes, at: map<string, nat>)
    requires Decode(f, doc, baseline).Ok?
    ensures doc.Object? && "bindings" in doc.fields && doc.fields["bindings"].Array? && changes.Keys == Ids(baseline)
    ensures SayAll(Reader(baseline), doc.fields["bindings"].items, changes, at)
    ensures ChangedAll(f.spell, baseline, changes) == Some(Decode(f, doc, baseline).value)
  {
    changes := ReadRows(doc.fields["bindings"].items, baseline).value;
    at := RowsSayAll(doc.fields["bindings"].items, baseline);
  }

  lemma OnlyOneDenotes(spell: Spelling, rows: seq<Json>, baseline: Registry, changes: Changes, at: map<string, nat>,
                       a: Action)
    requires SayAll(Reader(baseline), rows, changes, at) && a.id in at
    ensures forall j :: 0 <= j < |rows| && Denotes(spell, rows[j], a) ==> j == at[a.id]
  {
    forall j | 0 <= j < |rows| && Denotes(spell, rows[j], a) ensures j == at[a.id] {
      OnlyThere(spell, rows, baseline, changes, at, a, j);
    }
  }

  // Where an action of the result was read, and how it was changed.
  lemma PlaceOf(read: Json -> Result<(string, Change), BindingError>, spell: Spelling, rows: seq<Json>,
                baseline: Registry,
                changes: Changes, at: map<string, nat>, actions: seq<Action>, k: nat)
    requires SayAll(read, rows, changes, at) && changes.Keys == Ids(baseline)
    requires ChangedAll(spell, baseline, changes) == Some(actions) && k < |actions|
    ensures k < |baseline| && baseline[k].id in changes && baseline[k].id in at && at[baseline[k].id] < |rows|
    ensures Says(read, rows[at[baseline[k].id]], changes, baseline[k].id)
    ensures Changed(spell, baseline[k], changes[baseline[k].id]) == Some(actions[k])
  {
    ChangedLength(spell, baseline, changes);
    assert baseline[k].id in Ids(baseline);
    ChangedAt(spell, baseline, changes, k);
  }

  // A document that is accepted has exactly one row for each action of the result, and that row denotes it.
  lemma AcceptedRowsDenote(f: Format, doc: Json, baseline: Registry, k: nat) returns (i: nat)
    requires UniqueIds(baseline) && Decode(f, doc, baseline).Ok? && k < |Decode(f, doc, baseline).value|
    ensures var actions, rows := Decode(f, doc, baseline).value, doc.fields["bindings"].items;
            && i < |rows| && Denotes(f.spell, rows[i], actions[k])
            && forall j :: 0 <= j < |rows| && Denotes(f.spell, rows[j], actions[k]) ==> j == i
  {
    var changes, at := AcceptedChanges(f, doc, baseline);
    var rows, actions := doc.fields["bindings"].items, Decode(f, doc, baseline).value;
    PlaceOf(Reader(baseline), f.spell, rows, baseline, changes, at, actions, k);
    i := at[baseline[k].id];
    SaidIsDenoted(f.spell, rows[i], baseline, changes, k, actions[k]);
    OnlyOneDenotes(f.spell, rows, baseline, changes, at, actions[k]);
  }

  // ----- what comes through the decoder -----------------------------------------------------------

  // Four flags, each of them a boolean, that no binding can have.
  predicate AreImpossible(flags: Json) {
    && flags.Object? && flags.fields.Keys == {"locked", "non_consuming", "release", "repeating"}
    && (forall k | k in flags.fields.Keys :: flags.fields[k].Bool?)
    && flags.fields["release"] == Bool(true) && flags.fields["repeating"] == Bool(true)
  }

  // A row without a flaw but that its flags are impossible.
  predicate RowEscapes(row: Json, baseline: Registry, seen: set<string>) {
    && row.Object? && row.fields.Keys == {"action_id", "chord", "flags", "group_id", "recovery"}
    && row.fields["action_id"].String? && row.fields["action_id"].text !in seen
    && (var base := Find(baseline, row.fields["action_id"].text);
        base.Some? && row.fields["group_id"] == String(base.value.group)
          && row.fields["recovery"] == Bool(base.value.recovery))
    && (row.fields["chord"].Null? || row.fields["chord"].String?)
    && AreImpossible(row.fields["flags"])
  }

  // Such a row, after rows that were read.
  ghost predicate FlagsEscape(rows: seq<Json>, baseline: Registry) {
    exists i :: 0 <= i < |rows| && EscapesAt(rows, baseline, i)
  }

  predicate EscapesAt(rows: seq<Json>, baseline: Registry, i: nat)
    requires i < |rows|
  {
    var before := ReadRows(rows[..i], baseline);
    before.Ok? && RowEscapes(rows[i], baseline, before.value.Keys)
  }

  lemma FlagsRaiseExactly(v: Json)
    ensures ReadFlags(v) == Err(FlagsRaised) <==> AreImpossible(v)
    ensures ReadFlags(v) != Err(HashRaised)
  {
    if v.Object? && v.fields.Keys == {"locked", "non_consuming", "release", "repeating"} {
      assert "release" in v.fields.Keys && "repeating" in v.fields.Keys;
    }
  }

  lemma RowRaisesExactly(row: Json, baseline: Registry, seen: set<string>)
    ensures ReadRow(row, baseline, seen) == Err(FlagsRaised) <==> RowEscapes(row, baseline, seen)
    ensures ReadRow(row, baseline, seen) != Err(HashRaised)
  {
    if row.Object? && row.fields.Keys == {"action_id", "chord", "flags", "group_id", "recovery"} {
      assert "flags" in row.fields.Keys;
      FlagsRaiseExactly(row.fields["flags"]);
    }
  }

  lemma {:induction false} RowsRaiseExactly(rows: seq<Json>, baseline: Registry)
    ensures ReadRows(rows, baseline) == Err(FlagsRaised) <==> FlagsEscape(rows, baseline)
    ensures ReadRows(rows, baseline) != Err(HashRaised)
  {
    hide ReadRow, RowEscapes;
    if rows != [] {
      var init, n := rows[..|rows| - 1], |rows| - 1;
      RowsRaiseExactly(init, baseline);
      if ReadRows(init, baseline).Ok? {
        RowRaisesExactly(rows[n], baseline, ReadRows(init, baseline).value.Keys);
        assert EscapesAt(rows, baseline, n) <==> RowEscapes(rows[n], baseline, ReadRows(init, baseline).value.Keys);
      }
      forall i | 0 <= i < n ensures EscapesAt(rows, baseline, i) <==> EscapesAt(init, baseline, i) {
        assert rows[..i] == init[..i];
      }
      if FlagsEscape(rows, baseline) {
        var i :| 0 <= i < |rows| && EscapesAt(rows, baseline, i);
        if i < n { assert EscapesAt(init, baseline, i); }
      }
      if FlagsEscape(init, baseline) {
        var i :| 0 <= i < n && EscapesAt(init, baseline, i);
        assert EscapesAt(rows, baseline, i);
      }
    }
  }

  // The registry a document asks for, if its rows are read, every action is there and the result is valid.
  function Asked(f: Format, doc: Json, baseline: Registry): Option<Registry> {
    if !HasFields(doc) then None
    else
      match ReadRows(doc.fields["bindings"].items, baseline)
      case Err(_) => None
      case Ok(changes) => if changes.Keys == Ids(baseline) then Update(f.spell, baseline, changes) else None
  }

  // A document that is not accepted is reported as invalid except in two cases: the flags of a row are
  // impossible, with nothing wrong before them, or the registry it asks for cannot be hashed.
  lemma WhatComesThrough(f: Format, doc: Json, baseline: Registry)
    ensures Decode(f, doc, baseline) == Err(FlagsRaised) <==>
      HasFields(doc) && FlagsEscape(doc.fields["bindings"].items, baseline)
    ensures Decode(f, doc, baseline) == Err(HashRaised) <==>
      Asked(f, doc, baseline).Some? && f.hash(Rows(Asked(f, doc, baseline).value)).None?
  {
    if HasFields(doc) { RowsRaiseExactly(doc.fields["bindings"].items, baseline); }
  }

  // A document whose first row gives an action the flags release and repeating.
  lemma ImpossibleFlagsComeThrough(f: Format, baseline: Registry, id: Json, others: seq<Json>)
    requires baseline != []
    ensures var a := baseline[0];
            var flags := Object(map["locked" := Bool(false), "non_consuming" := Bool(false),
                                    "release" := Bool(true), "repeating" := Bool(true)]);
            var row := Object(map["action_id" := String(a.id), "chord" := Null, "flags" := flags,
                                  "group_id" := String(a.group), "recovery" := Bool(a.recovery)]);
            Decode(f, Document([row] + others, id), baseline) == Err(FlagsRaised)
  {
    var a := baseline[0];
    var flags := Object(map["locked" := Bool(false), "non_consuming" := Bool(false),
                            "release" := Bool(true), "repeating" := Bool(true)]);
    var row := Object(map["action_id" := String(a.id), "chord" := Null, "flags" := flags,
                          "group_id" := String(a.group), "recovery" := Bool(a.recovery)]);
    var rows := [row] + others;
    assert flags.fields.Keys == {"locked", "non_consuming", "release", "repeating"};
    assert row.fields.Keys == {"action_id", "chord", "flags", "group_id", "recovery"};
    assert rows[..0] == [] && rows[0] == row;
    assert Find(baseline, a.id) == Some(a);
    assert RowEscapes(row, baseline, {});
    assert EscapesAt(rows, baseline, 0);
    var doc := Document(rows, id);
    assert doc.fields.Keys == {"bindings", "generation_id", "version"};
    WhatComesThrough(f, doc, baseline);
  }

  // A document of a registry whose text cannot be encoded, a chord with a lone surrogate say.
  lemma UnencodableChordsComeThrough(f: Format, actions: Registry, baseline: Registry, id: Json)
    requires IsRegistry(f.spell, actions) && UniqueIds(baseline) && SameActions(baseline, actions)
    requires f.hash(Rows(actions)).None?
    ensures Decode(f, Document(Rows(actions), id), baseline) == Err(HashRaised)
  {
    var changes := DocumentIsRead(f, actions, baseline, id);
  }
}
