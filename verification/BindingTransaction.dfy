/**
  Applying an update to the two files that hold the key bindings, with every read and every write
  failing in any way.  The texts of the files are values of a codec; bytes are written as characters.
*/
module BindingTransaction {
  import opened Wrappers
  import opened Bindings
  import opened JsonValues
  import opened Sequences

  type Bytes = string
  type Digest = string

  // What a text is parsed to: an error the decoder reports, any other error, or a document.
  datatype Parsed = Malformed | ParserRaises | Parsed(doc: Json)

  // JSON text, the Lua file, how chords are spelled and rows are hashed, and the hash of the two files.
  // What can be hashed can be written.
  datatype Codec = Codec(
    format: Format,
    render: Json -> Bytes,
    parse: Bytes -> Parsed,
    lua: Registry -> Bytes,
    fileHash: Bytes -> Digest)

  ghost predicate CodecOk(c: Codec) {
    IsStable(c.format.spell) && forall r: Registry :: IsReadBack(c, r)
  }

  // What is written for a registry is read back.
  predicate IsReadBack(c: Codec, r: Registry) {
    match Serialize(c.format, r)
    case None => true
    case Some(doc) => c.parse(c.render(doc)) == Parsed(doc)
  }

  datatype Category = Conflict | Validation | WriteFailedRolledBack | RollbackFailed | Uncaught
  datatype Applied = Applied(digest: Digest, changedActions: set<string>)

  // What one call of the file system does: as asked, raise, or leave some content and perhaps raise.
  datatype Outcome = Fine | Raises | Leaves(content: Option<Bytes>, raises: bool)

  // The state file of a registry, if its text can be encoded.
  function StateBytes(c: Codec, r: Registry): Option<Bytes> {
    match Serialize(c.format, r)
    case None => None
    case Some(doc) => Some(c.render(doc))
  }

  function DecodeBytes(c: Codec, payload: Bytes, baseline: Registry): Result<Registry, Category> {
    match c.parse(payload)
    case Malformed => Err(Validation)
    case ParserRaises => Err(Uncaught)
    case Parsed(doc) =>
      match Decode(c.format, doc, baseline)
      case Ok(r) => Ok(r)
      case Err(Invalid) => Err(Validation)
      case Err(_) => Err(Uncaught)
  }

  // A state file is not reported as invalid but raises another error exactly for three causes: parsing it
  // raises, the flags of a row are impossible, or the registry it asks for cannot be encoded.
  lemma ThreeCauses(c: Codec, payload: Bytes, baseline: Registry)
    ensures DecodeBytes(c, payload, baseline) == Err(Uncaught) <==>
      match c.parse(payload)
      case Malformed => false
      case ParserRaises => true
      case Parsed(doc) =>
        || (HasFields(doc) && FlagsEscape(doc.fields["bindings"].items, baseline))
        || (Asked(c.format, doc, baseline).Some? && c.format.hash(Rows(Asked(c.format, doc, baseline).value)).None?)
  {
    if c.parse(payload).Parsed? { WhatComesThrough(c.format, c.parse(payload).doc, baseline); }
  }

  // The registry two files stand for: without a state file the packaged one, otherwise both must be
  // exactly what serialising it gives.
  function Meaning(c: Codec, baseline: Registry, state: Option<Bytes>, lua: Option<Bytes>): Result<Registry, Category> {
    if state.None? then if c.format.hash(Rows(baseline)).None? then Err(Uncaught) else Ok(baseline)
    else if lua.None? then Err(Validation)
    else
      var r := DecodeBytes(c, state.value, baseline);
      if r.Err? then r
      else if state != StateBytes(c, r.value) || lua.value != c.lua(r.value) then Err(Validation)
      else r
  }

  // ----- the digest ---------------------------------------------------------------------------

  const STATE := "state"
  const LUA := "lua"
  const MISSING := "\0missing\0"
  const PRESENT := "\0present\0"

  function Tag(payload: Option<Bytes>): Bytes {
    if payload.None? then MISSING else PRESENT + payload.value
  }

  // What is hashed.
  function Image(state: Option<Bytes>, lua: Option<Bytes>): Bytes {
    STATE + Tag(state) + (LUA + Tag(lua))
  }

  // The first state goes on, in the second, with what looks like the start of the Lua file.
  predicate LooksAlike(s1: Option<Bytes>, l1: Option<Bytes>, s2: Option<Bytes>, l2: Option<Bytes>) {
    s1.Some? && s2.Some? && l1.Some? && s1.value + (LUA + PRESENT) <= s2.value
    && l1.value == s2.value[|s1.value| + 12..] + (LUA + Tag(l2))
  }

  lemma TagsDiffer(a: Option<Bytes>, b: Option<Bytes>, x: Bytes, y: Bytes)
    requires Tag(a) + x == Tag(b) + y
    ensures a.Some? == b.Some?
  {
    assert (Tag(a) + x)[1] == Tag(a)[1] && (Tag(b) + y)[1] == Tag(b)[1];
  }

  lemma TagIsInjective(a: Option<Bytes>, b: Option<Bytes>)
    requires Tag(a) == Tag(b)
    ensures a == b
  {
    assert Tag(a) + "" == Tag(b) + "";
    TagsDiffer(a, b, "", "");
    if a.Some? {
      assert Tag(a)[9..] == a.value && Tag(b)[9..] == b.value;
    }
  }

  lemma CancelPrefix(p: Bytes, x: Bytes, y: Bytes)
    requires p + x == p + y
    ensures x == y
  {
    assert (p + x)[|p|..] == x && (p + y)[|p|..] == y;
  }

  lemma SplitPrefix(p: Bytes, x: Bytes, q: Bytes, y: Bytes)
    requires p + x == q + y && |p| <= |q|
    ensures p <= q && x == q[|p|..] + y
  {
    assert (p + x)[..|p|] == p && (q + y)[..|p|] == q[..|p|];
    assert (p + x)[|p|..] == x && (q + y)[|p|..] == q[|p|..] + y;
  }

  // Where the longer state goes on, the other image already has the Lua file.
  lemma OverlapIsMarker(u: Bytes, l1: Option<Bytes>, l2: Option<Bytes>)
    requires u != "" && LUA + Tag(l1) == u + (LUA + Tag(l2))
    ensures l1.Some? && LUA + PRESENT <= u && l1.value == u[12..] + (LUA + Tag(l2))
  {
    OverlapIsLong(u, LUA + Tag(l1), Tag(l1), Tag(l2));
    assert l1.Some?;
    Associative(LUA, PRESENT, l1.value);
    MarkerHasOneL(u, l1.value, LUA + Tag(l2));
    SplitPrefix(LUA + PRESENT, l1.value, u, LUA + Tag(l2));
  }

  lemma OverlapIsLong(u: Bytes, whole: Bytes, t1: Bytes, t2: Bytes)
    requires u != "" && whole == LUA + t1 == u + (LUA + t2) && |t2| >= 9
    ensures |t1| >= 10
  {
    assert |whole| == 3 + |t1| == |u| + 3 + |t2|;
  }

  // The marker starts with the only l it holds.
  lemma MarkerHasOneL(u: Bytes, x: Bytes, y: Bytes)
    requires u != "" && y != "" && y[0] == 'l' && LUA + PRESENT + x == u + y
    ensures |u| >= 12
  {
    var whole := LUA + PRESENT + x;
    assert forall i :: 1 <= i < 12 ==> whole[i] == (LUA + PRESENT)[i] && whole[i] != 'l';
    assert whole[|u|] == 'l';
  }

  lemma ShorterStateLooksAlike(p1: Bytes, l1: Option<Bytes>, p2: Bytes, l2: Option<Bytes>)
    requires p1 + (LUA + Tag(l1)) == p2 + (LUA + Tag(l2)) && |p1| < |p2|
    ensures LooksAlike(Some(p1), l1, Some(p2), l2)
  {
    SplitPrefix(p1, LUA + Tag(l1), p2, LUA + Tag(l2));
    var u := p2[|p1|..];
    OverlapIsMarker(u, l1, l2);
    assert p2 == p1 + u && u[12..] == p2[|p1| + 12..];
  }

  lemma Regroup(a: Bytes, b: Bytes, c: Bytes, d: Bytes, e: Bytes, f: Bytes)
    ensures a + (b + c) + (d + (b + (e + f))) == a + (b + (c + (d + b) + e)) + f
  {
  }

  lemma AlikeHaveOneImage(s1: Option<Bytes>, l1: Option<Bytes>, s2: Option<Bytes>, l2: Option<Bytes>)
    requires LooksAlike(s1, l1, s2, l2)
    ensures Image(s1, l1) == Image(s2, l2)
  {
    var rest := s2.value[|s1.value| + 12..];
    assert s2.value == s1.value + (LUA + PRESENT) + rest;
    Regroup(STATE, PRESENT, s1.value, LUA, rest, LUA + Tag(l2));
  }

  lemma ImageOfStates(s1: Option<Bytes>, l1: Option<Bytes>, s2: Option<Bytes>, l2: Option<Bytes>)
    requires Image(s1, l1) == Image(s2, l2)
    ensures s1.Some? == s2.Some?
    ensures s1.None? ==> l1 == l2
    ensures s1.Some? ==> s1.value + (LUA + Tag(l1)) == s2.value + (LUA + Tag(l2))
  {
    var x, y := LUA + Tag(l1), LUA + Tag(l2);
    Associative(STATE, Tag(s1), x);
    Associative(STATE, Tag(s2), y);
    CancelPrefix(STATE, Tag(s1) + x, Tag(s2) + y);
    TagsDiffer(s1, s2, x, y);
    if s1.None? {
      CancelPrefix(MISSING, x, y);
      CancelPrefix(LUA, Tag(l1), Tag(l2));
      TagIsInjective(l1, l2);
    } else {
      Associative(PRESENT, s1.value, x);
      Associative(PRESENT, s2.value, y);
      CancelPrefix(PRESENT, s1.value + x, s2.value + y);
    }
  }

  lemma ImageHidesOnlyAlikes(s1: Option<Bytes>, l1: Option<Bytes>, s2: Option<Bytes>, l2: Option<Bytes>)
    requires Image(s1, l1) == Image(s2, l2)
    ensures (s1 == s2 && l1 == l2) || LooksAlike(s1, l1, s2, l2) || LooksAlike(s2, l2, s1, l1)
  {
    ImageOfStates(s1, l1, s2, l2);
    if s1.Some? {
      if |s1.value| < |s2.value| {
        ShorterStateLooksAlike(s1.value, l1, s2.value, l2);
      } else if |s2.value| < |s1.value| {
        ShorterStateLooksAlike(s2.value, l2, s1.value, l1);
      } else {
        SameStateSameLua(s1.value, l1, s2.value, l2);
      }
    }
  }

  lemma SameStateSameLua(p1: Bytes, l1: Option<Bytes>, p2: Bytes, l2: Option<Bytes>)
    requires p1 + (LUA + Tag(l1)) == p2 + (LUA + Tag(l2)) && |p1| == |p2|
    ensures p1 == p2 && l1 == l2
  {
    SplitPrefix(p1, LUA + Tag(l1), p2, LUA + Tag(l2));
    assert p2[|p1|..] == "" && p2[..|p1|] == p2;
    assert LUA + Tag(l1) == LUA + Tag(l2);
    CancelPrefix(LUA, Tag(l1), Tag(l2));
    TagIsInjective(l1, l2);
  }

  // Two different pairs of files have one digest exactly when one state goes on with what looks like
  // the start of the Lua file of the other.
  lemma DigestsAgree(s1: Option<Bytes>, l1: Option<Bytes>, s2: Option<Bytes>, l2: Option<Bytes>)
    ensures Image(s1, l1) == Image(s2, l2)
            <==> (s1 == s2 && l1 == l2) || LooksAlike(s1, l1, s2, l2) || LooksAlike(s2, l2, s1, l1)
  {
    if Image(s1, l1) == Image(s2, l2) { ImageHidesOnlyAlikes(s1, l1, s2, l2); }
    if LooksAlike(s1, l1, s2, l2) { AlikeHaveOneImage(s1, l1, s2, l2); }
    if LooksAlike(s2, l2, s1, l1) { AlikeHaveOneImage(s2, l2, s1, l1); }
  }

  // Files without NUL in the state, which JSON text never contains, are told apart.
  lemma DigestIsInjectiveOnText(s1: Option<Bytes>, l1: Option<Bytes>, s2: Option<Bytes>, l2: Option<Bytes>)
    requires s1.Some? ==> '\0' !in s1.value
    requires s2.Some? ==> '\0' !in s2.value
    requires Image(s1, l1) == Image(s2, l2)
    ensures s1 == s2 && l1 == l2
  {
    DigestsAgree(s1, l1, s2, l2);
    if LooksAlike(s1, l1, s2, l2) { AlikeHasNul(s1, l1, s2, l2); }
    if LooksAlike(s2, l2, s1, l1) { AlikeHasNul(s2, l2, s1, l1); }
  }

  lemma AlikeHasNul(s1: Option<Bytes>, l1: Option<Bytes>, s2: Option<Bytes>, l2: Option<Bytes>)
    requires LooksAlike(s1, l1, s2, l2)
    ensures '\0' in s2.value
  {
    assert s2.value[|s1.value| + 3] == (s1.value + (LUA + PRESENT))[|s1.value| + 3] == '\0';
  }

  lemma SomeFilesAreConfused()
    ensures Image(Some(""), Some("lua" + MISSING)) == Image(Some("lua" + PRESENT), None)
  {
    assert ("lua" + PRESENT)[12..] == "";
    assert LooksAlike(Some(""), Some("lua" + MISSING), Some("lua" + PRESENT), None);
    AlikeHaveOneImage(Some(""), Some("lua" + MISSING), Some("lua" + PRESENT), None);
  }

  // ----- the transaction ----------------------------------------------------------------------

  lemma ReadingMeans(c: Codec, baseline: Registry, r: Registry, doc: Json, payload: Bytes)
    requires c.parse(payload) == Parsed(doc) && Decode(c.format, doc, baseline) == Ok(r)
    requires StateBytes(c, r) == Some(payload)
    ensures Meaning(c, baseline, Some(payload), Some(c.lua(r))) == Ok(r)
  {
    hide Decode, Serialize;
  }

  // What was serialised reads back as the registry.
  lemma SerialisedReadsBack(c: Codec, baseline: Registry, r: Registry)
    requires CodecOk(c) && SameActions(baseline, r)
    requires IsRegistry(c.format.spell, baseline) && IsRegistry(c.format.spell, r)
    requires StateBytes(c, r).Some?
    ensures Meaning(c, baseline, StateBytes(c, r), Some(c.lua(r))) == Ok(r)
  {
    hide Decode, Serialize, SameActions, IsStable, Meaning;
    var doc := Serialize(c.format, r).value;
    assert IsReadBack(c, r);
    DocumentRoundTrip(c.format, r, baseline);
    ReadingMeans(c, baseline, r, doc, StateBytes(c, r).value);
  }

  // How often the file system will misbehave.
  function Faults(script: seq<Outcome>): nat {
    if script == [] then 0 else (if script[0] == Fine then 0 else 1) + Faults(script[1..])
  }

  // Why an update is turned down before anything is written: also because it cannot be written at all.
  function Rejection(c: Codec, meaning: Result<Registry, Category>, digest: Digest, changes: Changes,
                     expected: Digest): Option<Category> {
    if meaning.Err? then Some(meaning.error)
    else if expected != digest then Some(Conflict)
    else if changes.Keys == {} || Update(c.format.spell, meaning.value, changes).None? then Some(Validation)
    else if StateBytes(c, Update(c.format.spell, meaning.value, changes).value).None? then Some(Uncaught)
    else None
  }

  class BindingPersistenceService {
    const codec: Codec
    const baseline: Registry
    var state: Option<Bytes>
    var lua: Option<Bytes>
    var script: seq<Outcome>  // what the file system will do, call by call; then all goes well

    constructor (codec: Codec, baseline: Registry, state: Option<Bytes>, lua: Option<Bytes>, script: seq<Outcome>)
      ensures this.codec == codec && this.baseline == baseline && this.script == script
      ensures this.state == state && this.lua == lua
    {
      this.codec, this.baseline, this.state, this.lua, this.script := codec, baseline, state, lua, script;
    }

    method Next() returns (o: Outcome)
      modifies this`script
      ensures Faults(script) + (if o == Fine then 0 else 1) == Faults(old(script))
    {
      o := Fine;
      if script != [] {
        o := script[0];
        script := script[1..];
      }
    }

    // Replaces one file, or removes it.
    method PutState(content: Option<Bytes>) returns (raised: bool)
      modifies this`state, this`script
      ensures Faults(script) <= Faults(old(script))
        && (raised || state != content ==> Faults(script) < Faults(old(script)))
    {
      var o := Next();
      match o {
        case Fine => state := content;
        case Raises =>
        case Leaves(left, _) => state := left;
      }
      raised := o.Raises? || (o.Leaves? && o.raises);
    }

    method PutLua(content: Option<Bytes>) returns (raised: bool)
      modifies this`lua, this`script
      ensures Faults(script) <= Faults(old(script))
        && (raised || lua != content ==> Faults(script) < Faults(old(script)))
    {
      var o := Next();
      match o {
        case Fine => lua := content;
        case Raises =>
        case Leaves(left, _) => lua := left;
      }
      raised := o.Raises? || (o.Leaves? && o.raises);
    }

    // Reads both files; a file that is missing is not an error.
    method ReadBoth() returns (raised: bool, s: Option<Bytes>, l: Option<Bytes>)
      modifies this`script
      ensures !raised ==> s == state && l == lua
      ensures Faults(script) <= Faults(old(script)) && (raised ==> Faults(script) < Faults(old(script)))
    {
      s, l := None, None;
      var first := Next();
      var second := Next();
      raised := first.Raises? || second.Raises?;
      if !raised {
        s, l := state, lua;
      }
    }

    method Snapshot() returns (r: Result<Registry, Category>, s: Option<Bytes>, l: Option<Bytes>)
      modifies this`script
      ensures r.Ok? ==> s == state && l == lua
      ensures Faults(script) <= Faults(old(script))
      ensures r == Meaning(codec, baseline, state, lua) || (r == Err(Uncaught) && Faults(script) < Faults(old(script)))
    {
      var raised;
      raised, s, l := ReadBoth();
      r := if raised then Err(Uncaught) else Meaning(codec, baseline, s, l);
    }

    // Both files, read back; true only if they hold exactly what was written.
    method WriteBoth(s: Bytes, l: Bytes) returns (ok: bool)
      modifies this`state, this`lua, this`script
      ensures ok ==> state == Some(s) && lua == Some(l)
      ensures Faults(script) <= Faults(old(script)) && (!ok ==> Faults(script) < Faults(old(script)))
    {
      var raised := PutState(Some(s));
      if !raised {
        raised := PutLua(Some(l));
      }
      if raised {
        return false;
      }
      var seenState, seenLua;
      raised, seenState, seenLua := ReadBoth();
      ok := !raised && seenState == Some(s) && seenLua == Some(l);
    }

    // The Lua file first, then the state, read back.
    method RestoreBoth(s: Option<Bytes>, l: Option<Bytes>) returns (ok: bool)
      modifies this`state, this`lua, this`script
      ensures ok ==> state == s && lua == l
      ensures Faults(script) <= Faults(old(script)) && (!ok ==> Faults(script) < Faults(old(script)))
    {
      var raised := PutLua(l);
      if !raised {
        raised := PutState(s);
      }
      if raised {
        return false;
      }
      var seenState, seenLua;
      raised, seenState, seenLua := ReadBoth();
      ok := !raised && seenState == s && seenLua == l;
    }

    function ExpectedDigest(): Digest
      reads this
    {
      codec.fileHash(Image(state, lua))
    }

    // All or nothing: both files new and read back as the update, or both as they were, or a failed
    // rollback is reported.  Without a fault every acceptable update succeeds; a single fault never costs
    // more than the update.
    method Apply(changes: Changes, expected: Digest) returns (r: Result<Applied, Category>)
      requires CodecOk(codec) && IsRegistry(codec.format.spell, baseline)
      modifies this`state, this`lua, this`script
      ensures r.Ok? ==>
        && expected == old(ExpectedDigest())
        && Meaning(codec, baseline, old(state), old(lua)).Ok?
        && Update(codec.format.spell, Meaning(codec, baseline, old(state), old(lua)).value, changes).Some?
        && var candidate := Update(codec.format.spell, Meaning(codec, baseline, old(state), old(lua)).value,
                                   changes).value;
           && state == StateBytes(codec, candidate) && lua == Some(codec.lua(candidate))
           && Meaning(codec, baseline, state, lua) == Ok(candidate)
           && r.value == Applied(ExpectedDigest(), changes.Keys)
      ensures r.Err? && r.error != RollbackFailed ==> state == old(state) && lua == old(lua)
      ensures state != old(state) || lua != old(lua) ==> expected == old(ExpectedDigest())
      ensures var rejection := Rejection(codec, Meaning(codec, baseline, old(state), old(lua)), old(ExpectedDigest()),
                                         changes, expected);
              match r
              case Ok(_) => rejection == None
              case Err(WriteFailedRolledBack) => rejection == None && Faults(old(script)) >= 1
              case Err(RollbackFailed) => rejection == None && Faults(old(script)) >= 2
              case Err(e) => rejection == Some(e) || (e == Uncaught && Faults(old(script)) >= 1)
    {
      var before, s, l := Snapshot();
      if before.Err? {
        return Err(before.error);
      }
      if expected != codec.fileHash(Image(s, l)) {
        return Err(Conflict);
      }
      if changes.Keys == {} {
        return Err(Validation);
      }
      var candidate := Update(codec.format.spell, before.value, changes);
      if candidate.None? {
        return Err(Validation);
      }
      var newState := StateBytes(codec, candidate.value);
      if newState.None? {
        return Err(Uncaught);
      }
      CandidateReadsBack(before.value, s, l, changes);
      r := Replace(newState.value, codec.lua(candidate.value), s, l, changes.Keys);
    }

    // Writes both files, or puts both back.
    method Replace(newState: Bytes, newLua: Bytes, s: Option<Bytes>, l: Option<Bytes>, changed: set<string>)
      returns (r: Result<Applied, Category>)
      modifies this`state, this`lua, this`script
      ensures match r
              case Ok(applied) =>
                state == Some(newState) && lua == Some(newLua)
                  && applied == Applied(codec.fileHash(Image(state, lua)), changed)
              case Err(WriteFailedRolledBack) => state == s && lua == l && Faults(old(script)) >= 1
              case Err(RollbackFailed) => Faults(old(script)) >= 2
              case Err(_) => false
    {
      var written := WriteBoth(newState, newLua);
      if written {
        return Ok(Applied(codec.fileHash(Image(Some(newState), Some(newLua))), changed));
      }
      var restored := RestoreBoth(s, l);
      r := Err(if restored then WriteFailedRolledBack else RollbackFailed);
    }

    lemma CandidateReadsBack(before: Registry, s: Option<Bytes>, l: Option<Bytes>, changes: Changes)
      requires CodecOk(codec) && IsRegistry(codec.format.spell, baseline)
      requires Meaning(codec, baseline, s, l) == Ok(before) && Update(codec.format.spell, before, changes).Some?
      ensures var r := Update(codec.format.spell, before, changes).value;
              StateBytes(codec, r).Some? ==>
                Meaning(codec, baseline, StateBytes(codec, r), Some(codec.lua(r))) == Ok(r)
    {
      hide Decode, Serialize, Update, IsStable, IsRegistry;
      if s.Some? {
        DecodedIsRegistry(codec.format, codec.parse(s.value).doc, baseline);
      }
      UpdateKeepsRegistry(codec.format.spell, before, changes);
      var r := Update(codec.format.spell, before, changes).value;
      if StateBytes(codec, r).Some? { SerialisedReadsBack(codec, baseline, r); }
    }
  }
}
