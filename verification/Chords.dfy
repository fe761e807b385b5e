/** Key chords in their canonical spelling: modifiers in a fixed order, then one key. */
module Chords {
  import opened Sequences
  import opened Wrappers

  datatype Modifier = SUPER | CTRL | ALT | SHIFT
  datatype ChordError = EmptyChord | NoKey | TwoKeys

  // How text is upper-cased; full Unicode case mapping is a parameter.
  type Casing = string -> string

  // What str.strip removes.
  predicate IsSpace(c: char) {
    || '\t' <= c <= '\r' || '\U{1c}' <= c <= ' ' || c == '\U{85}' || c == '\U{a0}' || c == '\U{1680}'
    || '\U{2000}' <= c <= '\U{200a}' || c == '\U{2028}' || c == '\U{2029}' || c == '\U{202f}' || c == '\U{205f}'
    || c == '\U{3000}'
  }

  function Strip(s: string): string {
    if s == "" then s
    else if IsSpace(s[0]) then Strip(s[1..])
    else if IsSpace(s[|s| - 1]) then Strip(s[..|s| - 1])
    else s
  }

  function Split(s: string): (parts: seq<string>)
    ensures parts != []
  {
    if s == "" then [""]
    else
      var rest := Split(s[1..]);
      if s[0] == '+' then [""] + rest else [[s[0]] + rest[0]] + rest[1..]
  }

  function StripAll(parts: seq<string>): seq<string> {
    if parts == [] then []
    else
      var part := Strip(parts[0]);
      (if part == "" then [] else [part]) + StripAll(parts[1..])
  }

  function Parts(s: string): seq<string> {
    StripAll(Split(s))
  }

  // The modifier a word stands for, if any.
  function ModifierOf(upper: string): Option<Modifier> {
    if upper == "CONTROL" || upper == "CTRL" then Some(CTRL)
    else if upper == "SUPER" || upper == "META" then Some(SUPER)
    else if upper == "ALT" then Some(ALT)
    else if upper == "SHIFT" then Some(SHIFT)
    else None
  }

  function Meaning(upper: Casing): string -> Option<Modifier> {
    (word: string) => ModifierOf(upper(word))
  }

  function KeyName(upper: Casing, raw: string): string {
    if "code:" <= raw || "mouse:" <= raw then raw else upper(raw)
  }

  // The modifiers among the parts, and the other parts, given what each word stands for.
  function Modifiers(meaning: string -> Option<Modifier>, parts: seq<string>): set<Modifier> {
    if parts == [] then {}
    else (if meaning(parts[0]).Some? then {meaning(parts[0]).value} else {}) + Modifiers(meaning, parts[1..])
  }

  function Keys(meaning: string -> Option<Modifier>, parts: seq<string>): seq<string> {
    if parts == [] then []
    else (if meaning(parts[0]).Some? then [] else [parts[0]]) + Keys(meaning, parts[1..])
  }

  function Name(m: Modifier): string {
    match m
    case SUPER => "SUPER"
    case CTRL => "CTRL"
    case ALT => "ALT"
    case SHIFT => "SHIFT"
  }

  // The names of those modifiers, in the given order.
  function Ordered(order: seq<Modifier>, modifiers: set<Modifier>): seq<string> {
    if order == [] then []
    else (if order[0] in modifiers then [Name(order[0])] else []) + Ordered(order[1..], modifiers)
  }

  function Names(modifiers: set<Modifier>): seq<string> {
    Ordered([SUPER, CTRL, ALT, SHIFT], modifiers)
  }

  function Join(words: seq<string>): string
    requires words != []
  {
    if |words| == 1 then words[0] else words[0] + " + " + Join(words[1..])
  }

  function Normalize(upper: Casing, s: string): Result<string, ChordError> {
    var parts, meaning := Parts(s), Meaning(upper);
    if parts == [] then Err(EmptyChord)
    else if Keys(meaning, parts) == [] then Err(NoKey)
    else if |Keys(meaning, parts)| > 1 then Err(TwoKeys)
    else Ok(Join(Names(Modifiers(meaning, parts)) + [KeyName(upper, Keys(meaning, parts)[0])]))
  }

  lemma {:induction false} SnocModifiers(meaning: string -> Option<Modifier>, parts: seq<string>, part: string)
    ensures Modifiers(meaning, parts + [part]) == Modifiers(meaning, parts)
      + (if meaning(part).Some? then {meaning(part).value} else {})
    ensures Keys(meaning, parts + [part]) == Keys(meaning, parts) + (if meaning(part).Some? then [] else [part])
  {
    if parts == [] {
      assert [part][1..] == [];
    } else {
      SnocModifiers(meaning, parts[1..], part);
      assert (parts + [part])[1..] == parts[1..] + [part];
    }
  }

  // The loop over the parts: modifiers are collected, a second key ends it.
  method Collect(meaning: string -> Option<Modifier>, parts: seq<string>)
    returns (twoKeys: bool, modifiers: set<Modifier>, key: Option<string>)
    ensures twoKeys <==> |Keys(meaning, parts)| > 1
    ensures !twoKeys ==>
      modifiers == Modifiers(meaning, parts) && Keys(meaning, parts) == if key.Some? then [key.value] else []
  {
    twoKeys, modifiers, key := false, {}, None;
    for i := 0 to |parts|
      invariant !twoKeys && modifiers == Modifiers(meaning, parts[..i])
      invariant Keys(meaning, parts[..i]) == if key.Some? then [key.value] else []
    {
      SnocModifiers(meaning, parts[..i], parts[i]);
      assert parts[..i + 1] == parts[..i] + [parts[i]];
      var modifier := meaning(parts[i]);
      if modifier.Some? {
        modifiers := modifiers + {modifier.value};
      } else if key.Some? {
        KeysOfPrefix(meaning, parts, i + 1);
        return true, {}, None;
      } else {
        key := Some(parts[i]);
      }
    }
    assert parts[..|parts|] == parts;
  }

  method NormalizeChord(upper: Casing, value: string) returns (r: Result<string, ChordError>)
    ensures r == Normalize(upper, value)
  {
    var parts := Parts(value);
    if parts == [] {
      return Err(EmptyChord);
    }
    var twoKeys, modifiers, key := Collect(Meaning(upper), parts);
    if twoKeys {
      return Err(TwoKeys);
    }
    if key.None? {
      return Err(NoKey);
    }
    r := Ok(Join(Names(modifiers) + [KeyName(upper, key.value)]));
  }

  lemma {:induction false} KeysOfPrefix(meaning: string -> Option<Modifier>, parts: seq<string>, i: nat)
    requires i <= |parts|
    ensures |Keys(meaning, parts[..i])| <= |Keys(meaning, parts)|
  {
    if i > 0 {
      KeysOfPrefix(meaning, parts[1..], i - 1);
      assert parts[..i][1..] == parts[1..][..i - 1];
    }
  }

  // ----- splitting what was joined ------------------------------------------------------------

  // A word that splitting and stripping leaves alone.
  predicate IsWord(x: string) {
    x != "" && '+' !in x && !IsSpace(x[0]) && !IsSpace(x[|x| - 1])
  }

  ghost predicate AllWords(xs: seq<string>) {
    forall x :: x in xs ==> IsWord(x)
  }

  lemma {:induction false} StripIsWord(s: string)
    requires '+' !in s && Strip(s) != ""
    ensures IsWord(Strip(s))
    decreases |s|
  {
    if s != "" {
      if IsSpace(s[0]) {
        StripIsWord(s[1..]);
      } else if IsSpace(s[|s| - 1]) {
        StripIsWord(s[..|s| - 1]);
      }
    }
  }

  lemma {:induction false} SplitHasNoPlus(s: string)
    ensures forall x :: x in Split(s) ==> '+' !in x
  {
    if s != "" { SplitHasNoPlus(s[1..]); }
  }

  lemma {:induction false} StrippedAreWords(xs: seq<string>)
    requires forall x :: x in xs ==> '+' !in x
    ensures AllWords(StripAll(xs))
  {
    if xs != [] {
      StrippedAreWords(xs[1..]);
      if Strip(xs[0]) != "" { StripIsWord(xs[0]); }
    }
  }

  lemma {:induction false} SplitAtPlus(a: string, b: string)
    requires '+' !in a
    ensures Split(a + "+" + b) == [a] + Split(b)
    ensures Split(a) == [a]
  {
    if a == "" {
      assert a + "+" + b == "+" + b && ("+" + b)[1..] == b;
    } else {
      SplitAtPlus(a[1..], b);
      assert (a + "+" + b)[1..] == a[1..] + "+" + b;
      assert a[0] in a && [a[0]] + a[1..] == a;
    }
  }

  lemma StripSpaces(x: string)
    requires IsWord(x)
    ensures Strip(x) == x && Strip(x + " ") == x && Strip(" " + x) == x && Strip(" " + x + " ") == x
  {
    assert (x + " ")[..|x|] == x;
    assert (" " + x)[1..] == x;
    assert (" " + x + " ")[1..] == x + " ";
  }

  // Joining words and taking the parts again gives the words, also after a leading space.
  lemma {:induction false} PartsOfJoin(words: seq<string>)
    requires words != [] && AllWords(words)
    ensures Parts(Join(words)) == words && Parts(" " + Join(words)) == words
  {
    StripSpaces(words[0]);
    if |words| == 1 {
      assert words == [words[0]];
      PartsOfWord(words[0], words[0]);
      PartsOfWord(" " + words[0], words[0]);
    } else {
      PartsOfJoin(words[1..]);
      PartsOfTwo(words[0], words[0], Join(words[1..]), words[1..]);
      PartsOfTwo(" " + words[0], words[0], Join(words[1..]), words[1..]);
      assert " " + Join(words) == " " + words[0] + " + " + Join(words[1..]);
      assert words == [words[0]] + words[1..];
    }
  }

  lemma PartsOfWord(s: string, x: string)
    requires '+' !in s && Strip(s) == x != ""
    ensures Parts(s) == [x]
  {
    SplitAtPlus(s, "");
    StripOne(s, x);
  }

  lemma PartsOfTwo(s: string, x: string, rest: string, others: seq<string>)
    requires '+' !in s && Strip(s + " ") == x != "" && Parts(" " + rest) == others
    ensures Parts(s + " + " + rest) == [x] + others
  {
    assert s + " + " + rest == (s + " ") + "+" + (" " + rest);
    SplitAtPlus(s + " ", " " + rest);
    StripFirst(s + " ", Split(" " + rest), x);
  }

  lemma StripFirst(first: string, rest: seq<string>, x: string)
    requires Strip(first) == x != ""
    ensures StripAll([first] + rest) == [x] + StripAll(rest)
  {
    assert ([first] + rest)[1..] == rest;
  }

  lemma StripOne(first: string, x: string)
    requires Strip(first) == x != ""
    ensures StripAll([first]) == [x]
  {
    assert [first] == [first] + [];
    StripFirst(first, [], x);
  }

  // ----- the canonical spelling -----------------------------------------------------------------

  lemma {:induction false} ModifiersOfConcat(meaning: string -> Option<Modifier>, a: seq<string>, b: seq<string>)
    ensures Modifiers(meaning, a + b) == Modifiers(meaning, a) + Modifiers(meaning, b)
  {
    if a == [] {
      EmptyConcat(b);
    } else {
      ModifiersOfConcat(meaning, a[1..], b);
      TailOfConcat(a, b);
    }
  }

  lemma {:induction false} KeysOfConcat(meaning: string -> Option<Modifier>, a: seq<string>, b: seq<string>)
    ensures Keys(meaning, a + b) == Keys(meaning, a) + Keys(meaning, b)
  {
    if a == [] {
      EmptyConcat(b);
      EmptyConcat(Keys(meaning, b));
    } else {
      KeysOfConcat(meaning, a[1..], b);
      TailOfConcat(a, b);
      Associative(if meaning(a[0]).Some? then [] else [a[0]], Keys(meaning, a[1..]), Keys(meaning, b));
    }
  }

  // ----- what upper-casing has to do -----------------------------------------------------------

  // Twice is once, a word stays a word, and the names of the modifiers are upper case.
  ghost predicate IsCasing(upper: Casing) {
    (forall x :: IsCased(upper, x)) && forall m: Modifier :: upper(Name(m)) == Name(m)
  }

  ghost predicate IsCased(upper: Casing, x: string) {
    upper(upper(x)) == upper(x) && (IsWord(x) ==> IsWord(upper(x)))
  }

  function UpperChar(c: char): char {
    if 'a' <= c <= 'z' then c - 'a' + 'A' else c
  }

  // Upper-casing of the letters a to z does.
  function AsciiUpper(s: string): (u: string)
    ensures |u| == |s|
    ensures forall i :: 0 <= i < |s| ==> u[i] == UpperChar(s[i])
  {
    if s == "" then "" else [UpperChar(s[0])] + AsciiUpper(s[1..])
  }

  lemma AsciiIsCasing()
    ensures IsCasing(AsciiUpper)
  {
    forall x ensures IsCased(AsciiUpper, x) {
      hide AsciiUpper, IsWord;
      AsciiTwice(x);
      if IsWord(x) { AsciiKeepsWord(x); }
    }
    forall m: Modifier ensures AsciiUpper(Name(m)) == Name(m) {
      AsciiName(m);
    }
  }

  lemma AsciiTwice(x: string)
    ensures AsciiUpper(AsciiUpper(x)) == AsciiUpper(x)
  {
    hide AsciiUpper;
  }

  lemma AsciiName(m: Modifier)
    ensures AsciiUpper(Name(m)) == Name(m)
  {
    hide AsciiUpper;
  }

  lemma AsciiKeepsWord(raw: string)
    requires IsWord(raw)
    ensures IsWord(AsciiUpper(raw))
  {
    hide AsciiUpper, IsSpace;
    var u := AsciiUpper(raw);
    forall i | 0 <= i < |u| ensures u[i] != '+' {
      assert raw[i] in raw;
    }
    UpperCharIsNoSpace(raw[0]);
    UpperCharIsNoSpace(raw[|raw| - 1]);
  }

  lemma UpperCharIsNoSpace(c: char)
    ensures IsSpace(UpperChar(c)) ==> IsSpace(c)
  {
  }

  lemma NamesMean(upper: Casing)
    requires IsCasing(upper)
    ensures forall m: Modifier :: Meaning(upper)(Name(m)) == Some(m)
  {
    forall m: Modifier ensures Meaning(upper)(Name(m)) == Some(m) {
      assert upper(Name(m)) == Name(m);
    }
  }

  lemma {:induction false} OrderedMean(meaning: string -> Option<Modifier>, order: seq<Modifier>,
                                       modifiers: set<Modifier>)
    requires forall m: Modifier :: meaning(Name(m)) == Some(m)
    ensures Modifiers(meaning, Ordered(order, modifiers)) == set m | m in order && m in modifiers
    ensures Keys(meaning, Ordered(order, modifiers)) == []
  {
    if order != [] {
      var m := order[0];
      OrderedMean(meaning, order[1..], modifiers);
      var head, rest := if m in modifiers then [Name(m)] else [], Ordered(order[1..], modifiers);
      ModifiersOfConcat(meaning, head, rest);
      KeysOfConcat(meaning, head, rest);
      OneName(meaning, m);
      assert order == [m] + order[1..];
    }
  }

  lemma OneName(meaning: string -> Option<Modifier>, m: Modifier)
    requires meaning(Name(m)) == Some(m)
    ensures Modifiers(meaning, [Name(m)]) == {m} && Keys(meaning, [Name(m)]) == []
  {
    assert [Name(m)][1..] == [];
  }

  lemma {:induction false} OrderedAreWords(order: seq<Modifier>, modifiers: set<Modifier>)
    ensures AllWords(Ordered(order, modifiers))
  {
    if order != [] {
      OrderedAreWords(order[1..], modifiers);
      assert IsWord(Name(order[0]));
    }
  }

  lemma NamesAreModifiers(meaning: string -> Option<Modifier>, modifiers: set<Modifier>)
    requires forall m: Modifier :: meaning(Name(m)) == Some(m)
    ensures AllWords(Names(modifiers))
    ensures Modifiers(meaning, Names(modifiers)) == modifiers && Keys(meaning, Names(modifiers)) == []
  {
    var order := [SUPER, CTRL, ALT, SHIFT];
    OrderedAreWords(order, modifiers);
    OrderedMean(meaning, order, modifiers);
    forall m: Modifier ensures m in order {
      match m
      case SUPER => assert order[0] == m;
      case CTRL => assert order[1] == m;
      case ALT => assert order[2] == m;
      case SHIFT => assert order[3] == m;
    }
  }

  lemma KeyNameIsKey(upper: Casing, raw: string)
    requires IsCasing(upper) && IsWord(raw) && Meaning(upper)(raw).None?
    ensures var key := KeyName(upper, raw); IsWord(key) && Meaning(upper)(key).None? && KeyName(upper, key) == key
  {
    assert IsCased(upper, raw);
  }

  lemma ModifiersAround(meaning: string -> Option<Modifier>, before: seq<string>, key: string, after: seq<string>)
    requires meaning(key).None? && Keys(meaning, before) == [] && Keys(meaning, after) == []
    ensures Keys(meaning, before + [key] + after) == [key]
    ensures Modifiers(meaning, before + [key] + after) == Modifiers(meaning, before) + Modifiers(meaning, after)
  {
    ModifiersOfConcat(meaning, before + [key], after);
    ModifiersOfConcat(meaning, before, [key]);
    KeysOfConcat(meaning, before + [key], after);
    KeysOfConcat(meaning, before, [key]);
    assert [key][1..] == [];
  }

  // Modifiers may stand anywhere, in any order, any number of times and in any of their spellings.
  lemma ModifiersMayStandAnywhere(upper: Casing, before: seq<string>, key: string, after: seq<string>)
    requires AllWords(before + [key] + after) && Meaning(upper)(key).None?
    requires Keys(Meaning(upper), before) == [] && Keys(Meaning(upper), after) == []
    ensures Normalize(upper, Join(before + [key] + after)) ==
            Ok(Join(Names(Modifiers(Meaning(upper), before) + Modifiers(Meaning(upper), after))
                    + [KeyName(upper, key)]))
  {
    PartsOfJoin(before + [key] + after);
    ModifiersAround(Meaning(upper), before, key, after);
  }

  // Normalizing twice is normalizing once.
  lemma NormalizeIsIdempotent(upper: Casing, s: string)
    requires IsCasing(upper) && Normalize(upper, s).Ok?
    ensures Normalize(upper, Normalize(upper, s).value) == Normalize(upper, s)
  {
    hide IsSpace, Strip, Split, StripAll, Join, Ordered;
    var parts, meaning := Parts(s), Meaning(upper);
    SplitHasNoPlus(s);
    StrippedAreWords(Split(s));
    var raw := Keys(meaning, parts)[0];
    KeyIsPart(meaning, parts);
    KeyNameIsKey(upper, raw);
    NamesMean(upper);
    var names := Names(Modifiers(meaning, parts));
    NamesAreModifiers(meaning, Modifiers(meaning, parts));
    ModifiersMayStandAnywhere(upper, names, KeyName(upper, raw), []);
    assert names + [KeyName(upper, raw)] + [] == names + [KeyName(upper, raw)];
    assert Modifiers(meaning, names) + Modifiers(meaning, []) == Modifiers(meaning, parts);
  }

  lemma {:induction false} KeyIsPart(meaning: string -> Option<Modifier>, parts: seq<string>)
    requires Keys(meaning, parts) != []
    ensures Keys(meaning, parts)[0] in parts && meaning(Keys(meaning, parts)[0]).None?
  {
    if meaning(parts[0]).Some? { KeyIsPart(meaning, parts[1..]); }
  }
}
