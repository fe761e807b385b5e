/**
  Changing single values of a TOML file in place.  Only the line of the key is rewritten; its
  indentation and its comment stay.
*/
module TomlPatch {
  import opened Wrappers
  import opened Chords
  import opened KeyPlaces
  import opened TomlLines

  datatype Setting = Setting(section: string, key: string, value: Value)

  // ----- reading a line ---------------------------------------------------------------------------

  function SkipSpaces(s: string): (r: string)
    ensures |r| <= |s| && s[|s| - |r|..] == r
    ensures r != "" ==> !IsSpace(r[0])
    ensures forall c :: c in s[..|s| - |r|] ==> IsSpace(c)
  {
    if s == "" || !IsSpace(s[0]) then s else SkipSpaces(s[1..])
  }

  function Indent(line: string): string {
    line[..|line| - |SkipSpaces(line)|]
  }

  function WithoutNewline(s: string): string {
    if s != "" && s[|s| - 1] == '\n' then WithoutNewline(s[..|s| - 1]) else s
  }

  function IndexOf(s: string, c: char): Option<nat> {
    if s == "" then None
    else if s[0] == c then Some(0)
    else
      match IndexOf(s[1..], c)
      case None => None
      case Some(k) => Some(k + 1)
  }

  // The name in a table header, if the line is one.
  function HeaderOf(line: string): Option<string> {
    var s := SkipSpaces(WithoutNewline(line));
    if s == "" || s[0] != '[' then None
    else
      match IndexOf(s[1..], ']')
      case None => None
      case Some(k) =>
        if k == 0 || k >= |s| - 1 then None
        else
          var after := SkipSpaces(s[k + 2..]);
          if after == "" || after[0] == '#' then Some(s[1..k + 1]) else None
  }

  predicate StartsWithEquals(s: string) {
    var after := SkipSpaces(s);
    after != "" && after[0] == '='
  }

  predicate MatchesKey(line: string, key: string) {
    var s := SkipSpaces(line);
    key <= s && StartsWithEquals(s[|key|..])
  }

  // The keys of settings: no spaces, quotes, or characters with a meaning of their own.
  predicate IsPlainKey(key: string) {
    key != "" && forall c | c in key :: !IsSpace(c) && c != '=' && c != '#' && c != '\'' && c != '"' && c != '['
  }

  // ----- rewriting a line -------------------------------------------------------------------------

  predicate EndsLine(s: string) {
    s != "" && s[|s| - 1] == '\n'
  }

  function Comment(line: string): string {
    var c := CommentFrom(Outside, line);
    if c == "" then "" else " " + WithoutNewline(c)
  }

  // What stays after the value.
  function Tail(line: string): string {
    Comment(line) + (if EndsLine(line) then "\n" else "")
  }

  function Head(line: string, key: string): string {
    Indent(line) + (key + " = ")
  }

  function Rewritten(line: string, key: string, v: Value): string {
    Head(line, key) + (Literal(v) + Tail(line))
  }

  // The loop over the characters, with its flags for quotes and escapes.
  method ScanComment(line: string) returns (comment: string)
    ensures comment == Comment(line)
  {
    var quote := None;
    var escaped := false;
    comment := "";
    for i := 0 to |line|
      invariant escaped ==> quote == Some('"')
      invariant CommentFrom(Outside, line) ==
                CommentFrom(if escaped then Escaping
                            else if quote.Some? then Inside(quote.value) else Outside, line[i..])
    {
      var c := line[i];
      assert line[i..][0] == c && line[i..][1..] == line[i + 1..];
      if escaped {
        escaped := false;
      } else if c == '\\' && quote == Some('"') {
        escaped := true;
      } else if quote.Some? {
        if c == quote.value {
          quote := None;
        }
      } else if c == '\'' || c == '"' {
        quote := Some(c);
      } else if c == '#' {
        comment := " " + WithoutNewline(line[i..]);
        return;
      }
    }
  }

  // ----- changing settings --------------------------------------------------------------------------

  function Matcher(key: string): string -> bool {
    line => MatchesKey(line, key)
  }

  function Rewriter(key: string, v: Value): string -> string {
    line => Rewritten(line, key, v)
  }

  function EditOf(c: Setting): Edit {
    Edit(HeaderOf, Matcher(c.key), c.section, Rewriter(c.key, c.value))
  }

  function EditsOf(settings: seq<Setting>): (edits: seq<Edit>)
    ensures |edits| == |settings|
  {
    if settings == [] then [] else EditsOf(settings[..|settings| - 1]) + [EditOf(settings[|settings| - 1])]
  }

  // The line of one key is replaced, if the key can be told.
  method ChangeLine(lines: seq<string>, c: Setting) returns (r: Option<seq<string>>)
    ensures r == Patch(lines, EditOf(c))
  {
    var e := EditOf(c);
    var place := FindKey(Map(e.header, lines), Map(e.hits, lines), c.section);
    if place.None? {
      assert forall start: nat, i: nat :: !IsAt(lines, e, start, i);
      return None;
    }
    var (start, i) := place.value;
    PatchesAt(lines, e, start, i);
    var comment := ScanComment(lines[i]);
    var newline := if EndsLine(lines[i]) then "\n" else "";
    r := Some(lines[i := Head(lines[i], c.key) + (Literal(c.value) + (comment + newline))]);
  }

  // All changes on the lines of the text; the result must still parse.
  method RenderPatch(text: string, settings: seq<Setting>, parses: string -> bool) returns (r: Option<string>)
    ensures r == match PatchAll(SplitLines(text), EditsOf(settings))
                 case None => None
                 case Some(lines) => if parses(Concat(lines)) then Some(Concat(lines)) else None
  {
    ghost var edits := EditsOf(settings);
    var lines := SplitLines(text);
    for n := 0 to |settings|
      invariant PatchAll(SplitLines(text), edits[..n]) == Some(lines)
    {
      EditAt(settings, n);
      assert edits[..n + 1][..n] == edits[..n];
      var changed := ChangeLine(lines, settings[n]);
      if changed.None? {
        FailureStays(SplitLines(text), edits, n + 1);
        return None;
      }
      lines := changed.value;
    }
    assert edits[..|settings|] == edits;
    var candidate := Concat(lines);
    r := if parses(candidate) then Some(candidate) else None;
  }

  lemma {:induction false} EditAt(settings: seq<Setting>, n: nat)
    requires n < |settings|
    ensures EditsOf(settings)[n] == EditOf(settings[n])
  {
    if n < |settings| - 1 { EditAt(settings[..|settings| - 1], n); }
  }

  // ----- what rewriting keeps -----------------------------------------------------------------------

  lemma SkipNothing(indent: string, s: string)
    requires (forall c :: c in indent ==> IsSpace(c)) && s != "" && !IsSpace(s[0])
    ensures SkipSpaces(indent + s) == s && Indent(indent + s) == indent
  {
    SkipIndent(indent, s);
    assert (indent + s)[..|indent|] == indent;
  }

  lemma {:induction false} SkipIndent(indent: string, s: string)
    requires (forall c :: c in indent ==> IsSpace(c)) && s != "" && !IsSpace(s[0])
    ensures SkipSpaces(indent + s) == s
  {
    if indent == "" {
      assert indent + s == s;
    } else {
      assert indent[0] in indent && (indent + s)[1..] == indent[1..] + s;
      assert forall c :: c in indent[1..] ==> c in indent;
      SkipIndent(indent[1..], s);
    }
  }

  lemma KeyStartsLine(key: string, rest: string)
    requires IsPlainKey(key)
    ensures (key + rest)[0] == key[0] && key[0] in key && !IsSpace(key[0]) && key[0] != '['
  {
  }

  lemma DropPrefix(a: string, b: string)
    ensures (a + b)[|a|..] == b && a <= a + b
  {
  }

  lemma EqualsAfterSpace(rest: string)
    ensures StartsWithEquals(" = " + rest)
  {
    assert " = " + rest == " " + ("= " + rest);
    SkipIndent(" ", "= " + rest);
  }

  lemma MatchIf(line: string, key: string, rest: string)
    requires SkipSpaces(line) == key + (" = " + rest)
    ensures MatchesKey(line, key)
  {
    DropPrefix(key, " = " + rest);
    EqualsAfterSpace(rest);
  }

  // A line with the key and an equals sign matches that key and is no header.
  lemma KeyLine(line: string, key: string, rest: string)
    requires IsPlainKey(key)
    ensures var x := Head(line, key) + rest;
            MatchesKey(x, key) && Indent(x) == Indent(line) && SkipSpaces(x) == key + (" = " + rest)
  {
    KeyStartsLine(key, " = " + rest);
    SkipNothing(Indent(line), key + (" = " + rest));
    Regroup(Indent(line), key, " = ", rest);
    MatchIf(Head(line, key) + rest, key, rest);
  }

  lemma Regroup(a: string, b: string, c: string, d: string)
    ensures a + (b + c) + d == a + (b + (c + d))
  {
  }

  lemma MatchStartsWithKey(line: string, key: string)
    requires IsPlainKey(key) && MatchesKey(line, key)
    ensures var s := SkipSpaces(line); s != "" && !IsSpace(s[0]) && s[0] != '['
  {
    var s := SkipSpaces(line);
    assert s[0] == key[0] && key[0] in key;
  }

  lemma NoBracketNoHeader(line: string)
    requires var s := SkipSpaces(WithoutNewline(line)); s != "" && s[0] != '['
    ensures HeaderOf(line).None?
  {
  }

  lemma MatchIsNoHeader(line: string, key: string)
    requires IsPlainKey(key) && MatchesKey(line, key)
    ensures HeaderOf(line).None?
  {
    MatchStartsWithKey(line, key);
    NewlineIsLast(line);
    SkipSame(line, WithoutNewline(line));
    NoBracketNoHeader(line);
  }

  // Removing newlines at the end does not change where a line starts.
  lemma {:induction false} NewlineIsLast(s: string)
    ensures var w := WithoutNewline(s); w <= s && forall i :: |w| <= i < |s| ==> s[i] == '\n'
  {
    if EndsLine(s) { NewlineIsLast(s[..|s| - 1]); }
  }

  lemma {:induction false} SkipSame(line: string, w: string)
    requires w <= line && (forall i :: |w| <= i < |line| ==> line[i] == '\n')
    requires SkipSpaces(line) != "" && SkipSpaces(line)[0] != '\n'
    ensures SkipSpaces(w) != "" && SkipSpaces(w)[0] == SkipSpaces(line)[0]
  {
    if w == "" {
      AllNewlinesAreSkipped(line);
    } else if IsSpace(line[0]) {
      SkipSame(line[1..], w[1..]);
    }
  }

  lemma {:induction false} AllNewlinesAreSkipped(s: string)
    requires forall i :: 0 <= i < |s| ==> s[i] == '\n'
    ensures SkipSpaces(s) == ""
  {
    if s != "" { AllNewlinesAreSkipped(s[1..]); }
  }

  lemma OnlyOneKeyMatches(line: string, key: string, other: string)
    requires IsPlainKey(key) && IsPlainKey(other) && MatchesKey(line, key) && MatchesKey(line, other)
    ensures key == other
  {
    var s := SkipSpaces(line);
    LongerKeyFails(s, key, other);
    LongerKeyFails(s, other, key);
    assert |key| == |other|;
    SamePrefix(s, key, other);
  }

  lemma SamePrefix(s: string, a: string, b: string)
    requires a <= s && b <= s && |a| == |b|
    ensures a == b
  {
  }

  lemma LongerKeyFails(s: string, key: string, other: string)
    requires IsPlainKey(other) && key <= s && other <= s
    ensures |key| < |other| ==> !StartsWithEquals(s[|key|..])
  {
    if |key| < |other| {
      var c := s[|key|];
      assert c == other[|key|] && c in other;
      assert s[|key|..][0] == c;
    }
  }

  lemma LiteralEnd(v: Value)
    ensures Literal(v) != "" && !IsBreak(Literal(v)[|Literal(v)| - 1])
  {
    match v
    case Flag(on) =>
    case Whole(n) =>
      DigitsEnd(if n < 0 then -n else n);
    case Text(s) => QuotedEnd(s);
    case Texts(ts) =>
  }

  lemma QuotedEnd(s: string)
    ensures Quoted(s) != "" && Quoted(s)[|Quoted(s)| - 1] == '"'
  {
    var e := EscapedAll(s);
    assert ("\"" + (e + "\""))[|e| + 1] == '"';
  }

  lemma DigitsEnd(n: nat)
    ensures Digits(n) != "" && !IsBreak(Digits(n)[|Digits(n)| - 1])
  {
    assert Digits(n)[|Digits(n)| - 1] == HEX[n % 10];
    assert forall i :: 0 <= i < 16 ==> !IsBreak(HEX[i]);
  }

  lemma HeadIsClosed(line: string, key: string)
    requires IsPlainKey(key)
    ensures IsClosed(Head(line, key))
  {
    assert forall c :: c in Indent(line) ==> IsSpace(c);
    PlainIsClosed(Head(line, key));
  }

  lemma {:induction false} CommentIsSuffix(m: Mode, s: string)
    ensures var c := CommentFrom(m, s); |c| <= |s| && s[|s| - |c|..] == c && (c != "" ==> c[0] == '#')
    decreases |s|
  {
    if s != "" { CommentIsSuffix(Step(m, s[0]), s[1..]); }
  }

  lemma {:induction false} WithoutNewlineStops(s: string)
    ensures !EndsLine(WithoutNewline(s))
    ensures s != "" && s[0] != '\n' ==> WithoutNewline(s) != "" && WithoutNewline(s)[0] == s[0]
  {
    if EndsLine(s) { WithoutNewlineStops(s[..|s| - 1]); }
  }

  // A comment behind a space is found whole.
  lemma CommentBehindSpace(c: string)
    requires c != "" && c[0] == '#'
    ensures CommentFrom(Outside, " " + c) == c
  {
    assert (" " + c)[0] == ' ' && (" " + c)[1..] == c;
  }

  lemma NoCommentInEnd(newline: string)
    requires newline == "" || newline == "\n"
    ensures CommentFrom(Outside, newline) == ""
  {
    if newline == "\n" { assert newline[1..] == ""; }
  }

  lemma OneMoreNewline(body: string, newline: string)
    requires !EndsLine(body) && body != "" && (newline == "" || newline == "\n")
    ensures WithoutNewline(body + newline) == body
  {
    if newline == "\n" {
      assert (body + newline)[..|body|] == body;
    } else {
      assert body + newline == body;
    }
  }

  // The comment found in a rewritten line is the comment that was kept.
  lemma TailOfTail(line: string)
    ensures var c := CommentFrom(Outside, Tail(line));
            Comment(line) == (if c == "" then "" else " " + WithoutNewline(c))
  {
    var c := CommentFrom(Outside, line);
    CommentIsSuffix(Outside, line);
    var newline := if EndsLine(line) then "\n" else "";
    if c == "" {
      assert Tail(line) == newline;
      NoCommentInEnd(newline);
    } else {
      WithoutNewlineStops(c);
      var body := WithoutNewline(c);
      assert Tail(line) == " " + (body + newline);
      CommentBehindSpace(body + newline);
      OneMoreNewline(body, newline);
    }
  }

  lemma CommentOfRewritten(line: string, key: string, v: Value)
    requires IsPlainKey(key)
    ensures CommentFrom(Outside, Rewritten(line, key, v)) == CommentFrom(Outside, Tail(line))
  {
    HeadIsClosed(line, key);
    LiteralIsClosed(v);
    WalkOn(Outside, Head(line, key), Literal(v) + Tail(line));
    WalkOn(Outside, Literal(v), Tail(line));
  }

  lemma EndOfConcat(a: string, b: string)
    ensures b != "" ==> EndsLine(a + b) == EndsLine(b)
    ensures b == "" ==> a + b == a
  {
    if b != "" { assert (a + b)[|a + b| - 1] == b[|b| - 1]; }
  }

  lemma EndOfTail(line: string)
    ensures EndsLine(Tail(line)) == EndsLine(line)
  {
    if !EndsLine(line) {
      assert Tail(line) == Comment(line);
      WithoutNewlineStops(CommentFrom(Outside, line));
      EndOfConcat(" ", WithoutNewline(CommentFrom(Outside, line)));
    }
  }

  lemma EndOfRewritten(line: string, key: string, v: Value)
    ensures EndsLine(Rewritten(line, key, v)) == EndsLine(line)
  {
    LiteralEnd(v);
    EndOfTail(line);
    EndOfConcat(Literal(v), Tail(line));
    EndOfConcat(Head(line, key), Literal(v) + Tail(line));
  }

  // Rewriting keeps the indentation and the comment, and can be done again as on the first line.
  lemma RewritingKeeps(line: string, key: string, v: Value)
    requires IsPlainKey(key) && MatchesKey(line, key)
    ensures var x := Rewritten(line, key, v);
            MatchesKey(x, key) && Indent(x) == Indent(line) && Tail(x) == Tail(line)
            && forall w :: Rewritten(x, key, w) == Rewritten(line, key, w)
  {
    assert forall c :: c in Indent(line) ==> IsSpace(c);
    KeyLine(line, key, Literal(v) + Tail(line));
    CommentOfRewritten(line, key, v);
    TailOfTail(line);
    EndOfRewritten(line, key, v);
  }

  // ----- changes of distinct keys commute --------------------------------------------------------

  lemma SameKeysMatch(a: string, b: string, key: string, other: string)
    requires IsPlainKey(key) && IsPlainKey(other) && MatchesKey(a, key) && MatchesKey(b, key)
    ensures MatchesKey(a, other) == MatchesKey(b, other) == (key == other)
  {
    if MatchesKey(a, other) { OnlyOneKeyMatches(a, key, other); }
    if MatchesKey(b, other) { OnlyOneKeyMatches(b, key, other); }
  }

  lemma RewritingLeavesPlaces(c: Setting, d: Setting)
    requires IsPlainKey(c.key) && IsPlainKey(d.key)
    ensures LeavesPlaces(EditOf(c), EditOf(d))
    ensures c.key != d.key ==> forall line :: !(EditOf(c).hits(line) && EditOf(d).hits(line))
  {
    forall line | MatchesKey(line, c.key)
      ensures HeaderOf(Rewritten(line, c.key, c.value)) == HeaderOf(line)
      ensures MatchesKey(Rewritten(line, c.key, c.value), d.key) == MatchesKey(line, d.key) == (c.key == d.key)
    {
      RewritingKeeps(line, c.key, c.value);
      MatchIsNoHeader(line, c.key);
      MatchIsNoHeader(Rewritten(line, c.key, c.value), c.key);
      SameKeysMatch(line, Rewritten(line, c.key, c.value), c.key, d.key);
    }
  }

  // The order of two changes does not matter, nor whether one of them fails.
  lemma DistinctKeysCommute(lines: seq<string>, c: Setting, d: Setting)
    requires IsPlainKey(c.key) && IsPlainKey(d.key) && (c.section != d.section || c.key != d.key)
    ensures Then(Patch(lines, EditOf(c)), EditOf(d)) == Then(Patch(lines, EditOf(d)), EditOf(c))
  {
    RewritingLeavesPlaces(c, d);
    RewritingLeavesPlaces(d, c);
    DistinctEditsCommute(lines, EditOf(c), EditOf(d));
  }
}
