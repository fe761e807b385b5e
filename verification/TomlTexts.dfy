/**
  Changing a setting of a text and reading the text again.  Changing it twice is changing it last,
  except where the old value or the first one holds a character that ends a line for splitlines but not
  for TOML.
*/
module TomlTexts {
  import opened Wrappers
  import opened Chords
  import opened KeyPlaces
  import opened Sequences
  import opened TomlLines
  import opened TomlPatch

  // The text after one change, before it is parsed again.
  ghost function Rendered(text: string, c: Setting): Option<string> {
    match Patch(SplitLines(text), EditOf(c))
    case None => None
    case Some(lines) => Some(Concat(lines))
  }

  // The line does not lose its end: it ends in a line feed, is the last, or ends in a comment.
  predicate KeepsItsEnd(lines: seq<string>, i: nat)
    requires i < |lines|
  {
    i == |lines| - 1 || EndsLine(lines[i]) || CommentFrom(Outside, lines[i]) != ""
  }

  // ----- lines and their ends -----------------------------------------------------------------------

  lemma BreaksOfConcat(a: string, b: string)
    ensures HasBreak(a + b) <==> HasBreak(a) || HasBreak(b)
  {
    forall c ensures c in a + b <==> c in a || c in b { }
  }

  lemma PartHasNoBreak(s: string, i: nat, j: nat)
    requires !HasBreak(s) && i <= j <= |s|
    ensures !HasBreak(s[i..j])
  {
    forall c | c in s[i..j] ensures !IsBreak(c) { assert c in s; }
  }

  lemma SuffixOfFront(x: string, k: nat, n: nat)
    requires k <= n <= |x| && !HasBreak(x[..n])
    ensures !HasBreak(x[k..][..n - k])
  {
    PartHasNoBreak(x[..n], k, n);
    assert x[..n][k..n] == x[k..][..n - k];
  }

  lemma SuffixIsLine(x: string, k: nat)
    requires IsLine(x) && k < |x|
    ensures IsLine(x[k..]) && x[k..][|x| - k - 1] == x[|x| - 1]
  {
    var y, n := x[k..], |x|;
    if !HasBreak(x[..n - 1]) {
      SuffixOfFront(x, k, n - 1);
    } else if |y| == 1 {
      assert y[..0] == "";
    } else {
      SuffixOfFront(x, k, n - 2);
      assert y[|y| - 2..] == x[n - 2..];
    }
  }

  lemma {:induction false} PrefixedIsLine(p: string, x: string)
    requires !HasBreak(p) && IsLine(x)
    ensures IsLine(p + x) && (p + x)[|p + x| - 1] == x[|x| - 1]
  {
    if p == "" {
      assert p + x == x;
    } else {
      assert p[0] in p;
      PartHasNoBreak(p, 1, |p|);
      PrefixedIsLine(p[1..], x);
      assert p + x == [p[0]] + (p[1..] + x);
      LongerFirstCharacter(p[0], p[1..] + x);
    }
  }

  lemma FrontHasNoBreak(x: string, k: nat)
    requires IsLine(x) && k <= |x| - 2
    ensures !HasBreak(x[..k])
  {
    var n := |x|;
    if !HasBreak(x[..n - 1]) {
      PartHasNoBreak(x[..n - 1], 0, k);
      assert x[..k] == x[..n - 1][0..k];
    } else {
      PartHasNoBreak(x[..n - 2], 0, k);
      assert x[..k] == x[..n - 2][0..k];
    }
  }

  lemma MatchHasTwo(line: string, key: string)
    requires key != "" && MatchesKey(line, key)
    ensures |Indent(line)| <= |line| - 2
  {
    var s := SkipSpaces(line);
    assert s[|key|..] != "";
  }

  lemma KeyHasNoBreak(key: string)
    requires IsPlainKey(key)
    ensures !HasBreak(key + " = ")
  {
    forall c | c in key ensures !IsBreak(c) { assert !IsSpace(c); }
    BreaksOfConcat(key, " = ");
  }

  lemma HeadHasNoBreak(line: string, key: string)
    requires IsLine(line) && IsPlainKey(key) && MatchesKey(line, key)
    ensures !HasBreak(Head(line, key))
  {
    MatchHasTwo(line, key);
    FrontHasNoBreak(line, |Indent(line)|);
    KeyHasNoBreak(key);
    BreaksOfConcat(Indent(line), key + " = ");
  }

  lemma LineFeedIsLast(x: string)
    requires IsLine(x) && |x| >= 2
    ensures x[|x| - 2] != '\n'
  {
    var n := |x|;
    assert x[..n - 1][n - 2] in x[..n - 1];
    if HasBreak(x[..n - 1]) {
      assert x[n - 2..][0] == '\r';
    }
  }

  lemma OneNewline(x: string)
    requires IsLine(x) && EndsLine(x)
    ensures WithoutNewline(x) + "\n" == x
  {
    var body := x[..|x| - 1];
    if |x| >= 2 { LineFeedIsLast(x); }
    assert WithoutNewline(x) == body;
  }

  // What follows the value is the comment with its end, or the end of the line.
  lemma TailIs(line: string)
    requires IsLine(line)
    ensures var c := CommentFrom(Outside, line);
            && Tail(line) == (if c == "" then (if EndsLine(line) then "\n" else "") else " " + c)
            && (c != "" ==> IsLine(c) && c[|c| - 1] == line[|line| - 1])
  {
    var c := CommentFrom(Outside, line);
    CommentIsSuffix(Outside, line);
    if c != "" {
      SuffixIsLine(line, |line| - |c|);
      if EndsLine(line) {
        OneNewline(c);
        assert Tail(line) == " " + (WithoutNewline(c) + "\n");
      } else {
        assert WithoutNewline(c) == c && Tail(line) == " " + c;
      }
    }
  }

  lemma TailIsLine(line: string)
    requires IsLine(line) && Tail(line) != ""
    ensures IsLine(Tail(line)) && Tail(line)[|Tail(line)| - 1] == line[|line| - 1]
  {
    TailIs(line);
    var c := CommentFrom(Outside, line);
    if c != "" {
      LongerFirstCharacter(' ', c);
    } else {
      assert Tail(line) == "\n" && "\n"[..0] == "";
    }
  }

  lemma NoBreakIsLine(x: string)
    requires x != "" && !HasBreak(x)
    ensures IsLine(x)
  {
    PartHasNoBreak(x, 0, |x| - 1);
    assert x[..|x| - 1] == x[0..|x| - 1];
  }

  lemma FrontIsLine(front: string, tail: string, last: char)
    requires front != "" && !HasBreak(front) && (tail != "" ==> IsLine(tail) && tail[|tail| - 1] == last)
    ensures IsLine(front + tail) && (tail != "" ==> (front + tail)[|front + tail| - 1] == last)
  {
    if tail == "" {
      assert front + tail == front;
      NoBreakIsLine(front);
    } else {
      PrefixedIsLine(front, tail);
    }
  }

  lemma FrontHasNoBreaks(line: string, key: string, v: Value)
    requires IsLine(line) && IsPlainKey(key) && MatchesKey(line, key) && !HasBreak(Literal(v))
    ensures !HasBreak(Head(line, key) + Literal(v)) && Head(line, key) + Literal(v) != ""
  {
    HeadHasNoBreak(line, key);
    LiteralEnd(v);
    BreaksOfConcat(Head(line, key), Literal(v));
  }

  lemma RewrittenIs(line: string, key: string, v: Value)
    ensures Rewritten(line, key, v) == (Head(line, key) + Literal(v)) + Tail(line)
  {
    Associative(Head(line, key), Literal(v), Tail(line));
  }

  lemma JoinedIsLine(front: string, line: string)
    requires front != "" && !HasBreak(front) && IsLine(line)
    ensures IsLine(front + Tail(line))
    ensures Tail(line) != "" ==> (front + Tail(line))[|front + Tail(line)| - 1] == line[|line| - 1]
  {
    if Tail(line) != "" { TailIsLine(line); }
    FrontIsLine(front, Tail(line), line[|line| - 1]);
  }

  // Rewriting with a value on one line gives one line with the same end.
  lemma RewrittenIsLine(line: string, key: string, v: Value, x: string)
    requires IsLine(line) && IsPlainKey(key) && MatchesKey(line, key) && !HasBreak(Literal(v))
    requires x == Rewritten(line, key, v)
    ensures IsLine(x) && (Tail(line) != "" ==> x[|x| - 1] == line[|line| - 1])
  {
    FrontHasNoBreaks(line, key, v);
    RewrittenIs(line, key, v);
    JoinedIsLine(Head(line, key) + Literal(v), line);
  }

  lemma KeptHasTail(line: string)
    requires IsLine(line)
    ensures Tail(line) != "" <==> EndsLine(line) || CommentFrom(Outside, line) != ""
  {
    TailIs(line);
  }

  // ----- putting texts together -----------------------------------------------------------------------

  predicate Separate(a: string, b: string) {
    a != "" && b != "" ==> IsBreak(a[|a| - 1]) && !(a[|a| - 1] == '\r' && b[0] == '\n')
  }

  // The first line of a text, and the rest.
  lemma FirstAndRest(a: string) returns (first: string, rest: string)
    requires a != ""
    ensures a == first + rest && first != "" && IsLine(first) && SplitLines(a) == [first] + SplitLines(rest)
    ensures rest != "" ==> EndsBefore(first, rest)
  {
    var lines := SplitLines(a);
    SplitIsWell(a);
    ConcatOfSplit(a);
    first, rest := lines[0], Concat(lines[1..]);
    WellSplitTail(lines);
    SplitOfConcat(lines[1..]);
    FirstOfConcat(lines[1..]);
    if rest != "" { assert EndsBefore(lines[0], lines[1]); }
  }

  // Splitting behind the first line.
  lemma SplitBehind(first: string, rest: string, b: string)
    requires IsLine(first) && (rest + b != "" ==> EndsBefore(first, rest + b))
    ensures SplitLines(first + rest + b) == [first] + SplitLines(rest + b)
  {
    SplitFirstLine(first, rest + b);
    Associative(first, rest, b);
  }

  lemma RestIsSeparate(a: string, first: string, rest: string, b: string)
    requires a == first + rest && first != "" && IsLine(first) && Separate(a, b)
    requires rest != "" ==> EndsBefore(first, rest)
    ensures Separate(rest, b) && (rest + b != "" ==> EndsBefore(first, rest + b))
  {
    if rest != "" {
      assert rest[|rest| - 1] == a[|a| - 1] && (rest + b)[0] == rest[0];
    } else {
      assert first == a;
      EmptyConcat(b);
    }
  }

  lemma {:induction false} SplitOfSum(a: string, b: string)
    requires Separate(a, b)
    ensures SplitLines(a + b) == SplitLines(a) + SplitLines(b)
    decreases |a|
  {
    if a == "" {
      EmptyConcat(b);
      EmptyConcat(SplitLines(b));
    } else {
      var first, rest := FirstAndRest(a);
      RestIsSeparate(a, first, rest, b);
      SplitOfSum(rest, b);
      SplitBehind(first, rest, b);
      Associative([first], SplitLines(rest), SplitLines(b));
    }
  }

  lemma ConcatAround(lines: seq<string>, i: nat, x: string)
    requires i < |lines|
    ensures Concat(lines[i := x]) == Concat(lines[..i]) + (x + Concat(lines[i + 1..]))
  {
    assert lines[i := x] == lines[..i] + ([x] + lines[i + 1..]);
    ConcatInTwoParts(lines[..i], [x] + lines[i + 1..]);
    assert ([x] + lines[i + 1..])[1..] == lines[i + 1..];
  }

  lemma WellSplitParts(lines: seq<string>, i: nat, j: nat)
    requires WellSplit(lines) && i <= j <= |lines|
    ensures WellSplit(lines[i..j])
  {
    var part := lines[i..j];
    forall k | 0 <= k < |part| - 1 ensures EndsBefore(part[k], part[k + 1]) {
      assert EndsBefore(lines[i + k], lines[i + k + 1]);
    }
  }

  lemma {:induction false} LastOfConcat(lines: seq<string>)
    requires lines != [] && forall i :: 0 <= i < |lines| ==> lines[i] != ""
    ensures var last := lines[|lines| - 1];
            Concat(lines) != "" && Concat(lines)[|Concat(lines)| - 1] == last[|last| - 1]
  {
    if |lines| > 1 { LastOfConcat(lines[1..]); }
  }

  lemma PartsOfSplit(lines: seq<string>, i: nat)
    requires WellSplit(lines) && i < |lines|
    ensures SplitLines(Concat(lines[..i])) == lines[..i] && SplitLines(Concat(lines[i + 1..])) == lines[i + 1..]
    ensures i > 0 ==>
      var front, last := Concat(lines[..i]), lines[i - 1][|lines[i - 1]| - 1];
      front != "" && front[|front| - 1] == last && IsBreak(last) && !(last == '\r' && lines[i][0] == '\n')
    ensures i == 0 ==> Concat(lines[..i]) == ""
    ensures i + 1 < |lines| ==> Concat(lines[i + 1..]) != "" && Concat(lines[i + 1..])[0] == lines[i + 1][0]
    ensures i + 1 == |lines| ==> Concat(lines[i + 1..]) == ""
  {
    hide SplitLines;
    WellSplitParts(lines, 0, i);
    WellSplitParts(lines, i + 1, |lines|);
    assert lines[0..i] == lines[..i] && lines[i + 1..|lines|] == lines[i + 1..];
    SplitOfConcat(lines[..i]);
    SplitOfConcat(lines[i + 1..]);
    FirstOfConcat(lines[i + 1..]);
    if i > 0 {
      LastOfConcat(lines[..i]);
      assert EndsBefore(lines[i - 1], lines[i]);
    }
  }

  // Replacing a line by a text that ends as it did, the other lines stay.
  lemma SplitAround(lines: seq<string>, i: nat, x: string)
    requires WellSplit(lines) && i < |lines| && x != ""
    requires x[0] == '\n' ==> lines[i][0] == '\n'
    requires i < |lines| - 1 ==> Separate(x, lines[i + 1])
    ensures SplitLines(Concat(lines[i := x])) == lines[..i] + (SplitLines(x) + lines[i + 1..])
  {
    PartsOfSplit(lines, i);
    hide SplitLines, Concat, WellSplit, IsBreak;
    ConcatAround(lines, i, x);
    SplitOfSum(x, Concat(lines[i + 1..]));
    SplitOfSum(Concat(lines[..i]), x + Concat(lines[i + 1..]));
  }

  // ----- the second change ------------------------------------------------------------------------

  lemma RewrittenStart(line: string, key: string, v: Value)
    requires IsPlainKey(key)
    ensures var x := Rewritten(line, key, v); x != "" && (x[0] == '\n' ==> line != "" && line[0] == '\n')
  {
    assert key[0] in key;
    if Indent(line) != "" { assert Head(line, key)[0] == Indent(line)[0] == line[0]; }
  }

  lemma SplitOneLine(x: string)
    requires IsLine(x)
    ensures SplitLines(x) == [x]
  {
    assert x + "" == x && SplitLines("") == [];
    SplitFirstLine(x, "");
  }

  lemma OneLineAround(lines: seq<string>, i: nat, x: string)
    requires WellSplit(lines) && i < |lines| && IsLine(x)
    requires x[0] == '\n' ==> lines[i][0] == '\n'
    requires i < |lines| - 1 ==> x[|x| - 1] == lines[i][|lines[i]| - 1]
    ensures SplitLines(Concat(lines[i := x])) == lines[i := x]
  {
    if i < |lines| - 1 { assert EndsBefore(lines[i], lines[i + 1]); }
    SplitAround(lines, i, x);
    SplitOneLine(x);
    ReplaceIsParts(lines, i, x);
  }

  // ----- the text after one change -----------------------------------------------------------------

  // The line of the key, and the text with that line rewritten.
  lemma RenderedIs(text: string, c: Setting, start: nat, i: nat)
    requires IsPlainKey(c.key) && IsAt(SplitLines(text), EditOf(c), start, i)
    ensures var lines := SplitLines(text);
            && WellSplit(lines) && i < |lines| && IsLine(lines[i]) && MatchesKey(lines[i], c.key)
            && Rendered(text, c) == Some(Concat(lines[i := Rewritten(lines[i], c.key, c.value)]))
            && Patch(lines, EditOf(c)) == Some(lines[i := Rewritten(lines[i], c.key, c.value)])
  {
    SplitIsWell(text);
    IsAtHits(SplitLines(text), EditOf(c), start, i);
    PatchesAt(SplitLines(text), EditOf(c), start, i);
  }

  lemma ChangedEnds(lines: seq<string>, i: nat, key: string, v: Value, x: string)
    requires i < |lines| && IsLine(lines[i]) && MatchesKey(lines[i], key) && IsPlainKey(key)
    requires KeepsItsEnd(lines, i) && !HasBreak(Literal(v)) && x == Rewritten(lines[i], key, v)
    ensures IsLine(x) && (x[0] == '\n' ==> lines[i][0] == '\n')
    ensures i < |lines| - 1 ==> x[|x| - 1] == lines[i][|lines[i]| - 1]
  {
    hide MatchesKey, Rewritten, Tail, CommentFrom, EndsLine, HasBreak, IsPlainKey, Literal;
    KeptHasTail(lines[i]);
    RewrittenIsLine(lines[i], key, v, x);
    RewrittenStart(lines[i], key, v);
  }

  // A value on one line, and a line that keeps its end: the text has the same lines, but for the one of
  // the key.
  lemma LineStays(lines: seq<string>, i: nat, key: string, v: Value)
    requires WellSplit(lines) && i < |lines| && MatchesKey(lines[i], key) && IsPlainKey(key)
    requires KeepsItsEnd(lines, i) && !HasBreak(Literal(v))
    ensures var x := Rewritten(lines[i], key, v); SplitLines(Concat(lines[i := x])) == lines[i := x]
  {
    hide MatchesKey, Rewritten, IsLine, SplitLines, Concat, KeepsItsEnd, HasBreak, IsPlainKey, Literal;
    ChangedEnds(lines, i, key, v, Rewritten(lines[i], key, v));
    OneLineAround(lines, i, Rewritten(lines[i], key, v));
  }

  lemma NoEndNoTail(lines: seq<string>, i: nat)
    requires WellSplit(lines) && i < |lines| && !KeepsItsEnd(lines, i)
    ensures i + 1 < |lines| && Tail(lines[i]) == ""
  {
    TailIs(lines[i]);
  }

  lemma WellSplitJoined(lines: seq<string>, i: nat, x: string)
    requires WellSplit(lines) && i + 1 < |lines| && x != "" && !HasBreak(x)
    ensures WellSplit(Dropped(lines, i + 1)[i := x + lines[i + 1]])
  {
    var next, joined := lines[i + 1], Dropped(lines, i + 1)[i := x + lines[i + 1]];
    assert x[0] in x;
    PrefixedIsLine(x, next);
    forall j | 0 <= j < |joined| - 1 ensures EndsBefore(joined[j], joined[j + 1]) {
      if j < i {
        assert EndsBefore(lines[j], lines[j + 1]);
      } else {
        assert EndsBefore(lines[j + 1], lines[j + 2]);
      }
    }
  }

  // Replacing a line by one without an end joins the next line to it.
  lemma JoinedLines(lines: seq<string>, i: nat, x: string)
    requires WellSplit(lines) && i + 1 < |lines| && x != "" && !HasBreak(x)
    ensures SplitLines(Concat(lines[i := x])) == Dropped(lines, i + 1)[i := x + lines[i + 1]]
  {
    WellSplitJoined(lines, i, x);
    SameText(lines, i, x);
    SplitOfConcat(Dropped(lines, i + 1)[i := x + lines[i + 1]]);
  }

  // The text is the same, whether the two are one line or not.
  lemma SameText(lines: seq<string>, i: nat, x: string)
    requires i + 1 < |lines|
    ensures Concat(Dropped(lines, i + 1)[i := x + lines[i + 1]]) == Concat(lines[i := x])
  {
    var next, after := lines[i + 1], lines[i + 2..];
    ConcatAround(lines, i, x);
    assert lines[i + 1..][0] == next && lines[i + 1..][1..] == after;
    ConcatAround(Dropped(lines, i + 1), i, x + next);
    assert Dropped(lines, i + 1)[..i] == lines[..i] && Dropped(lines, i + 1)[i + 1..] == after;
    Associative(x, next, Concat(after));
  }

  // A value on one line, and a line that loses its end: the next line is joined to it.
  lemma NextIsJoined(lines: seq<string>, i: nat, key: string, v: Value)
    requires WellSplit(lines) && i < |lines| && MatchesKey(lines[i], key) && IsPlainKey(key)
    requires !KeepsItsEnd(lines, i) && !HasBreak(Literal(v))
    ensures i + 1 < |lines| && Tail(lines[i]) == ""
    ensures var x := Rewritten(lines[i], key, v);
            SplitLines(Concat(lines[i := x])) == Dropped(lines, i + 1)[i := x + lines[i + 1]]
  {
    NoEndNoTail(lines, i);
    FrontHasNoBreaks(lines[i], key, v);
    RewrittenIs(lines[i], key, v);
    assert Rewritten(lines[i], key, v) == Head(lines[i], key) + Literal(v);
    JoinedLines(lines, i, Rewritten(lines[i], key, v));
  }

  // ----- values that break their line --------------------------------------------------------------

  ghost predicate IsPrintable(s: string) {
    forall x :: x in s ==> x >= ' '
  }

  lemma PrintableConcat(a: string, b: string)
    requires IsPrintable(a) && IsPrintable(b)
    ensures IsPrintable(a + b)
  {
  }

  lemma EscapedIsPrintable(c: char)
    ensures IsPrintable(Escaped(c))
  {
    assert forall i :: 0 <= i < 16 ==> HEX[i] >= ' ';
  }

  lemma {:induction false} EscapedAllIsPrintable(s: string)
    ensures IsPrintable(EscapedAll(s))
  {
    if s != "" {
      EscapedIsPrintable(s[0]);
      EscapedAllIsPrintable(s[1..]);
      PrintableConcat(Escaped(s[0]), EscapedAll(s[1..]));
    }
  }

  lemma QuotedIsPrintable(s: string)
    ensures IsPrintable(Quoted(s))
  {
    EscapedAllIsPrintable(s);
    PrintableConcat(EscapedAll(s), "\"");
    PrintableConcat("\"", EscapedAll(s) + "\"");
  }

  lemma {:induction false} ListedIsPrintable(texts: seq<string>)
    ensures IsPrintable(Listed(texts))
  {
    if texts != [] {
      QuotedIsPrintable(texts[0]);
      if |texts| > 1 {
        ListedIsPrintable(texts[1..]);
        PrintableConcat(", ", Listed(texts[1..]));
        PrintableConcat(Quoted(texts[0]), ", " + Listed(texts[1..]));
      }
    }
  }

  lemma DigitsArePrintable(n: nat)
    ensures IsPrintable(Digits(n)) && IsPrintable("-" + Digits(n))
  {
    DigitsArePlain(n);
    assert forall i :: 0 <= i < 16 ==> HEX[i] >= ' ';
    PrintableConcat("-", Digits(n));
  }

  lemma FlagsArePrintable()
    ensures IsPrintable("true") && IsPrintable("false")
  {
  }

  // A literal can only be broken by characters that JSON leaves as they are.
  lemma LiteralIsPrintable(v: Value)
    ensures IsPrintable(Literal(v))
  {
    hide Listed, Quoted, Digits;
    match v
    case Flag(on) => FlagsArePrintable();
    case Whole(n) => DigitsArePrintable(if n < 0 then -n else n);
    case Text(s) => QuotedIsPrintable(s);
    case Texts(ts) =>
      ListedIsPrintable(ts);
      PrintableConcat(Listed(ts), "]");
      PrintableConcat("[", Listed(ts) + "]");
  }

  lemma {:induction false} FirstBreak(s: string) returns (p: nat)
    requires HasBreak(s)
    ensures p < |s| && IsBreak(s[p]) && !HasBreak(s[..p])
  {
    if IsBreak(s[0]) {
      p := 0;
    } else {
      assert HasBreak(s[1..]) by {
        var c :| c in s && IsBreak(c);
        assert c in s[1..];
      }
      p := FirstBreak(s[1..]);
      p := p + 1;
      assert s[..p] == [s[0]] + s[1..][..p - 1];
      BreaksOfConcat([s[0]], s[1..][..p - 1]);
    }
  }

  // The text before the first break in the literal is a line of its own.
  lemma BrokenLiteral(v: Value) returns (p: nat)
    requires HasBreak(Literal(v))
    ensures p + 1 < |Literal(v)| && !HasBreak(Literal(v)[..p])
    ensures IsBreak(Literal(v)[p]) && Literal(v)[p] != '\n' && Literal(v)[p] != '\r'
  {
    p := FirstBreak(Literal(v));
    LiteralIsPrintable(v);
    assert Literal(v)[p] in Literal(v);
    LiteralEnd(v);
  }

  // A line has no break in front of its end.
  lemma InnerBreak(x: string, at: nat)
    requires at + 1 < |x| && IsBreak(x[at]) && x[at] != '\r'
    ensures !IsLine(x)
  {
    var n := |x|;
    assert x[..n - 1][at] == x[at];
    if x[n - 2..] == "\r\n" {
      assert x[n - 2..][0] == x[n - 2];
      assert x[..n - 2][at] == x[at];
    }
  }

  // A rewritten line that holds a break is not one line.
  lemma BrokenIsNoLine(line: string, key: string, v: Value)
    requires HasBreak(Literal(v))
    ensures !IsLine(Rewritten(line, key, v))
  {
    hide IsLine, IsBreak, Head, Literal, Tail;
    var p := BrokenLiteral(v);
    InnerBreak(Rewritten(line, key, v), |Head(line, key)| + p);
  }

  lemma OpenIsNotFull(line: string, key: string, v: Value)
    requires Tail(line) == ""
    ensures !IsFull(Rewritten(line, key, v))
  {
    LiteralEnd(v);
    var x := Rewritten(line, key, v);
    assert x[|x| - 1] == Literal(v)[|Literal(v)| - 1];
  }

  lemma LineOfWellSplit(lines: seq<string>, i: nat, x: string)
    requires i < |lines| && WellSplit(lines[i := x])
    ensures IsLine(x) && (i + 1 < |lines| ==> IsFull(x))
  {
    var changed := lines[i := x];
    assert IsLine(changed[i]);
    if i + 1 < |lines| { assert EndsBefore(changed[i], changed[i + 1]); }
  }

  // One line of the text changes and no other, exactly if the line keeps its end and the new value does
  // not break it.
  lemma OnlyOneLineChanges(text: string, c: Setting, start: nat, i: nat)
    requires IsPlainKey(c.key) && IsAt(SplitLines(text), EditOf(c), start, i)
    ensures i < |SplitLines(text)| && Rendered(text, c).Some?
    ensures var lines := SplitLines(text);
            SplitLines(Rendered(text, c).value) == lines[i := Rewritten(lines[i], c.key, c.value)]
            <==> KeepsItsEnd(lines, i) && !HasBreak(Literal(c.value))
  {
    var lines := SplitLines(text);
    RenderedIs(text, c, start, i);
    var x := Rewritten(lines[i], c.key, c.value);
    if SplitLines(Rendered(text, c).value) == lines[i := x] {
      SplitIsWell(Rendered(text, c).value);
      LineOfWellSplit(lines, i, x);
      if HasBreak(Literal(c.value)) { BrokenIsNoLine(lines[i], c.key, c.value); }
      if !KeepsItsEnd(lines, i) {
        NoEndNoTail(lines, i);
        OpenIsNotFull(lines[i], c.key, c.value);
      }
    } else if KeepsItsEnd(lines, i) && !HasBreak(Literal(c.value)) {
      LineStays(lines, i, c.key, c.value);
    }
  }

  // ----- the second change of a key ------------------------------------------------------------------

  // Whatever the second change finds, it finds it on the first fragment.
  lemma SecondEditThere(lines: seq<string>, other: seq<string>, e: Edit, start: nat, i: nat)
    requires IsAt(lines, e, start, i) && i < |lines| && i < |other| && lines[..i] == other[..i]
    requires e.hits(other[i]) && e.header(other[i]).None?
    ensures Patch(other, e).Some? ==> Patch(other, e) == Some(other[i := e.rewrite(other[i])])
  {
    if Patch(other, e).Some? {
      var s': nat, i': nat :| IsAt(other, e, s', i');
      OnlyThere(lines, other, e, start, i, s', i');
      PatchesAt(other, e, s', i);
    }
  }

  lemma SecondChangeThere(lines: seq<string>, other: seq<string>, d: Setting, start: nat, i: nat)
    requires IsAt(lines, EditOf(d), start, i) && i < |lines| && i < |other| && lines[..i] == other[..i]
    requires MatchesKey(other[i], d.key) && HeaderOf(other[i]).None?
    ensures Patch(other, EditOf(d)).Some? ==>
      Patch(other, EditOf(d)) == Some(other[i := Rewritten(other[i], d.key, d.value)])
  {
    SecondEditThere(lines, other, EditOf(d), start, i);
  }

  lemma ReplaceMiddle(a: seq<string>, f: string, b: seq<string>, y: string, i: nat)
    requires i == |a|
    ensures (a + ([f] + b))[i := y] == a + ([y] + b) && (a + ([f] + b))[..i] == a && (a + ([f] + b))[i] == f
  {
  }

  lemma ReplaceIsParts(lines: seq<string>, i: nat, z: string)
    requires i < |lines|
    ensures lines[i := z] == lines[..i] + ([z] + lines[i + 1..])
  {
  }

  lemma SameEditsMeet(lines: seq<string>, c: Setting, d: Setting, start: nat, i: nat)
    requires c.section == d.section && c.key == d.key && IsAt(lines, EditOf(c), start, i)
    ensures IsAt(lines, EditOf(d), start, i)
  {
  }

  // The key is still there: rewriting again gives what rewriting alone gives.
  lemma SecondOnSameLines(text: string, c: Setting, d: Setting, start: nat, i: nat)
    requires IsPlainKey(c.key) && c.section == d.section && c.key == d.key
    requires IsAt(SplitLines(text), EditOf(c), start, i) && i < |SplitLines(text)|
    requires KeepsItsEnd(SplitLines(text), i) && !HasBreak(Literal(c.value))
    ensures Rendered(text, c).Some? && Rendered(Rendered(text, c).value, d) == Rendered(text, d)
  {
    var lines := SplitLines(text);
    OnlyOneLineChanges(text, c, start, i);
    RewritingLeavesPlaces(c, d);
    forall line | EditOf(c).hits(line) ensures EditOf(d).rewrite(EditOf(c).rewrite(line)) == EditOf(d).rewrite(line) {
      RewritingKeeps(line, c.key, c.value);
    }
    LastEditWins(lines, EditOf(c), EditOf(d), start, i);
    PatchesAt(lines, EditOf(c), start, i);
  }

  lemma CommentOfJoined(line: string, key: string, v: Value, next: string)
    requires IsPlainKey(key)
    ensures CommentFrom(Outside, Head(line, key) + (Literal(v) + next)) == CommentFrom(Outside, next)
  {
    HeadIsClosed(line, key);
    LiteralIsClosed(v);
    WalkOn(Outside, Head(line, key), Literal(v) + next);
    WalkOn(Outside, Literal(v), next);
  }

  // What is joined behind a literal is scanned as if it stood alone.
  lemma TailOfJoined(line: string, key: string, v: Value, next: string)
    requires IsPlainKey(key) && MatchesKey(line, key) && Tail(line) == "" && next != ""
    ensures var y := Rewritten(line, key, v) + next;
            MatchesKey(y, key) && HeaderOf(y).None? && Indent(y) == Indent(line) && Tail(y) == Tail(next)
  {
    hide MatchesKey, HeaderOf, Indent, Head, CommentFrom, WithoutNewline, Literal;
    var y := Rewritten(line, key, v) + next;
    assert y == Head(line, key) + (Literal(v) + next);
    BareKey(line, key, Literal(v) + next, y);
    CommentOfJoined(line, key, v, next);
    EndOfConcat(Rewritten(line, key, v), next);
  }

  // What a second change finds after the first, if that joined the next line.
  lemma SecondOnJoined(lines: seq<string>, d: Setting, start: nat, i: nat, y: string, joined: seq<string>)
    requires IsPlainKey(d.key) && IsAt(lines, EditOf(d), start, i) && i + 1 < |lines|
    requires joined == Dropped(lines, i + 1)[i := y] && MatchesKey(y, d.key) && HeaderOf(y).None?
    ensures Patch(joined, EditOf(d)).Some? ==>
      Patch(joined, EditOf(d)) == Some(joined[i := Rewritten(y, d.key, d.value)])
    ensures HeaderOf(lines[i + 1]).None? ==> Patch(joined, EditOf(d)).Some?
  {
    hide MatchesKey, HeaderOf, Rewritten, IsAt, Patch;
    assert lines[..i] == joined[..i] && joined[i] == y;
    SecondChangeThere(lines, joined, d, start, i);
    if HeaderOf(lines[i + 1]).None? {
      StillFound(lines, d, start, i, y);
      PatchesAt(joined, EditOf(d), start, i);
    }
  }

  lemma StillFound(lines: seq<string>, d: Setting, start: nat, i: nat, y: string)
    requires IsPlainKey(d.key) && IsAt(lines, EditOf(d), start, i) && i + 1 < |lines|
    requires MatchesKey(y, d.key) && HeaderOf(y).None? && HeaderOf(lines[i + 1]).None?
    ensures IsAt(Dropped(lines, i + 1)[i := y], EditOf(d), start, i)
  {
    hide MatchesKey, HeaderOf, Rewritten, IsAt;
    FoundWithout(lines, EditOf(d), start, i, i + 1);
    HitIsNoHeader(lines, d, start, i);
    SameFoundOn(Dropped(lines, i + 1), EditOf(d), i, y, start, i);
  }

  lemma HitIsNoHeader(lines: seq<string>, d: Setting, start: nat, i: nat)
    requires IsPlainKey(d.key) && IsAt(lines, EditOf(d), start, i)
    ensures i < |lines| && MatchesKey(lines[i], d.key) && HeaderOf(lines[i]).None?
  {
    IsAtHits(lines, EditOf(d), start, i);
    MatchIsNoHeader(lines[i], d.key);
  }

  lemma FoundWithout(lines: seq<string>, e: Edit, start: nat, i: nat, k: nat)
    requires IsAt(lines, e, start, i) && i < k < |lines| && e.header(lines[k]).None?
    ensures IsAt(Dropped(lines, k), e, start, i)
  {
    MapAt(e.header, lines, k, lines[k]);
    MapDropped(e.header, lines, k);
    MapDropped(e.hits, lines, k);
    PlaceStaysWithout(Map(e.header, lines), Map(e.hits, lines), e.section, start, i, k);
  }

  // A line that looks the same to the edit takes nothing away and adds nothing.
  lemma SameFoundOn(lines: seq<string>, e: Edit, k: nat, y: string, s: nat, i: nat)
    requires k < |lines| && e.header(y) == e.header(lines[k]) && e.hits(y) == e.hits(lines[k])
    ensures IsAt(lines[k := y], e, s, i) <==> IsAt(lines, e, s, i)
  {
    MapAt(e.header, lines, k, y);
    MapAt(e.hits, lines, k, y);
    assert Map(e.header, lines[k := y]) == Map(e.header, lines);
    assert Map(e.hits, lines[k := y]) == Map(e.hits, lines);
  }

  lemma SuffixDiffers(a: string, b: string, x: string, y: string, z: string)
    ensures a + (b + x + z) == a + (b + y + z) <==> x == y
  {
    if a + (b + x + z) == a + (b + y + z) {
      assert |x| == |y|;
      assert (a + (b + x + z))[|a| + |b|..][..|x|] == x;
      assert (a + (b + y + z))[|a| + |b|..][..|y|] == y;
    }
  }

  lemma BareRewritten(line: string, y: string, key: string, v: Value)
    requires Tail(line) == "" && Indent(y) == Indent(line)
    ensures Rewritten(y, key, v) == Rewritten(line, key, v) + Tail(y)
  {
    hide Tail, Indent, Literal;
    RewrittenIs(y, key, v);
  }

  // The two texts differ in what follows the value: the next line, or what is kept of it.
  lemma JoinedTexts(lines: seq<string>, i: nat, y: string, key: string, v: Value)
    requires i + 1 < |lines| && Tail(lines[i]) == ""
    requires Indent(y) == Indent(lines[i]) && Tail(y) == Tail(lines[i + 1])
    ensures Concat(Dropped(lines, i + 1)[i := Rewritten(y, key, v)]) == Concat(lines[i := Rewritten(lines[i], key, v)])
            <==> Tail(lines[i + 1]) == lines[i + 1]
  {
    hide Rewritten, Tail, Concat, Indent;
    var x, next := Rewritten(lines[i], key, v), lines[i + 1];
    BareRewritten(lines[i], y, key, v);
    var dropped, after := Dropped(lines, i + 1), Concat(lines[i + 2..]);
    assert dropped[..i] == lines[..i] && dropped[i + 1..] == lines[i + 2..];
    ConcatAround(dropped, i, x + Tail(next));
    ConcatAround(dropped, i, x + next);
    SameText(lines, i, x);
    SuffixDiffers(Concat(lines[..i]), x, Tail(next), next, after);
  }

  lemma BlankIsNoHeader()
    ensures HeaderOf("\n").None?
  {
    assert "\n"[..0] == "" && WithoutNewline("\n") == "";
  }

  lemma OwnTailIsNoHeader(line: string)
    requires Tail(line) == line && line != ""
    ensures HeaderOf(line).None?
  {
    var c := CommentFrom(Outside, line);
    if c == "" {
      BlankIsNoHeader();
    } else {
      WithoutNewlineStops(c);
      CommentStart(Outside, line);
      assert line[0] == ' ' && line[1] == '#';
      CommentIsNoHeader(line);
    }
  }

  lemma CommentIsNoHeader(line: string)
    requires |line| >= 2 && line[0] == ' ' && line[1] == '#'
    ensures HeaderOf(line).None?
  {
    hide HeaderOf;
    assert line[1..][0] == '#';
    assert SkipSpaces(line) == line[1..];
    SignIsNoHeader(line);
  }

  lemma SignIsNoHeader(line: string)
    requires SkipSpaces(line) != "" && SkipSpaces(line)[0] == '#'
    ensures HeaderOf(line).None?
  {
    hide HeaderOf, WithoutNewline, SkipSpaces;
    NewlineIsLast(line);
    SkipSame(line, WithoutNewline(line));
    NoBracketNoHeader(line);
  }

  // A comment starts with its sign.
  lemma {:induction false} CommentStart(m: Mode, s: string)
    ensures var c := CommentFrom(m, s); c != "" ==> c[0] == '#'
    decreases s
  {
    if s != "" { CommentStart(Step(m, s[0]), s[1..]); }
  }

  // The next line is joined to the first value: the second change alone gives the same text exactly if
  // that line is its own tail, a comment behind one space or nothing.
  lemma SecondAfterJoining(text: string, c: Setting, d: Setting, start: nat, i: nat)
    requires IsPlainKey(c.key) && c.section == d.section && c.key == d.key
    requires IsAt(SplitLines(text), EditOf(c), start, i) && i < |SplitLines(text)|
    requires !KeepsItsEnd(SplitLines(text), i) && !HasBreak(Literal(c.value))
    ensures Rendered(text, c).Some? && i + 1 < |SplitLines(text)|
    ensures Rendered(Rendered(text, c).value, d) == Rendered(text, d) <==>
      Tail(SplitLines(text)[i + 1]) == SplitLines(text)[i + 1]
  {
    var lines := SplitLines(text);
    hide Tail, Rewritten, MatchesKey, HeaderOf, IsAt, Patch, WellSplit, KeepsItsEnd, SplitLines;
    RenderedIs(text, c, start, i);
    NextIsJoined(lines, i, c.key, c.value);
    var x, next := Rewritten(lines[i], c.key, c.value), lines[i + 1];
    var joined := Dropped(lines, i + 1)[i := x + next];
    SameEditsMeet(lines, c, d, start, i);
    RenderedIs(text, d, start, i);
    TailOfJoined(lines[i], c.key, c.value, next);
    SecondOnJoined(lines, d, start, i, x + next, joined);
    JoinedTexts(lines, i, x + next, d.key, d.value);
    assert joined[i := Rewritten(x + next, d.key, d.value)] ==
      Dropped(lines, i + 1)[i := Rewritten(x + next, d.key, d.value)];
    if Tail(next) == next { OwnTailIsNoHeader(next); }
  }

  // ----- two separate changes -----------------------------------------------------------------------

  // A change after another, each of the text as it then is.
  ghost function RenderedThen(text: Option<string>, c: Setting): Option<string> {
    match text
    case None => None
    case Some(t) => Rendered(t, c)
  }

  ghost predicate IsFound(lines: seq<string>, c: Setting) {
    exists start: nat, i: nat :: IsAt(lines, EditOf(c), start, i)
  }

  // The line of the key.
  ghost function LineOf(lines: seq<string>, e: Edit): Option<nat> {
    if exists start: nat, i: nat :: IsAt(lines, e, start, i) then
      var start: nat, i: nat :| IsAt(lines, e, start, i);
      Some(i)
    else None
  }

  // The lines that are left to be found after a change: without the one it joins to that of its key.
  ghost function LinesLeft(lines: seq<string>, c: Setting): seq<string> {
    match LineOf(lines, EditOf(c))
    case None => lines
    case Some(i) => if i + 1 >= |lines| || KeepsItsEnd(lines, i) then lines else Dropped(lines, i + 1)
  }

  // Both keys are found, one among the lines that the change of the other leaves.
  ghost predicate Allows(lines: seq<string>, c: Setting, d: Setting) {
    IsFound(lines, c) && IsFound(LinesLeft(lines, c), d)
  }

  lemma LineIs(lines: seq<string>, e: Edit, start: nat, i: nat)
    requires IsAt(lines, e, start, i)
    ensures LineOf(lines, e) == Some(i)
  {
    var s: nat, j: nat :| IsAt(lines, e, s, j) && LineOf(lines, e) == Some(j);
    IsAtUnique(lines, e, start, i, s, j);
  }

  lemma LeftIs(lines: seq<string>, c: Setting, start: nat, i: nat)
    requires IsAt(lines, EditOf(c), start, i)
    ensures i < |lines| && LinesLeft(lines, c) == if KeepsItsEnd(lines, i) then lines else Dropped(lines, i + 1)
  {
    hide IsAt, LineOf, EndsLine, CommentFrom, EditOf;
    IsAtHits(lines, EditOf(c), start, i);
    LineIs(lines, EditOf(c), start, i);
  }

  // What is read after a change: the lines that are left, with the one of the key rewritten.
  lemma ReadAfter(text: string, c: Setting, start: nat, i: nat) returns (y: string)
    requires IsPlainKey(c.key) && IsAt(SplitLines(text), EditOf(c), start, i) && !HasBreak(Literal(c.value))
    ensures Rendered(text, c).Some? && i < |SplitLines(text)| && i < |LinesLeft(SplitLines(text), c)|
    ensures var lines := SplitLines(text);
            var x := Rewritten(lines[i], c.key, c.value);
            && SplitLines(Rendered(text, c).value) == LinesLeft(lines, c)[i := y]
            && LinesLeft(lines, c)[i] == lines[i] && MatchesKey(y, c.key) && MatchesKey(lines[i], c.key)
            && (KeepsItsEnd(lines, i) ==> y == x)
            && (!KeepsItsEnd(lines, i) ==> i + 1 < |lines| && y == x + lines[i + 1])
  {
    hide MatchesKey, Rewritten, Tail, SplitLines, IsAt, Patch, WellSplit, IsLine, KeepsItsEnd, LinesLeft, HasBreak;
    var lines := SplitLines(text);
    RenderedIs(text, c, start, i);
    LeftIs(lines, c, start, i);
    var x := Rewritten(lines[i], c.key, c.value);
    RewritingKeeps(lines[i], c.key, c.value);
    if KeepsItsEnd(lines, i) {
      y := x;
      LineStays(lines, i, c.key, c.value);
    } else {
      NextIsJoined(lines, i, c.key, c.value);
      y := x + lines[i + 1];
      NextIsThere(lines, i);
      TailOfJoined(lines[i], c.key, c.value, lines[i + 1]);
    }
  }

  lemma NextIsThere(lines: seq<string>, i: nat)
    requires WellSplit(lines) && i + 1 < |lines|
    ensures lines[i + 1] != ""
  {
    assert IsLine(lines[i + 1]);
  }

  // On such a line nothing else is found than before.
  lemma OtherIsFound(lines: seq<string>, c: Setting, d: Setting, i: nat, y: string, s: nat, j: nat)
    requires IsPlainKey(c.key) && IsPlainKey(d.key) && i < |lines| && MatchesKey(lines[i], c.key)
      && MatchesKey(y, c.key)
    ensures IsAt(lines[i := y], EditOf(d), s, j) <==> IsAt(lines, EditOf(d), s, j)
  {
    hide MatchesKey, HeaderOf, IsAt;
    MatchIsNoHeader(lines[i], c.key);
    MatchIsNoHeader(y, c.key);
    SameKeysMatch(lines[i], y, c.key, d.key);
    SameFoundOn(lines, EditOf(d), i, y, s, j);
  }

  lemma FoundAfter(text: string, c: Setting, d: Setting)
    requires IsPlainKey(c.key) && IsPlainKey(d.key) && !HasBreak(Literal(c.value))
    ensures RenderedThen(Rendered(text, c), d).Some? <==> Allows(SplitLines(text), c, d)
  {
    hide MatchesKey, Rewritten, IsAt, KeepsItsEnd, LinesLeft, HasBreak, SplitLines, EditOf, Concat, IsPlainKey;
    var lines := SplitLines(text);
    if IsFound(lines, c) {
      var start: nat, i: nat :| IsAt(lines, EditOf(c), start, i);
      var y := ReadAfter(text, c, start, i);
      var left, read := LinesLeft(lines, c), SplitLines(Rendered(text, c).value);
      forall s: nat, j: nat ensures IsAt(read, EditOf(d), s, j) <==> IsAt(left, EditOf(d), s, j) {
        OtherIsFound(left, c, d, i, y, s, j);
      }
    }
  }

  // A line holds one of two settings only.
  lemma DifferentLines(lines: seq<string>, c: Setting, d: Setting, s: nat, i: nat, s': nat, j: nat)
    requires IsPlainKey(c.key) && IsPlainKey(d.key) && (c.section != d.section || c.key != d.key)
    requires IsAt(lines, EditOf(c), s, i) && IsAt(lines, EditOf(d), s', j)
    ensures i != j
  {
    RewritingLeavesPlaces(c, d);
    RewritingLeavesPlaces(d, c);
    PlacesAreDistinct(lines, EditOf(c), EditOf(d), s, i, s', j);
  }

  // Where the other is found, as a line of the text and as one of those that are left.
  lemma WhereOtherIs(lines: seq<string>, c: Setting, d: Setting, s: nat, i: nat, s0: nat, j: nat, s': nat, j': nat)
    requires IsPlainKey(c.key) && IsPlainKey(d.key) && (c.section != d.section || c.key != d.key)
    requires IsAt(lines, EditOf(c), s, i) && IsAt(lines, EditOf(d), s0, j)
      && IsAt(LinesLeft(lines, c), EditOf(d), s', j')
    ensures i != j && i < |lines| && j < |lines|
    ensures KeepsItsEnd(lines, i) ==> j' == j
    ensures !KeepsItsEnd(lines, i) ==> j != i + 1 && j' == if j <= i then j else j - 1
  {
    hide IsAt, KeepsItsEnd, LinesLeft, EditOf, IsPlainKey;
    LeftIs(lines, c, s, i);
    IsAtHits(lines, EditOf(d), s0, j);
    DifferentLines(lines, c, d, s, i, s0, j);
    if KeepsItsEnd(lines, i) {
      IsAtUnique(lines, EditOf(d), s0, j, s', j');
    } else {
      WhereWithout(lines, d, i + 1, s0, j, s', j');
    }
  }

  lemma WhereWithout(lines: seq<string>, d: Setting, k: nat, s0: nat, j: nat, s': nat, j': nat)
    requires IsPlainKey(d.key) && k < |lines|
    requires IsAt(lines, EditOf(d), s0, j) && IsAt(Dropped(lines, k), EditOf(d), s', j')
    ensures j != k && j' == if j < k then j else j - 1
  {
    hide MatchesKey, HeaderOf, IsPlace;
    var e := EditOf(d);
    MapAt(e.header, lines, k, lines[k]);
    MapAt(e.hits, lines, k, lines[k]);
    MapDropped(e.header, lines, k);
    MapDropped(e.hits, lines, k);
    if MatchesKey(lines[k], d.key) { MatchIsNoHeader(lines[k], d.key); }
    SamePlaceWithout(Map(e.header, lines), Map(e.hits, lines), d.section, s0, j, k, s', j');
  }

  lemma JoinedAndChanged(lines: seq<string>, i: nat, x: string, j: nat, j': nat, z: string)
    requires i + 1 < |lines| && j < |lines| && j != i && j != i + 1 && j' == if j <= i then j else j - 1
    ensures Concat(Dropped(lines, i + 1)[i := x + lines[i + 1]][j' := z]) == Concat(lines[i := x][j := z])
  {
    var other := lines[j := z];
    assert Dropped(lines, i + 1)[i := x + lines[i + 1]][j' := z] == Dropped(other, i + 1)[i := x + other[i + 1]];
    SameText(other, i, x);
    assert other[i := x] == lines[i := x][j := z];
  }

  // If the other is found after the one, both lines of the text are rewritten.
  lemma OneThenOther(text: string, c: Setting, d: Setting, s: nat, i: nat, s0: nat, j: nat)
    requires IsPlainKey(c.key) && IsPlainKey(d.key) && (c.section != d.section || c.key != d.key)
    requires !HasBreak(Literal(c.value)) && IsFound(LinesLeft(SplitLines(text), c), d)
    requires IsAt(SplitLines(text), EditOf(c), s, i) && IsAt(SplitLines(text), EditOf(d), s0, j)
    ensures i < |SplitLines(text)| && j < |SplitLines(text)| && i != j
    ensures var lines := SplitLines(text);
            RenderedThen(Rendered(text, c), d) ==
            Some(Concat(lines[i := Rewritten(lines[i], c.key, c.value)][j := Rewritten(lines[j], d.key, d.value)]))
  {
    hide MatchesKey, HeaderOf, Rewritten, SplitLines, IsAt, KeepsItsEnd, LinesLeft, HasBreak, Concat, IsPlainKey, Patch;
    var lines := SplitLines(text);
    var left := LinesLeft(lines, c);
    var s': nat, j': nat :| IsAt(left, EditOf(d), s', j');
    var y := ReadAfter(text, c, s, i);
    LeftIs(lines, c, s, i);
    WhereOtherIs(lines, c, d, s, i, s0, j, s', j');
    OtherIsFound(left, c, d, i, y, s', j');
    PatchesAt(left[i := y], EditOf(d), s', j');
    var x, z := Rewritten(lines[i], c.key, c.value), Rewritten(lines[j], d.key, d.value);
    assert left[i := y][j'] == lines[j];
    if !KeepsItsEnd(lines, i) { JoinedAndChanged(lines, i, x, j, j', z); }
  }

  lemma TwoReplacements(lines: seq<string>, i: nat, x: string, j: nat, z: string)
    requires i < |lines| && j < |lines| && i != j
    ensures lines[i := x][j := z] == lines[j := z][i := x]
  {
  }

  // Two separate changes whose values are each on one line give the same text in either order, or fail in
  // both, exactly if each order finds both keys or neither does.
  lemma SeparateChangesCommute(text: string, c: Setting, d: Setting)
    requires IsPlainKey(c.key) && IsPlainKey(d.key) && (c.section != d.section || c.key != d.key)
    requires !HasBreak(Literal(c.value)) && !HasBreak(Literal(d.value))
    ensures RenderedThen(Rendered(text, c), d) == RenderedThen(Rendered(text, d), c) <==>
      (Allows(SplitLines(text), c, d) <==> Allows(SplitLines(text), d, c))
  {
    hide MatchesKey, HeaderOf, Rewritten, SplitLines, IsAt, LinesLeft, HasBreak, IsPlainKey, Rendered;
    var lines := SplitLines(text);
    FoundAfter(text, c, d);
    FoundAfter(text, d, c);
    if Allows(lines, c, d) && Allows(lines, d, c) {
      var s: nat, i: nat :| IsAt(lines, EditOf(c), s, i);
      var s': nat, j: nat :| IsAt(lines, EditOf(d), s', j);
      OneThenOther(text, c, d, s, i, s', j);
      OneThenOther(text, d, c, s', j, s, i);
      TwoReplacements(lines, i, Rewritten(lines[i], c.key, c.value), j, Rewritten(lines[j], d.key, d.value));
    }
  }

  // So they do if no line is joined: the lines of both keys, if they are found, keep their ends.
  lemma ChangesOfKeptLinesCommute(text: string, c: Setting, d: Setting)
    requires IsPlainKey(c.key) && IsPlainKey(d.key) && (c.section != d.section || c.key != d.key)
    requires !HasBreak(Literal(c.value)) && !HasBreak(Literal(d.value))
    requires var lines := SplitLines(text); LinesLeft(lines, c) == lines && LinesLeft(lines, d) == lines
    ensures RenderedThen(Rendered(text, c), d) == RenderedThen(Rendered(text, d), c)
  {
    hide LinesLeft, IsAt, SplitLines, Rendered, RenderedThen, IsPlainKey, HasBreak, Literal;
    SeparateChangesCommute(text, c, d);
  }

  // ----- the second change after a broken value --------------------------------------------------------

  // No comment starts in the front part of something closed.
  lemma FrontIsCalm(whole: string, n: nat)
    requires IsClosed(whole) && n <= |whole|
    ensures CommentFrom(Outside, whole[..n]) == ""
  {
    assert whole == whole[..n] + whole[n..];
    WalkOn(Outside, whole[..n], whole[n..]);
    CalmHasNoComment(Outside, whole[..n]);
  }

  lemma NothingAfter(f: string)
    requires CommentFrom(Outside, f) == "" && f != "" && f[|f| - 1] != '\n'
    ensures Tail(f) == ""
  {
  }

  lemma FrontOfSum(a: string, b: string, n: nat)
    requires n <= |b|
    ensures (a + b)[..|a| + n] == a + b[..n]
  {
  }

  lemma BareTail(line: string, key: string, lit: string, n: nat, f: string)
    requires IsPlainKey(key) && IsClosed(lit) && 0 < n <= |lit| && lit[n - 1] != '\n'
    requires f == Head(line, key) + lit[..n]
    ensures Tail(f) == ""
  {
    HeadIsClosed(line, key);
    ClosedAfterClosed(Head(line, key), lit);
    FrontOfSum(Head(line, key), lit, n);
    FrontIsCalm(Head(line, key) + lit, |Head(line, key)| + n);
    assert f[|f| - 1] == lit[n - 1];
    NothingAfter(f);
  }

  // The first fragment still holds the key, has no comment, and does not end in a line feed.
  lemma FragmentIsBare(line: string, key: string, lit: string, p: nat, f: string)
    requires IsPlainKey(key) && IsClosed(lit) && p < |lit| && lit[p] != '\n'
    requires f == Head(line, key) + lit[..p + 1]
    ensures MatchesKey(f, key) && HeaderOf(f).None? && Indent(f) == Indent(line) && Tail(f) == ""
  {
    BareTail(line, key, lit, p + 1, f);
    BareKey(line, key, lit[..p + 1], f);
  }

  lemma BareKey(line: string, key: string, rest: string, f: string)
    requires IsPlainKey(key) && f == Head(line, key) + rest
    ensures MatchesKey(f, key) && HeaderOf(f).None? && Indent(f) == Indent(line)
  {
    KeyLine(line, key, rest);
    MatchIsNoHeader(f, key);
  }

  lemma {:induction false} MapOfConcat<B>(f: string -> B, a: seq<string>, b: seq<string>)
    ensures Map(f, a + b) == Map(f, a) + Map(f, b)
  {
    if a == [] {
      EmptyConcat(b);
      EmptyConcat(Map(f, b));
    } else {
      MapOfConcat(f, a[1..], b);
      TailOfConcat(a, b);
      Associative([f(a[0])], Map(f, a[1..]), Map(f, b));
    }
  }

  lemma MapFront<B>(f: string -> B, lines: seq<string>, other: seq<string>, i: nat)
    requires i <= |lines| && i <= |other| && lines[..i] == other[..i]
    ensures forall j :: 0 <= j < i ==> Map(f, lines)[j] == Map(f, other)[j]
  {
    assert lines == lines[..i] + lines[i..] && other == other[..i] + other[i..];
    MapOfConcat(f, lines[..i], lines[i..]);
    MapOfConcat(f, other[..i], other[i..]);
  }

  // With the lines before it unchanged, the key can be found on line i only.
  lemma OnlyThere(lines: seq<string>, other: seq<string>, d: Edit, start: nat, i: nat, s': nat, i': nat)
    requires IsAt(lines, d, start, i) && i < |lines| && i < |other| && lines[..i] == other[..i]
    requires d.hits(other[i]) && d.header(other[i]).None?
    requires IsAt(other, d, s', i')
    ensures i' == i
  {
    var h, hits := Map(d.header, other), Map(d.hits, other);
    MapFront(d.header, lines, other, i);
    MapAt(d.header, other, i, other[i]);
    MapAt(d.hits, other, i, other[i]);
    assert h[start] == Some(d.section);
    assert s' == start;
    assert InSection(h, start, i);
  }

  lemma LengthAround(a: seq<string>, x: string, b: seq<string>)
    ensures |Concat(a + ([x] + b))| == |Concat(a)| + |x| + |Concat(b)|
  {
    ConcatInTwoParts(a, [x] + b);
    assert ([x] + b)[1..] == b;
  }

  lemma Pieces(h: string, lit: string, t: string, p: nat)
    requires p < |lit|
    ensures h + lit[..p] + [lit[p]] == h + lit[..p + 1]
    ensures h + lit[..p + 1] + (lit[p + 1..] + t) == h + (lit + t)
  {
  }

  lemma FullFragment(front: string, c: char)
    requires !HasBreak(front) && IsBreak(c)
    ensures IsFull(front + [c]) && (front + [c])[|front|] == c
  {
    assert (front + [c])[..|front|] == front;
  }

  lemma FrontStart(lines: seq<string>, i: nat, f: string)
    requires WellSplit(lines) && i < |lines| && f != "" && (f[0] == '\n' ==> lines[i][0] == '\n')
    ensures i > 0 && f[0] == '\n' ==> lines[i - 1][|lines[i - 1]| - 1] != '\r'
  {
    if i > 0 { assert EndsBefore(lines[i - 1], lines[i]); }
  }

  // The text behind a first fragment is split on its own.
  lemma FragmentsAround(lines: seq<string>, i: nat, f: string, z: string)
    requires WellSplit(lines) && i < |lines| && IsFull(f) && f[|f| - 1] != '\r'
    requires i > 0 && f[0] == '\n' ==> lines[i - 1][|lines[i - 1]| - 1] != '\r'
    ensures SplitLines(Concat(lines[i := f + z])) == lines[..i] + ([f] + SplitLines(z + Concat(lines[i + 1..])))
  {
    PartsOfSplit(lines, i);
    hide SplitLines, Concat, WellSplit;
    var front, after := Concat(lines[..i]), Concat(lines[i + 1..]);
    ConcatAround(lines, i, f + z);
    Associative(f, z, after);
    SplitFirstLine(f, z + after);
    SplitOfSum(front, f + (z + after));
  }

  // The fragments of the broken line, and all that follows, where the line was.
  lemma BrokenLines(lines: seq<string>, i: nat, key: string, v: Value) returns (p: nat, rest: seq<string>)
    requires WellSplit(lines) && i < |lines| && MatchesKey(lines[i], key) && IsPlainKey(key) && HasBreak(Literal(v))
    ensures var lit := Literal(v);
            && p + 1 < |lit| && lit[p] != '\n'
            && SplitLines(Concat(lines[i := Rewritten(lines[i], key, v)])) ==
               lines[..i] + ([Head(lines[i], key) + lit[..p + 1]] + rest)
            && Concat(rest) == lit[p + 1..] + Tail(lines[i]) + Concat(lines[i + 1..])
  {
    var lit, head := Literal(v), Head(lines[i], key);
    p := BrokenLiteral(v);
    HeadHasNoBreak(lines[i], key);
    BreaksOfConcat(head, lit[..p]);
    FullFragment(head + lit[..p], lit[p]);
    Pieces(head, lit, Tail(lines[i]), p);
    rest := SplitLines(lit[p + 1..] + Tail(lines[i]) + Concat(lines[i + 1..]));
    ConcatOfSplit(lit[p + 1..] + Tail(lines[i]) + Concat(lines[i + 1..]));
    RewrittenStart(lines[i], key, v);
    assert (head + lit[..p + 1])[0] == Rewritten(lines[i], key, v)[0];
    FrontStart(lines, i, head + lit[..p + 1]);
    FragmentsAround(lines, i, head + lit[..p + 1], lit[p + 1..] + Tail(lines[i]));
  }

  // Behind a first fragment something of the first value is left, which the second change alone has not.
  lemma DifferentTexts(lines: seq<string>, i: nat, f: string, rest: seq<string>, d: Setting)
    requires i < |lines| && Indent(f) == Indent(lines[i]) && Tail(f) == ""
    requires |Concat(rest)| > |Tail(lines[i])| + |Concat(lines[i + 1..])|
    ensures var other := lines[..i] + ([f] + rest);
            Concat(other[i := Rewritten(f, d.key, d.value)]) != Concat(lines[i := Rewritten(lines[i], d.key, d.value)])
  {
    var y, z := Rewritten(f, d.key, d.value), Rewritten(lines[i], d.key, d.value);
    assert |z| == |y| + |Tail(lines[i])|;
    ReplaceMiddle(lines[..i], f, rest, y, i);
    ReplaceIsParts(lines, i, z);
    LengthAround(lines[..i], y, rest);
    LengthAround(lines[..i], z, lines[i + 1..]);
  }

  // A value that breaks its line: a second change leaves the rest of the first value behind, or fails.
  lemma SecondChangeDiffers(text: string, c: Setting, d: Setting, start: nat, i: nat)
    requires IsPlainKey(c.key) && c.section == d.section && c.key == d.key
    requires IsAt(SplitLines(text), EditOf(c), start, i) && HasBreak(Literal(c.value))
    ensures Rendered(text, c).Some? && Rendered(Rendered(text, c).value, d) != Rendered(text, d)
  {
    var lines, lit := SplitLines(text), Literal(c.value);
    RenderedIs(text, c, start, i);
    var p, rest := BrokenLines(lines, i, c.key, c.value);
    var f := Head(lines[i], c.key) + lit[..p + 1];
    var other := SplitLines(Rendered(text, c).value);
    LiteralIsClosed(c.value);
    FragmentIsBare(lines[i], c.key, lit, p, f);
    ReplaceMiddle(lines[..i], f, rest, f, i);
    SameEditsMeet(lines, c, d, start, i);
    SecondChangeThere(lines, other, d, start, i);
    RenderedIs(text, d, start, i);
    DifferentTexts(lines, i, f, rest, d);
  }

  // Writing twice is writing last, exactly if the first value does not break its line and the line keeps
  // its end, or else the line that is joined to it is its own tail.
  predicate WritesOver(lines: seq<string>, i: nat, first: Value)
    requires i < |lines|
  {
    && !HasBreak(Literal(first))
    && (KeepsItsEnd(lines, i) || Tail(lines[i + 1]) == lines[i + 1])
  }

  lemma LastWriteWinsUnlessBroken(text: string, c: Setting, d: Setting, start: nat, i: nat)
    requires IsPlainKey(c.key) && c.section == d.section && c.key == d.key
    requires IsAt(SplitLines(text), EditOf(c), start, i)
    ensures i < |SplitLines(text)| && Rendered(text, c).Some?
    ensures Rendered(Rendered(text, c).value, d) == Rendered(text, d) <==> WritesOver(SplitLines(text), i, c.value)
  {
    RenderedIs(text, c, start, i);
    if HasBreak(Literal(c.value)) {
      SecondChangeDiffers(text, c, d, start, i);
    } else if KeepsItsEnd(SplitLines(text), i) {
      SecondOnSameLines(text, c, d, start, i);
    } else {
      SecondAfterJoining(text, c, d, start, i);
    }
  }

  // A text that does not parse is not accepted.
  ghost function Accepted(parses: string -> bool, text: string, c: Setting): Option<string> {
    match Rendered(text, c)
    case None => None
    case Some(t) => if parses(t) then Some(t) else None
  }

  // With the parser in between: otherwise the second change can only have the effect of the second alone
  // by both being refused.
  lemma LastAcceptedWriteWins(parses: string -> bool, text: string, c: Setting, d: Setting, start: nat, i: nat)
    requires IsPlainKey(c.key) && c.section == d.section && c.key == d.key
    requires IsAt(SplitLines(text), EditOf(c), start, i) && Accepted(parses, text, c).Some?
    ensures i < |SplitLines(text)|
    ensures var again, alone := Accepted(parses, Accepted(parses, text, c).value, d), Accepted(parses, text, d);
            again == alone <==> WritesOver(SplitLines(text), i, c.value) || (again.None? && alone.None?)
  {
    LastWriteWinsUnlessBroken(text, c, d, start, i);
  }

  // ----- a line that is joined ------------------------------------------------------------------------

  lemma SectionName(line: string)
    requires |line| == 4 && line[0] == '[' && line[1] == 'a' && line[2] == ']' && line[3] == '\n'
    ensures HeaderOf(line) == Some([line[1]])
  {
    var s := line[..3];
    assert WithoutNewline(line) == s && SkipSpaces(s) == s;
    var r := s[1..];
    assert r[0] == 'a' && r[1..][0] == ']' && IndexOf(r[1..], ']') == Some(0);
    assert IndexOf(r, ']') == Some(1);
    assert s[3..] == "" && s[1..2] == [line[1]];
  }

  lemma OtherStart(line: string, key: string)
    requires line != "" && key != "" && !IsSpace(line[0]) && line[0] != key[0]
    ensures !MatchesKey(line, key)
  {
    assert SkipSpaces(line) == line;
  }

  lemma SectionIsHeader()
    ensures HeaderOf("[a]\n") == Some("a") && !MatchesKey("[a]\n", "k") && IsFull("[a]\n")
  {
    hide HeaderOf, MatchesKey, HasBreak;
    SectionName("[a]\n");
    assert ["[a]\n"[1]] == "a";
    OtherStart("[a]\n", "k");
    NoBreakInName("[a]");
    FullFragment("[a]", '\n');
    assert "[a]" + ['\n'] == "[a]\n";
  }

  lemma NoBreakInName(s: string)
    requires forall c :: c in s ==> c > '\r' && c < '\U{85}' && c > '\U{1e}'
    ensures !HasBreak(s)
  {
  }

  // A section, the line of its key, and perhaps one more line.
  lemma KeyIsFound(first: string, line: string, v: Value, more: seq<string>)
    requires HeaderOf(first) == Some("a") && !MatchesKey(first, "k") && MatchesKey(line, "k") && |more| <= 1
    requires more != [] ==> HeaderOf(more[0]).None? && !MatchesKey(more[0], "k")
    ensures IsAt([first, line] + more, EditOf(Setting("a", "k", v)), 0, 1)
  {
    hide MatchesKey, HeaderOf;
    var lines, e := [first, line] + more, EditOf(Setting("a", "k", v));
    MatchIsNoHeader(line, "k");
    forall j | 0 <= j < |lines|
      ensures Map(e.header, lines)[j] == HeaderOf(lines[j]) && Map(e.hits, lines)[j] == MatchesKey(lines[j], "k")
    {
      MapAt(e.header, lines, j, lines[j]);
      MapAt(e.hits, lines, j, lines[j]);
    }
    assert InSection(Map(e.header, lines), 0, 1);
  }

  lemma StartsWithKey(rest: string)
    ensures MatchesKey("k = " + rest, "k") && Indent("k = " + rest) == ""
  {
    var line := "k = " + rest;
    assert SkipSpaces(line) == line && line[1..] == " = " + rest;
    EqualsAfterSpace(rest);
  }

  lemma OldLineIs(line: string)
    requires line == "k = " + ['"', '\U{2028}']
    ensures IsFull(line) && Tail(line) == "" && line[5] == '\U{2028}'
  {
    hide IsClosed, HasBreak;
    var quoted := ['"', '\U{2028}'];
    PlainIsClosed("k = ");
    BehindClosed("k = ", quoted);
    QuoteHasNoTail(quoted);
    NoBreakInName("k = \"");
    FullFragment("k = \"", '\U{2028}');
    assert line == "k = \"" + ['\U{2028}'];
  }

  lemma QuoteHasNoTail(s: string)
    requires |s| == 2 && s[0] == '"' && s[1] == '\U{2028}'
    ensures Tail(s) == ""
  {
    assert s[1..][1..] == "";
    assert CommentFrom(Inside('"'), s[1..]) == "";
  }

  // A line that is a comment from its first character on.
  lemma CommentLine(line: string)
    requires |line| >= 2 && line[0] == '#' && line[|line| - 1] == '\n' && line[|line| - 2] != '\n'
    ensures Tail(line) == " " + line && HeaderOf(line).None?
  {
    hide HeaderOf, SkipSpaces;
    OneNewlineLess(line);
    CommentFromSign(line);
    var body := line[..|line| - 1];
    assert Tail(line) == " " + body + "\n";
    assert " " + body + "\n" == " " + line;
    HashFirst(line);
  }

  lemma OneNewlineLess(line: string)
    requires |line| >= 2 && line[|line| - 1] == '\n' && line[|line| - 2] != '\n'
    ensures WithoutNewline(line) == line[..|line| - 1] && EndsLine(line)
  {
    var body := line[..|line| - 1];
    assert WithoutNewline(body) == body;
  }

  lemma CommentFromSign(line: string)
    requires line != "" && line[0] == '#'
    ensures CommentFrom(Outside, line) == line
  {
  }

  lemma HashFirst(line: string)
    requires line != "" && line[0] == '#'
    ensures HeaderOf(line).None?
  {
    assert SkipSpaces(line) == line;
    SignIsNoHeader(line);
  }

  lemma NextLineIs()
    ensures var next := "#\"\n";
            IsFull(next) && Tail(next) == " #\"\n" && HeaderOf(next).None? && !MatchesKey(next, "k")
  {
    hide Tail, HeaderOf, MatchesKey, HasBreak;
    CommentLine("#\"\n");
    OtherStart("#\"\n", "k");
    NoBreakInName("#\"");
    FullFragment("#\"", '\n');
    assert "#\"" + ['\n'] == "#\"\n" && " " + "#\"\n" == " #\"\n";
  }

  lemma NewLineIs(line: string)
    requires line == "k = 1" + "#\"\n"
    ensures IsFull(line) && Tail(line) == " #\"\n"
  {
    hide IsFull, Tail, CommentFrom, IsClosed, HeaderOf, MatchesKey;
    NextLineIs();
    FullBehind("k = 1", "#\"\n");
    PlainIsClosed("k = 1");
    BehindClosed("k = 1", "#\"\n");
  }

  lemma FullBehind(p: string, x: string)
    requires !HasBreak(p) && IsFull(x)
    ensures IsFull(p + x)
  {
    PrefixedIsLine(p, x);
  }

  lemma BehindClosed(p: string, x: string)
    requires IsClosed(p) && x != ""
    ensures Tail(p + x) == Tail(x)
  {
    WalkOn(Outside, p, x);
    EndOfConcat(p, x);
  }

  // A text of full lines is split into them.
  lemma FullLines(lines: seq<string>)
    requires forall j :: 0 <= j < |lines| ==> IsFull(lines[j]) && lines[j][|lines[j]| - 1] != '\r'
    ensures SplitLines(Concat(lines)) == lines
  {
    forall j | 0 <= j < |lines| - 1 ensures EndsBefore(lines[j], lines[j + 1]) {
      assert IsFull(lines[j]);
    }
    SplitOfConcat(lines);
  }

  lemma BareLineIs(line: string, v: Value)
    requires Indent(line) == ""
    ensures Rewritten(line, "k", v) == "k = " + Literal(v) + Tail(line)
  {
    hide Literal, Tail;
    assert Head(line, "k") == "k = ";
    RewrittenIs(line, "k", v);
  }

  lemma KeyIsPlain()
    ensures IsPlainKey("k")
  {
  }

  // The text of such lines, changed.
  lemma ChangedText(text: string, first: string, line: string, v: Value, more: seq<string>)
    requires HeaderOf(first) == Some("a") && !MatchesKey(first, "k") && MatchesKey(line, "k") && |more| <= 1
    requires more != [] ==> HeaderOf(more[0]).None? && !MatchesKey(more[0], "k")
    requires SplitLines(text) == [first, line] + more && Indent(line) == ""
    ensures Rendered(text, Setting("a", "k", v)) == Some(first + (("k = " + Literal(v) + Tail(line)) + Concat(more)))
  {
    hide MatchesKey, HeaderOf, IsAt, Literal, Tail, SplitLines, Rewritten, Indent, IsPlainKey, WellSplit, IsLine,
      EditOf,
      Rendered, Concat, Patch;
    var x := "k = " + Literal(v) + Tail(line);
    TwoAndMore(first, x, more);
    KeyIsFound(first, line, v, more);
    KeyIsPlain();
    RenderedIs(text, Setting("a", "k", v), 0, 1);
    BareLineIs(line, v);
    assert ([first, line] + more)[1 := x] == [first, x] + more;
  }

  lemma TwoAndMore(a: string, b: string, more: seq<string>)
    ensures Concat([a, b] + more) == a + (b + Concat(more))
  {
    assert ([a, b] + more)[1..] == [b] + more && ([b] + more)[1..] == more;
  }

  lemma DigitLiterals()
    ensures Literal(Whole(1)) == "1" && Literal(Whole(2)) == "2"
  {
  }

  lemma OneMoreLine(next: string)
    ensures Concat([next]) == next && Concat([]) == ""
  {
    assert [next][1..] == [];
  }

  // The text with the old line, changed.
  lemma OldTextIs(first: string, line: string, next: string, v: Value)
    requires first == "[a]\n" && line == "k = " + ['"', '\U{2028}'] && next == "#\"\n"
    ensures Rendered(first + (line + next), Setting("a", "k", v)) == Some(first + ("k = " + Literal(v) + next))
  {
    hide MatchesKey, HeaderOf, IsFull, Literal, Tail, Rendered, Indent, CommentFrom, Concat, SplitLines;
    SectionIsHeader();
    OldLineIs(line);
    NextLineIs();
    StartsWithKey(['"', '\U{2028}']);
    OneMoreLine(next);
    TwoAndMore(first, line, [next]);
    FullLines([first, line] + [next]);
    ChangedText(first + (line + next), first, line, v, [next]);
    assert "k = " + Literal(v) + "" == "k = " + Literal(v);
  }

  // The text with the new line, changed once more.
  lemma NewTextIs(first: string, line: string, next: string, v: Value)
    requires first == "[a]\n" && next == "#\"\n" && line == "k = 1" + next && line == "k = " + ("1" + next)
    ensures Rendered(first + line, Setting("a", "k", v)) == Some(first + ("k = " + Literal(v) + (" " + next)))
  {
    hide MatchesKey, HeaderOf, IsFull, Literal, Tail, Rendered, Indent, CommentFrom, Concat, SplitLines;
    SectionIsHeader();
    NewLineIs(line);
    StartsWithKey("1" + next);
    OneMoreLine("");
    assert line + "" == line;
    TwoAndMore(first, line, []);
    FullLines([first, line] + []);
    ChangedText(first + line, first, line, v, []);
    assert " " + next == " #\"\n";
    assert "k = " + Literal(v) + (" " + next) + "" == "k = " + Literal(v) + (" " + next);
  }

  // An old value with the line separator in front of the sign of a comment: changing it to 1 and then to
  // 2 leaves a space that changing it to 2 does not, though neither literal holds a break.
  lemma SpaceIsLeft(first: string, old_: string, next: string)
    requires first == "[a]\n" && old_ == "k = " + ['"', '\U{2028}'] && next == "#\"\n"
    ensures var one, two := Setting("a", "k", Whole(1)), Setting("a", "k", Whole(2));
            && Rendered(first + (old_ + next), one) == Some(first + ("k = 1" + next))
            && Rendered(first + ("k = 1" + next), two) == Some(first + ("k = 2" + (" " + next)))
            && Rendered(first + (old_ + next), two) == Some(first + ("k = 2" + next))
  {
    hide Rendered, Literal;
    DigitLiterals();
    OldTextIs(first, old_, next, Whole(1));
    OldTextIs(first, old_, next, Whole(2));
    assert "k = " + "1" == "k = 1" && "k = " + "2" == "k = 2";
    assert "k = 1" + next == "k = " + ("1" + next);
    NewTextIs(first, "k = 1" + next, next, Whole(2));
  }

  // A section and the lines of two keys.
  lemma TwoKeysAreFound(first: string, line: string, next: string, v: Value)
    requires HeaderOf(first) == Some("a") && !MatchesKey(first, "k") && !MatchesKey(first, "m")
    requires MatchesKey(line, "k") && MatchesKey(next, "m")
    ensures var lines := [first, line, next];
            && IsAt(lines, EditOf(Setting("a", "k", v)), 0, 1) && IsAt(lines, EditOf(Setting("a", "m", v)), 0, 2)
            && !IsFound([first, line], Setting("a", "m", v))
  {
    hide MatchesKey, HeaderOf, IsPlainKey;
    var lines, k, m := [first, line, next], EditOf(Setting("a", "k", v)), EditOf(Setting("a", "m", v));
    KeysArePlain();
    MatchIsNoHeader(line, "k");
    MatchIsNoHeader(next, "m");
    SameKeysMatch(line, line, "k", "m");
    SameKeysMatch(next, next, "m", "k");
    forall j | 0 <= j < |lines|
      ensures Map(HeaderOf, lines)[j] == HeaderOf(lines[j])
      ensures Map(k.hits, lines)[j] == MatchesKey(lines[j], "k") && Map(m.hits, lines)[j] == MatchesKey(lines[j], "m")
    {
      MapAt(HeaderOf, lines, j, lines[j]);
      MapAt(k.hits, lines, j, lines[j]);
      MapAt(m.hits, lines, j, lines[j]);
    }
    assert InSection(Map(HeaderOf, lines), 0, 1) && InSection(Map(HeaderOf, lines), 0, 2);
    forall s: nat, j: nat ensures !IsAt([first, line], m, s, j) {
      if IsAt([first, line], m, s, j) { IsAtHits([first, line], m, s, j); }
    }
  }

  lemma KeysArePlain()
    ensures IsPlainKey("k") && IsPlainKey("m")
  {
  }

  // An old value with the line separator in front of what looks like another key: changing the key joins
  // that line to it, and the other is not found any more; the other way round both are changed.
  lemma KeyIsLost(first: string, old_: string, next: string, v: Value)
    requires first == "[a]\n" && old_ == "k = " + ['"', '\U{2028}'] && next == "m = " + "1\"\n" && !HasBreak(Literal(v))
    ensures var k, m := Setting("a", "k", v), Setting("a", "m", v);
            var text := first + (old_ + next);
            RenderedThen(Rendered(text, k), m).None? && RenderedThen(Rendered(text, m), k).Some?
  {
    hide MatchesKey, HeaderOf, IsFull, Literal, Tail, Rendered, Indent, CommentFrom, Concat, SplitLines, IsAt, HasBreak,
      LinesLeft, KeepsItsEnd;
    var lines, k, m := [first, old_, next], Setting("a", "k", v), Setting("a", "m", v);
    ThreeFullLines(first, old_, next);
    KeysArePlain();
    TwoKeysAreFound(first, old_, next, v);
    OldIsJoined(lines);
    LeftIs(lines, k, 0, 1);
    LeftIs(lines, m, 0, 2);
    assert Dropped(lines, 2) == [first, old_];
    FoundAfter(first + (old_ + next), k, m);
    FoundAfter(first + (old_ + next), m, k);
  }

  lemma OldIsJoined(lines: seq<string>)
    requires |lines| == 3 && lines[1] == "k = " + ['"', '\U{2028}']
    ensures !KeepsItsEnd(lines, 1) && KeepsItsEnd(lines, 2)
  {
    hide CommentFrom;
    OldLineIs(lines[1]);
  }

  lemma ThreeFullLines(first: string, old_: string, next: string)
    requires first == "[a]\n" && old_ == "k = " + ['"', '\U{2028}'] && next == "m = " + "1\"\n"
    ensures SplitLines(first + (old_ + next)) == [first, old_, next]
    ensures HeaderOf(first) == Some("a") && !MatchesKey(first, "k") && !MatchesKey(first, "m")
    ensures MatchesKey(old_, "k") && MatchesKey(next, "m")
  {
    hide MatchesKey, HeaderOf, IsFull, Tail, Indent, CommentFrom, Concat, SplitLines, HasBreak;
    SectionIsHeader();
    OtherStart(first, "m");
    OldLineIs(old_);
    StartsWithKey(['"', '\U{2028}']);
    StartsWithOther("1\"\n");
    NoBreakInName("m = 1\"");
    FullFragment("m = 1\"", '\n');
    assert "m = 1\"" + ['\n'] == next;
    OneMoreLine(next);
    TwoAndMore(first, old_, [next]);
    FullLines([first, old_] + [next]);
  }

  lemma StartsWithOther(rest: string)
    ensures MatchesKey("m = " + rest, "m")
  {
    var line := "m = " + rest;
    assert SkipSpaces(line) == line && line[1..] == " = " + rest;
    EqualsAfterSpace(rest);
  }

  // JSON keeps the line separator, which ends a line here.
  lemma SeparatorBreaksItsLine(s: string)
    requires '\U{2028}' in s
    ensures HasBreak(Literal(Text(s)))
  {
    EscapedKeeps(s);
    assert '\U{2028}' in Literal(Text(s));
  }

  lemma {:induction false} EscapedKeeps(s: string)
    requires '\U{2028}' in s
    ensures '\U{2028}' in EscapedAll(s)
  {
    if s[0] == '\U{2028}' {
      assert Escaped(s[0])[0] == '\U{2028}';
    } else {
      EscapedKeeps(s[1..]);
    }
  }
}
