/** Lines of a settings file, the literals written into them, and the scan for a trailing comment. */
module TomlLines {
  import opened Chords
  import opened Sequences

  // ----- lines ------------------------------------------------------------------------------------

  // Where str.splitlines breaks a line; a carriage return and a line feed break it once.
  predicate IsBreak(c: char) {
    || '\n' <= c <= '\r' || '\U{1c}' <= c <= '\U{1e}' || c == '\U{85}' || c == '\U{2028}' || c == '\U{2029}'
  }

  function SplitLines(t: string): (lines: seq<string>)
    ensures t != "" ==> lines != []
    ensures forall i :: 0 <= i < |lines| ==> lines[i] != ""
  {
    if t == "" then []
    else if "\r\n" <= t then ["\r\n"] + SplitLines(t[2..])
    else if IsBreak(t[0]) then [[t[0]]] + SplitLines(t[1..])
    else
      var rest := SplitLines(t[1..]);
      if rest == [] then [[t[0]]] else [[t[0]] + rest[0]] + rest[1..]
  }

  function Concat(lines: seq<string>): string {
    if lines == [] then "" else lines[0] + Concat(lines[1..])
  }

  predicate HasBreak(s: string) {
    exists c | c in s :: IsBreak(c)
  }

  // Nothing but the end of the line breaks it.
  predicate IsLine(x: string) {
    x != "" && (!HasBreak(x[..|x| - 1]) || (|x| >= 2 && x[|x| - 2..] == "\r\n" && !HasBreak(x[..|x| - 2])))
  }

  predicate IsFull(x: string) {
    IsLine(x) && IsBreak(x[|x| - 1])
  }

  // A line that x cannot be the continuation of.
  predicate EndsBefore(line: string, next: string) {
    IsFull(line) && !(line[|line| - 1] == '\r' && next != "" && next[0] == '\n')
  }

  // Each line ends before the next one starts.
  ghost predicate WellSplit(lines: seq<string>) {
    && (forall i :: 0 <= i < |lines| ==> IsLine(lines[i]))
    && (forall i :: 0 <= i < |lines| - 1 ==> EndsBefore(lines[i], lines[i + 1]))
  }

  lemma {:induction false} ConcatOfSplit(t: string)
    ensures Concat(SplitLines(t)) == t
  {
    if t != "" {
      if "\r\n" <= t {
        ConcatOfSplit(t[2..]);
      } else {
        ConcatOfSplit(t[1..]);
        var rest := SplitLines(t[1..]);
        if !IsBreak(t[0]) && rest != [] {
          assert SplitLines(t)[1..] == rest[1..];
        }
      }
    }
  }

  lemma WellSplitTail(lines: seq<string>)
    requires WellSplit(lines) && lines != []
    ensures WellSplit(lines[1..])
  {
    var tail := lines[1..];
    forall i | 0 <= i < |tail| - 1 ensures EndsBefore(tail[i], tail[i + 1]) {
      assert EndsBefore(lines[i + 1], lines[i + 2]);
    }
  }

  lemma SplitOneCharacter(x: string, t: string)
    requires IsLine(x) && (t != "" ==> EndsBefore(x, t)) && |x| == 1
    ensures SplitLines(x + t) == [x] + SplitLines(t)
  {
    assert (x + t)[1..] == t && (x + t)[0] == x[0] && x == [x[0]];
    assert t != "" ==> (x + t)[1] == t[0];
    assert !("\r\n" <= x + t);
    if t == "" { assert SplitLines(t) == []; }
  }

  lemma BreakInFront(body: string)
    ensures body != "" && IsBreak(body[0]) ==> HasBreak(body)
  {
    if body != "" { assert body[0] in body; }
  }

  lemma StartsWithPair(x: string)
    requires IsLine(x) && "\r\n" <= x
    ensures x == "\r\n"
  {
    BreakInFront(x[..|x| - 1]);
    BreakInFront(x[..|x| - 2]);
  }

  // A line in front of a text that does not continue it is the first line.
  lemma {:induction false} SplitFirstLine(x: string, t: string)
    requires IsLine(x) && (t != "" ==> EndsBefore(x, t))
    ensures SplitLines(x + t) == [x] + SplitLines(t)
  {
    if "\r\n" <= x {
      StartsWithPair(x);
      assert (x + t)[2..] == t;
    } else if |x| == 1 {
      SplitOneCharacter(x, t);
    } else {
      FirstCharacter(x);
      SplitFirstLine(x[1..], t);
      SplitLonger(x, t);
    }
  }

  lemma SplitLonger(x: string, t: string)
    requires |x| >= 2 && !IsBreak(x[0]) && SplitLines(x[1..] + t) == [x[1..]] + SplitLines(t)
    ensures SplitLines(x + t) == [x] + SplitLines(t)
  {
    assert (x + t)[1..] == x[1..] + t && (x + t)[0] == x[0];
    assert [x[0]] + x[1..] == x;
    assert ([x[1..]] + SplitLines(t))[1..] == SplitLines(t);
  }

  lemma FirstCharacter(x: string)
    requires IsLine(x) && |x| >= 2 && !("\r\n" <= x)
    ensures !IsBreak(x[0]) && IsLine(x[1..]) && (IsFull(x) ==> IsFull(x[1..]))
  {
    var n := |x|;
    if !HasBreak(x[..n - 1]) {
      assert x[0] in x[..n - 1];
      forall c | c in x[1..][..n - 2] ensures !IsBreak(c) { assert c in x[..n - 1]; }
    } else {
      assert x[n - 2] == '\r' && x[n - 1] == '\n';
      assert n > 2;
      assert x[0] in x[..n - 2];
      forall c | c in x[1..][..n - 3] ensures !IsBreak(c) { assert c in x[..n - 2]; }
      assert x[1..][|x[1..]| - 2..] == x[n - 2..];
    }
  }

  lemma {:induction false} SplitOfConcat(lines: seq<string>)
    requires WellSplit(lines)
    ensures SplitLines(Concat(lines)) == lines
  {
    if lines != [] {
      WellSplitTail(lines);
      SplitOfConcat(lines[1..]);
      var t := Concat(lines[1..]);
      if |lines| > 1 {
        assert t == lines[1] + Concat(lines[2..]) by { assert lines[1..][1..] == lines[2..]; }
        assert IsLine(lines[1]) && t[0] == lines[1][0];
      }
      SplitFirstLine(lines[0], t);
      assert lines == [lines[0]] + lines[1..];
    }
  }

  lemma {:induction false} SplitIsWell(t: string)
    ensures WellSplit(SplitLines(t))
  {
    if t != "" {
      if "\r\n" <= t {
        SplitIsWell(t[2..]);
        PutInFront("\r\n", SplitLines(t[2..]));
      } else if IsBreak(t[0]) {
        SplitIsWell(t[1..]);
        ConcatOfSplit(t[1..]);
        FirstOfConcat(SplitLines(t[1..]));
        PutInFront([t[0]], SplitLines(t[1..]));
      } else {
        SplitIsWell(t[1..]);
        if SplitLines(t[1..]) != [] {
          PrependCharacter(t[0], SplitLines(t[1..]));
        }
      }
    }
  }

  lemma PrependCharacter(c: char, lines: seq<string>)
    requires WellSplit(lines) && lines != [] && !IsBreak(c)
    ensures WellSplit([[c] + lines[0]] + lines[1..])
  {
    LongerFirstCharacter(c, lines[0]);
    WellSplitTail(lines);
    if |lines| > 1 { assert EndsBefore(lines[0], lines[1]); }
    PutInFront([c] + lines[0], lines[1..]);
  }

  lemma FirstOfConcat(lines: seq<string>)
    requires forall i :: 0 <= i < |lines| ==> lines[i] != ""
    ensures lines != [] ==> Concat(lines) != "" && Concat(lines)[0] == lines[0][0]
  {
  }

  lemma PutInFront(x: string, lines: seq<string>)
    requires WellSplit(lines) && IsLine(x)
    requires lines != [] ==> EndsBefore(x, lines[0])
    ensures WellSplit([x] + lines)
  {
    var all := [x] + lines;
    forall i | 0 <= i < |all| - 1 ensures EndsBefore(all[i], all[i + 1]) {
      if i > 0 { assert EndsBefore(lines[i - 1], lines[i]); }
    }
  }

  lemma LongerFirstCharacter(c: char, x: string)
    requires !IsBreak(c) && IsLine(x)
    ensures IsLine([c] + x) && (IsFull(x) ==> IsFull([c] + x))
  {
    var y, n := [c] + x, |x|;
    assert y[..|y| - 1] == [c] + x[..n - 1];
    if HasBreak(x[..n - 1]) {
      assert y[|y| - 2..] == x[n - 2..] && y[..|y| - 2] == [c] + x[..n - 2];
    }
  }

  lemma {:induction false} ConcatInTwoParts(a: seq<string>, b: seq<string>)
    ensures Concat(a + b) == Concat(a) + Concat(b)
  {
    if a == [] {
      EmptyConcat(b);
      EmptyConcat(Concat(b));
    } else {
      ConcatInTwoParts(a[1..], b);
      TailOfConcat(a, b);
      Associative(a[0], Concat(a[1..]), Concat(b));
    }
  }

  // ----- literals -----------------------------------------------------------------------------

  datatype Value = Flag(on: bool) | Whole(number: int) | Text(text: string) | Texts(texts: seq<string>)

  const HEX := "0123456789abcdef"

  // How json.dumps writes one character when it keeps characters outside ASCII.
  function Escaped(c: char): (e: string)
    ensures e != ""
  {
    if c == '"' then "\\\""
    else if c == '\\' then "\\\\"
    else if c == '\n' then "\\n"
    else if c == '\r' then "\\r"
    else if c == '\t' then "\\t"
    else if c == '\U{08}' then "\\b"
    else if c == '\U{0c}' then "\\f"
    else if c < ' ' then "\\u00" + [HEX[c as int / 16], HEX[c as int % 16]]
    else [c]
  }

  function EscapedAll(s: string): string {
    if s == "" then "" else Escaped(s[0]) + EscapedAll(s[1..])
  }

  function Quoted(s: string): string {
    "\"" + (EscapedAll(s) + "\"")
  }

  function Listed(texts: seq<string>): string {
    if texts == [] then ""
    else if |texts| == 1 then Quoted(texts[0])
    else Quoted(texts[0]) + (", " + Listed(texts[1..]))
  }

  function Digits(n: nat): string {
    (if n < 10 then "" else Digits(n / 10)) + [HEX[n % 10]]
  }

  function Literal(v: Value): string {
    match v
    case Flag(on) => if on then "true" else "false"
    case Whole(n) => if n < 0 then "-" + Digits(-n) else Digits(n)
    case Text(s) => Quoted(s)
    case Texts(ts) => "[" + (Listed(ts) + "]")
  }

  // ----- the scan for a comment ------------------------------------------------------------------

  // Outside quotes, inside some, or right after a backslash inside double quotes.
  datatype Mode = Outside | Inside(quote: char) | Escaping

  function Step(m: Mode, c: char): Mode {
    match m
    case Escaping => Inside('"')
    case Inside(q) => if c == '\\' && q == '"' then Escaping else if c == q then Outside else m
    case Outside => if c == '\'' || c == '"' then Inside(c) else Outside
  }

  // From the first '#' outside quotes on.
  function CommentFrom(m: Mode, s: string): string
    decreases |s|
  {
    if s == "" then ""
    else if m == Outside && s[0] == '#' then s
    else CommentFrom(Step(m, s[0]), s[1..])
  }

  function Walk(m: Mode, s: string): Mode
    decreases |s|
  {
    if s == "" then m else Walk(Step(m, s[0]), s[1..])
  }

  // No comment starts in s.
  predicate Calm(m: Mode, s: string)
    decreases |s|
  {
    s == "" || (!(m == Outside && s[0] == '#') && Calm(Step(m, s[0]), s[1..]))
  }

  lemma {:induction false} WalkOn(m: Mode, a: string, b: string)
    ensures Walk(m, a + b) == Walk(Walk(m, a), b)
    ensures Calm(m, a + b) <==> Calm(m, a) && Calm(Walk(m, a), b)
    ensures Calm(m, a) ==> CommentFrom(m, a + b) == CommentFrom(Walk(m, a), b)
    decreases |a|
  {
    if a == "" {
      assert a + b == b;
    } else {
      WalkOn(Step(m, a[0]), a[1..], b);
      assert (a + b)[1..] == a[1..] + b && (a + b)[0] == a[0];
    }
  }

  lemma {:induction false} CalmHasNoComment(m: Mode, s: string)
    ensures Calm(m, s) <==> CommentFrom(m, s) == ""
    decreases |s|
  {
    if s != "" { CalmHasNoComment(Step(m, s[0]), s[1..]); }
  }

  lemma {:induction false} PlainStaysInside(s: string)
    requires forall c :: c in s ==> c != '"' && c != '\\'
    ensures Walk(Inside('"'), s) == Inside('"') && Calm(Inside('"'), s)
  {
    if s != "" {
      assert s[0] in s && forall c :: c in s[1..] ==> c in s;
      PlainStaysInside(s[1..]);
    }
  }

  lemma EscapeStaysInside(c: char, rest: string)
    requires forall c :: c in rest ==> c != '"' && c != '\\'
    ensures Walk(Inside('"'), ['\\', c] + rest) == Inside('"') && Calm(Inside('"'), ['\\', c] + rest)
  {
    var m := Inside('"');
    assert ['\\', c][1..] == [c] && [c][1..] == "";
    assert Walk(m, ['\\', c]) == Walk(Escaping, [c]) == Walk(m, "");
    assert Calm(m, ['\\', c]) by { assert Calm(Escaping, [c]) by { assert Calm(m, ""); } }
    PlainStaysInside(rest);
    WalkOn(m, ['\\', c], rest);
  }

  lemma EscapedStaysInside(c: char)
    ensures Walk(Inside('"'), Escaped(c)) == Inside('"') && Calm(Inside('"'), Escaped(c))
  {
    var e := Escaped(c);
    if |e| == 1 {
      PlainStaysInside(e);
    } else {
      assert e == ['\\', e[1]] + e[2..];
      if |e| > 2 {
        assert e[4] in HEX && e[5] in HEX && e[2..] == ['0', '0', e[4], e[5]];
      }
      EscapeStaysInside(e[1], e[2..]);
    }
  }

  lemma {:induction false} EscapedAllStaysInside(s: string)
    ensures Walk(Inside('"'), EscapedAll(s)) == Inside('"') && Calm(Inside('"'), EscapedAll(s))
  {
    if s != "" {
      EscapedStaysInside(s[0]);
      EscapedAllStaysInside(s[1..]);
      WalkOn(Inside('"'), Escaped(s[0]), EscapedAll(s[1..]));
    }
  }

  predicate IsClosed(s: string) {
    Walk(Outside, s) == Outside && Calm(Outside, s)
  }

  lemma ClosedAfterClosed(a: string, b: string)
    requires IsClosed(a) && IsClosed(b)
    ensures IsClosed(a + b)
  {
    WalkOn(Outside, a, b);
  }

  // Characters that mean nothing to the scan.
  lemma {:induction false} PlainIsClosed(s: string)
    requires forall c :: c in s ==> c != '#' && c != '\'' && c != '"'
    ensures IsClosed(s)
  {
    if s != "" {
      assert s[0] in s && forall c :: c in s[1..] ==> c in s;
      PlainIsClosed(s[1..]);
    }
  }

  lemma QuotedIsClosed(s: string)
    ensures IsClosed(Quoted(s))
  {
    EscapedAllStaysInside(s);
    WalkOn(Inside('"'), EscapedAll(s), "\"");
    assert "\""[1..] == "";
    WalkOn(Outside, "\"", EscapedAll(s) + "\"");
  }

  lemma {:induction false} ListedIsClosed(texts: seq<string>)
    ensures IsClosed(Listed(texts))
  {
    if texts != [] {
      QuotedIsClosed(texts[0]);
      if |texts| > 1 {
        ListedIsClosed(texts[1..]);
        PlainIsClosed(", ");
        ClosedAfterClosed(", ", Listed(texts[1..]));
        ClosedAfterClosed(Quoted(texts[0]), ", " + Listed(texts[1..]));
      }
    }
  }

  lemma {:induction false} DigitsArePlain(n: nat)
    ensures forall c :: c in Digits(n) ==> c in HEX
  {
    if n >= 10 { DigitsArePlain(n / 10); }
  }

  // The scan leaves every literal outside quotes and sees no comment in it, whatever the text holds.
  lemma LiteralIsClosed(v: Value)
    ensures IsClosed(Literal(v))
  {
    hide IsClosed, Digits, Listed, Quoted;
    match v
    case Flag(on) => PlainIsClosed(Literal(v));
    case Whole(n) =>
      DigitsArePlain(if n < 0 then -n else n);
      PlainIsClosed(Literal(v));
    case Text(s) => QuotedIsClosed(s);
    case Texts(ts) =>
      ListedIsClosed(ts);
      PlainIsClosed("[");
      PlainIsClosed("]");
      ClosedAfterClosed(Listed(ts), "]");
      ClosedAfterClosed("[", Listed(ts) + "]");
  }
}
