/** The Python string operations that the style fixer uses: stripping, tab expansion,
    replacement, and reading and writing lines. */
module PyStrings {

  /** The characters that `str.strip()` removes. */
  predicate IsSpace(c: char) {
    || '\U{0009}' <= c <= '\U{000D}' || '\U{001C}' <= c <= '\U{0020}'
    || c == '\U{0085}' || c == '\U{00A0}' || c == '\U{1680}' || '\U{2000}' <= c <= '\U{200A}'
    || c == '\U{2028}' || c == '\U{2029}' || c == '\U{202F}' || c == '\U{205F}' || c == '\U{3000}'
  }

  ghost predicate All(s: string, p: char -> bool) {
    forall i :: 0 <= i < |s| ==> p(s[i])
  }

  ghost predicate None(s: string, c: char) {
    forall i :: 0 <= i < |s| ==> s[i] != c
  }

  // ----- stripping

  function LStrip(s: string, p: char -> bool): string {
    if s == "" then "" else if p(s[0]) then LStrip(s[1..], p) else s
  }

  function RStrip(s: string, p: char -> bool): string {
    if s == "" then "" else if p(s[|s| - 1]) then RStrip(s[..|s| - 1], p) else s
  }

  function Strip(s: string, p: char -> bool): string {
    LStrip(RStrip(s, p), p)
  }

  /** Does not start, nor end, with a character to strip. */
  ghost predicate Bare(s: string, p: char -> bool) {
    s != "" ==> !p(s[0]) && !p(s[|s| - 1])
  }

  lemma {:induction false} RStripSplit(s: string, p: char -> bool) returns (b: string)
    ensures s == RStrip(s, p) + b && All(b, p)
    ensures RStrip(s, p) != "" ==> !p(RStrip(s, p)[|RStrip(s, p)| - 1])
  {
    if s == "" || !p(s[|s| - 1]) {
      b := "";
    } else {
      var n := |s| - 1;
      var b' := RStripSplit(s[..n], p);
      b := b' + [s[n]];
    }
  }

  lemma {:induction false} LStripSplit(s: string, p: char -> bool) returns (a: string)
    ensures s == a + LStrip(s, p) && All(a, p)
    ensures LStrip(s, p) != "" ==> !p(LStrip(s, p)[0])
  {
    if s == "" || !p(s[0]) {
      a := "";
    } else {
      var a' := LStripSplit(s[1..], p);
      a := [s[0]] + a';
    }
  }

  lemma StripSplit(s: string, p: char -> bool) returns (a: string, b: string)
    ensures s == a + Strip(s, p) + b && All(a, p) && All(b, p)
    ensures Bare(Strip(s, p), p)
  {
    b := RStripSplit(s, p);
    a := LStripSplit(RStrip(s, p), p);
    var r, m := RStrip(s, p), Strip(s, p);
    if m != "" {
      assert r[|r| - 1] == m[|m| - 1];
    }
  }

  lemma {:induction false} RStripOf(m: string, b: string, p: char -> bool)
    requires All(b, p) && (m != "" ==> !p(m[|m| - 1]))
    ensures RStrip(m + b, p) == m
  {
    if b == "" {
      assert m + b == m;
    } else {
      var n := |b| - 1;
      assert (m + b)[..|m + b| - 1] == m + b[..n];
      RStripOf(m, b[..n], p);
    }
  }

  lemma {:induction false} LStripOf(a: string, m: string, p: char -> bool)
    requires All(a, p) && (m != "" ==> !p(m[0]))
    ensures LStrip(a + m, p) == m
  {
    if a == "" {
      assert a + m == m;
    } else {
      assert (a + m)[1..] == a[1..] + m;
      LStripOf(a[1..], m, p);
    }
  }

  lemma StripOf(a: string, m: string, b: string, p: char -> bool)
    requires All(a, p) && All(b, p) && m != "" && Bare(m, p)
    ensures Strip(a + m + b, p) == m
  {
    RStripOf(a + m, b, p);
    LStripOf(a, m, p);
  }

  // ----- tabs

  const TAB_SIZE := 4

  function Spaces(n: nat): string {
    seq(n, _ => ' ')
  }

  function ColumnAfter(c: char, col: nat): nat {
    if c == '\t' then col + (TAB_SIZE - col % TAB_SIZE)
    else if c == '\n' || c == '\r' then 0
    else col + 1
  }

  function ExpandTabs(s: string, col: nat): string {
    if s == "" then ""
    else (if s[0] == '\t' then Spaces(TAB_SIZE - col % TAB_SIZE) else [s[0]]) +
         ExpandTabs(s[1..], ColumnAfter(s[0], col))
  }

  function Columns(s: string, col: nat): nat {
    if s == "" then col else Columns(s[1..], ColumnAfter(s[0], col))
  }

  lemma {:induction false} ExpandConcat(a: string, b: string, col: nat)
    ensures ExpandTabs(a + b, col) == ExpandTabs(a, col) + ExpandTabs(b, Columns(a, col))
  {
    if a == "" {
      assert a + b == b;
    } else {
      assert (a + b)[1..] == a[1..] + b;
      ExpandConcat(a[1..], b, ColumnAfter(a[0], col));
    }
  }

  lemma {:induction false} ExpandPlain(s: string, col: nat)
    requires None(s, '\t')
    ensures ExpandTabs(s, col) == s
  {
    if s != "" {
      ExpandPlain(s[1..], ColumnAfter(s[0], col));
      assert [s[0]] + s[1..] == s;
    }
  }

  lemma {:induction false} ExpandSpaces(s: string, col: nat)
    requires All(s, IsSpace)
    ensures All(ExpandTabs(s, col), IsSpace)
  {
    if s != "" {
      ExpandSpaces(s[1..], ColumnAfter(s[0], col));
    }
  }

  lemma {:induction false} ExpandHasNoTab(s: string, col: nat)
    ensures None(ExpandTabs(s, col), '\t')
  {
    if s != "" {
      ExpandHasNoTab(s[1..], ColumnAfter(s[0], col));
    }
  }

  lemma {:induction false} ExpandKeepsBreaks(s: string, col: nat)
    requires None(s, '\n')
    ensures None(ExpandTabs(s, col), '\n')
  {
    if s != "" {
      ExpandKeepsBreaks(s[1..], ColumnAfter(s[0], col));
    }
  }

  lemma {:induction false} ColumnIsLength(s: string, col: nat)
    requires None(s, '\n') && None(s, '\r')
    ensures Columns(s, col) == col + |ExpandTabs(s, col)|
  {
    if s != "" {
      ColumnIsLength(s[1..], ColumnAfter(s[0], col));
    }
  }

  /** On a line, a tab becomes one space or more, up to the next multiple of the tab size. */
  lemma TabStop(a: string, b: string)
    requires None(a, '\n') && None(a, '\r')
    ensures (var head := ExpandTabs(a, 0); var n := TAB_SIZE - |head| % TAB_SIZE;
             && 1 <= n <= TAB_SIZE && (|head| + n) % TAB_SIZE == 0
             && ExpandTabs(a + "\t" + b, 0) == head + Spaces(n) + ExpandTabs(b, |head| + n))
  {
    ColumnIsLength(a, 0);
    assert a + "\t" + b == a + ("\t" + b) && ("\t" + b)[1..] == b;
    ExpandConcat(a, "\t" + b, 0);
  }

  /** After a line break the columns start again. */
  lemma AfterBreak(a: string, c: char, b: string)
    requires c == '\n' || c == '\r'
    ensures ExpandTabs(a + [c] + b, 0) == ExpandTabs(a, 0) + [c] + ExpandTabs(b, 0)
  {
    assert a + [c] + b == a + ([c] + b) && ([c] + b)[1..] == b;
    ExpandConcat(a, [c] + b, 0);
  }

  // ----- the characters that are not white space

  function Ink(s: string): string {
    if s == "" then "" else (if IsSpace(s[0]) then "" else [s[0]]) + Ink(s[1..])
  }

  lemma {:induction false} InkConcat(a: string, b: string)
    ensures Ink(a + b) == Ink(a) + Ink(b)
  {
    if a == "" {
      assert a + b == b;
    } else {
      assert (a + b)[1..] == a[1..] + b;
      InkConcat(a[1..], b);
    }
  }

  lemma {:induction false} InkOfSpaces(s: string)
    requires All(s, IsSpace)
    ensures Ink(s) == ""
  {
    if s != "" {
      InkOfSpaces(s[1..]);
    }
  }

  lemma {:induction false} ExpandKeepsInk(s: string, col: nat)
    ensures Ink(ExpandTabs(s, col)) == Ink(s)
  {
    if s != "" {
      var rest := ExpandTabs(s[1..], ColumnAfter(s[0], col));
      ExpandKeepsInk(s[1..], ColumnAfter(s[0], col));
      if s[0] == '\t' {
        var n := TAB_SIZE - col % TAB_SIZE;
        InkConcat(Spaces(n), rest);
        InkOfSpaces(Spaces(n));
      } else {
        assert ([s[0]] + rest)[1..] == rest;
      }
    }
  }

  // ----- replacement

  function Replace(s: string, t: string, r: string): string
    requires t != ""
    decreases |s|
  {
    if |s| < |t| then s
    else if s[..|t|] == t then r + Replace(s[|t|..], t, r)
    else [s[0]] + Replace(s[1..], t, r)
  }

  lemma {:induction false} ReplaceNothing(s: string, t: string, r: string)
    requires t != "" && None(s, t[0])
    ensures Replace(s, t, r) == s
    decreases |s|
  {
    if |s| >= |t| {
      assert s[..|t|][0] == s[0] != t[0];
      ReplaceNothing(s[1..], t, r);
      assert [s[0]] + s[1..] == s;
    }
  }

  /** With one occurrence, between two parts that lack its first character. */
  lemma {:induction false} ReplaceOnce(a: string, t: string, b: string, r: string)
    requires t != "" && None(a, t[0]) && None(b, t[0])
    ensures Replace(a + t + b, t, r) == a + r + b
    decreases |a|
  {
    var s := a + t + b;
    if a == "" {
      assert s[..|t|] == t && s[|t|..] == b;
      ReplaceNothing(b, t, r);
      assert a + r + b == r + b;
    } else {
      assert s[..|t|][0] == a[0] != t[0];
      assert s[1..] == a[1..] + t + b;
      ReplaceOnce(a[1..], t, b, r);
      assert [a[0]] + (a[1..] + r + b) == a + r + b;
    }
  }

  // ----- lines

  /** One line of a file: a line break only at the end, if at all. */
  ghost predicate IsLine(s: string) {
    s != "" && None(s[..|s| - 1], '\n')
  }

  predicate Ends(s: string) {
    s != "" && s[|s| - 1] == '\n'
  }

  function LineEnd(text: string): (n: nat)
    ensures n <= |text| && (text != "" ==> n > 0)
  {
    if text == "" then 0 else if text[0] == '\n' then 1 else 1 + LineEnd(text[1..])
  }

  function ReadLines(text: string): seq<string>
    decreases |text|
  {
    if text == "" then [] else [text[..LineEnd(text)]] + ReadLines(text[LineEnd(text)..])
  }

  function Join(lines: seq<string>): string {
    if lines == [] then "" else lines[0] + Join(lines[1..])
  }

  function NonEmpty(lines: seq<string>): seq<string> {
    if lines == [] then []
    else if lines[0] == "" then NonEmpty(lines[1..])
    else [lines[0]] + NonEmpty(lines[1..])
  }

  /** Lines as a program may hold them before writing: emptied ones included. */
  ghost predicate Writable(lines: seq<string>) {
    && (forall i :: 0 <= i < |lines| ==> lines[i] == "" || IsLine(lines[i]))
    && (forall i :: 0 <= i < |lines| - 1 ==> lines[i] == "" || Ends(lines[i]))
  }

  ghost predicate NoneEmpty(lines: seq<string>) {
    forall i :: 0 <= i < |lines| ==> lines[i] != ""
  }

  lemma {:induction false} LineEndIs(text: string)
    requires text != ""
    ensures IsLine(text[..LineEnd(text)])
    ensures LineEnd(text) < |text| ==> Ends(text[..LineEnd(text)])
  {
    if text[0] != '\n' && |text| > 1 {
      LineEndIs(text[1..]);
      var n := LineEnd(text[1..]);
      assert text[..n + 1] == [text[0]] + text[1..][..n];
      assert text[..n + 1][..n] == [text[0]] + text[1..][..n][..n - 1];
    }
  }

  lemma OneMoreLine(line: string, rest: seq<string>)
    requires IsLine(line) && (Ends(line) || rest == []) && Writable(rest) && NoneEmpty(rest)
    ensures Writable([line] + rest) && NoneEmpty([line] + rest)
    ensures Join([line] + rest) == line + Join(rest)
  {
    assert ([line] + rest)[1..] == rest;
  }

  lemma {:induction false} ReadIsWritable(text: string)
    ensures Writable(ReadLines(text))
    ensures NoneEmpty(ReadLines(text))
    ensures Join(ReadLines(text)) == text
    decreases |text|
  {
    if text != "" {
      LineEndIs(text);
      ReadIsWritable(text[LineEnd(text)..]);
      OneMoreLine(text[..LineEnd(text)], ReadLines(text[LineEnd(text)..]));
    }
  }

  lemma {:induction false} LineEndOf(line: string, rest: string)
    requires IsLine(line) && (Ends(line) || rest == "")
    ensures LineEnd(line + rest) == |line|
  {
    if |line| == 1 {
      assert (line + rest)[1..] == rest;
    } else {
      assert line[0] == line[..|line| - 1][0];
      assert line[1..][..|line| - 2] == line[..|line| - 1][1..];
      assert (line + rest)[1..] == line[1..] + rest;
      LineEndOf(line[1..], rest);
    }
  }

  /** Writing lines and reading the file again gives the lines that are not empty. */
  lemma {:induction false} ReadWritten(lines: seq<string>)
    requires Writable(lines)
    ensures ReadLines(Join(lines)) == NonEmpty(lines)
  {
    if lines != [] {
      ReadWritten(lines[1..]);
      if lines[0] != "" {
        var rest := Join(lines[1..]);
        LineEndOf(lines[0], rest);
        assert (lines[0] + rest)[..|lines[0]|] == lines[0] && (lines[0] + rest)[|lines[0]|..] == rest;
      } else {
        assert "" + Join(lines[1..]) == Join(lines[1..]);
      }
    }
  }
}
