/** The white space, tabs and license checks, and the fixing run that applies them one
    after the other. */
module StyleFix {
  import opened PyStrings
  import opened LinePass

  /** A guard: comment marks, a space and the text of the guard. */
  function Guard(marks: string, text: string): string {
    marks + " " + text
  }

  const GUARD_ON := [Guard("//", "clang-format on"), Guard("#", "cmake-format: on"), Guard("#", "fmt: on")]
  const GUARD_OFF := [Guard("//", "clang-format off"), Guard("#", "cmake-format: off"), Guard("#", "fmt: off")]

  // Each text is in two parts so that the verifier sees its first character: it does not
  // look that far into one long literal.
  const GPL_FIRST := "This program " + "is free software; you can redistribute it and/or modify"
  const GPL_REST := [
    "it under " + "the terms of the GNU General Public License version 2 as",
    "published " + "by the Free Software Foundation;",
    "This program " + "is distributed in the hope that it will be useful,",
    "but WITHOUT " + "ANY WARRANTY; without even the implied warranty of",
    "MERCHANTABILITY " + "or FITNESS FOR A PARTICULAR PURPOSE.  See the",
    "GNU General " + "Public License for more details.",
    "You should " + "have received a copy of the GNU General Public License",
    "along with " + "this program; if not, write to the Free Software",
    "Foundation, " + "Inc., 59 Temple Place, Suite 330, Boston, MA  02111-1307  USA"
  ]
  const SPDX := "SPDX-License-Identifier: GPL-2.0-only"

  // ----- the rules for one line

  predicate IsOn(line: string) {
    Strip(line, IsSpace) in GUARD_ON
  }

  predicate IsOff(line: string) {
    Strip(line, IsSpace) in GUARD_OFF
  }

  predicate CleanEnd(line: string) {
    RStrip(line, IsSpace) + "\n" == line
  }

  function CleanedEnd(line: string): string {
    RStrip(line, IsSpace) + "\n"
  }

  predicate NoTab(line: string) {
    '\t' !in line
  }

  function Expanded(line: string): string {
    ExpandTabs(line, 0)
  }

  predicate IsMark(c: char) {
    c == '*' || c == '#' || c == '/'
  }

  /** The text of a line without white space and comment marks at its ends. */
  function Core(line: string): string {
    Strip(Strip(Strip(line, IsSpace), IsMark), IsSpace)
  }

  predicate IsGpl(core: string) {
    core == GPL_FIRST || core in GPL_REST
  }

  predicate NoGpl(line: string) {
    !IsGpl(Core(line))
  }

  function Relicensed(line: string): string {
    if Core(line) == GPL_FIRST then Replace(line, GPL_FIRST, SPDX) else ""
  }

  const WHITESPACE := Rules(false, IsOn, IsOff, CleanEnd, CleanedEnd)
  const TABS := Rules(true, IsOn, IsOff, NoTab, Expanded)
  const LICENSE := Rules(true, IsOn, IsOff, NoGpl, Relicensed)

  // ----- the constants

  /** A guard text is comment marks, a space and a bare text that starts with c or f. */
  lemma GuardText(g: string) returns (marks: string, rest: string)
    requires g in GUARD_ON || g in GUARD_OFF
    ensures g == Guard(marks, rest) && (marks == "//" || marks == "#") && BareText(rest)
  {
    if i :| 0 <= i < 3 && g == GUARD_ON[i] {
      marks := if i == 0 then "//" else "#";
      rest := if i == 0 then "clang-format on" else if i == 1 then "cmake-format: on" else "fmt: on";
    } else {
      var i :| 0 <= i < 3 && g == GUARD_OFF[i];
      marks := if i == 0 then "//" else "#";
      rest := if i == 0 then "clang-format off" else if i == 1 then "cmake-format: off" else "fmt: off";
    }
  }

  ghost predicate BareText(rest: string) {
    rest != "" && (rest[0] == 'c' || rest[0] == 'f') &&
    Bare(rest, IsSpace) && Bare(rest, IsMark) && None(rest, '\t')
  }

  lemma GplText(core: string)
    requires IsGpl(core)
    ensures core != "" && core[0] != 'S' && core[0] != 'c'
    ensures core[0] != 'f'
  {
    if core != GPL_FIRST {
      var i :| 0 <= i < |GPL_REST| && GPL_REST[i] == core;
      assert GPL_REST[0][0] == 'i' && GPL_REST[1][0] == 'p' && GPL_REST[2][0] == 'T';
      assert GPL_REST[3][0] == 'b' && GPL_REST[4][0] == 'M' && GPL_REST[5][0] == 'G';
      assert GPL_REST[6][0] == 'Y' && GPL_REST[7][0] == 'a' && GPL_REST[8][0] == 'F';
    }
  }

  lemma SpdxText()
    ensures SPDX != "" && SPDX[0] == 'S' && Bare(SPDX, IsSpace)
    ensures Bare(SPDX, IsMark)
    ensures None(SPDX, '\t') && None(SPDX, '\n')
  {
  }

  // ----- white space

  lemma CleanedIsClean(line: string)
    ensures CleanEnd(CleanedEnd(line)) && CleanedEnd(line)[..|CleanedEnd(line)| - 1] <= line
    ensures Strip(CleanedEnd(line), IsSpace) == Strip(line, IsSpace)
    ensures IsLine(line) ==> IsLine(CleanedEnd(line)) && Ends(CleanedEnd(line))
    ensures Ink(CleanedEnd(line)) == Ink(line)
  {
    var x := RStrip(line, IsSpace);
    var b := RStripSplit(line, IsSpace);
    RStripOf(x, "\n", IsSpace);
    assert CleanedEnd(line)[..|x|] == x && line[..|x|] == x;
    CleanedInk(x, b);
    if IsLine(line) {
      CleanedIsLine(line, x, b);
    }
  }

  lemma CleanedInk(x: string, b: string)
    requires All(b, IsSpace)
    ensures Ink(x + b) == Ink(x + "\n")
  {
    InkConcat(x, b);
    InkConcat(x, "\n");
    InkOfSpaces(b);
    InkOfSpaces("\n");
  }

  lemma CleanedIsLine(line: string, x: string, b: string)
    requires IsLine(line) && line == x + b && All(b, IsSpace)
    requires x != "" ==> !IsSpace(x[|x| - 1])
    ensures IsLine(x + "\n") && Ends(x + "\n")
  {
    assert (x + "\n")[..|x|] == x;
    forall i | 0 <= i < |x| ensures x[i] != '\n' {
      assert line[i] == x[i];
      assert i < |line| - 1 ==> line[..|line| - 1][i] == line[i];
    }
  }

  // ----- tabs

  lemma ExpandedLine(line: string)
    ensures NoTab(Expanded(line)) && Ink(Expanded(line)) == Ink(line)
    ensures IsLine(line) ==> IsLine(Expanded(line)) && (Ends(line) ==> Ends(Expanded(line)))
  {
    ExpandHasNoTab(line, 0);
    ExpandKeepsInk(line, 0);
    if IsLine(line) {
      var n := |line| - 1;
      ExpandedBreaks(line[..n], line[n]);
      assert line == line[..n] + [line[n]];
    }
  }

  lemma ExpandedBreaks(init: string, last: char)
    requires None(init, '\n')
    ensures (var line := init + [last];
             IsLine(Expanded(line)) && (Ends(line) ==> Ends(Expanded(line))))
  {
    ExpandConcat(init, [last], 0);
    ExpandKeepsBreaks(init, 0);
    var col := Columns(init, 0);
    assert [last][1..] == "";
    assert ExpandTabs([last], col) == if last == '\t' then Spaces(TAB_SIZE - col % TAB_SIZE) + "" else [last] + "";
  }

  /** Expanding the tabs of a guard line leaves it the same guard. */
  lemma ExpandedGuard(line: string)
    requires IsOn(line) || IsOff(line)
    ensures Strip(Expanded(line), IsSpace) == Strip(line, IsSpace)
  {
    var g := Strip(line, IsSpace);
    var marks, rest := GuardText(g);
    assert None(g, '\t');
    var a, b := StripSplit(line, IsSpace);
    ExpandedAround(a, g, b);
  }

  lemma ExpandedAround(a: string, g: string, b: string)
    requires All(a, IsSpace) && All(b, IsSpace) && g != "" && Bare(g, IsSpace) && None(g, '\t')
    ensures Strip(ExpandTabs(a + g + b, 0), IsSpace) == g
  {
    ExpandConcat(a + g, b, 0);
    ExpandConcat(a, g, 0);
    ExpandPlain(g, Columns(a, 0));
    ExpandSpaces(a, 0);
    ExpandSpaces(b, Columns(a + g, 0));
    StripOf(ExpandTabs(a, 0), g, ExpandTabs(b, Columns(a + g, 0)), IsSpace);
  }

  lemma ExpandedStaysClean(line: string)
    requires CleanEnd(line)
    ensures CleanEnd(Expanded(line))
  {
    var x := RStrip(line, IsSpace);
    var b := RStripSplit(line, IsSpace);
    ExpandConcat(x, "\n", 0);
    assert ExpandTabs("\n", Columns(x, 0)) == "\n" + ExpandTabs("", 0);
    if x != "" {
      var n := |x| - 1;
      assert x == x[..n] + [x[n]];
      ExpandConcat(x[..n], [x[n]], 0);
      assert [x[n]][1..] == "";
      assert ExpandTabs([x[n]], Columns(x[..n], 0)) == [x[n]] + "";
    }
    RStripOf(ExpandTabs(x, 0), "\n", IsSpace);
  }

  // ----- license text

  lemma Lead(a: string, m: string, p: char -> bool)
    requires All(a, p)
    ensures a != "" ==> p((a + m)[0])
  {
  }

  lemma Trail(m: string, b: string, p: char -> bool)
    requires All(b, p)
    ensures b != "" ==> p((m + b)[|m + b| - 1])
  {
  }

  /** The first character of a line's inner part does not depend on the core, unless it is
      the core's own; likewise the last. */
  lemma FirstExchanged(c1: string, s3: string, t: string, r: string, rest: string)
    requires All(s3, IsSpace) && t != "" && r != "" && !IsSpace(r[0]) && !IsMark(r[0])
    requires !IsSpace((c1 + (s3 + (t + rest)))[0]) && !IsMark((s3 + (t + rest))[0])
    ensures !IsSpace((c1 + (s3 + (r + rest)))[0])
    ensures !IsMark((s3 + (r + rest))[0])
  {
    if c1 == "" {
      assert c1 + (s3 + (t + rest)) == s3 + (t + rest);
      Lead(s3, t + rest, IsSpace);
    }
  }

  lemma LastExchanged(init: string, t: string, r: string, s4: string, c2: string)
    requires All(s4, IsSpace) && t != "" && r != "" && !IsSpace(r[|r| - 1]) && !IsMark(r[|r| - 1])
    requires (var y := (init + t) + s4; var x := y + c2; !IsSpace(x[|x| - 1]) && !IsMark(y[|y| - 1]))
    ensures (var y := (init + r) + s4; var x := y + c2; !IsSpace(x[|x| - 1]) && !IsMark(y[|y| - 1]))
  {
    if c2 == "" {
      assert (init + t) + s4 + c2 == (init + t) + s4;
      Trail(init + t, s4, IsSpace);
    }
  }

  /** The ends of a line around its core: white space, comment marks, white space. Another
      bare text in the place of the core is the core of the new line. */
  lemma CoreExchanged(s1: string, c1: string, s3: string, t: string, s4: string, c2: string, s2: string, r: string)
    requires All(s1, IsSpace) && All(s2, IsSpace) && All(s3, IsSpace) && All(s4, IsSpace)
    requires All(c1, IsMark) && All(c2, IsMark)
    requires t != "" && r != "" && Bare(r, IsSpace) && Bare(r, IsMark)
    requires Bare(s3 + t + s4, IsMark) && Bare(c1 + (s3 + t + s4) + c2, IsSpace)
    ensures Bare(c1 + (s3 + r + s4) + c2, IsSpace)
    ensures Core(s1 + (c1 + (s3 + r + s4) + c2) + s2) == r
  {
    BareExchanged(c1, s3, t, s4, c2, r);
    StripOf(s1, c1 + (s3 + r + s4) + c2, s2, IsSpace);
    StripOf(c1, s3 + r + s4, c2, IsMark);
    StripOf(s3, r, s4, IsSpace);
  }

  lemma BareExchanged(c1: string, s3: string, t: string, s4: string, c2: string, r: string)
    requires All(s3, IsSpace) && All(s4, IsSpace)
    requires t != "" && r != "" && Bare(r, IsSpace) && Bare(r, IsMark)
    requires Bare(s3 + t + s4, IsMark) && Bare(c1 + (s3 + t + s4) + c2, IsSpace)
    ensures Bare(s3 + r + s4, IsMark)
    ensures Bare(c1 + (s3 + r + s4) + c2, IsSpace)
  {
    Regroup(c1, s3, t, s4, c2);
    Regroup(c1, s3, r, s4, c2);
    FirstExchanged(c1, s3, t, r, s4 + c2);
    LastExchanged(s3, t, r, s4, c2);
  }

  /** The first and last characters, however the parts are grouped. */
  lemma Regroup(c1: string, s3: string, t: string, s4: string, c2: string)
    requires t != ""
    ensures (var y, x := s3 + t + s4, c1 + (s3 + t + s4) + c2;
             var z := (s3 + t) + s4 + c2;
             && x[0] == (c1 + (s3 + (t + (s4 + c2))))[0] && y[0] == (s3 + (t + (s4 + c2)))[0]
             && x[|x| - 1] == z[|z| - 1] && y[|y| - 1] == ((s3 + t) + s4)[|y| - 1])
  {
    assert c1 + (s3 + t + s4) + c2 == c1 + (s3 + (t + (s4 + c2)));
    assert c1 + (s3 + t + s4) + c2 == c1 + ((s3 + t) + s4 + c2);
  }

  /** The parts of a line around its core. */
  datatype Parts = Parts(s1: string, c1: string, s3: string, s4: string, c2: string, s2: string) {
    function Inner(t: string): string {
      c1 + (s3 + t + s4) + c2
    }

    function Line(t: string): string {
      s1 + Inner(t) + s2
    }

    ghost predicate Ok(t: string) {
      && All(s1, IsSpace) && All(s2, IsSpace) && All(s3, IsSpace) && All(s4, IsSpace)
      && All(c1, IsMark) && All(c2, IsMark)
      && Bare(s3 + t + s4, IsMark) && Bare(Inner(t), IsSpace)
    }
  }

  lemma Peel(line: string) returns (p: Parts)
    ensures p.Ok(Core(line)) && line == p.Line(Core(line))
  {
    var s1, s2 := StripSplit(line, IsSpace);
    var x := Strip(line, IsSpace);
    var c1, c2 := StripSplit(x, IsMark);
    var s3, s4 := StripSplit(Strip(x, IsMark), IsSpace);
    p := Parts(s1, c1, s3, s4, c2, s2);
  }

  /** Replacing the core `t` of a line by `r`: only the core changes. */
  lemma ReplacedLine(line: string, t: string, r: string) returns (a: string, b: string)
    requires Core(line) == t && t != "" && !IsSpace(t[0]) && !IsMark(t[0])
    requires r != "" && Bare(r, IsSpace) && Bare(r, IsMark)
    ensures line == a + t + b && Replace(line, t, r) == a + r + b
    ensures Core(Replace(line, t, r)) == r
    ensures CleanEnd(line) ==> CleanEnd(Replace(line, t, r))
  {
    var p := Peel(line);
    a, b := ReplacedParts(p, t, r);
    CoreExchanged(p.s1, p.c1, p.s3, t, p.s4, p.c2, p.s2, r);
    if CleanEnd(line) {
      EndStaysClean(p.s1 + p.Inner(t), p.s1 + p.Inner(r), p.s2);
    }
  }

  lemma ReplacedParts(p: Parts, t: string, r: string) returns (a: string, b: string)
    requires p.Ok(t) && t != "" && !IsSpace(t[0]) && !IsMark(t[0])
    ensures p.Line(t) == a + t + b
    ensures Replace(p.Line(t), t, r) == a + r + b == p.Line(r)
  {
    a, b := p.s1 + p.c1 + p.s3, p.s4 + p.c2 + p.s2;
    assert p.Line(t) == a + t + b && p.Line(r) == a + r + b;
    assert None(a, t[0]) && None(b, t[0]);
    ReplaceOnce(a, t, b, r);
  }

  lemma EndStaysClean(m: string, m': string, s2: string)
    requires All(s2, IsSpace) && m != "" && !IsSpace(m[|m| - 1]) && m' != "" && !IsSpace(m'[|m'| - 1])
    requires CleanEnd(m + s2)
    ensures CleanEnd(m' + s2)
  {
    RStripOf(m, s2, IsSpace);
    assert (m + s2)[|m|..] == s2 && (m + "\n")[|m|..] == "\n";
    RStripOf(m', s2, IsSpace);
  }

  lemma RelicensedLine(line: string)
    requires Core(line) == GPL_FIRST
    ensures Core(Relicensed(line)) == SPDX
    ensures CleanEnd(line) ==> CleanEnd(Relicensed(line))
    ensures NoTab(line) ==> NoTab(Relicensed(line))
    ensures IsLine(line) ==> IsLine(Relicensed(line)) && (Ends(line) ==> Ends(Relicensed(line)))
  {
    SpdxText();
    var a, b := ReplacedLine(line, GPL_FIRST, SPDX);
    SameBreaks(line, a, GPL_FIRST, b, Relicensed(line), SPDX);
  }

  lemma SameBreaks(line: string, a: string, t: string, b: string, line': string, r: string)
    requires line == a + t + b && line' == a + r + b && r != "" && t != ""
    requires None(r, '\n') && None(r, '\t')
    ensures NoTab(line) ==> NoTab(line')
    ensures IsLine(line) ==> IsLine(line')
    ensures IsLine(line) && Ends(line) && b != "" ==> Ends(line')
  {
    if NoTab(line) {
      forall i | 0 <= i < |line'| ensures line'[i] != '\t' {
        if i < |a| {
          assert line[i] == a[i];
        } else if i >= |a + r| {
          assert line[i - |r| + |t|] == line'[i];
        }
      }
    }
    if IsLine(line) {
      forall i | 0 <= i < |line'| - 1 ensures line'[i] != '\n' {
        if i < |a| {
          assert line[..|line| - 1][i] == a[i];
        } else if i >= |a + r| {
          assert line[..|line| - 1][i - |r| + |t|] == line'[i];
        }
      }
    }
  }

  lemma GuardIsNotGpl(line: string)
    requires IsOn(line) || IsOff(line)
    ensures NoGpl(line) && Core(line) != SPDX
  {
    var g := Strip(line, IsSpace);
    var marks, rest := GuardText(g);
    assert g == marks + (" " + rest) + "";
    StripOf(marks, " " + rest, "", IsMark);
    assert " " + rest == " " + rest + "";
    StripOf(" ", rest, "", IsSpace);
    if IsGpl(Core(line)) {
      GplText(Core(line));
    }
    SpdxText();
  }

  lemma EmptyLine()
    ensures NoGpl("") && !IsOn("") && !IsOff("")
  {
    if IsGpl("") {
      GplText("");
    }
    if IsOn("") || IsOff("") {
      var marks, rest := GuardText("");
    }
  }

  /** What the license fix does to a line: the first line of the old text is replaced by the
      short form between what surrounded it, the other lines of that text are emptied. */
  lemma LicenseFix(line: string)
    requires !NoGpl(line)
    ensures Core(line) in GPL_REST && Core(line) != GPL_FIRST ==> Relicensed(line) == ""
    ensures Core(line) == GPL_FIRST ==>
              exists a, b :: line == a + GPL_FIRST + b && Relicensed(line) == a + SPDX + b
  {
    if Core(line) == GPL_FIRST {
      SpdxText();
      var a, b := ReplacedLine(line, GPL_FIRST, SPDX);
    }
  }

  /** The white space check looks at every line; the others leave what is switched off. */
  lemma WhatIsSubject(lines: seq<string>, i: nat)
    requires i < |lines|
    ensures Subject(WHITESPACE, lines, i)
    ensures Subject(TABS, lines, i) <==> IsOn(lines[i]) || IsOff(lines[i]) || !SwitchedOff(TABS, lines, i)
    ensures Subject(LICENSE, lines, i) <==> Subject(TABS, lines, i)
  {
  }

  // ----- what the three checks do to each other

  lemma WhitespaceRules()
    ensures FixesItself(WHITESPACE) && KeepsGuards(WHITESPACE)
    ensures KeepsLines(WHITESPACE)
  {
    forall l ensures CleanEnd(CleanedEnd(l)) && Strip(CleanedEnd(l), IsSpace) == Strip(l, IsSpace) &&
                     (IsLine(l) ==> IsLine(CleanedEnd(l)) && Ends(CleanedEnd(l))) {
      CleanedIsClean(l);
    }
  }

  lemma TabsRules()
    ensures FixesItself(TABS) && KeepsGuards(TABS)
    ensures KeepsLines(TABS) && Respects(WHITESPACE, TABS)
  {
    forall l ensures NoTab(Expanded(l)) &&
                     (IsLine(l) ==> IsLine(Expanded(l)) && (Ends(l) ==> Ends(Expanded(l)))) {
      ExpandedLine(l);
    }
    forall l | IsOn(l) || IsOff(l) ensures Strip(Expanded(l), IsSpace) == Strip(l, IsSpace) {
      ExpandedGuard(l);
    }
    forall l | CleanEnd(l) ensures CleanEnd(Expanded(l)) {
      ExpandedStaysClean(l);
    }
  }

  /** GPL lines are not guards, and neither is what replaces them. */
  lemma LicenseGuards(l: string)
    requires !NoGpl(l)
    ensures NoGpl(Relicensed(l)) && !IsOn(l) && !IsOff(l)
    ensures !IsOn(Relicensed(l)) && !IsOff(Relicensed(l))
  {
    EmptyLine();
    var l' := Relicensed(l);
    if Core(l) == GPL_FIRST {
      RelicensedLine(l);
      SpdxText();
      if IsGpl(SPDX) {
        GplText(SPDX);
      }
      if IsOn(l') || IsOff(l') {
        GuardIsNotGpl(l');
      }
    }
    if IsOn(l) || IsOff(l) {
      GuardIsNotGpl(l);
    }
  }

  lemma LicenseOwnRules()
    ensures FixesItself(LICENSE) && KeepsGuards(LICENSE)
    ensures SameGuards(TABS, LICENSE)
    ensures !IsGuard(LICENSE, "")
  {
    EmptyLine();
    forall l | !NoGpl(l)
      ensures NoGpl(Relicensed(l)) && !IsOn(l) && !IsOff(l) && !IsOn(Relicensed(l)) && !IsOff(Relicensed(l))
    {
      LicenseGuards(l);
    }
  }

  lemma LicenseKeeps()
    ensures KeepsLines(LICENSE) && Respects(WHITESPACE, LICENSE)
    ensures Respects(TABS, LICENSE)
  {
    forall l | Relicensed(l) != ""
      ensures CleanEnd(l) ==> CleanEnd(Relicensed(l))
      ensures NoTab(l) ==> NoTab(Relicensed(l))
      ensures IsLine(l) ==> IsLine(Relicensed(l)) && (Ends(l) ==> Ends(Relicensed(l)))
    {
      RelicensedLine(l);
    }
  }

  // ----- the fixing run

  datatype Enabled = Enabled(whitespace: bool, tabs: bool, license: bool)

  /** The passes in their order, each one if it is enabled. */
  function FixRun(on: Enabled, text: string): string {
    var t1 := if on.whitespace then FixText(WHITESPACE, text) else text;
    var t2 := if on.tabs then FixText(TABS, t1) else t1;
    if on.license then FixText(LICENSE, t2) else t2
  }

  /** What a check run says about a file. */
  ghost predicate Passes(r: Rules, text: string) {
    Compliant(r, ReadLines(text), true)
  }

  lemma OwnFix(r: Rules, text: string)
    requires FixesItself(r) && KeepsGuards(r) && KeepsLines(r) && !IsGuard(r, "")
    ensures Passes(r, FixText(r, text))
  {
    ReadFixed(r, text);
    FixedIsCompliant(r, ReadLines(text), true, true);
    EmptiedLinesDoNotMatter(r, Fixed(r, ReadLines(text), true), true);
  }

  lemma PlainFix(q: Rules, r: Rules, text: string)
    requires !q.respects && Respects(q, r) && KeepsLines(r) && Passes(q, text)
    ensures Passes(q, FixText(r, text))
  {
    ReadFixed(r, text);
    FixKeepsPlain(q, r, ReadLines(text), true, true);
  }

  lemma GuardedFix(q: Rules, r: Rules, text: string)
    requires Respects(q, r) && SameGuards(q, r) && KeepsLines(r) && Passes(q, text)
    ensures Passes(q, FixText(r, text))
  {
    ReadFixed(r, text);
    FixKeepsGuarded(q, r, ReadLines(text), true);
  }

  /** For every file and every choice of checks: after one fixing run, a check run reports
      compliance for each check that was enabled. */
  lemma OneRunIsEnough(on: Enabled, text: string)
    ensures on.whitespace ==> Passes(WHITESPACE, FixRun(on, text))
    ensures on.tabs ==> Passes(TABS, FixRun(on, text))
    ensures on.license ==> Passes(LICENSE, FixRun(on, text))
  {
    EmptyLine();
    WhitespaceRules();
    TabsRules();
    LicenseOwnRules();
    LicenseKeeps();
    var t1 := if on.whitespace then FixText(WHITESPACE, text) else text;
    var t2 := if on.tabs then FixText(TABS, t1) else t1;
    if on.whitespace {
      OwnFix(WHITESPACE, text);
      PlainFix(WHITESPACE, TABS, t1);
      PlainFix(WHITESPACE, LICENSE, t2);
    }
    if on.tabs {
      OwnFix(TABS, t1);
      GuardedFix(TABS, LICENSE, t2);
    }
    OwnFix(LICENSE, t2);
  }

  /** The white space and tabs fixes keep every character that is not white space, in
      order. */
  lemma InkIsKept(text: string)
    ensures Ink(FixRun(Enabled(true, true, false), text)) == Ink(text)
  {
    forall l ensures Ink(CleanedEnd(l)) == Ink(l) {
      CleanedIsClean(l);
    }
    forall l ensures Ink(Expanded(l)) == Ink(l) {
      ExpandedLine(l);
    }
    var t1 := FixText(WHITESPACE, text);
    FixKeepsInk(WHITESPACE, ReadLines(text), true);
    FixKeepsInk(TABS, ReadLines(t1), true);
    ReadIsWritable(text);
    ReadIsWritable(t1);
  }

  /** Expanding a tab can make a guard out of a line that was none. */
  lemma TabMakesGuard()
    ensures (var line := " //\t" + "clang-format off" + "\n";
             !IsOff(line) && !IsOn(line) && IsOff(Expanded(line)))
  {
    var g := "clang-format off";
    var line := " //\t" + g + "\n";
    assert None(g, '\t') && Bare(g, IsSpace);
    assert line == " //\t" + (g + "\n") == " " + ("//\t" + g) + "\n";
    StripOf(" ", "//\t" + g, "\n", IsSpace);
    var m := "//\t" + g;
    assert m[2] == '\t';
    if m in GUARD_ON || m in GUARD_OFF {
      var marks, rest := GuardText(m);
    }
    FourthColumn(g + "\n");
    assert " // " + (g + "\n") == " " + ("// " + g) + "\n";
    StripOf(" ", "// " + g, "\n", IsSpace);
    assert "// " + g == GUARD_OFF[0];
  }

  /** A tab in the fourth column is one space. */
  lemma FourthColumn(rest: string)
    requires None(rest, '\t')
    ensures Expanded(" //\t" + rest) == " // " + rest
  {
    assert " //\t" + rest == " //" + ("\t" + rest);
    ExpandConcat(" //", "\t" + rest, 0);
    ExpandPlain(" //", 0);
    TabAtThree(rest);
  }

  lemma TabAtThree(rest: string)
    requires None(rest, '\t')
    ensures ExpandTabs("\t" + rest, 3) == " " + rest
  {
    assert ("\t" + rest)[1..] == rest;
    ExpandPlain(rest, 4);
    assert Spaces(1) == " ";
  }
}
