/** The loop that checks or fixes a file line by line, for any check on single lines. */
module LinePass {
  import opened PyStrings

  /** A check: whether it respects format guards, which lines are guards, and what it says
      and does about one line. */
  datatype Rules = Rules(respects: bool, isOn: string -> bool, isOff: string -> bool,
                         ok: string -> bool, fix: string -> string)

  predicate IsGuard(r: Rules, line: string) {
    r.isOn(line) || r.isOff(line)
  }

  /** Whether formatting is enabled once the line is read. */
  function GuardState(r: Rules, enabled: bool, line: string): bool {
    if !r.respects then enabled
    else if r.isOn(line) then true
    else if r.isOff(line) then false
    else enabled
  }

  predicate Looked(r: Rules, enabled: bool, line: string) {
    !r.respects || GuardState(r, enabled, line) || IsGuard(r, line)
  }

  /** Every line that is looked at is compliant. */
  predicate Compliant(r: Rules, lines: seq<string>, enabled: bool) {
    lines == [] ||
    ((Looked(r, enabled, lines[0]) ==> r.ok(lines[0])) &&
     Compliant(r, lines[1..], GuardState(r, enabled, lines[0])))
  }

  function NewLine(r: Rules, enabled: bool, line: string): string {
    if Looked(r, enabled, line) && !r.ok(line) then r.fix(line) else line
  }

  function Fixed(r: Rules, lines: seq<string>, enabled: bool): seq<string> {
    if lines == [] then []
    else [NewLine(r, enabled, lines[0])] + Fixed(r, lines[1..], GuardState(r, enabled, lines[0]))
  }

  /** In fix mode, in verbose mode, and in the mode that stops at the first error, the
      verdict is the same; the file changes only in fix mode. */
  method CheckManuallyFile(r: Rules, text: string, fix: bool, verbose: bool)
      returns (isCompliant: bool, newText: string)
    ensures isCompliant <==> Compliant(r, ReadLines(text), true)
    ensures newText == if fix then Join(Fixed(r, ReadLines(text), true)) else text
  {
    var lines: seq<string>;
    isCompliant, lines := CheckLines(r, ReadLines(text), fix, verbose);
    newText := text;
    if fix && !isCompliant {
      newText := Join(lines);
    } else if fix {
      ReadIsWritable(text);
    }
  }

  method CheckLines(r: Rules, fileLines: seq<string>, fix: bool, verbose: bool)
      returns (isCompliant: bool, lines: seq<string>)
    ensures isCompliant <==> Compliant(r, fileLines, true)
    ensures isCompliant ==> lines == fileLines
    ensures isCompliant || fix || verbose ==> lines == Fixed(r, fileLines, true)
  {
    isCompliant := true;
    var enabled := true;
    lines := fileLines;
    for i := 0 to |fileLines|
      invariant |lines| == |fileLines| && forall j :: i <= j < |lines| ==> lines[j] == fileLines[j]
      invariant Fixed(r, fileLines, true) == lines[..i] + Fixed(r, fileLines[i..], enabled)
      invariant Compliant(r, fileLines, true) <==> isCompliant && Compliant(r, fileLines[i..], enabled)
      invariant isCompliant ==> lines == fileLines
    {
      var line := lines[i];
      ghost var before, soFar := enabled, lines[..i];
      if r.respects {
        if r.isOn(line) {
          enabled := true;
        } else if r.isOff(line) {
          enabled := false;
        }
      }
      assert enabled == GuardState(r, before, line);
      if !r.respects || enabled || IsGuard(r, line) {
        if !r.ok(line) {
          isCompliant := false;
          lines := lines[i := r.fix(line)];
          if !fix && !verbose {
            return;
          }
        }
      }
      Snoc(lines, i, soFar, NewLine(r, before, line), Fixed(r, fileLines[i + 1..], enabled));
    }
    assert lines[..|lines|] == lines;
  }

  lemma Snoc(lines: seq<string>, i: nat, soFar: seq<string>, line: string, later: seq<string>)
    requires i < |lines| && lines[..i] == soFar && lines[i] == line
    ensures lines[..i + 1] + later == soFar + ([line] + later)
  {
  }

  // ----- a fixed file is compliant

  ghost predicate FixesItself(r: Rules) {
    forall l :: !r.ok(l) ==> r.ok(r.fix(l))
  }

  /** A guard line that is fixed stays the same guard. */
  ghost predicate KeepsGuards(r: Rules) {
    forall l :: IsGuard(r, l) && !r.ok(l) ==>
      r.isOn(r.fix(l)) == r.isOn(l) && r.isOff(r.fix(l)) == r.isOff(l)
  }

  /** The fix may turn a line into a guard. It still leaves a compliant file: where
      formatting is enabled after the fix, it was enabled before. */
  lemma {:induction false} FixedIsCompliant(r: Rules, lines: seq<string>, e: bool, e': bool)
    requires FixesItself(r) && KeepsGuards(r) && (e' ==> e)
    ensures Compliant(r, Fixed(r, lines, e), e')
  {
    if lines != [] {
      var fixed := Fixed(r, lines, e);
      var l, l' := lines[0], fixed[0];
      var e1, e1' := GuardState(r, e, l), GuardState(r, e', l');
      assert fixed[1..] == Fixed(r, lines[1..], e1);
      FixedIsCompliant(r, lines[1..], e1, if r.respects then e1' else e1);
      if !r.respects {
        AnyState(r, fixed[1..], e1, e1');
      }
    }
  }

  /** Without guards the state does not matter. */
  lemma {:induction false} AnyState(r: Rules, lines: seq<string>, e: bool, e': bool)
    requires !r.respects
    ensures Compliant(r, lines, e) <==> Compliant(r, lines, e')
    ensures Compliant(r, lines, e) <==> forall i :: 0 <= i < |lines| ==> r.ok(lines[i])
  {
    if lines != [] {
      AnyState(r, lines[1..], e, e');
      assert forall i :: 1 <= i < |lines| ==> lines[i] == lines[1..][i - 1];
    }
  }

  /** Lines that were emptied do not count: reading the file again skips them. */
  lemma {:induction false} EmptiedLinesDoNotMatter(r: Rules, lines: seq<string>, e: bool)
    requires !IsGuard(r, "") && Compliant(r, lines, e)
    ensures Compliant(r, NonEmpty(lines), e)
  {
    if lines != [] {
      EmptiedLinesDoNotMatter(r, lines[1..], GuardState(r, e, lines[0]));
      if lines[0] != "" {
        assert NonEmpty(lines)[1..] == NonEmpty(lines[1..]);
      }
    }
  }

  // ----- a fix keeps what an earlier one achieved

  /** Whatever the first check accepts, it accepts after the fix of the second, or the line
      is gone. */
  ghost predicate Respects(q: Rules, r: Rules) {
    forall l :: q.ok(l) && !r.ok(l) ==> r.fix(l) == "" || q.ok(r.fix(l))
  }

  /** For a check without guards. */
  lemma {:induction false} FixKeepsPlain(q: Rules, r: Rules, lines: seq<string>, e: bool, e0: bool)
    requires !q.respects && Respects(q, r) && Compliant(q, lines, e0)
    ensures Compliant(q, NonEmpty(Fixed(r, lines, e)), e0)
  {
    if lines != [] {
      var fixed := Fixed(r, lines, e);
      assert fixed[1..] == Fixed(r, lines[1..], GuardState(r, e, lines[0]));
      FixKeepsPlain(q, r, lines[1..], GuardState(r, e, lines[0]), e0);
      if fixed[0] != "" {
        assert NonEmpty(fixed)[1..] == NonEmpty(fixed[1..]);
      }
    }
  }

  /** Both checks see the same guards, and the second neither fixes nor makes one. */
  ghost predicate SameGuards(q: Rules, r: Rules) {
    && q.respects && r.respects
    && (forall l :: q.isOn(l) == r.isOn(l) && q.isOff(l) == r.isOff(l))
    && (forall l :: !r.ok(l) ==> !IsGuard(r, l) && !IsGuard(r, r.fix(l)))
    && !IsGuard(r, "")
  }

  lemma {:induction false} FixKeepsGuarded(q: Rules, r: Rules, lines: seq<string>, e: bool)
    requires Respects(q, r) && SameGuards(q, r) && Compliant(q, lines, e)
    ensures Compliant(q, NonEmpty(Fixed(r, lines, e)), e)
  {
    if lines != [] {
      var fixed := Fixed(r, lines, e);
      var e1 := GuardState(r, e, lines[0]);
      assert fixed[1..] == Fixed(r, lines[1..], e1);
      assert GuardState(q, e, lines[0]) == e1 == GuardState(q, e, fixed[0]);
      FixKeepsGuarded(q, r, lines[1..], e1);
      if fixed[0] != "" {
        assert NonEmpty(fixed)[1..] == NonEmpty(fixed[1..]);
      }
    }
  }

  // ----- writing and reading

  ghost predicate KeepsLines(r: Rules) {
    forall l :: IsLine(l) ==>
      r.fix(l) == "" || (IsLine(r.fix(l)) && (Ends(l) ==> Ends(r.fix(l))))
  }

  lemma {:induction false} FixedIsWritable(r: Rules, lines: seq<string>, e: bool)
    requires KeepsLines(r) && Writable(lines) && NoneEmpty(lines)
    ensures Writable(Fixed(r, lines, e))
    ensures |Fixed(r, lines, e)| == |lines|
  {
    if lines != [] {
      assert lines[0] != "";
      FixedIsWritable(r, lines[1..], GuardState(r, e, lines[0]));
    }
  }

  /** The text of a file after one fixing pass, and what a later run reads from it. */
  function FixText(r: Rules, text: string): string {
    Join(Fixed(r, ReadLines(text), true))
  }

  lemma ReadFixed(r: Rules, text: string)
    requires KeepsLines(r)
    ensures ReadLines(FixText(r, text)) == NonEmpty(Fixed(r, ReadLines(text), true))
  {
    ReadIsWritable(text);
    FixedIsWritable(r, ReadLines(text), true);
    ReadWritten(Fixed(r, ReadLines(text), true));
  }

  // ----- what a fix leaves alone

  /** The latest guard at or before line `i` switches formatting off. */
  ghost predicate SwitchedOff(r: Rules, lines: seq<string>, i: nat)
    requires i < |lines|
  {
    exists j :: 0 <= j <= i && r.isOff(lines[j]) && !r.isOn(lines[j]) &&
                forall k :: j < k <= i ==> !IsGuard(r, lines[k])
  }

  function StateAfter(r: Rules, lines: seq<string>, e: bool, i: nat): bool
    requires i < |lines|
  {
    var e1 := GuardState(r, e, lines[0]);
    if i == 0 then e1 else StateAfter(r, lines[1..], e1, i - 1)
  }

  lemma {:induction false} FixedAt(r: Rules, lines: seq<string>, e: bool, i: nat)
    requires i < |lines|
    ensures |Fixed(r, lines, e)| == |lines|
    ensures r.respects && !StateAfter(r, lines, e, i) && !IsGuard(r, lines[i]) ==>
              Fixed(r, lines, e)[i] == lines[i]
  {
    var e1 := GuardState(r, e, lines[0]);
    if i > 0 {
      FixedAt(r, lines[1..], e1, i - 1);
    } else if |lines| > 1 {
      FixedAt(r, lines[1..], e1, 0);
    }
  }

  lemma {:induction false} OffStays(r: Rules, lines: seq<string>, e: bool, j: nat, i: nat)
    requires r.respects && j <= i < |lines| && r.isOff(lines[j]) && !r.isOn(lines[j])
    requires forall k :: j < k <= i ==> !IsGuard(r, lines[k])
    ensures !StateAfter(r, lines, e, i)
  {
    var e1 := GuardState(r, e, lines[0]);
    if j > 0 {
      OffStays(r, lines[1..], e1, j - 1, i - 1);
    } else if i > 0 {
      NoGuardKeepsState(r, lines[1..], e1, i - 1);
    }
  }

  lemma {:induction false} NoGuardKeepsState(r: Rules, lines: seq<string>, e: bool, i: nat)
    requires i < |lines| && forall k :: 0 <= k <= i ==> !IsGuard(r, lines[k])
    ensures StateAfter(r, lines, e, i) == e
  {
    if i > 0 {
      NoGuardKeepsState(r, lines[1..], GuardState(r, e, lines[0]), i - 1);
    }
  }

  /** A line that is not a guard, in a region that is switched off, is left as it is. */
  lemma GuardedRegionUnchanged(r: Rules, lines: seq<string>, i: nat)
    requires r.respects && i < |lines| && SwitchedOff(r, lines, i) && !IsGuard(r, lines[i])
    ensures |Fixed(r, lines, true)| == |lines|
    ensures Fixed(r, lines, true)[i] == lines[i]
  {
    var j :| 0 <= j <= i && r.isOff(lines[j]) && !r.isOn(lines[j]) &&
             forall k :: j < k <= i ==> !IsGuard(r, lines[k]);
    OffStays(r, lines, true, j, i);
    FixedAt(r, lines, true, i);
  }

  lemma {:induction false} StateIs(r: Rules, lines: seq<string>, e: bool, i: nat)
    requires r.respects && i < |lines|
    ensures SwitchedOff(r, lines, i) ==> !StateAfter(r, lines, e, i)
    ensures !SwitchedOff(r, lines, i) && e ==> StateAfter(r, lines, e, i)
    decreases i
  {
    if SwitchedOff(r, lines, i) {
      var j :| 0 <= j <= i && r.isOff(lines[j]) && !r.isOn(lines[j]) &&
               forall k :: j < k <= i ==> !IsGuard(r, lines[k]);
      OffStays(r, lines, e, j, i);
    } else if e {
      NextState(r, lines, e, i);
      if i > 0 && !IsGuard(r, lines[i]) {
        StateIs(r, lines, e, i - 1);
        if j :| 0 <= j <= i - 1 && r.isOff(lines[j]) && !r.isOn(lines[j]) &&
                forall k :: j < k <= i - 1 ==> !IsGuard(r, lines[k]) {
          assert forall k :: j < k <= i ==> !IsGuard(r, lines[k]);
        }
      }
    }
  }

  lemma {:induction false} NextState(r: Rules, lines: seq<string>, e: bool, i: nat)
    requires i < |lines|
    ensures StateAfter(r, lines, e, i) == GuardState(r, if i == 0 then e else StateAfter(r, lines, e, i - 1), lines[i])
  {
    if i > 0 {
      NextState(r, lines[1..], GuardState(r, e, lines[0]), i - 1);
    }
  }

  /** Line `i` is subject to the check: the check does not respect guards, the line is a guard
      itself, or formatting is not switched off there. */
  ghost predicate Subject(r: Rules, lines: seq<string>, i: nat)
    requires i < |lines|
  {
    !r.respects || IsGuard(r, lines[i]) || !SwitchedOff(r, lines, i)
  }

  lemma {:induction false} LookedAt(r: Rules, lines: seq<string>, e: bool)
    ensures |Fixed(r, lines, e)| == |lines|
    ensures Compliant(r, lines, e) <==>
            forall i :: 0 <= i < |lines| ==> (LookedAfter(r, lines, e, i) ==> r.ok(lines[i]))
    ensures forall i :: 0 <= i < |lines| ==>
              Fixed(r, lines, e)[i] == if LookedAfter(r, lines, e, i) && !r.ok(lines[i]) then r.fix(lines[i]) else lines[i]
  {
    if lines != [] {
      var e1 := GuardState(r, e, lines[0]);
      LookedAt(r, lines[1..], e1);
      forall i | 1 <= i < |lines| ensures LookedAfter(r, lines, e, i) == LookedAfter(r, lines[1..], e1, i - 1) {
      }
      assert forall i :: 1 <= i < |lines| ==> lines[i] == lines[1..][i - 1];
    }
  }

  predicate LookedAfter(r: Rules, lines: seq<string>, e: bool, i: nat)
    requires i < |lines|
  {
    !r.respects || StateAfter(r, lines, e, i) || IsGuard(r, lines[i])
  }

  /** For every check and every file: it is compliant if and only if every line that is subject
      to the check is, and fixing replaces exactly the lines that are subject to it and are not
      compliant. */
  lemma CheckMeans(r: Rules, lines: seq<string>)
    ensures Compliant(r, lines, true) <==>
            forall i :: 0 <= i < |lines| ==> (Subject(r, lines, i) ==> r.ok(lines[i]))
    ensures |Fixed(r, lines, true)| == |lines|
    ensures forall i :: 0 <= i < |lines| ==>
              Fixed(r, lines, true)[i] == if Subject(r, lines, i) && !r.ok(lines[i]) then r.fix(lines[i]) else lines[i]
  {
    LookedAt(r, lines, true);
    forall i: nat | i < |lines| ensures LookedAfter(r, lines, true, i) <==> Subject(r, lines, i) {
      if r.respects {
        StateIs(r, lines, true, i);
      }
    }
  }

  /** A fix that keeps the ink of each line keeps the ink of the file. */
  lemma {:induction false} FixKeepsInk(r: Rules, lines: seq<string>, e: bool)
    requires forall l :: Ink(r.fix(l)) == Ink(l)
    ensures Ink(Join(Fixed(r, lines, e))) == Ink(Join(lines))
  {
    if lines != [] {
      var e1 := GuardState(r, e, lines[0]);
      FixKeepsInk(r, lines[1..], e1);
      assert Fixed(r, lines, e)[1..] == Fixed(r, lines[1..], e1);
      InkConcat(lines[0], Join(lines[1..]));
      InkConcat(Fixed(r, lines, e)[0], Join(Fixed(r, lines[1..], e1)));
    }
  }
}
