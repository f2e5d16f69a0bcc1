/** The node number in a trace path: it is printed when a trace is connected, and parsed again
    from the context in which the trace fires. */
module NodePath {
  import opened MachineWords
  import opened Wrappers

  // ----- printing

  function Digit(d: nat): char
    requires d < 10
  {
    '0' + d as char
  }

  /** The decimal digits of a number, without leading zeros. */
  function ToString(n: nat): string {
    if n < 10 then [Digit(n)] else ToString(n / 10) + [Digit(n % 10)]
  }

  function ContextOf(nodeId: nat, rest: string): string {
    "/NodeList/" + ToString(nodeId) + "/" + rest
  }

  // ----- parsing

  /** The first slash at or after `from`, -1 if there is none. */
  function FindSlash(s: string, from: nat): (n: int)
    ensures n == -1 || from <= n < |s|
    decreases |s| - from
  {
    if from >= |s| then -1 else if s[from] == '/' then from else FindSlash(s, from + 1)
  }

  predicate IsDigit(c: char) {
    '0' <= c <= '9'
  }

  predicate IsBlank(c: char) {
    c == ' ' || '\t' <= c <= '\r'
  }

  function DigitOf(c: char): nat
    requires IsDigit(c)
  {
    (c - '0') as nat
  }

  function DigitsPrefix(s: string): string {
    if s == "" || !IsDigit(s[0]) then "" else [s[0]] + DigitsPrefix(s[1..])
  }

  /** The value of a string of digits. */
  function Value(digits: string): nat
    requires forall i :: 0 <= i < |digits| ==> IsDigit(digits[i])
  {
    if digits == "" then 0
    else 10 * Value(digits[..|digits| - 1]) + DigitOf(digits[|digits| - 1])
  }

  lemma {:induction false} PrefixIsDigits(s: string)
    ensures forall i :: 0 <= i < |DigitsPrefix(s)| ==> IsDigit(DigitsPrefix(s)[i])
  {
    if s != "" && IsDigit(s[0]) {
      PrefixIsDigits(s[1..]);
    }
  }

  /** White space, a sign and digits; anything after them is ignored. No digits, or a value of
      2^64 or more, is an exception. A negated value wraps. */
  function Stoul(s: string): Option<nat> {
    if s == "" then None
    else if IsBlank(s[0]) then Stoul(s[1..])
    else
      var unsigned := if s[0] == '+' || s[0] == '-' then s[1..] else s;
      PrefixIsDigits(unsigned);
      var digits := DigitsPrefix(unsigned);
      if digits == "" || Value(digits) >= UINT64 then None
      else if s[0] == '-' then Some((UINT64 - Value(digits)) % UINT64)
      else Some(Value(digits))
  }

  /** The text between the second slash and the third, or the end, as a 32-bit number. The
      search for the second slash starts after the first character; if there is none, the
      text from the start counts. */
  function GetNodeIdFromContext(context: string): Option<nat> {
    var n1 := FindSlash(context, 1);
    var n2 := FindSlash(context, n1 + 1);
    var number := if n2 == -1 then context[n1 + 1..] else context[n1 + 1..n2];
    var parsed := Stoul(number);
    if parsed == None then None else Some(parsed.value % UINT32)
  }

  // ----- printing and parsing undo each other

  lemma {:induction false} ValueOfString(n: nat)
    ensures ToString(n) != ""
    ensures forall i :: 0 <= i < |ToString(n)| ==> IsDigit(ToString(n)[i])
    ensures Value(ToString(n)) == n
  {
    if n >= 10 {
      ValueOfString(n / 10);
      assert ToString(n)[..|ToString(n)| - 1] == ToString(n / 10);
    } else {
      assert ToString(n)[..0] == "";
    }
  }

  lemma StoulOfString(n: nat)
    requires n < UINT64
    ensures Stoul(ToString(n)) == Some(n)
  {
    StoulDigits(n, "");
    assert ToString(n) + "" == ToString(n);
  }

  lemma {:induction false} DigitsThen(digits: string, rest: string)
    requires forall i :: 0 <= i < |digits| ==> IsDigit(digits[i])
    requires rest == "" || !IsDigit(rest[0])
    ensures DigitsPrefix(digits + rest) == digits
  {
    if digits == "" {
      assert digits + rest == rest;
    } else {
      assert (digits + rest)[1..] == digits[1..] + rest;
      DigitsThen(digits[1..], rest);
    }
  }

  lemma StoulDigits(n: nat, rest: string)
    requires rest == "" || !IsDigit(rest[0])
    ensures Stoul(ToString(n) + rest) == if n < UINT64 then Some(n) else None
  {
    ValueOfString(n);
    DigitsThen(ToString(n), rest);
    assert IsDigit((ToString(n) + rest)[0]);
  }

  /** A minus sign before the digits negates modulo 2^64, and a plus sign changes nothing. */
  lemma StoulSigned(digits: string)
    requires digits != "" && IsDigit(digits[0])
    ensures Stoul("-" + digits) ==
            if Stoul(digits) == None then None else Some((UINT64 - Stoul(digits).value) % UINT64)
    ensures Stoul("+" + digits) == Stoul(digits)
  {
    var minus, plus := "-" + digits, "+" + digits;
    assert minus[0] == '-' && plus[0] == '+' && minus[1..] == digits && plus[1..] == digits;
  }

  /** White space before a number is skipped, and a text that does not go on like a number is an
      error. */
  lemma StoulSkips(blank: char, s: string)
    requires IsBlank(blank)
    ensures Stoul([blank] + s) == Stoul(s)
    ensures (s == "" || !(IsBlank(s[0]) || IsDigit(s[0]) || s[0] == '+' || s[0] == '-')) ==> Stoul(s) == None
  {
    assert ([blank] + s)[1..] == s;
  }

  lemma {:induction false} SlashAt(s: string, from: nat, n: nat)
    requires from <= n < |s| && s[n] == '/' && forall i :: from <= i < n ==> s[i] != '/'
    ensures FindSlash(s, from) == n
    decreases n - from
  {
    if from < n {
      SlashAt(s, from + 1, n);
    }
  }

  /** For every node number of 64 bits and whatever follows it, the number that is parsed is
      the one that was printed, cut to 32 bits. */
  lemma ParsedIsPrinted(nodeId: nat, rest: string)
    requires nodeId < UINT64
    ensures GetNodeIdFromContext(ContextOf(nodeId, rest)) == Some(nodeId % UINT32)
  {
    var context, digits := ContextOf(nodeId, rest), ToString(nodeId);
    var list := "/NodeList/";
    ValueOfString(nodeId);
    assert list[0] == '/' && list[1] == 'N' && list[2] == 'o' && list[3] == 'd' && list[4] == 'e';
    assert list[5] == 'L' && list[6] == 'i' && list[7] == 's' && list[8] == 't' && list[9] == '/' && |list| == 10;
    assert forall i :: 0 <= i < 10 ==> context[i] == list[i];
    SlashAt(context, 1, 9);
    assert forall i :: 0 <= i < |digits| ==> context[10 + i] == digits[i];
    SlashAt(context, 10, 10 + |digits|);
    assert context[10..10 + |digits|] == digits;
    StoulOfString(nodeId);
  }

  lemma ParsedFrom(context: string, nodeId: nat, rest: string)
    requires nodeId < UINT32 && context == ContextOf(nodeId, rest)
    ensures GetNodeIdFromContext(context) == Some(nodeId)
  {
    ParsedIsPrinted(nodeId, rest);
  }

  /** Two nodes never share a context, whatever follows their numbers. */
  lemma ContextsDiffer(context: string, m: nat, restM: string, n: nat, restN: string)
    requires m < UINT32 && n < UINT32 && context == ContextOf(m, restM) && context == ContextOf(n, restN)
    ensures m == n
  {
    ParsedFrom(context, m, restM);
    ParsedFrom(context, n, restN);
  }
}
