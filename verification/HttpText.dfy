/** Searching, trimming and decimal numbers over byte strings. */
module HttpText {
  import opened Optional

  /** std::find: the first position of `c`, or the length. */
  function Find(s: string, c: char): (n: nat)
    ensures n <= |s| && c !in s[..n] && (n < |s| ==> s[n] == c)
  {
    if s == "" || s[0] == c then 0
    else
      var n := Find(s[1..], c);
      assert s[..n + 1] == [s[0]] + s[1..][..n];
      n + 1
  }

  lemma FindAt(s: string, c: char, n: nat)
    requires n <= |s| && c !in s[..n] && (n < |s| ==> s[n] == c)
    ensures Find(s, c) == n
  {
    var m := Find(s, c);
    assert forall i :: 0 <= i < n ==> s[..n][i] == s[i] && s[i] in s[..n];
    assert forall i :: 0 <= i < m ==> s[..m][i] == s[i] && s[i] in s[..m];
  }

  predicate CrlfAt(s: string, i: nat) { i + 1 < |s| && s[i] == '\r' && s[i + 1] == '\n' }

  /** Buffer::findCRLF: the first line end, if there is one. */
  function FindCRLF(s: string): (r: Option<nat>)
    ensures r.Some? ==> CrlfAt(s, r.value) && forall i :: 0 <= i < r.value ==> !CrlfAt(s, i)
    ensures r.None? ==> forall i :: 0 <= i < |s| ==> !CrlfAt(s, i)
  {
    if |s| < 2 then None
    else if CrlfAt(s, 0) then Some(0)
    else
      match FindCRLF(s[1..])
      case None => assert forall i :: 0 < i < |s| && CrlfAt(s, i) ==> CrlfAt(s[1..], i - 1); None
      case Some(n) => assert forall i :: 0 < i < |s| && CrlfAt(s, i) ==> CrlfAt(s[1..], i - 1); Some(n + 1)
  }

  /** More input does not move the first line end. */
  lemma CrlfStable(a: string, b: string)
    requires FindCRLF(a).Some?
    ensures FindCRLF(a + b) == FindCRLF(a)
  {
    var n := FindCRLF(a).value;
    assert CrlfAt(a + b, n);
    assert forall i :: 0 <= i < n && CrlfAt(a + b, i) ==> CrlfAt(a, i);
  }

  /** A line without carriage returns ends where it should. */
  lemma LineEnd(line: string, rest: string)
    requires '\r' !in line
    ensures FindCRLF(line + "\r\n" + rest) == Some(|line|)
  {
    var s := line + "\r\n" + rest;
    assert CrlfAt(s, |line|);
    assert forall i :: 0 <= i < |line| ==> s[i] == line[i] && s[i] != '\r';
  }

  /** The bytes of a list of chunks. */
  function Flatten(chunks: seq<string>): string {
    if chunks == [] then "" else chunks[0] + Flatten(chunks[1..])
  }

  // ---- Case and blanks ----------------------------------------------------------------------------------

  function LowerChar(c: char): char { if 'A' <= c <= 'Z' then c + 32 as char else c }

  function Lower(s: string): (r: string)
    ensures |r| == |s|
  {
    if s == "" then "" else [LowerChar(s[0])] + Lower(s[1..])
  }

  predicate Blank(c: char) { c == ' ' || c == '\t' }

  function TrimLeft(s: string): string { if s != "" && Blank(s[0]) then TrimLeft(s[1..]) else s }

  function TrimRight(s: string): string { if s != "" && Blank(s[|s| - 1]) then TrimRight(s[..|s| - 1]) else s }

  function Trim(s: string): string { TrimRight(TrimLeft(s)) }

  predicate Trimmed(s: string) { s != "" ==> !Blank(s[0]) && !Blank(s[|s| - 1]) }

  lemma TrimSpaced(s: string)
    requires Trimmed(s)
    ensures Trim(" " + s) == s
  {
    var t := " " + s;
    assert t[0] == ' ' && t[1..] == s;
    assert TrimLeft(t) == TrimLeft(s) == s;
  }

  // ---- Decimal numbers ------------------------------------------------------------------------------------

  predicate Digit(c: char) { '0' <= c <= '9' }

  predicate AllDigits(s: string) { forall i :: 0 <= i < |s| ==> Digit(s[i]) }

  function DigitValue(c: char): (d: nat)
    requires Digit(c)
    ensures d <= 9
  {
    c as int - '0' as int
  }

  /** The number a digit string denotes, leading zeros included. */
  function Value(s: string): nat
    requires AllDigits(s)
  {
    if s == "" then 0 else 10 * Value(s[..|s| - 1]) + DigitValue(s[|s| - 1])
  }

  /** The bounded accumulation loop: fails on a non-digit or as soon as `max` would be passed. */
  function Accumulate(s: string, max: nat): Option<nat>
    requires max >= 9
  {
    if s == "" then Some(0)
    else
      match Accumulate(s[..|s| - 1], max)
      case None => None
      case Some(v) =>
        var c := s[|s| - 1];
        if !Digit(c) || v > (max - DigitValue(c)) / 10 then None
        else Some(v * 10 + DigitValue(c))
  }

  /** The loop accepts exactly the digit strings whose value is within the bound, and never
      computes past it. */
  lemma {:induction false} AccumulateExact(s: string, max: nat)
    requires max >= 9
    ensures Accumulate(s, max).Some? <==> AllDigits(s) && Value(s) <= max
    ensures Accumulate(s, max).Some? ==> Accumulate(s, max).value == Value(s)
  {
    if s != "" {
      var front, c := s[..|s| - 1], s[|s| - 1];
      AccumulateExact(front, max);
      assert AllDigits(s) <==> AllDigits(front) && Digit(c) by {
        assert s == front + [c];
      }
      if AllDigits(s) {
        var v, d := Value(front), DigitValue(c);
        assert v <= (max - d) / 10 <==> 10 * v + d <= max;
      }
    }
  }

  lemma {:induction false} AccumulatePrefix(s: string, i: nat, max: nat)
    requires max >= 9 && i <= |s| && Accumulate(s[..i], max).None?
    ensures Accumulate(s, max).None?
    decreases |s| - i
  {
    if i == |s| {
      assert s[..i] == s;
    } else {
      assert s[..i + 1][..i] == s[..i];
      AccumulatePrefix(s, i + 1, max);
    }
  }

  /** The loop itself. */
  method ParseBounded(s: string, max: nat) returns (r: Option<nat>)
    requires max >= 9
    ensures r.Some? <==> AllDigits(s) && Value(s) <= max
    ensures r.Some? ==> r.value == Value(s)
  {
    AccumulateExact(s, max);
    var length := 0;
    var i := 0;
    while i < |s|
      invariant 0 <= i <= |s|
      invariant Accumulate(s[..i], max) == Some(length)
    {
      assert s[..i + 1][..i] == s[..i];
      var ch := s[i];
      if !Digit(ch) {
        AccumulatePrefix(s, i + 1, max);
        return None;
      }
      var digit := DigitValue(ch);
      if length > (max - digit) / 10 {
        AccumulatePrefix(s, i + 1, max);
        return None;
      }
      length := length * 10 + digit;
      i := i + 1;
    }
    assert s[..i] == s;
    return Some(length);
  }

  function DigitChar(d: nat): (c: char)
    requires d < 10
    ensures Digit(c) && DigitValue(c) == d
  {
    ('0' as int + d) as char
  }

  /** std::to_string of a non-negative number. */
  function Decimal(n: nat): (s: string)
    ensures s != "" && AllDigits(s)
  {
    if n < 10 then [DigitChar(n)] else Decimal(n / 10) + [DigitChar(n % 10)]
  }

  lemma {:induction false} DecimalValue(n: nat)
    ensures Value(Decimal(n)) == n
  {
    var s := Decimal(n);
    if n >= 10 {
      DecimalValue(n / 10);
      assert s[..|s| - 1] == Decimal(n / 10);
    } else {
      assert s[..0] == "";
    }
  }
}
