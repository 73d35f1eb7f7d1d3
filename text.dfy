/**
 * The string operations the source relies on, restricted to what the model needs:
 * splitting on separator characters, replacing the first occurrence of a character,
 * decimal integer formatting, `Number(...)` on integer text, ASCII case mapping and
 * trimming white space.
 */
module Text {
  import opened Wrappers

  /** JavaScript `s.split(sep)` where the separator is any single character of `seps`. */
  function Split(s: string, seps: set<char>): (parts: seq<string>)
    ensures |parts| >= 1
  {
    if s == [] then [""]
    else if s[0] in seps then [""] + Split(s[1..], seps)
    else var rest := Split(s[1..], seps); [[s[0]] + rest[0]] + rest[1..]
  }

  predicate NoneOf(s: string, seps: set<char>) {
    forall i :: 0 <= i < |s| ==> s[i] !in seps
  }

  function CountOf(s: string, seps: set<char>): nat {
    if s == [] then 0 else (if s[0] in seps then 1 else 0) + CountOf(s[1..], seps)
  }

  /** Splitting yields one piece more than there are separators, and no piece holds a separator. */
  lemma {:induction false} SplitShape(s: string, seps: set<char>)
    ensures |Split(s, seps)| == CountOf(s, seps) + 1
    ensures forall k :: 0 <= k < |Split(s, seps)| ==> NoneOf(Split(s, seps)[k], seps)
  {
    if s != [] {
      SplitShape(s[1..], seps);
    }
  }

  /** A text with no separator splits into itself. */
  lemma {:induction false} SplitWhole(a: string, seps: set<char>)
    requires NoneOf(a, seps)
    ensures Split(a, seps) == [a]
  {
    if a != [] {
      SplitWhole(a[1..], seps);
      assert [a[0]] + a[1..] == a;
    }
  }

  /** The first separator ends the first piece. */
  lemma {:induction false} SplitAt(a: string, c: char, b: string, seps: set<char>)
    requires NoneOf(a, seps) && c in seps
    ensures Split(a + [c] + b, seps) == [a] + Split(b, seps)
  {
    if a == [] {
      assert a + [c] + b == [c] + b;
    } else {
      assert (a + [c] + b)[1..] == a[1..] + [c] + b;
      SplitAt(a[1..], c, b, seps);
      assert [a[0]] + a[1..] == a;
    }
  }

  /** JavaScript `s.replace(c, "")` for a one-character pattern: drops the first occurrence of `c`. */
  function ReplaceFirst(s: string, c: char): (r: string)
    ensures c in s ==> |r| == |s| - 1
    ensures c !in s ==> r == s
  {
    if s == [] then []
    else if s[0] == c then s[1..]
    else [s[0]] + ReplaceFirst(s[1..], c)
  }

  lemma {:induction false} ReplaceFirstAfter(a: string, c: char, b: string)
    requires c !in a
    ensures ReplaceFirst(a + [c] + b, c) == a + b
  {
    if a == [] {
      assert a + [c] + b == [c] + b;
    } else {
      assert (a + [c] + b)[1..] == a[1..] + [c] + b;
      ReplaceFirstAfter(a[1..], c, b);
      assert [a[0]] + (a[1..] + b) == a + b;
    }
  }

  predicate IsDigit(c: char) {
    '0' <= c <= '9'
  }

  predicate AllDigits(s: string) {
    forall i :: 0 <= i < |s| ==> IsDigit(s[i])
  }

  function DigitChar(d: nat): (c: char)
    requires d < 10
    ensures IsDigit(c)
  {
    "0123456789"[d]
  }

  function DigitValue(c: char): nat
    requires IsDigit(c)
  {
    c as int - '0' as int
  }

  /** Decimal digits of a natural number, most significant first, without leading zeros. */
  function NatToString(n: nat): (s: string)
    ensures |s| >= 1 && AllDigits(s)
  {
    if n < 10 then [DigitChar(n)] else NatToString(n / 10) + [DigitChar(n % 10)]
  }

  /** `String(n)` for an integer. */
  function IntToString(n: int): string {
    if n < 0 then "-" + NatToString(-n) else NatToString(n)
  }

  function DigitsValue(s: string): nat
    requires AllDigits(s)
  {
    if s == [] then 0 else 10 * DigitsValue(s[..|s| - 1]) + DigitValue(s[|s| - 1])
  }

  /**
   * `Number(s)` on integer text: the empty string is 0, an optional sign followed by
   * decimal digits is that integer, anything else is NaN (`None`).
   */
  function ParseNumber(s: string): Option<int> {
    if s == [] then Some(0)
    else if AllDigits(s) then Some(DigitsValue(s))
    else if (s[0] == '-' || s[0] == '+') && |s| > 1 && AllDigits(s[1..]) then
      Some(if s[0] == '-' then 0 - DigitsValue(s[1..]) as int else DigitsValue(s[1..]))
    else None
  }

  lemma {:induction false} DigitsOfNat(n: nat)
    ensures DigitsValue(NatToString(n)) == n
  {
    var s := NatToString(n);
    if n >= 10 {
      DigitsOfNat(n / 10);
      assert s[..|s| - 1] == NatToString(n / 10);
    }
  }

  /** Formatting an integer and reading it back with `Number` gives the integer again. */
  lemma IntRoundTrip(n: int)
    ensures ParseNumber(IntToString(n)) == Some(n)
    ensures forall i :: 0 <= i < |IntToString(n)| ==> IntToString(n)[i] != ',' && IntToString(n)[i] != ')' && IntToString(n)[i] != '('
  {
    if n < 0 {
      DigitsOfNat(-n);
      var s := IntToString(n);
      assert s[1..] == NatToString(-n);
      assert !IsDigit(s[0]);
    } else {
      DigitsOfNat(n);
    }
  }

  /** ASCII upper-case letters to lower case; the stand-in for `toLowerCase`. */
  function LowerChar(c: char): char {
    if 'A' <= c <= 'Z' then (c as int + 32) as char else c
  }

  function Lower(s: string): (r: string)
    ensures |r| == |s|
    ensures forall i :: 0 <= i < |s| ==> r[i] == LowerChar(s[i])
  {
    if s == [] then [] else [LowerChar(s[0])] + Lower(s[1..])
  }

  /** ASCII lower-case letters to upper case; the stand-in for `toUpperCase`. */
  function UpperChar(c: char): char {
    if 'a' <= c <= 'z' then (c as int - 32) as char else c
  }

  function Upper(s: string): (r: string)
    ensures |r| == |s|
    ensures forall i :: 0 <= i < |s| ==> r[i] == UpperChar(s[i])
  {
    if s == [] then [] else [UpperChar(s[0])] + Upper(s[1..])
  }

  /** The characters `trim` removes (white space and line terminators). */
  const WhiteSpace: set<char> := {' ', '\t', '\n', '\r', '\U{000B}', '\U{000C}', '\U{00A0}', '\U{2028}', '\U{2029}', '\U{FEFF}'}

  function TrimStart(s: string): (r: string)
    ensures |r| <= |s| && r == s[|s| - |r|..]
    ensures |r| > 0 ==> r[0] !in WhiteSpace
  {
    if s != [] && s[0] in WhiteSpace then TrimStart(s[1..]) else s
  }

  function TrimEnd(s: string): (r: string)
    ensures |r| <= |s| && r == s[..|r|]
    ensures |r| > 0 ==> r[|r| - 1] !in WhiteSpace
  {
    if s != [] && s[|s| - 1] in WhiteSpace then TrimEnd(s[..|s| - 1]) else s
  }

  function Trim(s: string): string {
    TrimEnd(TrimStart(s))
  }
}
