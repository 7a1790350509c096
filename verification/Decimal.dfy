/** Decimal text, as the program prints it with "%d" and reads it back with atoi and str_to_i. */
module Decimal {

  predicate IsDigit(c: char) {
    '0' <= c <= '9'
  }

  predicate AllDigits(s: string) {
    forall k :: 0 <= k < |s| ==> IsDigit(s[k])
  }

  function DigitValue(c: char): nat
    requires IsDigit(c)
  {
    c as int - '0' as int
  }

  function DigitChar(d: nat): (c: char)
    requires d < 10
    ensures IsDigit(c) && DigitValue(c) == d
  {
    (d + '0' as int) as char
  }

  /** The "%d" text of a natural number. */
  function Digits(n: nat): (s: string)
    ensures s != [] && AllDigits(s)
  {
    if n < 10 then [DigitChar(n)] else Digits(n / 10) + [DigitChar(n % 10)]
  }

  /** The "%d" text of an integer. */
  function IntText(n: int): string {
    if n < 0 then "-" + Digits(-n) else Digits(n)
  }

  /** The number that a run of digits denotes. */
  function Value(s: string): nat
    requires AllDigits(s)
  {
    if s == [] then 0 else 10 * Value(s[..|s| - 1]) + DigitValue(s[|s| - 1])
  }

  /** The first index at or after `at` that does not hold a digit. */
  function RunEnd(s: string, at: nat): (e: nat)
    requires at <= |s|
    ensures at <= e <= |s|
    ensures AllDigits(s[at..e])
    ensures e < |s| ==> !IsDigit(s[e])
    decreases |s| - at
  {
    if at < |s| && IsDigit(s[at]) then RunEnd(s, at + 1) else at
  }

  lemma {:induction false} RunEndUnique(s: string, at: nat, e: nat)
    requires at <= e <= |s| && AllDigits(s[at..e])
    requires e < |s| ==> !IsDigit(s[e])
    ensures RunEnd(s, at) == e
    decreases e - at
  {
    if at < e {
      assert s[at] == s[at..e][0];
      assert s[at + 1..e] == s[at..e][1..];
      RunEndUnique(s, at + 1, e);
    }
  }

  predicate IsSpace(c: char) {
    c == ' ' || '\t' <= c <= '\r'
  }

  /** C's atoi: skip white space, take an optional sign, then the digits. */
  function Atoi(s: string): int {
    if s != [] && IsSpace(s[0]) then Atoi(s[1..])
    else if s != [] && s[0] == '-' then 0 - Value(s[1..RunEnd(s, 1)])
    else if s != [] && s[0] == '+' then Value(s[1..RunEnd(s, 1)])
    else Value(s[..RunEnd(s, 0)])
  }

  lemma {:induction false} ValueOfDigits(n: nat)
    ensures Value(Digits(n)) == n
  {
    if n >= 10 {
      ValueOfDigits(n / 10);
      assert Digits(n)[..|Digits(n)| - 1] == Digits(n / 10);
    } else {
      assert [DigitChar(n)][..0] == [];
    }
  }

  /** Printing and reading back gives the same integer, negative ones included. */
  lemma AtoiOfIntText(n: int)
    ensures Atoi(IntText(n)) == n
  {
    var s := IntText(n);
    if n < 0 {
      assert s[1..] == Digits(-n) == s[1..|s|];
      RunEndUnique(s, 1, |s|);
      ValueOfDigits(-n);
    } else {
      assert IsDigit(s[0]);
      assert s[0..|s|] == s == s[..|s|];
      RunEndUnique(s, 0, |s|);
      ValueOfDigits(n);
    }
  }

  /** atoi skips white space. */
  lemma AtoiSkips(s: string, c: char)
    requires c == ' ' || c == '\t' || c == '\n' || c == '\r' || c as int == 11 || c as int == 12
    ensures Atoi([c] + s) == Atoi(s)
  {
    var t := [c] + s;
    assert t[0] == c && t[1..] == s;
    assert IsSpace(c);
  }

  /** It takes a plus sign. */
  lemma AtoiPlus(s: string)
    requires AllDigits(s)
    ensures Atoi("+" + s) == Value(s)
  {
    var t := "+" + s;
    assert t[0] == '+' && t[1..|t|] == s;
    RunEndUnique(t, 1, |t|);
    hide Value;
  }

  /** And text that does not start as a number reads as 0. */
  lemma AtoiOther(s: string)
    requires s == "" || (s[0] > ' ' && !IsDigit(s[0]) && s[0] != '+' && s[0] != '-')
    ensures Atoi(s) == 0
  {
    assert RunEnd(s, 0) == 0 && s[..0] == "";
  }

  lemma {:induction false} DigitsLength(n: nat, k: nat)
    requires k > 0 && n < Pow10(k)
    ensures |Digits(n)| <= k
  {
    if n >= 10 {
      DigitsLength(n / 10, k - 1);
    }
  }

  function Pow10(k: nat): nat {
    if k == 0 then 1 else 10 * Pow10(k - 1)
  }

  /** The text of a 32-bit int has at most eleven characters. */
  lemma IntTextLength(n: int)
    requires -TWO31 <= n < TWO31
    ensures 1 <= |IntText(n)| <= 11
  {
    assert Pow10(10) == 10000000000;
    DigitsLength(if n < 0 then -n else n, 10);
  }

  // ----- machine integers and C strings

  /** The size of every buffer for a message, a line or a packet. */
  const BUFSIZE: nat := 2000

  const TWO31: int := 0x8000_0000
  const TWO32: int := 0x1_0000_0000

  /** The value kept by a 32-bit two's complement int. */
  function Wrap32(x: int): (r: int)
    ensures -TWO31 <= r < TWO31
    ensures -TWO31 <= x < TWO31 ==> r == x
  {
    (x + TWO31) % TWO32 - TWO31
  }

  lemma WrapAbsorbs(x: int, d: int)
    ensures Wrap32(10 * Wrap32(x) + d) == Wrap32(10 * x + d)
  {
    var k := (x + TWO31) / TWO32;
    assert Wrap32(x) == x - k * TWO32;
    assert 10 * Wrap32(x) + d == 10 * x + d - (10 * k) * TWO32;
    ModShift(10 * x + d + TWO31, 10 * k);
  }

  /** Taken back to unsigned, a wrapped 32-bit number is itself again. */
  lemma UnsignedOfWrap(x: nat)
    requires x < TWO32
    ensures Wrap32(x) % TWO32 == x
  {
  }

  lemma ModShift(y: int, k: int)
    ensures (y - k * TWO32) % TWO32 == y % TWO32
  {
    var q, r := y / TWO32, y % TWO32;
    assert y - k * TWO32 == (q - k) * TWO32 + r;
  }

  /** A C string with its terminator: the last character, and only it, is NUL. */
  predicate CString(b: string) {
    && |b| > 0 && b[|b| - 1] == '\0'
    && forall k :: 0 <= k < |b| - 1 ==> b[k] != '\0'
  }

  /** What str_to_i computes: the digits at `at`, kept in a 32-bit int. */
  function StrToI(b: string, at: nat): int
    requires at <= |b|
  {
    Wrap32(Value(b[at..RunEnd(b, at)]))
  }

  /** str_to_i. Every index read lies inside the string or on its terminator. */
  method ReadInt(b: string, at: nat) returns (n: int)
    requires CString(b) && at < |b|
    ensures n == StrToI(b, at)
    ensures RunEnd(b, at) < |b|
  {
    n := 0;
    var i := 0;
    while IsDigit(b[at + i])
      invariant at + i < |b| && forall k :: at <= k < at + i ==> IsDigit(b[k])
      invariant n == Wrap32(Value(b[at..at + i]))
      decreases |b| - i
    {
      ghost var v := Value(b[at..at + i]);
      assert b[at..at + i + 1][..i] == b[at..at + i];
      WrapAbsorbs(v, DigitValue(b[at + i]));
      n := Wrap32(10 * n + b[at + i] as int - '0' as int);
      i := i + 1;
    }
    RunEndUnique(b, at, at + i);
  }
}
