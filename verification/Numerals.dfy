/** Decimal text and unsigned 64-bit numbers (stuif in utility.hpp). */
module Numerals {
  import opened Utility

  /** A C string: its characters up to, and without, the terminating NUL. */
  predicate CString(t: string)
  {
    forall i :: 0 <= i < |t| ==> t[i] != '\0'
  }

  /** The character at a position of a C string, the terminator included. */
  function CharAt(t: string, i: nat): char
    requires i <= |t|
  {
    if i < |t| then t[i] else '\0'
  }

  predicate IsDigit(c: char)
  {
    '0' <= c <= '9'
  }

  function DigitOf(c: char): int
  {
    c as int - '0' as int
  }

  /** The number that n characters of t stand for, as the code computes it: whatever the
      characters are, in unsigned 64-bit arithmetic, and looking at one character even if
      n is 0. */
  function Stuif(t: string, n: nat): nat
    requires n <= |t|
  {
    if n <= 1 then DigitOf(CharAt(t, 0)) % WORD_RANGE
    else (Stuif(t, n - 1) * 10 + DigitOf(t[n - 1])) % WORD_RANGE
  }

  /** A numeral of no characters has the value of the character behind it. */
  lemma EmptyNumeral(t: string)
    ensures Stuif(t, 0) == ((if t == "" then 0 else t[0] as int) - 48) % 0x1_0000_0000_0000_0000
  {
  }

  method ReadNumeral(text: string, start: nat, size: nat) returns (result: nat)
    requires start + size <= |text|
    ensures result == Stuif(text[start..], size)
  {
    var t := text[start..];
    result := DigitOf(CharAt(text, start)) % WORD_RANGE;
    var i := 1;
    while i < size
      invariant 1 <= i && (i <= size || size == 0)
      invariant result == Stuif(t, if size == 0 then 0 else i)
    {
      var shifted := result * 10 % WORD_RANGE;
      WrapOnce(result * 10, DigitOf(text[start + i]));
      result := (shifted + DigitOf(text[start + i])) % WORD_RANGE;
      i := i + 1;
    }
  }

  lemma WrapOnce(a: nat, b: int)
    ensures (a % WORD_RANGE + b) % WORD_RANGE == (a + b) % WORD_RANGE
  {
  }

  // ---------------------------------------------------------------- decimal numbers

  predicate Decimal(t: string)
  {
    t != "" && forall i :: 0 <= i < |t| ==> IsDigit(t[i])
  }

  /** What a decimal numeral means. */
  function ValueOf(t: string): nat
    requires forall i :: 0 <= i < |t| ==> IsDigit(t[i])
  {
    if t == "" then 0
    else
      assert IsDigit(t[|t| - 1]);
      ValueOf(t[..|t| - 1]) * 10 + DigitOf(t[|t| - 1])
  }

  function Digits(x: nat): (t: string)
    ensures Decimal(t) && ValueOf(t) == x
  {
    var last := [('0' as int + x % 10) as char];
    if x < 10 then last
    else
      var t := Digits(x / 10) + last;
      assert t[..|t| - 1] == Digits(x / 10);
      t
  }

  lemma WrapStep(a: nat, b: int)
    ensures (a % WORD_RANGE * 10 + b) % WORD_RANGE == (a * 10 + b) % WORD_RANGE
  {
    var q := a / WORD_RANGE;
    assert a * 10 + b == a % WORD_RANGE * 10 + b + q * 10 * WORD_RANGE;
  }

  /** Of a decimal numeral, the code computes the value modulo the range of the word, and
      does not look beyond it. */
  lemma {:induction false} StuifOfDecimal(t: string, n: nat)
    requires 0 < n <= |t| && Decimal(t[..n])
    ensures Stuif(t, n) == ValueOf(t[..n]) % WORD_RANGE
  {
    assert t[n - 1] == t[..n][n - 1];
    assert t[..n][..n - 1] == t[..n - 1];
    if n == 1 {
      assert ValueOf(t[..0]) == 0;
    } else {
      StuifOfDecimal(t, n - 1);
      WrapStep(ValueOf(t[..n - 1]), DigitOf(t[n - 1]));
    }
  }

  /** A number that is printed is read back exactly if it fits the word. */
  lemma PrintedIsRead(x: nat, rest: string)
    ensures Stuif(Digits(x) + rest, |Digits(x)|) == x % WORD_RANGE
    ensures Stuif(Digits(x) + rest, |Digits(x)|) == x <==> x < WORD_RANGE
  {
    var t := Digits(x) + rest;
    assert t[..|Digits(x)|] == Digits(x);
    StuifOfDecimal(t, |Digits(x)|);
  }
}
