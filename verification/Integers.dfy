/** Go's integers where their width matters, and decimal text. */
module Integers {

  type byte = x: int | 0 <= x < 256

  const TWO_31: int := 0x8000_0000
  const TWO_32: int := 0x1_0000_0000
  const TWO_63: int := 0x8000_0000_0000_0000
  const TWO_64: int := 0x1_0000_0000_0000_0000

  type int32 = x: int | -0x8000_0000 <= x < 0x8000_0000
  type int64 = x: int | -0x8000_0000_0000_0000 <= x < 0x8000_0000_0000_0000
  type uint32 = x: int | 0 <= x < 0x1_0000_0000

  const MIN_INT64: int64 := -0x8000_0000_0000_0000

  /** The int64 congruent to x modulo 2^64: what an int64 operation leaves of x. */
  function Wrap64(x: int): (r: int)
    ensures -0x8000_0000_0000_0000 <= r < 0x8000_0000_0000_0000
    ensures (r - x) % 0x1_0000_0000_0000_0000 == 0
  {
    (x + TWO_63) % TWO_64 - TWO_63
  }

  /** The conversion int32(x). */
  function Wrap32(x: int): (r: int)
    ensures -0x8000_0000 <= r < 0x8000_0000
    ensures (r - x) % 0x1_0000_0000 == 0
  {
    (x + TWO_31) % TWO_32 - TWO_31
  }

  /** Wrapping at every step of a multiply-add is wrapping once at the end. */
  lemma WrapMulAdd(x: int, c: int)
    ensures Wrap64(Wrap64(x) * 10 + c) == Wrap64(x * 10 + c)
  {
    var turns := (x + TWO_63) / TWO_64;
    assert Wrap64(x) == x - turns * TWO_64;
    WrapTurns(x * 10 + c, -(turns * 10));
  }

  lemma WrapNeg(x: int)
    ensures Wrap64(-Wrap64(x)) == Wrap64(-x)
  {
    var turns := (x + TWO_63) / TWO_64;
    assert Wrap64(x) == x - turns * TWO_64;
    WrapTurns(-x, turns);
  }

  /** Whole turns of the ring change nothing. */
  lemma WrapTurns(x: int, turns: int)
    ensures Wrap64(x + turns * TWO_64) == Wrap64(x)
  {
  }

  // ---- decimal digits ----

  predicate IsDigit(c: char) { '0' <= c <= '9' }

  function DigitOf(c: char): int { c as int - '0' as int }

  function CharOf(d: int): (c: char)
    requires 0 <= d < 10
    ensures IsDigit(c) && DigitOf(c) == d
  {
    (d + '0' as int) as char
  }

  /** The digits are the usual ones. */
  lemma DigitsAre(d: nat)
    requires d < 10
    ensures CharOf(d) == "0123456789"[d] && DigitOf("0123456789"[d]) == d
  {
  }

  predicate AllDigits(s: string) { forall k :: 0 <= k < |s| ==> IsDigit(s[k]) }

  /** The number that a string of digits stands for. */
  function ValueOf(s: string): int {
    if s == "" then 0 else ValueOf(s[..|s| - 1]) * 10 + DigitOf(s[|s| - 1])
  }

  lemma ValueOfAppend(s: string, c: char)
    ensures ValueOf(s + [c]) == ValueOf(s) * 10 + DigitOf(c)
  {
    assert (s + [c])[..|s|] == s;
  }

  /** The digits of a natural number, without leading zeros. */
  function Digits(n: nat): (s: string)
    ensures s != "" && AllDigits(s)
    ensures s[0] == '0' <==> n == 0
  {
    if n < 10 then [CharOf(n)] else Digits(n / 10) + [CharOf(n % 10)]
  }

  /** strconv.FormatInt(n, 10) */
  function FormatInt(n: int): string {
    if n < 0 then "-" + Digits(-n) else Digits(n)
  }

  lemma {:induction false} ValueOfDigits(n: nat)
    ensures ValueOf(Digits(n)) == n
  {
    if n >= 10 {
      ValueOfDigits(n / 10);
      assert Digits(n)[..|Digits(n)| - 1] == Digits(n / 10);
    } else {
      assert [CharOf(n)][..0] == "";
      assert ValueOf([CharOf(n)][..0]) == 0;
    }
  }

  function Pow10(k: nat): nat { if k == 0 then 1 else 10 * Pow10(k - 1) }

  lemma {:induction false} DigitsLength(n: nat, k: nat)
    requires 1 <= k && n < Pow10(k)
    ensures |Digits(n)| <= k
    decreases k
  {
    if n >= 10 {
      assert k >= 2;
      DigitsLength(n / 10, k - 1);
    }
  }

  /** The number that a decimal text stands for. */
  function NumberOf(s: string): int {
    if s != "" && s[0] == '-' then -ValueOf(s[1..]) else ValueOf(s)
  }

  lemma NumberOfFormat(n: int)
    ensures NumberOf(FormatInt(n)) == n
  {
    ValueOfDigits(if n < 0 then -n else n);
    if n < 0 {
      assert FormatInt(n)[1..] == Digits(-n);
    } else {
      assert IsDigit(Digits(n)[0]);
    }
  }

  lemma FormatIntInjective(m: int, n: int)
    requires FormatInt(m) == FormatInt(n)
    ensures m == n
  {
    NumberOfFormat(m);
    NumberOfFormat(n);
  }
}
