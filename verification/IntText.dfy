/** The program's own integer parser and printer. */
module IntText {
  import opened Integers

  datatype Parsed = Bad | Good(value: int64)

  predicate HasSign(s: string) { s != "" && (s[0] == '-' || s[0] == '+') }

  /** The part that must be digits. */
  function Body(s: string): string { if HasSign(s) then s[1..] else s }

  predicate IsIntText(s: string) { Body(s) != "" && AllDigits(Body(s)) }

  /** The decimal value of an integer text, unbounded. */
  function SignedValue(s: string): int {
    if s != "" && s[0] == '-' then -ValueOf(Body(s)) else ValueOf(Body(s))
  }

  /** Exactly an optional sign and one or more digits is accepted; the result is the int64
      congruent to the decimal value modulo 2^64. */
  function ParseInt(s: string): Parsed {
    if IsIntText(s) then Good(Wrap64(SignedValue(s))) else Bad
  }

  lemma OneMoreDigit(seen: string, c: char, n: int)
    requires AllDigits(seen) && IsDigit(c) && n == Wrap64(ValueOf(seen))
    ensures AllDigits(seen + [c]) && Wrap64(n * 10 + DigitOf(c)) == Wrap64(ValueOf(seen + [c]))
  {
    ValueOfAppend(seen, c);
    WrapMulAdd(ValueOf(seen), DigitOf(c));
  }

  predicate Digital(s: string) { forall k :: 0 <= k < |s| ==> '0' <= s[k] <= '9' }

  /** What is accepted, and as what: digits alone, */
  lemma ParseUnsigned(s: string)
    requires s == "" || (s[0] != '-' && s[0] != '+')
    ensures ParseInt(s) == if s != "" && Digital(s) then Good(Wrap64(ValueOf(s))) else Bad
  {
    assert Body(s) == s;
  }

  /** or after one plus or minus sign. */
  lemma ParseSigned(c: char, digits: string)
    requires c == '-' || c == '+'
    ensures ParseInt([c] + digits) ==
            if digits == "" || !Digital(digits) then Bad
            else Good(Wrap64(if c == '-' then -ValueOf(digits) else ValueOf(digits)))
  {
    assert Body([c] + digits) == digits;
  }

  /** jsonParseInt: `pos` is the offset it returns, `out` what `*out` holds afterwards. */
  method JsonParseInt(s: string, out0: int64) returns (pos: nat, ok: bool, out: int64)
    ensures ok <==> IsIntText(s)
    ensures ok ==> pos == |s| && ParseInt(s) == Good(out)
    ensures !ok ==> out == out0
    ensures !ok && pos > 0 ==> pos < |s| && !IsDigit(s[pos]) && AllDigits(s[if HasSign(s) then 1 else 0..pos])
  {
    var n: int := 0;
    var neg := false;
    var i := 0;
    if i < |s| && (s[i] == '-' || s[i] == '+') {
      neg := s[i] == '-';
      i := i + 1;
    }
    var start := i;
    assert s[start..] == Body(s);
    assert s[start..i] == "";
    while i < |s|
      invariant start <= i <= |s|
      invariant AllDigits(s[start..i])
      invariant n == Wrap64(ValueOf(s[start..i]))
    {
      var c := s[i];
      if c < '0' || c > '9' {
        assert Body(s)[i - start] == c;
        return i, false, out0;
      }
      assert s[start..i + 1] == s[start..i] + [c];
      OneMoreDigit(s[start..i], c, n);
      n := Wrap64(n * 10 + DigitOf(c));
      i := i + 1;
    }
    assert s[start..i] == Body(s);
    if i == start {
      return 0, false, out0;
    }
    if neg {
      WrapNeg(ValueOf(Body(s)));
      n := Wrap64(-n);
    }
    return i, true, n;
  }

  /** What itoaS64 prints: the decimal text, except that negating the least int64 leaves it
      negative and the digit loop is never entered. */
  function ItoaSpec(n: int64): string {
    if n == MIN_INT64 then "-" else FormatInt(n)
  }

  /** The digits the loop has still to write. */
  function DigitsBefore(n: nat): string { if n > 0 then Digits(n) else "" }

  lemma OneDigitOut(n: nat, tail: string)
    requires n > 0
    ensures DigitsBefore(n / 10) + ([CharOf(n % 10)] + tail) == DigitsBefore(n) + tail
  {
  }

  /** No int64 has more than twenty digits. */
  lemma MaxDigits(n: nat)
    requires n <= TWO_63
    ensures |Digits(n)| <= 20
  {
    assert Pow10(5) == 100_000;
    assert Pow10(10) == 10_000_000_000;
    assert Pow10(15) == 1_000_000_000_000_000;
    assert Pow10(20) == 100_000_000_000_000_000_000;
    DigitsLength(n, 20);
  }

  /** The digit loop: writes the digits of n at the end of the buffer. */
  method FillDigits(buf: array<char>, n0: int) returns (i: nat)
    requires buf.Length == 24 && 0 < n0 <= TWO_63
    modifies buf
    ensures 4 <= i <= 24 && buf[i..] == Digits(n0)
  {
    MaxDigits(n0);
    var n := n0;
    i := 24;
    assert buf[i..] == [];
    while n > 0
      invariant 0 <= n && i <= 24
      invariant DigitsBefore(n) + buf[i..] == Digits(n0)
      decreases n
    {
      ghost var tail := buf[i..];
      OneDigitOut(n, tail);
      i := i - 1;
      buf[i] := CharOf(n % 10);
      assert buf[i..] == [CharOf(n % 10)] + tail;
      n := n / 10;
    }
  }

  /** Negating the least int64 leaves it as it is. */
  lemma Negated(n: int)
    requires MIN_INT64 <= n < 0
    ensures if n == MIN_INT64 then Wrap64(-n) == n else Wrap64(-n) == -n
  {
  }

  lemma ItoaIs(n: int, negated: int)
    requires MIN_INT64 <= n < TWO_63 && n != 0
    requires if n < 0 then negated == Wrap64(-n) else negated == n
    ensures negated <= TWO_63
    ensures ItoaSpec(n) == (if n < 0 then "-" else "") + (if negated > 0 then Digits(negated) else "")
  {
    if n < 0 {
      Negated(n);
    }
  }

  /** itoaS64: fills a 24-byte buffer from the back and never runs off its front. */
  method ItoaS64(n0: int64) returns (s: string)
    ensures s == ItoaSpec(n0)
    ensures if n0 == -0x8000_0000_0000_0000 then s == "-" else s == FormatInt(n0)
  {
    if n0 == 0 {
      return "0";
    }
    var n: int := n0;
    var neg := n < 0;
    if neg {
      n := Wrap64(-n);
    }
    ItoaIs(n0, n);
    var buf := new char[24](_ => '\0');
    var i := 24;
    if n > 0 {
      i := FillDigits(buf, n);
    }
    ghost var tail := buf[i..];
    assert tail == if n > 0 then Digits(n) else "";
    if neg {
      i := i - 1;
      buf[i] := '-';
      assert buf[i..] == "-" + tail;
    }
    return buf[i..];
  }

  /** Parsing the printed form of any int64 gives it back; for the least one the digits wrap
      and the negation wraps again. */
  lemma ParseOfFormat(n: int64)
    ensures ParseInt(FormatInt(n)) == Good(n)
  {
    BodyOfFormat(n);
    Unwrapped(n);
  }

  lemma BodyOfFormat(n: int)
    ensures IsIntText(FormatInt(n)) && SignedValue(FormatInt(n)) == n
  {
    if n < 0 {
      BodyOfDigits("-" + Digits(-n), Digits(-n));
      ValueOfDigits(-n);
    } else {
      BodyOfDigits(Digits(n), Digits(n));
      ValueOfDigits(n);
    }
  }

  lemma BodyOfDigits(s: string, digits: string)
    requires digits != "" && AllDigits(digits)
    requires s == digits || s == "-" + digits
    ensures Body(s) == digits
  {
    if s == digits {
      assert IsDigit(digits[0]);
    }
  }

  lemma Unwrapped(n: int64)
    ensures Wrap64(n) == n
  {
  }

  /** itoaS64 can be read back for every int64 but the least, and only for those. */
  lemma ItoaReadsBackIff(n: int64)
    ensures ParseInt(ItoaSpec(n)) == Good(n) <==> n != MIN_INT64
  {
    ParseOfFormat(n);
  }
}
