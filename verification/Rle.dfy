/** The zero-run compression of file ids. */
module Rle {
  import opened Integers

  type Bytes = seq<byte>

  const MAX_RUN: nat := 255

  /** How many zeros x starts with, counted up to max. */
  function ZeroRun(x: Bytes, max: nat): (n: nat)
    ensures n <= max && n <= |x|
    ensures forall k :: 0 <= k < n ==> x[k] == 0
    ensures n == max || n == |x| || x[n] != 0
  {
    if max == 0 || x == [] || x[0] != 0 then 0 else 1 + ZeroRun(x[1..], max - 1)
  }

  /** What rleEncode computes. */
  function Encoded(x: Bytes): Bytes {
    if x == [] then []
    else if x[0] == 0 then
      var n := ZeroRun(x, MAX_RUN);
      [0, n] + Encoded(x[n..])
    else [x[0]] + Encoded(x[1..])
  }

  function Zeros(n: nat): (z: Bytes)
    ensures |z| == n && forall k :: 0 <= k < n ==> z[k] == 0
  {
    seq(n, _ => 0)
  }

  /** What rleDecode computes: a last zero without a count stands for itself. */
  function Decoded(y: Bytes): Bytes {
    if y == [] then []
    else if y[0] != 0 then [y[0]] + Decoded(y[1..])
    else if |y| == 1 then [0]
    else Zeros(y[1]) + Decoded(y[2..])
  }

  lemma {:induction false} AppendEncoded(out: Bytes, head: Bytes, tail: Bytes)
    ensures out + (head + tail) == out + head + tail
  {
  }

  /** rleEncode */
  method RleEncode(x: Bytes) returns (out: Bytes)
    ensures out == Encoded(x)
  {
    out := [];
    var i := 0;
    assert x[0..] == x;
    while i < |x|
      invariant i <= |x|
      invariant out + Encoded(x[i..]) == Encoded(x)
    {
      ghost var rest := x[i..];
      if x[i] == 0 {
        var j := i;
        while j < |x| && x[j] == 0 && j - i < 255
          invariant i <= j <= |x| && j - i <= MAX_RUN
          invariant forall k :: i <= k < j ==> x[k] == 0
        {
          j := j + 1;
        }
        RunIs(rest, j - i);
        assert rest[j - i..] == x[j..];
        AppendEncoded(out, [0, j - i], Encoded(x[j..]));
        out := out + [0, j - i];
        i := j;
      } else {
        assert rest[1..] == x[i + 1..];
        AppendEncoded(out, [x[i]], Encoded(x[i + 1..]));
        out := out + [x[i]];
        i := i + 1;
      }
    }
  }

  lemma RunIs(x: Bytes, n: nat)
    requires 0 < n <= |x| && n <= MAX_RUN && (forall k :: 0 <= k < n ==> x[k] == 0)
    requires n == MAX_RUN || n == |x| || x[n] != 0
    ensures ZeroRun(x, MAX_RUN) == n
  {
    var m := ZeroRun(x, MAX_RUN);
    assert m > n ==> x[n] == 0;
    assert m < n ==> x[m] == 0;
  }

  /** rleDecode */
  method RleDecode(y: Bytes) returns (out: Bytes)
    ensures out == Decoded(y)
  {
    out := [];
    var i := 0;
    assert y[0..] == y;
    while i < |y|
      invariant i <= |y|
      invariant out + Decoded(y[i..]) == Decoded(y)
    {
      ghost var rest := y[i..];
      if y[i] == 0 {
        if i + 1 < |y| {
          var n := y[i + 1];
          assert rest[2..] == y[i + 2..];
          AppendEncoded(out, Zeros(n), Decoded(y[i + 2..]));
          ghost var before := out;
          var k := 0;
          while k < n
            invariant k <= n && out == before + Zeros(k)
          {
            assert Zeros(k + 1) == Zeros(k) + [0];
            out := out + [0];
            k := k + 1;
          }
          i := i + 2;
          continue;
        }
        out := out + [0];
        i := i + 1;
        assert y[i..] == [];
        continue;
      }
      assert rest[1..] == y[i + 1..];
      AppendEncoded(out, [y[i]], Decoded(y[i + 1..]));
      out := out + [y[i]];
      i := i + 1;
    }
  }

  /** Decoding undoes encoding, runs of more than 255 zeros included. */
  lemma {:induction false} DecodeOfEncode(x: Bytes)
    ensures Decoded(Encoded(x)) == x
    decreases |x|
  {
    if x != [] {
      if x[0] == 0 {
        var n := ZeroRun(x, MAX_RUN);
        DecodeOfEncode(x[n..]);
        assert Encoded(x)[2..] == Encoded(x[n..]);
        assert x == Zeros(n) + x[n..];
      } else {
        DecodeOfEncode(x[1..]);
        assert Encoded(x)[1..] == Encoded(x[1..]);
      }
    }
  }

  /** Decoding byte by byte, canonical or not: a zero and a count stand for that many zeros, no
      zero for a count of none; any other byte stands for itself, as does a zero at the very end. */
  lemma DecodedByte(c: byte, n: byte, y: Bytes)
    ensures c != 0 ==> Decoded([c] + y) == [c] + Decoded(y)
    ensures Decoded([0, n] + y) == Zeros(n) + Decoded(y)
    ensures Decoded([0]) == [0] && Decoded([]) == []
  {
    assert ([c] + y)[1..] == y;
    assert ([0, n] + y)[2..] == y;
  }

  /** Every zero is followed by a count of 1..255, and no run is split that one count could hold. */
  predicate Canonical(y: Bytes) {
    y == []
    || (y[0] != 0 && Canonical(y[1..]))
    || (y[0] == 0 && |y| >= 2 && 1 <= y[1] && (y[1] < MAX_RUN ==> |y| == 2 || y[2] != 0) && Canonical(y[2..]))
  }

  lemma {:induction false} EncodedIsCanonical(x: Bytes)
    ensures Canonical(Encoded(x))
    decreases |x|
  {
    if x != [] {
      if x[0] == 0 {
        var n := ZeroRun(x, MAX_RUN);
        EncodedIsCanonical(x[n..]);
        assert Encoded(x)[2..] == Encoded(x[n..]);
      } else {
        EncodedIsCanonical(x[1..]);
        assert Encoded(x)[1..] == Encoded(x[1..]);
      }
    }
  }

  lemma {:induction false} DecodedHead(y: Bytes)
    requires Canonical(y)
    ensures Decoded(y) == [] <==> y == []
    ensures y != [] ==> (Decoded(y)[0] == 0 <==> y[0] == 0)
  {
  }

  lemma {:induction false} EncodeOfDecode(y: Bytes)
    requires Canonical(y)
    ensures Encoded(Decoded(y)) == y
    decreases |y|
  {
    if y != [] {
      var x := Decoded(y);
      if y[0] != 0 {
        EncodeOfDecode(y[1..]);
        assert x[1..] == Decoded(y[1..]);
        assert y == [y[0]] + y[1..];
      } else {
        EncodeOfDecode(y[2..]);
        DecodedHead(y[2..]);
        assert x[y[1]..] == Decoded(y[2..]);
        RunIs(x, y[1]);
        assert y == [y[0], y[1]] + y[2..];
      }
    }
  }

  /** The canonical byte strings are exactly the encodings. */
  lemma CanonicalExactly(y: Bytes)
    ensures Encoded(Decoded(y)) == y <==> Canonical(y)
  {
    if Canonical(y) {
      EncodeOfDecode(y);
    } else {
      EncodedIsCanonical(Decoded(y));
    }
  }

  lemma {:induction false} EncodedLength(x: Bytes)
    ensures |Encoded(x)| <= 2 * |x|
    decreases |x|
  {
    if x != [] {
      EncodedLength(if x[0] == 0 then x[ZeroRun(x, MAX_RUN)..] else x[1..]);
    }
  }

  /** A lone zero after an encoding is kept as a zero. */
  lemma {:induction false} TrailingZeroKept(y: Bytes)
    requires Canonical(y)
    ensures Decoded(y + [0]) == Decoded(y) + [0]
    decreases |y|
  {
    if y != [] {
      var z := y + [0];
      if y[0] != 0 {
        TrailingZeroKept(y[1..]);
        assert z[1..] == y[1..] + [0];
      } else {
        TrailingZeroKept(y[2..]);
        assert z[2..] == y[2..] + [0];
      }
    }
  }
}
