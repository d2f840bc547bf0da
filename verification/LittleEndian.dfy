/** Fixed-width little-endian integers. */
module LittleEndian {
  import opened Integers

  type Bytes = seq<byte>

  function Pow256(k: nat): (p: nat)
    ensures p > 0
  {
    if k == 0 then 1 else 256 * Pow256(k - 1)
  }

  /** The k low bytes of v, lowest first. */
  function Put(v: nat, k: nat): (b: Bytes)
    ensures |b| == k
  {
    if k == 0 then [] else [v % 256] + Put(v / 256, k - 1)
  }

  function Get(b: Bytes): nat {
    if b == [] then 0 else b[0] + 256 * Get(b[1..])
  }

  lemma {:induction false} GetOfPut(v: nat, k: nat)
    requires v < Pow256(k)
    ensures Get(Put(v, k)) == v
  {
    if k > 0 {
      GetOfPut(v / 256, k - 1);
      assert Put(v, k)[1..] == Put(v / 256, k - 1);
    }
  }

  /** Byte j has the weight 256^j. */
  lemma {:induction false} PutByte(v: nat, k: nat, j: nat)
    requires j < k
    ensures Put(v, k)[j] == v / Pow256(j) % 256
  {
    if j > 0 {
      PutByte(v / 256, k - 1, j - 1);
      assert Put(v, k)[j] == Put(v / 256, k - 1)[j - 1];
      DivTwice(v, Pow256(j - 1));
    }
  }

  lemma DivTwice(v: nat, p: nat)
    requires p > 0
    ensures v / 256 / p == v / (256 * p)
  {
    var q := v / (256 * p);
    var r := v - q * (256 * p);
    assert 0 <= r < 256 * p;
    var a := v / 256;
    assert a == q * p + r / 256;
    assert 0 <= r / 256 < p;
    DivUnique(a, p, q, r / 256);
  }

  lemma DivUnique(a: nat, p: nat, q: nat, r: nat)
    requires p > 0 && a == q * p + r && r < p
    ensures a / p == q
  {
    var d := a / p - q;
    assert d * p == r - a % p;
    assert d >= 1 ==> d * p >= p;
    assert d <= -1 ==> d * p + p <= 0;
  }

  /** The bytes of a word, lowest first, negative numbers in two's complement. */
  lemma Bytes64(n: int64, j: nat)
    requires j < 8
    ensures Put64(n)[j] == (n as int % 0x1_0000_0000_0000_0000) / Pow256(j) % 256
  {
    PutByte(n as int % TWO_64, 8, j);
  }

  lemma Bytes32(n: int32, u: uint32, j: nat)
    requires j < 4
    ensures Put32(n)[j] == (n as int % 0x1_0000_0000) / Pow256(j) % 256
    ensures PutU32(u)[j] == u / Pow256(j) % 256
  {
    PutByte(n as int % TWO_32, 4, j);
    PutByte(u, 4, j);
  }

  function Put64(n: int64): (b: Bytes)
    ensures |b| == 8
  {
    Put(n as int % TWO_64, 8)
  }

  function Put32(n: int32): (b: Bytes)
    ensures |b| == 4
  {
    Put(n as int % TWO_32, 4)
  }

  function PutU32(n: uint32): (b: Bytes)
    ensures |b| == 4
  {
    Put(n, 4)
  }

  function Get64(b: Bytes): int64 { Wrap64(Get(b)) }

  function Get32(b: Bytes): int32 { Wrap32(Get(b)) }

  lemma {:induction false} GetBound(b: Bytes)
    ensures Get(b) < Pow256(|b|)
  {
    if b != [] {
      GetBound(b[1..]);
    }
  }

  lemma Widths()
    ensures Pow256(4) == TWO_32 && Pow256(8) == TWO_64
  {
    assert Pow256(2) == 65536;
    assert Pow256(4) == TWO_32;
    assert Pow256(6) == TWO_32 * 65536;
  }

  function GetU32(b: Bytes): uint32
    requires |b| == 4
  {
    GetBound(b);
    Widths();
    Get(b)
  }

  lemma Back64(n: int64)
    ensures Get64(Put64(n)) == n
  {
    Widths();
    GetOfPut(n as int % TWO_64, 8);
    Wraps64(n);
  }

  lemma Wraps64(n: int64)
    ensures Wrap64(n as int % TWO_64) == n
  {
  }

  lemma Back32(n: int32)
    ensures Get32(Put32(n)) == n
  {
    Widths();
    GetOfPut(n as int % TWO_32, 4);
    Wraps32(n);
  }

  lemma Wraps32(n: int32)
    ensures Wrap32(n as int % TWO_32) == n
  {
  }

  lemma BackU32(n: uint32)
    ensures GetU32(PutU32(n)) == n
  {
    Widths();
    GetOfPut(n, 4);
  }
}
