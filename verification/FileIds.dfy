/** File ids: a file's identity packed into bytes, compressed and written as base64. */
module FileIds {
  import opened Integers
  import opened LittleEndian
  import Rle

  datatype Option<T> = None | Some(value: T)

  datatype Info = Info(dc: int32, fileType: uint32, id: int64, accessHash: int64, fileRef: Bytes,
                       volumeID: int64, localID: int32, photoSize: Bytes, sourceType: int)

  datatype Result = BadBase64 | TooShort | Ok(info: Info)

  /** The base64 codecs of the library: URL alphabet without padding, and the standard one. */
  datatype Base64 = Base64(encodeURL: Bytes -> string, decodeURL: string -> Option<Bytes>,
                           decodeStd: string -> Option<Bytes>)

  /** Section 5 of RFC 4648: decoding undoes encoding, and the alphabet has no slash. */
  ghost predicate Lawful(b: Base64) {
    forall x: Bytes :: b.decodeURL(b.encodeURL(x)) == Some(x) && '/' !in b.encodeURL(x)
  }

  lemma EncodeURLInjective(b: Base64, x: Bytes, y: Bytes)
    requires Lawful(b)
    ensures b.encodeURL(x) == b.encodeURL(y) <==> x == y
  {
    assert b.decodeURL(b.encodeURL(x)) == Some(x);
    assert b.decodeURL(b.encodeURL(y)) == Some(y);
  }

  // ---- layout ----

  const TYPE_LIMIT: nat := 0x100_0000

  /** A block with its length byte; an empty one leaves no trace. */
  function Block(s: Bytes): Bytes {
    if s == [] then [] else [|s| % 256] + s
  }

  function Fixed(i: Info): (b: Bytes)
    ensures |b| == 24
  {
    Put64(i.id) + Put64(i.accessHash) + Put32(i.dc) + PutU32(i.fileType)
  }

  /** The bytes that are compressed into a file id; they end in a version. */
  function Layout(i: Info): (b: Bytes)
    ensures |b| >= 26
  {
    Fixed(i) + Block(i.fileRef) + Block(i.photoSize) + [4, 30]
  }

  function Encoded(b: Base64, i: Info): string { b.encodeURL(Rle.Encoded(Layout(i))) }

  /** The file reference at the start of what follows the fixed part, if its length byte fits. */
  function RefOf(rest: Bytes): Bytes {
    if rest == [] || rest[0] == 0 || rest[0] > |rest| - 1 then [] else rest[1..1 + rest[0]]
  }

  /** What Decode makes of uncompressed bytes. */
  function Read(raw: Bytes): Result {
    if |raw| < 26 then TooShort
    else
      Ok(Info(Get32(raw[16..20]), GetU32(raw[20..24]) % TYPE_LIMIT, Get64(raw[..8]), Get64(raw[8..16]),
              RefOf(raw[24..|raw| - 2]), 0, 0, [], 0))
  }

  /** The bytes that Decode finds in the text: the standard alphabet is tried second. */
  function Unarmoured(b: Base64, s: string): Option<Bytes> {
    if b.decodeURL(s).Some? then b.decodeURL(s) else b.decodeStd(s)
  }

  function Decoded(b: Base64, s: string): Result {
    var raw := Unarmoured(b, s);
    if raw.None? then BadBase64 else Read(Rle.Decoded(raw.value))
  }

  /** Info.Encode */
  method Encode(b: Base64, i: Info) returns (s: string)
    ensures s == Encoded(b, i)
    ensures Lawful(b) ==> Decoded(b, s) == Ok(Kept(i))
  {
    var buf := Put64(i.id);
    buf := buf + Put64(i.accessHash);
    buf := buf + Put32(i.dc);
    buf := buf + PutU32(i.fileType);
    if |i.fileRef| > 0 {
      buf := buf + [|i.fileRef| % 256];
      buf := buf + i.fileRef;
    }
    assert buf == Fixed(i) + Block(i.fileRef);
    if i.photoSize != [] {
      buf := buf + [|i.photoSize| % 256];
      buf := buf + i.photoSize;
    }
    assert buf == Fixed(i) + Block(i.fileRef) + Block(i.photoSize);
    buf := buf + [4];
    buf := buf + [30];
    assert buf == Layout(i);
    var packed := Rle.RleEncode(buf);
    s := b.encodeURL(packed);
    if Lawful(b) {
      DecodeOfEncode(b, i);
    }
  }

  /** A reader over a byte slice. */
  class Reader {
    const data: Bytes
    var pos: nat

    constructor (data: Bytes)
      ensures this.data == data && pos == 0
    {
      this.data := data;
      pos := 0;
    }

    ghost function Rest(): Bytes
      requires pos <= |data|
      reads this
    {
      data[pos..]
    }

    method Read(n: nat) returns (b: Bytes)
      requires pos <= |data| && n <= |Rest()|
      modifies this
      ensures pos == old(pos) + n && b == old(Rest())[..n] && Rest() == old(Rest())[n..]
    {
      b := data[pos..pos + n];
      pos := pos + n;
    }
  }

  /** fileid.Decode: the standard alphabet is tried when the URL alphabet fails. */
  method Decode(b: Base64, s: string) returns (r: Result)
    ensures r == Decoded(b, s)
    ensures r.BadBase64? <==> b.decodeURL(s).None? && b.decodeStd(s).None?
    ensures b.decodeURL(s).Some? ==> r == Read(Rle.Decoded(b.decodeURL(s).value))
    ensures b.decodeURL(s).None? && b.decodeStd(s).Some? ==> r == Read(Rle.Decoded(b.decodeStd(s).value))
  {
    var armoured := b.decodeURL(s);
    if armoured.None? {
      armoured := b.decodeStd(s);
      if armoured.None? {
        return BadBase64;
      }
    }
    var raw := Rle.RleDecode(armoured.value);
    if |raw| < 8 + 8 + 4 + 4 + 1 + 1 {
      return TooShort;
    }
    r := ReadInfo(raw);
  }

  method ReadInfo(raw: Bytes) returns (r: Result)
    requires |raw| >= 26
    ensures r == Read(raw)
  {
    var body := raw[..|raw| - 2];
    var reader := new Reader(body);
    var id := reader.Read(8);
    var accessHash := reader.Read(8);
    var dc := reader.Read(4);
    var fileType := reader.Read(4);
    assert id == raw[..8] && accessHash == raw[8..16] && dc == raw[16..20] && fileType == raw[20..24];
    assert reader.Rest() == raw[24..|raw| - 2];
    var ref: Bytes := [];
    if reader.pos < |body| {
      var refLen := reader.Read(1);
      if refLen[0] > 0 && refLen[0] <= |body| - reader.pos {
        ref := reader.Read(refLen[0]);
      }
    }
    assert ref == RefOf(raw[24..|raw| - 2]);
    return Ok(Info(Get32(dc), GetU32(fileType) % TYPE_LIMIT, Get64(id), Get64(accessHash), ref, 0, 0, [], 0));
  }

  // ---- the round trip ----

  lemma FixedReads(i: Info, tail: Bytes, raw: Bytes)
    requires raw == Fixed(i) + tail
    ensures raw[..8] == Put64(i.id) && raw[8..16] == Put64(i.accessHash)
    ensures raw[16..20] == Put32(i.dc) && raw[20..24] == PutU32(i.fileType)
    ensures raw[24..] == tail
  {
  }

  /** The bytes that Read looks at: a body, and two bytes of version that it does not look at. */
  lemma ReadIs(raw: Bytes)
    ensures Read(raw) == TooShort <==> |raw| < 26
    ensures |raw| >= 26 ==>
              var i, rest := Read(raw).info, raw[24..|raw| - 2];
              && i.id == Get64(raw[..8]) && i.accessHash == Get64(raw[8..16]) && i.dc == Get32(raw[16..20])
              && i.fileType == GetU32(raw[20..24]) % 0x100_0000
              && i.photoSize == [] && i.volumeID == 0 && i.localID == 0 && i.sourceType == 0
              && (rest != [] && 1 <= rest[0] <= |rest| - 1 ==> i.fileRef == rest[1..1 + rest[0]])
              && (rest == [] || rest[0] == 0 || rest[0] > |rest| - 1 ==> i.fileRef == [])
  {
  }

  /** What is left of an info when its file id is decoded. */
  function Kept(i: Info): Info {
    Info(i.dc, i.fileType % TYPE_LIMIT, i.id, i.accessHash, RefOf(Block(i.fileRef) + Block(i.photoSize)), 0, 0, [], 0)
  }

  lemma LayoutSplits(i: Info, raw: Bytes, blocks: Bytes)
    requires raw == Layout(i) && blocks == Block(i.fileRef) + Block(i.photoSize)
    ensures raw == Fixed(i) + (blocks + [4, 30]) && |raw| >= 26
    ensures raw[24..|raw| - 2] == blocks
  {
    Regroup(Fixed(i), Block(i.fileRef), Block(i.photoSize));
    Regroup(Fixed(i), blocks, [4, 30]);
    Middle(Fixed(i), blocks, [4, 30], raw);
  }

  lemma Regroup(a: Bytes, b: Bytes, c: Bytes)
    ensures a + b + c == a + (b + c)
  {
  }

  lemma Middle(a: Bytes, b: Bytes, c: Bytes, s: Bytes)
    requires s == a + (b + c)
    ensures s[|a|..|s| - |c|] == b
  {
    assert s[|a|..] == b + c;
  }

  lemma ReadOfLayout(i: Info)
    ensures Read(Layout(i)) == Ok(Kept(i))
  {
    var raw, blocks := Layout(i), Block(i.fileRef) + Block(i.photoSize);
    LayoutSplits(i, raw, blocks);
    FixedReads(i, blocks + [4, 30], raw);
    Back64(i.id);
    Back64(i.accessHash);
    Back32(i.dc);
    BackU32(i.fileType);
  }

  /** Every file id decodes. */
  lemma DecodeOfEncode(b: Base64, i: Info)
    requires Lawful(b)
    ensures Decoded(b, Encoded(b, i)) == Ok(Kept(i))
  {
    var packed := Rle.Encoded(Layout(i));
    assert b.decodeURL(b.encodeURL(packed)) == Some(packed);
    Rle.DecodeOfEncode(Layout(i));
    ReadOfLayout(i);
  }

  /** When the blocks give the file reference back: it is 1..255 bytes long, or it is empty and
      the length byte of the photo size is not mistaken for one of a reference. */
  predicate RefFits(i: Info) {
    1 <= |i.fileRef| <= 255 || (i.fileRef == [] && |i.photoSize| % 256 == 0)
  }

  lemma NoRefBack(size: Bytes)
    ensures RefOf(Block(size)) == [] <==> |size| % 256 == 0
  {
    if size != [] {
      assert Block(size)[0] == |size| % 256;
    }
  }

  lemma RefBack(ref: Bytes, rest: Bytes, more: Bytes)
    requires ref != [] && rest == Block(ref) + more
    ensures RefOf(rest) == ref <==> |ref| <= 255
  {
    assert rest[0] == |ref| % 256;
    if |ref| <= 255 {
      assert rest[1..1 + |ref|] == ref;
    } else {
      assert |RefOf(rest)| <= 255;
    }
  }

  lemma RefBackExactly(i: Info)
    ensures Kept(i).fileRef == i.fileRef <==> RefFits(i)
  {
    if i.fileRef == [] {
      assert Block(i.fileRef) + Block(i.photoSize) == Block(i.photoSize);
      NoRefBack(i.photoSize);
    } else {
      RefBack(i.fileRef, Block(i.fileRef) + Block(i.photoSize), Block(i.photoSize));
    }
  }

  predicate SameFile(i: Info, j: Info) {
    i.dc == j.dc && i.fileType == j.fileType && i.id == j.id && i.accessHash == j.accessHash && i.fileRef == j.fileRef
  }

  /** Decoding a file id gives the file's identity back exactly when the type fits 24 bits and the
      file reference fits its length byte, or is absent with no photo size to be taken for it. */
  lemma IdentityBackExactly(b: Base64, i: Info)
    requires Lawful(b)
    ensures Decoded(b, Encoded(b, i)).Ok?
    ensures SameFile(Decoded(b, Encoded(b, i)).info, i) <==> i.fileType < 0x100_0000 && RefFits(i)
  {
    DecodeOfEncode(b, i);
    SameWhenKept(i, Kept(i));
  }

  lemma SameWhenKept(i: Info, kept: Info)
    requires kept == Kept(i)
    ensures SameFile(kept, i) <==> i.fileType < TYPE_LIMIT && RefFits(i)
  {
    RefBackExactly(i);
    LowBits(i.fileType);
  }

  lemma LowBits(t: uint32)
    ensures t % TYPE_LIMIT == t <==> t < TYPE_LIMIT
  {
  }

  // ---- unique ids ----

  function UniqueLayout(i: Info): Bytes { PutU32(i.fileType) + Put64(i.id) + Block(i.photoSize) }

  function Unique(b: Base64, i: Info): string { b.encodeURL(UniqueLayout(i)) }

  /** Info.UniqueID */
  method UniqueID(b: Base64, i: Info) returns (s: string)
    ensures s == Unique(b, i)
    ensures Lawful(b) ==> forall j :: Unique(b, j) == s <==>
              j.fileType == i.fileType && j.id == i.id && j.photoSize == i.photoSize
  {
    var buf := PutU32(i.fileType);
    buf := buf + Put64(i.id);
    if i.photoSize != [] {
      buf := buf + [|i.photoSize| % 256];
      buf := buf + i.photoSize;
    }
    assert buf == UniqueLayout(i);
    s := b.encodeURL(buf);
    if Lawful(b) {
      forall j ensures Unique(b, j) == s <==>
          j.fileType == i.fileType && j.id == i.id && j.photoSize == i.photoSize {
        UniqueExactly(b, j, i);
      }
    }
  }

  lemma BlockInjective(s: Bytes, t: Bytes)
    requires Block(s) == Block(t)
    ensures s == t
  {
    assert s != [] ==> Block(s)[1..] == s;
    assert t != [] ==> Block(t)[1..] == t;
  }

  lemma UniqueLayoutInjective(i: Info, j: Info)
    requires UniqueLayout(i) == UniqueLayout(j)
    ensures i.fileType == j.fileType && i.id == j.id && i.photoSize == j.photoSize
  {
    var x, y := UniqueLayout(i), UniqueLayout(j);
    assert x[..4] == PutU32(i.fileType) && y[..4] == PutU32(j.fileType);
    assert x[4..12] == Put64(i.id) && y[4..12] == Put64(j.id);
    assert x[12..] == Block(i.photoSize) && y[12..] == Block(j.photoSize);
    BackU32(i.fileType);
    BackU32(j.fileType);
    Back64(i.id);
    Back64(j.id);
    BlockInjective(i.photoSize, j.photoSize);
  }

  /** The fields in their places. */
  lemma UniqueReads(i: Info)
    ensures var x := UniqueLayout(i);
            && |x| >= 12 && x[..4] == PutU32(i.fileType) && x[4..12] == Put64(i.id)
            && (i.photoSize == [] ==> |x| == 12)
            && (i.photoSize != [] ==>
                  |x| == 13 + |i.photoSize| && x[12] == |i.photoSize| % 256 && x[13..] == i.photoSize)
  {
    var x := UniqueLayout(i);
    assert x == PutU32(i.fileType) + Put64(i.id) + Block(i.photoSize);
  }

  /** Two files have the same unique id exactly when type, id and photo size agree. */
  lemma UniqueExactly(b: Base64, i: Info, j: Info)
    requires Lawful(b)
    ensures Unique(b, i) == Unique(b, j) <==> i.fileType == j.fileType && i.id == j.id && i.photoSize == j.photoSize
  {
    EncodeURLInjective(b, UniqueLayout(i), UniqueLayout(j));
    if UniqueLayout(i) == UniqueLayout(j) {
      UniqueLayoutInjective(i, j);
    }
  }

  /** The unique id survives a file id only without a photo size, which decoding drops. */
  lemma UniqueAfterDecode(b: Base64, i: Info)
    requires Lawful(b)
    ensures Unique(b, Kept(i)) == Unique(b, i) <==> i.fileType < 0x100_0000 && i.photoSize == []
  {
    UniqueExactly(b, Kept(i), i);
  }
}
