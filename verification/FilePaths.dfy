/** Signed file paths: what getFile hands out and the download endpoint takes back. */
module FilePaths {
  import opened Integers
  import opened LittleEndian
  import opened FileIds

  /** A tag of 32 bytes for a key and a message: HMAC-SHA256 (section 2 of RFC 2104). */
  type Mac = (Bytes, Bytes) -> Bytes

  ghost predicate Tags(mac: Mac) { forall k: Bytes, m: Bytes :: |mac(k, m)| == 32 }

  datatype Verified = NotBase64 | BadPath | BadSignature | Accepted(info: Info)

  /** What encodeFilePayload builds. */
  function Payload(i: Info): (p: Bytes)
    ensures |p| == 25 + |i.fileRef|
  {
    Put32(i.dc) + PutU32(i.fileType) + Put64(i.id) + Put64(i.accessHash) + [|i.fileRef| % 256] + i.fileRef
  }

  function Signed(b: Base64, mac: Mac, key: Bytes, i: Info): string
    requires |mac(key, Payload(i))| == 32
  {
    b.encodeURL(Payload(i) + mac(key, Payload(i))[..16])
  }

  /** strings.IndexByte(s, '/') */
  function Slash(s: string): (i: int)
    ensures -1 <= i < |s|
    ensures i == -1 <==> '/' !in s
    ensures i >= 0 ==> s[i] == '/' && '/' !in s[..i]
  {
    if s == "" then -1 else if s[0] == '/' then 0
    else
      var i := Slash(s[1..]);
      if i == -1 then -1 else (assert s[..i + 1] == [s[0]] + s[1..][..i]; i + 1)
  }

  /** The path up to its first slash, unless it starts with one. */
  function Cut(s: string): string { if Slash(s) > 0 then s[..Slash(s)] else s }

  /** The info that a payload stands for. */
  function FromPayload(p: Bytes): Info
    requires |p| >= 25
  {
    Info(Get32(p[..4]), GetU32(p[4..8]), Get64(p[8..16]), Get64(p[16..24]),
         if p[24] > 0 && |p| - 25 >= p[24] then p[25..25 + p[24]] else [], 0, 0, [], 0)
  }

  /** What verifyAndDecodeFilePath answers: a text is accepted when it carries the key's tag. */
  function Checked(b: Base64, mac: Mac, key: Bytes, s: string): Verified
    requires forall m: Bytes :: |mac(key, m)| == 32
  {
    var raw := b.decodeURL(Cut(s));
    if raw.None? then NotBase64
    else if |raw.value| < 41 then BadPath
    else
      var payload := raw.value[..|raw.value| - 16];
      if raw.value[|raw.value| - 16..] != mac(key, payload)[..16] then BadSignature
      else Accepted(FromPayload(payload))
  }

  method EncodeFilePayload(i: Info) returns (buf: Bytes)
    ensures buf == Payload(i) && |buf| == 25 + |i.fileRef|
    ensures buf[..4] == Put32(i.dc) && buf[4..8] == PutU32(i.fileType)
    ensures buf[8..16] == Put64(i.id) && buf[16..24] == Put64(i.accessHash)
    ensures buf[24] == |i.fileRef| % 256 && buf[25..] == i.fileRef
  {
    buf := [];
    var tmp := Put32(i.dc);
    buf := buf + tmp;
    tmp := PutU32(i.fileType);
    buf := buf + tmp;
    tmp := Put64(i.id);
    buf := buf + tmp;
    tmp := Put64(i.accessHash);
    buf := buf + tmp;
    buf := buf + [|i.fileRef| % 256];
    buf := buf + i.fileRef;
    PayloadReads(i, buf);
  }

  method SignedFilePath(b: Base64, mac: Mac, key: Bytes, i: Info) returns (s: string)
    requires Tags(mac)
    ensures s == Signed(b, mac, key, i)
    ensures Lawful(b) ==> '/' !in s && Checked(b, mac, key, s) == Accepted(Carried(i))
    // the path holds the payload and the first 16 bytes of its tag under the key
    ensures Lawful(b) ==> b.decodeURL(s) == Some(Payload(i) + mac(key, Payload(i))[..16])
    ensures Lawful(b) ==> forall other :: Checked(b, mac, other, s).Accepted? <==>
                            mac(other, Payload(i))[..16] == mac(key, Payload(i))[..16]
  {
    var payload := EncodeFilePayload(i);
    var sig := mac(key, payload)[..16];
    var buf := payload;
    buf := buf + sig;
    s := b.encodeURL(buf);
    if Lawful(b) {
      forall other ensures Checked(b, mac, key, s) == Accepted(Carried(i))
                   ensures (Checked(b, mac, other, s).Accepted?
                            <==> mac(other, Payload(i))[..16] == mac(key, Payload(i))[..16]) {
        SignedIsAccepted(b, mac, key, i, other, "");
      }
    }
  }

  method VerifyAndDecodeFilePath(b: Base64, mac: Mac, key: Bytes, s0: string) returns (r: Verified)
    requires Tags(mac)
    ensures r == Checked(b, mac, key, s0)
    ensures forall info :: r == Accepted(info) <==> Carries(b, mac, key, s0, info)
    // nothing is accepted whose last 16 bytes are not the tag of the rest under the key
    ensures r.Accepted? ==>
              var raw := b.decodeURL(if '/' in s0 && s0[0] != '/' then s0[..Slash(s0)] else s0);
              raw.Some? && |raw.value| >= 41
              && raw.value[|raw.value| - 16..] == mac(key, raw.value[..|raw.value| - 16])[..16]
  {
    var s := s0;
    var i := Slash(s);
    if i > 0 {
      s := s[..i];
    }
    var raw := b.decodeURL(s);
    if raw.None? {
      r := NotBase64;
    } else if |raw.value| < 4 + 4 + 8 + 8 + 1 + 16 {
      r := BadPath;
    } else {
      var payload := raw.value[..|raw.value| - 16];
      var sig := raw.value[|raw.value| - 16..];
      var expected := mac(key, payload)[..16];
      if sig != expected {
        r := BadSignature;
      } else {
        var info := DecodePayload(payload);
        r := Accepted(info);
      }
    }
    assert r == Checked(b, mac, key, s0);
    AcceptedExactly(b, mac, key, s0);
  }

  /** The end of verifyAndDecodeFilePath. */
  method DecodePayload(payload: Bytes) returns (info: Info)
    requires |payload| >= 25
    ensures info == FromPayload(payload)
  {
    var ref: Bytes := [];
    var refLen := payload[24];
    if refLen > 0 && |payload| - 25 >= refLen {
      ref := payload[25..25 + refLen];
    }
    return Info(Get32(payload[..4]), GetU32(payload[4..8]), Get64(payload[8..16]), Get64(payload[16..24]),
                ref, 0, 0, [], 0);
  }

  // ---- round trip and acceptance ----

  /** What a path carries of an info. */
  function Carried(i: Info): Info {
    Info(i.dc, i.fileType, i.id, i.accessHash, FromPayload(Payload(i)).fileRef, 0, 0, [], 0)
  }

  lemma PayloadReads(i: Info, p: Bytes)
    requires p == Payload(i)
    ensures p[..4] == Put32(i.dc) && p[4..8] == PutU32(i.fileType)
    ensures p[8..16] == Put64(i.id) && p[16..24] == Put64(i.accessHash)
    ensures p[24] == |i.fileRef| % 256 && p[25..] == i.fileRef
  {
  }

  lemma FromPayloadIs(i: Info)
    ensures FromPayload(Payload(i)) == Carried(i)
    ensures Carried(i).fileRef == i.fileRef <==> |i.fileRef| <= 255
  {
    var p := Payload(i);
    PayloadReads(i, p);
    Back32(i.dc);
    BackU32(i.fileType);
    Back64(i.id);
    Back64(i.accessHash);
    RefCarried(i, p);
  }

  lemma RefCarried(i: Info, p: Bytes)
    requires p == Payload(i)
    ensures FromPayload(p).fileRef == i.fileRef <==> |i.fileRef| <= 255
  {
    PayloadReads(i, p);
    if |i.fileRef| <= 255 {
      assert p[25..25 + |i.fileRef|] == i.fileRef;
    } else {
      assert |FromPayload(p).fileRef| <= 255;
    }
  }

  lemma CutNothing(s: string)
    requires '/' !in s
    ensures Cut(s) == s
  {
  }

  lemma {:induction false} SlashAfter(s: string, more: string)
    requires '/' !in s
    ensures Slash(s + "/" + more) == |s|
  {
    var t := s + "/" + more;
    if s != "" {
      assert t[0] == s[0] && t[1..] == s[1..] + "/" + more;
      SlashAfter(s[1..], more);
    }
  }

  lemma CutSuffix(s: string, more: string)
    requires '/' !in s && s != ""
    ensures Cut(s + "/" + more) == s
  {
    SlashAfter(s, more);
  }

  /** A path signed under one key is accepted under another exactly when both give the payload the
      same tag; under its own key always, and it then yields all the path carries. A slash and
      anything after it make no difference. */
  lemma SignedIsAccepted(b: Base64, mac: Mac, key: Bytes, i: Info, other: Bytes, more: string)
    requires Lawful(b) && Tags(mac)
    ensures Checked(b, mac, key, Signed(b, mac, key, i)) == Accepted(Carried(i))
    ensures (Checked(b, mac, other, Signed(b, mac, key, i)).Accepted?
             <==> mac(other, Payload(i))[..16] == mac(key, Payload(i))[..16])
    ensures Signed(b, mac, key, i) != "" ==>
              Checked(b, mac, other, Signed(b, mac, key, i) + "/" + more)
              == Checked(b, mac, other, Signed(b, mac, key, i))
  {
    var s := Signed(b, mac, key, i);
    var bytes := Payload(i) + mac(key, Payload(i))[..16];
    assert b.decodeURL(s) == Some(bytes) && '/' !in s;
    CutNothing(s);
    assert bytes[..|bytes| - 16] == Payload(i);
    assert bytes[|bytes| - 16..] == mac(key, Payload(i))[..16];
    FromPayloadIs(i);
    if s != "" {
      CutSuffix(s, more);
    }
  }

  /** The text, up to a slash, is base64 of a payload of at least 25 bytes that stands for this
      info, with its 16-byte tag under the key after it. */
  ghost predicate Carries(b: Base64, mac: Mac, key: Bytes, s: string, info: Info)
    requires forall m: Bytes :: |mac(key, m)| == 32
  {
    exists p: Bytes :: |p| >= 25 && b.decodeURL(Cut(s)) == Some(p + mac(key, p)[..16]) && info == FromPayload(p)
  }

  /** Only what carries the key's tag is accepted, and as the info it carries. */
  lemma AcceptedExactly(b: Base64, mac: Mac, key: Bytes, s: string)
    requires Tags(mac)
    ensures forall info :: Checked(b, mac, key, s) == Accepted(info) <==> Carries(b, mac, key, s, info)
  {
    forall info ensures Checked(b, mac, key, s) == Accepted(info) <==> Carries(b, mac, key, s, info) {
      AcceptedAs(b, mac, key, s, info);
    }
  }

  lemma AcceptedAs(b: Base64, mac: Mac, key: Bytes, s: string, info: Info)
    requires Tags(mac)
    ensures Checked(b, mac, key, s) == Accepted(info) <==> Carries(b, mac, key, s, info)
  {
    var raw := b.decodeURL(Cut(s));
    if Checked(b, mac, key, s) == Accepted(info) {
      var p := raw.value[..|raw.value| - 16];
      assert raw.value == p + raw.value[|raw.value| - 16..];
    }
    if p: Bytes :| |p| >= 25 && raw == Some(p + mac(key, p)[..16]) && info == FromPayload(p) {
      assert raw.value[..|raw.value| - 16] == p;
      assert raw.value[|raw.value| - 16..] == mac(key, p)[..16];
    }
  }

  // ---- where a file is fetched from ----

  const FT_THUMBNAIL: uint32 := 0
  const FT_PROFILE_PHOTO: uint32 := 1
  const FT_PHOTO: uint32 := 2

  datatype Location =
    | Photo(id: int64, accessHash: int64, fileReference: Bytes, thumbSize: string)
    | Document(id: int64, accessHash: int64, fileReference: Bytes, thumbSize: string)

  predicate IsPhoto(t: uint32) { t == FT_PHOTO || t == FT_PROFILE_PHOTO || t == FT_THUMBNAIL }

  /** buildFileLocation: photos are fetched as the thumb "x", documents whole. */
  function BuildFileLocation(i: Info): Location {
    if IsPhoto(i.fileType) then Photo(i.id, i.accessHash, i.fileRef, "x")
    else Document(i.id, i.accessHash, i.fileRef, "")
  }

  /** Types 0, 1 and 2 are the photos, fetched as the thumb "x"; every other type is a document. Each
      is fetched by the file's own id, access hash and reference. */
  lemma LocationIs(i: Info)
    ensures var l := BuildFileLocation(i);
            && l.id == i.id && l.accessHash == i.accessHash && l.fileReference == i.fileRef
            && (l.Photo? <==> 0 <= i.fileType <= 2) && (l.Document? <==> i.fileType >= 3)
            && l.thumbSize == if i.fileType <= 2 then "x" else ""
  {
  }

  /** getFile: the path for a file id. */
  function FilePathOf(b: Base64, mac: Mac, key: Bytes, fid: string): Option<string>
    requires forall m: Bytes :: |mac(key, m)| == 32
  {
    var r := Decoded(b, fid);
    if r.Ok? then Some(Signed(b, mac, key, r.info)) else None
  }

  /** A path that getFile made, for any file id at all, yields exactly what the id decoded to. */
  lemma PathCarriesAll(b: Base64, mac: Mac, key: Bytes, fid: string)
    requires Lawful(b) && Tags(mac)
    ensures FilePathOf(b, mac, key, fid).Some? <==> Decoded(b, fid).Ok?
    ensures Decoded(b, fid).Ok? ==>
              Checked(b, mac, key, FilePathOf(b, mac, key, fid).value) == Accepted(Decoded(b, fid).info)
  {
    if Decoded(b, fid).Ok? {
      var i := Decoded(b, fid).info;
      SignedIsAccepted(b, mac, key, i, key, "");
      ShortRef(b, fid);
      FromPayloadIs(i);
    }
  }

  /** A decoded file reference never outgrows a length byte, and the other fields are unset. */
  lemma ShortRef(b: Base64, fid: string)
    requires Decoded(b, fid).Ok?
    ensures var i := Decoded(b, fid).info;
            |i.fileRef| <= 255 && i == Info(i.dc, i.fileType, i.id, i.accessHash, i.fileRef, 0, 0, [], 0)
  {
  }

  /** The whole way, from a file to its id, to a signed path, to a download: the same place is
      fetched from exactly when the reference fits and the type's low 24 bits say photo just when
      the type does. */
  lemma DownloadsTheSameFile(b: Base64, mac: Mac, key: Bytes, i: Info)
    requires Lawful(b) && Tags(mac)
    ensures FilePathOf(b, mac, key, Encoded(b, i)).Some?
    ensures var v := Checked(b, mac, key, FilePathOf(b, mac, key, Encoded(b, i)).value);
            v.Accepted? && (BuildFileLocation(v.info) == BuildFileLocation(i) <==>
                            RefFits(i) && (i.fileType % 0x100_0000 <= 2 <==> i.fileType <= 2))
  {
    DecodeOfEncode(b, i);
    PathCarriesAll(b, mac, key, Encoded(b, i));
    RefBackExactly(i);
  }
}
