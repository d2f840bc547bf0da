/** Inline message ids as text: printed by the update translator, read back by the server. */
module InlineMessageId {
  import opened Integers
  import opened IntText

  datatype InlineId =
    | Obj(dc: int32, id: int64, accessHash: int64)
    | Id64(dc: int32, owner: int64, id32: int32, accessHash: int64)

  datatype Decoded = BadId | BadFormat | Decoded(id: InlineId)

  /** inlineMsgID */
  function Encode(x: InlineId): string {
    if x.Obj? then FormatInt(x.dc) + ":" + FormatInt(x.id) + ":" + FormatInt(x.accessHash)
    else FormatInt(x.dc) + ":" + FormatInt(x.owner) + ":" + FormatInt(x.id32) + ":" + FormatInt(x.accessHash)
  }

  /** The position of the first colon, or the length. */
  function FirstColon(s: string): (i: nat)
    ensures i <= |s| && (i < |s| ==> s[i] == ':')
    ensures forall k :: 0 <= k < i ==> s[k] != ':'
  {
    if s == "" || s[0] == ':' then 0 else 1 + FirstColon(s[1..])
  }

  /** strings.Split(s, ":") */
  function Split(s: string): (parts: seq<string>)
    decreases |s|
  {
    var i := FirstColon(s);
    if i == |s| then [s] else [s[..i]] + Split(s[i + 1..])
  }

  /** decodeInlineMessageID: a case split on the number of parts. */
  function Decode(s: string): Decoded { DecodeParts(Split(s)) }

  function DecodeParts(parts: seq<string>): Decoded {
    if |parts| == 3 then
      var dc, id, ah := ParseInt(parts[0]), ParseInt(parts[1]), ParseInt(parts[2]);
      if dc.Bad? || id.Bad? || ah.Bad? then BadId
      else Decoded(Obj(Wrap32(dc.value), id.value, ah.value))
    else if |parts| == 4 then
      var dc, owner, id, ah := ParseInt(parts[0]), ParseInt(parts[1]), ParseInt(parts[2]), ParseInt(parts[3]);
      if dc.Bad? || owner.Bad? || id.Bad? || ah.Bad? then BadId
      else Decoded(Id64(Wrap32(dc.value), owner.value, Wrap32(id.value), ah.value))
    else BadFormat
  }

  predicate NoColon(s: string) { forall k :: 0 <= k < |s| ==> s[k] != ':' }

  lemma {:induction false} FirstColonAfter(a: string, b: string)
    requires NoColon(a)
    ensures FirstColon(a + ":" + b) == |a|
  {
    var s := a + ":" + b;
    if a != "" {
      assert s[0] == a[0];
      assert s[1..] == a[1..] + ":" + b;
      FirstColonAfter(a[1..], b);
    }
  }

  lemma {:induction false} NoColonToFind(a: string)
    requires NoColon(a)
    ensures FirstColon(a) == |a|
  {
    if a != "" {
      NoColonToFind(a[1..]);
    }
  }

  lemma SplitOne(a: string)
    requires NoColon(a)
    ensures Split(a) == [a]
  {
    NoColonToFind(a);
  }

  lemma SplitMore(s: string, a: string, b: string)
    requires NoColon(a) && s == a + ":" + b
    ensures Split(s) == [a] + Split(b)
  {
    FirstColonAfter(a, b);
    assert s[..|a|] == a && s[|a| + 1..] == b;
  }

  lemma FormatHasNoColon(n: int)
    ensures NoColon(FormatInt(n))
  {
    var d := Digits(if n < 0 then -n else n);
    forall k | 0 <= k < |FormatInt(n)| ensures FormatInt(n)[k] != ':' {
      if n < 0 {
        assert k > 0 ==> FormatInt(n)[k] == d[k - 1] && IsDigit(d[k - 1]);
      } else {
        assert IsDigit(d[k]);
      }
    }
  }

  lemma Regroup(a: string, b: string, c: string)
    ensures a + b + c == a + (b + c)
  {
  }

  lemma Split2(s: string, a: string, b: string)
    requires NoColon(a) && NoColon(b) && s == a + ":" + b
    ensures Split(s) == [a, b]
  {
    SplitMore(s, a, b);
    SplitOne(b);
  }

  lemma Split3(s: string, a: string, b: string, c: string)
    requires NoColon(a) && NoColon(b) && NoColon(c) && s == a + ":" + b + ":" + c
    ensures Split(s) == [a, b, c]
  {
    var rest := b + ":" + c;
    Regroup(a + ":", b + ":", c);
    Regroup(a + ":", b, ":");
    Split2(rest, b, c);
    SplitMore(s, a, rest);
  }

  lemma Split4(s: string, a: string, b: string, c: string, d: string)
    requires NoColon(a) && NoColon(b) && NoColon(c) && NoColon(d)
    requires s == a + ":" + b + ":" + c + ":" + d
    ensures Split(s) == [a, b, c, d]
  {
    var rest := b + ":" + c + ":" + d;
    Regroup(a + ":", b, ":");
    Regroup(a + ":", b + ":", c);
    Regroup(a + ":", b + ":" + c, ":");
    Regroup(a + ":", b + ":" + c + ":", d);
    Split3(rest, b, c, d);
    SplitMore(s, a, rest);
  }

  lemma Narrowed(n: int32)
    ensures Wrap32(n) == n
  {
  }

  lemma DecodeOfThree(s: string, a: string, b: string, c: string, dc: int32, id: int64, hash: int64)
    requires Split(s) == [a, b, c]
    requires ParseInt(a) == Good(dc) && ParseInt(b) == Good(id) && ParseInt(c) == Good(hash)
    ensures Decode(s) == Decoded(Obj(dc, id, hash))
  {
    Narrowed(dc);
  }

  lemma DecodeOfFour(s: string, a: string, b: string, c: string, d: string,
                     dc: int32, owner: int64, id: int32, hash: int64)
    requires Split(s) == [a, b, c, d]
    requires ParseInt(a) == Good(dc) && ParseInt(b) == Good(owner)
    requires ParseInt(c) == Good(id) && ParseInt(d) == Good(hash)
    ensures Decode(s) == Decoded(Id64(dc, owner, id, hash))
  {
    Narrowed(dc);
    Narrowed(id);
  }

  /** The fields stand in the text in this order. */
  lemma EncodeIs(dc: int32, owner: int64, id: int64, id32: int32, hash: int64)
    ensures Encode(Obj(dc, id, hash)) == Join([FormatInt(dc), FormatInt(id), FormatInt(hash)])
    ensures Encode(Id64(dc, owner, id32, hash))
            == Join([FormatInt(dc), FormatInt(owner), FormatInt(id32), FormatInt(hash)])
  {
    var a, b, c, d := FormatInt(dc), FormatInt(id), FormatInt(hash), FormatInt(id32);
    var o := FormatInt(owner);
    JoinMore(a, [b, c]);
    JoinMore(b, [c]);
    assert [a] + [b, c] == [a, b, c] && [b] + [c] == [b, c];
    Regroup(a + ":", b + ":", c);
    Regroup(a + ":", b, ":");
    JoinFour(a, o, d, c);
  }

  lemma JoinFour(a: string, b: string, c: string, d: string)
    ensures a + ":" + b + ":" + c + ":" + d == Join([a, b, c, d])
  {
    JoinMore(a, [b, c, d]);
    JoinMore(b, [c, d]);
    JoinMore(c, [d]);
    assert [a] + [b, c, d] == [a, b, c, d] && [b] + [c, d] == [b, c, d] && [c] + [d] == [c, d];
    Regroup(a + ":", b, ":");
    Regroup(a + ":", b + ":", c);
    Regroup(a + ":", b + ":" + c, ":");
    Regroup(a + ":", b + ":" + c + ":", d);
    Regroup(b + ":", c, ":");
    Regroup(b + ":", c + ":", d);
  }

  /** What an accepted text stands for: its parts in this order, DC and short id cut to 32 bits. */
  lemma DecodeIs(parts: seq<string>)
    requires AllIntegers(parts) && (|parts| == 3 || |parts| == 4)
    ensures var v := (k: int) requires 0 <= k < |parts| => Wrap64(SignedValue(parts[k]));
            Decode(Join(parts)) == Decoded(if |parts| == 3 then Obj(Wrap32(v(0)), v(1), v(2))
                                           else Id64(Wrap32(v(0)), v(1), Wrap32(v(2)), v(3)))
  {
    JoinSplits(parts);
  }

  /** A formatted field has no colon and parses to itself. */
  lemma Field(n: int64)
    ensures NoColon(FormatInt(n)) && ParseInt(FormatInt(n)) == Good(n)
  {
    FormatHasNoColon(n);
    ParseOfFormat(n);
  }

  /** Every inline message id, of either variant and with any field values, the least int64
      included, is read back from its text. */
  lemma RoundTrip(x: InlineId)
    ensures Decode(Encode(x)) == Decoded(x)
  {
    if x.Obj? {
      var dc, id, hash := FormatInt(x.dc), FormatInt(x.id), FormatInt(x.accessHash);
      Field(x.dc);
      Field(x.id);
      Field(x.accessHash);
      Split3(Encode(x), dc, id, hash);
      DecodeOfThree(Encode(x), dc, id, hash, x.dc, x.id, x.accessHash);
    } else {
      var dc, owner, id, hash := FormatInt(x.dc), FormatInt(x.owner), FormatInt(x.id32), FormatInt(x.accessHash);
      Field(x.dc);
      Field(x.owner);
      Field(x.id32);
      Field(x.accessHash);
      Split4(Encode(x), dc, owner, id, hash);
      DecodeOfFour(Encode(x), dc, owner, id, hash, x.dc, x.owner, x.id32, x.accessHash);
    }
  }

  function Join(parts: seq<string>): string
    requires parts != []
  {
    if |parts| == 1 then parts[0] else parts[0] + ":" + Join(parts[1..])
  }

  lemma JoinMore(a: string, rest: seq<string>)
    requires rest != []
    ensures Join([a] + rest) == a + ":" + Join(rest)
  {
    assert ([a] + rest)[1..] == rest;
  }

  lemma CutAtColon(s: string, i: nat)
    requires i < |s| && s[i] == ':'
    ensures s == s[..i] + ":" + s[i + 1..]
  {
  }

  /** Splitting loses nothing: joining the parts gives the text back. */
  lemma {:induction false} SplitJoins(s: string)
    ensures Split(s) != [] && Join(Split(s)) == s
    decreases |s|
  {
    var i := FirstColon(s);
    if i < |s| {
      var rest := s[i + 1..];
      SplitJoins(rest);
      JoinMore(s[..i], Split(rest));
      CutAtColon(s, i);
      assert Split(s) == [s[..i]] + Split(rest);
    }
  }

  predicate AllIntegers(parts: seq<string>) { forall k :: 0 <= k < |parts| ==> IsIntText(parts[k]) }

  lemma IntegerHasNoColon(s: string)
    requires IsIntText(s)
    ensures NoColon(s)
  {
    forall k | 0 <= k < |s| ensures s[k] != ':' {
      if HasSign(s) {
        assert k > 0 ==> IsDigit(Body(s)[k - 1]);
      } else {
        assert IsDigit(Body(s)[k]);
      }
    }
  }

  /** And joining loses nothing when no part holds a colon. */
  lemma {:induction false} JoinSplits(parts: seq<string>)
    requires parts != [] && AllIntegers(parts)
    ensures Split(Join(parts)) == parts
  {
    IntegerHasNoColon(parts[0]);
    if |parts| == 1 {
      SplitOne(parts[0]);
    } else {
      JoinSplits(parts[1..]);
      SplitMore(Join(parts), parts[0], Join(parts[1..]));
    }
  }

  /** A text is a list of n integers joined by colons. */
  ghost predicate IsList(s: string, n: nat) {
    exists parts: seq<string> :: |parts| == n && parts != [] && AllIntegers(parts) && s == Join(parts)
  }

  lemma IsListWhenSplit(s: string, n: nat)
    requires n > 0
    ensures IsList(s, n) <==> |Split(s)| == n && AllIntegers(Split(s))
  {
    SplitJoins(s);
    if IsList(s, n) {
      var parts: seq<string> :| |parts| == n && parts != [] && AllIntegers(parts) && s == Join(parts);
      JoinSplits(parts);
    }
  }

  lemma PartsAccepted(parts: seq<string>)
    ensures DecodeParts(parts).Decoded? <==> (|parts| == 3 || |parts| == 4) && AllIntegers(parts)
    ensures DecodeParts(parts).Decoded? ==> (DecodeParts(parts).id.Obj? <==> |parts| == 3)
  {
    if |parts| == 3 {
      assert AllIntegers(parts) <==> IsIntText(parts[0]) && IsIntText(parts[1]) && IsIntText(parts[2]);
    } else if |parts| == 4 {
      assert AllIntegers(parts) <==>
             IsIntText(parts[0]) && IsIntText(parts[1]) && IsIntText(parts[2]) && IsIntText(parts[3]);
    }
  }

  /** Exactly three or four integers joined by colons are accepted; a rejected text is told apart
      by whether its number of colons or one of its parts is wrong. */
  lemma AcceptedExactly(s: string)
    ensures Decode(s).Decoded? <==> IsList(s, 3) || IsList(s, 4)
    ensures Decode(s).Decoded? ==> (Decode(s).id.Obj? <==> IsList(s, 3))
    ensures Decode(s).BadFormat? <==> |Split(s)| != 3 && |Split(s)| != 4
  {
    IsListWhenSplit(s, 3);
    IsListWhenSplit(s, 4);
    PartsAccepted(Split(s));
  }
}
