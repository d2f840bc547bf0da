/** The key under which a getMyCommands answer is cached. */
module CommandKeys {
  import opened Integers

  /** Where a scan of JSON text stands with respect to string literals. */
  datatype Quoting = Outside | Inside | Escaped

  function Advance(q: Quoting, c: char): Quoting {
    if q.Outside? then (if c == '"' then Inside else Outside)
    else if q.Escaped? then Inside
    else if c == '"' then Outside
    else if c == '\\' then Escaped
    else Inside
  }

  /** Scanned from q, the text closes every string literal and has no bar outside of them. */
  predicate Clean(t: string, q: Quoting) {
    if t == "" then q.Outside?
    else !(q.Outside? && t[0] == '|') && Clean(t[1..], Advance(q, t[0]))
  }

  /** The raw text of a JSON value, or nothing: whatever the value, it is clean. */
  type Token = t: string | Clean(t, Outside)

  /** The `scope` parameter: absent, not decodable, or an object with these members. */
  datatype Scope = Absent | Undecodable | Object(kind: string, chat: Token, user: int64)

  /** What is asked of the server. */
  datatype Question =
    | Default
    | Users
    | Chats
    | ChatAdmins
    | Peer(chat: Token)
    | PeerAdmins(chat: Token)
    | Member(chat: Token, user: int64)
    | Rejected

  /** parseCommandScope, up to the resolution of peers */
  function Asks(s: Scope): Question {
    if s.Absent? then Default
    else if s.Undecodable? then Rejected
    else if s.kind == "" || s.kind == "default" then Default
    else if s.kind == "all_private_chats" then Users
    else if s.kind == "all_group_chats" then Chats
    else if s.kind == "all_chat_administrators" then ChatAdmins
    else if s.kind == "chat" then Peer(s.chat)
    else if s.kind == "chat_administrators" then PeerAdmins(s.chat)
    else if s.kind == "chat_member" then Member(s.chat, s.user)
    else Rejected
  }

  /** commandCacheKey */
  function Key(s: Scope, lang: string): string {
    if s.Absent? then "d|" + lang
    else if s.Undecodable? then "err|" + lang
    else if s.kind == "" || s.kind == "default" then "d|" + lang
    else if s.kind == "all_private_chats" then "apc|" + lang
    else if s.kind == "all_group_chats" then "agc|" + lang
    else if s.kind == "all_chat_administrators" then "aca|" + lang
    else if s.kind == "chat" then "c:" + (s.chat + "|" + lang)
    else if s.kind == "chat_administrators" then "cadm:" + (s.chat + "|" + lang)
    else if s.kind == "chat_member" then "cm:" + (s.chat + ":" + FormatInt(s.user) + "|" + lang)
    else "u:" + (s.kind + "|" + lang)
  }

  const KINDS := ["", "default", "all_private_chats", "all_group_chats", "all_chat_administrators",
                  "chat", "chat_administrators", "chat_member"]

  /** The kinds that are accepted and what each asks; chat and user are the object's own. */
  lemma AsksIs(s: Scope)
    ensures s.Absent? ==> Asks(s) == Default
    ensures s.Undecodable? ==> Asks(s) == Rejected
    ensures s.Object? && s.kind in ["", "default"] ==> Asks(s) == Default
    ensures s.Object? && s.kind == "all_private_chats" ==> Asks(s) == Users
    ensures s.Object? && s.kind == "all_group_chats" ==> Asks(s) == Chats
    ensures s.Object? && s.kind == "all_chat_administrators" ==> Asks(s) == ChatAdmins
    ensures s.Object? && s.kind == "chat" ==> Asks(s) == Peer(s.chat)
    ensures s.Object? && s.kind == "chat_administrators" ==> Asks(s) == PeerAdmins(s.chat)
    ensures s.Object? && s.kind == "chat_member" ==> Asks(s) == Member(s.chat, s.user)
    ensures s.Object? && s.kind !in KINDS ==> Asks(s) == Rejected
    ensures KINDS == ["", "default", "all_private_chats", "all_group_chats", "all_chat_administrators",
                      "chat", "chat_administrators", "chat_member"]
  {
  }

  // ---- reading a key back ----

  lemma {:induction false} CleanCutUnique(a: string, x: string, b: string, y: string, q: Quoting)
    requires Clean(a, q) && Clean(b, q) && a + "|" + x == b + "|" + y
    ensures a == b && x == y
  {
    var s := a + "|" + x;
    assert s[0] == (if a == "" then '|' else a[0]) && s[0] == (if b == "" then '|' else b[0]);
    assert s[1..] == (if a == "" then x else a[1..] + "|" + x);
    assert s[1..] == (if b == "" then y else b[1..] + "|" + y);
    if a != "" && b != "" {
      CleanCutUnique(a[1..], x, b[1..], y, Advance(q, a[0]));
      assert a == [a[0]] + a[1..] && b == [b[0]] + b[1..];
    }
  }

  predicate Plain(t: string) { forall k :: 0 <= k < |t| ==> t[k] != '|' && t[k] != ':' && t[k] != '"' }

  lemma {:induction false} CleanAppend(a: string, t: string, q: Quoting)
    requires Clean(a, q) && (forall k :: 0 <= k < |t| ==> t[k] != '|' && t[k] != '"')
    ensures Clean(a + t, q)
    decreases |a| + |t|
  {
    if a == "" {
      assert a + t == t;
      if t != "" {
        CleanAppend("", t[1..], q);
        assert "" + t[1..] == t[1..];
      }
    } else {
      CleanAppend(a[1..], t, Advance(q, a[0]));
      assert (a + t)[1..] == a[1..] + t;
    }
  }

  lemma FormatIsPlain(n: int)
    ensures Plain(FormatInt(n))
  {
    var d := Digits(if n < 0 then -n else n);
    forall k | 0 <= k < |FormatInt(n)|
      ensures FormatInt(n)[k] != '|' && FormatInt(n)[k] != ':' && FormatInt(n)[k] != '"'
    {
      if n < 0 {
        assert k > 0 ==> FormatInt(n)[k] == d[k - 1] && IsDigit(d[k - 1]);
      } else {
        assert IsDigit(d[k]);
      }
    }
  }

  /** The part after the last colon is determined. */
  lemma {:induction false} LastColonUnique(a: string, x: string, b: string, y: string)
    requires Plain(x) && Plain(y) && a + ":" + x == b + ":" + y
    ensures a == b && x == y
    decreases |x|
  {
    var s := a + ":" + x;
    var n := |s| - 1;
    assert s[n] == (if x == "" then ':' else x[|x| - 1]) && s[n] == (if y == "" then ':' else y[|y| - 1]);
    assert s[..n] == (if x == "" then a else a + ":" + x[..|x| - 1]);
    assert s[..n] == (if y == "" then b else b + ":" + y[..|y| - 1]);
    if x != "" && y != "" {
      LastColonUnique(a, x[..|x| - 1], b, y[..|y| - 1]);
      assert x == x[..|x| - 1] + [x[|x| - 1]] && y == y[..|y| - 1] + [y[|y| - 1]];
    }
  }

  lemma MemberKeyUnique(c: Token, u: int64, l: string, c': Token, u': int64, l': string)
    requires c + ":" + FormatInt(u) + "|" + l == c' + ":" + FormatInt(u') + "|" + l'
    ensures c == c' && u == u' && l == l'
  {
    FormatIsPlain(u);
    FormatIsPlain(u');
    CleanAppend(c, ":" + FormatInt(u), Outside);
    CleanAppend(c', ":" + FormatInt(u'), Outside);
    assert c + ":" + FormatInt(u) == c + (":" + FormatInt(u));
    assert c' + ":" + FormatInt(u') == c' + (":" + FormatInt(u'));
    CleanCutUnique(c + ":" + FormatInt(u), l, c' + ":" + FormatInt(u'), l', Outside);
    LastColonUnique(c, FormatInt(u), c', FormatInt(u'));
    FormatIntInjective(u, u');
  }

  // ---- what a key determines ----

  /** The fixed head of a request's key. */
  function Head(s: Scope): string {
    if s.Undecodable? then "err|"
    else if s.Object? && Asks(s).Rejected? then "u:"
    else
      var q := Asks(s);
      if q.Default? then "d|"
      else if q.Users? then "apc|"
      else if q.Chats? then "agc|"
      else if q.ChatAdmins? then "aca|"
      else if q.Peer? then "c:"
      else if q.PeerAdmins? then "cadm:"
      else "cm:"
  }

  function Tail(s: Scope, lang: string): string {
    if s.Object? && Asks(s).Rejected? then s.kind + "|" + lang
    else if s.Object? && (Asks(s).Peer? || Asks(s).PeerAdmins?) then s.chat + "|" + lang
    else if s.Object? && Asks(s).Member? then s.chat + ":" + FormatInt(s.user) + "|" + lang
    else lang
  }

  lemma KeySplits(s: Scope, lang: string)
    ensures Key(s, lang) == Head(s) + Tail(s, lang)
  {
    if s.Object? {
      var q := Asks(s);
      if q.Rejected? {
        assert Head(s) == "u:" && Tail(s, lang) == s.kind + "|" + lang;
      } else if q.Peer? {
        assert Head(s) == "c:" && Tail(s, lang) == s.chat + "|" + lang;
      } else if q.PeerAdmins? {
        assert Head(s) == "cadm:" && Tail(s, lang) == s.chat + "|" + lang;
      } else if q.Member? {
        assert Head(s) == "cm:" && Tail(s, lang) == s.chat + ":" + FormatInt(s.user) + "|" + lang;
      } else {
        assert Tail(s, lang) == lang;
      }
    }
  }

  /** No head starts another one, so a key determines its head. */
  lemma HeadUnique(s: Scope, l: string, s': Scope, l': string)
    requires Head(s) + Tail(s, l) == Head(s') + Tail(s', l')
    ensures Head(s) == Head(s') && Tail(s, l) == Tail(s', l')
  {
    var k := Head(s) + Tail(s, l);
    HeadsApart(Head(s), Head(s'), k);
    assert Tail(s, l) == k[|Head(s)|..] && Tail(s', l') == k[|Head(s')|..];
  }

  predicate IsHead(h: string) {
    h in ["d|", "apc|", "agc|", "aca|", "c:", "cadm:", "cm:", "u:", "err|"]
  }

  lemma HeadsApart(h: string, h': string, k: string)
    requires IsHead(h) && IsHead(h') && h <= k && h' <= k
    ensures h == h'
  {
    assert h[0] == k[0] && h'[0] == k[0] && h[1] == k[1] && h'[1] == k[1];
  }

  /** A request the server accepts and any request with the same key ask the same question in the
      same language, and only they share a key: a cached answer is never served to another
      question, whatever text stands for chats and languages. */
  lemma KeyDeterminesQuestion(s: Scope, l: string, s': Scope, l': string)
    requires !Asks(s).Rejected?
    ensures Key(s, l) == Key(s', l') <==> Asks(s) == Asks(s') && l == l'
  {
    KeySplits(s, l);
    KeySplits(s', l');
    if Key(s, l) == Key(s', l') {
      HeadUnique(s, l, s', l');
      SameHead(s, l, s', l');
    } else if Asks(s) == Asks(s') && l == l' {
      SameQuestion(s, s', l);
    }
  }

  lemma SameHead(s: Scope, l: string, s': Scope, l': string)
    requires !Asks(s).Rejected? && Head(s) == Head(s') && Tail(s, l) == Tail(s', l')
    ensures Asks(s) == Asks(s') && l == l'
  {
    if Asks(s).Peer? || Asks(s).PeerAdmins? {
      CleanCutUnique(s.chat, l, s'.chat, l', Outside);
    } else if Asks(s).Member? {
      MemberKeyUnique(s.chat, s.user, l, s'.chat, s'.user, l');
    }
  }

  lemma SameQuestion(s: Scope, s': Scope, l: string)
    requires !Asks(s).Rejected? && Asks(s) == Asks(s')
    ensures Head(s) == Head(s') && Tail(s, l) == Tail(s', l)
  {
  }

  /** Two rejected requests may share a key: nothing separates an unknown kind from the language. */
  lemma RejectedMayCollide()
    ensures exists s: Scope, l: string, s': Scope, l': string ::
              Asks(s) == Rejected && Asks(s') == Rejected && Key(s, l) == Key(s', l') && l != l'
  {
    var s, s' := Object("x|y", "", 0), Object("x", "", 0);
    assert "x|y" + "|" + "en" == "x" + "|" + "y|en";
    assert Key(s, "en") == Key(s', "y|en");
  }
}
