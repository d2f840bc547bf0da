/** A bot's two generation-guarded caches and the handlers that use them. */
module BotCaches {
  import opened CommandKeys

  datatype Option<V> = None | Some(value: V)

  /** A cache as its callers see it: an absent map has no entries. */
  datatype Cache<V> = Cache(entries: map<string, V>, gen: nat)

  function Lookup<V>(c: Cache<V>, key: string): Option<V> {
    if key in c.entries then Some(c.entries[key]) else None
  }

  /** A put made with the generation that an earlier get saw. */
  function Stored<V>(c: Cache<V>, key: string, gen: nat, v: V): Cache<V> {
    if gen == c.gen then c.(entries := c.entries[key := v]) else c
  }

  function Dropped<V>(c: Cache<V>): Cache<V> { Cache(map[], c.gen + 1) }

  /** What other requests may do to a cache while one of them waits for the server. */
  datatype Op<V> = Put(key: string, gen: nat, v: V) | Drop

  function Did<V>(c: Cache<V>, op: Op<V>): Cache<V> {
    if op.Drop? then Dropped(c) else Stored(c, op.key, op.gen, op.v)
  }

  function DidAll<V>(c: Cache<V>, ops: seq<Op<V>>): Cache<V> {
    if ops == [] then c else Did(DidAll(c, ops[..|ops| - 1]), ops[|ops| - 1])
  }

  lemma {:induction false} GenCountsDrops<V>(c: Cache<V>, ops: seq<Op<V>>)
    ensures c.gen <= DidAll(c, ops).gen
    ensures DidAll(c, ops).gen == c.gen <==> Drop !in ops
  {
    if ops != [] {
      var n := |ops| - 1;
      GenCountsDrops(c, ops[..n]);
      assert ops == ops[..n] + [ops[n]];
    }
  }

  lemma {:induction false} DidAllAppend<V>(c: Cache<V>, ops: seq<Op<V>>, more: seq<Op<V>>)
    ensures DidAll(c, ops + more) == DidAll(DidAll(c, ops), more)
  {
    if more == [] {
      assert ops + more == ops;
    } else {
      var n := |more| - 1;
      DidAllAppend(c, ops, more[..n]);
      assert (ops + more)[..|ops| + n] == ops + more[..n];
    }
  }

  /** A get that missed, whose fetched value is put after `others` ran: it is kept unless one of
      them dropped the cache. */
  ghost function Filled<V>(c: Cache<V>, others: seq<Op<V>>, key: string, v: V): Cache<V> {
    var later := DidAll(c, others);
    if Drop in others then later else later.(entries := later.entries[key := v])
  }

  datatype BotInfo = BotInfo(name: string, description: string, shortDescription: string)

  /** A getMyCommands answer: the encoded body. */
  type Body = string

  class Bot {
    var cmdCache: Option<map<string, Body>>
    var cmdGen: nat
    var biCache: Option<map<string, BotInfo>>
    var biGen: nat

    constructor ()
      ensures Commands() == Cache(map[], 0) && Infos() == Cache(map[], 0)
    {
      cmdCache := None;
      cmdGen := 0;
      biCache := None;
      biGen := 0;
    }

    ghost function Commands(): Cache<Body>
      reads this
    {
      Cache(if cmdCache.None? then map[] else cmdCache.value, cmdGen)
    }

    ghost function Infos(): Cache<BotInfo>
      reads this
    {
      Cache(if biCache.None? then map[] else biCache.value, biGen)
    }

    method CommandCacheGet(key: string) returns (buf: Option<Body>, gen: nat)
      ensures buf == Lookup(Commands(), key) && gen == Commands().gen
      ensures if key in Commands().entries then buf == Some(Commands().entries[key]) else buf == None
    {
      if cmdCache.None? || key !in cmdCache.value {
        buf := None;
      } else {
        buf := Some(cmdCache.value[key]);
      }
      gen := cmdGen;
    }

    method CommandCachePut(key: string, gen: nat, payload: Body)
      modifies this`cmdCache
      ensures Commands() == Stored(old(Commands()), key, gen, payload)
      ensures gen == old(cmdGen) ==> Commands().entries == old(Commands()).entries[key := payload]
      ensures gen != old(cmdGen) ==> Commands().entries == old(Commands()).entries
    {
      if cmdGen != gen {
        return;
      }
      if cmdCache.None? {
        cmdCache := Some(map[]);
      }
      cmdCache := Some(cmdCache.value[key := payload]);
    }

    method CommandCacheInvalidate()
      modifies this`cmdCache, this`cmdGen
      ensures Commands() == Dropped(old(Commands()))
      ensures Commands().entries == map[] && cmdGen == old(cmdGen) + 1
    {
      cmdCache := None;
      cmdGen := cmdGen + 1;
    }

    method BotInfoCacheGet(lang: string) returns (entry: Option<BotInfo>, gen: nat)
      ensures entry == Lookup(Infos(), lang) && gen == Infos().gen
      ensures if lang in Infos().entries then entry == Some(Infos().entries[lang]) else entry == None
    {
      if biCache.None? || lang !in biCache.value {
        entry := None;
      } else {
        entry := Some(biCache.value[lang]);
      }
      gen := biGen;
    }

    method BotInfoCachePut(lang: string, gen: nat, e: BotInfo)
      modifies this`biCache
      ensures Infos() == Stored(old(Infos()), lang, gen, e)
      ensures gen == old(biGen) ==> Infos().entries == old(Infos()).entries[lang := e]
      ensures gen != old(biGen) ==> Infos().entries == old(Infos()).entries
    {
      if biGen != gen {
        return;
      }
      if biCache.None? {
        biCache := Some(map[]);
      }
      biCache := Some(biCache.value[lang := e]);
    }

    method BotInfoCacheInvalidate()
      modifies this`biCache, this`biGen
      ensures Infos() == Dropped(old(Infos()))
      ensures Infos().entries == map[] && biGen == old(biGen) + 1
    {
      biCache := None;
      biGen := biGen + 1;
    }

    /** Other requests' work on the commands cache. */
    method Others(ops: seq<Op<Body>>)
      modifies this`cmdCache, this`cmdGen
      ensures Commands() == DidAll(old(Commands()), ops)
    {
      var i := 0;
      while i < |ops|
        invariant i <= |ops|
        invariant Commands() == DidAll(old(Commands()), ops[..i])
      {
        assert ops[..i + 1][..i] == ops[..i];
        if ops[i].Drop? {
          CommandCacheInvalidate();
        } else {
          CommandCachePut(ops[i].key, ops[i].gen, ops[i].v);
        }
        i := i + 1;
      }
      assert ops[..|ops|] == ops;
    }

    method OthersOnInfos(ops: seq<Op<BotInfo>>)
      modifies this`biCache, this`biGen
      ensures Infos() == DidAll(old(Infos()), ops)
    {
      var i := 0;
      while i < |ops|
        invariant i <= |ops|
        invariant Infos() == DidAll(old(Infos()), ops[..i])
      {
        assert ops[..i + 1][..i] == ops[..i];
        if ops[i].Drop? {
          BotInfoCacheInvalidate();
        } else {
          BotInfoCachePut(ops[i].key, ops[i].gen, ops[i].v);
        }
        i := i + 1;
      }
      assert ops[..|ops|] == ops;
    }
  }

  /** Only requests that the server answers have an entry. */
  ghost predicate Honest(c: Cache<Body>) {
    forall key :: key in c.entries ==> exists s: Scope, lang: string :: !Asks(s).Rejected? && key == Key(s, lang)
  }

  /** A request whose scope is rejected finds nothing in the cache. */
  lemma RejectedMisses(c: Cache<Body>, s: Scope, lang: string)
    requires Honest(c) && Asks(s).Rejected?
    ensures Key(s, lang) !in c.entries
  {
    if Key(s, lang) in c.entries {
      var s': Scope, lang': string :| !Asks(s').Rejected? && Key(s, lang) == Key(s', lang');
      KeyDeterminesQuestion(s', lang', s, lang);
    }
  }

  /** getMyCommands. The server's answer, if it gives one, is `rpc`; while it is awaited other
      requests do `others` to the cache. */
  method GetMyCommands(b: Bot, scope: Scope, langParam: string, rpc: Option<Body>, others: seq<Op<Body>>)
      returns (answer: Option<Body>)
    requires Honest(b.Commands()) && Honest(DidAll(b.Commands(), others))
    modifies b`cmdCache, b`cmdGen
    ensures Honest(b.Commands())
    ensures Asks(scope).Rejected? ==> answer == None && b.Commands() == old(b.Commands())
    ensures var hit := Lookup(old(b.Commands()), Key(scope, if langParam == "" then "en" else langParam));
            hit.Some? ==> answer == hit && b.Commands() == old(b.Commands())
    ensures var hit := Lookup(old(b.Commands()), Key(scope, if langParam == "" then "en" else langParam));
            hit.None? && !Asks(scope).Rejected? ==>
              && answer == rpc
              && (rpc.None? ==> b.Commands() == DidAll(old(b.Commands()), others))
              && (rpc.Some? ==>
                    b.Commands() == Filled(old(b.Commands()), others,
                                           Key(scope, if langParam == "" then "en" else langParam), rpc.value))
    // a fetched answer is there for the next get, unless somebody invalidated meanwhile
    ensures var key := Key(scope, if langParam == "" then "en" else langParam);
            key !in old(b.Commands()).entries && !Asks(scope).Rejected? && rpc.Some? && Drop !in others ==>
              key in b.Commands().entries && b.Commands().entries[key] == rpc.value
  {
    var lang := langParam;
    if lang == "" {
      lang := "en";
    }
    var key := Key(scope, lang);
    var buf, gen := b.CommandCacheGet(key);
    if Asks(scope).Rejected? {
      RejectedMisses(b.Commands(), scope, lang);
    }
    if buf.Some? {
      return buf;
    }
    if Asks(scope).Rejected? {
      return None;
    }
    GenCountsDrops(b.Commands(), others);
    b.Others(others);
    if rpc.None? {
      return None;
    }
    b.CommandCachePut(key, gen, rpc.value);
    return rpc;
  }

  /** setMyCommands and deleteMyCommands: `applied` says whether the RPC returned without error. */
  method SetMyCommands(b: Bot, scope: Scope, applied: bool, others: seq<Op<Body>>) returns (ok: bool)
    requires Honest(b.Commands()) && Honest(DidAll(b.Commands(), others))
    modifies b`cmdCache, b`cmdGen
    ensures ok <==> applied && !Asks(scope).Rejected?
    ensures Honest(b.Commands())
    ensures ok ==> b.Commands() == Cache(map[], DidAll(old(b.Commands()), others).gen + 1)
    ensures !ok ==> b.Commands() == (if Asks(scope).Rejected? then old(b.Commands())
                                     else DidAll(old(b.Commands()), others))
  {
    if Asks(scope).Rejected? {
      return false;
    }
    b.Others(others);
    if !applied {
      return false;
    }
    b.CommandCacheInvalidate();
    return true;
  }

  datatype Field = Name | Description | ShortDescription

  /** getBotInfoField: the language is the key as it is, and the field asked for is answered. */
  method GetBotInfoField(b: Bot, lang: string, f: Field, rpc: Option<BotInfo>, others: seq<Op<BotInfo>>)
      returns (answer: Option<string>)
    modifies b`biCache, b`biGen
    // a hit
    ensures lang in old(b.Infos()).entries ==>
              var rec := old(b.Infos()).entries[lang];
              && b.Infos() == old(b.Infos())
              && (f.Name? ==> answer == Some(rec.name))
              && (f.Description? ==> answer == Some(rec.description))
              && (f.ShortDescription? ==> answer == Some(rec.shortDescription))
    // a miss
    ensures lang !in old(b.Infos()).entries && rpc.None? ==>
              answer == None && b.Infos() == DidAll(old(b.Infos()), others)
    ensures lang !in old(b.Infos()).entries && rpc.Some? ==>
              && b.Infos() == Filled(old(b.Infos()), others, lang, rpc.value)
              && (f.Name? ==> answer == Some(rpc.value.name))
              && (f.Description? ==> answer == Some(rpc.value.description))
              && (f.ShortDescription? ==> answer == Some(rpc.value.shortDescription))
    ensures lang !in old(b.Infos()).entries && rpc.Some? && Drop !in others ==>
              lang in b.Infos().entries && b.Infos().entries[lang] == rpc.value
  {
    var entry, gen := b.BotInfoCacheGet(lang);
    if entry.None? {
      GenCountsDrops(b.Infos(), others);
      b.OthersOnInfos(others);
      if rpc.None? {
        return None;
      }
      entry := rpc;
      b.BotInfoCachePut(lang, gen, entry.value);
    }
    match f {
      case Name => answer := Some(entry.value.name);
      case Description => answer := Some(entry.value.description);
      case ShortDescription => answer := Some(entry.value.shortDescription);
    }
  }

  /** setBotInfoField */
  method SetBotInfoField(b: Bot, applied: bool, others: seq<Op<BotInfo>>) returns (ok: bool)
    modifies b`biCache, b`biGen
    ensures ok == applied
    ensures ok ==> b.Infos() == Cache(map[], DidAll(old(b.Infos()), others).gen + 1)
    ensures !ok ==> b.Infos() == DidAll(old(b.Infos()), others)
  {
    b.OthersOnInfos(others);
    if !applied {
      return false;
    }
    b.BotInfoCacheInvalidate();
    return true;
  }
}
