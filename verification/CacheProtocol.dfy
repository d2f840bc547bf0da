/** One generation-guarded cache under any interleaving of its readers and writers. */
module CacheProtocol {
  import opened BotCaches

  /** What the server would answer to each key. */
  type Server<!V> = string -> V

  /** A get: the cache missed, the server has answered, the get has returned. `floor` is the last
      version whose set had returned when the get began. */
  datatype Reader<V> =
    | Missed(key: string, floor: nat, gen: nat)
    | Fetched(key: string, floor: nat, gen: nat, version: nat)
    | Answered(key: string, floor: nat, value: V)
    | GaveUp(key: string, floor: nat)

  /** The server's versions so far are `history`, the last one current. `pending` are the versions
      whose writer has yet to invalidate; `lost` those that nobody here will ever invalidate for;
      `dropped` the current version at the last invalidation; `returned` the last version whose
      set has returned. */
  datatype State<!V> = State(cache: Cache<V>, history: seq<Server<V>>, readers: map<nat, Reader<V>>,
                            pending: set<nat>, lost: set<nat>, dropped: nat, returned: nat)

  /** A get looks at the cache; its RPC is answered or fails; it stores and returns. A set's RPC is
      applied, to any effect on any answers; its writer invalidates and returns. A write is lost
      when the RPC was applied and yet failed, or came from another process. */
  datatype Step<!V> =
    | Begin(r: nat, key: string)
    | Fetch(r: nat)
    | FetchFails(r: nat)
    | Store(r: nat)
    | Write(next: Server<V>)
    | WriteLost(next: Server<V>)
    | Return(version: nat)

  ghost predicate Initial<V>(s: State<V>) {
    && s.cache == Cache(map[], 0) && |s.history| == 1
    && s.readers == map[] && s.pending == {} && s.lost == {} && s.dropped == 0 && s.returned == 0
  }

  ghost predicate Enabled<V>(s: State<V>, st: Step<V>) {
    if st.Begin? then st.r !in s.readers
    else if st.Fetch? then st.r in s.readers && s.readers[st.r].Missed?
    else if st.FetchFails? then st.r in s.readers && s.readers[st.r].Missed?
    else if st.Store? then
      st.r in s.readers && s.readers[st.r].Fetched? && s.readers[st.r].version < |s.history|
    else if st.Return? then st.version in s.pending
    else true
  }

  function Current<V>(s: State<V>): int { |s.history| - 1 }

  ghost function Next<V>(s: State<V>, st: Step<V>): State<V>
    requires Enabled(s, st) && s.history != []
  {
    if st.Begin? then
      var hit := Lookup(s.cache, st.key);
      var reader := if hit.Some? then Answered(st.key, s.returned, hit.value)
                    else Missed(st.key, s.returned, s.cache.gen);
      s.(readers := s.readers[st.r := reader])
    else if st.Fetch? then
      var m := s.readers[st.r];
      s.(readers := s.readers[st.r := Fetched(m.key, m.floor, m.gen, Current(s))])
    else if st.FetchFails? then
      var m := s.readers[st.r];
      s.(readers := s.readers[st.r := GaveUp(m.key, m.floor)])
    else if st.Store? then
      var f := s.readers[st.r];
      var v := s.history[f.version](f.key);
      s.(cache := Stored(s.cache, f.key, f.gen, v), readers := s.readers[st.r := Answered(f.key, f.floor, v)])
    else if st.Write? then
      s.(history := s.history + [st.next], pending := s.pending + {|s.history|})
    else if st.WriteLost? then
      s.(history := s.history + [st.next], lost := s.lost + {|s.history|})
    else
      s.(cache := Dropped(s.cache), pending := s.pending - {st.version}, dropped := Current(s),
         returned := if s.returned < st.version then st.version else s.returned)
  }

  ghost predicate Runs<V>(s: State<V>, steps: seq<Step<V>>, s': State<V>)
    decreases |steps|
  {
    s.history != [] &&
    if steps == [] then s' == s
    else Enabled(s, steps[0]) && Runs(Next(s, steps[0]), steps[1..], s')
  }

  // ---- the invariant ----

  /** `value` is an answer the server gave to `key` at some version not before `from`. */
  ghost predicate HeldSince<V>(history: seq<Server<V>>, from: int, key: string, value: V) {
    exists v: nat :: from <= v < |history| && history[v](key) == value
  }

  ghost predicate EntriesRecent<V>(s: State<V>) {
    forall key :: key in s.cache.entries ==> HeldSince(s.history, s.dropped, key, s.cache.entries[key])
  }

  /** What each get may rely on. A get that fetched and whose generation is still the cache's
      fetched after the last invalidation. */
  ghost predicate ReaderOk<V>(s: State<V>, rd: Reader<V>) {
    && rd.floor <= s.returned
    && (rd.Missed? ==> rd.gen <= s.cache.gen)
    && (rd.Fetched? ==> rd.gen <= s.cache.gen && rd.floor <= rd.version < |s.history|
                        && (rd.gen == s.cache.gen ==> s.dropped <= rd.version))
    && (rd.Answered? ==> HeldSince(s.history, rd.floor, rd.key, rd.value))
  }

  ghost predicate Coherent<V>(s: State<V>) {
    && s.returned <= s.dropped < |s.history|
    && EntriesRecent(s)
    && (forall r :: r in s.readers ==> ReaderOk(s, s.readers[r]))
    && (forall v :: v in s.pending ==> v < |s.history|)
    && (forall v: nat :: s.dropped < v < |s.history| ==> v in s.pending || v in s.lost)
  }

  lemma HeldStill<V>(s: State<V>, next: Server<V>, from: int, from': int, key: string, value: V)
    requires HeldSince(s.history, from, key, value) && from' <= from
    ensures HeldSince(s.history + [next], from', key, value)
  {
    var v: nat :| from <= v < |s.history| && s.history[v](key) == value;
    assert (s.history + [next])[v](key) == value;
  }

  lemma CoherentWrite<V>(s: State<V>, st: Step<V>, s': State<V>)
    requires Coherent(s) && (st.Write? || st.WriteLost?) && s' == Next(s, st)
    ensures Coherent(s')
  {
    forall key | key in s.cache.entries ensures HeldSince(s'.history, s.dropped, key, s.cache.entries[key]) {
      HeldStill(s, st.next, s.dropped, s.dropped, key, s.cache.entries[key]);
    }
    forall r | r in s.readers ensures ReaderOk(s', s.readers[r]) {
      assert ReaderOk(s, s.readers[r]);
      if s.readers[r].Answered? {
        HeldStill(s, st.next, s.readers[r].floor, s.readers[r].floor, s.readers[r].key, s.readers[r].value);
      }
    }
  }

  lemma CoherentStore<V>(s: State<V>, st: Step<V>, s': State<V>)
    requires Coherent(s) && st.Store? && Enabled(s, st) && s' == Next(s, st)
    ensures Coherent(s')
  {
    var f := s.readers[st.r];
    assert ReaderOk(s, f);
    assert HeldSince(s.history, f.floor, f.key, s.history[f.version](f.key));
    forall r | r in s'.readers ensures ReaderOk(s', s'.readers[r]) {
      assert r in s.readers && ReaderOk(s, s.readers[r]);
    }
    forall key | key in s'.cache.entries ensures HeldSince(s.history, s.dropped, key, s'.cache.entries[key]) {
      assert key == f.key || (key in s.cache.entries && s'.cache.entries[key] == s.cache.entries[key]);
    }
  }

  lemma CoherentBegin<V>(s: State<V>, st: Step<V>, s': State<V>)
    requires Coherent(s) && st.Begin? && Enabled(s, st) && s' == Next(s, st)
    ensures Coherent(s')
  {
    if st.key in s.cache.entries {
      var v: nat :| s.dropped <= v < |s.history| && s.history[v](st.key) == s.cache.entries[st.key];
      assert HeldSince(s.history, s.returned, st.key, s.cache.entries[st.key]);
    }
    forall r | r in s'.readers ensures ReaderOk(s', s'.readers[r]) {
      assert r == st.r || (r in s.readers && ReaderOk(s, s.readers[r]));
    }
  }

  lemma CoherentFetch<V>(s: State<V>, st: Step<V>, s': State<V>)
    requires Coherent(s) && (st.Fetch? || st.FetchFails?) && Enabled(s, st) && s' == Next(s, st)
    ensures Coherent(s')
  {
    forall r | r in s'.readers ensures ReaderOk(s', s'.readers[r]) {
      assert r in s.readers && ReaderOk(s, s.readers[r]);
    }
  }

  lemma CoherentReturn<V>(s: State<V>, st: Step<V>, s': State<V>)
    requires Coherent(s) && st.Return? && Enabled(s, st) && s' == Next(s, st)
    ensures Coherent(s')
  {
    forall r | r in s'.readers ensures ReaderOk(s', s'.readers[r]) {
      assert ReaderOk(s, s.readers[r]);
    }
  }

  lemma CoherentStep<V>(s: State<V>, st: Step<V>, s': State<V>)
    requires Coherent(s) && Enabled(s, st) && s' == Next(s, st)
    ensures Coherent(s')
  {
    if st.Begin? {
      CoherentBegin(s, st, s');
    } else if st.Fetch? || st.FetchFails? {
      CoherentFetch(s, st, s');
    } else if st.Store? {
      CoherentStore(s, st, s');
    } else if st.Return? {
      CoherentReturn(s, st, s');
    } else {
      CoherentWrite(s, st, s');
    }
  }

  lemma {:induction false} CoherentRun<V>(s: State<V>, steps: seq<Step<V>>, s': State<V>)
    requires Coherent(s) && Runs(s, steps, s')
    ensures Coherent(s')
    decreases |steps|
  {
    if steps != [] {
      CoherentStep(s, steps[0], Next(s, steps[0]));
      CoherentRun(Next(s, steps[0]), steps[1..], s');
    }
  }

  // ---- what follows for every run ----

  /** Every cached entry is an answer the server would have given at some moment since the latest
      invalidation; and it is the present answer when every applied write up to now has been
      invalidated for. */
  lemma EntriesAreCoherent<V>(s: State<V>, steps: seq<Step<V>>, s': State<V>, key: string)
    requires Initial(s) && Runs(s, steps, s') && key in s'.cache.entries
    ensures HeldSince(s'.history, s'.dropped, key, s'.cache.entries[key])
    ensures Quiet(s') ==> s'.cache.entries[key] == s'.history[|s'.history| - 1](key)
  {
    CoherentRun(s, steps, s');
    if Quiet(s') {
      QuietIsCurrent(s', key);
    }
  }

  lemma NothingOutstanding<V>(s: State<V>)
    requires Coherent(s) && Quiet(s)
    ensures s.dropped == |s.history| - 1
  {
    var v: nat := |s.history| - 1;
    assert s.dropped < v ==> v in s.pending || v in s.lost;
  }

  ghost predicate Began<V>(s: State<V>, r: nat, key: string, floor: nat) {
    r in s.readers && s.readers[r].key == key && s.readers[r].floor == floor
  }

  lemma {:induction false} BeganStays<V>(s: State<V>, steps: seq<Step<V>>, s': State<V>,
                                        r: nat, key: string, floor: nat)
    requires Runs(s, steps, s') && Began(s, r, key, floor)
    ensures Began(s', r, key, floor)
    decreases |steps|
  {
    if steps != [] {
      BeganStays(Next(s, steps[0]), steps[1..], s', r, key, floor);
    }
  }

  lemma {:induction false} ReturnedStays<V>(s: State<V>, steps: seq<Step<V>>, s': State<V>, w: nat)
    requires Runs(s, steps, s') && (w <= s.returned || Return(w) in steps)
    ensures w <= s'.returned
    decreases |steps|
  {
    if steps != [] {
      assert Return(w) in steps ==> steps[0] == Return(w) || Return(w) in steps[1..];
      ReturnedStays(Next(s, steps[0]), steps[1..], s', w);
    }
  }

  /** A get that begins after a set has returned never answers with anything older than what that
      set wrote, however many other gets and sets are under way. */
  lemma NeverOlderThanAReturnedSet<V>(s: State<V>, before: seq<Step<V>>, m: State<V>, r: nat, key: string,
                                      begun: State<V>, after: seq<Step<V>>, s': State<V>, w: nat)
    requires Initial(s) && Runs(s, before, m) && Return(w) in before
    requires Enabled(m, Begin(r, key)) && m.history != [] && begun == Next(m, Begin(r, key))
    requires Runs(begun, after, s') && r in s'.readers && s'.readers[r].Answered?
    ensures HeldSince(s'.history, w, key, s'.readers[r].value)
  {
    CoherentRun(s, before, m);
    ReturnedStays(s, before, m, w);
    CoherentStep(m, Begin(r, key), begun);
    BeganStays(begun, after, s', r, key, m.returned);
    CoherentRun(begun, after, s');
    assert ReaderOk(s', s'.readers[r]);
    var v: nat :| s'.readers[r].floor <= v < |s'.history| && s'.history[v](key) == s'.readers[r].value;
  }

  /** Every applied write has been invalidated for. */
  ghost predicate Quiet<V>(s: State<V>) {
    s.pending == {} && forall v :: v in s.lost ==> v <= s.dropped
  }

  /** In a quiet state the cache holds nothing but present answers. */
  lemma QuietIsCurrent<V>(s: State<V>, key: string)
    requires Coherent(s) && Quiet(s) && key in s.cache.entries
    ensures s.cache.entries[key] == s.history[|s.history| - 1](key)
  {
    NothingOutstanding(s);
    var v: nat :| s.dropped <= v < |s.history| && s.history[v](key) == s.cache.entries[key];
    assert v == |s.history| - 1;
  }

  /** Get r has seen nothing of the server from before version `from`. */
  ghost predicate SeesSince<V>(s: State<V>, r: nat, key: string, from: nat) {
    && from < |s.history| && r in s.readers && s.readers[r].key == key
    && (s.readers[r].Fetched? ==> from <= s.readers[r].version < |s.history|)
    && (s.readers[r].Answered? ==> HeldSince(s.history, from, key, s.readers[r].value))
  }

  lemma SeesSinceStep<V>(s: State<V>, st: Step<V>, s': State<V>, r: nat, key: string, from: nat)
    requires SeesSince(s, r, key, from) && Enabled(s, st) && s' == Next(s, st)
    ensures SeesSince(s', r, key, from)
  {
    var rd := s.readers[r];
    if st.Write? || st.WriteLost? {
      if rd.Answered? {
        HeldStill(s, st.next, from, from, key, rd.value);
      }
    } else if st.Store? && st.r == r {
      assert s.history[rd.version](key) == s'.readers[r].value;
    }
  }

  lemma {:induction false} SeesSinceRun<V>(s: State<V>, steps: seq<Step<V>>, s': State<V>,
                                           r: nat, key: string, from: nat)
    requires SeesSince(s, r, key, from) && Runs(s, steps, s')
    ensures SeesSince(s', r, key, from)
    decreases |steps|
  {
    if steps != [] {
      SeesSinceStep(s, steps[0], Next(s, steps[0]), r, key, from);
      SeesSinceRun(Next(s, steps[0]), steps[1..], s', r, key, from);
    }
  }

  /** When gets cannot go back. A get that begins when every applied write has been invalidated
      for, or that misses, answers something the server has held since the get began: nothing
      older than what any earlier get can have answered. */
  lemma NoGoingBack<V>(s: State<V>, before: seq<Step<V>>, m: State<V>, r: nat, key: string,
                       begun: State<V>, after: seq<Step<V>>, s': State<V>)
    requires Initial(s) && Runs(s, before, m) && Enabled(m, Begin(r, key)) && m.history != []
    requires begun == Next(m, Begin(r, key)) && Runs(begun, after, s')
    requires Quiet(m) || key !in m.cache.entries
    requires r in s'.readers && s'.readers[r].Answered?
    ensures HeldSince(s'.history, |m.history| - 1, key, s'.readers[r].value)
  {
    CoherentRun(s, before, m);
    if key in m.cache.entries {
      QuietIsCurrent(m, key);
      assert m.history[|m.history| - 1](key) == begun.readers[r].value;
    }
    SeesSinceRun(begun, after, s', r, key, |m.history| - 1);
  }

  /** A put whose generation is stale changes nothing: a get that began before an invalidation
      never leaves a trace in the cache after it. */
  lemma StalePutIsDropped<V>(s: State<V>, r: nat, s': State<V>)
    requires Coherent(s) && Enabled(s, Store(r)) && s' == Next(s, Store(r))
    requires s.readers[r].version < s.dropped
    ensures s'.cache == s.cache
  {
    assert ReaderOk(s, s.readers[r]);
  }

  // ---- one get among others, as its handler sees it ----

  /** What a step does to the cache. */
  ghost function OpOf<V>(s: State<V>, st: Step<V>): seq<Op<V>>
    requires Enabled(s, st)
  {
    if st.Store? then
      var f := s.readers[st.r];
      [Put(f.key, f.gen, s.history[f.version](f.key))]
    else if st.Return? then [Drop]
    else []
  }

  ghost function OpsOf<V>(s: State<V>, steps: seq<Step<V>>, s': State<V>): seq<Op<V>>
    requires Runs(s, steps, s')
    decreases |steps|
  {
    if steps == [] then [] else OpOf(s, steps[0]) + OpsOf(Next(s, steps[0]), steps[1..], s')
  }

  lemma StepDoes<V>(s: State<V>, st: Step<V>, s': State<V>)
    requires s.history != [] && Enabled(s, st) && s' == Next(s, st)
    ensures s'.cache == DidAll(s.cache, OpOf(s, st))
  {
    var ops := OpOf(s, st);
    if ops != [] {
      assert ops[..0] == [];
      assert DidAll(s.cache, ops[..0]) == s.cache;
    }
  }

  /** The cache after a run is the cache after its operations. */
  lemma {:induction false} RunDoes<V>(s: State<V>, steps: seq<Step<V>>, s': State<V>)
    requires Runs(s, steps, s')
    ensures s'.cache == DidAll(s.cache, OpsOf(s, steps, s'))
    decreases |steps|
  {
    if steps != [] {
      var m := Next(s, steps[0]);
      StepDoes(s, steps[0], m);
      RunDoes(m, steps[1..], s');
      DidAllAppend(s.cache, OpOf(s, steps[0]), OpsOf(m, steps[1..], s'));
    }
  }

  /** Get r is under way and saw this generation. */
  ghost predicate Waits<V>(s: State<V>, r: nat, key: string, gen: nat) {
    r in s.readers && s.readers[r].key == key
    && (s.readers[r].Missed? || s.readers[r].Fetched? ==> s.readers[r].gen == gen)
  }

  lemma {:induction false} WaitsStill<V>(s: State<V>, steps: seq<Step<V>>, s': State<V>, r: nat, key: string, gen: nat)
    requires Runs(s, steps, s') && Waits(s, r, key, gen)
    ensures Waits(s', r, key, gen)
    decreases |steps|
  {
    if steps != [] {
      WaitsStill(Next(s, steps[0]), steps[1..], s', r, key, gen);
    }
  }

  /** A get that misses and stores its fetched value after any steps of others leaves the cache as
      the handlers' contracts say: its value is kept exactly when none of them invalidated. */
  lemma GetAmongOthers<V>(s: State<V>, r: nat, key: string, m: State<V>,
                          steps: seq<Step<V>>, s1: State<V>, s2: State<V>)
    requires s.history != [] && Enabled(s, Begin(r, key)) && key !in s.cache.entries && m == Next(s, Begin(r, key))
    requires Runs(m, steps, s1) && s1.history != [] && Enabled(s1, Store(r)) && s2 == Next(s1, Store(r))
    ensures s2.readers[r].Answered? && s2.readers[r].key == key
    ensures s2.cache == Filled(s.cache, OpsOf(m, steps, s1), key, s2.readers[r].value)
  {
    WaitsStill(m, steps, s1, r, key, s.cache.gen);
    RunDoes(m, steps, s1);
    GenCountsDrops(s.cache, OpsOf(m, steps, s1));
  }

  // ---- what does not hold ----

  function Constant<V>(v: V): Server<V> { key => v }

  lemma RunsStep<V>(s: State<V>, st: Step<V>, m: State<V>, steps: seq<Step<V>>, s': State<V>)
    requires s.history != [] && Enabled(s, st) && m == Next(s, st) && Runs(m, steps, s')
    ensures Runs(s, [st] + steps, s')
  {
    assert ([st] + steps)[1..] == steps;
  }

  /** A lost write leaves the old answer in the cache with nothing pending: the condition on `lost`
      in EntriesAreCoherent is needed. */
  lemma LostWriteStaysStale(was: string, now: string, key: string, s: State<string>)
      returns (steps: seq<Step<string>>, s': State<string>)
    requires was != now && Initial(s) && s.history == [Constant(was)]
    ensures Runs(s, steps, s') && s'.pending == {} && key in s'.cache.entries
    ensures s'.history != [] && s'.cache.entries[key] != s'.history[|s'.history| - 1](key)
  {
    var lose := WriteLost(Constant(now));
    var s1 := Next(s, Begin(0, key));
    var s2 := Next(s1, Fetch(0));
    var s3 := Next(s2, Store(0));
    s' := Next(s3, lose);
    RunsStep(s3, lose, s', [], s');
    RunsStep(s2, Store(0), s3, [lose] + [], s');
    RunsStep(s1, Fetch(0), s2, [Store(0)] + ([lose] + []), s');
    RunsStep(s, Begin(0, key), s1, [Fetch(0)] + ([Store(0)] + ([lose] + [])), s');
    steps := [Begin(0, key)] + ([Fetch(0)] + ([Store(0)] + ([lose] + [])));
  }

  /** The other half. From every quiet state and for every write that changes the answer to a key,
      applied by a set that has yet to invalidate or lost, some run leads to a state with that one
      write outstanding in which a get that begins is answered what the server held before the
      write and holds no longer. */
  lemma OutstandingMayGoBack(s0: State<string>, before: seq<Step<string>>, s: State<string>, key: string,
                             next: Server<string>, lose: bool, q: nat, r: nat)
      returns (steps: seq<Step<string>>, m: State<string>, begun: State<string>)
    requires Initial(s0) && Runs(s0, before, s) && s.history != [] && Quiet(s)
    requires next(key) != s.history[|s.history| - 1](key)
    requires q != r && q !in s.readers && r !in s.readers
    ensures Runs(s, steps, m) && m.history == s.history + [next]
    ensures if lose then m.pending == {} && m.lost == s.lost + {|s.history|}
            else m.pending == {|s.history|} && m.lost == s.lost
    ensures Enabled(m, Begin(r, key)) && m.history != [] && begun == Next(m, Begin(r, key)) && r in begun.readers
    ensures begun.readers[r].Answered? && begun.readers[r].value == s.history[|s.history| - 1](key)
    ensures !HeldSince(m.history, |m.history| - 1, key, begun.readers[r].value)
  {
    CoherentRun(s0, before, s);
    var first, c := Fill(s, key, q);
    var write := if lose then WriteLost(next) else Write(next);
    m := Next(c, write);
    RunsStep(c, write, m, [], m);
    RunsAppend(s, first, c, [write] + [], m);
    steps := first + ([write] + []);
    begun := Next(m, Begin(r, key));
  }

  /** A get that brings the present answer into the cache of a quiet state, if it is not there. */
  lemma Fill(s: State<string>, key: string, q: nat) returns (steps: seq<Step<string>>, c: State<string>)
    requires Coherent(s) && Quiet(s) && q !in s.readers
    ensures Runs(s, steps, c) && c.history == s.history && c.pending == s.pending && c.lost == s.lost
    ensures key in c.cache.entries && c.cache.entries[key] == s.history[|s.history| - 1](key)
    ensures forall r :: r in c.readers ==> r == q || r in s.readers
  {
    if key in s.cache.entries {
      QuietIsCurrent(s, key);
      steps, c := [], s;
    } else {
      var s1 := Next(s, Begin(q, key));
      var s2 := Next(s1, Fetch(q));
      c := Next(s2, Store(q));
      RunsStep(s2, Store(q), c, [], c);
      RunsStep(s1, Fetch(q), s2, [Store(q)] + [], c);
      RunsStep(s, Begin(q, key), s1, [Fetch(q)] + ([Store(q)] + []), c);
      steps := [Begin(q, key)] + ([Fetch(q)] + ([Store(q)] + []));
    }
  }

  lemma {:induction false} RunsAppend<V>(s: State<V>, steps: seq<Step<V>>, m: State<V>,
                                         more: seq<Step<V>>, s': State<V>)
    requires Runs(s, steps, m) && Runs(m, more, s')
    ensures Runs(s, steps + more, s')
    decreases |steps|
  {
    if steps == [] {
      assert steps + more == more;
    } else {
      RunsAppend(Next(s, steps[0]), steps[1..], m, more, s');
      assert (steps + more)[0] == steps[0] && (steps + more)[1..] == steps[1..] + more;
    }
  }

  /** While a set is between its RPC and its invalidation, gets may go back: two gets miss
      together, one fetches before the write and the other after it, the late answer is returned
      and cached, the early one is then put over it, and a third get is served the early one. */
  lemma GetsMayGoBack(was: string, now: string, key: string, s: State<string>)
      returns (first: seq<Step<string>>, m: State<string>, second: seq<Step<string>>, s': State<string>)
    requires was != now && Initial(s) && s.history == [Constant(was)]
    ensures Runs(s, first, m) && 1 in m.readers && m.readers[1] == Answered(key, 0, now)
    ensures 2 !in m.readers && Runs(m, second, s') && 2 in s'.readers && s'.readers[2] == Answered(key, 0, was)
  {
    var s1 := Next(s, Begin(0, key));
    var s2 := Next(s1, Begin(1, key));
    var s3 := Next(s2, Fetch(0));
    var s4 := Next(s3, Write(Constant(now)));
    var s5 := Next(s4, Fetch(1));
    m := Next(s5, Store(1));
    RunsStep(s5, Store(1), m, [], m);
    first := [Store(1)] + [];
    RunsStep(s4, Fetch(1), s5, first, m);
    first := [Fetch(1)] + first;
    RunsStep(s3, Write(Constant(now)), s4, first, m);
    first := [Write(Constant(now))] + first;
    RunsStep(s2, Fetch(0), s3, first, m);
    first := [Fetch(0)] + first;
    RunsStep(s1, Begin(1, key), s2, first, m);
    first := [Begin(1, key)] + first;
    RunsStep(s, Begin(0, key), s1, first, m);
    first := [Begin(0, key)] + first;
    var s7 := Next(m, Store(0));
    s' := Next(s7, Begin(2, key));
    RunsStep(s7, Begin(2, key), s', [], s');
    RunsStep(m, Store(0), s7, [Begin(2, key)] + [], s');
    second := [Store(0)] + ([Begin(2, key)] + []);
  }
}
