/** Concurrent calls of the manager's Get, one atomic section at a time. */
module ManagerProtocol {

  datatype Option<T> = None | Some(value: T)

  /** The two maps under the manager's lock. Bots and per-token mutexes are named by number. */
  datatype Registry = Registry(bots: map<string, nat>, init: map<string, nat>)

  /** Where a call of Get stands. From Holding to Leaving it holds its token's mutex. */
  datatype Call =
    | Started(token: string)
    | Slow(token: string)
    | Waiting(token: string, mu: nat)
    | Holding(token: string, mu: nat)
    | Building(token: string, mu: nat)
    | Built(token: string, mu: nat, bot: nat)
    | Leaving(token: string, mu: nat, result: Option<nat>)
    | Done(token: string, result: Option<nat>)

  /** `mutexes` are the tokens that mutexes were made for, `built` those of the successful builds,
      both in order. */
  datatype State = State(reg: Registry, calls: map<nat, Call>, mutexes: seq<string>, built: seq<string>)

  datatype Step =
    | Call(c: nat, token: string)
    | Look(c: nat)
    | Reserve(c: nat)
    | Lock(c: nat)
    | Recheck(c: nat)
    | BuildFails(c: nat)
    | BuildSucceeds(c: nat)
    | Publish(c: nat)
    | Unlock(c: nat)

  predicate Holds(call: Call) { call.Holding? || call.Building? || call.Built? || call.Leaving? }

  predicate HasMutex(call: Call) { call.Waiting? || Holds(call) }

  ghost predicate Free(s: State, mu: nat) {
    forall c :: c in s.calls && Holds(s.calls[c]) ==> s.calls[c].mu != mu
  }

  // ---- the critical sections on the maps ----

  function Found(reg: Registry, token: string): Option<nat> {
    if token in reg.bots then Some(reg.bots[token]) else None
  }

  /** A caller of a missing token makes mutex number `next` if the token has none. */
  function Reserved(reg: Registry, token: string, next: nat): Registry {
    if token in reg.bots || token in reg.init then reg else reg.(init := reg.init[token := next])
  }

  function Published(reg: Registry, token: string, bot: nat): Registry {
    Registry(reg.bots[token := bot], reg.init - {token})
  }

  // ---- the step system ----

  ghost predicate Initial(s: State) {
    s == State(Registry(map[], map[]), map[], [], [])
  }

  ghost predicate Enabled(s: State, st: Step) {
    if st.Call? then st.c !in s.calls
    else if st.c !in s.calls then false
    else
      var call := s.calls[st.c];
      if st.Look? then call.Started?
      else if st.Reserve? then call.Slow?
      else if st.Lock? then call.Waiting? && Free(s, call.mu)
      else if st.Recheck? then call.Holding?
      else if st.BuildFails? || st.BuildSucceeds? then call.Building?
      else if st.Publish? then call.Built?
      else call.Leaving?
  }

  function Moved(s: State, c: nat, call: Call): State { s.(calls := s.calls[c := call]) }

  function AfterLook(s: State, c: nat, token: string): State {
    var b := Found(s.reg, token);
    Moved(s, c, if b.Some? then Done(token, b) else Slow(token))
  }

  function AfterReserve(s: State, c: nat, token: string): State {
    var b := Found(s.reg, token);
    if b.Some? then Moved(s, c, Done(token, b))
    else if token in s.reg.init then Moved(s, c, Waiting(token, s.reg.init[token]))
    else Moved(s.(reg := Reserved(s.reg, token, |s.mutexes|), mutexes := s.mutexes + [token]), c,
               Waiting(token, |s.mutexes|))
  }

  function AfterRecheck(s: State, c: nat, call: Call): State
    requires call.Holding?
  {
    var b := Found(s.reg, call.token);
    Moved(s, c, if b.Some? then Leaving(call.token, call.mu, b) else Building(call.token, call.mu))
  }

  function AfterBuild(s: State, c: nat, call: Call): State
    requires call.Building?
  {
    Moved(s.(built := s.built + [call.token]), c, Built(call.token, call.mu, |s.built|))
  }

  function AfterPublish(s: State, c: nat, call: Call): State
    requires call.Built?
  {
    Moved(s.(reg := Published(s.reg, call.token, call.bot)), c, Leaving(call.token, call.mu, Some(call.bot)))
  }

  ghost function Next(s: State, st: Step): State
    requires Enabled(s, st)
  {
    if st.Call? then Moved(s, st.c, Started(st.token))
    else
      var call := s.calls[st.c];
      if st.Look? then AfterLook(s, st.c, call.token)
      else if st.Reserve? then AfterReserve(s, st.c, call.token)
      else if st.Lock? then Moved(s, st.c, Holding(call.token, call.mu))
      else if st.Recheck? then AfterRecheck(s, st.c, call)
      else if st.BuildFails? then Moved(s, st.c, Leaving(call.token, call.mu, None))
      else if st.BuildSucceeds? then AfterBuild(s, st.c, call)
      else if st.Publish? then AfterPublish(s, st.c, call)
      else Moved(s, st.c, Done(call.token, call.result))
  }

  ghost predicate Runs(s: State, steps: seq<Step>, s': State)
    decreases |steps|
  {
    if steps == [] then s' == s
    else Enabled(s, steps[0]) && Runs(Next(s, steps[0]), steps[1..], s')
  }

  lemma {:induction false} RunsAppend(s: State, steps: seq<Step>, m: State, more: seq<Step>, s': State)
    requires Runs(s, steps, m) && Runs(m, more, s')
    ensures Runs(s, steps + more, s')
    decreases |steps|
  {
    if steps == [] {
      assert steps + more == more;
    } else {
      RunsAppend(Next(s, steps[0]), steps[1..], m, more, s');
      assert (steps + more)[0] == steps[0] && (steps + more)[1..] == steps[1..] + more;
    }
  }

  // ---- the invariant ----

  ghost predicate Distinct(tokens: seq<string>) {
    forall i, j :: 0 <= i < j < |tokens| ==> tokens[i] != tokens[j]
  }

  /** A token has a mutex from its first slow call on; it stays in `init` until the token's bot
      is published, and is the only one ever made for the token. */
  ghost predicate MutexesOk(s: State) {
    && Distinct(s.mutexes)
    && s.reg.bots.Keys !! s.reg.init.Keys
    && (forall t :: t in s.mutexes <==> t in s.reg.bots || t in s.reg.init)
    && (forall t :: t in s.reg.init ==> s.reg.init[t] < |s.mutexes| && s.mutexes[s.reg.init[t]] == t)
  }

  ghost predicate CallOk(s: State, call: Call) {
    && (HasMutex(call) ==> call.mu < |s.mutexes| && s.mutexes[call.mu] == call.token)
    && (call.Building? || call.Built? ==> call.token !in s.reg.bots)
    && (call.Building? ==> call.token !in s.built)
    && (call.Built? ==> call.bot < |s.built| && s.built[call.bot] == call.token)
    && ((call.Leaving? || call.Done?) && call.result.Some? ==>
          call.token in s.reg.bots && s.reg.bots[call.token] == call.result.value)
  }

  ghost predicate Exclusive(s: State) {
    forall c, c' :: (c in s.calls && c' in s.calls && Holds(s.calls[c]) && Holds(s.calls[c'])
                     && s.calls[c].mu == s.calls[c'].mu) ==> c == c'
  }

  ghost predicate Delivering(s: State, token: string) {
    exists c :: c in s.calls && s.calls[c].Built? && s.calls[c].token == token
  }

  /** A bot that was built is published or about to be; every published bot was built. */
  ghost predicate BuiltOk(s: State) {
    && Distinct(s.built)
    && (forall t :: t in s.built ==> t in s.reg.bots || Delivering(s, t))
    && (forall t :: t in s.reg.bots ==> s.reg.bots[t] < |s.built| && s.built[s.reg.bots[t]] == t)
  }

  ghost predicate Inv(s: State) {
    && MutexesOk(s)
    && (forall c :: c in s.calls ==> CallOk(s, s.calls[c]))
    && Exclusive(s)
    && BuiltOk(s)
  }

  /** Calls holding the mutex of one token are one call. */
  lemma OneHolderPerToken(s: State, c: nat, c': nat)
    requires Inv(s) && c in s.calls && c' in s.calls && Holds(s.calls[c]) && Holds(s.calls[c'])
    requires s.calls[c].token == s.calls[c'].token
    ensures c == c'
  {
    assert CallOk(s, s.calls[c]) && CallOk(s, s.calls[c']);
  }

  lemma DistinctAppend(tokens: seq<string>, t: string)
    requires Distinct(tokens) && t !in tokens
    ensures Distinct(tokens + [t])
  {
  }

  /** Call c goes on holding what it held, or takes a free mutex, or holds none. */
  ghost predicate MayHold(s: State, c: nat, call: Call) {
    Holds(call) ==> (c in s.calls && Holds(s.calls[c]) && s.calls[c].mu == call.mu) || Free(s, call.mu)
  }

  lemma ExclusiveKept(s: State, c: nat, call: Call, s': State)
    requires Exclusive(s) && MayHold(s, c, call) && s'.calls == s.calls[c := call]
    ensures Exclusive(s')
  {
  }

  lemma DeliveringKept(s: State, c: nat, call: Call, s': State, t: string)
    requires Delivering(s, t) && s'.calls == s.calls[c := call]
    requires c in s.calls && s.calls[c].Built? ==> s.calls[c].token != t
    ensures Delivering(s', t)
  {
    var x :| x in s.calls && s.calls[x].Built? && s.calls[x].token == t;
    assert x in s'.calls && s'.calls[x] == s.calls[x];
  }

  /** Steps that change only where one call stands. */
  lemma InvMoved(s: State, c: nat, call: Call, s': State)
    requires Inv(s) && s' == Moved(s, c, call) && CallOk(s, call)
    requires c in s.calls ==> !s.calls[c].Built?
    requires MayHold(s, c, call)
    ensures Inv(s')
  {
    ExclusiveKept(s, c, call, s');
    forall x | x in s'.calls ensures CallOk(s', s'.calls[x]) {
      assert x == c || (x in s.calls && CallOk(s, s.calls[x]));
    }
    forall t | Delivering(s, t) ensures Delivering(s', t) {
      DeliveringKept(s, c, call, s', t);
    }
  }

  lemma InvReserve(s: State, c: nat, s': State)
    requires Inv(s) && Enabled(s, Reserve(c)) && s' == Next(s, Reserve(c))
    requires s.calls[c].token !in s.reg.bots && s.calls[c].token !in s.reg.init
    ensures Inv(s')
  {
    var t := s.calls[c].token;
    DistinctAppend(s.mutexes, t);
    assert s'.mutexes == s.mutexes + [t];
    ExclusiveKept(s, c, s'.calls[c], s');
    forall x | x in s'.calls ensures CallOk(s', s'.calls[x]) {
      assert x == c || (x in s.calls && CallOk(s, s.calls[x]));
    }
    forall u | Delivering(s, u) ensures Delivering(s', u) {
      DeliveringKept(s, c, s'.calls[c], s', u);
    }
  }

  lemma CallsOkBuild(s: State, c: nat, s': State)
    requires Inv(s) && Enabled(s, BuildSucceeds(c)) && s' == Next(s, BuildSucceeds(c))
    ensures forall x :: x in s'.calls ==> CallOk(s', s'.calls[x])
  {
    assert CallOk(s, s.calls[c]);
    forall x | x in s'.calls ensures CallOk(s', s'.calls[x]) {
      if x != c {
        assert x in s.calls && CallOk(s, s.calls[x]);
        if s.calls[x].Building? && s.calls[x].token == s.calls[c].token {
          OneHolderPerToken(s, c, x);
        }
      }
    }
  }

  lemma InvBuild(s: State, c: nat, s': State)
    requires Inv(s) && Enabled(s, BuildSucceeds(c)) && s' == Next(s, BuildSucceeds(c))
    ensures Inv(s')
  {
    var t := s.calls[c].token;
    assert CallOk(s, s.calls[c]);
    DistinctAppend(s.built, t);
    assert s'.built == s.built + [t];
    ExclusiveKept(s, c, s'.calls[c], s');
    CallsOkBuild(s, c, s');
    assert Delivering(s', t) by {
      assert c in s'.calls && s'.calls[c].Built?;
    }
    forall u | u in s.built && u !in s.reg.bots ensures Delivering(s', u) {
      DeliveringKept(s, c, s'.calls[c], s', u);
    }
  }

  lemma CallsOkPublish(s: State, c: nat, s': State)
    requires Inv(s) && Enabled(s, Publish(c)) && s' == Next(s, Publish(c))
    ensures forall x :: x in s'.calls ==> CallOk(s', s'.calls[x])
  {
    assert CallOk(s, s.calls[c]);
    forall x | x in s'.calls ensures CallOk(s', s'.calls[x]) {
      if x != c {
        assert x in s.calls && CallOk(s, s.calls[x]);
        if Holds(s.calls[x]) && s.calls[x].token == s.calls[c].token {
          OneHolderPerToken(s, c, x);
        }
      }
    }
  }

  lemma InvPublish(s: State, c: nat, s': State)
    requires Inv(s) && Enabled(s, Publish(c)) && s' == Next(s, Publish(c))
    ensures Inv(s')
  {
    var t := s.calls[c].token;
    assert CallOk(s, s.calls[c]);
    ExclusiveKept(s, c, s'.calls[c], s');
    CallsOkPublish(s, c, s');
    forall u | u in s'.built && u !in s'.reg.bots ensures Delivering(s', u) {
      DeliveringKept(s, c, s'.calls[c], s', u);
    }
  }

  lemma InvStep(s: State, st: Step, s': State)
    requires Inv(s) && Enabled(s, st) && s' == Next(s, st)
    ensures Inv(s')
  {
    if st.Call? {
      InvMoved(s, st.c, Started(st.token), s');
    } else {
      assert CallOk(s, s.calls[st.c]);
      if st.BuildSucceeds? {
        InvBuild(s, st.c, s');
      } else if st.Publish? {
        InvPublish(s, st.c, s');
      } else if st.Reserve? && s.calls[st.c].token !in s.reg.bots && s.calls[st.c].token !in s.reg.init {
        InvReserve(s, st.c, s');
      } else if st.Recheck? {
        InvRecheck(s, st.c, s');
      } else {
        InvMoved(s, st.c, s'.calls[st.c], s');
      }
    }
  }

  /** A call that finds no bot under its mutex may build: nobody else has, or is about to publish. */
  lemma InvRecheck(s: State, c: nat, s': State)
    requires Inv(s) && Enabled(s, Recheck(c)) && s' == Next(s, Recheck(c))
    ensures Inv(s')
  {
    var call := s.calls[c];
    assert CallOk(s, call);
    if call.token !in s.reg.bots && call.token in s.built {
      var x :| x in s.calls && s.calls[x].Built? && s.calls[x].token == call.token;
      OneHolderPerToken(s, c, x);
    }
    InvMoved(s, c, s'.calls[c], s');
  }

  lemma {:induction false} InvRun(s: State, steps: seq<Step>, s': State)
    requires Inv(s) && Runs(s, steps, s')
    ensures Inv(s')
    decreases |steps|
  {
    if steps != [] {
      InvStep(s, steps[0], Next(s, steps[0]));
      InvRun(Next(s, steps[0]), steps[1..], s');
    }
  }

  // ---- what holds in every run ----

  /** At any moment at most one call is building, or has built and not yet published, a token. */
  lemma OneBuildInFlight(s: State, steps: seq<Step>, s': State, c: nat, c': nat)
    requires Initial(s) && Runs(s, steps, s') && c in s'.calls && c' in s'.calls
    requires s'.calls[c].Building? || s'.calls[c].Built?
    requires s'.calls[c'].Building? || s'.calls[c'].Built?
    requires s'.calls[c].token == s'.calls[c'].token
    ensures c == c'
  {
    InvRun(s, steps, s');
    OneHolderPerToken(s', c, c');
  }

  /** The bot that a call has returned, if it has returned one. */
  function Returned(s: State, c: nat): Option<nat> {
    if c in s.calls && s.calls[c].Done? then s.calls[c].result else None
  }

  /** In every run, at most one build of a token ever succeeds. */
  lemma OneBuildSucceeds(s: State, steps: seq<Step>, s': State, i: nat, j: nat)
    requires Initial(s) && Runs(s, steps, s') && i < |s'.built| && j < |s'.built|
    ensures s'.built[i] == s'.built[j] <==> i == j
  {
    InvRun(s, steps, s');
  }

  /** Every call that succeeds returns the bot that the one successful build of its token made, so
      two calls return the same bot exactly when they asked for the same token. */
  lemma OneBotPerToken(s: State, steps: seq<Step>, s': State, c: nat, c': nat)
    requires Initial(s) && Runs(s, steps, s')
    requires Returned(s', c).Some? && Returned(s', c').Some?
    ensures var bot := Returned(s', c).value; bot < |s'.built| && s'.built[bot] == s'.calls[c].token
    ensures Returned(s', c) == Returned(s', c') <==> s'.calls[c].token == s'.calls[c'].token
  {
    InvRun(s, steps, s');
    assert CallOk(s', s'.calls[c]) && CallOk(s', s'.calls[c']);
  }

  lemma KeysStayDisjoint(s: State, steps: seq<Step>, s': State)
    requires Initial(s) && Runs(s, steps, s')
    ensures s'.reg.bots.Keys !! s'.reg.init.Keys
  {
    InvRun(s, steps, s');
  }

  lemma {:induction false} MutexesGrow(s: State, steps: seq<Step>, s': State)
    requires Runs(s, steps, s')
    ensures s.mutexes <= s'.mutexes
    decreases |steps|
  {
    if steps != [] {
      MutexesGrow(Next(s, steps[0]), steps[1..], s');
    }
  }

  /** Whatever builds fail, every later call for the token waits for the mutex that the first one
      waited for. */
  lemma SameMutexForever(s: State, steps: seq<Step>, m: State, more: seq<Step>, s': State, c: nat, c': nat)
    requires Initial(s) && Runs(s, steps, m) && Runs(m, more, s')
    requires c in m.calls && HasMutex(m.calls[c]) && c' in s'.calls && HasMutex(s'.calls[c'])
    requires m.calls[c].token == s'.calls[c'].token
    ensures m.calls[c].mu == s'.calls[c'].mu
  {
    InvRun(s, steps, m);
    InvRun(m, more, s');
    MutexesGrow(m, more, s');
    assert CallOk(m, m.calls[c]) && CallOk(s', s'.calls[c']);
    assert s'.mutexes[m.calls[c].mu] == m.calls[c].token;
  }

  /** A failed build leaves the token's mutex in place for the calls to come. */
  lemma FailureKeepsMutex(s: State, steps: seq<Step>, m: State, c: nat, s': State)
    requires Initial(s) && Runs(s, steps, m) && Enabled(m, BuildFails(c)) && s' == Next(m, BuildFails(c))
    ensures m.calls[c].token in s'.reg.init && s'.reg.init[m.calls[c].token] == m.calls[c].mu
  {
    InvRun(s, steps, m);
    assert CallOk(m, m.calls[c]);
    var t := m.calls[c].token;
    assert t in m.mutexes;
    assert m.mutexes[m.reg.init[t]] == t;
  }

  /** Some call can move as long as one has not returned: the mutexes never deadlock. */
  lemma NeverDeadlocked(s: State, steps: seq<Step>, s': State, c: nat)
    requires Initial(s) && Runs(s, steps, s') && c in s'.calls && !s'.calls[c].Done?
    ensures exists st: Step :: !st.Call? && Enabled(s', st)
  {
    var call := s'.calls[c];
    var mover := c;
    if call.Waiting? && !Free(s', call.mu) {
      mover :| mover in s'.calls && Holds(s'.calls[mover]) && s'.calls[mover].mu == call.mu;
    }
    var now := s'.calls[mover];
    var st := if now.Started? then Look(mover) else if now.Slow? then Reserve(mover)
      else if now.Waiting? then Lock(mover) else if now.Holding? then Recheck(mover)
      else if now.Building? then BuildFails(mover) else if now.Built? then Publish(mover) else Unlock(mover);
    assert Enabled(s', st);
  }
}
