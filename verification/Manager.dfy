/** The manager: its maps, and Get run among other calls of Get. */
module Managers {
  import opened ManagerProtocol

  /** `bots` and `init` are the manager's own fields. Where each call stands, which mutexes exist
      and which builds succeeded is the business of the scheduler, the allocator and the outside;
      it is kept here so that several calls can be followed through one object. */
  class Manager {
    var bots: map<string, nat>
    var init: map<string, nat>
    var calls: map<nat, Call>
    var mutexes: seq<string>
    var built: seq<string>
    ghost var trace: seq<Step>

    ghost function Now(): State
      reads this
    {
      State(Registry(bots, init), calls, mutexes, built)
    }

    /** All that ever happened to this manager is a run of the step system. */
    ghost predicate Valid()
      reads this
    {
      Runs(State(Registry(map[], map[]), map[], [], []), trace, Now())
    }

    constructor ()
      ensures Valid() && trace == [] && Initial(Now())
    {
      bots, init, calls, mutexes, built, trace := map[], map[], map[], [], [], [];
    }

    lemma Reached()
      requires Valid()
      ensures Inv(Now())
    {
      InvRun(State(Registry(map[], map[]), map[], [], []), trace, Now());
    }

    /** A returned bot is the published one. */
    lemma Settled(c: nat)
      requires Valid() && c in calls && calls[c].Done?
      ensures calls[c].result.Some? ==>
                calls[c].token in bots && bots[calls[c].token] == calls[c].result.value
    {
      Reached();
      assert CallOk(Now(), Now().calls[c]);
    }

    ghost method Record(s: State, st: Step)
      requires Runs(State(Registry(map[], map[]), map[], [], []), trace, s)
      requires Enabled(s, st) && Now() == Next(s, st)
      modifies this`trace
      ensures Valid() && trace == old(trace) + [st] && Now() == old(Now())
    {
      assert Runs(Next(s, st), [], Now());
      assert Runs(s, [st], Now());
      RunsAppend(State(Registry(map[], map[]), map[], [], []), trace, s, [st], Now());
      trace := trace + [st];
    }

    method Start(c: nat, token: string)
      requires Valid() && c !in calls
      modifies this
      ensures Valid() && trace == old(trace) + [Call(c, token)]
      ensures Now() == Next(old(Now()), Call(c, token))
    {
      ghost var s := Now();
      calls := calls[c := Started(token)];
      Record(s, Call(c, token));
    }

    /** The first look, under the read lock. */
    method FastLookup(c: nat) returns (b: Option<nat>)
      requires Valid() && Enabled(Now(), Look(c))
      modifies this
      ensures Valid() && trace == old(trace) + [Look(c)] && Now() == Next(old(Now()), Look(c))
      ensures bots == old(bots) && init == old(init) && c in calls
      ensures var token := old(calls)[c].token;
              if token in bots then b == Some(bots[token]) && calls[c] == Done(token, b)
              else b == None && calls[c] == Slow(token)
    {
      ghost var s := Now();
      var token := calls[c].token;
      if token in bots {
        b := Some(bots[token]);
        calls := calls[c := Done(token, b)];
      } else {
        b := None;
        calls := calls[c := Slow(token)];
      }
      Record(s, Look(c));
    }

    /** Under the write lock: look again, and find or make the token's mutex. */
    method LookupOrReserve(c: nat) returns (b: Option<nat>)
      requires Valid() && Enabled(Now(), Reserve(c))
      modifies this
      ensures Valid() && trace == old(trace) + [Reserve(c)] && Now() == Next(old(Now()), Reserve(c))
      ensures bots == old(bots) && c in calls
      ensures var token := old(calls)[c].token;
              if token in bots then b == Some(bots[token]) && calls[c] == Done(token, b) && init == old(init)
              else b == None && token in init && calls[c] == Waiting(token, init[token])
                   && init == (if token in old(init) then old(init) else old(init)[token := |old(mutexes)|])
    {
      ghost var s := Now();
      var token := calls[c].token;
      if token in bots {
        b := Some(bots[token]);
        calls := calls[c := Done(token, b)];
      } else {
        if token !in init {
          init := init[token := |mutexes|];
          mutexes := mutexes + [token];
        }
        b := None;
        calls := calls[c := Waiting(token, init[token])];
      }
      Record(s, Reserve(c));
    }

    method TakeMutex(c: nat)
      requires Valid() && Enabled(Now(), Lock(c))
      modifies this
      ensures Valid() && trace == old(trace) + [Lock(c)] && Now() == Next(old(Now()), Lock(c))
    {
      ghost var s := Now();
      calls := calls[c := Holding(calls[c].token, calls[c].mu)];
      Record(s, Lock(c));
    }

    method LookAgain(c: nat) returns (b: Option<nat>)
      requires Valid() && Enabled(Now(), Recheck(c))
      modifies this
      ensures Valid() && trace == old(trace) + [Recheck(c)] && Now() == Next(old(Now()), Recheck(c))
      ensures bots == old(bots) && init == old(init) && c in calls
      ensures var call := old(calls)[c];
              if call.token in bots then b == Some(bots[call.token]) && calls[c] == Leaving(call.token, call.mu, b)
              else b == None && calls[c] == Building(call.token, call.mu)
    {
      ghost var s := Now();
      var call := calls[c];
      if call.token in bots {
        b := Some(bots[call.token]);
        calls := calls[c := Leaving(call.token, call.mu, b)];
      } else {
        b := None;
        calls := calls[c := Building(call.token, call.mu)];
      }
      Record(s, Recheck(c));
    }

    /** The build; whether it succeeds is not the manager's doing. */
    method Build(c: nat, succeeds: bool) returns (b: Option<nat>)
      requires Valid() && c in calls && calls[c].Building?
      modifies this
      ensures Valid()
      ensures var st := if succeeds then BuildSucceeds(c) else BuildFails(c);
              Enabled(old(Now()), st) && trace == old(trace) + [st] && Now() == Next(old(Now()), st)
      ensures b == if succeeds then Some(|old(built)|) else None
    {
      ghost var s := Now();
      var call := calls[c];
      if succeeds {
        b := Some(|built|);
        calls := calls[c := Built(call.token, call.mu, |built|)];
        built := built + [call.token];
        Record(s, BuildSucceeds(c));
      } else {
        b := None;
        calls := calls[c := Leaving(call.token, call.mu, None)];
        Record(s, BuildFails(c));
      }
    }

    method PublishBot(c: nat)
      requires Valid() && Enabled(Now(), Publish(c))
      modifies this
      ensures Valid() && trace == old(trace) + [Publish(c)] && Now() == Next(old(Now()), Publish(c))
      ensures var call := old(calls)[c];
              bots == old(bots)[call.token := call.bot] && init == old(init) - {call.token}
    {
      ghost var s := Now();
      var call := calls[c];
      bots := bots[call.token := call.bot];
      init := init - {call.token};
      calls := calls[c := Leaving(call.token, call.mu, Some(call.bot))];
      Record(s, Publish(c));
    }

    method ReleaseMutex(c: nat)
      requires Valid() && Enabled(Now(), Unlock(c))
      modifies this
      ensures Valid() && trace == old(trace) + [Unlock(c)] && Now() == Next(old(Now()), Unlock(c))
    {
      ghost var s := Now();
      calls := calls[c := Done(calls[c].token, calls[c].result)];
      Record(s, Unlock(c));
    }

    /** One atomic section of any call. */
    method Perform(st: Step)
      requires Valid() && Enabled(Now(), st)
      modifies this
      ensures Valid() && trace == old(trace) + [st] && Now() == Next(old(Now()), st)
    {
      if st.Call? {
        Start(st.c, st.token);
      } else if st.Look? {
        var _ := FastLookup(st.c);
      } else if st.Reserve? {
        var _ := LookupOrReserve(st.c);
      } else if st.Lock? {
        TakeMutex(st.c);
      } else if st.Recheck? {
        var _ := LookAgain(st.c);
      } else if st.BuildFails? {
        var _ := Build(st.c, false);
      } else if st.BuildSucceeds? {
        var _ := Build(st.c, true);
      } else if st.Publish? {
        PublishBot(st.c);
      } else {
        ReleaseMutex(st.c);
      }
    }

    /** Other calls move, as the schedule has it, while call c does not. */
    method Others(c: nat, steps: seq<Step>)
      requires Valid() && c in calls && Possible(Now(), steps, c)
      modifies this
      ensures Valid() && trace == old(trace) + steps && Runs(old(Now()), steps, Now())
      ensures c in calls && calls[c] == old(calls)[c]
      ensures Yields(old(Now()), steps, c, Now())
      decreases |steps|
    {
      ghost var s := Now();
      if steps == [] {
        assert trace == old(trace) + steps;
      } else {
        Perform(steps[0]);
        assert Possible(Now(), steps[1..], c);
        Others(c, steps[1..]);
        assert trace == old(trace) + steps;
      }
    }

    /** Get, by call c, among whatever the schedule lets other calls do between its sections. The
        schedule is free but for letting the mutex's holder finish while c waits for it. */
    method Get(c: nat, token: string, buildSucceeds: bool, sched: State -> seq<Step>) returns (r: Option<nat>)
      requires Valid() && c !in calls
      requires Fair(sched, c)
      modifies this
      ensures Valid() && old(trace) <= trace
      ensures c in calls && calls[c] == Done(token, r)
      ensures r.Some? ==> token in bots && bots[token] == r.value
      ensures r.None? ==> !buildSucceeds && BuildFails(c) in trace
    {
      Start(c, token);
      r := FastPath(c, sched);
      if r.Some? {
        return r;
      }
      r := SlowPath(c, sched);
      if r.Some? {
        return r;
      }
      r := UnderMutex(c, buildSucceeds, sched);
      Leave(c, sched);
      return r;
    }

    method FastPath(c: nat, sched: State -> seq<Step>) returns (b: Option<nat>)
      requires Valid() && c in calls && calls[c].Started? && Fair(sched, c)
      modifies this
      ensures Valid() && old(trace) <= trace && c in calls
      ensures var token := old(calls)[c].token;
              if b.Some? then calls[c] == Done(token, b) && token in bots && bots[token] == b.value
              else calls[c] == Slow(token)
    {
      Yield(c, sched);
      b := FastLookup(c);
    }

    method SlowPath(c: nat, sched: State -> seq<Step>) returns (b: Option<nat>)
      requires Valid() && c in calls && calls[c].Slow? && Fair(sched, c)
      modifies this
      ensures Valid() && old(trace) <= trace && c in calls
      ensures var token := old(calls)[c].token;
              if b.Some? then calls[c] == Done(token, b) && token in bots && bots[token] == b.value
              else calls[c].Waiting? && calls[c].token == token
    {
      Yield(c, sched);
      b := LookupOrReserve(c);
    }

    /** Waits for the token's mutex, looks again and builds. */
    method UnderMutex(c: nat, buildSucceeds: bool, sched: State -> seq<Step>) returns (b: Option<nat>)
      requires Valid() && c in calls && calls[c].Waiting? && Fair(sched, c)
      modifies this
      ensures Valid() && old(trace) <= trace
      ensures c in calls && calls[c] == Leaving(old(calls)[c].token, old(calls)[c].mu, b)
      ensures b.None? ==> !buildSucceeds && BuildFails(c) in trace
    {
      Yield(c, sched);
      TakeMutex(c);
      Yield(c, sched);
      b := LookAgain(c);
      if b.None? {
        b := BuildAndPublish(c, buildSucceeds, sched);
      }
    }

    method BuildAndPublish(c: nat, buildSucceeds: bool, sched: State -> seq<Step>) returns (b: Option<nat>)
      requires Valid() && c in calls && calls[c].Building? && Fair(sched, c)
      modifies this
      ensures Valid() && old(trace) <= trace
      ensures c in calls && calls[c] == Leaving(old(calls)[c].token, old(calls)[c].mu, b)
      ensures b.None? ==> !buildSucceeds && BuildFails(c) in trace
    {
      Yield(c, sched);
      b := Build(c, buildSucceeds);
      if b.Some? {
        Yield(c, sched);
        PublishBot(c);
      }
    }

    method Leave(c: nat, sched: State -> seq<Step>)
      requires Valid() && c in calls && calls[c].Leaving? && Fair(sched, c)
      modifies this
      ensures Valid() && old(trace) <= trace
      ensures c in calls && calls[c] == Done(old(calls)[c].token, old(calls)[c].result)
      ensures calls[c].result.Some? ==>
                calls[c].token in bots && bots[calls[c].token] == calls[c].result.value
    {
      Yield(c, sched);
      ReleaseMutex(c);
      Settled(c);
    }

    method Yield(c: nat, sched: State -> seq<Step>)
      requires Valid() && c in calls && Fair(sched, c)
      modifies this
      ensures Valid() && old(trace) <= trace
      ensures c in calls && calls[c] == old(calls)[c]
      ensures calls[c].Waiting? ==> Free(Now(), calls[c].mu)
    {
      Reached();
      var steps := sched(State(Registry(bots, init), calls, mutexes, built));
      ghost var s := Now();
      ghost var s' :| Yields(s, steps, c, s') && (s.calls[c].Waiting? ==> Free(s', s.calls[c].mu));
      YieldsPossible(s, steps, c, s');
      Others(c, steps);
      RunsSame(s, steps, s', Now());
    }
  }

  /** A run of other calls only. */
  ghost predicate Yields(s: State, steps: seq<Step>, c: nat, s': State) {
    Runs(s, steps, s') && forall k :: 0 <= k < |steps| ==> steps[k].c != c
  }

  ghost predicate Possible(s: State, steps: seq<Step>, c: nat)
    decreases |steps|
  {
    steps != [] ==> steps[0].c != c && Enabled(s, steps[0]) && Possible(Next(s, steps[0]), steps[1..], c)
  }

  ghost predicate Fair(sched: State -> seq<Step>, c: nat) {
    forall s: State :: Inv(s) && c in s.calls ==>
      exists s': State :: Yields(s, sched(s), c, s') && (s.calls[c].Waiting? ==> Free(s', s.calls[c].mu))
  }

  lemma {:induction false} YieldsPossible(s: State, steps: seq<Step>, c: nat, s': State)
    requires Yields(s, steps, c, s')
    ensures Possible(s, steps, c)
    decreases |steps|
  {
    if steps != [] {
      YieldsPossible(Next(s, steps[0]), steps[1..], c, s');
    }
  }

  lemma {:induction false} RunsSame(s: State, steps: seq<Step>, a: State, b: State)
    requires Runs(s, steps, a) && Runs(s, steps, b)
    ensures a == b
    decreases |steps|
  {
    if steps != [] {
      RunsSame(Next(s, steps[0]), steps[1..], a, b);
    }
  }

  // ---- fair schedules exist ----

  /** What call h does until it has unlocked its mutex, its build failing if it makes one. */
  function Finishing(s: State, h: nat): seq<Step>
    requires h in s.calls && Holds(s.calls[h])
  {
    var call := s.calls[h];
    if call.Leaving? then [Unlock(h)]
    else if call.Built? then [Publish(h), Unlock(h)]
    else if call.Building? then [BuildFails(h), Unlock(h)]
    else if Found(s.reg, call.token).Some? then [Recheck(h), Unlock(h)]
    else [Recheck(h), BuildFails(h), Unlock(h)]
  }

  ghost predicate Blocked(s: State, c: nat) {
    c in s.calls && s.calls[c].Waiting? && !Free(s, s.calls[c].mu)
  }

  /** Let the holder finish that c waits for. */
  ghost function LetFinish(s: State, c: nat): (steps: seq<Step>)
    ensures !Blocked(s, c) ==> steps == []
    ensures Blocked(s, c) ==>
              exists h :: h in s.calls && Holds(s.calls[h]) && s.calls[h].mu == s.calls[c].mu
                          && steps == Finishing(s, h)
  {
    if Blocked(s, c) then
      var h :| h in s.calls && Holds(s.calls[h]) && s.calls[h].mu == s.calls[c].mu;
      Finishing(s, h)
    else []
  }

  lemma FinishingFrees(s: State, h: nat, steps: seq<Step>, c: nat) returns (s': State)
    requires Inv(s) && h in s.calls && Holds(s.calls[h]) && h != c && steps == Finishing(s, h)
    ensures Yields(s, steps, c, s') && Free(s', s.calls[h].mu)
    decreases |steps|
  {
    var m := Next(s, steps[0]);
    InvStep(s, steps[0], m);
    if |steps| == 1 {
      s' := m;
      assert steps[1..] == [];
    } else {
      assert steps[1..] == Finishing(m, h);
      s' := FinishingFrees(m, h, steps[1..], c);
    }
  }

  /** Get's demand on its schedule can always be met. */
  lemma FairScheduleExists(c: nat)
    ensures exists sched: State -> seq<Step> :: Fair(sched, c)
  {
    var sched: State -> seq<Step> := s => LetFinish(s, c);
    forall s: State | Inv(s) && c in s.calls
      ensures exists s': State :: Yields(s, sched(s), c, s') && (s.calls[c].Waiting? ==> Free(s', s.calls[c].mu))
    {
      if Blocked(s, c) {
        var h :| h in s.calls && Holds(s.calls[h]) && s.calls[h].mu == s.calls[c].mu && sched(s) == Finishing(s, h);
        var s' := FinishingFrees(s, h, sched(s), c);
      } else {
        assert Yields(s, sched(s), c, s);
      }
    }
    assert Fair(sched, c);
  }
}
