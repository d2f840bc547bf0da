/** One deliverer working off a backlog against an endpoint that answers as it likes: how many
    POSTs, sleeps and rounds that takes at most, and that it comes to an end. */
module PipelineDrain {
  import opened BufferSpec
  import opened Pipeline
  import opened PipelineDelivery
  import opened PipelinePolling

  // ---- counting d's events ----

  /** What is counted: POSTs, sleeps begun, their seconds, and rounds with a snapshot. */
  datatype Kind = Tries | Sleeps | Seconds | Rounds

  function Weight(e: Event, d: nat, k: Kind): nat {
    if (e.Posted? || e.Failed?) && e.d == d && k.Tries? then 1
    else if e.Slept? && e.d == d && k.Sleeps? then 1
    else if e.Slept? && e.d == d && k.Seconds? then e.secs
    else if e.RoundBegan? && e.d == d && k.Rounds? then 1
    else 0
  }

  function Total(trace: seq<Event>, d: nat, k: Kind): nat {
    if trace == [] then 0
    else Total(trace[..|trace| - 1], d, k) + Weight(trace[|trace| - 1], d, k)
  }

  lemma TotalLast(trace: seq<Event>, e: Event, d: nat, k: Kind)
    ensures Total(trace + [e], d, k) == Total(trace, d, k) + Weight(e, d, k)
  {
    assert (trace + [e])[..|trace|] == trace;
  }

  lemma TotalPair(trace: seq<Event>, e: Event, f: Event, d: nat, k: Kind)
    ensures Total(trace + [e, f], d, k) == Total(trace, d, k) + Weight(e, d, k) + Weight(f, d, k)
  {
    assert trace + [e, f] == (trace + [e]) + [f];
    TotalLast(trace, e, d, k);
    TotalLast(trace + [e], f, d, k);
  }

  // ---- d alone ----

  predicate AloneStep(st: Step, d: nat) {
    st == Look(d) || st == Take(d) || st == Listen(d) || st == Pass(d)
    || (st.Judge? && st.d == d) || st == Close(d) || st == Wake(d, true)
  }

  ghost predicate AloneRuns(s: State, steps: seq<Step>, s': State, d: nat) {
    Runs(s, steps, s') && forall k :: 0 <= k < |steps| ==> AloneStep(steps[k], d)
  }

  /** d runs undisturbed: nobody else holds the lock, its snapshot is the buffer's front, and
      only the first unresolved update can have a counter. */
  ghost predicate Alone(s: State, d: nat) {
    && Shape(s) && d in s.dels && !s.dels[d].stopped && !s.dels[d].phase.Returned?
    && (s.lock.Free? || s.lock == Delivering(d))
    && (s.dels[d].phase.Round? ==> s.dels[d].phase.snap[0].id == Lo(s))
    && (forall id :: id in s.dels[d].attempts ==>
          1 <= s.dels[d].attempts[id] < MAX_ATTEMPTS && id <= HeadOf(s, d) && id < NextID(s))
  }

  /** Updates not resolved yet, and the failed attempts at the first of them. */
  function Rest(s: State, d: nat): int { NextID(s) - FrontierOf(s, d) }

  function Tried(s: State, d: nat): nat
    requires d in s.dels
  {
    Attempts(s.dels[d], FrontierOf(s, d))
  }

  predicate IsBroke(s: State, d: nat)
    requires d in s.dels
  {
    s.dels[d].phase.Round? && s.dels[d].phase.stage.Broke?
  }

  /** Updates beyond the running round's snapshot. */
  function Beyond(s: State, d: nat): int
    requires d in s.dels
  {
    var ph := s.dels[d].phase;
    if ph.Round? && ph.snap != [] && !ph.stage.Broke? then NextID(s) - (ph.snap[0].id + |ph.snap|)
    else Rest(s, d)
  }

  function PhaseRank(ph: Phase): nat {
    if ph.Round? then
      if ph.stage.Broke? then 9 else if ph.stage.Post? then 3 else if ph.i == |ph.snap| then 8 else 4
    else if ph.Listening? then 5
    else if ph.Wanting? then 6
    else if ph.Top? then 7
    else if ph.Sleeping? then 8
    else 0
  }

  function Rank(s: State, d: nat): int
    requires d in s.dels
  {
    10 * (8 * Rest(s, d) - Tried(s, d)) + PhaseRank(s.dels[d].phase)
  }

  /** What every step of d does to the quantities above. */
  ghost predicate Progress(s: State, s': State, d: nat)
    requires d in s.dels && d in s'.dels
  {
    && FrontierOf(s, d) <= FrontierOf(s', d) && NextID(s') == NextID(s)
    && Total(s'.trace, d, Tries) + 8 * Rest(s', d) - Tried(s', d) <= Total(s.trace, d, Tries) + 8 * Rest(s, d) - Tried(s, d)
    && Total(s'.trace, d, Sleeps) + (if IsBroke(s', d) then 1 else 0) + 7 * Rest(s', d) - Tried(s', d)
       <= Total(s.trace, d, Sleeps) + (if IsBroke(s, d) then 1 else 0) + 7 * Rest(s, d) - Tried(s, d)
    && Total(s'.trace, d, Rounds) + 7 * Rest(s', d) - Tried(s', d) + Batches(Beyond(s', d), BATCH)
       <= Total(s.trace, d, Rounds) + 7 * Rest(s, d) - Tried(s, d) + Batches(Beyond(s, d), BATCH)
  }

  lemma AloneBounds(s: State, d: nat)
    requires Alone(s, d)
    ensures 0 <= Beyond(s, d) <= Rest(s, d)
    ensures Tried(s, d) <= 7 && (Rest(s, d) == 0 ==> Tried(s, d) == 0)
  {
    assert RoundShape(s.history, Lo(s), s.dels[d].phase);
  }

  lemma {:induction false} BatchesMono(m: int, n: int)
    requires m <= n
    ensures Batches(m, BATCH) <= Batches(n, BATCH)
    decreases n
  {
    if m > 0 {
      BatchesMono(m - BATCH, n - BATCH);
    }
  }

  /** A step that leaves the first unresolved update and its counter alone. */
  lemma ProgressStill(s: State, s': State, d: nat)
    requires d in s.dels && d in s'.dels && NextID(s') == NextID(s)
    requires FrontierOf(s', d) == FrontierOf(s, d) && Tried(s', d) == Tried(s, d)
    requires Total(s'.trace, d, Tries) == Total(s.trace, d, Tries)
    requires Total(s'.trace, d, Sleeps) + (if IsBroke(s', d) then 1 else 0)
             == Total(s.trace, d, Sleeps) + if IsBroke(s, d) then 1 else 0
    requires Total(s'.trace, d, Rounds) + Batches(Beyond(s', d), BATCH)
             == Total(s.trace, d, Rounds) + Batches(Beyond(s, d), BATCH)
    ensures Progress(s, s', d)
    ensures PhaseRank(s'.dels[d].phase) < PhaseRank(s.dels[d].phase) ==> Rank(s', d) < Rank(s, d)
  {
  }

  /** A step that adds a failure to the first unresolved update, or resolves it. */
  lemma ProgressJudged(s: State, s': State, d: nat)
    requires d in s.dels && d in s'.dels && NextID(s') == NextID(s) && Tried(s, d) <= 7
    requires !IsBroke(s, d) && PhaseRank(s.dels[d].phase) == 3
    requires Total(s'.trace, d, Tries) <= Total(s.trace, d, Tries) + 1
    requires Total(s'.trace, d, Sleeps) == Total(s.trace, d, Sleeps)
    requires Total(s'.trace, d, Rounds) == Total(s.trace, d, Rounds)
    requires if IsBroke(s', d) then
               && FrontierOf(s', d) == FrontierOf(s, d) && Tried(s', d) == Tried(s, d) + 1
               && Batches(Beyond(s', d), BATCH) <= Batches(Beyond(s, d), BATCH) + 1
             else
               && FrontierOf(s', d) == FrontierOf(s, d) + 1 && Tried(s', d) == 0
               && Beyond(s', d) == Beyond(s, d)
    ensures Progress(s, s', d) && Rank(s', d) < Rank(s, d)
  {
  }

  /** Alone is kept by a step of d that keeps the counters and the frontier. */
  lemma AloneKept(s: State, s': State, d: nat)
    requires Alone(s, d) && Shape(s') && d in s'.dels && NextID(s') == NextID(s)
    requires !s'.dels[d].stopped && !s'.dels[d].phase.Returned?
    requires s'.lock.Free? || s'.lock == Delivering(d)
    requires s'.dels[d].phase.Round? ==> s'.dels[d].phase.snap[0].id == Lo(s')
    requires s'.dels[d].attempts == s.dels[d].attempts
    requires FrontierOf(s', d) == FrontierOf(s, d) && HeadOf(s, d) <= HeadOf(s', d)
    ensures Alone(s', d) && Tried(s', d) == Tried(s, d) && Rest(s', d) == Rest(s, d)
  {
    forall id | id in s'.dels[d].attempts
      ensures 1 <= s'.dels[d].attempts[id] < MAX_ATTEMPTS && id <= HeadOf(s', d) && id < NextID(s')
    {
      assert id in s.dels[d].attempts;
    }
  }

  lemma AloneListenKeeps(s: State, d: nat, s': State)
    requires Alone(s, d) && Enabled(s, Listen(d)) && s' == Next(s, Listen(d))
    ensures && Alone(s', d) && FrontierOf(s', d) == FrontierOf(s, d) && Tried(s', d) == Tried(s, d)
            && NextID(s') == NextID(s) && s'.dels[d].backoff == s.dels[d].backoff && !IsBroke(s', d)
            && (if s.items == [] then s'.trace == s.trace && s'.dels[d].phase == Top
                else s'.trace == s.trace + [RoundBegan(d)] && PhaseRank(s'.dels[d].phase) == 4)
            && Beyond(s', d) == Max(0, Beyond(s, d) - BATCH)
            && Beyond(s, d) == |s.items|
  {
    ShapeListen(s, d);
    SnapshotIs(s.items, s.history, Lo(s), 0, BATCH);
    AloneKept(s, s', d);
  }

  lemma ListenProgress(s: State, s': State, d: nat)
    requires d in s.dels && d in s'.dels && NextID(s') == NextID(s)
    requires FrontierOf(s', d) == FrontierOf(s, d) && Tried(s', d) == Tried(s, d)
    requires !IsBroke(s, d) && !IsBroke(s', d) && Beyond(s, d) >= 0
    requires Beyond(s', d) == Max(0, Beyond(s, d) - BATCH)
    requires s'.trace == if Beyond(s, d) == 0 then s.trace else s.trace + [RoundBegan(d)]
    ensures Progress(s, s', d)
    ensures PhaseRank(s'.dels[d].phase) < PhaseRank(s.dels[d].phase) ==> Rank(s', d) < Rank(s, d)
  {
    var n := Beyond(s, d);
    assert Batches(Max(0, n - BATCH), BATCH) == Batches(n - BATCH, BATCH);
    if n > 0 {
      TotalLast(s.trace, RoundBegan(d), d, Tries);
      TotalLast(s.trace, RoundBegan(d), d, Sleeps);
      TotalLast(s.trace, RoundBegan(d), d, Rounds);
    }
    ProgressStill(s, s', d);
  }

  lemma AloneListen(s: State, d: nat, s': State)
    requires Alone(s, d) && Enabled(s, Listen(d)) && s' == Next(s, Listen(d))
    ensures Alone(s', d) && Progress(s, s', d)
    ensures s.items != [] ==> Rank(s', d) < Rank(s, d)
  {
    AloneListenKeeps(s, d, s');
    ListenProgress(s, s', d);
  }

  lemma AloneCloseKeeps(s: State, d: nat, s': State)
    requires Alone(s, d) && Enabled(s, Close(d)) && s' == Next(s, Close(d))
    ensures && Alone(s', d) && FrontierOf(s', d) == FrontierOf(s, d) && Tried(s', d) == Tried(s, d)
            && NextID(s') == NextID(s) && s'.dels[d].backoff == s.dels[d].backoff && !IsBroke(s', d)
            && (if IsBroke(s, d) then s'.trace == s.trace + [Slept(d, s.dels[d].backoff)] && s'.dels[d].phase == Sleeping
                else s'.trace == s.trace && s'.dels[d].phase == Top && PhaseRank(s.dels[d].phase) == 8)
            && Beyond(s', d) == Beyond(s, d)
  {
    assert RoundShape(s.history, Lo(s), s.dels[d].phase);
    ShapeRelease(s, Close(d));
    AloneKept(s, s', d);
  }

  lemma CloseProgress(s: State, s': State, d: nat)
    requires d in s.dels && d in s'.dels && NextID(s') == NextID(s)
    requires FrontierOf(s', d) == FrontierOf(s, d) && Tried(s', d) == Tried(s, d)
    requires !IsBroke(s', d) && Beyond(s', d) == Beyond(s, d)
    requires s'.trace == if IsBroke(s, d) then s.trace + [Slept(d, s.dels[d].backoff)] else s.trace
    requires PhaseRank(s'.dels[d].phase) < PhaseRank(s.dels[d].phase)
    ensures Progress(s, s', d) && Rank(s', d) < Rank(s, d)
  {
    if IsBroke(s, d) {
      var e := Slept(d, s.dels[d].backoff);
      TotalLast(s.trace, e, d, Tries);
      TotalLast(s.trace, e, d, Sleeps);
      TotalLast(s.trace, e, d, Rounds);
    }
    ProgressStill(s, s', d);
  }

  lemma AloneClose(s: State, d: nat, s': State)
    requires Alone(s, d) && Enabled(s, Close(d)) && s' == Next(s, Close(d))
    ensures Alone(s', d) && Progress(s, s', d) && Rank(s', d) < Rank(s, d)
  {
    AloneCloseKeeps(s, d, s');
    CloseProgress(s, s', d);
  }

  /** What judging the first unresolved update does to it. */
  lemma AloneJudge(s: State, d: nat, v: Verdict, s': State)
    requires Alone(s, d) && Enabled(s, Judge(d, v)) && s' == Next(s, Judge(d, v))
    ensures Alone(s', d) && NextID(s') == NextID(s) && Rest(s, d) >= 1
    ensures if v.Rejected? && Tried(s, d) < 7 then
              FrontierOf(s', d) == FrontierOf(s, d) && Tried(s', d) == Tried(s, d) + 1 && IsBroke(s', d)
            else
              FrontierOf(s', d) == FrontierOf(s, d) + 1 && Tried(s', d) == 0 && !IsBroke(s', d)
    ensures if IsBroke(s', d) then Beyond(s', d) == Rest(s, d) <= Beyond(s, d) + BATCH
            else Beyond(s', d) == Beyond(s, d)
    ensures !IsBroke(s, d) && PhaseRank(s.dels[d].phase) == 3
    ensures IsBroke(s', d) ==> s'.dels[d].backoff == s.dels[d].backoff
  {
    assert RoundShape(s.history, Lo(s), s.dels[d].phase);
    ShapeJudge(s, d, v);
  }

  lemma JudgeTotal(s: State, d: nat, v: Verdict, s': State, k: Kind)
    requires 1 <= s.cap && Enabled(s, Judge(d, v)) && s' == Next(s, Judge(d, v))
    ensures Total(s'.trace, d, k) == Total(s.trace, d, k) + if k.Tries? && !v.Untranslatable? then 1 else 0
  {
    assert s'.trace == s.trace + JudgeEvents(d, s.dels[d], v);
    EventsTotal(s.trace, d, s.dels[d], v, k);
  }

  lemma EventsTotal(trace: seq<Event>, d: nat, x: Deliverer, v: Verdict, k: Kind)
    requires x.phase.Round? && x.phase.i < |x.phase.snap|
    ensures Total(trace + JudgeEvents(d, x, v), d, k)
            == Total(trace, d, k) + if k.Tries? && !v.Untranslatable? then 1 else 0
  {
    var id, more := x.phase.snap[x.phase.i].id, JudgeEvents(d, x, v);
    if v.Untranslatable? {
      assert more == [Skipped(id)];
      TotalLast(trace, Skipped(id), d, k);
    } else if v.Accepted? {
      assert more == [Posted(d, id)];
      TotalLast(trace, Posted(d, id), d, k);
    } else if LastChance(x) {
      TotalPair(trace, Failed(d, id), Abandoned(d, id), d, k);
    } else {
      TotalLast(trace, Failed(d, id), d, k);
    }
  }

  lemma BeyondAfterJudge(s: State, s': State, d: nat)
    requires d in s.dels && d in s'.dels
    requires IsBroke(s', d) ==> Beyond(s', d) <= Beyond(s, d) + BATCH
    requires 0 <= Beyond(s, d)
    ensures IsBroke(s', d) ==> Batches(Beyond(s', d), BATCH) <= Batches(Beyond(s, d), BATCH) + 1
  {
    if IsBroke(s', d) {
      BatchesMono(Beyond(s', d), Beyond(s, d) + BATCH);
    }
  }

  lemma AloneJudgeProgress(s: State, d: nat, v: Verdict, s': State)
    requires Alone(s, d) && Enabled(s, Judge(d, v)) && s' == Next(s, Judge(d, v))
    ensures Alone(s', d) && Progress(s, s', d) && Rank(s', d) < Rank(s, d)
  {
    AloneJudge(s, d, v, s');
    JudgeTotal(s, d, v, s', Tries);
    JudgeTotal(s, d, v, s', Sleeps);
    JudgeTotal(s, d, v, s', Rounds);
    AloneBounds(s, d);
    BeyondAfterJudge(s, s', d);
    ProgressJudged(s, s', d);
  }

  /** The steps that only move d from one waiting point to the next. */
  lemma AloneMove(s: State, st: Step, d: nat, s': State)
    requires Alone(s, d) && Enabled(s, st) && s' == Next(s, st)
    requires st == Look(d) || st == Take(d) || st == Pass(d) || st == Wake(d, true)
    ensures Alone(s', d) && FrontierOf(s', d) == FrontierOf(s, d) && Tried(s', d) == Tried(s, d)
    ensures NextID(s') == NextID(s) && s'.trace == s.trace && Beyond(s', d) == Beyond(s, d)
    ensures !IsBroke(s, d) && !IsBroke(s', d) && !s'.dels[d].phase.Sleeping?
    ensures s'.dels[d].backoff == if st.Wake? then NextBackoff(s.dels[d].backoff) else s.dels[d].backoff
    ensures s.dels[d].phase.Sleeping? <==> st.Wake?
    ensures PhaseRank(s'.dels[d].phase) < PhaseRank(s.dels[d].phase)
  {
    assert RoundShape(s.history, Lo(s), s.dels[d].phase);
    ShapeDeliverer(s, st);
    AloneKept(s, s', d);
  }

  lemma AloneOne(s: State, st: Step, d: nat, s': State)
    requires Alone(s, d) && Enabled(s, st) && AloneStep(st, d) && s' == Next(s, st)
    ensures Alone(s', d) && Progress(s, s', d)
    ensures (st.Listen? && s.items == []) || Rank(s', d) < Rank(s, d)
  {
    if st.Listen? {
      AloneListen(s, d, s');
    } else if st.Close? {
      AloneClose(s, d, s');
    } else if st.Judge? {
      AloneJudgeProgress(s, d, st.v, s');
    } else {
      AloneMove(s, st, d, s');
      ProgressStill(s, s', d);
    }
  }

  lemma {:induction false} AloneMany(s: State, steps: seq<Step>, s': State, d: nat)
    requires Alone(s, d) && AloneRuns(s, steps, s', d)
    ensures Alone(s', d) && Progress(s, s', d)
    decreases |steps|
  {
    if steps != [] {
      assert AloneStep(steps[0], d);
      AloneOne(s, steps[0], d, Next(s, steps[0]));
      assert forall k :: 0 <= k < |steps[1..]| ==> steps[1..][k] == steps[k + 1];
      AloneMany(Next(s, steps[0]), steps[1..], s', d);
    }
  }

  /** A deliverer at its loop head in a reachable state with the lock free is alone. */
  lemma AloneFrom(s0: State, before: seq<Step>, s: State, d: nat)
    requires Initial(s0) && Runs(s0, before, s)
    requires d in s.dels && s.dels[d].phase.Top? && !s.dels[d].stopped && s.lock.Free?
    ensures Alone(s, d)
  {
    CountedRun(s0, before, s);
    forall id | id in s.dels[d].attempts
      ensures 1 <= s.dels[d].attempts[id] < MAX_ATTEMPTS && id <= HeadOf(s, d) && id < NextID(s)
    {
      assert CounterOf(s, d, id);
    }
  }

  /** Drain bounds. With n updates pending, no pushes and no stop, whatever the endpoint and
      the translator answer, one deliverer makes at most 8n POSTs, goes to sleep at most 7n
      times, and takes at most 7n + ceil(n / 100) rounds. */
  lemma DrainBounds(s0: State, before: seq<Step>, s: State, steps: seq<Step>, s': State, d: nat)
    requires Initial(s0) && Runs(s0, before, s)
    requires d in s.dels && s.dels[d].phase.Top? && !s.dels[d].stopped && s.lock.Free?
    requires AloneRuns(s, steps, s', d)
    ensures Total(s'.trace, d, Tries) - Total(s.trace, d, Tries) <= 8 * |s.items|
    ensures Total(s'.trace, d, Sleeps) - Total(s.trace, d, Sleeps) <= 7 * |s.items|
    ensures Total(s'.trace, d, Rounds) - Total(s.trace, d, Rounds) <= 7 * |s.items| + Batches(|s.items|, 100)
  {
    AloneFrom(s0, before, s, d);
    AloneMany(s, steps, s', d);
    FromTheTop(s, d);
    SpentSoFar(s, s', d);
  }

  /** At the loop head everything buffered is still to be done. */
  lemma FromTheTop(s: State, d: nat)
    requires Alone(s, d) && s.dels[d].phase.Top?
    ensures Rest(s, d) == |s.items| && Beyond(s, d) == |s.items| && !IsBroke(s, d)
  {
  }

  /** What progress leaves of the bounds, whatever has been tried at the end. */
  lemma SpentSoFar(s: State, s': State, d: nat)
    requires Alone(s, d) && Alone(s', d) && Progress(s, s', d) && !IsBroke(s, d)
    ensures Total(s'.trace, d, Tries) - Total(s.trace, d, Tries) <= 8 * Rest(s, d)
    ensures Total(s'.trace, d, Sleeps) - Total(s.trace, d, Sleeps) <= 7 * Rest(s, d)
    ensures Total(s'.trace, d, Rounds) - Total(s.trace, d, Rounds) <= 7 * Rest(s, d) + Batches(Beyond(s, d), BATCH)
  {
    AloneBounds(s', d);
  }

  /** As long as the buffer is never seen empty the rank goes down. */
  lemma {:induction false} RankFalls(s: State, steps: seq<Step>, s': State, d: nat)
    requires Alone(s, d) && AloneRuns(s, steps, s', d)
    requires forall k, m :: 0 <= k < |steps| && Runs(s, steps[..k], m) ==> m.items != []
    ensures Alone(s', d) && Rank(s', d) + |steps| <= Rank(s, d)
    decreases |steps|
  {
    if steps != [] {
      var m := Next(s, steps[0]);
      assert AloneStep(steps[0], d);
      assert Runs(s, steps[..0], s);
      AloneOne(s, steps[0], d, Next(s, steps[0]));
      assert forall k :: 0 <= k < |steps[1..]| ==> steps[1..][k] == steps[k + 1];
      forall k, x | 0 <= k < |steps[1..]| && Runs(m, steps[1..][..k], x) ensures x.items != [] {
        assert steps[..k + 1][1..] == steps[1..][..k];
        assert Runs(s, steps[..k + 1], x);
      }
      RankFalls(m, steps[1..], s', d);
    }
  }

  /** Termination. A deliverer left alone with n pending updates has emptied the buffer after
      at most 80n + 8 of its steps. */
  lemma DrainEnds(s0: State, before: seq<Step>, s: State, steps: seq<Step>, s': State, d: nat)
    requires Initial(s0) && Runs(s0, before, s)
    requires d in s.dels && s.dels[d].phase.Top? && !s.dels[d].stopped && s.lock.Free?
    requires AloneRuns(s, steps, s', d) && |steps| >= 80 * |s.items| + 8
    ensures exists k, m :: 0 <= k < |steps| && Runs(s, steps[..k], m) && m.items == []
  {
    AloneFrom(s0, before, s, d);
    if forall k, m :: 0 <= k < |steps| && Runs(s, steps[..k], m) ==> m.items != [] {
      RankFalls(s, steps, s', d);
      AloneBounds(s', d);
    }
  }

  /** And it is never stuck: one of its steps is always possible. */
  lemma NeverStuck(s: State, d: nat)
    requires Alone(s, d)
    ensures exists st :: AloneStep(st, d) && Enabled(s, st)
  {
    var x := s.dels[d];
    assert RoundShape(s.history, Lo(s), x.phase);
    assert HoldsLock(x) <==> s.lock == Delivering(d);
    var st := match x.phase
      case Top => Look(d)
      case Wanting => Take(d)
      case Listening => Listen(d)
      case Round(snap, i, _, stage) =>
        if LoopLeft(s, d) then Close(d) else if stage.Post? then Judge(d, Rejected) else Pass(d)
      case _ => Wake(d, true);
    assert AloneStep(st, d) && Enabled(s, st);
  }
}
