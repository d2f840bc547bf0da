/** What an update costs a deliverer that cannot deliver it, in every run: whatever is pushed,
    cleared, polled or delivered by others while the deliverer sleeps. */
module PipelineCost {
  import opened BufferSpec
  import opened Pipeline
  import opened PipelineDelivery
  import opened PipelineDrain

  /** The sum of n back-offs in a row, the first of them after k earlier ones. */
  function Spent(k: nat, n: nat): nat { if n == 0 then 0 else Spent(k, n - 1) + Closed(k + n - 1) }

  /** The i-th event is d's first failure with this update, k failed rounds after its last success. */
  predicate FirstFailure(trace: seq<Event>, d: nat, id: int, i: nat, k: nat) {
    && i < |trace| && trace[i] == Failed(d, id) && Failed(d, id) !in trace[..i]
    && Naps(trace[..i], d) == k
  }

  function SecondsUpTo(trace: seq<Event>, i: nat, d: nat): nat
    requires i <= |trace|
  {
    Total(trace[..i], d, Seconds)
  }

  /** n failures, one sleep for each, the last one still to come while the failed round is open. */
  ghost predicate OneSleepEach(n: int, broke: bool, naps: int, secs: int, k: nat) {
    var slept: int := if broke then n - 1 else n;
    1 <= n <= 7 && naps == k + slept && secs == Spent(k, slept)
  }

  /** d is at work on the update: since its first failure d has slept once per failure. */
  ghost predicate AtWork(s: State, d: nat, id: int, k: nat, secs0: nat)
    requires d in s.dels
  {
    OneSleepEach(Attempts(s.dels[d], id), IsBroke(s, d), Naps(s.trace, d), Total(s.trace, d, Seconds) - secs0, k)
  }

  /** The update has been abandoned at the price of seven sleeps, if it has been abandoned. */
  ghost predicate PricePaid(trace: seq<Event>, d: nat, id: int, i: nat, k: nat)
    requires i <= |trace|
  {
    forall j :: i < j < |trace| && trace[j] == Abandoned(d, id) ==>
      SecondsUpTo(trace, j, d) == SecondsUpTo(trace, i, d) + Spent(k, 7)
  }

  ghost predicate Cost(s: State, d: nat, id: int, i: nat, k: nat) {
    FirstFailure(s.trace, d, id, i, k) ==>
      && d in s.dels
      && (FrontierOf(s, d) <= id ==> AtWork(s, d, id, k, SecondsUpTo(s.trace, i, d)))
      && PricePaid(s.trace, d, id, i, k)
  }

  // ---- events that cost nothing ----

  lemma {:induction false} TotalKeeps(trace: seq<Event>, more: seq<Event>, d: nat)
    requires forall k :: 0 <= k < |more| ==> !SleepsOf(more[k], d)
    ensures Total(trace + more, d, Seconds) == Total(trace, d, Seconds)
  {
    if more == [] {
      assert trace + more == trace;
    } else {
      var n := |more| - 1;
      TotalKeeps(trace, more[..n], d);
      TotalLast(trace + more[..n], more[n], d, Seconds);
      assert trace + more == (trace + more[..n]) + [more[n]];
    }
  }

  /** Events after position i leave what was said about it. */
  lemma PriceKeeps(trace: seq<Event>, more: seq<Event>, d: nat, id: int, i: nat, k: nat)
    requires i < |trace| && PricePaid(trace, d, id, i, k)
    requires forall j :: 0 <= j < |more| && more[j] == Abandoned(d, id) ==>
               SecondsUpTo(trace + more, |trace| + j, d) == SecondsUpTo(trace, i, d) + Spent(k, 7)
    ensures PricePaid(trace + more, d, id, i, k)
    ensures SecondsUpTo(trace + more, i, d) == SecondsUpTo(trace, i, d)
    ensures FirstFailure(trace + more, d, id, i, k) <==> FirstFailure(trace, d, id, i, k)
  {
    var t := trace + more;
    assert t[..i] == trace[..i] && t[i] == trace[i];
    forall j | i < j < |t| && t[j] == Abandoned(d, id)
      ensures SecondsUpTo(t, j, d) == SecondsUpTo(t, i, d) + Spent(k, 7)
    {
      if j < |trace| {
        assert t[..j] == trace[..j];
      } else {
        assert more[j - |trace|] == Abandoned(d, id);
      }
    }
  }

  /** Steps that are neither d's judging nor the end of d's round: d's sleeps, successes, counters
      and standing stay as they are. */
  lemma Bystander(s: State, st: Step, d: nat, s': State)
    requires Shape(s) && Enabled(s, st) && s' == Next(s, st) && d in s.dels
    requires !(st.Judge? && st.d == d) && !(st.Close? && st.d == d)
    ensures d in s'.dels && s'.dels[d].attempts == s.dels[d].attempts && IsBroke(s', d) == IsBroke(s, d)
    ensures FrontierOf(s, d) <= FrontierOf(s', d)
  {
    if st.Judge? {
      ShapeJudge(s, st.d, st.v);
    } else {
      CountersKeep(s, st, d);
      HeadMoves(s, st, d);
    }
  }

  lemma BystanderEvents(s: State, st: Step, d: nat, s': State, more: seq<Event>, j: nat)
    requires 1 <= s.cap && Enabled(s, st) && s' == Next(s, st) && s'.trace == s.trace + more && j < |more|
    requires !(st.Judge? && st.d == d) && !(st.Close? && st.d == d)
    ensures !SleepsOf(more[j], d) && !ResetsOf(more[j], d)
    ensures !(more[j].Failed? && more[j].d == d) && !(more[j].Abandoned? && more[j].d == d)
  {
    assert more[j] == s'.trace[|s.trace| + j];
    if !st.Judge? {
      TraceGrows(s, st);
    }
  }

  lemma CostBystander(s: State, st: Step, d: nat, id: int, i: nat, k: nat, s': State)
    requires Shape(s) && Enabled(s, st) && s' == Next(s, st) && Cost(s, d, id, i, k)
    requires !(st.Judge? && st.d == d) && !(st.Close? && st.d == d)
    ensures Cost(s', d, id, i, k)
  {
    TraceGrows(s, st);
    var more := s'.trace[|s.trace|..];
    assert s'.trace == s.trace + more;
    forall j | 0 <= j < |more|
      ensures !SleepsOf(more[j], d) && !ResetsOf(more[j], d)
      ensures more[j] != Failed(d, id) && more[j] != Abandoned(d, id)
    {
      BystanderEvents(s, st, d, s', more, j);
    }
    CostKept(s, d, id, i, k, s', more, st);
  }

  lemma CostKept(s: State, d: nat, id: int, i: nat, k: nat, s': State, more: seq<Event>, st: Step)
    requires Shape(s) && Enabled(s, st) && s' == Next(s, st) && Cost(s, d, id, i, k)
    requires !(st.Judge? && st.d == d) && !(st.Close? && st.d == d)
    requires s'.trace == s.trace + more
    requires forall j :: 0 <= j < |more| ==> !SleepsOf(more[j], d) && !ResetsOf(more[j], d)
    requires forall j :: 0 <= j < |more| ==> more[j] != Failed(d, id) && more[j] != Abandoned(d, id)
    ensures Cost(s', d, id, i, k)
  {
    if FirstFailure(s'.trace, d, id, i, k) {
      NothingNew(s.trace, more, d, id, i, k);
      Bystander(s, st, d, s');
    }
  }

  lemma NothingNew(trace: seq<Event>, more: seq<Event>, d: nat, id: int, i: nat, k: nat)
    requires FirstFailure(trace + more, d, id, i, k)
    requires forall j :: 0 <= j < |more| ==> !SleepsOf(more[j], d) && !ResetsOf(more[j], d)
    requires forall j :: 0 <= j < |more| ==> more[j] != Failed(d, id) && more[j] != Abandoned(d, id)
    ensures FirstFailure(trace, d, id, i, k)
    ensures PricePaid(trace, d, id, i, k) ==> PricePaid(trace + more, d, id, i, k)
    ensures SecondsUpTo(trace + more, i, d) == SecondsUpTo(trace, i, d)
    ensures Naps(trace + more, d) == Naps(trace, d) && Total(trace + more, d, Seconds) == Total(trace, d, Seconds)
  {
    var t := trace + more;
    assert t[..i] == trace[..i] && t[i] == trace[i];
    NapsKeep(trace, more, d);
    TotalKeeps(trace, more, d);
    if PricePaid(trace, d, id, i, k) {
      PriceKeeps(trace, more, d, id, i, k);
    }
  }

  // ---- the end of d's round ----

  lemma CloseState(s: State, d: nat, s': State)
    requires Shape(s) && BackedOff(s) && Enabled(s, Close(d)) && s' == Next(s, Close(d))
    ensures d in s.dels && d in s'.dels && s'.dels[d].attempts == s.dels[d].attempts && !IsBroke(s', d)
    ensures FrontierOf(s, d) <= FrontierOf(s', d)
    ensures s'.trace == if IsBroke(s, d) then s.trace + [Slept(d, Closed(Naps(s.trace, d)))] else s.trace
  {
    HeadMoves(s, Close(d), d);
    assert BackoffOf(s.trace, d, s.dels[d]);
  }

  lemma CostClose(s: State, d: nat, id: int, i: nat, k: nat, s': State)
    requires Shape(s) && BackedOff(s) && Enabled(s, Close(d)) && s' == Next(s, Close(d)) && Cost(s, d, id, i, k)
    ensures Cost(s', d, id, i, k)
  {
    CloseState(s, d, s');
    if IsBroke(s, d) && FirstFailure(s'.trace, d, id, i, k) {
      var secs := Closed(Naps(s.trace, d));
      SleptPrice(s.trace, secs, s'.trace, d, id, i, k);
      if FrontierOf(s', d) <= id {
        SleptEach(Attempts(s.dels[d], id), Naps(s.trace, d),
                  Total(s.trace, d, Seconds) - SecondsUpTo(s.trace, i, d), k);
      }
    }
  }

  /** The sleep that the open round owes. */
  lemma SleptEach(n: int, naps: int, secs: int, k: nat)
    requires OneSleepEach(n, true, naps, secs, k)
    ensures OneSleepEach(n, false, naps + 1, secs + Closed(naps), k)
  {
  }

  lemma SleptPrice(trace: seq<Event>, secs: nat, trace': seq<Event>, d: nat, id: int, i: nat, k: nat)
    requires trace' == trace + [Slept(d, secs)] && FirstFailure(trace', d, id, i, k)
    ensures FirstFailure(trace, d, id, i, k)
    ensures PricePaid(trace, d, id, i, k) ==> PricePaid(trace', d, id, i, k)
    ensures SecondsUpTo(trace', i, d) == SecondsUpTo(trace, i, d)
    ensures Naps(trace', d) == Naps(trace, d) + 1
    ensures Total(trace', d, Seconds) == Total(trace, d, Seconds) + secs
  {
    assert i < |trace|;
    assert trace'[..i] == trace[..i] && trace'[i] == trace[i];
    if PricePaid(trace, d, id, i, k) {
      PriceKeeps(trace, [Slept(d, secs)], d, id, i, k);
    }
    NapsLast(trace, Slept(d, secs), d);
    TotalLast(trace, Slept(d, secs), d, Seconds);
  }

  // ---- d judges an update ----

  /** An update that d is at work on is the one it judges. */
  lemma JudgedIsCounted(s: State, d: nat, v: Verdict, id: int)
    requires Shape(s) && Counted(s) && Enabled(s, Judge(d, v))
    requires FrontierOf(s, d) <= id && Attempts(s.dels[d], id) > 0
    ensures id == FrontierOf(s, d) == s.dels[d].phase.snap[s.dels[d].phase.i].id
  {
    assert CounterOf(s, d, id);
    assert RoundShape(s.history, Lo(s), s.dels[d].phase);
  }

  lemma CostJudge(s: State, d: nat, v: Verdict, id: int, i: nat, k: nat, s': State)
    requires Shape(s) && Counted(s) && Enabled(s, Judge(d, v)) && s' == Next(s, Judge(d, v)) && Cost(s, d, id, i, k)
    ensures Cost(s', d, id, i, k)
  {
    var more := JudgeEvents(d, s.dels[d], v);
    assert s'.trace == s.trace + more;
    if FirstFailure(s'.trace, d, id, i, k) {
      if i < |s.trace| {
        assert s'.trace[..i] == s.trace[..i] && s'.trace[i] == s.trace[i];
        CostJudgeOn(s, d, v, id, i, k, s', more);
      } else {
        CostJudgeFirst(s, d, v, id, i, k, s', more);
      }
    }
  }

  /** The first failure of the update: d has slept for nothing yet. */
  lemma CostJudgeFirst(s: State, d: nat, v: Verdict, id: int, i: nat, k: nat, s': State, more: seq<Event>)
    requires Shape(s) && Counted(s) && Enabled(s, Judge(d, v)) && s' == Next(s, Judge(d, v))
    requires more == JudgeEvents(d, s.dels[d], v) && s'.trace == s.trace + more
    requires i >= |s.trace| && FirstFailure(s'.trace, d, id, i, k)
    ensures AtWork(s', d, id, k, SecondsUpTo(s'.trace, i, d)) && PricePaid(s'.trace, d, id, i, k)
  {
    assert more[i - |s.trace|] == Failed(d, id);
    assert RoundShape(s.history, Lo(s), s.dels[d].phase);
    assert CounterOf(s, d, id);
    assert s'.trace[..i] == s.trace;
    assert Failed(d, id) !in s.trace;
    assert Fails(s.trace, d, id) == 0;
    assert more == [Failed(d, id)];
    NapsLast(s.trace, Failed(d, id), d);
    TotalLast(s.trace, Failed(d, id), d, Seconds);
  }

  /** A later verdict on it: one more failure, or the end of d's work on it. */
  lemma JudgeState(s: State, d: nat, v: Verdict, id: int, s': State)
    requires Shape(s) && Counted(s) && Enabled(s, Judge(d, v)) && s' == Next(s, Judge(d, v))
    requires FrontierOf(s, d) <= id && Attempts(s.dels[d], id) > 0
    ensures !IsBroke(s, d)
    ensures if v.Rejected? && Attempts(s.dels[d], id) < 7 then
              && IsBroke(s', d) && Attempts(s'.dels[d], id) == Attempts(s.dels[d], id) + 1
              && JudgeEvents(d, s.dels[d], v) == [Failed(d, id)]
            else FrontierOf(s', d) > id
  {
    JudgedIsCounted(s, d, v, id);
  }

  /** Only the eighth failure abandons. */
  lemma AbandonedLate(s: State, d: nat, v: Verdict, id: int, j: nat)
    requires Shape(s) && Counted(s) && Enabled(s, Judge(d, v))
    requires j < |JudgeEvents(d, s.dels[d], v)| && JudgeEvents(d, s.dels[d], v)[j] == Abandoned(d, id)
    ensures JudgeEvents(d, s.dels[d], v) == [Failed(d, id), Abandoned(d, id)] && j == 1
    ensures FrontierOf(s, d) == id && !IsBroke(s, d) && Attempts(s.dels[d], id) >= 7
  {
    assert RoundShape(s.history, Lo(s), s.dels[d].phase);
  }

  lemma CostJudgeOn(s: State, d: nat, v: Verdict, id: int, i: nat, k: nat, s': State, more: seq<Event>)
    requires Shape(s) && Counted(s) && Enabled(s, Judge(d, v)) && s' == Next(s, Judge(d, v)) && Cost(s, d, id, i, k)
    requires more == JudgeEvents(d, s.dels[d], v) && s'.trace == s.trace + more
    requires i < |s.trace| && FirstFailure(s.trace, d, id, i, k)
    ensures FrontierOf(s', d) <= id ==> AtWork(s', d, id, k, SecondsUpTo(s'.trace, i, d))
    ensures PricePaid(s'.trace, d, id, i, k)
  {
    PriceAfterJudge(s, d, v, id, i, k, more);
    JudgeMovesFrontier(s, d, v, s');
    if FrontierOf(s', d) <= id {
      WorkAfterJudge(s, d, v, id, k, SecondsUpTo(s.trace, i, d), s');
    }
  }

  lemma AbandonedPrice(s: State, d: nat, v: Verdict, id: int, i: nat, k: nat, more: seq<Event>, j: nat)
    requires Shape(s) && Counted(s) && Enabled(s, Judge(d, v)) && Cost(s, d, id, i, k)
    requires more == JudgeEvents(d, s.dels[d], v) && FirstFailure(s.trace, d, id, i, k)
    requires j < |more| && more[j] == Abandoned(d, id)
    ensures SecondsUpTo(s.trace + more, |s.trace| + j, d) == SecondsUpTo(s.trace, i, d) + Spent(k, 7)
  {
    AbandonedLate(s, d, v, id, j);
    UpToFailure(s.trace, d, id);
  }

  lemma UpToFailure(trace: seq<Event>, d: nat, id: int)
    ensures SecondsUpTo(trace + [Failed(d, id), Abandoned(d, id)], |trace| + 1, d) == Total(trace, d, Seconds)
  {
    FailureCostsNothing(trace, d, id);
    assert (trace + [Failed(d, id), Abandoned(d, id)])[..|trace| + 1] == trace + [Failed(d, id)];
  }

  lemma PriceAfterJudge(s: State, d: nat, v: Verdict, id: int, i: nat, k: nat, more: seq<Event>)
    requires Shape(s) && Counted(s) && Enabled(s, Judge(d, v)) && Cost(s, d, id, i, k)
    requires more == JudgeEvents(d, s.dels[d], v) && FirstFailure(s.trace, d, id, i, k)
    ensures PricePaid(s.trace + more, d, id, i, k)
    ensures SecondsUpTo(s.trace + more, i, d) == SecondsUpTo(s.trace, i, d)
  {
    forall j | 0 <= j < |more| && more[j] == Abandoned(d, id)
      ensures SecondsUpTo(s.trace + more, |s.trace| + j, d) == SecondsUpTo(s.trace, i, d) + Spent(k, 7)
    {
      AbandonedPrice(s, d, v, id, i, k, more, j);
    }
    PriceKeeps(s.trace, more, d, id, i, k);
  }

  lemma WorkAfterJudge(s: State, d: nat, v: Verdict, id: int, k: nat, secs0: nat, s': State)
    requires Shape(s) && Counted(s) && Enabled(s, Judge(d, v)) && s' == Next(s, Judge(d, v))
    requires FrontierOf(s, d) <= id && AtWork(s, d, id, k, secs0) && FrontierOf(s', d) <= id
    ensures AtWork(s', d, id, k, secs0)
  {
    JudgeState(s, d, v, id, s');
    assert s'.trace == s.trace + [Failed(d, id)];
    FailureCostsNothing(s.trace, d, id);
  }

  lemma JudgeMovesFrontier(s: State, d: nat, v: Verdict, s': State)
    requires Shape(s) && Enabled(s, Judge(d, v)) && s' == Next(s, Judge(d, v))
    ensures d in s'.dels && FrontierOf(s, d) <= FrontierOf(s', d)
  {
    assert RoundShape(s.history, Lo(s), s.dels[d].phase);
  }

  lemma FailureCostsNothing(trace: seq<Event>, d: nat, id: int)
    ensures Naps(trace + [Failed(d, id)], d) == Naps(trace, d)
    ensures Total(trace + [Failed(d, id)], d, Seconds) == Total(trace, d, Seconds)
  {
    NapsLast(trace, Failed(d, id), d);
    TotalLast(trace, Failed(d, id), d, Seconds);
  }

  // ---- whole runs ----

  lemma {:induction false} CostRun(s: State, steps: seq<Step>, s': State, d: nat, id: int, i: nat, k: nat)
    requires Shape(s) && Counted(s) && BackedOff(s) && Cost(s, d, id, i, k) && Runs(s, steps, s')
    ensures Cost(s', d, id, i, k)
    decreases |steps|
  {
    if steps != [] {
      var st, m := steps[0], Next(s, steps[0]);
      ShapeStep(s, st);
      CountedStep(s, st);
      BackedOffStep(s, st);
      if st.Judge? && st.d == d {
        CostJudge(s, d, st.v, id, i, k, m);
      } else if st.Close? && st.d == d {
        CostClose(s, d, id, i, k, m);
      } else {
        CostBystander(s, st, d, id, i, k, m);
      }
      CostRun(m, steps[1..], s', d, id, i, k);
    }
  }

  /** The price of an abandoned update. In every run, when a deliverer first fails with an update
      k failed rounds after its last success and abandons it later, it has slept seven times for
      it in between, for the k-th to the (k + 6)-th back-off, and not a second more. */
  lemma AbandonedCosts(s: State, steps: seq<Step>, s': State, d: nat, id: int, i: nat, j: nat, k: nat)
    requires Initial(s) && Runs(s, steps, s')
    requires FirstFailure(s'.trace, d, id, i, k) && i < j < |s'.trace| && s'.trace[j] == Abandoned(d, id)
    ensures SecondsUpTo(s'.trace, j, d) - SecondsUpTo(s'.trace, i, d) == Spent(k, 7)
  {
    CostRun(s, steps, s', d, id, i, k);
  }

  lemma SpentFromOneSecond()
    ensures Spent(0, 7) == 127
  {
    assert Pow2(6) == 64;
    assert Spent(0, 3) == 7;
    assert Spent(0, 5) == 31;
  }

  /** After a success, or at its start, a hopeless update costs exactly 127 seconds of sleep. */
  lemma HopelessUpdateCosts127(s: State, steps: seq<Step>, s': State, d: nat, id: int, i: nat, j: nat)
    requires Initial(s) && Runs(s, steps, s')
    requires FirstFailure(s'.trace, d, id, i, 0) && i < j < |s'.trace| && s'.trace[j] == Abandoned(d, id)
    ensures SecondsUpTo(s'.trace, j, d) - SecondsUpTo(s'.trace, i, d) == 127
  {
    AbandonedCosts(s, steps, s', d, id, i, j, 0);
    SpentFromOneSecond();
  }

  /** In every run, a success leaves the deliverer with no failed round counted, the back-off at
      one second and no failures held against any update it has yet to resolve. */
  lemma AfterSuccess(s: State, steps: seq<Step>, m: State, d: nat, s': State, id: int)
    requires Initial(s) && Runs(s, steps, m) && 1 <= m.cap && Enabled(m, Judge(d, Accepted))
    requires s' == Next(m, Judge(d, Accepted))
    ensures Naps(s'.trace, d) == 0 && s'.dels[d].backoff == 1
    ensures FrontierOf(s', d) <= id ==> Attempts(s'.dels[d], id) == 0
  {
    CountedRun(s, steps, m);
    var ph := m.dels[d].phase;
    NapsLast(m.trace, Posted(d, ph.snap[ph.i].id), d);
    if FrontierOf(s', d) <= id {
      NothingHeld(m, d, s', id);
    }
  }

  lemma NothingHeld(m: State, d: nat, s': State, id: int)
    requires Shape(m) && Counted(m) && Enabled(m, Judge(d, Accepted)) && s' == Next(m, Judge(d, Accepted))
    requires FrontierOf(s', d) <= id
    ensures Attempts(s'.dels[d], id) == 0
  {
    assert CounterOf(m, d, id);
    assert RoundShape(m.history, Lo(m), m.dels[d].phase);
  }
}
