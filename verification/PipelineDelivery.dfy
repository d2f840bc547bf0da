/** What the webhook deliverers of one bot do together and each on its own, in every run:
    the order of successful POSTs, the attempt counters, and the back-off. */
module PipelineDelivery {
  import opened BufferSpec
  import opened Pipeline

  // ---- successful POSTs are in strictly increasing order of id ----

  /** The first id that the round of deliverer d has not resolved; outside a round, the low
      end of the buffer. */
  function FrontierOf(s: State, d: nat): int {
    if d in s.dels && s.dels[d].phase.Round? && s.dels[d].phase.snap != [] then
      s.dels[d].phase.snap[0].id + s.dels[d].phase.i
    else Lo(s)
  }

  function Frontier(s: State): int {
    if s.lock.Delivering? then FrontierOf(s, s.lock.d) else Lo(s)
  }

  ghost predicate PostsIncrease(trace: seq<Event>) {
    forall j, k :: 0 <= j < k < |trace| && trace[j].Posted? && trace[k].Posted? ==> trace[j].id < trace[k].id
  }

  ghost predicate PostsBehind(trace: seq<Event>, frontier: int) {
    forall k :: 0 <= k < |trace| && trace[k].Posted? ==> trace[k].id < frontier
  }

  ghost predicate Ordered(s: State) {
    PostsIncrease(s.trace) && PostsBehind(s.trace, Frontier(s))
  }

  /** The largest id that may have a counter. */
  function HeadOf(s: State, d: nat): int
    requires d in s.dels
  {
    var ph := s.dels[d].phase;
    if ph.Round? && ph.snap != [] && !ph.stage.Broke? then ph.snap[0].id else FrontierOf(s, d)
  }

  predicate Attempting(e: Event) { e.Posted? || e.Failed? || e.Abandoned? }

  /** Every step adds to the trace, and only Judge logs attempts. */
  lemma TraceGrows(s: State, st: Step)
    requires 1 <= s.cap && Enabled(s, st)
    ensures s.trace <= Next(s, st).trace
    ensures !st.Judge? ==> forall k :: |s.trace| <= k < |Next(s, st).trace| ==> !Attempting(Next(s, st).trace[k])
    ensures !st.Close? ==> forall k :: |s.trace| <= k < |Next(s, st).trace| ==> !Next(s, st).trace[k].Slept?
  {
  }

  /** Steps other than Judge keep d's counters. */
  lemma CountersKeep(s: State, st: Step, d: nat)
    requires 1 <= s.cap && Enabled(s, st) && !st.Judge? && d in s.dels
    ensures d in Next(s, st).dels && Next(s, st).dels[d].attempts == s.dels[d].attempts
    ensures st.External? || IsPollStep(st) || Actor(st) != d ==> Next(s, st).dels[d] == s.dels[d]
  {
  }

  /** Heads and frontiers only move forward. */
  lemma HeadMoves(s: State, st: Step, d: nat)
    requires Shape(s) && Enabled(s, st) && !st.Judge? && d in s.dels && d in Next(s, st).dels
    ensures HeadOf(s, d) <= HeadOf(Next(s, st), d)
    ensures FrontierOf(s, d) <= FrontierOf(Next(s, st), d)
  {
    ShapeStep(s, st);
    CountersKeep(s, st, d);
    assert RoundShape(s.history, Lo(s), s.dels[d].phase);
    if Next(s, st).dels[d].phase != s.dels[d].phase {
      HeadMovesOwn(s, st, d);
    }
  }

  lemma HeadMovesOwn(s: State, st: Step, d: nat)
    requires Shape(s) && Enabled(s, st) && !st.Judge? && d in s.dels
    requires !st.External? && !IsPollStep(st) && Actor(st) == d
    ensures d in Next(s, st).dels
    ensures HeadOf(s, d) <= HeadOf(Next(s, st), d)
    ensures FrontierOf(s, d) <= FrontierOf(Next(s, st), d)
  {
    assert RoundShape(s.history, Lo(s), s.dels[d].phase);
    match st {
      case Listen(_) => SnapshotIs(s.items, s.history, Lo(s), 0, BATCH);
      case Quit(_) => ShapeRelease(s, st);
      case Close(_) => ShapeRelease(s, st);
      case _ =>
    }
  }

  lemma LockMoves(s: State, st: Step)
    requires Shape(s) && Enabled(s, st)
    ensures s.lock.Delivering? ==> Next(s, st).lock == s.lock || Next(s, st).lock.Free?
    ensures !s.lock.Delivering? && Next(s, st).lock.Delivering? ==> st.Take?
  {
  }

  lemma FrontierStep(s: State, st: Step)
    requires Shape(s) && Enabled(s, st) && !st.Judge?
    ensures Frontier(s) <= Frontier(Next(s, st))
  {
    ShapeStep(s, st);
    LockMoves(s, st);
    if s.lock.Delivering? {
      CountersKeep(s, st, s.lock.d);
      HeadMoves(s, st, s.lock.d);
    }
  }

  lemma OrderedJudge(s: State, d: nat, v: Verdict)
    requires Shape(s) && Ordered(s) && Enabled(s, Judge(d, v))
    ensures Ordered(Next(s, Judge(d, v)))
  {
    var s' := Next(s, Judge(d, v));
    var ph := s.dels[d].phase;
    assert RoundShape(s.history, Lo(s), ph);
    assert s.lock == Delivering(d);
    assert ph.snap[ph.i].id == Frontier(s);
    assert v.Accepted? ==> Frontier(s') == Frontier(s) + 1;
  }

  lemma OrderedStep(s: State, st: Step)
    requires Shape(s) && Ordered(s) && Enabled(s, st)
    ensures Ordered(Next(s, st))
  {
    if st.Judge? {
      OrderedJudge(s, st.d, st.v);
    } else {
      FrontierStep(s, st);
      TraceGrows(s, st);
    }
  }

  lemma {:induction false} OrderedRun(s: State, steps: seq<Step>, s': State)
    requires Shape(s) && Ordered(s) && Runs(s, steps, s')
    ensures Ordered(s')
    decreases |steps|
  {
    if steps != [] {
      ShapeStep(s, steps[0]);
      OrderedStep(s, steps[0]);
      OrderedRun(Next(s, steps[0]), steps[1..], s');
    }
  }

  /** Webhook order. Over any number of deliverers, stops, restarts and interleaved getUpdates
      calls, later successful POSTs carry larger ids; so none is repeated. */
  lemma WebhookOrder(s: State, steps: seq<Step>, s': State, j: nat, k: nat)
    requires Initial(s) && Runs(s, steps, s')
    requires j < |s'.trace| && k < |s'.trace| && s'.trace[j].Posted? && s'.trace[k].Posted?
    ensures s'.trace[j].id < s'.trace[k].id <==> j < k
    ensures s'.trace[j].id == s'.trace[k].id <==> j == k
  {
    OrderedRun(s, steps, s');
  }

  // ---- attempt counters ----

  function Fails(trace: seq<Event>, d: nat, id: int): nat {
    multiset(trace)[Failed(d, id)]
  }

  function Tries(trace: seq<Event>, d: nat, id: int): nat {
    multiset(trace)[Failed(d, id)] + multiset(trace)[Posted(d, id)]
  }

  function Drops(trace: seq<Event>, d: nat, id: int): nat {
    multiset(trace)[Abandoned(d, id)]
  }

  ghost predicate CounterOf(s: State, d: nat, id: int)
    requires d in s.dels
  {
    var a := Attempts(s.dels[d], id);
    if id in s.dels[d].attempts then
      && 1 <= a < MAX_ATTEMPTS
      && id <= HeadOf(s, d) && id < NextID(s)
      && Fails(s.trace, d, id) == Tries(s.trace, d, id) == a
      && Drops(s.trace, d, id) == 0
    else
      && Tries(s.trace, d, id) <= MAX_ATTEMPTS
      && (Tries(s.trace, d, id) > 0 || Drops(s.trace, d, id) > 0 ==> id < FrontierOf(s, d))
      && Drops(s.trace, d, id) <= 1
      && (Drops(s.trace, d, id) == 1 ==> Fails(s.trace, d, id) == Tries(s.trace, d, id) == MAX_ATTEMPTS)
  }

  ghost predicate Counted(s: State) {
    && (forall d, id :: d in s.dels ==> CounterOf(s, d, id))
    && (forall d, id :: d !in s.dels ==> Tries(s.trace, d, id) == 0 && Drops(s.trace, d, id) == 0)
  }

  /** Events of other kinds do not change the counts. */
  lemma CountsKeep(trace: seq<Event>, more: seq<Event>, d: nat, id: int)
    requires forall k :: 0 <= k < |more| ==> !Attempting(more[k]) || more[k].d != d || more[k].id != id
    ensures Tries(trace + more, d, id) == Tries(trace, d, id)
    ensures Fails(trace + more, d, id) == Fails(trace, d, id)
    ensures Drops(trace + more, d, id) == Drops(trace, d, id)
  {
    assert multiset(trace + more) == multiset(trace) + multiset(more);
    assert Failed(d, id) !in more && Posted(d, id) !in more && Abandoned(d, id) !in more;
  }

  lemma QuietCounts(s: State, st: Step, d: nat, id: int, s': State)
    requires 1 <= s.cap && Enabled(s, st) && !st.Judge? && s' == Next(s, st)
    ensures Tries(s'.trace, d, id) == Tries(s.trace, d, id) && Fails(s'.trace, d, id) == Fails(s.trace, d, id)
    ensures Drops(s'.trace, d, id) == Drops(s.trace, d, id)
  {
    var more := s'.trace[|s.trace|..];
    TraceGrows(s, st);
    assert s'.trace == s.trace + more;
    CountsKeep(s.trace, more, d, id);
  }

  lemma CountedQuietOne(s: State, st: Step, d: nat, id: int, s': State)
    requires Shape(s) && Counted(s) && Enabled(s, st) && !st.Judge? && s' == Next(s, st)
    ensures d in s'.dels ==> CounterOf(s', d, id)
    ensures d !in s'.dels ==> Tries(s'.trace, d, id) == 0 && Drops(s'.trace, d, id) == 0
  {
    QuietCounts(s, st, d, id, s');
    if d in s.dels {
      assert CounterOf(s, d, id);
      ShapeStep(s, st);
      CountersKeep(s, st, d);
      HeadMoves(s, st, d);
    } else {
      assert st == Start(d) || d !in s'.dels;
    }
  }

  lemma CountedQuiet(s: State, st: Step)
    requires Shape(s) && Counted(s) && Enabled(s, st) && !st.Judge?
    ensures Counted(Next(s, st))
  {
    var s' := Next(s, st);
    forall d, id
      ensures d in s'.dels ==> CounterOf(s', d, id)
      ensures d !in s'.dels ==> Tries(s'.trace, d, id) == 0 && Drops(s'.trace, d, id) == 0
    {
      CountedQuietOne(s, st, d, id, s');
    }
  }

  /** The update under judgement. */
  lemma CountedJudgeHead(s: State, d: nat, v: Verdict)
    requires Shape(s) && Counted(s) && Enabled(s, Judge(d, v))
    ensures CounterOf(Next(s, Judge(d, v)), d, s.dels[d].phase.snap[s.dels[d].phase.i].id)
  {
    var s' := Next(s, Judge(d, v));
    var more := JudgeEvents(d, s.dels[d], v);
    var ph := s.dels[d].phase;
    assert RoundShape(s.history, Lo(s), ph);
    var head := ph.snap[ph.i].id;
    assert head == FrontierOf(s, d) < NextID(s);
    assert CounterOf(s, d, head);
    assert multiset(s'.trace) == multiset(s.trace) + multiset(more);
  }

  /** Judging one update leaves the counters of the others alone. */
  lemma JudgeKeepsOthers(s: State, d: nat, v: Verdict, id: int)
    requires Shape(s) && Enabled(s, Judge(d, v))
    requires id != s.dels[d].phase.snap[s.dels[d].phase.i].id
    ensures var x, x' := s.dels[d], JudgeItem(s.dels[d], v);
            (id in x'.attempts <==> id in x.attempts) && Attempts(x', id) == Attempts(x, id)
    ensures HeadOf(s, d) <= HeadOf(Next(s, Judge(d, v)), d)
    ensures FrontierOf(s, d) <= FrontierOf(Next(s, Judge(d, v)), d)
  {
    assert RoundShape(s.history, Lo(s), s.dels[d].phase);
  }

  /** Every other update. */
  lemma CountedJudgeOther(s: State, d: nat, v: Verdict, id: int)
    requires Shape(s) && Counted(s) && Enabled(s, Judge(d, v))
    requires id != s.dels[d].phase.snap[s.dels[d].phase.i].id
    ensures CounterOf(Next(s, Judge(d, v)), d, id)
  {
    var more := JudgeEvents(d, s.dels[d], v);
    assert CounterOf(s, d, id);
    JudgeKeepsOthers(s, d, v, id);
    assert forall k :: 0 <= k < |more| && Attempting(more[k]) ==> more[k].id != id;
    CountsKeep(s.trace, more, d, id);
  }

  /** Every other deliverer. */
  lemma CountedJudgeBystander(s: State, d: nat, v: Verdict, e: nat, id: int)
    requires Shape(s) && Counted(s) && Enabled(s, Judge(d, v)) && e != d
    ensures e in s.dels ==> CounterOf(Next(s, Judge(d, v)), e, id)
    ensures e !in s.dels ==> Tries(Next(s, Judge(d, v)).trace, e, id) == 0 && Drops(Next(s, Judge(d, v)).trace, e, id) == 0
  {
    CountsKeep(s.trace, JudgeEvents(d, s.dels[d], v), e, id);
    if e in s.dels {
      assert CounterOf(s, e, id);
    }
  }

  lemma CountedJudge(s: State, d: nat, v: Verdict)
    requires Shape(s) && Counted(s) && Enabled(s, Judge(d, v))
    ensures Counted(Next(s, Judge(d, v)))
  {
    var s' := Next(s, Judge(d, v));
    var head := s.dels[d].phase.snap[s.dels[d].phase.i].id;
    forall e, id
      ensures e in s'.dels ==> CounterOf(s', e, id)
      ensures e !in s'.dels ==> Tries(s'.trace, e, id) == 0 && Drops(s'.trace, e, id) == 0
    {
      if e == d && id == head {
        CountedJudgeHead(s, d, v);
      } else if e == d {
        CountedJudgeOther(s, d, v, id);
      } else {
        CountedJudgeBystander(s, d, v, e, id);
      }
    }
  }

  lemma CountedStep(s: State, st: Step)
    requires Shape(s) && Counted(s) && Enabled(s, st)
    ensures Counted(Next(s, st))
  {
    if st.Judge? {
      CountedJudge(s, st.d, st.v);
    } else {
      CountedQuiet(s, st);
    }
  }

  lemma {:induction false} CountedRun(s: State, steps: seq<Step>, s': State)
    requires Shape(s) && Counted(s) && Runs(s, steps, s')
    ensures Shape(s') && Counted(s')
    decreases |steps|
  {
    if steps != [] {
      ShapeStep(s, steps[0]);
      CountedStep(s, steps[0]);
      CountedRun(Next(s, steps[0]), steps[1..], s');
    }
  }

  /** Head of line. In every run, when the drain lock is free, an update that is still
      buffered and has a counter in some deliverer is the buffer's first, and the counter is
      between 1 and 7 and equals the number of failed POSTs. */
  lemma HeadOfLine(s: State, steps: seq<Step>, s': State, d: nat, id: int)
    requires Initial(s) && Runs(s, steps, s') && s'.lock.Free?
    requires d in s'.dels && Attempts(s'.dels[d], id) != 0 && Lo(s') <= id
    ensures 1 <= Attempts(s'.dels[d], id) <= 7
    ensures Attempts(s'.dels[d], id) == Fails(s'.trace, d, id)
    ensures s'.items != [] && s'.items[0].id == id
  {
    CountedRun(s, steps, s');
    assert CounterOf(s', d, id);
    assert HoldsLock(s'.dels[d]) <==> s'.lock == Delivering(d);
  }

  /** No deliverer ever attempts an update more than 8 times, and it abandons one at most once,
      after exactly 8 failures and no success. */
  lemma AtMostEightAttempts(s: State, steps: seq<Step>, s': State, d: nat, id: int)
    requires Initial(s) && Runs(s, steps, s')
    ensures Tries(s'.trace, d, id) <= 8 && Drops(s'.trace, d, id) <= 1
    ensures Drops(s'.trace, d, id) == 1 ==> Fails(s'.trace, d, id) == 8 && Posted(d, id) !in s'.trace
  {
    CountedRun(s, steps, s');
    if d in s'.dels {
      assert CounterOf(s', d, id);
    }
  }

  /** A round abandons nothing but the first update of its snapshot, hence at most one. */
  lemma OnlyTheHeadIsAbandoned(s: State, steps: seq<Step>, s': State, d: nat, v: Verdict)
    requires Initial(s) && Runs(s, steps, s') && Enabled(s', Judge(d, v))
    requires exists id :: Abandoned(d, id) in JudgeEvents(d, s'.dels[d], v)
    ensures s'.dels[d].phase.i == 0
  {
    CountedRun(s, steps, s');
    var ph := s'.dels[d].phase;
    assert RoundShape(s'.history, Lo(s'), ph);
    assert CounterOf(s', d, ph.snap[ph.i].id);
  }

  // ---- back-off ----

  function Pow2(k: nat): nat { if k == 0 then 1 else 2 * Pow2(k - 1) }

  /** The back-off after k failed rounds in a row, in seconds. */
  function Closed(k: nat): nat { Min(Pow2(k), MAX_BACKOFF) }

  predicate SleepsOf(e: Event, d: nat) { e.Slept? && e.d == d }

  predicate ResetsOf(e: Event, d: nat) { e.Posted? && e.d == d }

  /** How many of d's rounds have failed, each followed by a sleep, since its last successful
      POST or its start. */
  function Naps(trace: seq<Event>, d: nat): nat {
    if trace == [] then 0
    else
      var e := trace[|trace| - 1];
      if ResetsOf(e, d) then 0
      else Naps(trace[..|trace| - 1], d) + if SleepsOf(e, d) then 1 else 0
  }

  lemma NapsLast(trace: seq<Event>, e: Event, d: nat)
    ensures Naps(trace + [e], d) ==
            if ResetsOf(e, d) then 0 else Naps(trace, d) + if SleepsOf(e, d) then 1 else 0
  {
    assert (trace + [e])[..|trace|] == trace;
  }

  lemma {:induction false} NapsKeep(trace: seq<Event>, more: seq<Event>, d: nat)
    requires forall k :: 0 <= k < |more| ==> !SleepsOf(more[k], d) && !ResetsOf(more[k], d)
    ensures Naps(trace + more, d) == Naps(trace, d)
  {
    if more == [] {
      assert trace + more == trace;
    } else {
      var n := |more| - 1;
      NapsKeep(trace, more[..n], d);
      NapsLast(trace + more[..n], more[n], d);
      assert trace + more == (trace + more[..n]) + [more[n]];
    }
  }

  lemma ClosedNext(k: nat)
    ensures NextBackoff(Closed(k)) == Closed(k + 1)
    ensures 1 <= Closed(k) <= MAX_BACKOFF
  {
    Pow2Positive(k);
  }

  lemma {:induction false} Pow2Positive(k: nat)
    ensures Pow2(k) >= 1
  {
    if k > 0 {
      Pow2Positive(k - 1);
    }
  }

  ghost predicate SleepsClosed(trace: seq<Event>) {
    forall k :: 0 <= k < |trace| && trace[k].Slept? ==> trace[k].secs == Closed(Naps(trace[..k], trace[k].d))
  }

  ghost predicate BackedOff(s: State) {
    && (forall d :: d in s.dels ==> BackoffOf(s.trace, d, s.dels[d]))
    && (forall d :: d !in s.dels ==> Naps(s.trace, d) == 0)
    && SleepsClosed(s.trace)
  }

  /** A running deliverer's back-off; it doubles when the sleep is over. */
  ghost predicate BackoffOf(trace: seq<Event>, d: nat, x: Deliverer) {
    if x.phase.Sleeping? then Naps(trace, d) >= 1 && x.backoff == Closed(Naps(trace, d) - 1)
    else x.phase.Returned? || x.backoff == Closed(Naps(trace, d))
  }

  lemma SleepsClosedMore(trace: seq<Event>, more: seq<Event>)
    requires SleepsClosed(trace)
    requires forall k :: 0 <= k < |more| ==> !more[k].Slept?
    ensures SleepsClosed(trace + more)
  {
    var t := trace + more;
    forall k | 0 <= k < |t| && t[k].Slept? ensures t[k].secs == Closed(Naps(t[..k], t[k].d)) {
      assert k < |trace| && t[..k] == trace[..k];
    }
  }

  /** One more failed round of d in the trace. */
  lemma SleptTrace(trace: seq<Event>, d: nat, secs: nat, trace': seq<Event>)
    requires SleepsClosed(trace) && secs == Closed(Naps(trace, d)) && trace' == trace + [Slept(d, secs)]
    ensures SleepsClosed(trace')
    ensures forall f :: Naps(trace', f) == Naps(trace, f) + if f == d then 1 else 0
  {
    forall f ensures Naps(trace', f) == Naps(trace, f) + if f == d then 1 else 0 {
      NapsLast(trace, Slept(d, secs), f);
    }
    forall k | 0 <= k < |trace'| && trace'[k].Slept?
      ensures trace'[k].secs == Closed(Naps(trace'[..k], trace'[k].d))
    {
      if k < |trace| {
        assert trace'[k] == trace[k] && trace'[..k] == trace[..k];
      } else {
        assert trace'[..k] == trace;
      }
    }
  }

  lemma BackedOffClose(s: State, d: nat, s': State)
    requires BackedOff(s) && 1 <= s.cap && Enabled(s, Close(d)) && s' == Next(s, Close(d))
    ensures BackedOff(s')
  {
    assert BackoffOf(s.trace, d, s.dels[d]);
    if s.dels[d].phase.stage.Broke? {
      SleptTrace(s.trace, d, s.dels[d].backoff, s'.trace);
    }
  }

  lemma BackedOffJudge(s: State, d: nat, v: Verdict)
    requires BackedOff(s) && 1 <= s.cap && Enabled(s, Judge(d, v))
    ensures BackedOff(Next(s, Judge(d, v)))
  {
    var s' := Next(s, Judge(d, v));
    var more := JudgeEvents(d, s.dels[d], v);
    SleepsClosedMore(s.trace, more);
    forall f ensures Naps(s'.trace, f) == if f == d && v.Accepted? then 0 else Naps(s.trace, f) {
      if v.Accepted? {
        NapsLast(s.trace, more[0], f);
      } else {
        NapsKeep(s.trace, more, f);
      }
    }
    assert Closed(0) == 1;
    assert BackoffOf(s.trace, d, s.dels[d]);
  }

  /** Only the timer changes a back-off outside Judge, and only it ends a sleep for good. */
  lemma BackoffKeeps(s: State, st: Step, d: nat, s': State)
    requires 1 <= s.cap && Enabled(s, st) && !st.Judge? && !st.Close? && d in s.dels && s' == Next(s, st)
    ensures d in s'.dels
    ensures var x, x' := s.dels[d], s'.dels[d];
            if st == Wake(d, true) then x.phase.Sleeping? && x'.phase.Top? && x'.backoff == NextBackoff(x.backoff)
            else x'.backoff == x.backoff && (x'.phase.Returned? || x'.phase.Sleeping? == x.phase.Sleeping?)
    ensures s.dels[d].phase.Returned? ==> s'.dels[d].phase.Returned?
  {
  }

  lemma BackedOffQuiet(s: State, st: Step, d: nat, s': State)
    requires 1 <= s.cap && Enabled(s, st) && !st.Judge? && !st.Close? && d in s.dels && s' == Next(s, st)
    requires BackoffOf(s.trace, d, s.dels[d]) && Naps(s'.trace, d) == Naps(s.trace, d)
    ensures d in s'.dels && BackoffOf(s'.trace, d, s'.dels[d])
  {
    BackoffKeeps(s, st, d, s');
    if s.dels[d].phase.Sleeping? {
      ClosedNext(Naps(s.trace, d) - 1);
    }
  }

  lemma BackedOffStep(s: State, st: Step)
    requires BackedOff(s) && 1 <= s.cap && Enabled(s, st)
    ensures BackedOff(Next(s, st))
  {
    if st.Judge? {
      BackedOffJudge(s, st.d, st.v);
    } else if st.Close? {
      BackedOffClose(s, st.d, Next(s, st));
    } else {
      var s' := Next(s, st);
      var more := s'.trace[|s.trace|..];
      TraceGrows(s, st);
      assert s'.trace == s.trace + more;
      SleepsClosedMore(s.trace, more);
      forall d
        ensures d in s'.dels ==> BackoffOf(s'.trace, d, s'.dels[d])
        ensures d !in s'.dels ==> Naps(s'.trace, d) == 0
      {
        NapsKeep(s.trace, more, d);
        if d in s.dels {
          BackedOffQuiet(s, st, d, s');
        } else {
          assert st == Start(d) || d !in s'.dels;
          assert Closed(0) == 1;
        }
      }
    }
  }

  lemma {:induction false} BackedOffRun(s: State, steps: seq<Step>, s': State)
    requires BackedOff(s) && Shape(s) && Runs(s, steps, s')
    ensures BackedOff(s')
    decreases |steps|
  {
    if steps != [] {
      ShapeStep(s, steps[0]);
      BackedOffStep(s, steps[0]);
      BackedOffRun(Next(s, steps[0]), steps[1..], s');
    }
  }

  /** Back-off. In every run, the sleep after the k-th failed round of a deliverer since its
      last successful POST (or its start) takes min(2^(k-1), 300) seconds. */
  lemma BackoffClosedForm(s: State, steps: seq<Step>, s': State, j: nat)
    requires Initial(s) && Runs(s, steps, s') && j < |s'.trace| && s'.trace[j].Slept?
    ensures var k := Naps(s'.trace[..j + 1], s'.trace[j].d);
            k >= 1 && s'.trace[j].secs == Min(Pow2(k - 1), 300) && 1 <= s'.trace[j].secs <= 300
  {
    BackedOffRun(s, steps, s');
    assert s'.trace[..j + 1] == s'.trace[..j] + [s'.trace[j]];
    NapsLast(s'.trace[..j], s'.trace[j], s'.trace[j].d);
    ClosedNext(Naps(s'.trace[..j], s'.trace[j].d));
  }
}
