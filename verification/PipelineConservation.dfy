/** Nothing is lost: every update ever pushed is still in the buffer or left it for a reason
    that the trace records, in every run of the step system. */
module PipelineConservation {
  import opened BufferSpec
  import opened Pipeline

  ghost predicate Buffered(s: State, id: int) {
    exists k :: 0 <= k < |s.items| && s.items[k].id == id
  }

  lemma BufferedIs(s: State, id: int)
    requires Shape(s)
    ensures Buffered(s, id) <==> Lo(s) <= id < NextID(s)
  {
    if Lo(s) <= id < NextID(s) {
      assert s.items[id - Lo(s)].id == id;
    }
  }

  /** The events after which `id` may be missing from the buffer. */
  predicate Releases(e: Event, id: int) {
    || (e.Overflowed? && id == e.id)
    || (e.Cleared? && e.from <= id < e.end)
    || (e.Confirmed? && id < e.offset)
    || (e.Responded? && (id < e.offset || id in e.ids))
    || (e.Skipped? && id == e.id)
    || (e.Posted? && id == e.id)
    || (e.Abandoned? && id == e.id)
  }

  /** `id` was pushed, and a releasing event came after that. */
  ghost predicate Justified(trace: seq<Event>, id: int) {
    exists k :: 0 <= k < |trace| && Releases(trace[k], id) && Pushed(id) in trace[..k]
  }

  lemma JustifiedMono(trace: seq<Event>, more: seq<Event>, id: int)
    requires Justified(trace, id)
    ensures Justified(trace + more, id)
  {
    var k :| 0 <= k < |trace| && Releases(trace[k], id) && Pushed(id) in trace[..k];
    assert (trace + more)[k] == trace[k] && (trace + more)[..k] == trace[..k];
  }

  /** A releasing event among those just logged justifies an id pushed before them. */
  lemma JustifiedNow(trace: seq<Event>, more: seq<Event>, j: nat, id: int)
    requires Pushed(id) in trace && j < |more| && Releases(more[j], id)
    ensures Justified(trace + more, id)
  {
    var t := trace + more;
    var n := |trace|;
    assert t[n + j] == more[j] && t[..n + j] == trace + more[..j];
    assert Pushed(id) in t[..n + j];
  }

  /** The three ways in which a deliverer is done with an update. */
  predicate ResolvedBy(trace: seq<Event>, d: nat, id: int) {
    Skipped(id) in trace || Posted(d, id) in trace || Abandoned(d, id) in trace
  }

  ghost predicate PollAccounted(trace: seq<Event>, p: Poll) {
    p.Translating? ==> forall k :: 0 <= k < p.i <= |p.snap| ==>
      p.snap[k].id in p.out || (Skipped(p.snap[k].id) in trace && Justified(trace, p.snap[k].id))
  }

  ghost predicate RoundAccounted(trace: seq<Event>, d: nat, ph: Phase) {
    ph.Round? ==> forall k :: 0 <= k < ph.i <= |ph.snap| ==>
      ResolvedBy(trace, d, ph.snap[k].id) && Justified(trace, ph.snap[k].id)
  }

  ghost predicate Accounted(s: State) {
    && (forall id :: 1 <= id < NextID(s) ==> Pushed(id) in s.trace)
    && (forall id :: 1 <= id < Lo(s) ==> Justified(s.trace, id))
    && (s.lock.Polling? ==> PollAccounted(s.trace, s.lock.poll))
    && (forall d :: d in s.dels ==> RoundAccounted(s.trace, d, s.dels[d].phase))
  }

  /** What was accounted for stays so when events are added. */
  lemma AccountedKeeps(s: State, trace': seq<Event>, more: seq<Event>)
    requires Accounted(s) && trace' == s.trace + more
    ensures forall id :: 1 <= id < NextID(s) ==> Pushed(id) in trace'
    ensures forall id :: 1 <= id < Lo(s) ==> Justified(trace', id)
    ensures s.lock.Polling? ==> PollAccounted(trace', s.lock.poll)
    ensures forall d :: d in s.dels ==> RoundAccounted(trace', d, s.dels[d].phase)
  {
    forall id | Justified(s.trace, id) ensures Justified(trace', id) {
      JustifiedMono(s.trace, more, id);
    }
  }

  lemma AccountedExternal(s: State, a: Action)
    requires Shape(s) && Accounted(s)
    ensures Accounted(ExternalStep(s, a))
  {
    var s' := ExternalStep(s, a);
    var more := s'.trace[|s.trace|..];
    assert s'.trace == s.trace + more;
    AccountedKeeps(s, s'.trace, more);
    if a.Push? {
      PushMovesLow(s.items, s.history, Lo(s), s.cap, a.u);
      assert more[|more| - 1] == Pushed(NextID(s));
      if |s.items| == s.cap {
        JustifiedNow(s.trace, more, 0, Lo(s));
      }
    } else {
      forall id | Lo(s) <= id < NextID(s) ensures Justified(s'.trace, id) {
        JustifiedNow(s.trace, more, 0, id);
      }
    }
  }

  /** A step of a getUpdates call that moves the low end over justified ids only. */
  lemma AccountedOfPoll(s: State, s': State, more: seq<Event>)
    requires Accounted(s) && s'.history == s.history && s'.dels == s.dels && s'.trace == s.trace + more
    requires forall id :: Lo(s) <= id < Lo(s') ==> Justified(s'.trace, id)
    requires s'.lock.Polling? ==> PollAccounted(s'.trace, s'.lock.poll)
    ensures Accounted(s')
  {
    AccountedKeeps(s, s'.trace, more);
  }

  lemma AccountedPollBegin(s: State, offset: int, limit: int, s': State)
    requires Shape(s) && Accounted(s) && Enabled(s, PollBegin(offset, limit))
    requires s' == Next(s, PollBegin(offset, limit))
    ensures Accounted(s')
  {
    var more := if offset > 0 then [Confirmed(offset)] else [];
    assert s'.trace == s.trace + more;
    ShapePollBegin(s, offset, limit);
    forall id | Lo(s) <= id < Lo(s') ensures Justified(s'.trace, id) {
      JustifiedNow(s.trace, more, 0, id);
    }
    AccountedOfPoll(s, s', more);
  }

  lemma AccountedTranslate(s: State, ok: bool)
    requires Shape(s) && Accounted(s) && Enabled(s, PollTranslate(ok))
    ensures Accounted(Next(s, PollTranslate(ok)))
  {
    var s' := Next(s, PollTranslate(ok));
    var p, p' := s.lock.poll, s'.lock.poll;
    var id := p.snap[p.i].id;
    var more := if ok then [] else [Skipped(id)];
    assert s'.trace == s.trace + more;
    AccountedKeeps(s, s'.trace, more);
    assert 1 <= id < NextID(s);
    if !ok {
      JustifiedNow(s.trace, more, 0, id);
      assert Skipped(id) in more;
    }
    forall k | 0 <= k < p'.i
      ensures p.snap[k].id in p'.out || (Skipped(p.snap[k].id) in s'.trace && Justified(s'.trace, p.snap[k].id))
    {
      assert k < p.i || k == p.i;
    }
  }

  lemma AccountedPollFinish(s: State)
    requires Shape(s) && Accounted(s) && Enabled(s, PollFinish)
    ensures Accounted(Next(s, PollFinish))
  {
    var s' := Next(s, PollFinish);
    var p := s.lock.poll;
    var e := Responded(p.offset, p.out);
    TailAckMoves(s, p.snap, p.out);
    AccountedKeeps(s, s'.trace, [e]);
    forall id | Lo(s) <= id < Lo(s') ensures Justified(s'.trace, id) {
      if id < p.offset || id in p.out {
        JustifiedNow(s.trace, [e], 0, id);
      } else {
        assert p.snap[id - p.snap[0].id].id == id;
      }
    }
  }

  lemma AccountedPoll(s: State, st: Step)
    requires Shape(s) && Accounted(s) && IsPollStep(st) && Enabled(s, st)
    ensures Accounted(Next(s, st))
  {
    match st {
      case PollBegin(offset, limit) => AccountedPollBegin(s, offset, limit, Next(s, st));
      case PollWait =>
        var s' := Next(s, st);
        AccountedKeeps(s, s'.trace, s'.trace[|s.trace|..]);
      case PollTranslate(ok) => AccountedTranslate(s, ok);
      case PollFinish => AccountedPollFinish(s);
    }
  }

  /** A step of deliverer d that adds events and moves the low end over justified ids only. */
  lemma AccountedOfDeliverer(s: State, d: nat, s': State, more: seq<Event>)
    requires Accounted(s)
    requires s'.history == s.history && s'.trace == s.trace + more
    requires d in s'.dels && s'.dels == s.dels[d := s'.dels[d]]
    requires forall id :: Lo(s) <= id < Lo(s') ==> Justified(s'.trace, id)
    requires s'.lock.Polling? ==> s'.lock == s.lock
    requires RoundAccounted(s'.trace, d, s'.dels[d].phase)
    ensures Accounted(s')
  {
    AccountedKeeps(s, s'.trace, more);
    forall e | e in s'.dels ensures RoundAccounted(s'.trace, e, s'.dels[e].phase) {
      assert e != d ==> e in s.dels && s'.dels[e] == s.dels[e];
    }
  }

  lemma AccountedJudge(s: State, d: nat, v: Verdict)
    requires Shape(s) && Accounted(s) && Enabled(s, Judge(d, v))
    ensures Accounted(Next(s, Judge(d, v)))
  {
    var s' := Next(s, Judge(d, v));
    var more := JudgeEvents(d, s.dels[d], v);
    var ph, ph' := s.dels[d].phase, s'.dels[d].phase;
    AccountedKeeps(s, s'.trace, more);
    assert RoundShape(s.history, Lo(s), ph) && RoundAccounted(s'.trace, d, ph);
    var id := ph.snap[ph.i].id;
    assert 1 <= id < NextID(s);
    if ph'.i == ph.i + 1 {
      var e := more[|more| - 1];
      JustifiedNow(s.trace, more, |more| - 1, id);
      assert e in more;
      forall k | 0 <= k < ph'.i
        ensures ResolvedBy(s'.trace, d, ph.snap[k].id) && Justified(s'.trace, ph.snap[k].id)
      {
        assert k < ph.i || k == ph.i;
      }
    }
    AccountedOfDeliverer(s, d, s', more);
  }

  lemma AccountedRelease(s: State, st: Step)
    requires Shape(s) && Accounted(s) && (st.Quit? || st.Close?) && Enabled(s, st)
    ensures Accounted(Next(s, st))
  {
    var s' := Next(s, st);
    var ph := s.dels[st.d].phase;
    assert RoundShape(s.history, Lo(s), ph) && RoundAccounted(s.trace, st.d, ph);
    var more := if st.Close? && ph.stage.Broke? then [Slept(st.d, s.dels[st.d].backoff)] else [];
    assert s'.trace == s.trace + more;
    ShapeRelease(s, st);
    forall id | Lo(s) <= id < Lo(s') ensures Justified(s'.trace, id) {
      PrefixJustified(s, st.d, id);
      JustifiedMono(s.trace, more, id);
    }
    AccountedKeeps(s, s'.trace, more);
    AccountedOfDeliverer(s, st.d, s', more);
  }

  /** What a round has resolved of the buffer left it, or is about to, for a reason. */
  lemma PrefixJustified(s: State, d: nat, id: int)
    requires d in s.dels && s.dels[d].phase.Round?
    requires RoundShape(s.history, Lo(s), s.dels[d].phase) && RoundAccounted(s.trace, d, s.dels[d].phase)
    requires Lo(s) <= id < s.dels[d].phase.lastAcked
    ensures Justified(s.trace, id)
  {
    var ph := s.dels[d].phase;
    var k := id - ph.snap[0].id;
    assert 0 <= k < ph.i && ph.snap[k].id == id;
  }

  lemma AccountedStep(s: State, st: Step)
    requires Shape(s) && Accounted(s) && Enabled(s, st)
    ensures Accounted(Next(s, st))
  {
    if st.External? {
      AccountedExternal(s, st.act);
    } else if IsPollStep(st) {
      AccountedPoll(s, st);
    } else if st.Judge? {
      AccountedJudge(s, st.d, st.v);
    } else if st.Quit? || st.Close? {
      AccountedRelease(s, st);
    } else {
      var s' := Next(s, st);
      var d := Actor(st);
      AccountedKeeps(s, s'.trace, s'.trace[|s.trace|..]);
      AccountedOfDeliverer(s, d, s', s'.trace[|s.trace|..]);
    }
  }

  lemma {:induction false} AccountedRun(s: State, steps: seq<Step>, s': State)
    requires Shape(s) && Accounted(s) && Runs(s, steps, s')
    ensures Shape(s') && Accounted(s') && s.history <= s'.history
    decreases |steps|
  {
    if steps != [] {
      ShapeStep(s, steps[0]);
      AccountedStep(s, steps[0]);
      AccountedRun(Next(s, steps[0]), steps[1..], s');
    }
  }

  /** Conservation. In every run, every id assigned so far is either buffered, at its place
      and with the update that was pushed, or was released by an event after its push. */
  lemma Conservation(s: State, steps: seq<Step>, s': State, id: int)
    requires Initial(s) && Runs(s, steps, s') && 1 <= id <= |s'.history|
    ensures Justified(s'.trace, id)
            || exists k :: 0 <= k < |s'.items| && s'.items[k] == Item(id, s'.history[id - 1])
  {
    AccountedRun(s, steps, s');
    if id >= Lo(s') {
      assert s'.items[id - Lo(s')] == Item(id, s'.history[id - 1]);
    }
  }

  /** Why a step may take `id` out of the buffer. */
  ghost predicate MayRemove(s: State, st: Step, id: int)
    requires Enabled(s, st)
  {
    if st.External? then
      st.act.Clear? || (|s.items| >= s.cap && s.items != [] && id == s.items[0].id)
    else if st.PollBegin? then id < st.offset
    else if st.PollFinish? then
      var p := s.lock.poll;
      id < p.offset || id in p.out
      || exists k :: 0 <= k < |p.snap| && p.snap[k].id == id && Skipped(id) in s.trace
    else
      (st.Quit? || st.Close?) && InPrefix(s.dels[st.d].phase, id) && ResolvedBy(s.trace, st.d, id)
  }

  /** `id` is one of the first i updates of the round's snapshot. */
  ghost predicate InPrefix(ph: Phase, id: int)
    requires ph.Round?
  {
    exists k :: 0 <= k < ph.i <= |ph.snap| && ph.snap[k].id == id
  }

  /** In a run, no step removes anything without its own reason, whatever was pushed or cleared
      between a drainer's snapshot and its ack. */
  lemma OnlyWithReason(s: State, steps: seq<Step>, m: State, st: Step, s': State, id: int)
    requires Initial(s) && Runs(s, steps, m) && 1 <= m.cap && Enabled(m, st) && s' == Next(m, st)
    requires Buffered(m, id) && !Buffered(s', id)
    ensures MayRemove(m, st, id)
  {
    AccountedRun(s, steps, m);
    RemovalHasReason(m, st, id);
  }

  lemma RemovalHasReason(s: State, st: Step, id: int)
    requires Shape(s) && Accounted(s) && Enabled(s, st)
    requires Buffered(s, id) && !Buffered(Next(s, st), id)
    ensures MayRemove(s, st, id)
  {
    if st.External? {
      if st.act.Push? {
        PushTakesTheOldest(s, st.act, id);
      }
    } else if st.PollBegin? {
      ShapePollBegin(s, st.offset, st.limit);
      BufferedIs(s, id);
      BufferedIs(Next(s, st), id);
    } else if st.PollFinish? {
      FinishTakesItsOwn(s, id, Next(s, st));
    } else if st.Quit? || st.Close? {
      ReleaseTakesThePrefix(s, st, id);
    }
  }

  lemma PushTakesTheOldest(s: State, a: Action, id: int)
    requires Shape(s) && Buffered(s, id) && !Buffered(ExternalStep(s, a), id) && a.Push?
    ensures |s.items| >= s.cap && id == s.items[0].id
  {
    PushMovesLow(s.items, s.history, Lo(s), s.cap, a.u);
    ShapeExternal(s, a);
    BufferedIs(s, id);
    BufferedIs(ExternalStep(s, a), id);
  }

  lemma FinishTakesItsOwn(s: State, id: int, s': State)
    requires Shape(s) && Accounted(s) && Enabled(s, PollFinish) && s' == Next(s, PollFinish)
    requires Buffered(s, id) && !Buffered(s', id)
    ensures MayRemove(s, PollFinish, id)
  {
    var p := s.lock.poll;
    ShapePollFinish(s);
    BufferedIs(s, id);
    BufferedIs(s', id);
    TailAckMoves(s, p.snap, p.out);
    if id >= p.offset {
      assert p.snap[id - p.snap[0].id].id == id;
    }
  }

  /** In a run, when a deliverer's round ends, on either path, exactly the buffered updates of its
      resolved prefix go, each skipped, posted or abandoned, and the first unresolved one is then
      the head unless it had been evicted. */
  lemma PrefixAck(s: State, steps: seq<Step>, m: State, st: Step, s': State, id: int)
    requires Initial(s) && Runs(s, steps, m) && 1 <= m.cap && (st.Quit? || st.Close?) && Enabled(m, st)
    requires s' == Next(m, st)
    ensures Buffered(s', id) <==> Buffered(m, id) && !InPrefix(m.dels[st.d].phase, id)
    ensures InPrefix(m.dels[st.d].phase, id) ==> ResolvedBy(m.trace, st.d, id)
    ensures var ph := m.dels[st.d].phase;
            ph.i < |ph.snap| && Buffered(m, ph.snap[ph.i].id) ==> s'.items != [] && s'.items[0] == ph.snap[ph.i]
  {
    AccountedRun(s, steps, m);
    ReleaseTakesThePrefix(m, st, id);
  }

  lemma ReleaseTakesThePrefix(s: State, st: Step, id: int)
    requires Shape(s) && Accounted(s) && (st.Quit? || st.Close?) && Enabled(s, st)
    ensures Buffered(Next(s, st), id) <==> Buffered(s, id) && !InPrefix(s.dels[st.d].phase, id)
    ensures InPrefix(s.dels[st.d].phase, id) ==> ResolvedBy(s.trace, st.d, id)
    ensures var ph := s.dels[st.d].phase;
            ph.i < |ph.snap| && Buffered(s, ph.snap[ph.i].id) ==>
              Next(s, st).items != [] && Next(s, st).items[0] == ph.snap[ph.i]
  {
    var ph := s.dels[st.d].phase;
    assert RoundShape(s.history, Lo(s), ph) && RoundAccounted(s.trace, st.d, ph);
    InPrefixIs(s.history, Lo(s), ph, id);
    ReleaseKeeps(s, st, id);
    HeadAfterRelease(s, st, Next(s, st));
  }

  lemma InPrefixIs(history: History, lo: int, ph: Phase, id: int)
    requires RoundShape(history, lo, ph) && ph.Round?
    ensures InPrefix(ph, id) <==> ph.snap[0].id <= id < ph.snap[0].id + ph.i
  {
    if ph.snap[0].id <= id < ph.snap[0].id + ph.i {
      assert ph.snap[id - ph.snap[0].id].id == id;
    }
  }

  lemma ReleaseKeeps(s: State, st: Step, id: int)
    requires Shape(s) && (st.Quit? || st.Close?) && Enabled(s, st)
    ensures Buffered(Next(s, st), id) <==> Buffered(s, id) && id >= s.dels[st.d].phase.lastAcked
  {
    ShapeRelease(s, st);
    BufferedIs(s, id);
    BufferedIs(Next(s, st), id);
  }

  /** In a buffer and a snapshot of one history, an id stands for the same item. */
  lemma SameItem(items: seq<Item>, lo: int, snap: seq<Item>, base: int, i: nat, history: History)
    requires IsTail(items, history, lo) && IsRun(snap, history, base)
    requires i < |snap| && lo == base + i
    ensures items != [] && items[0] == snap[i]
  {
  }

  lemma HeadAfterRelease(s: State, st: Step, s': State)
    requires Shape(s) && (st.Quit? || st.Close?) && Enabled(s, st) && s' == Next(s, st)
    ensures var ph := s.dels[st.d].phase;
            ph.i < |ph.snap| && Buffered(s, ph.snap[ph.i].id) ==> s'.items != [] && s'.items[0] == ph.snap[ph.i]
  {
    var ph := s.dels[st.d].phase;
    assert RoundShape(s.history, Lo(s), ph);
    ShapeRelease(s, st);
    if ph.i < |ph.snap| && Buffered(s, ph.snap[ph.i].id) {
      BufferedIs(s, ph.snap[ph.i].id);
      SameItem(s'.items, Lo(s'), ph.snap, ph.snap[0].id, ph.i, s.history);
    }
  }

  // ---- what a getUpdates call leaves behind of its own answer ----

  /** The ids collected so far ascend and come from the part of the snapshot gone through. */
  ghost predicate OutAscends(p: Poll) {
    p.Translating? && p.i <= |p.snap| ==>
      && (p.i == 0 ==> p.out == [])
      && (forall j, k :: 0 <= j < k < |p.out| ==> p.out[j] < p.out[k])
      && (forall k :: 0 <= k < |p.out| && 0 < p.i ==> p.out[k] <= p.snap[p.i - 1].id)
  }

  lemma OutAscendsStep(s: State, st: Step, s': State)
    requires Shape(s) && Enabled(s, st) && s' == Next(s, st)
    requires s.lock.Polling? ==> OutAscends(s.lock.poll)
    ensures s'.lock.Polling? ==> OutAscends(s'.lock.poll)
  {
    if st.PollTranslate? {
      var p := s.lock.poll;
      assert p.i > 0 ==> p.snap[p.i - 1].id < p.snap[p.i].id;
    }
  }

  lemma {:induction false} OutAscendsRun(s: State, steps: seq<Step>, s': State)
    requires Shape(s) && Runs(s, steps, s')
    requires s.lock.Polling? ==> OutAscends(s.lock.poll)
    ensures Shape(s') && (s'.lock.Polling? ==> OutAscends(s'.lock.poll))
    decreases |steps|
  {
    if steps != [] {
      ShapeStep(s, steps[0]);
      OutAscendsStep(s, steps[0], Next(s, steps[0]));
      OutAscendsRun(Next(s, steps[0]), steps[1..], s');
    }
  }

  /** The translator answers as t does, for as long as a call goes through its snapshot. */
  ghost predicate TranslatesBy(s: State, steps: seq<Step>, t: Update -> bool)
    decreases |steps|
  {
    steps == []
    || (1 <= s.cap && Enabled(s, steps[0])
        && (steps[0].PollTranslate? ==> steps[0].ok == t(s.lock.poll.snap[s.lock.poll.i].update))
        && TranslatesBy(Next(s, steps[0]), steps[1..], t))
  }

  /** The call goes through this snapshot, and has collected the last update it went through
      exactly if that translates. */
  ghost predicate GoesThrough(s: State, snap: seq<Item>, t: Update -> bool) {
    && IsTranslating(s) && s.lock.poll.snap == snap && OutAscends(s.lock.poll)
    && (var p := s.lock.poll; p.i > 0 ==> (snap[p.i - 1].id in p.out <==> t(snap[p.i - 1].update)))
  }

  /** While a call goes through its snapshot, nobody else can take its place. */
  lemma CallStays(s: State, st: Step, s': State)
    requires Shape(s) && IsTranslating(s) && Enabled(s, st) && s' == Next(s, st)
    requires !st.PollTranslate? && !st.PollFinish?
    ensures s'.lock == s.lock
  {
    if !st.External? && !IsPollStep(st) && st.d in s.dels {
      assert HoldsLock(s.dels[st.d]) <==> s.lock == Delivering(st.d);
    }
  }

  lemma GoesThroughTranslate(p: Poll, ok: bool, p': Poll, t: Update -> bool)
    requires p.Translating? && p.i < |p.snap| && OutAscends(p) && ok == t(p.snap[p.i].update)
    requires p.i > 0 ==> p.snap[p.i - 1].id < p.snap[p.i].id
    requires p' == p.(i := p.i + 1, out := if ok then p.out + [p.snap[p.i].id] else p.out)
    ensures p.snap[p.i].id in p'.out <==> t(p.snap[p.i].update)
  {
  }

  lemma GoesThroughStep(s: State, st: Step, s': State, snap: seq<Item>, t: Update -> bool)
    requires Shape(s) && GoesThrough(s, snap, t) && Enabled(s, st) && s' == Next(s, st) && st != PollFinish
    requires st.PollTranslate? ==> st.ok == t(snap[s.lock.poll.i].update)
    ensures GoesThrough(s', snap, t)
  {
    OutAscendsStep(s, st, s');
    if st.PollTranslate? {
      GoesThroughTranslate(s.lock.poll, st.ok, s'.lock.poll, t);
    } else {
      CallStays(s, st, s');
    }
  }

  lemma {:induction false} GoesThroughRun(s: State, steps: seq<Step>, s': State, snap: seq<Item>, t: Update -> bool)
    requires Shape(s) && GoesThrough(s, snap, t) && Runs(s, steps, s') && TranslatesBy(s, steps, t)
    requires PollFinish !in steps
    ensures Shape(s') && GoesThrough(s', snap, t)
    decreases |steps|
  {
    if steps != [] {
      ShapeStep(s, steps[0]);
      GoesThroughStep(s, steps[0], Next(s, steps[0]), snap, t);
      GoesThroughRun(Next(s, steps[0]), steps[1..], s', snap, t);
    }
  }

  /** "Without an offset nothing but untranslatable updates is consumed" fails exactly when the
      snapshot's tail does not translate. When a call answers, the updates of its snapshot that
      are still buffered, those it returns included, stay if the last of them translates, and
      all leave the buffer otherwise. */
  lemma TailDecides(s: State, steps: seq<Step>, m: State, snap: seq<Item>, t: Update -> bool,
                    more: seq<Step>, m': State, s': State, k: nat)
    requires Initial(s) && Runs(s, steps, m)
    requires IsTranslating(m) && m.lock.poll.i == 0 && m.lock.poll.snap == snap
    requires Runs(m, more, m') && TranslatesBy(m, more, t) && PollFinish !in more
    requires 1 <= m'.cap && Enabled(m', PollFinish) && s' == Next(m', PollFinish)
    requires k < |snap| && Buffered(m', snap[k].id)
    ensures Buffered(s', snap[k].id) <==> t(snap[|snap| - 1].update)
  {
    OutAscendsRun(s, steps, m);
    StartsThrough(m, snap, t);
    GoesThroughRun(m, more, m', snap, t);
    FinishDecides(m', snap, t, s', k);
  }

  lemma StartsThrough(m: State, snap: seq<Item>, t: Update -> bool)
    requires IsTranslating(m) && m.lock.poll.i == 0 && m.lock.poll.snap == snap && OutAscends(m.lock.poll)
    ensures GoesThrough(m, snap, t)
  {
  }

  lemma FinishDecides(m: State, snap: seq<Item>, t: Update -> bool, s': State, k: nat)
    requires Shape(m) && GoesThrough(m, snap, t) && Enabled(m, PollFinish) && s' == Next(m, PollFinish)
    requires k < |snap| && Buffered(m, snap[k].id)
    ensures Buffered(s', snap[k].id) <==> t(snap[|snap| - 1].update)
  {
    TailAckTakes(m, s', k);
  }

  lemma TailAckTakes(m: State, s': State, k: nat)
    requires Shape(m) && Enabled(m, PollFinish) && s' == Next(m, PollFinish) && OutAscends(m.lock.poll)
    requires k < |m.lock.poll.snap| && Buffered(m, m.lock.poll.snap[k].id)
    ensures (Buffered(s', m.lock.poll.snap[k].id) <==>
             m.lock.poll.snap[|m.lock.poll.snap| - 1].id in m.lock.poll.out)
  {
    var p := m.lock.poll;
    BufferedIs(m, p.snap[k].id);
    ShapePollFinish(m);
    BufferedIs(s', p.snap[k].id);
    TailAckMoves(m, p.snap, p.out);
    LastIsLast(p);
  }

  lemma LastIsLast(p: Poll)
    requires p.Translating? && OutAscends(p) && 0 < p.i == |p.snap|
    ensures var lastID := p.snap[p.i - 1].id;
            lastID in p.out <==> p.out != [] && p.out[|p.out| - 1] >= lastID
  {
    var lastID := p.snap[p.i - 1].id;
    if lastID in p.out {
      var j :| 0 <= j < |p.out| && p.out[j] == lastID;
      assert p.out[j] <= p.out[|p.out| - 1];
    }
  }
}
