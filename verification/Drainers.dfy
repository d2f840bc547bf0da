/** The two drainers of the buffer as the program runs them, loops and all. What a drainer does is
    told by its parameters: what others do to the buffer between its steps, what ends its waits,
    what the translator and the endpoint answer, when its stop channel is closed. For each drainer
    these determine a list of steps of the step system, and the code is shown to take exactly
    that run, with the buffer object mirrored by its state: the object holds at the end what the
    run makes of it, and everything proved about runs holds of the code. */
module Mirroring {
  import opened BufferSpec
  import opened Pipeline
  import PipelineDelivery
  import opened UpdateBuffers

  ghost predicate Mirrors(buf: UpdateBuffer, s: State)
    reads buf, buf.items
  {
    buf.Valid() && s.cap == buf.cap && s.history == buf.history && s.items == buf.Contents()
  }

  /** Pushes and clears as steps. */
  function Externals(acts: seq<Action>): seq<Step> {
    if acts == [] then [] else [External(acts[0])] + Externals(acts[1..])
  }

  /** What others do while a drainer waits in this state. */
  ghost function WaitedActs(s: State, offset: int, timeout: int, wakeups: seq<Wakeup>): seq<Action>
    requires 1 <= s.cap
  {
    if timeout <= 0 then [] else WaitActs(Queue(s.items, NextID(s)), s.cap, offset, wakeups)
  }

  /** A drainer that begins to wait in state a comes back in state m. */
  ghost predicate WaitsTo(a: State, offset: int, timeout: int, wakeups: seq<Wakeup>, m: State) {
    1 <= a.cap && exists acts ::
      Waited(Queue(a.items, NextID(a)), a.cap, offset, timeout, wakeups, acts) && Runs(a, Externals(acts), m)
  }

  lemma WaitHappens(a: State, offset: int, timeout: int, wakeups: seq<Wakeup>, m: State)
    requires 1 <= a.cap && Runs(a, Externals(WaitedActs(a, offset, timeout, wakeups)), m)
    ensures WaitsTo(a, offset, timeout, wakeups, m)
  {
    WaitIs(Queue(a.items, NextID(a)), a.cap, offset, timeout, wakeups, WaitedActs(a, offset, timeout, wakeups));
  }

  /** The ids of a snapshot follow each other. */
  predicate Consecutive(snap: seq<Item>) {
    forall k :: 0 <= k < |snap| ==> snap[k].id == snap[0].id + k
  }

  // ---- putting runs together ----

  lemma RunsOne(s: State, st: Step, s': State)
    requires 1 <= s.cap && Enabled(s, st) && s' == Next(s, st) && 1 <= s'.cap
    ensures Runs(s, [st], s')
  {
    assert [st][1..] == [];
    assert Runs(s', [], s');
  }

  lemma RunsTwo(s: State, a: Step, m: State, b: Step, s': State)
    requires 1 <= s.cap && Enabled(s, a) && m == Next(s, a)
    requires 1 <= m.cap && Enabled(m, b) && s' == Next(m, b) && 1 <= s'.cap
    ensures Runs(s, [a, b], s')
  {
    RunsOne(s, a, m);
    RunsOne(m, b, s');
    RunsAppend(s, [a], m, [b], s');
    assert [a] + [b] == [a, b];
  }

  lemma RunsNone(s: State)
    requires 1 <= s.cap
    ensures Runs(s, [], s)
  {
  }

  /** A run only adds to the trace. */
  lemma {:induction false} RunsLog(s: State, steps: seq<Step>, s': State)
    requires Runs(s, steps, s')
    ensures s.trace <= s'.trace
    decreases |steps|
  {
    if steps != [] {
      PipelineDelivery.TraceGrows(s, steps[0]);
      RunsLog(Next(s, steps[0]), steps[1..], s');
    }
  }

  // ---- what others do ----

  lemma ExternalIs(s: State, a: Action, s': State)
    requires 1 <= s.cap && s' == ExternalStep(s, a)
    ensures s'.cap == s.cap && s'.lock == s.lock && s'.dels == s.dels
    ensures s'.history == s.history + if a.Push? then [a.u] else []
    ensures Queue(s'.items, NextID(s')) == Apply(Queue(s.items, NextID(s)), s.cap, a)
  {
  }

  /** The run of others' pushes and clears, and what it does to the buffer. */
  lemma {:induction false} ExternalsRun(s: State, acts: seq<Action>) returns (s': State)
    requires 1 <= s.cap
    ensures Runs(s, Externals(acts), s')
    ensures s'.cap == s.cap && s'.lock == s.lock && s'.dels == s.dels
    ensures s'.history == s.history + Pushes(acts)
    ensures Queue(s'.items, NextID(s')) == ApplyAll(Queue(s.items, NextID(s)), s.cap, acts)
    decreases |acts|
  {
    if acts == [] {
      s' := s;
      RunsNone(s);
    } else {
      var m := ExternalStep(s, acts[0]);
      ExternalIs(s, acts[0], m);
      s' := ExternalsRun(m, acts[1..]);
      ExternalFirst(s, acts, m, s');
      HistoryGrows(s.history, acts, m.history, s'.history);
    }
  }

  lemma HistoryGrows(h: History, acts: seq<Action>, h1: History, h': History)
    requires acts != [] && h1 == h + (if acts[0].Push? then [acts[0].u] else []) && h' == h1 + Pushes(acts[1..])
    ensures h' == h + Pushes(acts)
  {
    var first := if acts[0].Push? then [acts[0].u] else [];
    assert Pushes(acts) == first + Pushes(acts[1..]);
    Regroup(h, first, Pushes(acts[1..]));
  }

  lemma ExternalFirst(s: State, acts: seq<Action>, m: State, s': State)
    requires 1 <= s.cap && acts != [] && m == ExternalStep(s, acts[0]) && 1 <= m.cap
    requires Runs(m, Externals(acts[1..]), s')
    ensures Runs(s, Externals(acts), s')
  {
    RunsOne(s, External(acts[0]), m);
    RunsAppend(s, [External(acts[0])], m, Externals(acts[1..]), s');
  }

  /** Others act on the buffer and on the state that mirrors it. */
  method Meanwhile(buf: UpdateBuffer, acts: seq<Action>, ghost s: State) returns (ghost s': State)
    requires Mirrors(buf, s)
    modifies buf, buf.items
    ensures Mirrors(buf, s') && Runs(s, Externals(acts), s') && s'.history == s.history + Pushes(acts)
    ensures s'.lock == s.lock && s'.dels == s.dels
    ensures buf.items == old(buf.items) || fresh(buf.items)
  {
    buf.Interfere(acts);
    s' := ExternalsRun(s, acts);
    assert buf.Queue() == Queue(s'.items, NextID(s'));
  }

  /** Wait, seen from both sides. */
  method Await(buf: UpdateBuffer, offset: int, limit: int, timeout: int, wakeups: seq<Wakeup>, ghost s: State)
    returns (items: array<Item>, ghost s': State)
    requires Mirrors(buf, s)
    modifies buf, buf.items
    ensures Mirrors(buf, s') && Runs(s, Externals(WaitedActs(s, offset, timeout, wakeups)), s')
    ensures s'.lock == s.lock && s'.dels == s.dels
    ensures buf.items == old(buf.items) || fresh(buf.items)
    ensures fresh(items) && items != buf.items && items[..] == Snapshot(s'.items, offset, limit)
    ensures Consecutive(items[..]) && IsTail(s'.items, s'.history, Lo(s'))
    ensures Queue(s'.items, NextID(s'))
            == ApplyAll(Queue(s.items, NextID(s)), s.cap, WaitedActs(s, offset, timeout, wakeups))
  {
    ghost var acts;
    items, acts := buf.Wait(offset, limit, timeout, wakeups);
    assert acts == WaitedActs(s, offset, timeout, wakeups);
    s' := ExternalsRun(s, acts);
    assert buf.Queue() == Queue(s'.items, NextID(s'));
    SnapshotConsecutive(s'.items, s'.history, Lo(s'), offset, limit);
  }

  lemma SnapshotConsecutive(items: seq<Item>, history: History, lo: int, offset: int, limit: int)
    requires IsTail(items, history, lo)
    ensures Consecutive(Snapshot(items, offset, limit))
  {
    SnapshotIs(items, history, lo, offset, limit);
  }
}

module GetUpdatesHandler {
  import opened BufferSpec
  import opened Pipeline
  import opened UpdateBuffers
  import opened Mirroring

  /** A request parameter that may be missing or not an integer. */
  datatype Param = Absent | Given(value: int)

  // ---- the steps of one call ----

  /** The ids of the updates of a snapshot that translate, in order. */
  function Translated(snap: seq<Item>, translate: Update -> bool): seq<int> {
    if snap == [] then []
    else
      var last := snap[|snap| - 1];
      Translated(snap[..|snap| - 1], translate) + (if translate(last.update) then [last.id] else [])
  }

  /** The loop over the first n items of a snapshot: what others do before item i, then its
      translation. */
  function TranslateSteps(snap: seq<Item>, gap: int -> seq<Action>, translate: Update -> bool, n: nat): seq<Step>
    requires n <= |snap|
  {
    if n == 0 then []
    else
      TranslateSteps(snap, gap, translate, n - 1)
      + (Externals(gap(n - 1)) + [PollTranslate(translate(snap[n - 1].update))])
  }

  /** From the moment of the snapshot to the answer: PollWait, the loop, PollFinish. The last ack
      keeps the buffer exactly if the snapshot's last update translates. */
  ghost predicate AnswersTo(m: State, snap: seq<Item>, gap: int -> seq<Action>, translate: Update -> bool, s: State) {
    if snap == [] then Runs(m, [PollWait], s)
    else
      exists u: State ::
        && Runs(m, [PollWait] + TranslateSteps(snap, gap, translate, |snap|), u)
        && Runs(u, [PollFinish], s) && TailBy(u, snap, translate, s)
  }

  ghost predicate TailBy(u: State, snap: seq<Item>, translate: Update -> bool, s: State)
    requires snap != []
  {
    var last := snap[|snap| - 1];
    s.items == if translate(last.update) then u.items else AckSeq(u.items, last.id + 1)
  }

  /** The parameters of a call as they are read, and its moments: after its first ack, when its wait
      begins, when its snapshot is taken. */
  datatype Call = Call(offset: int, limit: int, timeout: int, confirmed: State, waiting: State, snapped: State)

  /** One whole call: PollBegin with its first ack, what others do before and during the wait, and
      the answer to the snapshot of that moment, which is the translatable part of it. */
  ghost predicate PollTo(s0: State, offset: int, limit: int, timeout: int, gap: int -> seq<Action>,
                         wakeups: seq<Wakeup>, translate: Update -> bool, call: Call, out: seq<int>, s: State) {
    && Runs(s0, [PollBegin(offset, limit)], call.confirmed)
    && Runs(call.confirmed, Externals(gap(-1)), call.waiting)
    && 1 <= call.waiting.cap
    && Runs(call.waiting, Externals(WaitedActs(call.waiting, offset, timeout, wakeups)), call.snapped)
    && AnswersTo(call.snapped, Snapshot(call.snapped.items, offset, limit), gap, translate, s)
    && out == Translated(Snapshot(call.snapped.items, offset, limit), translate)
  }

  /** A call is a run, so from a reachable state it leads to a reachable state, and all that is
      proved of runs is true of it. */
  lemma CallIsARun(s00: State, before: seq<Step>, s0: State, offset: int, limit: int, timeout: int,
                   gap: int -> seq<Action>, wakeups: seq<Wakeup>, translate: Update -> bool,
                   call: Call, out: seq<int>, s: State)
      returns (steps: seq<Step>)
    requires Runs(s00, before, s0) && PollTo(s0, offset, limit, timeout, gap, wakeups, translate, call, out, s)
    ensures Runs(s00, before + steps, s)
  {
    var first, others := [PollBegin(offset, limit)], Externals(gap(-1));
    var waited := Externals(WaitedActs(call.waiting, offset, timeout, wakeups));
    var last := AnswerIsARun(call.snapped, Snapshot(call.snapped.items, offset, limit), gap, translate, s);
    RunsAppend(s0, first, call.confirmed, others, call.waiting);
    RunsAppend(s0, first + others, call.waiting, waited, call.snapped);
    RunsAppend(s0, first + others + waited, call.snapped, last, s);
    steps := first + others + waited + last;
    RunsAppend(s00, before, s0, steps, s);
  }

  lemma AnswerIsARun(m: State, snap: seq<Item>, gap: int -> seq<Action>, translate: Update -> bool, s: State)
      returns (steps: seq<Step>)
    requires AnswersTo(m, snap, gap, translate, s)
    ensures Runs(m, steps, s)
  {
    if snap == [] {
      steps := [PollWait];
    } else {
      var loop := [PollWait] + TranslateSteps(snap, gap, translate, |snap|);
      var u: State :| Runs(m, loop, u) && Runs(u, [PollFinish], s);
      RunsAppend(m, loop, u, [PollFinish], s);
      steps := loop + [PollFinish];
    }
  }

  // ---- the handler ----

  /** An answer holds exactly the ids of the snapshot's translatable updates, ascending. */
  ghost predicate AnswerOf(snap: seq<Item>, translate: Update -> bool, out: seq<int>) {
    && (forall k :: 0 <= k < |snap| ==> (snap[k].id in out <==> translate(snap[k].update)))
    && (forall id :: id in out ==> exists k :: 0 <= k < |snap| && snap[k].id == id)
    && (forall j, k :: 0 <= j < k < |out| ==> out[j] < out[k])
  }

  /** One getUpdates call that has the drain lock. `gap` is what others do between its steps,
      `wakeups` what ends its wait, `translate` the translator in this call's context. */
  method GetUpdates(buf: UpdateBuffer, limitParam: Param, timeoutParam: Param, offsetParam: Param,
                    gap: int -> seq<Action>, wakeups: seq<Wakeup>, translate: Update -> bool, ghost s0: State)
    returns (out: seq<int>, ghost call: Call, ghost s: State)
    requires Mirrors(buf, s0) && s0.lock.Free?
    modifies buf, buf.items
    ensures Mirrors(buf, s) && s.lock.Free?
    // the parameters: an offset counts if positive; a limit is capped at 100, a timeout at 50 seconds
    ensures call.offset == if offsetParam.Given? && offsetParam.value > 0 then offsetParam.value else 0
    ensures call.limit == if limitParam.Given? && 1 <= limitParam.value <= 100 then limitParam.value else 100
    ensures (call.timeout == if !timeoutParam.Given? || timeoutParam.value <= 0 then 0
                             else if timeoutParam.value > 50 then 50 else timeoutParam.value)
    ensures PollTo(s0, call.offset, call.limit, call.timeout, gap, wakeups, translate, call, out, s)
    // a positive offset confirms what is below it and nothing else
    ensures call.offset > 0 ==> forall it :: it in call.confirmed.items <==> it in s0.items && it.id >= call.offset
    ensures call.offset == 0 ==> call.confirmed.items == s0.items
    // the wait lasts until something is ready or it is ended, and does not begin without a timeout
    ensures WaitsTo(call.waiting, call.offset, call.timeout, wakeups, call.snapped)
    // the answer is the translatable part of the first updates from the offset on
    ensures exists snap ::
              FirstFrom(call.snapped.items, snap, call.offset, call.limit) && AnswerOf(snap, translate, out)
    ensures s.trace != [] && s.trace[|s.trace| - 1].Responded? && s.trace[|s.trace| - 1].ids == out
  {
    var limit := 100;
    if limitParam.Given? && limitParam.value > 0 {
      var n := limitParam.value;
      if n > 100 {
        n := 100;
      }
      limit := n;
    }
    var timeout := 0;
    if timeoutParam.Given? && timeoutParam.value > 0 {
      var n := timeoutParam.value;
      if n > 50 {
        n := 50;
      }
      timeout := n;
    }
    var offset := 0;
    if offsetParam.Given? && offsetParam.value > 0 {
      offset := offsetParam.value;
    }
    out, call, s := Serve(buf, limit, timeout, offset, gap, wakeups, translate, s0);
  }

  /** The call once its parameters are read. */
  method Serve(buf: UpdateBuffer, limit: int, timeout: int, offset: int,
               gap: int -> seq<Action>, wakeups: seq<Wakeup>, translate: Update -> bool, ghost s0: State)
    returns (out: seq<int>, ghost call: Call, ghost s: State)
    requires Mirrors(buf, s0) && s0.lock.Free? && offset >= 0 && 1 <= limit <= 100
    modifies buf, buf.items
    ensures Mirrors(buf, s) && s.lock.Free?
    ensures PollTo(s0, offset, limit, timeout, gap, wakeups, translate, call, out, s)
    ensures offset > 0 ==> forall it :: it in call.confirmed.items <==> it in s0.items && it.id >= offset
    ensures offset <= 0 ==> call.confirmed.items == s0.items
    ensures call.offset == offset && call.limit == limit && call.timeout == timeout
    ensures WaitsTo(call.waiting, offset, timeout, wakeups, call.snapped)
    ensures exists snap :: FirstFrom(call.snapped.items, snap, offset, limit) && AnswerOf(snap, translate, out)
    ensures s.trace != [] && s.trace[|s.trace| - 1] == Responded(offset, out)
  {
    ghost var b := Begin(buf, offset, limit, s0);
    ghost var a := Meanwhile(buf, gap(-1), b);
    ghost var m;
    var items;
    items, m := Await(buf, offset, limit, timeout, wakeups, a);
    WaitHappens(a, offset, timeout, wakeups, m);
    SnapshotAnswer(m, offset, limit, items[..], translate);
    call := Call(offset, limit, timeout, b, a, m);
    out, s := Answer(buf, items, offset, limit, gap, translate, m);
  }

  lemma SnapshotAnswer(m: State, offset: int, limit: int, snap: seq<Item>, translate: Update -> bool)
    requires IsTail(m.items, m.history, Lo(m)) && limit > 0
    requires snap == Snapshot(m.items, offset, limit) && Consecutive(snap)
    ensures FirstFrom(m.items, snap, offset, limit) && AnswerOf(snap, translate, Translated(snap, translate))
  {
    SnapshotFirst(m.items, m.history, Lo(m), offset, limit);
    TranslatedIs(snap, translate);
  }

  lemma {:induction false} TranslatedIs(snap: seq<Item>, translate: Update -> bool)
    requires Consecutive(snap)
    ensures AnswerOf(snap, translate, Translated(snap, translate))
  {
    if snap != [] {
      var n := |snap| - 1;
      var init, last := snap[..n], snap[n];
      TranslatedIs(init, translate);
      TranslatedBelow(init, last.id, translate);
      AnswerOfMore(snap, init, last, translate, Translated(init, translate), Translated(snap, translate));
    }
  }

  lemma AnswerOfMore(snap: seq<Item>, init: seq<Item>, last: Item, translate: Update -> bool,
                     out: seq<int>, out': seq<int>)
    requires snap == init + [last] && AnswerOf(init, translate, out)
    requires forall k :: 0 <= k < |init| ==> init[k].id < last.id
    requires forall k :: 0 <= k < |out| ==> out[k] < last.id
    requires out' == out + if translate(last.update) then [last.id] else []
    ensures AnswerOf(snap, translate, out')
  {
    assert last.id !in out;
    forall id | id in out' ensures exists k :: 0 <= k < |snap| && snap[k].id == id {
      if id in out {
        var k :| 0 <= k < |init| && init[k].id == id;
        assert snap[k].id == id;
      } else {
        assert snap[|init|].id == id;
      }
    }
  }

  /** A positive offset confirms everything below it. */
  method Begin(buf: UpdateBuffer, offset: int, limit: int, ghost s0: State) returns (ghost b: State)
    requires Mirrors(buf, s0) && s0.lock.Free? && offset >= 0 && 1 <= limit <= 100
    modifies buf, buf.items
    ensures Mirrors(buf, b) && Runs(s0, [PollBegin(offset, limit)], b) && b.lock == Polling(Parked(offset, limit))
    ensures offset > 0 ==> forall it :: it in b.items <==> it in s0.items && it.id >= offset
    ensures offset <= 0 ==> b.items == s0.items
    ensures buf.items == old(buf.items)
  {
    if offset > 0 {
      AckKeeps(buf.Contents(), buf.history, buf.Lo(), offset);
      buf.Ack(offset);
    }
    b := BeginStep(s0, offset, limit);
    RunsOne(s0, PollBegin(offset, limit), b);
  }

  /** The rest of the call: an empty snapshot is the answer, another one is translated. */
  method Answer(buf: UpdateBuffer, items: array<Item>, offset: int, ghost limit: int,
                gap: int -> seq<Action>, translate: Update -> bool, ghost m: State)
    returns (out: seq<int>, ghost s: State)
    requires Mirrors(buf, m) && m.lock == Polling(Parked(offset, limit))
    requires items != buf.items && items[..] == Snapshot(m.items, offset, limit) && Consecutive(items[..])
    modifies buf, buf.items
    ensures Mirrors(buf, s) && s.lock.Free?
    ensures AnswersTo(m, old(items[..]), gap, translate, s) && out == Translated(old(items[..]), translate)
    ensures s.trace != [] && s.trace[|s.trace| - 1] == Responded(offset, out)
  {
    ghost var snap := items[..];
    ghost var w := WaitRuns(m, snap);
    if items.Length == 0 {
      out, s := [], w;
      AnswersNothing(m, snap, gap, translate, w);
    } else {
      out, s := AnswerSome(buf, items, gap, translate, m, w);
    }
  }

  lemma AnswersNothing(m: State, snap: seq<Item>, gap: int -> seq<Action>, translate: Update -> bool, w: State)
    requires snap == [] && Runs(m, [PollWait], w)
    ensures AnswersTo(m, snap, gap, translate, w) && Translated(snap, translate) == []
  {
  }

  lemma WaitRuns(m: State, snap: seq<Item>) returns (w: State)
    requires 1 <= m.cap && IsParked(m)
    requires snap == Snapshot(m.items, m.lock.poll.offset, m.lock.poll.limit)
    ensures Runs(m, [PollWait], w) && w.cap == m.cap && w.history == m.history && w.items == m.items
    ensures snap == [] ==> w.lock.Free? && w.trace == m.trace + [Responded(m.lock.poll.offset, [])]
    ensures snap != [] ==> w.lock == Polling(Translating(m.lock.poll.offset, m.lock.poll.limit, snap, 0, []))
  {
    w := WaitStep(m);
    RunsOne(m, PollWait, w);
  }

  method AnswerSome(buf: UpdateBuffer, items: array<Item>, gap: int -> seq<Action>, translate: Update -> bool,
                    ghost m: State, ghost w: State)
    returns (out: seq<int>, ghost s: State)
    requires Mirrors(buf, w) && items != buf.items && items.Length > 0 && Consecutive(items[..])
    requires Runs(m, [PollWait], w) && w.lock.Polling? && w.lock.poll.Translating?
    requires w.lock.poll.snap == items[..] && w.lock.poll.i == 0 && w.lock.poll.out == []
    modifies buf, buf.items
    ensures Mirrors(buf, s) && s.lock.Free?
    ensures AnswersTo(m, old(items[..]), gap, translate, s) && out == Translated(old(items[..]), translate)
    ensures s.trace != [] && s.trace[|s.trace| - 1] == Responded(w.lock.poll.offset, out)
  {
    ghost var snap := items[..];
    ghost var u;
    out, u := TranslateAll(buf, items, gap, translate, w);
    RunsAppend(m, [PollWait], w, TranslateSteps(snap, gap, translate, |snap|), u);
    s := Finish(buf, items, out, translate, u);
  }

  /** One item of the snapshot. */
  method TranslateOne(buf: UpdateBuffer, item: Item, out0: seq<int>, acts: seq<Action>, translate: Update -> bool,
                      ghost p: Poll, ghost s0: State)
    returns (out: seq<int>, ghost s: State)
    requires Mirrors(buf, s0) && s0.lock == Polling(p) && p.Translating? && p.out == out0
    requires p.i < |p.snap| && item == p.snap[p.i]
    modifies buf, buf.items
    ensures Mirrors(buf, s) && Runs(s0, Externals(acts) + [PollTranslate(translate(item.update))], s)
    ensures buf.items == old(buf.items) || fresh(buf.items)
    ensures s.lock == Polling(p.(i := p.i + 1, out := out))
    ensures out == out0 + if translate(item.update) then [item.id] else []
  {
    ghost var t := Meanwhile(buf, acts, s0);
    var ok := translate(item.update);
    out := if ok then out0 + [item.id] else out0;
    s := TranslateStep(t, ok);
    TranslateRuns(t, ok, s);
    RunsAppend(s0, Externals(acts), t, [PollTranslate(ok)], s);
  }

  lemma TranslateRuns(t: State, ok: bool, s: State)
    requires 1 <= t.cap && IsTranslating(t) && t.lock.poll.i < |t.lock.poll.snap| && s == TranslateStep(t, ok)
    ensures Runs(t, [PollTranslate(ok)], s)
    ensures s.cap == t.cap && s.history == t.history && s.items == t.items
  {
    RunsOne(t, PollTranslate(ok), s);
  }

  /** The loop over the snapshot: it appends what translates. */
  method TranslateAll(buf: UpdateBuffer, items: array<Item>, gap: int -> seq<Action>, translate: Update -> bool,
                      ghost s0: State)
    returns (out: seq<int>, ghost s: State)
    requires Mirrors(buf, s0) && items != buf.items && items.Length > 0
    requires s0.lock.Polling? && s0.lock.poll.Translating?
    requires s0.lock.poll.snap == items[..] && s0.lock.poll.i == 0 && s0.lock.poll.out == []
    modifies buf, buf.items
    ensures Mirrors(buf, s) && items[..] == old(items[..]) && items != buf.items
    ensures Runs(s0, TranslateSteps(items[..], gap, translate, items.Length), s)
    ensures buf.items == old(buf.items) || fresh(buf.items)
    ensures s.lock == Polling(s0.lock.poll.(i := items.Length, out := out))
    ensures out == Translated(items[..], translate)
  {
    ghost var snap, p := items[..], s0.lock.poll;
    out, s := [], s0;
    RunsNone(s0);
    var i := 0;
    while i < items.Length
      invariant 0 <= i <= items.Length && items[..] == snap && items != buf.items
      invariant Mirrors(buf, s) && Runs(s0, TranslateSteps(snap, gap, translate, i), s)
      invariant s.lock == Polling(p.(i := i, out := out))
      invariant buf.items == old(buf.items) || fresh(buf.items)
      invariant out == Translated(snap[..i], translate)
    {
      ghost var t := s;
      assert snap[..i + 1][..i] == snap[..i];
      out, s := TranslateOne(buf, items[i], out, gap(i), translate, t.lock.poll, t);
      RunsAppend(s0, TranslateSteps(snap, gap, translate, i), t,
                 Externals(gap(i)) + [PollTranslate(translate(snap[i].update))], s);
      i := i + 1;
    }
    assert snap[..i] == snap;
  }

  /** The translated ids of a snapshot end at its last id exactly if that translates. */
  lemma {:induction false} TranslatedEnd(snap: seq<Item>, translate: Update -> bool)
    requires Consecutive(snap) && snap != []
    ensures var out, last := Translated(snap, translate), snap[|snap| - 1];
            out == [] || last.id > out[|out| - 1] <==> !translate(last.update)
  {
    var init := snap[..|snap| - 1];
    TranslatedBelow(init, snap[0].id + |init|, translate);
  }

  lemma {:induction false} TranslatedBelow(snap: seq<Item>, bound: int, translate: Update -> bool)
    requires forall k :: 0 <= k < |snap| ==> snap[k].id < bound
    ensures forall k :: 0 <= k < |Translated(snap, translate)| ==> Translated(snap, translate)[k] < bound
    decreases |snap|
  {
    if snap != [] {
      TranslatedBelow(snap[..|snap| - 1], bound, translate);
    }
  }

  /** What the last ack leaves depends on the snapshot's last update alone. */
  lemma TailAckBy(items: seq<Item>, snap: seq<Item>, translate: Update -> bool)
    requires Consecutive(snap) && snap != []
    ensures TailAck(items, snap, Translated(snap, translate))
            == (if translate(snap[|snap| - 1].update) then items else AckSeq(items, snap[|snap| - 1].id + 1))
  {
    TranslatedEnd(snap, translate);
  }

  /** The last ack of the call. */
  method DropTail(buf: UpdateBuffer, items: array<Item>, out: seq<int>)
    requires buf.Valid() && items != buf.items && items.Length > 0
    modifies buf, buf.items
    ensures buf.Valid() && buf.history == old(buf.history) && buf.items == old(buf.items)
    ensures buf.Contents() == TailAck(old(buf.Contents()), old(items[..]), out)
  {
    var lastID := items[items.Length - 1].id;
    ghost var was, snap := buf.Contents(), items[..];
    ghost var kept := TailAck(was, snap, out);
    assert kept == if out == [] || lastID > out[|out| - 1] then AckSeq(was, lastID + 1) else was;
    if |out| == 0 {
      buf.Ack(lastID + 1);
    } else {
      var lastDeliveredID := out[|out| - 1];
      if lastID > lastDeliveredID {
        buf.Ack(lastID + 1);
      }
    }
    assert buf.Contents() == kept;
  }

  /** The end of the call: the ack drops the snapshot's range when its tail did not translate. */
  method Finish(buf: UpdateBuffer, items: array<Item>, out: seq<int>, ghost translate: Update -> bool, ghost u: State)
    returns (ghost s: State)
    requires Mirrors(buf, u) && items != buf.items && items.Length > 0
    requires IsTranslating(u) && u.lock.poll.snap == items[..] && u.lock.poll.i == items.Length
    requires u.lock.poll.out == out == Translated(items[..], translate)
    requires Consecutive(items[..])
    modifies buf, buf.items
    ensures Mirrors(buf, s) && s.lock.Free? && Runs(u, [PollFinish], s)
    ensures TailBy(u, old(items[..]), translate, s)
    ensures s.trace != [] && s.trace[|s.trace| - 1] == Responded(u.lock.poll.offset, out)
  {
    TailAckBy(u.items, items[..], translate);
    DropTail(buf, items, out);
    s := FinishStep(u);
    FinishRuns(u, s);
  }

  lemma FinishRuns(u: State, s: State)
    requires 1 <= u.cap && IsTranslating(u) && u.lock.poll.i == |u.lock.poll.snap| && s == FinishStep(u)
    ensures Runs(u, [PollFinish], s)
    ensures s.trace != [] && s.trace[|s.trace| - 1] == Responded(u.lock.poll.offset, u.lock.poll.out)
  {
    RunsOne(u, PollFinish, s);
    assert s.trace == u.trace + [Responded(u.lock.poll.offset, u.lock.poll.out)];
  }
}

module WebhookDeliverer {
  import opened BufferSpec
  import opened Pipeline
  import opened UpdateBuffers
  import opened Mirroring

  /** What happens around item i of a round: what others do before it, whether the stop channel is
      then found closed, and what the translator and the endpoint answer. */
  datatype ItemScript = ItemScript(acts: seq<Action>, stop: bool, verdict: Verdict)

  datatype RoundScript = RoundScript(
    stopAtTop: bool,
    before: seq<Action>,
    wakeups: seq<Wakeup>,
    item: nat -> ItemScript,
    stopInSleep: bool)

  /** Deliverer d runs, at the loop head, with these local variables. */
  ghost predicate AtTop(s: State, d: nat, attempts: map<int, nat>, backoff: nat) {
    d in s.dels && s.dels[d] == Deliverer(Top, attempts, backoff, false) && s.lock.Free?
  }

  ghost predicate Gone(s: State, d: nat) {
    d in s.dels && s.dels[d].phase.Returned? && s.lock.Free?
  }

  // ---- the steps of one turn ----

  /** The item at hand once its verdict is known. */
  function Judged(x: Deliverer, v: Verdict): (x': Deliverer)
    requires x.phase.Round? && x.phase.i < |x.phase.snap|
    ensures x'.phase.Round? && x'.phase.snap == x.phase.snap && x'.phase.i <= |x.phase.snap|
    ensures x'.phase.stage.Broke? || (x'.phase.stage.Check? && x'.phase.i == x.phase.i + 1)
  {
    JudgeItem(x.(phase := x.phase.(stage := Post)), v)
  }

  function ItemSteps(d: nat, sc: ItemScript): seq<Step> {
    Externals(sc.acts) + if sc.stop then [] else [Pass(d), Judge(d, sc.verdict)]
  }

  /** The loop over the snapshot from the item at hand on: item after item until a stop, a failure
      or the end. */
  function BatchSteps(d: nat, x: Deliverer, script: nat -> ItemScript): seq<Step>
    requires x.phase.Round?
    decreases |x.phase.snap| - x.phase.i, x.phase.stage.Check?
  {
    if x.phase.i >= |x.phase.snap| || !x.phase.stage.Check? then []
    else
      var sc := script(x.phase.i);
      ItemSteps(d, sc) + if sc.stop then [] else BatchSteps(d, Judged(x, sc.verdict), script)
  }

  /** Does that loop end at a closed stop channel? */
  predicate BatchStops(x: Deliverer, script: nat -> ItemScript)
    requires x.phase.Round?
    decreases |x.phase.snap| - x.phase.i, x.phase.stage.Check?
  {
    if x.phase.i >= |x.phase.snap| || !x.phase.stage.Check? then false
    else
      var sc := script(x.phase.i);
      sc.stop || BatchStops(Judged(x, sc.verdict), script)
  }

  /** What follows the loop: on a stop the ack and the return, otherwise the ack and after a
      failure the sleep, which a stop may cut short. */
  function EndSteps(d: nat, stopped: bool, failed: bool, stopInSleep: bool): seq<Step> {
    if stopped then [Stop(d), Quit(d)]
    else if !failed then [Close(d)]
    else if stopInSleep then [Close(d), Stop(d), Wake(d, false)]
    else [Close(d), Wake(d, true)]
  }

  /** From the moment of the snapshot to the end of the turn. */
  ghost predicate RoundTo(m: State, d: nat, script: RoundScript, s: State) {
    if Snapshot(m.items, 0, 100) == [] then Runs(m, [Listen(d)], s)
    else
      exists r: State, u: State ::
        && Runs(m, [Listen(d)], r) && d in r.dels && r.dels[d].phase.Round?
        && Runs(r, BatchSteps(d, r.dels[d], script.item), u) && d in u.dels && u.dels[d].phase.Round?
        && Runs(u, EndSteps(d, BatchStops(r.dels[d], script.item), u.dels[d].phase.stage.Broke?, script.stopInSleep), s)
  }

  /** The moments of a turn: when its wait begins and when its snapshot is taken. */
  datatype Opening = Opening(waiting: State, snapped: State)

  /** In an empty buffer, a push at the first wake-up is what the wait comes back with. */
  ghost predicate PushEndsIt(a: State, wakeups: seq<Wakeup>, m: State) {
    forall u :: a.items == [] && wakeups != [] && wakeups[0] == Wakeup(false, false, [Push(u)]) ==>
      m.items == [Item(|a.history| + 1, u)]
  }

  /** One whole turn of the endless loop. */
  ghost predicate TurnTo(s0: State, d: nat, script: RoundScript, open: Opening, s: State) {
    if script.stopAtTop then Runs(s0, [Stop(d), Look(d)], s)
    else
      && Runs(s0, [Look(d), Take(d)] + Externals(script.before), open.waiting)
      && 1 <= open.waiting.cap
      && Runs(open.waiting, Externals(WaitedActs(open.waiting, 0, 30, script.wakeups)), open.snapped)
      && RoundTo(open.snapped, d, script, s)
  }

  // ---- turns are runs ----

  lemma RoundIsARun(m: State, d: nat, script: RoundScript, s: State) returns (steps: seq<Step>)
    requires RoundTo(m, d, script, s)
    ensures Runs(m, steps, s)
  {
    if Snapshot(m.items, 0, 100) == [] {
      steps := [Listen(d)];
    } else {
      var r: State, u: State :|
        && Runs(m, [Listen(d)], r) && d in r.dels && r.dels[d].phase.Round?
        && Runs(r, BatchSteps(d, r.dels[d], script.item), u) && d in u.dels && u.dels[d].phase.Round?
        && Runs(u, EndSteps(d, BatchStops(r.dels[d], script.item), u.dels[d].phase.stage.Broke?, script.stopInSleep), s);
      var batch := BatchSteps(d, r.dels[d], script.item);
      var end := EndSteps(d, BatchStops(r.dels[d], script.item), u.dels[d].phase.stage.Broke?, script.stopInSleep);
      RunsAppend(m, [Listen(d)], r, batch, u);
      RunsAppend(m, [Listen(d)] + batch, u, end, s);
      steps := [Listen(d)] + batch + end;
    }
  }

  lemma TurnIsARun(s0: State, d: nat, script: RoundScript, open: Opening, s: State) returns (steps: seq<Step>)
    requires TurnTo(s0, d, script, open, s)
    ensures Runs(s0, steps, s)
  {
    if script.stopAtTop {
      steps := [Stop(d), Look(d)];
    } else {
      var first := [Look(d), Take(d)] + Externals(script.before);
      var waited := Externals(WaitedActs(open.waiting, 0, 30, script.wakeups));
      var rest := RoundIsARun(open.snapped, d, script, s);
      RunsAppend(s0, first, open.waiting, waited, open.snapped);
      RunsAppend(s0, first + waited, open.snapped, rest, s);
      steps := first + waited + rest;
    }
  }

  /** Turn by turn: one state and one opening per turn, the scripts in order, until the goroutine
      returns or the scripts are used up. */
  ghost predicate TurnsTo(d: nat, scripts: seq<RoundScript>, states: seq<State>, opens: seq<Opening>) {
    TurnsSoFar(d, scripts, states, opens) && (|opens| == |scripts| || Gone(states[|opens|], d))
  }

  /** The goroutine's turns are a run, so from a reachable state they lead to a reachable state,
      and all that is proved of runs is true of them. */
  lemma {:induction false} TurnsAreARun(s00: State, before: seq<Step>, d: nat, scripts: seq<RoundScript>,
                                        states: seq<State>, opens: seq<Opening>, n: nat)
      returns (steps: seq<Step>)
    requires TurnsSoFar(d, scripts, states, opens) && n <= |opens| && Runs(s00, before, states[0])
    ensures Runs(s00, before + steps, states[n])
  {
    if n == 0 {
      steps := [];
      assert before + steps == before;
    } else {
      var init := TurnsAreARun(s00, before, d, scripts, states, opens, n - 1);
      steps := OneTurnRuns(s00, before, init, d, scripts, states, opens, n - 1);
    }
  }

  lemma OneTurnRuns(s00: State, before: seq<Step>, init: seq<Step>, d: nat, scripts: seq<RoundScript>,
                    states: seq<State>, opens: seq<Opening>, n: nat)
      returns (steps: seq<Step>)
    requires TurnsSoFar(d, scripts, states, opens) && n < |opens| && Runs(s00, before + init, states[n])
    ensures Runs(s00, before + steps, states[n + 1])
  {
    assert TurnFrom(states[n], d, scripts[n], opens[n], states[n + 1]);
    var turn := TurnIsARun(states[n], d, scripts[n], opens[n], states[n + 1]);
    RunsAppend(s00, before + init, states[n], turn, states[n + 1]);
    steps := init + turn;
    Regroup(before, init, turn);
  }

  /** So is the goroutine with its start. */
  lemma GoroutineIsARun(s00: State, before: seq<Step>, s0: State, d: nat, scripts: seq<RoundScript>,
                        states: seq<State>, opens: seq<Opening>)
      returns (steps: seq<Step>)
    requires Runs(s00, before, s0) && 1 <= s0.cap && Enabled(s0, Start(d))
    requires TurnsTo(d, scripts, states, opens) && states[0] == Next(s0, Start(d))
    ensures Runs(s00, before + steps, states[|opens|])
  {
    RunsOne(s0, Start(d), states[0]);
    RunsAppend(s00, before, s0, [Start(d)], states[0]);
    var turns := TurnsAreARun(s00, before + [Start(d)], d, scripts, states, opens, |opens|);
    steps := [Start(d)] + turns;
    assert before + [Start(d)] + turns == before + steps;
  }

  // ---- the goroutine ----

  /** The loop body for one item once its verdict is known, on the goroutine's own variables. */
  method JudgeOne(item: Item, verdict: Verdict, attempts0: map<int, nat>, backoff0: nat, lastAcked0: int,
                  ghost x: Deliverer)
    returns (attempts: map<int, nat>, backoff: nat, lastAcked: int, failed: bool)
    requires x.phase.Round? && x.phase.i < |x.phase.snap| && item == x.phase.snap[x.phase.i]
    requires x.attempts == attempts0 && x.backoff == backoff0 && x.phase.lastAcked == lastAcked0
    ensures var i := if failed then x.phase.i else x.phase.i + 1;
            Judged(x, verdict) ==
            Deliverer(Round(x.phase.snap, i, lastAcked, if failed then Broke else Check), attempts, backoff, x.stopped)
    ensures backoff == if verdict.Accepted? then 1 else backoff0
    ensures !verdict.Rejected? ==> !failed && lastAcked == item.id + 1 && attempts == attempts0 - {item.id}
    ensures verdict.Rejected? ==>
              var n := (if item.id in attempts0 then attempts0[item.id] else 0) + 1;
              if n >= 8 then !failed && lastAcked == item.id + 1 && attempts == attempts0 - {item.id}
              else failed && lastAcked == lastAcked0 && attempts == attempts0[item.id := n]
  {
    attempts, backoff, lastAcked, failed := attempts0, backoff0, lastAcked0, false;
    if verdict == Untranslatable {
      lastAcked := item.id + 1;
      attempts := attempts - {item.id};
    } else if verdict == Accepted {
      lastAcked := item.id + 1;
      attempts := attempts - {item.id};
      backoff := 1;
    } else {
      var n := (if item.id in attempts then attempts[item.id] else 0) + 1;
      attempts := attempts[item.id := n];
      if n >= MAX_ATTEMPTS {
        lastAcked := item.id + 1;
        attempts := attempts - {item.id};
        assert attempts == attempts0 - {item.id};
      } else {
        failed := true;
      }
    }
  }

  ghost predicate New(t0: seq<Event>, t: seq<Event>, e: Event) { t0 <= t && e in t[|t0|..] }

  /** What happens to an update with this verdict. */
  ghost predicate Dealt(t0: seq<Event>, t: seq<Event>, d: nat, id: int, v: Verdict, failed: bool) {
    && t0 <= t
    && (v.Untranslatable? ==> New(t0, t, Skipped(id)) && !failed)
    && (v.Accepted? ==> New(t0, t, Posted(d, id)) && !failed)
    && (v.Rejected? ==> New(t0, t, Failed(d, id)) && (!failed ==> New(t0, t, Abandoned(d, id))))
  }

  lemma DealtLonger(a0: seq<Event>, t0: seq<Event>, t: seq<Event>, b: seq<Event>, d: nat, id: int, v: Verdict,
                    failed: bool)
    requires Dealt(t0, t, d, id, v, failed) && a0 <= t0 && t <= b
    ensures Dealt(a0, b, d, id, v, failed)
  {
    assert forall e :: e in t[|t0|..] ==> e in b[|a0|..] by {
      forall e | e in t[|t0|..] ensures e in b[|a0|..] {
        var k :| 0 <= k < |t| - |t0| && t[|t0|..][k] == e;
        assert b[|a0|..][|t0| - |a0| + k] == e;
      }
    }
  }

  /** The work on a snapshot: one update after the other is skipped, posted or abandoned, up to a
      closed stop channel, a failure that is to be tried again, or the end. */
  ghost predicate Works(t0: seq<Event>, t: seq<Event>, d: nat, snap: seq<Item>, script: nat -> ItemScript, n: nat) {
    && n <= |snap| && t0 <= t
    && (forall k :: 0 <= k < n ==> !script(k).stop && Dealt(t0, t, d, snap[k].id, script(k).verdict, false))
  }

  ghost predicate Worked(t0: seq<Event>, t: seq<Event>, d: nat, snap: seq<Item>, script: nat -> ItemScript, n: nat) {
    && Works(t0, t, d, snap, script, n)
    && (n == |snap| || script(n).stop || (script(n).verdict.Rejected? && New(t0, t, Failed(d, snap[n].id))))
  }

  /** The loop over a snapshot stands at item n, which may have failed. */
  ghost predicate WorkedTo(t0: seq<Event>, t: seq<Event>, d: nat, snap: seq<Item>, script: nat -> ItemScript, n: nat,
                           failed: bool) {
    if failed then Worked(t0, t, d, snap, script, n) else Works(t0, t, d, snap, script, n)
  }

  /** So with the first hundred updates of a buffer. */
  ghost predicate WorkedOff(t0: seq<Event>, t: seq<Event>, d: nat, items: seq<Item>, script: nat -> ItemScript) {
    exists snap: seq<Item>, n: nat :: FirstFrom(items, snap, 0, 100) && Worked(t0, t, d, snap, script, n)
  }

  lemma WorkedLonger(a0: seq<Event>, t0: seq<Event>, t: seq<Event>, b: seq<Event>, d: nat, snap: seq<Item>,
                     script: nat -> ItemScript, n: nat)
    requires a0 <= t0 && t <= b
    requires Works(t0, t, d, snap, script, n)
    ensures Works(a0, b, d, snap, script, n)
    ensures Worked(t0, t, d, snap, script, n) ==> Worked(a0, b, d, snap, script, n)
  {
    forall k | 0 <= k < n ensures Dealt(a0, b, d, snap[k].id, script(k).verdict, false) {
      DealtLonger(a0, t0, t, b, d, snap[k].id, script(k).verdict, false);
    }
    if Worked(t0, t, d, snap, script, n) && n < |snap| && !script(n).stop {
      assert Dealt(t0, t, d, snap[n].id, Rejected, true);
      DealtLonger(a0, t0, t, b, d, snap[n].id, Rejected, true);
    }
  }

  lemma WorksOne(t0: seq<Event>, t: seq<Event>, t': seq<Event>, d: nat, snap: seq<Item>, script: nat -> ItemScript,
                 n: nat, failed: bool)
    requires Works(t0, t, d, snap, script, n) && n < |snap| && !script(n).stop
    requires Dealt(t, t', d, snap[n].id, script(n).verdict, failed)
    ensures if failed then Worked(t0, t', d, snap, script, n) else Works(t0, t', d, snap, script, n + 1)
  {
    WorkedLonger(t0, t0, t, t', d, snap, script, n);
    DealtLonger(t0, t, t', t', d, snap[n].id, script(n).verdict, failed);
  }

  /** The stop check that finds the channel open, and the verdict. */
  lemma JudgeRuns(t: State, d: nat, v: Verdict) returns (s: State)
    requires 1 <= t.cap && AtItem(t, d, Check) && !t.dels[d].stopped
    ensures Runs(t, [Pass(d), Judge(d, v)], s)
    ensures s.cap == t.cap && s.history == t.history && s.items == t.items && s.lock == t.lock
    ensures d in s.dels && s.dels[d] == Judged(t.dels[d], v)
    ensures Dealt(t.trace, s.trace, d, t.dels[d].phase.snap[t.dels[d].phase.i].id, v, s.dels[d].phase.stage.Broke?)
  {
    var p := Next(t, Pass(d));
    s := JudgeStep(p, d, v);
    RunsTwo(t, Pass(d), p, Judge(d, v), s);
    EventsDeal(t.trace, d, p.dels[d], v, s.trace);
  }

  lemma EventsDeal(t0: seq<Event>, d: nat, x: Deliverer, v: Verdict, t: seq<Event>)
    requires x.phase.Round? && x.phase.i < |x.phase.snap| && t == t0 + JudgeEvents(d, x, v)
    ensures Dealt(t0, t, d, x.phase.snap[x.phase.i].id, v, v.Rejected? && !LastChance(x))
  {
    var id, es := x.phase.snap[x.phase.i].id, JudgeEvents(d, x, v);
    assert t[|t0|..] == es;
    if v.Rejected? {
      assert es[0] == Failed(d, id) && (LastChance(x) ==> es[1] == Abandoned(d, id));
    } else {
      assert es[0] == if v.Accepted? then Posted(d, id) else Skipped(id);
    }
  }

  /** The loop body for one item: the stop check, then the translation and the POST. */
  method DeliverOne(buf: UpdateBuffer, d: nat, item: Item, script: ItemScript,
                    attempts0: map<int, nat>, backoff0: nat, lastAcked0: int, ghost s0: State)
    returns (stopped: bool, attempts: map<int, nat>, backoff: nat, lastAcked: int, failed: bool, ghost s: State)
    requires Mirrors(buf, s0) && AtItem(s0, d, Check) && !s0.dels[d].stopped
    requires s0.dels[d].attempts == attempts0 && s0.dels[d].backoff == backoff0
    requires s0.dels[d].phase.lastAcked == lastAcked0
    requires item == s0.dels[d].phase.snap[s0.dels[d].phase.i]
    modifies buf, buf.items
    ensures Mirrors(buf, s) && Runs(s0, ItemSteps(d, script), s) && s.lock == s0.lock && d in s.dels
    ensures buf.items == old(buf.items) || fresh(buf.items)
    ensures stopped == script.stop
    ensures if stopped then
              s.dels[d] == s0.dels[d] && attempts == attempts0 && backoff == backoff0 && lastAcked == lastAcked0 && !failed
            else
              && s.dels[d] == Judged(s0.dels[d], script.verdict)
              && s.dels[d].attempts == attempts && s.dels[d].backoff == backoff && !s.dels[d].stopped
              && s.dels[d].phase.lastAcked == lastAcked && s.dels[d].phase.stage.Broke? == failed
              && Dealt(s0.trace, s.trace, d, item.id, script.verdict, failed)
  {
    s := Meanwhile(buf, script.acts, s0);
    stopped, attempts, backoff, lastAcked, failed := script.stop, attempts0, backoff0, lastAcked0, false;
    if stopped {
      assert ItemSteps(d, script) == Externals(script.acts);
    } else {
      ghost var t := s;
      s := JudgeRuns(t, d, script.verdict);
      RunsAppend(s0, Externals(script.acts), t, [Pass(d), Judge(d, script.verdict)], s);
      RunsLog(s0, Externals(script.acts), t);
      DealtLonger(s0.trace, t.trace, s.trace, s.trace, d, item.id, script.verdict, s.dels[d].phase.stage.Broke?);
      attempts, backoff, lastAcked, failed := JudgeOne(item, script.verdict, attempts, backoff, lastAcked, t.dels[d]);
    }
  }

  /** Of the loop that starts with x0 these steps are done, and x is where it stands. */
  ghost predicate Halfway(d: nat, x0: Deliverer, script: nat -> ItemScript, done: seq<Step>, x: Deliverer) {
    && x0.phase.Round? && x.phase.Round?
    && done + BatchSteps(d, x, script) == BatchSteps(d, x0, script)
    && BatchStops(x, script) == BatchStops(x0, script)
  }

  /** One item fewer to go. */
  lemma BatchNext(d: nat, x0: Deliverer, script: nat -> ItemScript, done: seq<Step>, x: Deliverer)
    requires Halfway(d, x0, script, done, x) && x.phase.i < |x.phase.snap| && x.phase.stage.Check?
    ensures var sc, now := script(x.phase.i), done + ItemSteps(d, script(x.phase.i));
            if sc.stop then now == BatchSteps(d, x0, script) && BatchStops(x0, script)
            else Halfway(d, x0, script, now, Judged(x, sc.verdict))
  {
    var sc := script(x.phase.i);
    var item := ItemSteps(d, sc);
    if sc.stop {
      assert BatchSteps(d, x, script) == item + [];
      assert item + [] == item;
    } else {
      var rest := BatchSteps(d, Judged(x, sc.verdict), script);
      assert BatchSteps(d, x, script) == item + rest;
      Regroup(done, item, rest);
    }
  }

  /** The loop over one snapshot. */
  method DeliverBatch(buf: UpdateBuffer, d: nat, items: array<Item>, attempts0: map<int, nat>, backoff0: nat,
                      script: nat -> ItemScript, ghost s0: State)
    returns (stopped: bool, lastAcked: int, anyFailure: bool, attempts: map<int, nat>, backoff: nat, ghost s: State)
    requires Mirrors(buf, s0) && items != buf.items && items.Length > 0
    requires d in s0.dels && s0.dels[d] == Deliverer(Round(items[..], 0, 0, Check), attempts0, backoff0, false)
    modifies buf, buf.items
    ensures Mirrors(buf, s) && Runs(s0, BatchSteps(d, s0.dels[d], script), s) && s.lock == s0.lock
    ensures buf.items == old(buf.items) || fresh(buf.items)
    ensures stopped == BatchStops(s0.dels[d], script)
    ensures d in s.dels && s.dels[d].phase.Round? && s.dels[d].phase.lastAcked == lastAcked
    ensures s.dels[d].attempts == attempts && s.dels[d].backoff == backoff && !s.dels[d].stopped
    ensures s.dels[d].phase.stage.Broke? == anyFailure
    ensures if stopped then AtItem(s, d, Check) else LoopLeft(s, d)
    ensures Worked(s0.trace, s.trace, d, old(items[..]), script, s.dels[d].phase.i)
  {
    ghost var snap, x0 := items[..], s0.dels[d];
    ghost var done: seq<Step> := [];
    attempts, backoff, lastAcked, anyFailure, stopped := attempts0, backoff0, 0, false, false;
    s := s0;
    RunsNone(s0);
    var i := 0;
    assert Halfway(d, x0, script, [], x0);
    while i < items.Length && !anyFailure
      invariant 0 <= i <= items.Length && items[..] == snap && items != buf.items
      invariant Mirrors(buf, s) && Runs(s0, done, s) && s.lock == s0.lock && !stopped
      invariant buf.items == old(buf.items) || fresh(buf.items)
      invariant d in s.dels && s.dels[d] ==
                Deliverer(Round(snap, i, lastAcked, if anyFailure then Broke else Check), attempts, backoff, false)
      invariant Halfway(d, x0, script, done, s.dels[d])
      invariant WorkedTo(s0.trace, s.trace, d, snap, script, i, anyFailure)
      decreases items.Length - i, !anyFailure
    {
      ghost var t := s;
      BatchNext(d, x0, script, done, t.dels[d]);
      stopped, attempts, backoff, lastAcked, anyFailure, s :=
        DeliverOne(buf, d, items[i], script(i), attempts, backoff, lastAcked, t);
      done := BatchGrows(s0, done, t, d, snap, script, i, anyFailure, s);
      if stopped {
        return;
      }
      if !anyFailure {
        i := i + 1;
      }
    }
    BatchDone(d, x0, script, done, s.dels[d]);
  }

  /** One item more, or a stop before it. */
  lemma BatchGrows(s0: State, done: seq<Step>, t: State, d: nat, snap: seq<Item>, script: nat -> ItemScript, n: nat,
                   failed: bool, s: State)
      returns (done': seq<Step>)
    requires Runs(s0, done, t) && Runs(t, ItemSteps(d, script(n)), s)
    requires WorkedTo(s0.trace, t.trace, d, snap, script, n, false) && n < |snap|
    requires !script(n).stop ==> Dealt(t.trace, s.trace, d, snap[n].id, script(n).verdict, failed)
    ensures done' == done + ItemSteps(d, script(n)) && Runs(s0, done', s)
    ensures if script(n).stop then Worked(s0.trace, s.trace, d, snap, script, n)
            else WorkedTo(s0.trace, s.trace, d, snap, script, if failed then n else n + 1, failed)
  {
    done' := done + ItemSteps(d, script(n));
    RunsAppend(s0, done, t, ItemSteps(d, script(n)), s);
    if script(n).stop {
      RunsLog(t, ItemSteps(d, script(n)), s);
      WorkedLonger(s0.trace, s0.trace, t.trace, s.trace, d, snap, script, n);
    } else {
      WorksOne(s0.trace, t.trace, s.trace, d, snap, script, n, failed);
    }
  }

  lemma BatchDone(d: nat, x0: Deliverer, script: nat -> ItemScript, done: seq<Step>, x: Deliverer)
    requires Halfway(d, x0, script, done, x) && (x.phase.i >= |x.phase.snap| || !x.phase.stage.Check?)
    ensures done == BatchSteps(d, x0, script) && !BatchStops(x0, script)
  {
    assert done + [] == done;
  }

  /** One turn of the deliverer's endless loop, from a state in which the drain lock is free.
      `done` says that the stop was seen and the goroutine returned. */
  method Turn(buf: UpdateBuffer, d: nat, attempts0: map<int, nat>, backoff0: nat, script: RoundScript, ghost s0: State)
    returns (done: bool, attempts: map<int, nat>, backoff: nat, ghost open: Opening, ghost s: State)
    requires Mirrors(buf, s0) && AtTop(s0, d, attempts0, backoff0)
    modifies buf, buf.items
    ensures Mirrors(buf, s) && TurnTo(s0, d, script, open, s)
    ensures buf.items == old(buf.items) || fresh(buf.items)
    ensures if done then Gone(s, d) else AtTop(s, d, attempts, backoff)
    ensures script.stopAtTop ==> done && buf.Contents() == old(buf.Contents())
    // the wait: wake-ups pass until an item is there or one of them ends it
    ensures !script.stopAtTop ==> WaitsTo(open.waiting, 0, 30, script.wakeups, open.snapped)
    ensures !script.stopAtTop ==> PushEndsIt(open.waiting, script.wakeups, open.snapped)
    // the work: the first hundred updates, up to a stop or a failure
    ensures !script.stopAtTop ==> WorkedOff(s0.trace, s.trace, d, open.snapped.items, script.item)
  {
    if script.stopAtTop {
      s := StopAtTop(s0, d);
      done, attempts, backoff, open := true, attempts0, backoff0, Opening(s0, s0);
    } else {
      var items;
      items, open := OpenTurn(buf, d, script, s0);
      done, attempts, backoff, s := RestOfTurn(buf, d, items, attempts0, backoff0, script, open, s0);
    }
  }

  method RestOfTurn(buf: UpdateBuffer, d: nat, items: array<Item>, attempts0: map<int, nat>, backoff0: nat,
                    script: RoundScript, ghost open: Opening, ghost s0: State)
    returns (done: bool, attempts: map<int, nat>, backoff: nat, ghost s: State)
    requires Mirrors(buf, open.snapped) && open.snapped.lock == Delivering(d) && d in open.snapped.dels
    requires open.snapped.dels[d] == Deliverer(Listening, attempts0, backoff0, false)
    requires items != buf.items && items[..] == Snapshot(open.snapped.items, 0, 100)
    requires 1 <= open.waiting.cap && Runs(s0, [Look(d), Take(d)] + Externals(script.before), open.waiting)
    requires Runs(open.waiting, Externals(WaitedActs(open.waiting, 0, 30, script.wakeups)), open.snapped)
    requires !script.stopAtTop
    modifies buf, buf.items
    ensures Mirrors(buf, s) && TurnTo(s0, d, script, open, s)
    ensures buf.items == old(buf.items) || fresh(buf.items)
    ensures if done then Gone(s, d) else AtTop(s, d, attempts, backoff)
    ensures WorkedOff(s0.trace, s.trace, d, open.snapped.items, script.item)
  {
    ghost var n;
    assert IsTail(open.snapped.items, open.snapped.history, Lo(open.snapped));
    done, attempts, backoff, n, s := DeliverRound(buf, d, items, attempts0, backoff0, script, open.snapped);
    TurnWorks(s0, d, script, open, s, n);
  }

  /** The first half of a turn: the drain lock is taken, and the wait is for a hundred updates and
      half a minute. */
  method OpenTurn(buf: UpdateBuffer, d: nat, script: RoundScript, ghost s0: State)
    returns (items: array<Item>, ghost open: Opening)
    requires Mirrors(buf, s0) && d in s0.dels && s0.dels[d].phase.Top? && !s0.dels[d].stopped && s0.lock.Free?
    modifies buf, buf.items
    ensures Mirrors(buf, open.snapped) && open.snapped.lock == Delivering(d)
    ensures d in open.snapped.dels && open.snapped.dels[d] == s0.dels[d].(phase := Listening)
    ensures buf.items == old(buf.items) || fresh(buf.items)
    ensures fresh(items) && items != buf.items && items[..] == Snapshot(open.snapped.items, 0, 100)
    ensures 1 <= open.waiting.cap && Runs(s0, [Look(d), Take(d)] + Externals(script.before), open.waiting)
    ensures Runs(open.waiting, Externals(WaitedActs(open.waiting, 0, 30, script.wakeups)), open.snapped)
    ensures WaitsTo(open.waiting, 0, 30, script.wakeups, open.snapped)
    ensures PushEndsIt(open.waiting, script.wakeups, open.snapped)
  {
    ghost var a := TakeLock(buf, d, script.before, s0);
    ghost var m;
    items, m := Await(buf, 0, 100, 30, script.wakeups, a);
    WaitHappens(a, 0, 30, script.wakeups, m);
    PushIsTaken(a, script.wakeups, m);
    open := Opening(a, m);
  }

  lemma TurnWorks(s0: State, d: nat, script: RoundScript, open: Opening, s: State, n: nat)
    requires !script.stopAtTop && TurnTo(s0, d, script, open, s)
    requires IsTail(open.snapped.items, open.snapped.history, Lo(open.snapped))
    requires Worked(open.snapped.trace, s.trace, d, Snapshot(open.snapped.items, 0, 100), script.item, n)
    ensures WorkedOff(s0.trace, s.trace, d, open.snapped.items, script.item)
  {
    SnapshotFirst(open.snapped.items, open.snapped.history, Lo(open.snapped), 0, 100);
    RunsLog(s0, [Look(d), Take(d)] + Externals(script.before), open.waiting);
    RunsLog(open.waiting, Externals(WaitedActs(open.waiting, 0, 30, script.wakeups)), open.snapped);
    var snap := Snapshot(open.snapped.items, 0, 100);
    WorkedLonger(s0.trace, open.snapped.trace, s.trace, s.trace, d, snap, script.item, n);
  }

  lemma PushIsTaken(a: State, wakeups: seq<Wakeup>, m: State)
    requires 1 <= a.cap
    requires Queue(m.items, NextID(m)) == ApplyAll(Queue(a.items, NextID(a)), a.cap, WaitedActs(a, 0, 30, wakeups))
    ensures PushEndsIt(a, wakeups, m)
  {
    var q := Queue(a.items, NextID(a));
    if a.items == [] && wakeups != [] && !Ends(wakeups[0]) {
      forall u | wakeups[0].acts == [Push(u)] ensures m.items == [Item(|a.history| + 1, u)] {
        PushEndsWait(q, a.cap, wakeups, u);
      }
    }
  }

  lemma PushEndsWait(q: Queue, cap: nat, wakeups: seq<Wakeup>, u: Update)
    requires 1 <= cap && q.items == [] && q.nextID >= 1
    requires wakeups != [] && !Ends(wakeups[0]) && wakeups[0].acts == [Push(u)]
    ensures ApplyAll(q, cap, WaitActs(q, cap, 0, wakeups)).items == [Item(q.nextID, u)]
  {
    var q' := Apply(q, cap, Push(u));
    assert ApplyAll(q, cap, [Push(u)]) == ApplyAll(q', cap, [Push(u)][1..]);
    assert q'.items == [Item(q.nextID, u)] && q'.items[0].id >= 0;
    assert WaitActs(q', cap, 0, wakeups[1..]) == [];
    assert WaitActs(q, cap, 0, wakeups) == [Push(u)] + [];
    assert [Push(u)] + [] == [Push(u)];
  }

  lemma StopAtTop(s0: State, d: nat) returns (s: State)
    requires 1 <= s0.cap && d in s0.dels && s0.dels[d].phase.Top? && s0.lock.Free?
    ensures Runs(s0, [Stop(d), Look(d)], s) && Gone(s, d)
    ensures s.cap == s0.cap && s.history == s0.history && s.items == s0.items
  {
    var t := Next(s0, Stop(d));
    s := Next(t, Look(d));
    RunsTwo(s0, Stop(d), t, Look(d), s);
  }

  /** The head of a turn: the channel is open, the drain lock is taken, others have a turn. */
  method TakeLock(buf: UpdateBuffer, d: nat, acts: seq<Action>, ghost s0: State) returns (ghost a: State)
    requires Mirrors(buf, s0) && d in s0.dels && s0.dels[d].phase.Top? && !s0.dels[d].stopped && s0.lock.Free?
    modifies buf, buf.items
    ensures Mirrors(buf, a) && Runs(s0, [Look(d), Take(d)] + Externals(acts), a)
    ensures a.lock == Delivering(d) && d in a.dels && a.dels[d] == s0.dels[d].(phase := Listening)
    ensures buf.items == old(buf.items) || fresh(buf.items)
  {
    ghost var s2 := TakeRuns(s0, d);
    a := Meanwhile(buf, acts, s2);
    RunsAppend(s0, [Look(d), Take(d)], s2, Externals(acts), a);
  }

  lemma TakeRuns(s0: State, d: nat) returns (s: State)
    requires 1 <= s0.cap && d in s0.dels && s0.dels[d].phase.Top? && !s0.dels[d].stopped && s0.lock.Free?
    ensures Runs(s0, [Look(d), Take(d)], s)
    ensures s.lock == Delivering(d) && d in s.dels && s.dels[d] == s0.dels[d].(phase := Listening)
    ensures s.cap == s0.cap && s.history == s0.history && s.items == s0.items
  {
    var t := Next(s0, Look(d));
    s := Next(t, Take(d));
    RunsTwo(s0, Look(d), t, Take(d), s);
  }

  lemma ListenRuns(m: State, d: nat, snap: seq<Item>) returns (r: State)
    requires 1 <= m.cap && m.lock == Delivering(d) && d in m.dels && m.dels[d].phase.Listening?
    requires snap == Snapshot(m.items, 0, 100)
    ensures Runs(m, [Listen(d)], r) && d in r.dels
    ensures r.cap == m.cap && r.history == m.history && r.items == m.items
    ensures if snap == [] then r.lock.Free? && r.dels[d] == m.dels[d].(phase := Top)
            else r.lock == m.lock && r.dels[d] == m.dels[d].(phase := Round(snap, 0, 0, Check))
  {
    r := ListenStep(m, d);
    RunsOne(m, Listen(d), r);
  }

  /** The rest of a turn: an empty snapshot ends it. */
  method DeliverRound(buf: UpdateBuffer, d: nat, items: array<Item>, attempts0: map<int, nat>, backoff0: nat,
               script: RoundScript, ghost m: State)
    returns (done: bool, attempts: map<int, nat>, backoff: nat, ghost n: nat, ghost s: State)
    requires Mirrors(buf, m) && m.lock == Delivering(d) && d in m.dels
    requires m.dels[d] == Deliverer(Listening, attempts0, backoff0, false)
    requires items != buf.items && items[..] == Snapshot(m.items, 0, 100)
    modifies buf, buf.items
    ensures Mirrors(buf, s) && RoundTo(m, d, script, s)
    ensures buf.items == old(buf.items) || fresh(buf.items)
    ensures if done then Gone(s, d) else AtTop(s, d, attempts, backoff)
    ensures Worked(m.trace, s.trace, d, old(items[..]), script.item, n)
  {
    ghost var snap := items[..];
    ghost var r := ListenRuns(m, d, snap);
    RunsLog(m, [Listen(d)], r);
    assert items.Length == 0 <==> snap == [];
    if items.Length == 0 {
      return false, attempts0, backoff0, 0, r;
    }
    ghost var u;
    var stopped, lastAcked, anyFailure;
    stopped, lastAcked, anyFailure, attempts, backoff, u :=
      DeliverBatch(buf, d, items, attempts0, backoff0, script.item, r);
    n := u.dels[d].phase.i;
    done, backoff, s := EndRound(buf, d, lastAcked, stopped, anyFailure, attempts, backoff, script.stopInSleep, u);
    RunsLog(u, EndSteps(d, stopped, anyFailure, script.stopInSleep), s);
    WorkedLonger(m.trace, r.trace, u.trace, s.trace, d, snap, script.item, n);
  }

  /** What follows the loop over a snapshot: ack, release, and after a failure the sleep. */
  method EndRound(buf: UpdateBuffer, d: nat, lastAcked: int, stopped: bool, anyFailure: bool,
                  ghost attempts: map<int, nat>, backoff0: nat, stopInSleep: bool, ghost u: State)
    returns (done: bool, backoff: nat, ghost s: State)
    requires Mirrors(buf, u) && d in u.dels && u.lock == Delivering(d) && u.dels[d].phase.Round?
    requires u.dels[d].phase.lastAcked == lastAcked && u.dels[d].phase.stage.Broke? == anyFailure
    requires u.dels[d].attempts == attempts && u.dels[d].backoff == backoff0 && !u.dels[d].stopped
    requires if stopped then AtItem(u, d, Check) else LoopLeft(u, d)
    modifies buf, buf.items
    ensures Mirrors(buf, s) && Runs(u, EndSteps(d, stopped, anyFailure, stopInSleep), s)
    ensures buf.items == old(buf.items)
    ensures if done then Gone(s, d) else AtTop(s, d, attempts, backoff)
    ensures done <==> stopped || (anyFailure && stopInSleep)
    ensures !done ==> backoff == if !anyFailure then backoff0 else if 2 * backoff0 > 300 then 300 else 2 * backoff0
  {
    backoff := backoff0;
    if lastAcked > 0 {
      buf.Ack(lastAcked);
    }
    if stopped {
      s := QuitRuns(u, d);
      return true, backoff, s;
    }
    ghost var c := CloseRuns(u, d);
    if !anyFailure {
      return false, backoff, c;
    }
    if stopInSleep {
      s := WakeStoppedRuns(u, c, d);
      return true, backoff, s;
    }
    s := WakeRuns(u, c, d);
    backoff := backoff * 2;
    if backoff > MAX_BACKOFF {
      backoff := MAX_BACKOFF;
    }
    done := false;
  }

  lemma QuitRuns(u: State, d: nat) returns (s: State)
    requires 1 <= u.cap && AtItem(u, d, Check)
    ensures Runs(u, [Stop(d), Quit(d)], s) && Gone(s, d)
    ensures s.cap == u.cap && s.history == u.history && s.items == AckIfAny(u.items, u.dels[d].phase.lastAcked)
  {
    var t := Next(u, Stop(d));
    s := ReleaseStep(t, d, Returned);
    RunsTwo(u, Stop(d), t, Quit(d), s);
  }

  lemma CloseRuns(u: State, d: nat) returns (c: State)
    requires 1 <= u.cap && LoopLeft(u, d)
    ensures Runs(u, [Close(d)], c) && d in c.dels && c.lock.Free?
    ensures c.cap == u.cap && c.history == u.history && c.items == AckIfAny(u.items, u.dels[d].phase.lastAcked)
    ensures c.dels[d] == u.dels[d].(phase := if u.dels[d].phase.stage.Broke? then Sleeping else Top)
  {
    c := CloseStep(u, d);
    RunsOne(u, Close(d), c);
  }

  lemma WakeRuns(u: State, c: State, d: nat) returns (s: State)
    requires Runs(u, [Close(d)], c) && 1 <= c.cap && d in c.dels && c.dels[d].phase.Sleeping? && c.lock.Free?
    ensures Runs(u, [Close(d), Wake(d, true)], s) && d in s.dels && s.lock.Free?
    ensures s.cap == c.cap && s.history == c.history && s.items == c.items
    ensures s.dels[d] == c.dels[d].(phase := Top, backoff := NextBackoff(c.dels[d].backoff))
  {
    s := WakeStep(c, d, true);
    RunsOne(c, Wake(d, true), s);
    RunsAppend(u, [Close(d)], c, [Wake(d, true)], s);
    assert [Close(d)] + [Wake(d, true)] == [Close(d), Wake(d, true)];
  }

  lemma WakeStoppedRuns(u: State, c: State, d: nat) returns (s: State)
    requires Runs(u, [Close(d)], c) && 1 <= c.cap && d in c.dels && c.dels[d].phase.Sleeping? && c.lock.Free?
    ensures Runs(u, [Close(d), Stop(d), Wake(d, false)], s) && Gone(s, d)
    ensures s.cap == c.cap && s.history == c.history && s.items == c.items
  {
    var t := Next(c, Stop(d));
    s := WakeStep(t, d, false);
    RunsTwo(c, Stop(d), t, Wake(d, false), s);
    RunsAppend(u, [Close(d)], c, [Stop(d), Wake(d, false)], s);
    assert [Close(d)] + [Stop(d), Wake(d, false)] == [Close(d), Stop(d), Wake(d, false)];
  }

  /** The goroutine of one deliverer, for as many turns as there are scripts. */
  method Run(buf: UpdateBuffer, d: nat, scripts: seq<RoundScript>, ghost s0: State)
    returns (done: bool, ghost states: seq<State>, ghost opens: seq<Opening>)
    requires Mirrors(buf, s0) && s0.lock.Free? && d !in s0.dels
    modifies buf, buf.items
    ensures TurnsTo(d, scripts, states, opens) && states[0] == Next(s0, Start(d))
    ensures Mirrors(buf, states[|opens|]) && states[|opens|].lock.Free?
    ensures done <==> Gone(states[|opens|], d)
    // every turn waits
    ensures forall k :: 0 <= k < |opens| && !scripts[k].stopAtTop ==>
              WaitsTo(opens[k].waiting, 0, 30, scripts[k].wakeups, opens[k].snapped)
  {
    var backoff := 1;
    var attempts: map<int, nat> := map[];
    ghost var s := Next(s0, Start(d));
    states, opens := [s], [];
    done := false;
    var k := 0;
    while k < |scripts| && !done
      invariant 0 <= k <= |scripts| && |states| == k + 1 && |opens| == k && states[0] == Next(s0, Start(d))
      invariant s == states[k] && Mirrors(buf, s)
      invariant buf.items == old(buf.items) || fresh(buf.items)
      invariant if done then Gone(s, d) else AtTop(s, d, attempts, backoff)
      invariant TurnsSoFar(d, scripts, states, opens)
    {
      ghost var t, open := s, Opening(s, s);
      done, attempts, backoff, open, s := Turn(buf, d, attempts, backoff, scripts[k], t);
      OneTurn(d, scripts, states, opens, open, s);
      states, opens := states + [s], opens + [open];
      k := k + 1;
    }
    TurnsWait(d, scripts, states, opens);
  }

  lemma TurnsWait(d: nat, scripts: seq<RoundScript>, states: seq<State>, opens: seq<Opening>)
    requires TurnsSoFar(d, scripts, states, opens)
    ensures forall k :: 0 <= k < |opens| && !scripts[k].stopAtTop ==>
              WaitsTo(opens[k].waiting, 0, 30, scripts[k].wakeups, opens[k].snapped)
  {
    forall k | 0 <= k < |opens| && !scripts[k].stopAtTop
      ensures WaitsTo(opens[k].waiting, 0, 30, scripts[k].wakeups, opens[k].snapped)
    {
      assert TurnFrom(states[k], d, scripts[k], opens[k], states[k + 1]);
    }
  }

  ghost predicate TurnsSoFar(d: nat, scripts: seq<RoundScript>, states: seq<State>, opens: seq<Opening>) {
    && |states| == |opens| + 1 && |opens| <= |scripts|
    && forall k :: 0 <= k < |opens| ==> TurnFrom(states[k], d, scripts[k], opens[k], states[k + 1])
  }

  /** One turn of a goroutine that has not returned. */
  ghost predicate TurnFrom(t: State, d: nat, script: RoundScript, open: Opening, s: State) {
    && !Gone(t, d) && TurnTo(t, d, script, open, s)
    && (script.stopAtTop || WaitsTo(open.waiting, 0, 30, script.wakeups, open.snapped))
  }

  lemma OneTurn(d: nat, scripts: seq<RoundScript>, states: seq<State>, opens: seq<Opening>, open: Opening, s: State)
    requires TurnsSoFar(d, scripts, states, opens) && |opens| < |scripts|
    requires TurnFrom(states[|opens|], d, scripts[|opens|], open, s)
    ensures TurnsSoFar(d, scripts, states + [s], opens + [open])
  {
    var states', opens', n := states + [s], opens + [open], |opens|;
    assert states'[n] == states[n] && states'[n + 1] == s && opens'[n] == open;
    assert forall k :: 0 <= k <= n ==> states'[k] == states[k];
    assert forall k :: 0 <= k < n ==> opens'[k] == opens[k];
    forall k | 0 <= k <= n ensures TurnFrom(states'[k], d, scripts[k], opens'[k], states'[k + 1]) {
      assert k < n ==> TurnFrom(states[k], d, scripts[k], opens[k], states[k + 1]);
    }
  }
}
