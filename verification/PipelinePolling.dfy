/** One client that polls with the rolling offset "last received id + 1", no deliverer running,
    while updates keep arriving: what it receives over a whole run. */
module PipelinePolling {
  import opened BufferSpec
  import opened Pipeline

  /** Which updates the translator turns into something. */
  type Translatable = Update -> bool

  /** Everything the client has received, in order. */
  function Delivered(trace: seq<Event>): seq<int> {
    if trace == [] then []
    else
      var e := trace[|trace| - 1];
      Delivered(trace[..|trace| - 1]) + if e.Responded? then e.ids else []
  }

  /** The offset the client sends next. */
  function Cursor(trace: seq<Event>): int {
    var ids := Delivered(trace);
    if ids == [] then 0 else ids[|ids| - 1] + 1
  }

  /** The ids from .. upTo - 1 whose updates are translatable. */
  function Wanted(history: History, t: Translatable, from: int, upTo: int): (ids: seq<int>)
    requires 1 <= from && upTo <= |history| + 1
    decreases upTo - from
  {
    if upTo <= from then []
    else Wanted(history, t, from, upTo - 1) + if t(history[upTo - 2]) then [upTo - 1] else []
  }

  ghost predicate Increasing(ids: seq<int>) {
    forall j, k :: 0 <= j < k < |ids| ==> ids[j] < ids[k]
  }

  ghost predicate NoneWanted(history: History, t: Translatable, from: int, upTo: int)
    requires 1 <= from && upTo <= |history| + 1
  {
    forall k :: from - 1 <= k < upTo - 1 ==> !t(history[k])
  }

  lemma {:induction false} WantedRange(history: History, t: Translatable, from: int, upTo: int)
    requires 1 <= from && upTo <= |history| + 1
    ensures Increasing(Wanted(history, t, from, upTo))
    ensures forall k :: 0 <= k < |Wanted(history, t, from, upTo)| ==>
              from <= Wanted(history, t, from, upTo)[k] < upTo
    decreases upTo - from
  {
    if from < upTo {
      WantedRange(history, t, from, upTo - 1);
    }
  }

  lemma {:induction false} WantedSplit(history: History, t: Translatable, from: int, mid: int, upTo: int)
    requires 1 <= from <= mid <= upTo <= |history| + 1
    ensures Wanted(history, t, from, upTo) == Wanted(history, t, from, mid) + Wanted(history, t, mid, upTo)
    decreases upTo - mid
  {
    if mid < upTo {
      WantedSplit(history, t, from, mid, upTo - 1);
    }
  }

  lemma {:induction false} WantedEmpty(history: History, t: Translatable, from: int, upTo: int)
    requires 1 <= from && upTo <= |history| + 1
    ensures Wanted(history, t, from, upTo) == [] <==> NoneWanted(history, t, from, upTo)
    decreases upTo - from
  {
    if from < upTo {
      WantedEmpty(history, t, from, upTo - 1);
    }
  }

  lemma {:induction false} WantedGrows(history: History, u: Update, t: Translatable, from: int, upTo: int)
    requires 1 <= from && upTo <= |history| + 1
    ensures Wanted(history + [u], t, from, upTo) == Wanted(history, t, from, upTo)
    decreases upTo - from
  {
    if from < upTo {
      WantedGrows(history, u, t, from, upTo - 1);
    }
  }

  /** After the last wanted id of a range nothing in it is wanted. */
  lemma {:induction false} WantedLast(history: History, t: Translatable, from: int, upTo: int)
    requires 1 <= from && upTo <= |history| + 1
    requires Wanted(history, t, from, upTo) != []
    ensures var ids := Wanted(history, t, from, upTo);
            var last := ids[|ids| - 1];
            && from <= last < upTo && NoneWanted(history, t, last + 1, upTo)
            && Wanted(history, t, from, last + 1) == ids
    decreases upTo - from
  {
    if from < upTo && !t(history[upTo - 2]) {
      WantedLast(history, t, from, upTo - 1);
    }
  }

  lemma DeliveredLast(trace: seq<Event>, e: Event)
    ensures Delivered(trace + [e]) == Delivered(trace) + if e.Responded? then e.ids else []
  {
    assert (trace + [e])[..|trace|] == trace;
  }

  // ---- the client's steps and what they keep ----

  /** The steps of a run with this client: pushes into a buffer that is not full, and its own
      calls; no Clear and no deliverer. */
  predicate ClientStep(s: State, st: Step, t: Translatable)
    requires Enabled(s, st)
  {
    if st.External? then st.act.Push? && |s.items| < s.cap
    else if st.PollBegin? then st.offset == Cursor(s.trace)
    else if st.PollTranslate? then st.ok == t(s.lock.poll.snap[s.lock.poll.i].update)
    else st.PollWait? || st.PollFinish?
  }

  ghost predicate ClientRuns(s: State, steps: seq<Step>, s': State, t: Translatable)
    decreases |steps|
  {
    1 <= s.cap &&
    if steps == [] then s' == s
    else
      && Enabled(s, steps[0]) && ClientStep(s, steps[0], t)
      && ClientRuns(Next(s, steps[0]), steps[1..], s', t)
  }

  function Low(s: State): int { Max(1, Cursor(s.trace)) }

  ghost predicate Following(s: State, t: Translatable) {
    && Shape(s) && !s.lock.Delivering?
    && 0 <= Cursor(s.trace) <= NextID(s)
    && Delivered(s.trace) == Wanted(s.history, t, 1, Low(s))
    && NoneWanted(s.history, t, Low(s), Lo(s))
    && (s.lock.Polling? ==> FollowingPoll(s, s.lock.poll, t))
  }

  ghost predicate FollowingPoll(s: State, p: Poll, t: Translatable)
    requires Shape(s) && s.lock == Polling(p)
  {
    && p.offset == Cursor(s.trace) <= Lo(s)
    && (p.Translating? ==>
          && p.snap[0].id == Lo(s)
          && p.out == Wanted(s.history, t, Lo(s), Lo(s) + p.i))
  }

  lemma PushBelowCap(s: State, u: Update)
    requires Shape(s) && |s.items| < s.cap
    ensures var s' := ExternalStep(s, Push(u));
            && Shape(s') && Lo(s') == Lo(s) && s'.trace == s.trace + [Pushed(NextID(s))]
            && s'.history == s.history + [u] && s'.lock == s.lock
  {
    ShapeExternal(s, Push(u));
    assert ExternalStep(s, Push(u)).trace == s.trace + [Pushed(NextID(s))];
  }

  lemma NoneWantedGrows(history: History, u: Update, t: Translatable, from: int, upTo: int)
    requires 1 <= from && upTo <= |history| + 1 && NoneWanted(history, t, from, upTo)
    ensures NoneWanted(history + [u], t, from, upTo)
  {
  }

  lemma FollowingPush(s: State, u: Update, t: Translatable)
    requires Following(s, t) && |s.items| < s.cap
    ensures Following(ExternalStep(s, Push(u)), t)
  {
    PushBelowCap(s, u);
    DeliveredLast(s.trace, Pushed(NextID(s)));
    WantedGrows(s.history, u, t, 1, Low(s));
    NoneWantedGrows(s.history, u, t, Low(s), Lo(s));
    if s.lock.Polling? && s.lock.poll.Translating? {
      WantedGrows(s.history, u, t, Lo(s), Lo(s) + s.lock.poll.i);
    }
  }

  lemma FollowingBegin(s: State, limit: int, c: int, t: Translatable, s': State)
    requires Following(s, t) && c == Cursor(s.trace) && Enabled(s, PollBegin(c, limit))
    requires s' == Next(s, PollBegin(c, limit))
    ensures Following(s', t)
    ensures Lo(s') == Max(Lo(s), c) && Delivered(s'.trace) == Delivered(s.trace)
  {
    ShapePollBegin(s, c, limit);
    if c > 0 {
      DeliveredLast(s.trace, Confirmed(c));
    }
  }

  lemma FollowingWait(s: State, t: Translatable, s': State)
    requires Following(s, t) && Enabled(s, PollWait) && s' == Next(s, PollWait)
    ensures Following(s', t)
  {
    var p := s.lock.poll;
    ShapePollWait(s);
    WaitKeeps(s, s');
    EmptyAnswer(s.trace, s'.trace, p.offset);
    FollowingSame(s, t, s');
  }

  /** A step that moves neither the client nor the buffer. */
  lemma FollowingSame(s: State, t: Translatable, s': State)
    requires Following(s, t) && Shape(s') && s'.history == s.history && s'.items == s.items
    requires Delivered(s'.trace) == Delivered(s.trace)
    requires s.lock.Polling? && s.lock.poll.offset == Cursor(s.trace) <= Lo(s)
    requires s'.lock.Free? || s'.lock.Polling?
    requires s'.lock.Polling? ==>
               var p, p' := s.lock.poll, s'.lock.poll;
               && p'.Translating? && p' == Translating(p.offset, p.limit, p'.snap, 0, [])
               && p'.snap != [] && p'.snap[0].id == Lo(s)
    ensures Following(s', t)
  {
    assert Cursor(s'.trace) == Cursor(s.trace) && Lo(s') == Lo(s);
    assert Wanted(s.history, t, Lo(s), Lo(s)) == [];
  }

  /** What Wait leaves as it is, and where its snapshot starts. */
  lemma WaitKeeps(s: State, s': State)
    requires Shape(s) && Enabled(s, PollWait) && s' == Next(s, PollWait) && s.lock.poll.offset <= Lo(s)
    ensures s'.history == s.history && s'.items == s.items
    ensures s'.lock.Free? || s'.lock.Polling?
    ensures s'.trace == s.trace + [Snapped] || s'.trace == s.trace + [Responded(s.lock.poll.offset, [])]
    ensures s'.lock.Polling? ==>
              var p, p' := s.lock.poll, s'.lock.poll;
              && p'.Translating? && p' == Translating(p.offset, p.limit, p'.snap, 0, [])
              && p'.snap != [] && p'.snap[0].id == Lo(s)
  {
    SnapshotIs(s.items, s.history, Lo(s), s.lock.poll.offset, s.lock.poll.limit);
  }

  /** Neither a snapshot nor an empty answer moves the cursor. */
  lemma EmptyAnswer(trace: seq<Event>, trace': seq<Event>, offset: int)
    requires trace' == trace + [Snapped] || trace' == trace + [Responded(offset, [])]
    ensures Delivered(trace') == Delivered(trace)
  {
    DeliveredLast(trace, Snapped);
    DeliveredLast(trace, Responded(offset, []));
  }

  /** What a translation leaves as it is. */
  lemma TranslateKeeps(s: State, ok: bool, s': State)
    requires Shape(s) && Enabled(s, PollTranslate(ok)) && s' == Next(s, PollTranslate(ok))
    ensures Shape(s') && s'.history == s.history && Lo(s') == Lo(s) && s'.lock.Polling?
    ensures Delivered(s'.trace) == Delivered(s.trace)
  {
    ShapePollTranslate(s, ok);
    DeliveredLast(s.trace, Skipped(s.lock.poll.snap[s.lock.poll.i].id));
  }

  lemma FollowingTranslate(s: State, ok: bool, t: Translatable, s': State)
    requires Following(s, t) && Enabled(s, PollTranslate(ok)) && ClientStep(s, PollTranslate(ok), t)
    requires s' == Next(s, PollTranslate(ok))
    ensures Following(s', t)
  {
    var p := s.lock.poll;
    TranslateKeeps(s, ok, s');
    assert p.snap[p.i] == Item(Lo(s) + p.i, s.history[Lo(s) + p.i - 1]);
    WantedNext(s.history, t, Lo(s), Lo(s) + p.i);
  }

  lemma WantedNext(history: History, t: Translatable, from: int, id: int)
    requires 1 <= from <= id <= |history|
    ensures Wanted(history, t, from, id + 1) == Wanted(history, t, from, id) + if t(history[id - 1]) then [id] else []
  {
  }

  /** What the answer adds to the delivered ids, and where the cursor and the buffer's low end
      then stand. */
  lemma AnswerExtends(s: State, t: Translatable, s': State)
    requires Following(s, t) && Enabled(s, PollFinish) && s' == Next(s, PollFinish)
    ensures Delivered(s'.trace) == Delivered(s.trace) + s.lock.poll.out
    ensures var p := s.lock.poll;
            && Cursor(s'.trace) == (if p.out == [] then Cursor(s.trace) else p.out[|p.out| - 1] + 1)
            && Lo(s') == if p.out == [] || Lo(s) + |p.snap| > Cursor(s'.trace) then Lo(s) + |p.snap| else Lo(s)
  {
    var p := s.lock.poll;
    TailAckMoves(s, p.snap, p.out);
    DeliveredLast(s.trace, Responded(p.offset, p.out));
    assert p.out == [] ==> Delivered(s.trace) + p.out == Delivered(s.trace);
  }

  lemma FollowingFinish(s: State, t: Translatable, s': State)
    requires Following(s, t) && Enabled(s, PollFinish) && s' == Next(s, PollFinish)
    ensures Following(s', t)
    ensures Max(Lo(s'), Cursor(s'.trace)) == s.lock.poll.snap[0].id + |s.lock.poll.snap|
  {
    var p := s.lock.poll;
    ShapePollFinish(s);
    AnswerExtends(s, t, s');
    AnswerWanted(s.history, t, Low(s), Lo(s), Lo(s) + |p.snap|, p.out, Cursor(s.trace), Cursor(s'.trace));
    FollowingFree(s', t, Lo(s) + |p.snap|);
  }

  /** The answer's ids join those received before to all that is wanted below the new cursor. */
  lemma AnswerWanted(history: History, t: Translatable, low: int, base: int, end: int, out: seq<int>, c: int, c': int)
    requires 0 <= c && low == Max(1, c) && low <= base < end <= |history| + 1 && NoneWanted(history, t, low, base)
    requires out == Wanted(history, t, base, end) && c' == if out == [] then c else out[|out| - 1] + 1
    ensures 0 <= c' <= end && Max(1, c') <= end
    ensures Wanted(history, t, 1, low) + out == Wanted(history, t, 1, Max(1, c'))
    ensures NoneWanted(history, t, Max(1, c'), end)
  {
    WantedAcross(history, t, low, base, end);
    assert out == [] ==> Wanted(history, t, 1, low) + out == Wanted(history, t, 1, low);
  }

  /** Between two calls: everything up to `end` has been looked at. */
  lemma FollowingFree(s: State, t: Translatable, end: int)
    requires Shape(s) && s.lock.Free? && 0 <= Cursor(s.trace) <= end <= NextID(s) && 1 <= end && Lo(s) <= end
    requires Delivered(s.trace) == Wanted(s.history, t, 1, Low(s)) && NoneWanted(s.history, t, Low(s), end)
    ensures Following(s, t)
  {
  }

  /** The wanted ids below `low`, nothing wanted from there to `base`, and the wanted ids from
      there to `end` make up the wanted ids below the last of them plus one. */
  lemma WantedAcross(history: History, t: Translatable, low: int, base: int, end: int)
    requires 1 <= low <= base < end <= |history| + 1 && NoneWanted(history, t, low, base)
    ensures var out := Wanted(history, t, base, end);
            if out == [] then NoneWanted(history, t, low, end)
            else
              var c := out[|out| - 1] + 1;
              && base < c <= end && NoneWanted(history, t, c, end)
              && Wanted(history, t, 1, low) + out == Wanted(history, t, 1, c)
  {
    var out := Wanted(history, t, base, end);
    WantedEmpty(history, t, low, base);
    if out == [] {
      WantedEmpty(history, t, base, end);
    } else {
      WantedLast(history, t, base, end);
      WantedSplit(history, t, 1, low, base);
      WantedSplit(history, t, 1, base, out[|out| - 1] + 1);
    }
  }

  lemma FollowingStep(s: State, st: Step, t: Translatable)
    requires Following(s, t) && Enabled(s, st) && ClientStep(s, st, t)
    ensures Following(Next(s, st), t)
  {
    match st {
      case External(a) => FollowingPush(s, a.u, t);
      case PollBegin(offset, limit) => FollowingBegin(s, limit, offset, t, Next(s, st));
      case PollWait => FollowingWait(s, t, Next(s, st));
      case PollTranslate(ok) => FollowingTranslate(s, ok, t, Next(s, st));
      case PollFinish => FollowingFinish(s, t, Next(s, st));
      case _ =>
    }
  }

  lemma {:induction false} FollowingRun(s: State, steps: seq<Step>, s': State, t: Translatable)
    requires Following(s, t) && ClientRuns(s, steps, s', t)
    ensures Following(s', t)
    decreases |steps|
  {
    if steps != [] {
      FollowingStep(s, steps[0], t);
      FollowingRun(Next(s, steps[0]), steps[1..], s', t);
    }
  }

  lemma FollowingInitially(s: State, t: Translatable)
    requires Initial(s)
    ensures Following(s, t)
  {
    assert Delivered(s.trace) == [];
  }

  /** Polling end to end. However pushes fall between and inside the calls, the client has
      received exactly the translatable updates below its cursor, once each, in order of id;
      and nothing translatable has left the buffer without having been received. */
  lemma PollingEndToEnd(s: State, steps: seq<Step>, s': State, t: Translatable)
    requires Initial(s) && ClientRuns(s, steps, s', t)
    ensures Cursor(s'.trace) <= |s'.history| + 1
    ensures Delivered(s'.trace) == Wanted(s'.history, t, 1, Low(s'))
    ensures Increasing(Delivered(s'.trace))
    ensures forall id :: 1 <= id < Lo(s') <= |s'.history| + 1 && t(s'.history[id - 1]) ==> id in Delivered(s'.trace)
  {
    FollowingInitially(s, t);
    FollowingRun(s, steps, s', t);
    WantedRange(s'.history, t, 1, Low(s'));
    forall id | 1 <= id < Lo(s') && t(s'.history[id - 1]) ensures id in Delivered(s'.trace) {
      WantedSplit(s'.history, t, 1, id, Low(s'));
      WantedSplit(s'.history, t, id, id + 1, Low(s'));
      assert Wanted(s'.history, t, id, id + 1) == [id];
    }
  }

  // ---- how many polls a backlog takes ----

  /** ceil(n / l), one batch at a time. */
  function Batches(n: int, l: int): nat
    requires 1 <= l
    decreases n
  {
    if n <= 0 then 0 else 1 + Batches(n - l, l)
  }

  /** It is the least number of batches of l that hold n. */
  lemma {:induction false} BatchesIsCeil(n: nat, l: int)
    requires 1 <= l
    ensures n <= Batches(n, l) * l < n + l
    decreases n
  {
    if n > l {
      BatchesIsCeil(n - l, l);
      assert Batches(n, l) * l == Batches(n - l, l) * l + l;
    } else if n > 0 {
      assert Batches(n - l, l) == 0;
    }
  }

  function Snaps(trace: seq<Event>): nat { multiset(trace)[Snapped] }

  /** What the client has not received or passed over yet. */
  function Pending(s: State): int {
    if s.lock.Polling? && s.lock.poll.Translating? && s.lock.poll.snap != [] then
      NextID(s) - (s.lock.poll.snap[0].id + |s.lock.poll.snap|)
    else NextID(s) - Max(Lo(s), Cursor(s.trace))
  }

  predicate DrainStep(st: Step, l: int) {
    (st.PollBegin? && st.limit == l) || st.PollWait? || st.PollTranslate? || st.PollFinish?
  }

  ghost predicate DrainRuns(s: State, steps: seq<Step>, s': State, t: Translatable, l: int) {
    ClientRuns(s, steps, s', t) && forall k :: 0 <= k < |steps| ==> DrainStep(steps[k], l)
  }

  lemma SnapsLast(trace: seq<Event>, e: Event)
    ensures Snaps(trace + [e]) == Snaps(trace) + if e == Snapped then 1 else 0
  {
    assert multiset(trace + [e]) == multiset(trace) + multiset{e};
  }

  /** What Wait returns to this client: the next batch, or an empty answer. */
  lemma WaitSplits(s: State, t: Translatable, s': State)
    requires Following(s, t) && Enabled(s, PollWait) && s' == Next(s, PollWait)
    ensures s'.history == s.history && s'.items == s.items
    ensures Pending(s) >= 0
    ensures if Pending(s) == 0 then s'.lock.Free? && s'.trace == s.trace + [Responded(s.lock.poll.offset, [])]
            else
              && s'.lock.Polling? && s'.lock.poll.Translating? && s'.trace == s.trace + [Snapped]
              && s'.lock.poll.snap != [] && s'.lock.poll.snap[0].id == Lo(s)
              && |s'.lock.poll.snap| == Min(Pending(s), s.lock.poll.limit)
  {
    SnapshotIs(s.items, s.history, Lo(s), s.lock.poll.offset, s.lock.poll.limit);
  }

  lemma TraceAfterWait(trace: seq<Event>, trace': seq<Event>, offset: int)
    requires trace' == trace + [Snapped] || trace' == trace + [Responded(offset, [])]
    ensures Delivered(trace') == Delivered(trace)
    ensures trace' == trace + [Snapped] ==> Snaps(trace') == Snaps(trace) + 1
    ensures trace' == trace + [Responded(offset, [])] ==> Snaps(trace') == Snaps(trace)
  {
    EmptyAnswer(trace, trace', offset);
    SnapsLast(trace, Snapped);
    SnapsLast(trace, Responded(offset, []));
  }

  lemma BatchTaken(s: State, s': State)
    requires IsParked(s) && s.lock.poll.limit >= 1
    requires s'.history == s.history && s'.items == s.items && Cursor(s.trace) <= Lo(s)
    requires Pending(s) >= 0
    requires if Pending(s) == 0 then s'.lock.Free? && s'.trace == s.trace + [Responded(s.lock.poll.offset, [])]
             else
               && s'.lock.Polling? && s'.lock.poll.Translating? && s'.trace == s.trace + [Snapped]
               && s'.lock.poll.snap != [] && s'.lock.poll.snap[0].id == Lo(s)
               && |s'.lock.poll.snap| == Min(Pending(s), s.lock.poll.limit)
    ensures Pending(s) > 0 <==> s'.lock.Polling?
    ensures Snaps(s'.trace) == Snaps(s.trace) + if Pending(s) > 0 then 1 else 0
    ensures Pending(s') == Max(0, Pending(s) - s.lock.poll.limit)
  {
    TraceAfterWait(s.trace, s'.trace, s.lock.poll.offset);
  }

  /** A snapshot takes one batch off the backlog, and is empty only when there is none. */
  lemma SnapshotTakesBatch(s: State, t: Translatable, s': State)
    requires Following(s, t) && Enabled(s, PollWait) && s' == Next(s, PollWait)
    ensures Pending(s) > 0 <==> s'.lock.Polling?
    ensures Snaps(s'.trace) == Snaps(s.trace) + if Pending(s) > 0 then 1 else 0
    ensures Pending(s') == Max(0, Pending(s) - s.lock.poll.limit)
  {
    WaitSplits(s, t, s');
    BatchTaken(s, s');
  }

  /** No other step of the client changes the backlog or the number of snapshots. */
  lemma DrainBegin(s: State, limit: int, c: int, t: Translatable, s': State)
    requires Following(s, t) && c == Cursor(s.trace) && Enabled(s, PollBegin(c, limit))
    requires s' == Next(s, PollBegin(c, limit))
    ensures Snaps(s'.trace) == Snaps(s.trace) && Pending(s') == Pending(s)
  {
    FollowingBegin(s, limit, c, t, s');
    if c > 0 {
      SnapsLast(s.trace, Confirmed(c));
    }
  }

  lemma DrainTranslate(s: State, ok: bool, s': State)
    requires Shape(s) && Enabled(s, PollTranslate(ok)) && s' == Next(s, PollTranslate(ok))
    ensures Snaps(s'.trace) == Snaps(s.trace) && Pending(s') == Pending(s)
  {
    SnapsLast(s.trace, Skipped(s.lock.poll.snap[s.lock.poll.i].id));
  }

  lemma DrainFinish(s: State, t: Translatable, s': State)
    requires Following(s, t) && Enabled(s, PollFinish) && s' == Next(s, PollFinish)
    ensures Snaps(s'.trace) == Snaps(s.trace) && Pending(s') == Pending(s)
  {
    FollowingFinish(s, t, s');
    SnapsLast(s.trace, Responded(s.lock.poll.offset, s.lock.poll.out));
  }

  lemma LimitStays(s: State, st: Step, l: int)
    requires 1 <= s.cap && Enabled(s, st) && DrainStep(st, l)
    requires s.lock.Polling? ==> s.lock.poll.limit == l
    ensures Next(s, st).lock.Polling? ==> Next(s, st).lock.poll.limit == l
  {
  }

  lemma DrainOne(s: State, st: Step, t: Translatable, l: int, s': State)
    requires Following(s, t) && Enabled(s, st) && ClientStep(s, st, t) && DrainStep(st, l)
    requires 1 <= l && (s.lock.Polling? ==> s.lock.poll.limit == l) && s' == Next(s, st)
    ensures Snaps(s'.trace) + Batches(Pending(s'), l) == Snaps(s.trace) + Batches(Pending(s), l)
  {
    match st {
      case PollBegin(offset, limit) => DrainBegin(s, limit, offset, t, s');
      case PollWait =>
        SnapshotTakesBatch(s, t, s');
        assert Batches(Max(0, Pending(s) - l), l) == Batches(Pending(s) - l, l);
      case PollTranslate(ok) => DrainTranslate(s, ok, s');
      case PollFinish => DrainFinish(s, t, s');
    }
  }

  lemma {:induction false} DrainMany(s: State, steps: seq<Step>, s': State, t: Translatable, l: int)
    requires Following(s, t) && DrainRuns(s, steps, s', t, l) && 1 <= l
    requires s.lock.Polling? ==> s.lock.poll.limit == l
    ensures Following(s', t)
    ensures Snaps(s'.trace) + Batches(Pending(s'), l) == Snaps(s.trace) + Batches(Pending(s), l)
    decreases |steps|
  {
    if steps != [] {
      assert DrainStep(steps[0], l);
      DrainOne(s, steps[0], t, l, Next(s, steps[0]));
      LimitStays(s, steps[0], l);
      FollowingStep(s, steps[0], t);
      assert forall k :: 0 <= k < |steps[1..]| ==> steps[1..][k] == steps[k + 1];
      DrainMany(Next(s, steps[0]), steps[1..], s', t, l);
    }
  }

  /** With no further pushes a backlog of n updates is gone after exactly ceil(n / limit)
      non-empty snapshots, whatever is translatable: never earlier, and never later. */
  lemma BacklogTakesCeil(s0: State, before: seq<Step>, s: State, steps: seq<Step>, s': State, t: Translatable, l: int)
    requires Initial(s0) && ClientRuns(s0, before, s, t) && s.lock.Free?
    requires 1 <= l && DrainRuns(s, steps, s', t, l)
    ensures Pending(s) >= 0 && Pending(s') >= 0
    ensures var b := Batches(Pending(s), l);  // ceil(n / l)
            && Pending(s) <= b * l < Pending(s) + l
            && Snaps(s'.trace) - Snaps(s.trace) <= b
            && (Pending(s') == 0 <==> Snaps(s'.trace) - Snaps(s.trace) == b)
  {
    FollowingInitially(s0, t);
    FollowingRun(s0, before, s, t);
    DrainMany(s, steps, s', t, l);
    BatchesIsCeil(Pending(s), l);
  }

  // ---- and that it comes to an end ----

  ghost predicate Drained(s: State) { s.lock.Free? && Pending(s) == 0 }

  /** A parked call has something to fetch. */
  ghost predicate Busy(s: State) { IsParked(s) ==> Pending(s) > 0 }

  /** Steps to go, at most. */
  function PollRank(s: State): int {
    4 * Pending(s) + (if IsParked(s) then 0 else if s.lock.Polling? then 2 + |s.lock.poll.snap| - s.lock.poll.i else 1)
  }

  lemma WaitRank(s: State, t: Translatable, s': State)
    requires Following(s, t) && Enabled(s, PollWait) && s' == Next(s, PollWait) && Pending(s) > 0
    ensures Busy(s') && PollRank(s') < PollRank(s)
  {
    WaitSplits(s, t, s');
    SnapshotTakesBatch(s, t, s');
    assert s'.lock.poll.i == 0;
  }

  lemma ClientRankFalls(s: State, st: Step, t: Translatable, l: int, s': State)
    requires Following(s, t) && Enabled(s, st) && ClientStep(s, st, t) && DrainStep(st, l) && s' == Next(s, st)
    requires Busy(s) && !Drained(s)
    ensures Busy(s') && PollRank(s') < PollRank(s)
  {
    PendingBounds(s, t);
    match st {
      case PollBegin(offset, limit) => DrainBegin(s, limit, offset, t, s');
      case PollWait => WaitRank(s, t, s');
      case PollTranslate(ok) => DrainTranslate(s, ok, s');
      case PollFinish => DrainFinish(s, t, s');
    }
  }

  lemma PendingBounds(s: State, t: Translatable)
    requires Following(s, t)
    ensures 0 <= Pending(s) && 0 <= PollRank(s)
  {
  }

  lemma {:induction false} DrainReaches(s: State, steps: seq<Step>, s': State, t: Translatable, l: int)
      returns (k: nat, m: State)
    requires Following(s, t) && DrainRuns(s, steps, s', t, l) && Busy(s) && |steps| >= PollRank(s)
    ensures k <= |steps| && ClientRuns(s, steps[..k], m, t) && Drained(m)
    decreases |steps|
  {
    PendingBounds(s, t);
    if Drained(s) {
      k, m := 0, s;
    } else {
      var st, next := steps[0], Next(s, steps[0]);
      assert DrainStep(st, l);
      ClientRankFalls(s, st, t, l, next);
      FollowingStep(s, st, t);
      var rest := steps[1..];
      assert forall i :: 0 <= i < |rest| ==> rest[i] == steps[i + 1];
      k, m := DrainReaches(next, rest, s', t, l);
      assert steps[..k + 1][0] == st && steps[..k + 1][1..] == rest[..k];
      k := k + 1;
    }
  }

  /** Without pushes the client finishes: within 4n + 1 of its steps it has answered its last call
      for a backlog of n, and nothing is pending. */
  lemma PollingEnds(s0: State, before: seq<Step>, s: State, steps: seq<Step>, s': State, t: Translatable, l: int)
      returns (k: nat, m: State)
    requires Initial(s0) && ClientRuns(s0, before, s, t) && s.lock.Free?
    requires DrainRuns(s, steps, s', t, l) && |steps| >= 4 * Pending(s) + 1
    ensures k <= |steps| && ClientRuns(s, steps[..k], m, t) && m.lock.Free? && Pending(m) == 0
  {
    FollowingInitially(s0, t);
    FollowingRun(s0, before, s, t);
    k, m := DrainReaches(s, steps, s', t, l);
  }

  /** And it is never stuck: one of its steps is always possible. */
  lemma PollingNeverStuck(s0: State, before: seq<Step>, s: State, t: Translatable, l: int) returns (st: Step)
    requires Initial(s0) && ClientRuns(s0, before, s, t) && 1 <= l <= 100
    ensures Enabled(s, st) && ClientStep(s, st, t) && DrainStep(st, l)
  {
    FollowingInitially(s0, t);
    FollowingRun(s0, before, s, t);
    if s.lock.Free? {
      st := PollBegin(Cursor(s.trace), l);
    } else if IsParked(s) {
      st := PollWait;
    } else {
      var p := s.lock.poll;
      st := if p.i < |p.snap| then PollTranslate(t(p.snap[p.i].update)) else PollFinish;
    }
  }
}
