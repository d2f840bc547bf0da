/** The update pipeline of one bot as a step system. Pushes and clears take only the buffer's
    own mutex, so they interleave everywhere; a getUpdates call and a webhook deliverer's round
    hold the drain lock, and any number of deliverers, started and stopped at any time, compete
    for it. One step is one critical section, one translation or one POST. */
module Pipeline {
  import opened BufferSpec

  const BATCH: nat := 100
  const MAX_ATTEMPTS: nat := 8
  const MAX_BACKOFF: nat := 300

  /** What the translator and the endpoint say about one update. */
  datatype Verdict = Untranslatable | Accepted | Rejected

  /** What an observer of the process sees, in order. */
  datatype Event =
    | Pushed(id: int)
    | Overflowed(id: int)
    | Cleared(from: int, end: int)          // ids from .. end - 1
    | Confirmed(offset: int)                // a client's offset reached the buffer
    | Snapped                               // a getUpdates call got a non-empty snapshot
    | Skipped(id: int)                      // the translator returned nil
    | Responded(offset: int, ids: seq<int>) // a getUpdates call answered
    | RoundBegan(d: nat)                    // a deliverer got a non-empty snapshot
    | Posted(d: nat, id: int)               // a POST answered 2xx
    | Failed(d: nat, id: int)               // a POST that did not
    | Abandoned(d: nat, id: int)            // dropped after too many attempts
    | Slept(d: nat, secs: nat)              // a failed round ended, and a sleep of this length began

  /** A getUpdates call that holds the drain lock. */
  datatype Poll =
    | Parked(offset: int, limit: int)
    | Translating(offset: int, limit: int, snap: seq<Item>, i: nat, out: seq<int>)

  datatype Stage =
    | Check   // before the stop check of item i, or past the last item
    | Post    // past the stop check of item i
    | Broke   // item i failed and the loop was left

  datatype Phase =
    | Top        // at the loop head, before the stop check
    | Wanting    // waiting for the drain lock
    | Listening  // holds the drain lock, inside Wait
    | Round(snap: seq<Item>, i: nat, lastAcked: int, stage: Stage)
    | Sleeping
    | Returned

  /** The local variables of one running deliverer, and whether its stop channel is closed. */
  datatype Deliverer = Deliverer(phase: Phase, attempts: map<int, nat>, backoff: nat, stopped: bool)

  datatype Lock = Free | Polling(poll: Poll) | Delivering(d: nat)

  datatype State = State(
    history: History,          // every update ever pushed
    items: seq<Item>,
    cap: nat,
    lock: Lock,
    dels: map<nat, Deliverer>, // every deliverer ever started
    trace: seq<Event>)

  datatype Step =
    | External(act: Action)
    | PollBegin(offset: int, limit: int)  // TakeLock, Ack(offset) if positive
    | PollWait                            // Wait returns
    | PollTranslate(ok: bool)             // one item of the snapshot
    | PollFinish                          // tail ack, answer, release
    | Start(d: nat)
    | Stop(d: nat)
    | Look(d: nat)                        // stop check at the loop head
    | Take(d: nat)
    | Listen(d: nat)                      // Wait returns
    | Pass(d: nat)                        // stop check at item i finds the channel open
    | Quit(d: nat)                        // stop check at item i finds it closed: ack, release, return
    | Judge(d: nat, v: Verdict)           // translate item i, and POST it
    | Close(d: nat)                       // ack, release
    | Wake(d: nat, timer: bool)           // the back-off sleep ends, or a stop cuts it short

  function NextID(s: State): int { |s.history| + 1 }

  /** The oldest id in the buffer, or the next id when it is empty. */
  function Lo(s: State): int { NextID(s) - |s.items| }

  function Attempts(x: Deliverer, id: int): nat {
    if id in x.attempts then x.attempts[id] else 0
  }

  predicate HoldsLock(x: Deliverer) { x.phase.Listening? || x.phase.Round? }

  function NextBackoff(b: nat): nat { if 2 * b > MAX_BACKOFF then MAX_BACKOFF else 2 * b }

  function Fresh(): Deliverer { Deliverer(Top, map[], 1, false) }

  /** Item i of the round is done with: it counts as acknowledged and its counter goes. */
  function Resolve(x: Deliverer): Deliverer
    requires x.phase.Round? && x.phase.i < |x.phase.snap|
  {
    var id := x.phase.snap[x.phase.i].id;
    x.(phase := Round(x.phase.snap, x.phase.i + 1, id + 1, Check), attempts := x.attempts - {id})
  }

  /** The failure of item i would be its last one allowed. */
  predicate LastChance(x: Deliverer)
    requires x.phase.Round? && x.phase.i < |x.phase.snap|
  {
    Attempts(x, x.phase.snap[x.phase.i].id) + 1 >= MAX_ATTEMPTS
  }

  /** The loop body for item i once its verdict is known. */
  function JudgeItem(x: Deliverer, v: Verdict): Deliverer
    requires x.phase.Round? && x.phase.i < |x.phase.snap|
  {
    var id := x.phase.snap[x.phase.i].id;
    if v.Untranslatable? then Resolve(x)
    else if v.Accepted? then Resolve(x).(backoff := 1)
    else if LastChance(x) then Resolve(x)
    else x.(attempts := x.attempts[id := Attempts(x, id) + 1], phase := x.phase.(stage := Broke))
  }

  function JudgeEvents(d: nat, x: Deliverer, v: Verdict): seq<Event>
    requires x.phase.Round? && x.phase.i < |x.phase.snap|
  {
    var id := x.phase.snap[x.phase.i].id;
    if v.Untranslatable? then [Skipped(id)]
    else if v.Accepted? then [Posted(d, id)]
    else if LastChance(x) then [Failed(d, id), Abandoned(d, id)]
    else [Failed(d, id)]
  }

  /** `if lastAcked > 0 { Ack(lastAcked) }` */
  ghost function AckIfAny(items: seq<Item>, lastAcked: int): seq<Item> {
    if lastAcked > 0 then AckSeq(items, lastAcked) else items
  }

  /** What the end of getUpdates removes: everything up to the end of the snapshot, but only
      when nothing was translatable or the snapshot's tail was not. */
  ghost function TailAck(items: seq<Item>, snap: seq<Item>, out: seq<int>): seq<Item>
    requires snap != []
  {
    var lastID := snap[|snap| - 1].id;
    if out == [] || lastID > out[|out| - 1] then AckSeq(items, lastID + 1) else items
  }

  predicate AtItem(s: State, d: nat, stage: Stage) {
    && d in s.dels && s.dels[d].phase.Round? && s.dels[d].phase.stage == stage
    && s.dels[d].phase.i < |s.dels[d].phase.snap|
  }

  predicate LoopLeft(s: State, d: nat) {
    && d in s.dels && s.dels[d].phase.Round?
    && (s.dels[d].phase.stage.Broke?
        || (s.dels[d].phase.stage.Check? && s.dels[d].phase.i == |s.dels[d].phase.snap|))
  }

  predicate IsParked(s: State) { s.lock.Polling? && s.lock.poll.Parked? }

  predicate IsTranslating(s: State) {
    && s.lock.Polling? && s.lock.poll.Translating? && s.lock.poll.snap != []
    && s.lock.poll.i <= |s.lock.poll.snap|
  }

  predicate Enabled(s: State, st: Step) {
    if st.External? then true
    else if st.PollBegin? then s.lock.Free? && st.offset >= 0 && 1 <= st.limit <= 100
    else if st.PollWait? then IsParked(s)
    else if st.PollTranslate? then IsTranslating(s) && s.lock.poll.i < |s.lock.poll.snap|
    else if st.PollFinish? then IsTranslating(s) && s.lock.poll.i == |s.lock.poll.snap|
    else if st.Start? then st.d !in s.dels
    else if st.Stop? then st.d in s.dels
    else if st.Look? then st.d in s.dels && s.dels[st.d].phase.Top?
    else if st.Take? then st.d in s.dels && s.dels[st.d].phase.Wanting? && s.lock.Free?
    else if st.Listen? then st.d in s.dels && s.dels[st.d].phase.Listening?
    else if st.Pass? then AtItem(s, st.d, Check) && !s.dels[st.d].stopped
    else if st.Quit? then AtItem(s, st.d, Check) && s.dels[st.d].stopped
    else if st.Judge? then AtItem(s, st.d, Post)
    else if st.Close? then LoopLeft(s, st.d)
    else st.d in s.dels && s.dels[st.d].phase.Sleeping? && (st.timer || s.dels[st.d].stopped)
  }

  function Logged(s: State, es: seq<Event>): State { s.(trace := s.trace + es) }

  function With(s: State, d: nat, x: Deliverer): State { s.(dels := s.dels[d := x]) }

  function ExternalStep(s: State, a: Action): State
    requires 1 <= s.cap
  {
    if a.Push? then
      var full := if |s.items| >= s.cap then [Overflowed(s.items[0].id)] else [];
      Logged(s.(history := s.history + [a.u], items := PushSeq(s.items, s.cap, NextID(s), a.u)),
             full + [Pushed(NextID(s))])
    else Logged(s.(items := []), [Cleared(Lo(s), NextID(s))])
  }

  ghost function BeginStep(s: State, offset: int, limit: int): State {
    if offset > 0 then
      Logged(s.(items := AckSeq(s.items, offset), lock := Polling(Parked(offset, limit))), [Confirmed(offset)])
    else s.(lock := Polling(Parked(offset, limit)))
  }

  ghost function WaitStep(s: State): State
    requires IsParked(s)
  {
    var p := s.lock.poll;
    var snap := Snapshot(s.items, p.offset, p.limit);
    if snap == [] then Logged(s.(lock := Free), [Responded(p.offset, [])])
    else Logged(s.(lock := Polling(Translating(p.offset, p.limit, snap, 0, []))), [Snapped])
  }

  function TranslateStep(s: State, ok: bool): State
    requires IsTranslating(s) && s.lock.poll.i < |s.lock.poll.snap|
  {
    var p := s.lock.poll;
    var id := p.snap[p.i].id;
    if ok then s.(lock := Polling(p.(i := p.i + 1, out := p.out + [id])))
    else Logged(s.(lock := Polling(p.(i := p.i + 1))), [Skipped(id)])
  }

  ghost function FinishStep(s: State): State
    requires IsTranslating(s)
  {
    var p := s.lock.poll;
    Logged(s.(items := TailAck(s.items, p.snap, p.out), lock := Free), [Responded(p.offset, p.out)])
  }

  function LookStep(s: State, d: nat): State
    requires d in s.dels
  {
    With(s, d, s.dels[d].(phase := if s.dels[d].stopped then Returned else Wanting))
  }

  ghost function ListenStep(s: State, d: nat): State
    requires d in s.dels
  {
    var snap := Snapshot(s.items, 0, BATCH);
    if snap == [] then With(s.(lock := Free), d, s.dels[d].(phase := Top))
    else Logged(With(s, d, s.dels[d].(phase := Round(snap, 0, 0, Check))), [RoundBegan(d)])
  }

  function JudgeStep(s: State, d: nat, v: Verdict): State
    requires AtItem(s, d, Post)
  {
    Logged(With(s, d, JudgeItem(s.dels[d], v)), JudgeEvents(d, s.dels[d], v))
  }

  /** The round of d is over: ack what it resolved, release the drain lock. */
  ghost function ReleaseStep(s: State, d: nat, after: Phase): State
    requires d in s.dels && s.dels[d].phase.Round?
  {
    var x := s.dels[d];
    With(s.(items := AckIfAny(s.items, x.phase.lastAcked), lock := Free), d, x.(phase := after))
  }

  ghost function CloseStep(s: State, d: nat): State
    requires LoopLeft(s, d)
  {
    if s.dels[d].phase.stage.Broke? then Logged(ReleaseStep(s, d, Sleeping), [Slept(d, s.dels[d].backoff)])
    else ReleaseStep(s, d, Top)
  }

  function WakeStep(s: State, d: nat, timer: bool): State
    requires d in s.dels
  {
    var x := s.dels[d];
    With(s, d, if timer then x.(phase := Top, backoff := NextBackoff(x.backoff)) else x.(phase := Returned))
  }

  /** The only possible next state; what is left open is which step comes next. */
  ghost function Next(s: State, st: Step): State
    requires 1 <= s.cap && Enabled(s, st)
  {
    if st.External? then ExternalStep(s, st.act)
    else if st.PollBegin? then BeginStep(s, st.offset, st.limit)
    else if st.PollWait? then WaitStep(s)
    else if st.PollTranslate? then TranslateStep(s, st.ok)
    else if st.PollFinish? then FinishStep(s)
    else if st.Start? then With(s, st.d, Fresh())
    else if st.Stop? then With(s, st.d, s.dels[st.d].(stopped := true))
    else if st.Look? then LookStep(s, st.d)
    else if st.Take? then With(s.(lock := Delivering(st.d)), st.d, s.dels[st.d].(phase := Listening))
    else if st.Listen? then ListenStep(s, st.d)
    else if st.Pass? then With(s, st.d, s.dels[st.d].(phase := s.dels[st.d].phase.(stage := Post)))
    else if st.Quit? then ReleaseStep(s, st.d, Returned)
    else if st.Judge? then JudgeStep(s, st.d, st.v)
    else if st.Close? then CloseStep(s, st.d)
    else WakeStep(s, st.d, st.timer)
  }

  // ---- runs ----

  ghost predicate Initial(s: State) {
    1 <= s.cap && s.history == [] && s.items == [] && s.lock == Free && s.dels == map[] && s.trace == []
  }

  /** `s'` is what the steps lead to from `s`, each enabled when it is taken. */
  ghost predicate Runs(s: State, steps: seq<Step>, s': State)
    decreases |steps|
  {
    1 <= s.cap &&
    if steps == [] then s' == s
    else Enabled(s, steps[0]) && Runs(Next(s, steps[0]), steps[1..], s')
  }

  lemma {:induction false} RunsAppend(s: State, steps: seq<Step>, m: State, more: seq<Step>, s': State)
    requires Runs(s, steps, m) && Runs(m, more, s')
    ensures Runs(s, steps + more, s')
    decreases |steps|
  {
    if steps == [] {
      assert steps + more == more;
    } else {
      assert (steps + more)[1..] == steps[1..] + more;
      RunsAppend(Next(s, steps[0]), steps[1..], m, more, s');
    }
  }

  // ---- what every step keeps: the shape of the buffer, the lock and the snapshots ----

  ghost predicate PollShape(history: History, lo: int, p: Poll) {
    && p.offset >= 0 && 1 <= p.limit <= 100
    && (p.Translating? ==>
          && p.snap != [] && p.i <= |p.snap|
          && IsRun(p.snap, history, p.snap[0].id)
          && p.snap[0].id <= Max(lo, p.offset))
  }

  ghost predicate RoundShape(history: History, lo: int, ph: Phase) {
    ph.Round? ==>
      && ph.snap != [] && |ph.snap| <= BATCH && ph.i <= |ph.snap|
      && IsRun(ph.snap, history, ph.snap[0].id)
      && ph.snap[0].id <= lo
      && (ph.stage != Check ==> ph.i < |ph.snap|)
      && ph.lastAcked == if ph.i == 0 then 0 else ph.snap[0].id + ph.i
  }

  ghost predicate Shape(s: State) {
    && 1 <= s.cap && |s.items| <= s.cap
    && IsTail(s.items, s.history, Lo(s))
    && (s.lock.Polling? ==> PollShape(s.history, Lo(s), s.lock.poll))
    && (s.lock.Delivering? ==> s.lock.d in s.dels)
    && (forall d :: d in s.dels ==> (HoldsLock(s.dels[d]) <==> s.lock == Delivering(d)))
    && (forall d :: d in s.dels ==> RoundShape(s.history, Lo(s), s.dels[d].phase))
  }

  /** Where an ack-if-any by a deliverer leaves the low end. */
  lemma AckIfAnyMoves(s: State, lastAcked: int)
    requires IsTail(s.items, s.history, Lo(s)) && lastAcked <= NextID(s)
    ensures IsTail(AckIfAny(s.items, lastAcked), s.history, Max(Lo(s), lastAcked))
    ensures |AckIfAny(s.items, lastAcked)| <= |s.items|
  {
    AckMovesLow(s.items, s.history, Lo(s), lastAcked);
  }

  lemma TailAckMoves(s: State, snap: seq<Item>, out: seq<int>)
    requires IsTail(s.items, s.history, Lo(s)) && snap != [] && IsRun(snap, s.history, snap[0].id)
    ensures var end := snap[0].id + |snap|;
            IsTail(TailAck(s.items, snap, out), s.history,
                   if out == [] || end - 1 > out[|out| - 1] then Max(Lo(s), end) else Lo(s))
    ensures |TailAck(s.items, snap, out)| <= |s.items|
  {
    AckMovesLow(s.items, s.history, Lo(s), snap[0].id + |snap|);
  }

  lemma ShapeExternal(s: State, a: Action)
    requires Shape(s)
    ensures Shape(ExternalStep(s, a)) && Lo(s) <= Lo(ExternalStep(s, a))
  {
    if a.Push? {
      PushMovesLow(s.items, s.history, Lo(s), s.cap, a.u);
    }
  }

  predicate IsPollStep(st: Step) {
    st.PollBegin? || st.PollWait? || st.PollTranslate? || st.PollFinish?
  }

  /** A step of a getUpdates call: the deliverers stay as they are. */
  lemma ShapeOfPoll(s: State, s': State)
    requires Shape(s) && !s.lock.Delivering? && !s'.lock.Delivering?
    requires s'.history == s.history && s'.cap == s.cap && s'.dels == s.dels
    requires IsTail(s'.items, s'.history, Lo(s')) && Lo(s) <= Lo(s')
    requires s'.lock.Polling? ==> PollShape(s'.history, Lo(s'), s'.lock.poll)
    ensures Shape(s')
  {
    forall d | d in s'.dels
      ensures HoldsLock(s'.dels[d]) <==> s'.lock == Delivering(d)
      ensures RoundShape(s'.history, Lo(s'), s'.dels[d].phase)
    {
      assert RoundShape(s.history, Lo(s), s.dels[d].phase);
    }
  }

  lemma ShapePollBegin(s: State, offset: int, limit: int)
    requires Shape(s) && Enabled(s, PollBegin(offset, limit))
    ensures Shape(Next(s, PollBegin(offset, limit)))
    ensures Lo(Next(s, PollBegin(offset, limit))) == Base(s.history, Lo(s), offset)
  {
    var s' := Next(s, PollBegin(offset, limit));
    if offset > 0 {
      AckMovesLow(s.items, s.history, Lo(s), offset);
      assert s'.items == AckSeq(s.items, offset);
    }
    assert Lo(s') == Base(s.history, Lo(s), offset);
    ShapeOfPoll(s, s');
  }

  lemma ShapePollWait(s: State)
    requires Shape(s) && Enabled(s, PollWait)
    ensures Shape(Next(s, PollWait)) && Lo(s) == Lo(Next(s, PollWait))
  {
    SnapshotIs(s.items, s.history, Lo(s), s.lock.poll.offset, s.lock.poll.limit);
    ShapeOfPoll(s, Next(s, PollWait));
  }

  lemma ShapePollTranslate(s: State, ok: bool)
    requires Shape(s) && Enabled(s, PollTranslate(ok))
    ensures Shape(Next(s, PollTranslate(ok))) && Lo(s) == Lo(Next(s, PollTranslate(ok)))
  {
    ShapeOfPoll(s, Next(s, PollTranslate(ok)));
  }

  lemma ShapePollFinish(s: State)
    requires Shape(s) && Enabled(s, PollFinish)
    ensures Shape(Next(s, PollFinish)) && Lo(s) <= Lo(Next(s, PollFinish))
  {
    TailAckMoves(s, s.lock.poll.snap, s.lock.poll.out);
    ShapeOfPoll(s, Next(s, PollFinish));
  }

  lemma ShapePoll(s: State, st: Step)
    requires Shape(s) && IsPollStep(st) && Enabled(s, st)
    ensures Shape(Next(s, st)) && Lo(s) <= Lo(Next(s, st))
  {
    match st {
      case PollBegin(offset, limit) => ShapePollBegin(s, offset, limit);
      case PollWait => ShapePollWait(s);
      case PollFinish => ShapePollFinish(s);
      case PollTranslate(ok) => ShapePollTranslate(s, ok);
    }
  }

  /** A step of deliverer d: it changes d, perhaps shortens the buffer, perhaps moves the lock
      between d and nobody. */
  lemma ShapeOfDeliverer(s: State, d: nat, s': State)
    requires Shape(s)
    requires s'.history == s.history && s'.cap == s.cap
    requires IsTail(s'.items, s'.history, Lo(s')) && Lo(s) <= Lo(s')
    requires d in s'.dels && s'.dels == s.dels[d := s'.dels[d]]
    requires RoundShape(s'.history, Lo(s'), s'.dels[d].phase)
    requires s'.lock == s.lock || (s.lock == Free && s'.lock == Delivering(d))
             || (s.lock == Delivering(d) && s'.lock == Free)
    requires HoldsLock(s'.dels[d]) <==> s'.lock == Delivering(d)
    ensures Shape(s')
  {
    forall e | e in s'.dels
      ensures HoldsLock(s'.dels[e]) <==> s'.lock == Delivering(e)
      ensures RoundShape(s'.history, Lo(s'), s'.dels[e].phase)
    {
      assert e != d ==> e in s.dels && s'.dels[e] == s.dels[e];
    }
  }

  /** The deliverer a step belongs to. */
  function Actor(st: Step): nat
    requires !st.External? && !IsPollStep(st)
  {
    st.d
  }

  lemma ShapeListen(s: State, d: nat)
    requires Shape(s) && Enabled(s, Listen(d))
    ensures Shape(Next(s, Listen(d))) && Lo(s) == Lo(Next(s, Listen(d)))
  {
    SnapshotIs(s.items, s.history, Lo(s), 0, BATCH);
    ShapeOfDeliverer(s, d, Next(s, Listen(d)));
  }

  lemma ShapeJudge(s: State, d: nat, v: Verdict)
    requires Shape(s) && Enabled(s, Judge(d, v))
    ensures Shape(Next(s, Judge(d, v))) && Lo(s) == Lo(Next(s, Judge(d, v)))
  {
    var ph := s.dels[d].phase;
    assert RoundShape(s.history, Lo(s), ph);
    assert ph.snap[ph.i].id == ph.snap[0].id + ph.i;
    ShapeOfDeliverer(s, d, Next(s, Judge(d, v)));
  }

  lemma ShapeRelease(s: State, st: Step)
    requires Shape(s) && (st.Quit? || st.Close?) && Enabled(s, st)
    ensures Shape(Next(s, st)) && Lo(Next(s, st)) == Max(Lo(s), s.dels[st.d].phase.lastAcked)
  {
    var ph := s.dels[st.d].phase;
    assert RoundShape(s.history, Lo(s), ph);
    AckIfAnyMoves(s, ph.lastAcked);
    ShapeOfDeliverer(s, st.d, Next(s, st));
  }

  lemma ShapeDeliverer(s: State, st: Step)
    requires Shape(s) && !st.External? && !IsPollStep(st) && Enabled(s, st)
    ensures Shape(Next(s, st)) && Lo(s) <= Lo(Next(s, st))
  {
    match st {
      case Listen(d) => ShapeListen(s, d);
      case Judge(d, v) => ShapeJudge(s, d, v);
      case Quit(d) => ShapeRelease(s, st);
      case Close(d) => ShapeRelease(s, st);
      case Start(d) => ShapeOfDeliverer(s, d, Next(s, st));
      case Stop(d) => ShapeOfDeliverer(s, d, Next(s, st));
      case Look(d) => ShapeOfDeliverer(s, d, Next(s, st));
      case Take(d) => ShapeOfDeliverer(s, d, Next(s, st));
      case Pass(d) => ShapeOfDeliverer(s, d, Next(s, st));
      case Wake(d, timer) => ShapeOfDeliverer(s, d, Next(s, st));
    }
  }

  lemma ShapeStep(s: State, st: Step)
    requires Shape(s) && Enabled(s, st)
    ensures Shape(Next(s, st))
    ensures Lo(s) <= Lo(Next(s, st)) && s.history <= Next(s, st).history
    ensures Next(s, st).cap == s.cap
  {
    if st.External? {
      ShapeExternal(s, st.act);
    } else if IsPollStep(st) {
      ShapePoll(s, st);
    } else {
      ShapeDeliverer(s, st);
    }
  }
}
