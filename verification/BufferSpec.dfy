/** What `UpdateBuffer` does to its queue, as functions on sequences. The class in
    UpdateBuffer.dfy is proved against them, and the step system in Pipeline.dfy is
    built from them. */
module BufferSpec {

  /** An MTProto update; nothing in the buffer looks inside it. */
  datatype Update = Update(payload: string)

  /** A queued update with the id it got at Push. */
  datatype Item = Item(id: int, update: Update)

  datatype Op = Push(u: Update) | Ack(upTo: int) | Peek(offset: int) | Clear

  /** What other goroutines can do to the buffer without holding the drain lock. */
  type Action = op: Op | op.Push? || op.Clear? witness Clear

  const DEFAULT_CAP: nat := 10_000

  /** The history of pushes: the k-th update ever pushed has id k + 1. */
  type History = seq<Update>

  function Min(a: int, b: int): int { if a <= b then a else b }

  function Max(a: int, b: int): int { if a >= b then a else b }

  /** `items` is a run of consecutive ids of the history, from `lo` on. */
  ghost predicate IsRun(items: seq<Item>, history: History, lo: int) {
    && 1 <= lo
    && lo + |items| <= |history| + 1
    && forall k :: 0 <= k < |items| ==> items[k] == Item(lo + k, history[lo + k - 1])
  }

  /** `items` is exactly the part of the history from id `lo` on. */
  ghost predicate IsTail(items: seq<Item>, history: History, lo: int) {
    IsRun(items, history, lo) && lo + |items| == |history| + 1
  }

  /** Scanning for the first id not below `bound` stops at `i`. */
  ghost predicate IsCut(items: seq<Item>, bound: int, i: nat) {
    && i <= |items|
    && (forall k :: 0 <= k < i ==> items[k].id < bound)
    && (i < |items| ==> items[i].id >= bound)
  }

  lemma {:induction false} CutExists(items: seq<Item>, bound: int, n: nat)
    requires n <= |items| && forall k :: 0 <= k < n ==> items[k].id < bound
    ensures exists i: nat :: IsCut(items, bound, i)
    decreases |items| - n
  {
    if n < |items| && items[n].id < bound {
      CutExists(items, bound, n + 1);
    } else {
      assert IsCut(items, bound, n);
    }
  }

  /** The index at which that scan stops. */
  ghost function Cut(items: seq<Item>, bound: int): (i: nat)
    ensures IsCut(items, bound, i)
  {
    CutExists(items, bound, 0);
    var i: nat :| IsCut(items, bound, i);
    i
  }

  /** The queue without the items below `upTo`. */
  ghost function AckSeq(items: seq<Item>, upTo: int): seq<Item> {
    items[Cut(items, upTo)..]
  }

  /** The queue after a push: the oldest item leaves a full queue. */
  function PushSeq(items: seq<Item>, cap: nat, id: int, u: Update): seq<Item>
    requires 1 <= cap
  {
    (if |items| >= cap then items[1..] else items) + [Item(id, u)]
  }

  predicate HasReady(items: seq<Item>, offset: int) {
    exists k :: 0 <= k < |items| && items[k].id >= offset
  }

  /** The first `limit` items (all of them if `limit <= 0`) not below `offset`. */
  ghost function Snapshot(items: seq<Item>, offset: int, limit: int): seq<Item> {
    var rest := if offset > 0 then AckSeq(items, offset) else items;
    rest[..if limit > 0 && |rest| > limit then limit else |rest|]
  }

  /** The scan index is determined by what it separates. */
  lemma CutIs(items: seq<Item>, bound: int, i: nat)
    requires IsCut(items, bound, i)
    ensures Cut(items, bound) == i
  {
  }

  lemma TailDrops(items: seq<Item>, history: History, lo: int, i: nat)
    requires IsTail(items, history, lo) && i <= |items|
    ensures IsTail(items[i..], history, lo + i)
  {
  }

  /** Ack moves the low end to min(max(lo, upTo), nextID) and nothing else. */
  lemma AckMovesLow(items: seq<Item>, history: History, lo: int, upTo: int)
    requires IsTail(items, history, lo)
    ensures Min(Max(lo, upTo), |history| + 1) >= lo
    ensures AckSeq(items, upTo) == items[Min(Max(lo, upTo), |history| + 1) - lo..]
    ensures IsTail(AckSeq(items, upTo), history, Min(Max(lo, upTo), |history| + 1))
  {
    CutIs(items, upTo, Min(Max(lo, upTo), |history| + 1) - lo);
  }

  /** What an ack leaves is what is not below its bound. */
  lemma AckKeeps(items: seq<Item>, history: History, lo: int, upTo: int)
    requires IsTail(items, history, lo)
    ensures forall it :: it in AckSeq(items, upTo) <==> it in items && it.id >= upTo
  {
    var i := Cut(items, upTo);
    forall it ensures it in items[i..] <==> it in items && it.id >= upTo {
      if it in items && it.id >= upTo {
        var k :| 0 <= k < |items| && items[k] == it;
        assert k >= i && items[i..][k - i] == it;
      }
    }
  }

  /** A push appends the new id and raises the low end by one exactly when the queue is full. */
  lemma PushMovesLow(items: seq<Item>, history: History, lo: int, cap: nat, u: Update)
    requires IsTail(items, history, lo) && 1 <= cap && |items| <= cap
    ensures |PushSeq(items, cap, |history| + 1, u)| <= cap
    ensures IsTail(PushSeq(items, cap, |history| + 1, u), history + [u], lo + if |items| == cap then 1 else 0)
  {
  }

  /** Where a snapshot for `offset` starts. */
  function Base(history: History, lo: int, offset: int): int {
    if offset > 0 then Min(Max(lo, offset), |history| + 1) else lo
  }

  /** A snapshot is the run of ids that starts at max(lo, offset), cut at the limit; it is
      empty exactly when nothing is ready. */
  lemma SnapshotIs(items: seq<Item>, history: History, lo: int, offset: int, limit: int)
    requires IsTail(items, history, lo)
    ensures var n := |history| + 1 - Base(history, lo, offset);
            |Snapshot(items, offset, limit)| == if limit > 0 then Min(n, limit) else n
    ensures IsRun(Snapshot(items, offset, limit), history, Base(history, lo, offset))
    ensures Snapshot(items, offset, limit) != [] <==> HasReady(items, offset)
  {
    var base := Base(history, lo, offset);
    AckMovesLow(items, history, lo, offset);
    var rest := if offset > 0 then AckSeq(items, offset) else items;
    assert IsTail(rest, history, base);
    if rest != [] {
      assert rest[0] == items[base - lo];
      assert items[base - lo].id >= offset;
    } else {
      forall k | 0 <= k < |items| ensures items[k].id < offset {
        assert items[k].id == lo + k;
      }
    }
  }

  /** `snap` is the first `limit` of the items from id n on. */
  ghost predicate FirstFrom(items: seq<Item>, snap: seq<Item>, n: int, limit: int) {
    exists i: nat :: i <= |items| && Reaches(items, n, i)
                     && |snap| == (if |items| - i > limit then limit else |items| - i) && IsSlice(items, i, snap)
  }

  /** The ids from n on start at index i. */
  ghost predicate Reaches(items: seq<Item>, n: int, i: nat)
    requires i <= |items|
  {
    && (forall j :: 0 <= j < i ==> items[j].id < n)
    && (forall j :: i <= j < |items| ==> items[j].id >= n)
  }

  ghost predicate IsSlice(items: seq<Item>, i: nat, snap: seq<Item>) {
    i + |snap| <= |items| && snap == items[i..i + |snap|]
  }

  lemma SnapshotFirst(items: seq<Item>, history: History, lo: int, offset: int, limit: int)
    requires IsTail(items, history, lo) && limit > 0
    ensures FirstFrom(items, Snapshot(items, offset, limit), offset, limit)
  {
    var i: nat := if offset > 0 then Cut(items, offset) else 0;
    var rest, snap := items[i..], Snapshot(items, offset, limit);
    assert snap == rest[..|snap|] && rest[..|snap|] == items[i..i + |snap|];
    forall j | i <= j < |items| ensures items[j].id >= offset {
      assert items[j].id == items[i].id + j - i;
    }
    assert Reaches(items, offset, i) && IsSlice(items, i, snap);
  }

  // ---- whole runs of buffer operations ----

  datatype Queue = Queue(items: seq<Item>, nextID: int)

  /** One operation on the concrete queue. */
  ghost function Apply(q: Queue, cap: nat, op: Op): Queue
    requires 1 <= cap
  {
    if op.Push? then Queue(PushSeq(q.items, cap, q.nextID, op.u), q.nextID + 1)
    else if op.Ack? then q.(items := AckSeq(q.items, op.upTo))
    else if op.Peek? then (if op.offset > 0 then q.(items := AckSeq(q.items, op.offset)) else q)
    else q.(items := [])
  }

  ghost function ApplyAll(q: Queue, cap: nat, ops: seq<Op>): Queue
    requires 1 <= cap
    decreases |ops|
  {
    if ops == [] then q else ApplyAll(Apply(q, cap, ops[0]), cap, ops[1..])
  }

  /** The abstract buffer: everything ever pushed, and where the live part starts. */
  datatype Abstract = Abstract(history: History, lo: int)

  function AbstractStep(a: Abstract, cap: nat, op: Op): Abstract {
    if op.Push? then
      Abstract(a.history + [op.u], if |a.history| + 1 - a.lo >= cap then a.lo + 1 else a.lo)
    else if op.Ack? then a.(lo := Min(Max(a.lo, op.upTo), |a.history| + 1))
    else if op.Peek? then
      (if op.offset > 0 then a.(lo := Min(Max(a.lo, op.offset), |a.history| + 1)) else a)
    else a.(lo := |a.history| + 1)
  }

  function AbstractRun(a: Abstract, cap: nat, ops: seq<Op>): Abstract
    decreases |ops|
  {
    if ops == [] then a else AbstractRun(AbstractStep(a, cap, ops[0]), cap, ops[1..])
  }

  ghost predicate Refines(q: Queue, cap: nat, a: Abstract) {
    && IsTail(q.items, a.history, a.lo)
    && q.nextID == |a.history| + 1
    && |q.items| <= cap
  }

  lemma OpRefines(q: Queue, cap: nat, a: Abstract, op: Op)
    requires 1 <= cap && Refines(q, cap, a)
    ensures Refines(Apply(q, cap, op), cap, AbstractStep(a, cap, op))
  {
    if op.Push? {
      PushMovesLow(q.items, a.history, a.lo, cap, op.u);
    } else if op.Ack? {
      AckMovesLow(q.items, a.history, a.lo, op.upTo);
    } else if op.Peek? && op.offset > 0 {
      AckMovesLow(q.items, a.history, a.lo, op.offset);
    }
  }

  /** After any sequence of operations the queue is the push history on [lo, nextID),
      never longer than the capacity, with lo moving as the abstract buffer says. */
  lemma {:induction false} RunRefines(q: Queue, cap: nat, a: Abstract, ops: seq<Op>)
    requires 1 <= cap && Refines(q, cap, a)
    ensures Refines(ApplyAll(q, cap, ops), cap, AbstractRun(a, cap, ops))
    decreases |ops|
  {
    if ops != [] {
      OpRefines(q, cap, a, ops[0]);
      RunRefines(Apply(q, cap, ops[0]), cap, AbstractStep(a, cap, ops[0]), ops[1..]);
    }
  }

  lemma {:induction false} ApplyAllAppend(q: Queue, cap: nat, ops: seq<Op>, more: seq<Op>)
    requires 1 <= cap
    ensures ApplyAll(q, cap, ops + more) == ApplyAll(ApplyAll(q, cap, ops), cap, more)
    decreases |ops|
  {
    if ops == [] {
      assert ops + more == more;
    } else {
      assert (ops + more)[1..] == ops[1..] + more;
      ApplyAllAppend(Apply(q, cap, ops[0]), cap, ops[1..], more);
    }
  }

  /** The updates a list of actions pushes, in order. */
  function Pushes(acts: seq<Action>): History {
    if acts == [] then []
    else (if acts[0].Push? then [acts[0].u] else []) + Pushes(acts[1..])
  }

  lemma Regroup<T>(a: seq<T>, b: seq<T>, c: seq<T>)
    ensures a + b + c == a + (b + c)
  {
  }

  lemma {:induction false} PushesAppend(acts: seq<Action>, more: seq<Action>)
    ensures Pushes(acts + more) == Pushes(acts) + Pushes(more)
  {
    if acts == [] {
      assert acts + more == more;
    } else {
      var first := if acts[0].Push? then [acts[0].u] else [];
      assert (acts + more)[1..] == acts[1..] + more;
      PushesAppend(acts[1..], more);
      assert Pushes(acts + more) == first + (Pushes(acts[1..]) + Pushes(more));
      Regroup(first, Pushes(acts[1..]), Pushes(more));
    }
  }
}
