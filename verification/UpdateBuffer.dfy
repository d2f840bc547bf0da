/** The update queue of one bot as the program keeps it: a slice of an array that is
    shifted and truncated in place, a capacity, and a counter for the next id. */
module UpdateBuffers {
  import opened BufferSpec

  /** What a goroutine parked in cond.Wait finds when it looks again: what others did to the
      buffer meanwhile, and whether its deadline passed or its request was cancelled. */
  datatype Wakeup = Wakeup(expired: bool, cancelled: bool, acts: seq<Action>)

  predicate Ends(w: Wakeup) { w.expired || w.cancelled }

  /** What others do while a wait on this queue is parked: one wake-up after the other until an
      item is ready or a wake-up ends the wait. */
  ghost function WaitActs(q: Queue, cap: nat, offset: int, wakeups: seq<Wakeup>): seq<Action>
    requires 1 <= cap
    decreases |wakeups|
  {
    if HasReady(q.items, offset) || wakeups == [] || Ends(wakeups[0]) then []
    else wakeups[0].acts + WaitActs(ApplyAll(q, cap, wakeups[0].acts), cap, offset, wakeups[1..])
  }

  /** All that others did in some wake-ups. */
  function ActsOf(ws: seq<Wakeup>): seq<Action> {
    if ws == [] then [] else ws[0].acts + ActsOf(ws[1..])
  }

  /** A wait on q goes through k wake-ups: none if its timeout is not positive. As long as nothing is
      ready and the next wake-up does not end it, it goes on, and only as long. */
  ghost predicate Passes(q: Queue, cap: nat, offset: int, timeout: int, wakeups: seq<Wakeup>, k: nat)
    requires 1 <= cap && k <= |wakeups|
  {
    && (timeout <= 0 ==> k == 0)
    && (forall j :: 0 <= j < k ==> !wakeups[j].expired && !wakeups[j].cancelled)
    && (forall j :: 0 <= j < k ==> !HasReady(ApplyAll(q, cap, ActsOf(wakeups[..j])).items, offset))
    && (timeout > 0 && k < |wakeups| && !wakeups[k].expired && !wakeups[k].cancelled ==>
          HasReady(ApplyAll(q, cap, ActsOf(wakeups[..k])).items, offset))
  }

  /** `acts` is what others do while a wait on q lasts. */
  ghost predicate Waited(q: Queue, cap: nat, offset: int, timeout: int, wakeups: seq<Wakeup>, acts: seq<Action>)
    requires 1 <= cap
  {
    exists k: nat :: k <= |wakeups| && Passes(q, cap, offset, timeout, wakeups, k) && acts == ActsOf(wakeups[..k])
  }

  /** A parked wait goes through wake-ups none of which ends it, and stops because something is
      ready, or at a wake-up that ends a wait, or at the last one there is. */
  lemma {:induction false} WaitEnds(q: Queue, cap: nat, offset: int, wakeups: seq<Wakeup>) returns (k: nat)
    requires 1 <= cap
    ensures k <= |wakeups| && WaitActs(q, cap, offset, wakeups) == ActsOf(wakeups[..k])
    ensures Passes(q, cap, offset, 1, wakeups, k)
    decreases |wakeups|
  {
    if HasReady(q.items, offset) || wakeups == [] || Ends(wakeups[0]) {
      k := 0;
      assert wakeups[..0] == [];
    } else {
      var acts, rest := wakeups[0].acts, wakeups[1..];
      var j := WaitEnds(ApplyAll(q, cap, acts), cap, offset, rest);
      k := j + 1;
      forall i | 0 < i <= k
        ensures ActsOf(wakeups[..i]) == acts + ActsOf(rest[..i - 1])
        ensures ApplyAll(q, cap, ActsOf(wakeups[..i])) == ApplyAll(ApplyAll(q, cap, acts), cap, ActsOf(rest[..i - 1]))
      {
        assert wakeups[..i][0] == wakeups[0] && wakeups[..i][1..] == rest[..i - 1];
        ApplyAllAppend(q, cap, acts, ActsOf(rest[..i - 1]));
      }
      assert wakeups[..0] == [];
      assert forall i :: 0 < i < |wakeups| ==> wakeups[i] == rest[i - 1];
    }
  }

  lemma WaitIs(q: Queue, cap: nat, offset: int, timeout: int, wakeups: seq<Wakeup>, acts: seq<Action>)
    requires 1 <= cap && acts == if timeout <= 0 then [] else WaitActs(q, cap, offset, wakeups)
    ensures Waited(q, cap, offset, timeout, wakeups, acts)
  {
    if timeout <= 0 {
      assert Passes(q, cap, offset, timeout, wakeups, 0) && ActsOf(wakeups[..0]) == [];
    } else {
      var k := WaitEnds(q, cap, offset, wakeups);
      assert Passes(q, cap, offset, timeout, wakeups, k);
    }
  }

  /** A wait that began with queue q0 and history h0 has gone through k wake-ups. */
  ghost predicate SoFar(q0: Queue, h0: History, cap: nat, offset: int, wakeups: seq<Wakeup>, k: nat,
                        acts: seq<Action>, q: Queue, h: History)
    requires 1 <= cap && k <= |wakeups|
  {
    && q == ApplyAll(q0, cap, acts) && h == h0 + Pushes(acts)
    && WaitActs(q0, cap, offset, wakeups) == acts + WaitActs(q, cap, offset, wakeups[k..])
  }

  /** One wake-up more that does not end the wait. */
  lemma OneWakeup(q0: Queue, h0: History, cap: nat, offset: int, wakeups: seq<Wakeup>, k: nat,
                  acts: seq<Action>, q: Queue, h: History)
    requires 1 <= cap && k < |wakeups| && !HasReady(q.items, offset) && !Ends(wakeups[k])
    requires SoFar(q0, h0, cap, offset, wakeups, k, acts, q, h)
    ensures SoFar(q0, h0, cap, offset, wakeups, k + 1, acts + wakeups[k].acts,
                  ApplyAll(q, cap, wakeups[k].acts), h + Pushes(wakeups[k].acts))
  {
    assert wakeups[k..][1..] == wakeups[k + 1..];
    ApplyAllAppend(q0, cap, acts, wakeups[k].acts);
    PushesAppend(acts, wakeups[k].acts);
  }

  lemma WaitStarts(q: Queue, h: History, cap: nat, offset: int, wakeups: seq<Wakeup>)
    requires 1 <= cap
    ensures SoFar(q, h, cap, offset, wakeups, 0, [], q, h)
  {
    assert wakeups[0..] == wakeups;
  }

  lemma WaitStops(q0: Queue, h0: History, cap: nat, offset: int, wakeups: seq<Wakeup>, k: nat,
                  acts: seq<Action>, q: Queue, h: History)
    requires 1 <= cap && k <= |wakeups| && SoFar(q0, h0, cap, offset, wakeups, k, acts, q, h)
    requires HasReady(q.items, offset) || k == |wakeups| || Ends(wakeups[k])
    ensures q == ApplyAll(q0, cap, acts) && h == h0 + Pushes(acts) && acts == WaitActs(q0, cap, offset, wakeups)
  {
  }

  class UpdateBuffer {
    var items: array<Item>
    var len: nat  // the slice is items[..len]
    var nextID: int
    const cap: nat
    ghost var history: History  // every update ever pushed; id k + 1 belongs to history[k]

    ghost predicate Valid()
      reads this, items
    {
      && 1 <= cap
      && len <= items.Length && len <= cap
      && nextID == |history| + 1
      && IsTail(items[..len], history, nextID - len)
    }

    ghost function Contents(): seq<Item>
      reads this, items
      requires len <= items.Length
    {
      items[..len]
    }

    ghost function Queue(): Queue
      reads this, items
      requires len <= items.Length
    {
      BufferSpec.Queue(Contents(), nextID)
    }

    /** The id of the oldest item, or nextID when the buffer is empty. */
    ghost function Lo(): int
      reads this
    {
      nextID - len
    }

    constructor ()
      ensures Valid() && fresh(items)
      ensures Contents() == [] && history == [] && nextID == 1 && cap == 10_000
    {
      items := new Item[0];
      len := 0;
      nextID := 1;
      cap := DEFAULT_CAP;
      history := [];
    }

    /** copy(items, items[i:]) */
    method Shift(i: nat)
      requires i <= len <= items.Length
      modifies items
      ensures items[..len - i] == old(items[..len])[i..]
    {
      var j := 0;
      ghost var was := items[..len];
      while j < len - i
        invariant 0 <= j <= len - i
        invariant forall k :: 0 <= k < j ==> items[k] == was[i + k]
        invariant forall k :: j <= k < len ==> items[k] == was[k]
        modifies items
      {
        items[j] := items[j + i];
        j := j + 1;
      }
    }

    /** Shifts the slice left over its first `i` items, in the same array. */
    method DropFront(i: nat)
      requires Valid() && i <= len
      modifies `len, items
      ensures Valid()
      ensures Contents() == old(Contents())[i..]
    {
      TailDrops(Contents(), history, Lo(), i);
      Shift(i);
      len := len - i;
    }

    /** Go's append: a new backing array only when the old one is used up. */
    method Append(it: Item)
      requires len <= items.Length
      modifies this`items, this`len, items
      ensures items == old(items) || fresh(items)
      ensures len <= items.Length
      ensures Contents() == old(Contents()) + [it]
    {
      if len == items.Length {
        var bigger := new Item[2 * len + 1](_ => it);
        var j := 0;
        while j < len
          invariant 0 <= j <= len
          invariant forall k :: 0 <= k < j ==> bigger[k] == items[k]
          modifies bigger
        {
          bigger[j] := items[j];
          j := j + 1;
        }
        items := bigger;
      }
      items[len] := it;
      len := len + 1;
    }

    /** A full buffer loses its oldest item. */
    method MakeRoom()
      requires 1 <= cap && len <= items.Length && len <= cap
      modifies `len, items
      ensures len <= items.Length && len < cap
      ensures Contents() == if old(len) >= cap then old(Contents())[1..] else old(Contents())
    {
      if len >= cap {
        Shift(1);
        len := len - 1;
      }
    }

    /** Assigns the next id and appends; a full buffer first loses its oldest item. */
    method Push(u: Update)
      requires Valid()
      modifies this, items
      ensures Valid() && (items == old(items) || fresh(items))
      ensures history == old(history) + [u]
      ensures Contents() == PushSeq(old(Contents()), cap, old(nextID), u)
      ensures Lo() == old(Lo()) + if old(len) == cap then 1 else 0
    {
      ghost var was, h, lo := Contents(), history, Lo();
      assert IsTail(was, h, lo) && |was| == len;
      MakeRoom();
      var id := nextID;
      Append(Item(id, u));
      nextID := nextID + 1;
      history := history + [u];
      Pushed(was, h, lo, u);
    }

    lemma Pushed(was: seq<Item>, h: History, lo: int, u: Update)
      requires 1 <= cap && len <= items.Length && IsTail(was, h, lo) && |was| <= cap
      requires Contents() == PushSeq(was, cap, |h| + 1, u) && history == h + [u] && nextID == |h| + 2
      ensures Valid() && Lo() == lo + if |was| == cap then 1 else 0
    {
      PushMovesLow(was, h, lo, cap, u);
    }

    /** The scan for the first item not below `bound`. */
    method Scan(bound: int) returns (i: nat)
      requires Valid()
      ensures i == Cut(Contents(), bound)
      ensures i <= len
    {
      i := 0;
      while i < len && items[i].id < bound
        invariant 0 <= i <= len
        invariant forall k :: 0 <= k < i ==> items[k].id < bound
      {
        i := i + 1;
      }
      assert IsCut(Contents(), bound, i);
      CutIs(Contents(), bound, i);
    }

    /** Drops every item below `upTo`. */
    method Ack(upTo: int)
      requires Valid()
      modifies `len, items
      ensures Valid()
      ensures Contents() == AckSeq(old(Contents()), upTo) && Queue() == Apply(old(Queue()), cap, BufferSpec.Ack(upTo))
      ensures Lo() == Min(Max(old(Lo()), upTo), nextID)
    {
      AckMovesLow(Contents(), history, Lo(), upTo);
      var i := Scan(upTo);
      if i > 0 {
        DropFront(i);
      }
    }

    /** Copies the first `n` items from index `i` on into an array of their own. */
    method CopyOut(i: nat, n: nat) returns (out: array<Item>)
      requires Valid() && i + n <= len
      ensures fresh(out) && out[..] == Contents()[i..i + n]
    {
      out := new Item[n](k requires 0 <= k < n && i + n <= items.Length reads this, items => items[i + k]);
    }

    /** Removes what lies below a positive offset and copies out the first `limit` items. */
    method Peek(offset: int, limit: int) returns (out: array<Item>)
      requires Valid()
      modifies `len, items
      ensures Valid()
      ensures Contents() == if offset > 0 then AckSeq(old(Contents()), offset) else old(Contents())
      ensures Queue() == Apply(old(Queue()), cap, BufferSpec.Peek(offset))
      ensures fresh(out) && out[..] == Snapshot(Contents(), 0, limit)
    {
      if offset > 0 {
        var i := Scan(offset);
        if i > 0 {
          DropFront(i);
        }
      }
      var n := len;
      if limit > 0 && n > limit {
        n := limit;
      }
      out := CopyOut(0, n);
      assert Contents()[0..0 + n] == Contents()[..n];
    }

    method HasReadyNow(offset: int) returns (ready: bool)
      requires Valid()
      ensures ready == HasReady(Contents(), offset)
    {
      var k := 0;
      while k < len
        invariant 0 <= k <= len
        invariant forall j :: 0 <= j < k ==> items[j].id < offset
      {
        if items[k].id >= offset {
          assert Contents()[k].id >= offset;
          return true;
        }
        k := k + 1;
      }
      return false;
    }

    method SnapshotNow(offset: int, limit: int) returns (out: array<Item>)
      requires Valid()
      ensures fresh(out) && out[..] == Snapshot(Contents(), offset, limit)
    {
      var i := 0;
      if offset > 0 {
        i := Scan(offset);
      }
      var n := len - i;
      if limit > 0 && n > limit {
        n := limit;
      }
      out := CopyOut(i, n);
    }

    method Clear()
      requires Valid()
      modifies `len
      ensures Valid() && Contents() == []
    {
      len := 0;
    }

    method Len() returns (n: nat)
      requires Valid()
      ensures n == |Contents()|
    {
      n := len;
    }

    /** One thing another goroutine does while this one does not hold the buffer's mutex. */
    method Do(a: Action)
      requires Valid()
      modifies this, items
      ensures Valid() && (items == old(items) || fresh(items))
      ensures history == old(history) + if a.Push? then [a.u] else []
      ensures Queue() == Apply(old(Queue()), cap, a)
    {
      if a.Push? {
        Push(a.u);
      } else {
        Clear();
      }
    }

    /** Everything they do meanwhile. */
    method Interfere(acts: seq<Action>)
      requires Valid()
      modifies this, items
      ensures Valid() && (items == old(items) || fresh(items))
      ensures history == old(history) + Pushes(acts)
      ensures Queue() == ApplyAll(old(Queue()), cap, acts)
      decreases |acts|
    {
      if acts == [] {
        return;
      }
      var first, rest := acts[0], acts[1..];
      ghost var q0, h0 := Queue(), history;
      assert ApplyAll(q0, cap, acts) == ApplyAll(Apply(q0, cap, first), cap, rest);
      assert Pushes(acts) == (if first.Push? then [first.u] else []) + Pushes(rest);
      Do(first);
      Interfere(rest);
      assert history == h0 + Pushes(acts);
    }

    /** Blocks until something is ready, the deadline passes or the request is cancelled, and
        returns a private copy of what is there at that moment. `wakeups` is what the clock,
        the request and the other goroutines do meanwhile; `acts` collects what was done. */
    method Wait(offset: int, limit: int, timeout: int, wakeups: seq<Wakeup>)
      returns (out: array<Item>, ghost acts: seq<Action>)
      requires Valid()
      modifies this, items
      ensures Valid() && (items == old(items) || fresh(items))
      ensures history == old(history) + Pushes(acts)
      ensures Queue() == ApplyAll(old(Queue()), cap, acts)
      ensures fresh(out) && out != items
      ensures out[..] == Snapshot(Contents(), offset, limit)
      ensures out[..] != [] <==> HasReady(Contents(), offset)
      ensures timeout <= 0 || HasReady(old(Contents()), offset) ==> acts == []
      ensures timeout > 0 ==> acts == WaitActs(old(Queue()), cap, offset, wakeups)
    {
      acts := [];
      SnapshotIs(Contents(), history, Lo(), offset, limit);
      var ready := HasReadyNow(offset);
      if ready {
        out := SnapshotNow(offset, limit);
      } else if timeout <= 0 {
        out := new Item[0];
      } else {
        acts := Park(offset, wakeups);
        SnapshotIs(Contents(), history, Lo(), offset, limit);
        out := SnapshotNow(offset, limit);
      }
    }

    /** cond.Wait() and the look at the buffer after it. */
    method Sleep(offset: int, acts: seq<Action>) returns (ready: bool)
      requires Valid()
      modifies this, items
      ensures Valid() && (items == old(items) || fresh(items))
      ensures history == old(history) + Pushes(acts)
      ensures Queue() == ApplyAll(old(Queue()), cap, acts)
      ensures ready == HasReady(Contents(), offset)
    {
      Interfere(acts);
      ready := HasReadyNow(offset);
    }

    /** The waiting loop: parked until something is ready or a wake-up ends the wait. */
    method Park(offset: int, wakeups: seq<Wakeup>) returns (ghost acts: seq<Action>)
      requires Valid()
      modifies this, items
      ensures Valid() && (items == old(items) || fresh(items))
      ensures history == old(history) + Pushes(acts)
      ensures Queue() == ApplyAll(old(Queue()), cap, acts)
      ensures acts == WaitActs(old(Queue()), cap, offset, wakeups)
    {
      acts := [];
      var ready := HasReadyNow(offset);
      var k := 0;
      ghost var q0, h0 := Queue(), history;
      WaitStarts(q0, h0, cap, offset, wakeups);
      while !ready && k < |wakeups| && !wakeups[k].expired && !wakeups[k].cancelled
        invariant 0 <= k <= |wakeups|
        invariant Valid() && (items == old(items) || fresh(items))
        invariant ready == HasReady(Contents(), offset)
        invariant SoFar(q0, h0, cap, offset, wakeups, k, acts, Queue(), history)
        decreases |wakeups| - k
      {
        OneWakeup(q0, h0, cap, offset, wakeups, k, acts, Queue(), history);
        ready := Sleep(offset, wakeups[k].acts);
        acts := acts + wakeups[k].acts;
        k := k + 1;
      }
      WaitStops(q0, h0, cap, offset, wakeups, k, acts, Queue(), history);
    }
  }
}
