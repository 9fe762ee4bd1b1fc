/** The call stack: a linked stack and a free list sharing one array of frames. */
module CallStack {
  import Program

  datatype StackFrame = StackFrame(data: bv32, next: int)

  const CAPACITY: nat := Program.STACK_CAPACITY
  const EMPTY: bv32 := 0xFFFF_FFFF

  /** The values are 24-bit code offsets, so none of them is the empty word. */
  predicate Offsets(values: seq<bv32>) {
    forall i :: 0 <= i < |values| ==> values[i] < 0x100_0000
  }

  // ----- Chains -----

  /** The slot before position `k` of a chain, or -1 at its end. */
  function Before(ids: seq<nat>, k: nat): int
    requires k < |ids|
  {
    if k == 0 then -1 else ids[k - 1]
  }

  /** Following `next` from `start` visits the slots of `ids` from last to first and then ends. */
  predicate IsChain(frames: seq<StackFrame>, start: int, ids: seq<nat>) {
    && (forall k :: 0 <= k < |ids| ==> ids[k] < |frames|)
    && start == (if ids == [] then -1 else ids[|ids| - 1])
    && (forall k :: 0 <= k < |ids| ==> frames[ids[k]].next == Before(ids, k))
  }

  predicate Distinct(ids: seq<nat>) {
    forall i, j :: 0 <= i < j < |ids| ==> ids[i] != ids[j]
  }

  predicate Disjoint(a: seq<nat>, b: seq<nat>) {
    forall i, j :: 0 <= i < |a| && 0 <= j < |b| ==> a[i] != b[j]
  }

  predicate Covers(a: seq<nat>, b: seq<nat>) {
    |a| + |b| == CAPACITY && forall i :: 0 <= i < CAPACITY ==> i in a || i in b
  }

  /** The used and the free chain are acyclic and disjoint and together cover all slots. */
  predicate WellLinked(frames: seq<StackFrame>, top: int, free: int, used: seq<nat>, spare: seq<nat>) {
    && |frames| == CAPACITY
    && IsChain(frames, top, used)
    && IsChain(frames, free, spare)
    && Distinct(used)
    && Distinct(spare)
    && Disjoint(used, spare)
    && Covers(used, spare)
  }

  /** The values in the used slots, oldest first. */
  function Values(frames: seq<StackFrame>, used: seq<nat>): seq<bv32>
    requires forall k :: 0 <= k < |used| ==> used[k] < |frames|
  {
    seq(|used|, k requires 0 <= k < |used| => frames[used[k]].data)
  }

  function Last(ids: seq<nat>): nat
    requires ids != []
  {
    ids[|ids| - 1]
  }

  function Front(ids: seq<nat>): seq<nat>
    requires ids != []
  {
    ids[..|ids| - 1]
  }

  /** Moving the end of one chain to the end of the other keeps a cover of all slots. */
  lemma MoveKeepsCover(a: seq<nat>, b: seq<nat>)
    requires Covers(a, b) && Distinct(a) && Distinct(b) && Disjoint(a, b) && b != []
    ensures Covers(a + [Last(b)], Front(b)) && Distinct(a + [Last(b)])
    ensures Distinct(Front(b)) && Disjoint(a + [Last(b)], Front(b))
  {
    forall i | 0 <= i < CAPACITY
      ensures i in a + [Last(b)] || i in Front(b)
    {
      if i in b && i != Last(b) {
        var k :| 0 <= k < |b| && b[k] == i;
        assert Front(b)[k] == i;
      }
    }
  }

  lemma CoversSymmetric(a: seq<nat>, b: seq<nat>)
    ensures Covers(a, b) <==> Covers(b, a)
    ensures Disjoint(a, b) <==> Disjoint(b, a)
  {
  }

  /** A slot outside a chain, pointed at its end, lengthens it. */
  lemma ChainExtended(frames: seq<StackFrame>, top: int, a: seq<nat>, slot: nat, x: bv32)
    requires IsChain(frames, top, a) && slot < |frames| && slot !in a
    ensures IsChain(frames[slot := StackFrame(x, top)], slot, a + [slot])
  {
    var moved := frames[slot := StackFrame(x, top)];
    forall k | 0 <= k < |a| + 1
      ensures moved[(a + [slot])[k]].next == Before(a + [slot], k)
    {
      if k < |a| {
        assert a[k] in a;
      }
    }
  }

  lemma PushKeeps(frames: seq<StackFrame>, top: int, free: int, used: seq<nat>, spare: seq<nat>, x: bv32)
    requires WellLinked(frames, top, free, used, spare) && free != -1
    ensures spare != [] && free == Last(spare)
    ensures var pushed := frames[free := StackFrame(x, top)];
            && WellLinked(pushed, free, frames[free].next, used + [free], Front(spare))
            && Values(pushed, used + [free]) == Values(frames, used) + [x]
  {
    hide Covers, Distinct;
    assert Last(spare) !in used;
    LastNotInFront(spare);
    ChainExtended(frames, top, used, free, x);
    MoveKeepsCover(used, spare);
  }

  lemma PopKeeps(frames: seq<StackFrame>, top: int, free: int, used: seq<nat>, spare: seq<nat>)
    requires WellLinked(frames, top, free, used, spare) && top != -1
    ensures used != [] && top == Last(used)
    ensures var popped := frames[top := frames[top].(next := free)];
            && WellLinked(popped, frames[top].next, top, Front(used), spare + [top])
            && Values(frames, used) == Values(popped, Front(used)) + [frames[top].data]
  {
    hide Covers, Distinct;
    CoversSymmetric(used, spare);
    assert Last(used) !in spare;
    LastNotInFront(used);
    ChainExtended(frames, free, spare, top, frames[top].data);
    MoveKeepsCover(spare, used);
    CoversSymmetric(spare + [top], Front(used));
  }

  lemma LastNotInFront(ids: seq<nat>)
    requires Distinct(ids) && ids != []
    ensures Last(ids) !in Front(ids)
  {
  }

  // ----- The stack -----

  class Stack {
    const frames: array<StackFrame>
    var top: int
    var free: int
    /** The slots in use, oldest first, and the free slots, next to be used last. */
    ghost var used: seq<nat>
    ghost var spare: seq<nat>

    ghost predicate Valid()
      reads this, frames
    {
      WellLinked(frames[..], top, free, used, spare)
    }

    /** The stored values, oldest first. */
    ghost function Contents(): (s: seq<bv32>)
      requires Valid()
      reads this, frames
      ensures |s| == |used| <= CAPACITY
    {
      Values(frames[..], used)
    }

    constructor ()
      ensures Valid() && fresh(frames) && Contents() == []
    {
      frames := new StackFrame[CAPACITY](_ => StackFrame(0, 0));
      new;
      top := -1;
      free := 0;
      for i := 0 to CAPACITY - 1
        invariant forall k :: 0 <= k < i ==> frames[k].next == k + 1
        invariant top == -1 && free == 0 && fresh(frames)
      {
        frames[i] := frames[i].(next := i + 1);
      }
      frames[CAPACITY - 1] := frames[CAPACITY - 1].(next := -1);
      used := [];
      spare := seq(CAPACITY, k requires 0 <= k < CAPACITY => CAPACITY - 1 - k);
      forall i | 0 <= i < CAPACITY
        ensures i in spare
      {
        assert spare[CAPACITY - 1 - i] == i;
      }
    }

    /** Pushes a value unless all 128 slots are taken. */
    method Push(x: bv32) returns (ok: bool)
      requires Valid()
      modifies this, frames
      ensures Valid()
      ensures ok == (|old(Contents())| < CAPACITY)
      ensures Contents() == if ok then old(Contents()) + [x] else old(Contents())
    {
      hide Distinct, Disjoint, Values;
      if free == -1 {
        return false;
      }
      PushKeeps(frames[..], top, free, used, spare, x);
      var slot := free;
      free := frames[slot].next;
      frames[slot] := frames[slot].(data := x);
      frames[slot] := frames[slot].(next := top);
      top := slot;
      used, spare := used + [slot], Front(spare);
      assert frames[..] == old(frames[..])[slot := StackFrame(x, old(top))];
      ok := true;
    }

    /** Pops the newest value, or reports an empty stack by the all-ones word. */
    method Pop() returns (x: bv32)
      requires Valid()
      modifies this, frames
      ensures Valid()
      ensures old(Contents()) == [] ==> x == EMPTY && Contents() == []
      ensures old(Contents()) != [] ==> old(Contents()) == Contents() + [x]
      ensures Offsets(old(Contents())) ==> (x == EMPTY <==> old(Contents()) == [])
    {
      hide Distinct, Disjoint, Covers;
      if top == -1 {
        return EMPTY;
      }
      PopKeeps(frames[..], top, free, used, spare);
      var slot := top;
      x := frames[slot].data;
      top := frames[slot].next;
      frames[slot] := frames[slot].(next := free);
      free := slot;
      used, spare := Front(used), spare + [slot];
      assert x == old(Contents())[|old(Contents())| - 1];
      assert frames[..] == old(frames[..])[slot := old(frames[slot]).(next := old(free))];
    }

    /** The newest value, or the all-ones word. */
    method Peek() returns (x: bv32)
      requires Valid()
      ensures x == if Contents() == [] then EMPTY else Contents()[|Contents()| - 1]
      ensures Offsets(Contents()) ==> (x == EMPTY <==> Contents() == [])
    {
      if top == -1 {
        return EMPTY;
      }
      return frames[top].data;
    }
  }
}
