/** The twist of a whole generation: the two loops of FUN_MersenneTwisterRand and the word that wraps
    around, inside any program. */
module TwisterLoops {
  import opened Words
  import opened Alu
  import opened Program
  import opened Blocks
  import opened Words32
  import opened Reaching
  import opened Symbolic
  import opened Twister
  import opened MersenneCode

  // ----- What the loops keep -----

  /** Memory outside the blob is unchanged. */
  predicate Beyond(m: Memory, n: Memory, base: nat) {
    |m| == |n| && forall i :: 0 <= i < |m| && !(base <= i < base + INDEX + 4) ==> m[i] == n[i]
  }

  /** The registers and memory while the slots below `k` are renewed in generation `g`, from memory `m`. */
  predicate Sliding(e: Env, base: nat, seed: bv32, g: nat, k: nat, m: Memory) {
    && k <= N
    && |e.mem| == MEMORY_SIZE
    && Placed(base)
    && MagSet(e.mem)
    && Holds(e.mem, base, seed, g, k)
    && Beyond(m, e.mem, base)
    && e.c0 == Word(k)
  }

  function Successor(k: nat): nat { if k + 1 < N then k + 1 else 0 }

  /** The recurrence applied to slots k, k+1 and k+397, wrapping around, gives the next generation's word. */
  lemma SlotRenewed(mem: Memory, base: nat, seed: bv32, g: nat, k: nat)
    requires |mem| == MEMORY_SIZE && Placed(base) && k < N && Holds(mem, base, seed, g, k)
    ensures Twist(Slot(mem, base, k), Slot(mem, base, Successor(k)), Slot(mem, base, Middle(k)))
            == Stream(seed, N * g + k + N)
  {
    hide Twist, Slot, Stream;
    var n := N * g + k;
    assert Slot(mem, base, k) == Stream(seed, n);
    assert Slot(mem, base, Successor(k)) == Stream(seed, n + 1);
    assert Slot(mem, base, Middle(k)) == Stream(seed, n + 397);
    Recurrence(seed, n);
  }

  lemma Recurrence(seed: bv32, n: nat)
    ensures Stream(seed, n + N) == Twist(Stream(seed, n), Stream(seed, n + 1), Stream(seed, n + 397))
  {
    hide Twist;
  }

  /** Storing a word in a slot changes that slot alone. */
  lemma SlotStored(mem: Memory, base: nat, k: nat, x: bv32, j: nat)
    requires |mem| == MEMORY_SIZE && Placed(base) && k < N && j < N
    ensures Slot(SetWord(mem, base + 4 * k, x), base, j) == if j == k then x else Slot(mem, base, j)
  {
    hide WordAt, SetWord;
    WordAfterSet(mem, base + 4 * k, x, base + 4 * j);
  }

  lemma MagKept(m: Memory, n: Memory, base: nat)
    requires |m| == |n| == MEMORY_SIZE && Placed(base) && Beyond(m, n, base) && MagSet(m)
    ensures MagSet(n)
  {
    hide Cat;
  }

  lemma BeyondStored(m: Memory, mem: Memory, base: nat, a: nat, x: bv32)
    requires |mem| == MEMORY_SIZE && Placed(base) && Beyond(m, mem, base) && base <= a <= base + INDEX
    ensures Beyond(m, SetWord(mem, a, x), base) && Beyond(mem, SetWord(mem, a, x), base)
  {
    hide B0, B1, B2, B3;
  }

  /** Storing the next generation's word in slot k moves the window on. */
  lemma SlideMemory(mem: Memory, base: nat, seed: bv32, g: nat, k: nat)
    requires |mem| == MEMORY_SIZE && Placed(base) && k < N && Holds(mem, base, seed, g, k)
    ensures Holds(SetWord(mem, base + 4 * k, Stream(seed, N * g + k + N)), base, seed, g, k + 1)
  {
    hide Slot, SetWord, Stream;
    var x := Stream(seed, N * g + k + N);
    var m := SetWord(mem, base + 4 * k, x);
    forall j: nat | 0 <= j < N ensures Slot(m, base, j) == Stream(seed, StreamIndex(g, k + 1, j)) {
      SlotStored(mem, base, k, x, j);
    }
  }

  /** One turn of a loop moves the window on by one slot. */
  lemma Slide(e: Env, base: nat, seed: bv32, g: nat, k: nat, m: Memory)
    requires Sliding(e, base, seed, g, k, m) && k + 1 < N
    ensures Sliding(Renewed(e, base, k), base, seed, g, k + 1, m) && Renewed(e, base, k).r4 == e.r4
  {
    hide Slot, SetWord, Stream, Twist, Holds, MagSet, Word, Beyond, Joined, Mag, Half, Middle, Placed;
    PlacedSlots(base);
    SlotRenewed(e.mem, base, seed, g, k);
    SlideMemory(e.mem, base, seed, g, k);
    var x := Stream(seed, N * g + k + N);
    BeyondStored(m, e.mem, base, base + 4 * k, x);
    MagKept(e.mem, SetWord(e.mem, base + 4 * k, x), base);
  }

  lemma PlacedSlots(base: nat)
    requires Placed(base)
    ensures base + INDEX + 4 <= MEMORY_SIZE
  {
  }

  // ----- The loops -----

  function Bound(ahead: bool): nat { if ahead then 227 else 623 }

  function Loop(ahead: bool, name: string): seq<Insn> { Body(ahead) + Counting(Bound(ahead), name) }

  predicate LoopAt(p: Prog, at: nat, ahead: bool, name: string) {
    BlockAt(p, at, Loop(ahead, name)) && at + 22 < |p.insns| && name in p.labels && p.labels[name] == at
  }

  lemma BodyLength(ahead: bool)
    ensures |Body(ahead)| == 20
  {
  }

  lemma Turn(p: Prog, u: set<LocalKey>, s: State, at: nat, ahead: bool, name: string, d: Data, e: Env, base: nat,
      k: nat, fl: Comparison)
    returns (gl: Comparison)
    requires LoopAt(p, at, ahead, name) && s.status == Running
    requires |e.mem| == MEMORY_SIZE && Placed(base) && k < Bound(ahead) && (ahead <==> k < 227) && MagSet(e.mem)
    requires Get(d, F0) == Word(base) && e.c0 == Word(k)
    ensures var f := Renewed(e, base, k);
            Goes(p, u, In(s, at, d, e, fl), In(s, if k + 1 < Bound(ahead) then at else at + 22, d, f, gl))
  {
    hide BlockTakes, Body, Word, Build, MagSet, Goes, Renewed, Get, Compare, Counting;
    var f := Renewed(e, base, k);
    RenewedCounter(e, base, k);
    BodyEffect(d, e, base, k, ahead);
    BodyLength(ahead);
    BlockSplit(p, at, Body(ahead), Counting(Bound(ahead), name));
    GoesTaken(p, u, In(s, at, d, e, fl), Body(ahead), d, e, f);
    GoesCounting(p, u, In(s, at + 20, d, f, fl), Bound(ahead), name, d, f, k + 1);
    gl := Compare(Word(k + 1), Word(Bound(ahead)));
    GoesOn(p, u, In(s, at, d, e, fl), In(s, at + 20, d, f, fl),
        In(s, if k + 1 < Bound(ahead) then at else at + 22, d, f, gl));
  }

  lemma RenewedCounter(e: Env, base: nat, k: nat)
    requires |e.mem| == MEMORY_SIZE && Placed(base) && k + 1 < N
    ensures Renewed(e, base, k).c0 == Word(k + 1) && |Renewed(e, base, k).mem| == MEMORY_SIZE
  {
    hide Word, SetWord, Twist;
  }

  /** A loop, entered with the slots below `k` renewed, ends with all slots below its bound renewed. */
  lemma {:induction false} LoopRuns(p: Prog, u: set<LocalKey>, s: State, at: nat, ahead: bool, name: string, d: Data,
      e: Env, base: nat, seed: bv32, g: nat, k: nat, m: Memory, fl: Comparison) returns (f: Env, gl: Comparison)
    requires LoopAt(p, at, ahead, name) && s.status == Running
    requires Sliding(e, base, seed, g, k, m) && k < Bound(ahead) && (ahead <==> k < 227)
    requires Get(d, F0) == Word(base)
    ensures Goes(p, u, In(s, at, d, e, fl), In(s, at + 22, d, f, gl))
    ensures Sliding(f, base, seed, g, Bound(ahead), m) && f.r4 == e.r4
    decreases Bound(ahead) - k
  {
    hide Goes, Build, Word, MagSet, Holds, Beyond, Placed, LoopAt, Get, Renewed;
    var h := Renewed(e, base, k);
    gl := Turn(p, u, s, at, ahead, name, d, e, base, k, fl);
    Slide(e, base, seed, g, k, m);
    if k + 1 < Bound(ahead) {
      var hl := gl;
      f, gl := LoopRuns(p, u, s, at, ahead, name, d, h, base, seed, g, k + 1, m, hl);
      GoesOn(p, u, In(s, at, d, e, fl), In(s, at, d, h, hl), In(s, at + 22, d, f, gl));
    } else {
      f := h;
    }
  }
}
