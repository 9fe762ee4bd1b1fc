/** FUN_MersenneTwisterInit inside any program, and the words drawn after it. */
module TwisterInit {
  import opened Words
  import opened Alu
  import opened Program
  import opened Blocks
  import opened Words32
  import opened Reaching
  import opened Symbolic
  import opened Twister
  import opened MersenneCode
  import opened TwisterLoops
  import opened TwisterRand
  import opened TwisterCalls

  const LOOP := "LAB_FUN_MersenneTwisterInit_Loop"

  // ----- The code -----

  function Constants(n: nat): Operand
    requires n < WORD_LIMIT
  {
    Based(R0.Number(), Int, Word(n), Int)
  }

  function Head(): seq<Insn> {
    [Lit(MOV, R0, Word(MAG)), Insn(MOV, Constants(0), Literal(0, Int)), Insn(MOV, Constants(4), Literal(MATRIX, Int)),
     StoreInsn(Field(0), F1), Lit(MOV, C0, Word(1))]
  }

  /** The word before is multiplied by 6069 ... */
  function Multiply(): seq<Insn> {
    [RR(MOV, R0, C0), Lit(SUB, R0, Word(1)), Lit(MUL, R0, Word(4)), LoadInsn(R1, Element()), Lit(MUL, R1, Word(6069))]
  }

  /** ... and goes to the next slot. */
  function Advance(): seq<Insn> {
    [Lit(ADD, R0, Word(4)), StoreInsn(Element(), R1), Lit(ADD, C0, Word(1))]
  }

  function Tail(): seq<Insn> { [StoreInsn(Index(), C0), RegInsn(MOV, R0.Number(), Int, F0, Int)] }

  function Save(): seq<Insn> { [Insn(PUT, Literal(0, Int), Reg(C0.Number(), Int))] }

  function Restore(): seq<Insn> { [Insn(GET, Reg(C0.Number(), Int), Literal(0, Int)), Insn(RET, NoOperand, NoOperand)] }

  function InitCode(): seq<Insn> {
    Save() + Head() + Multiply() + Advance() + Counting(624, LOOP) + Tail() + Restore()
  }

  predicate InitAt(p: Prog, at: nat) {
    BlockAt(p, at, InitCode()) && LOOP in p.labels && p.labels[LOOP] == at + 6
  }

  lemma InitParts(p: Prog, at: nat)
    requires InitAt(p, at)
    ensures at + 20 <= |p.insns|
    ensures BlockAt(p, at, Save()) && BlockAt(p, at + 1, Head())
    ensures BlockAt(p, at + 6, Multiply()) && BlockAt(p, at + 11, Advance()) && BlockAt(p, at + 14, Counting(624, LOOP))
    ensures BlockAt(p, at + 16, Tail()) && BlockAt(p, at + 18, Restore())
  {
    hide Word, Lit, StoreInsn, LoadInsn, RR, Element, Field, Constants;
    InitLengths();
    hide Save, Head, Multiply, Advance, Counting, Tail, Restore;
    assert at + 20 <= |p.insns|;
    hide BlockAt;
    var a := Save();
    var b := a + Head();
    var c := b + Multiply();
    var d := c + Advance();
    var e := d + Counting(624, LOOP);
    var f := e + Tail();
    BlockSplit(p, at, f, Restore());
    BlockSplit(p, at, e, Tail());
    BlockSplit(p, at, d, Counting(624, LOOP));
    BlockSplit(p, at, c, Advance());
    BlockSplit(p, at, b, Multiply());
    BlockSplit(p, at, a, Head());
  }

  lemma InitLengths()
    ensures |Save()| == 1 && |Head()| == 5 && |Multiply()| == 5 && |Advance()| == 3 && |Counting(624, LOOP)| == 2
    ensures |Tail()| == 2 && |Restore()| == 2
  {
    hide Word, Lit, StoreInsn, LoadInsn, RR, Element, Field, Constants;
  }

  // ----- What the pieces do -----

  /** Memory outside the blob and the two constants is unchanged. */
  predicate Apart(m: Memory, n: Memory, base: nat) {
    |m| == |n| && forall i :: 0 <= i < |m| && !(base <= i < base + INDEX + 4) && !(MAG <= i < MAG + 8) ==> m[i] == n[i]
  }

  /** The first `k` slots are seeded, starting from memory `m`. */
  predicate Seeding(mem: Memory, base: nat, seed: bv32, k: nat, m: Memory) {
    && k <= N
    && |mem| == MEMORY_SIZE
    && Placed(base)
    && MagSet(mem)
    && (forall j :: 0 <= j < k ==> Slot(mem, base, j) == Stream(seed, j))
    && Apart(m, mem, base)
  }

  lemma ApartStored(m: Memory, mem: Memory, base: nat, a: nat, x: bv32)
    requires |mem| == MEMORY_SIZE && Placed(base) && Apart(m, mem, base)
    requires base <= a <= base + INDEX || MAG <= a <= MAG + 4
    ensures Apart(m, SetWord(mem, a, x), base)
  {
    hide B0, B1, B2, B3;
  }

  lemma ApartSame(m: Memory, base: nat)
    ensures Apart(m, m, base)
  {
  }

  function Started(m: Memory, base: nat, seed: bv32): Memory
    requires |m| == MEMORY_SIZE && Placed(base)
  {
    SetWord(SetWord(SetWord(m, MAG, 0), MAG + 4, MATRIX), base, seed)
  }

  lemma StartSeeds(m: Memory, base: nat, seed: bv32)
    requires |m| == MEMORY_SIZE && Placed(base)
    ensures Seeding(Started(m, base, seed), base, seed, 1, m)
  {
    hide SetWord, WordAt, Apart;
    var m1 := SetWord(m, MAG, 0);
    var m2 := SetWord(m1, MAG + 4, MATRIX);
    ApartSame(m, base);
    ApartStored(m, m, base, MAG, 0);
    ApartStored(m, m1, base, MAG + 4, MATRIX);
    ApartStored(m, m2, base, base, seed);
    WordAfterSet(m, MAG, 0, MAG);
    WordAfterSet(m1, MAG + 4, MATRIX, MAG);
    WordAfterSet(m1, MAG + 4, MATRIX, MAG + 4);
    WordAfterSet(m2, base, seed, MAG);
    WordAfterSet(m2, base, seed, MAG + 4);
    WordAfterSet(m2, base, seed, base);
  }

  lemma SeedSlot(mem: Memory, base: nat, seed: bv32, k: nat, m: Memory)
    requires Seeding(mem, base, seed, k, m) && k < N
    ensures Seeding(SetWord(mem, base + 4 * k, Stream(seed, k)), base, seed, k + 1, m)
  {
    hide Slot, SetWord, WordAt, Stream, MagSet, Apart, Beyond;
    var x := Stream(seed, k);
    var n := SetWord(mem, base + 4 * k, x);
    ApartStored(m, mem, base, base + 4 * k, x);
    Beyond0(mem, base);
    BeyondStored(mem, mem, base, base + 4 * k, x);
    MagKept(mem, n, base);
    forall j: nat | 0 <= j < k + 1 ensures Slot(n, base, j) == Stream(seed, j) {
      SlotStored(mem, base, k, x, j);
    }
  }

  lemma HeadEffect(d: Data, e: Env, base: nat)
    requires |e.mem| == MEMORY_SIZE && Placed(base) && Get(d, F0) == Word(base)
    ensures BlockTakes(Head(), d, e, e.(r0 := Word(MAG), c0 := Word(1), mem := Started(e.mem, base, e.f1)))
  {
    hide Takes, BlockTakes, Word, Build, Get, SetWord, Lit, StoreInsn, AddressIs, Field;
    var c := Head();
    var e1 := e.(r0 := Word(MAG));
    var e2 := e1.(mem := SetWord(e1.mem, MAG, 0));
    var e3 := e2.(mem := SetWord(e2.mem, MAG + 4, MATRIX));
    var e4 := e3.(mem := SetWord(e3.mem, base, e.f1));
    var e5 := e4.(c0 := Word(1));
    TakesLiteral(d, e, R0, Word(MAG));
    ConstantAddress(d, e1, 0);
    TakesStoreLiteral(d, e1, Constants(0), MAG, 0);
    ConstantAddress(d, e2, 4);
    TakesStoreLiteral(d, e2, Constants(4), MAG + 4, MATRIX);
    FieldAddress(d, e3, base, 0);
    TakesStore(d, e3, Field(0), base, F1);
    TakesLiteral(d, e4, C0, Word(1));
    TakesThree(c[0], c[1], c[2], d, e, e1, e2, e3);
    TakesTwo(c[3], c[4], d, e3, e4, e5);
    TakesBoth([c[0], c[1], c[2]], [c[3], c[4]], d, e, e3, e5);
    assert [c[0], c[1], c[2]] + [c[3], c[4]] == c;
  }

  lemma ConstantAddress(d: Data, e: Env, n: nat)
    requires |e.mem| == MEMORY_SIZE && n <= 4 && e.r0 == Word(MAG)
    ensures AddressIs(Constants(n), MAG + n, Build(d, e))
  {
    hide Build, Get, Word;
    BuildBase(d, e);
    BuildGet(d, e, R0);
    BasedAddress(R0.Number(), MAG, n, Build(d, e));
  }

  /** One turn of the loop. */
  function Seeded(e: Env, base: nat, k: nat): Env
    requires |e.mem| == MEMORY_SIZE && Placed(base) && 1 <= k < N
  {
    var x := Mul(Slot(e.mem, base, k - 1), Word(6069));
    e.(r0 := Word(4 * k), r1 := x, c0 := Word(k + 1), mem := SetWord(e.mem, base + 4 * k, x))
  }

  lemma MultiplyEffect(d: Data, e: Env, base: nat, k: nat)
    requires |e.mem| == MEMORY_SIZE && Placed(base) && 1 <= k < N && Get(d, F0) == Word(base) && e.c0 == Word(k)
    ensures BlockTakes(Multiply(), d, e, e.(r0 := Word(4 * (k - 1)), r1 := Mul(Slot(e.mem, base, k - 1), Word(6069))))
  {
    hide Takes, BlockTakes, Word, Slot, Build, Get, WordAt, Lit, RR, LoadInsn, Element, AddressIs, Mul, Binary;
    var c := Multiply();
    var x := Slot(e.mem, base, k - 1);
    var e1 := e.(r0 := Word(k));
    var e2 := e.(r0 := Word(k - 1));
    var e3 := e.(r0 := Word(4 * (k - 1)));
    var e4 := e3.(r1 := x);
    var e5 := e3.(r1 := Mul(x, Word(6069)));
    TakesCopy(d, e, R0, C0);
    TakesBinaryLiteral(d, e1, SUB, R0, Word(1));
    SubIs(k, 1);
    TakesBinaryLiteral(d, e2, MUL, R0, Word(4));
    MulFour(k - 1);
    ElementAddress(d, e3, base, k - 1);
    TakesLoad(d, e3, R1, Element(), base + 4 * (k - 1));
    SlotIs(e.mem, base, k - 1);
    TakesBinaryLiteral(d, e4, MUL, R1, Word(6069));
    ProductIs(x, Word(6069));
    TakesThree(c[0], c[1], c[2], d, e, e1, e2, e3);
    TakesTwo(c[3], c[4], d, e3, e4, e5);
    TakesBoth([c[0], c[1], c[2]], [c[3], c[4]], d, e, e3, e5);
    assert [c[0], c[1], c[2]] + [c[3], c[4]] == c;
  }

  lemma ProductIs(x: bv32, y: bv32)
    ensures Binary(MUL, x, y) == Mul(x, y)
  {
    hide Mul;
  }

  lemma AdvanceEffect(d: Data, e: Env, base: nat, k: nat)
    requires |e.mem| == MEMORY_SIZE && Placed(base) && 1 <= k < N && Get(d, F0) == Word(base)
    requires e.c0 == Word(k) && e.r0 == Word(4 * (k - 1))
    ensures BlockTakes(Advance(), d, e, e.(r0 := Word(4 * k), c0 := Word(k + 1),
        mem := SetWord(e.mem, base + 4 * k, e.r1)))
  {
    hide Takes, BlockTakes, Word, Build, Get, SetWord, Lit, StoreInsn, Element, AddressIs, Binary;
    var c := Advance();
    var e1 := e.(r0 := Word(4 * k));
    var e2 := e1.(mem := SetWord(e.mem, base + 4 * k, e.r1));
    TakesBinaryLiteral(d, e, ADD, R0, Word(4));
    AddIs(4 * (k - 1), 4);
    ElementAddress(d, e1, base, k);
    TakesStore(d, e1, Element(), base + 4 * k, R1);
    TakesBinaryLiteral(d, e2, ADD, C0, Word(1));
    AddIs(k, 1);
    TakesThree(c[0], c[1], c[2], d, e, e1, e2, e2.(c0 := Word(k + 1)));
  }

  lemma TailEffect(d: Data, e: Env, base: nat)
    requires |e.mem| == MEMORY_SIZE && Placed(base) && Get(d, F0) == Word(base)
    ensures BlockTakes(Tail(), d, e, e.(r0 := Word(base), mem := SetWord(e.mem, base + INDEX, e.c0)))
  {
    hide Takes, BlockTakes, Word, Build, Get, SetWord, StoreInsn, AddressIs, Field;
    var c := Tail();
    var e1 := e.(mem := SetWord(e.mem, base + INDEX, e.c0));
    FieldAddress(d, e, base, INDEX);
    TakesStore(d, e, Index(), base + INDEX, C0);
    TakesPointer(d, e1, base);
    TakesTwo(c[0], c[1], d, e, e1, e1.(r0 := Word(base)));
  }

  // ----- The loop -----

  lemma SeedTurn(p: Prog, u: set<LocalKey>, s: State, at: nat, d: Data, e: Env, base: nat, seed: bv32, k: nat,
      m: Memory, fl: Comparison)
    returns (f: Env, gl: Comparison)
    requires InitAt(p, at) && s.status == Running
    requires Seeding(e.mem, base, seed, k, m) && 1 <= k < N
    requires Get(d, F0) == Word(base) && e.c0 == Word(k)
    ensures Goes(p, u, In(s, at + 6, d, e, fl), In(s, if k + 1 < N then at + 6 else at + 16, d, f, gl))
    ensures Seeding(f.mem, base, seed, k + 1, m)
    ensures f.c0 == Word(k + 1) && f.f1 == e.f1 && f.r2 == e.r2 && f.r3 == e.r3 && f.r4 == e.r4
  {
    hide BlockTakes, Word, Build, MagSet, Goes, Get, Compare, Counting, Slot, SetWord, Mul, Apart, Multiply, Advance;
    hide BlockAt, Placed;
    InitParts(p, at);
    InitLengths();
    PlacedSlots(base);
    var e1 := e.(r0 := Word(4 * (k - 1)), r1 := Mul(Slot(e.mem, base, k - 1), Word(6069)));
    f := Seeded(e, base, k);
    MultiplyEffect(d, e, base, k);
    GoesTaken(p, u, In(s, at + 6, d, e, fl), Multiply(), d, e, e1);
    AdvanceEffect(d, e1, base, k);
    GoesTaken(p, u, In(s, at + 11, d, e1, fl), Advance(), d, e1, f);
    GoesCounting(p, u, In(s, at + 14, d, f, fl), N, LOOP, d, f, k + 1);
    gl := Compare(Word(k + 1), Word(N));
    GoesFar(p, u, In(s, at + 6, d, e, fl), In(s, at + 11, d, e1, fl), In(s, at + 14, d, f, fl),
            In(s, if k + 1 < N then at + 6 else at + 16, d, f, gl));
    assert Mul(Slot(e.mem, base, k - 1), Word(6069)) == Stream(seed, k);
    SeedSlot(e.mem, base, seed, k, m);
  }

  lemma {:induction false} SeedLoop(p: Prog, u: set<LocalKey>, s: State, at: nat, d: Data, e: Env, base: nat,
      seed: bv32, k: nat, m: Memory, fl: Comparison) returns (f: Env, gl: Comparison)
    requires InitAt(p, at) && s.status == Running
    requires Seeding(e.mem, base, seed, k, m) && 1 <= k < N
    requires Get(d, F0) == Word(base) && e.c0 == Word(k)
    ensures Goes(p, u, In(s, at + 6, d, e, fl), In(s, at + 16, d, f, gl))
    ensures Seeding(f.mem, base, seed, N, m)
    ensures f.c0 == Word(N) && f.f1 == e.f1 && f.r2 == e.r2 && f.r3 == e.r3 && f.r4 == e.r4
    decreases N - k
  {
    hide Word, Build, Goes, Get, Seeding, InitAt;
    var h, hl := SeedTurn(p, u, s, at, d, e, base, seed, k, m, fl);
    f, gl := h, hl;
    if k + 1 < N {
      f, gl := SeedLoop(p, u, s, at, d, h, base, seed, k + 1, m, hl);
      GoesOn(p, u, In(s, at + 6, d, e, fl), In(s, at + 6, d, h, hl), In(s, at + 16, d, f, gl));
    }
  }

  // ----- The whole function -----

  predicate Called(p: Prog, u: set<LocalKey>, s: State, at: nat, base: nat) {
    && InitAt(p, at)
    && s.status == Running
    && s.pc == at
    && s.stack != []
    && |s.data.mem| == MEMORY_SIZE
    && Placed(base)
    && Get(s.data, F0) == Word(base)
    && KeyHere(s, 0) in u
  }

  /** `t` is `s` returned to its caller with the blob's address in R0: all registers but R0 and R1 are as
      before, all memory outside the blob and the two constants, and all locals but the one of this call. */
  ghost predicate Initialised(s: State, t: State, base: nat) {
    && s.stack != []
    && base < WORD_LIMIT
    && t.status == Running
    && t.pc == s.stack[|s.stack| - 1]
    && t.stack == s.stack[..|s.stack| - 1]
    && t.shadow == (if s.shadow == [] then [] else s.shadow[..|s.shadow| - 1])
    && Get(t.data, R0.Number()) == Word(base)
    && (forall r: bv4 :: r != R0.Number() && r != R1.Number() ==> Get(t.data, r) == Get(s.data, r))
    && Apart(s.data.mem, t.data.mem, base)
    && (forall k :: k != KeyHere(s, 0) ==> Local(t, k) == Local(s, k))
  }

  /** The counter is saved and the first slot and the constants are set. */
  lemma Begins(p: Prog, u: set<LocalKey>, s: State, at: nat, base: nat)
    requires Called(p, u, s, at, base)
    ensures var d := s.data; var e := Initially(d);
            Goes(p, u, s, In(KeptCounter(s), at + 6, d,
                e.(r0 := Word(MAG), c0 := Word(1), mem := Started(d.mem, base, e.f1)), s.flags))
  {
    hide Goes, Word, Get, BlockAt, Placed, Build, Head, Started, BlockTakes, Saved;
    InitParts(p, at);
    InitLengths();
    KeptCounterParts(s);
    var d, e, v := s.data, Initially(s.data), KeptCounter(s);
    InsnAt(p, at, Save(), 0);
    GoesPut(p, u, s, 0, C0.Number());
    BuildInitially(d);
    HeadEffect(d, e, base);
    GoesTaken(p, u, In(v, at + 1, d, e, s.flags), Head(), d, e,
        e.(r0 := Word(MAG), c0 := Word(1), mem := Started(d.mem, base, e.f1)));
    GoesOn(p, u, s, In(v, at + 1, d, e, s.flags),
           In(v, at + 6, d, e.(r0 := Word(MAG), c0 := Word(1), mem := Started(d.mem, base, e.f1)), s.flags));
  }

  /** The index is set, C0 restored, and the function returns. */
  lemma Ends(p: Prog, u: set<LocalKey>, s: State, at: nat, base: nat, f: Env, fl: Comparison)
    requires Called(p, u, s, at, base) && |f.mem| == MEMORY_SIZE
    ensures Goes(p, u, In(KeptCounter(s), at + 16, s.data, f, fl),
                 Leave(In(KeptCounter(s), at + 19, s.data, Final(s, f, base), fl)))
  {
    hide Goes, Word, BlockAt, Placed, Build, KeptCounter, Get, Set, Remembers, Tail, SetWord, BlockTakes;
    InitParts(p, at);
    InitLengths();
    KeptCounterParts(s);
    InsnAt(p, at + 18, Restore(), 0);
    InsnAt(p, at + 18, Restore(), 1);
    hide Restore;
    var d, v, x := s.data, KeptCounter(s), Get(s.data, C0.Number());
    PlacedSlots(base);
    var g := f.(r0 := Word(base), mem := SetWord(f.mem, base + INDEX, f.c0));
    TailEffect(d, f, base);
    GoesTaken(p, u, In(v, at + 16, d, f, fl), Tail(), d, f, g);
    BuildBase(d, g);
    RemembersHere(v, at + 18, Build(d, g), fl, 0, x);
    GoesGet(p, u, In(v, at + 18, d, g, fl), 0, C0.Number(), x);
    BuildSet(d, g, C0, x);
    var h := Final(s, f, base);
    BuildBase(d, h);
    GoesReturn(p, u, In(v, at + 19, d, h, fl));
    GoesFar(p, u, In(v, at + 16, d, f, fl), In(v, at + 18, d, g, fl), In(v, at + 19, d, h, fl),
        Leave(In(v, at + 19, d, h, fl)));
  }

  /** The registers and memory at the return. */
  function Final(s: State, f: Env, base: nat): Env
    requires |f.mem| == MEMORY_SIZE && Placed(base)
  {
    f.(r0 := Word(base), c0 := Get(s.data, C0.Number()), mem := SetWord(f.mem, base + INDEX, f.c0))
  }

  lemma EndsSame(s: State, f: Env, pc: nat, fl: Comparison, base: nat)
    requires s.stack != [] && s.status == Running && |f.mem| == MEMORY_SIZE
    requires Placed(base) && Apart(s.data.mem, f.mem, base)
    requires var e := Initially(s.data); f.f1 == e.f1 && f.r2 == e.r2 && f.r3 == e.r3 && f.r4 == e.r4
    ensures Initialised(s, Leave(In(KeptCounter(s), pc, s.data, Final(s, f, base), fl)), base)
  {
    hide KeptCounter, Apart, Build, Get, Word, SetWord;
    var d := s.data;
    var g := Final(s, f, base);
    var t := Leave(In(KeptCounter(s), pc, d, g, fl));
    KeptCounterParts(s);
    ApartStored(d.mem, f.mem, base, base + INDEX, f.c0);
    BuildGet(d, g, R0);
    BuildBase(d, g);
    InitiallyIs(d);
    forall r: bv4 | r != R0.Number() && r != R1.Number() ensures Get(t.data, r) == Get(d, r) {
      BuildMost(d, g, r);
    }
  }

  lemma BuildMost(d: Data, g: Env, r: bv4)
    requires r != R0.Number() && r != R1.Number()
    requires var e := Initially(d); g.f1 == e.f1 && g.c0 == e.c0 && g.r2 == e.r2 && g.r3 == e.r3 && g.r4 == e.r4
    ensures Get(Build(d, g), r) == Get(d, r)
  {
  }

  /** A call seeds the blob: no word is drawn yet, and nothing else of the caller's is disturbed. */
  lemma InitReturns(p: Prog, u: set<LocalKey>, s: State, at: nat, base: nat) returns (t: State)
    requires Called(p, u, s, at, base)
    ensures Goes(p, u, s, t)
    ensures Initialised(s, t, base)
    ensures Drawn(t.data.mem, base, Get(s.data, F1.Number()), 0)
    ensures WordAt(t.data.mem, 0x0E_6E04) == 0 && WordAt(t.data.mem, 0x0E_6E08) == 0x9908_B0DF
    ensures WordAt(t.data.mem, base + 0x4E00) == Word(624)
    ensures forall j :: 0 <= j < 624 ==> WordAt(t.data.mem, base + 4 * j) == Stream(Get(s.data, F1.Number()), j)
  {
    hide Goes, Word, Build, KeptCounter, MagSet, Placed, Beyond, IndexWord, InitAt, Initialised, Apart, Get, SetWord;
    hide WordAt, Started;
    var d, e, m := s.data, Initially(s.data), s.data.mem;
    var seed := e.f1;
    InitiallyIs(d);
    PlacedSlots(base);
    KeptCounterParts(s);
    Begins(p, u, s, at, base);
    StartSeeds(m, base, seed);
    var e1 := e.(r0 := Word(MAG), c0 := Word(1), mem := Started(m, base, seed));
    var f, fl := SeedLoop(p, u, KeptCounter(s), at, d, e1, base, seed, 1, m, s.flags);
    Ends(p, u, s, at, base, f, fl);
    t := Leave(In(KeptCounter(s), at + 19, d, Final(s, f, base), fl));
    GoesFar(p, u, s, In(KeptCounter(s), at + 6, d, e1, s.flags), In(KeptCounter(s), at + 16, d, f, fl), t);
    EndsSame(s, f, at + 19, fl, base);
    BuildBase(d, Final(s, f, base));
    IndexStored(f.mem, base, seed, 0, 0, N);
    DrawnLiterals(t.data.mem, base, seed, 0);
  }

  // ----- Calls, and many of them -----

  const RAND := "FUN_MersenneTwisterRand"

  /** An unconditional call with room on both stacks. */
  predicate Calls(p: Prog, s: State, name: string) {
    && s.status == Running
    && |s.data.mem| == MEMORY_SIZE
    && s.pc + 1 < |p.insns|
    && p.insns[s.pc] == Insn(CALL, LabelRef(name), NoOperand)
    && name in p.labels
    && p.labels[name] < |p.insns|
    && |s.stack| < STACK_CAPACITY
    && |s.shadow| < SHADOW_CAPACITY
  }

  function Inside(p: Prog, s: State, name: string): State
    requires Calls(p, s, name)
  {
    s.(pc := p.labels[name], stack := s.stack + [s.pc + 1], shadow := s.shadow + [s.pc + 1])
  }

  lemma GoesInside(p: Prog, u: set<LocalKey>, s: State, name: string)
    requires Calls(p, s, name)
    ensures Goes(p, u, s, Inside(p, s, name))
  {
    assert Defined(p, u, s) && Step(p, u, s) == Inside(p, s, name);
    GoesStep(p, u, s);
  }

  /** The keys under which the functions save registers when called from `pc`. */
  predicate KeysAllowed(u: set<LocalKey>, pc: nat) {
    LocalKey(ReturningTo(pc + 1), 0) in u && LocalKey(ReturningTo(pc + 1), 1) in u
  }

  /** Execution is past the call, with the caller's stacks, pointer and seed registers as before. */
  predicate Past(s: State, t: State) {
    && t.status == Running
    && t.pc == s.pc + 1
    && t.stack == s.stack
    && t.shadow == s.shadow
    && Get(t.data, F0) == Get(s.data, F0)
    && Get(t.data, F1.Number()) == Get(s.data, F1.Number())
  }

  lemma InitCall(p: Prog, u: set<LocalKey>, s: State, base: nat) returns (t: State)
    requires Calls(p, s, INIT) && InitAt(p, p.labels[INIT]) && Placed(base) && Get(s.data, F0) == Word(base)
    requires KeysAllowed(u, s.pc)
    ensures Goes(p, u, s, t) && Past(s, t) && Get(t.data, R0.Number()) == Word(base)
    ensures Drawn(t.data.mem, base, Get(s.data, F1.Number()), 0)
  {
    hide Goes, Word, InitAt, Drawn, Get, Apart;
    PlacedSlots(base);
    hide Placed;
    var v := Inside(p, s, INIT);
    GoesInside(p, u, s, INIT);
    t := InitReturns(p, u, v, p.labels[INIT], base);
    GoesOn(p, u, s, v, t);
  }

  lemma RandCall(p: Prog, u: set<LocalKey>, s: State, base: nat, seed: bv32, n: nat) returns (t: State)
    requires Calls(p, s, RAND) && RandAt(p, p.labels[RAND]) && Placed(base) && Get(s.data, F0) == Word(base)
    requires KeysAllowed(u, s.pc) && Drawn(s.data.mem, base, seed, n)
    ensures Goes(p, u, s, t) && Past(s, t) && Get(t.data, R0.Number()) == Temper(Stream(seed, n + 624))
    ensures Drawn(t.data.mem, base, seed, n + 1)
  {
    hide Goes, Word, RandAt, Drawn, Get, Beyond, Temper, Stream;
    PlacedSlots(base);
    hide Placed;
    var v := Inside(p, s, RAND);
    GoesInside(p, u, s, RAND);
    t := RandReturns(p, u, v, p.labels[RAND], base, seed, n);
    GoesOn(p, u, s, v, t);
  }

  /** A call of Init followed by `n` calls of Rand. */
  predicate SessionAt(p: Prog, at: nat, n: nat) {
    && at + n + 1 < |p.insns|
    && p.insns[at] == Insn(CALL, LabelRef(INIT), NoOperand)
    && (forall j :: at < j <= at + n ==> p.insns[j] == Insn(CALL, LabelRef(RAND), NoOperand))
    && INIT in p.labels && InitAt(p, p.labels[INIT])
    && RAND in p.labels && RandAt(p, p.labels[RAND])
  }

  /** The n-th word drawn after seeding with F1 is the tempering of word n+623 of the seed's stream,
      whatever the number of regenerations on the way. */
  lemma {:induction false} SessionDraws(p: Prog, u: set<LocalKey>, s: State, base: nat, n: nat) returns (t: State)
    requires SessionAt(p, s.pc, n) && s.status == Running && |s.data.mem| == MEMORY_SIZE
    requires |s.stack| < STACK_CAPACITY && |s.shadow| < SHADOW_CAPACITY
    requires Placed(base) && Get(s.data, F0) == Word(base)
    requires forall pc :: s.pc <= pc <= s.pc + n ==> KeysAllowed(u, pc)
    ensures Goes(p, u, s, t)
    ensures t.status == Running && t.pc == s.pc + n + 1 && t.stack == s.stack && t.shadow == s.shadow
    ensures var seed := Get(s.data, F1.Number());
            && Drawn(t.data.mem, base, seed, n)
            && Get(t.data, R0.Number()) == (if n == 0 then Word(base) else Temper(Stream(seed, n + 623)))
    ensures Get(t.data, F0) == Get(s.data, F0) && Get(t.data, F1.Number()) == Get(s.data, F1.Number())
    decreases n
  {
    hide Goes, Word, RandAt, InitAt, Get, Temper, Stream, MagSet, Holds, IndexWord, Placed;
    Standing(p, s.pc, n);
    if n == 0 {
      t := InitCall(p, u, s, base);
    } else {
      var v := SessionDraws(p, u, s, base, n - 1);
      t := RandCall(p, u, v, base, Get(s.data, F1.Number()), n - 1);
      GoesOn(p, u, s, v, t);
    }
  }

  lemma Standing(p: Prog, at: nat, n: nat)
    requires SessionAt(p, at, n)
    ensures p.labels[INIT] < |p.insns| && p.labels[RAND] < |p.insns|
  {
    hide Word;
    InitParts(p, p.labels[INIT]);
    Parts(p, p.labels[RAND]);
  }

  // ----- Drawing in a loop -----

  /** A call of Init and a loop around one call of Rand: "<name> CALL Rand; JMP <name>". */
  predicate LoopSessionAt(p: Prog, at: nat, name: string) {
    && at + 3 < |p.insns|
    && p.insns[at] == Insn(CALL, LabelRef(INIT), NoOperand)
    && p.insns[at + 1] == Insn(CALL, LabelRef(RAND), NoOperand)
    && p.insns[at + 2] == Insn(JMP, LabelRef(name), NoOperand)
    && name in p.labels && p.labels[name] == at + 1
    && INIT in p.labels && InitAt(p, p.labels[INIT])
    && RAND in p.labels && RandAt(p, p.labels[RAND])
  }

  lemma LoopStanding(p: Prog, at: nat, name: string)
    requires LoopSessionAt(p, at, name)
    ensures p.labels[INIT] < |p.insns| && p.labels[RAND] < |p.insns|
  {
    hide Word;
    InitParts(p, p.labels[INIT]);
    Parts(p, p.labels[RAND]);
  }

  /** The loop comes to its jump for the n-th time with the n-th word of the seed's stream, tempered, in
      R0, for every n. Four local variables are in use however often the loop turns. */
  lemma {:induction false} LoopDraws(p: Prog, u: set<LocalKey>, s: State, base: nat, name: string,
      n: nat) returns (t: State)
    requires LoopSessionAt(p, s.pc, name) && s.status == Running && |s.data.mem| == MEMORY_SIZE && n > 0
    requires |s.stack| < STACK_CAPACITY && |s.shadow| < SHADOW_CAPACITY
    requires Placed(base) && Get(s.data, F0) == Word(base)
    requires KeysAllowed(u, s.pc) && KeysAllowed(u, s.pc + 1)
    ensures Goes(p, u, s, t)
    ensures t.status == Running && t.pc == s.pc + 2 && t.stack == s.stack && t.shadow == s.shadow
    ensures var seed := Get(s.data, F1.Number());
            && Drawn(t.data.mem, base, seed, n)
            && Get(t.data, R0.Number()) == Temper(Stream(seed, n + 623))
    ensures Get(t.data, F0) == Get(s.data, F0) && Get(t.data, F1.Number()) == Get(s.data, F1.Number())
    decreases n
  {
    hide Goes, Word, RandAt, InitAt, Get, Temper, Stream, MagSet, Holds, IndexWord, Placed;
    LoopStanding(p, s.pc, name);
    var v;
    if n == 1 {
      v := InitCall(p, u, s, base);
    } else {
      var w := LoopDraws(p, u, s, base, name, n - 1);
      GoesAlways(p, u, w, name);
      v := w.(pc := s.pc + 1);
      GoesOn(p, u, s, w, v);
    }
    t := RandCall(p, u, v, base, Get(s.data, F1.Number()), n - 1);
    GoesOn(p, u, s, v, t);
  }
}
