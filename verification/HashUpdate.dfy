/** FUN_XXHashUpdate inside any program: four lanes mixed with a 16-byte block, reversibly. */
module HashUpdate {
  import opened Words
  import opened Alu
  import opened AluCases
  import opened Program
  import opened Blocks
  import opened Words32
  import opened Symbolic
  import opened Reaching
  import opened HashRound

  const LOOP := "LAB_XXHashUpdate_Loop"
  /** Offsets in the hasher's state. */
  const LANES: nat := 4
  const TOTAL: nat := 0x14

  // ----- The code -----

  function Lane(): Operand { Indexed(F0, Int, R1.Number(), Int, Int) }

  function BlockWord(): Operand { Indexed(F1.Number(), Int, C0.Number(), Int, Int) }

  function StageInsn(r: Working, s: Stage): Insn { RegInsn(s.op, r.Number(), s.v, r.Number(), s.v) }

  function StageInsns(r: Working, stages: seq<Stage>): (code: seq<Insn>)
    ensures |code| == |stages|
    decreases |stages|
  {
    if stages == [] then [] else [StageInsn(r, stages[0])] + StageInsns(r, stages[1..])
  }

  function FetchLane(): seq<Insn> {
    [RR(MOV, R1, C0), Lit(ADD, R1, Word(4)), LoadInsn(R0, Lane())]
  }

  function FetchWord(): seq<Insn> { [Insn(SWAP, Reg(R4.Number(), Int), BlockWord()), Lit(XOR, R4, PRIME_2)] }

  function Join(): seq<Insn> { [RR(XOR, R0, R4), Lit(ROL, R0, 13), Lit(XOR, R0, PRIME_1)] }

  function StoreLane(): seq<Insn> { [StoreInsn(Lane(), R0), Lit(ADD, C0, Word(4))] }

  function LaneCode(): seq<Insn> {
    FetchLane() + FetchWord() + StageInsns(R4, BEFORE) + Join() + StageInsns(R0, AFTER) + StoreLane()
  }

  function Start(): seq<Insn> {
    [Insn(PUT, Literal(0, Int), Reg(C0.Number(), Int)), Insn(ADD, Field(TOTAL), Literal(0x10, Int)),
        Lit(MOV, C0, Word(0))]
  }

  function Finish(): seq<Insn> {
    [RegInsn(MOV, R0.Number(), Int, F0, Int), Insn(GET, Reg(C0.Number(), Int), Literal(0, Int)),
        Insn(RET, NoOperand, NoOperand)]
  }

  function UpdateCode(): seq<Insn> { Start() + LaneCode() + Counting(16, LOOP) + Finish() }

  predicate UpdateAt(p: Prog, at: nat) {
    BlockAt(p, at, UpdateCode()) && LOOP in p.labels && p.labels[LOOP] == at + 3
  }

  lemma UpdateLengths()
    ensures |Start()| == 3 && |LaneCode()| == 22 && |Counting(16, LOOP)| == 2 && |Finish()| == 3
  {
    hide Word, Lit, StoreInsn, LoadInsn, RR, StageInsns, Field;
  }

  lemma UpdateParts(p: Prog, at: nat)
    requires UpdateAt(p, at)
    ensures at + 30 <= |p.insns|
    ensures BlockAt(p, at, Start()) && BlockAt(p, at + 3, LaneCode()) && BlockAt(p, at + 25, Counting(16, LOOP))
    ensures BlockAt(p, at + 27, Finish())
  {
    hide Word, Start, LaneCode, Counting, Finish;
    UpdateLengths();
    assert at + 30 <= |p.insns|;
    hide BlockAt;
    BlockSplit(p, at, Start() + LaneCode() + Counting(16, LOOP), Finish());
    BlockSplit(p, at, Start() + LaneCode(), Counting(16, LOOP));
    BlockSplit(p, at, Start(), LaneCode());
  }

  // ----- The hasher's state and its data in memory -----

  /** State and block lie in program memory and do not overlap. */
  predicate Apart(st: nat, data: nat) {
    && PROGRAM_LO <= st && st + TOTAL + 4 <= MEMORY_SIZE
    && PROGRAM_LO <= data && data + 16 <= MEMORY_SIZE
    && (st + TOTAL + 4 <= data || data + 16 <= st)
  }

  function LaneAt(mem: Memory, st: nat, i: nat): bv32
    requires st + TOTAL + 4 <= |mem| && i < 4
  {
    WordAt(mem, st + LANES + 4 * i)
  }

  function WordOf(mem: Memory, data: nat, i: nat): bv32
    requires data + 16 <= |mem| && i < 4
  {
    WordAt(mem, data + 4 * i)
  }

  /** Memory outside the lanes and the length is unchanged. */
  predicate Outside(m: Memory, n: Memory, st: nat) {
    |m| == |n| && forall i :: 0 <= i < |m| && !(st + LANES <= i < st + TOTAL + 4) ==> m[i] == n[i]
  }

  /** The first `k` lanes are mixed with their words, the others are as in `m`. */
  predicate Mixed(m: Memory, n: Memory, st: nat, data: nat, k: nat)
    requires |m| == |n| == MEMORY_SIZE && Apart(st, data)
  {
    && Outside(m, n, st)
    && forall i :: 0 <= i < 4 ==>
         LaneAt(n, st, i) == if i < k then Mix(LaneAt(m, st, i), WordOf(m, data, i)) else LaneAt(m, st, i)
  }

  // ----- Single instructions -----

  lemma TakesStage(d: Data, e: Env, r: Working, s: Stage)
    requires s.Valid()
    ensures Takes(StageInsn(r, s), d, e, With(e, r, s.Apply(At(e, r))))
  {
    hide Doable, Do, Build, With, At, Get, Set, Merged, Low, HashRound.Stage.Apply, MoveValue;
    DoMove(s.op, r.Number(), s.v, r.Number(), s.v, Build(d, e));
    BuildGet(d, e, r);
    ApplyIs(s, At(e, r));
    BuildSet(d, e, r, s.Apply(At(e, r)));
  }

  lemma ApplyIs(s: Stage, x: bv32)
    requires s.Valid()
    ensures s.Apply(x) == Merged(x, s.v, MoveValue(s.op, Low(x, s.v), s.v))
  {
    hide Merged, Low, MoveValue;
  }

  lemma {:induction false} StagesEffect(d: Data, e: Env, r: Working, stages: seq<Stage>)
    requires AllValid(stages)
    ensures BlockTakes(StageInsns(r, stages), d, e, With(e, r, Scramble(stages, At(e, r))))
    decreases |stages|
  {
    hide BlockTakes, Takes, StageInsn, HashRound.Stage.Apply;
    if stages == [] {
      TakesNothing(d, e);
      assert With(e, r, At(e, r)) == e;
    } else {
      var x := stages[0].Apply(At(e, r));
      var f := With(e, r, x);
      assert At(f, r) == x;
      TakesStage(d, e, r, stages[0]);
      StagesEffect(d, f, r, stages[1..]);
      TakesFirst(StageInsn(r, stages[0]), StageInsns(r, stages[1..]), d, e, f, With(f, r, Scramble(stages[1..], x)));
    }
  }

  /** SWAP register, memory. */
  lemma TakesSwapLoad(d: Data, e: Env, r: Working, o: Operand, a: nat)
    requires AddressIs(o, a, Build(d, e))
    ensures a + 4 <= |e.mem|
    ensures Takes(Insn(SWAP, Reg(r.Number(), Int), o), d, e, With(e, r, SwapHalves(WordAt(e.mem, a), Int)))
  {
    hide Word;
    BuildBase(d, e);
    MemoryWidth(o, a, Build(d, e));
    RegPlace(r.Number(), Build(d, e));
    hide PlaceOf, ExecDefined, Exec, Read, Source, WordAt, Set, Merged, SwapHalves, Build, With, Get;
    var x := SwapHalves(WordAt(e.mem, a), Int);
    var p := PlaceOf(o, Build(d, e).regs);
    AddressReads(o, a, Build(d, e));
    MoveReady(SWAP, r.Number(), Int, p, Build(d, e));
    MoveDone(SWAP, r.Number(), Int, p, Build(d, e));
    MergedInt(Get(Build(d, e), r.Number()), x);
    BuildSet(d, e, r, x);
  }

  lemma RollReady(r: bv4, d: Data)
    ensures var p1, p2 := InRegister(r, Int), Constant(13, Int);
            && ExecDefined(ROL, p1, p2, d, 0)
            && ExecDefined(ROL, p1, p2, d, PROGRAM_LO)
            && SourceValue(ROL, p1, p2, d) == 13
            && Read(p1, Int, d.regs, d.mem) == Get(d, r)
  {
    hide Val;
  }

  lemma RollBy()
    ensures RotateBy(13, Int) == 13
  {
  }

  lemma TakesRoll(d: Data, e: Env, r: Working)
    ensures Takes(Lit(ROL, r, 13), d, e, With(e, r, Roll(At(e, r))))
  {
    hide Word, Build, With, At;
    var b := Build(d, e);
    RollPlaces(r.Number(), b);
    hide PlaceOf, ExecDefined, Exec, Read, SourceValue, RotateLeft, RotateBy, Get, Set;
    var x := Get(b, r.Number());
    RollReady(r.Number(), b);
    RotateCases(ROL, InRegister(r.Number(), Int), Constant(13, Int), b);
    RollBy();
    WriteFull(r.Number(), Roll(x), b);
    BuildGet(d, e, r);
    BuildSet(d, e, r, Roll(x));
  }

  lemma RollPlaces(r: bv4, d: Data)
    ensures PlaceOf(Reg(r, Int), d.regs) == InRegister(r, Int) && PlaceOf(Literal(13, Int), d.regs) == Constant(13, Int)
  {
  }

  lemma WriteFull(r: bv4, x: bv32, d: Data)
    ensures Write(InRegister(r, Int), x, d) == Set(d, r, x)
  {
  }

  lemma TakesXorLiteral(d: Data, e: Env, r: Working, x: bv32)
    ensures Takes(Lit(XOR, r, x), d, e, With(e, r, Xor(At(e, r), x)))
  {
    hide Takes, With, At;
    TakesBinaryLiteral(d, e, XOR, r, x);
    assert Binary(XOR, At(e, r), x) == Xor(At(e, r), x);
  }

  // ----- One turn of the loop -----

  lemma LaneAddress(d: Data, e: Env, st: nat, data: nat, i: nat)
    requires |e.mem| == MEMORY_SIZE && Apart(st, data) && i < 4 && Get(d, F0) == Word(st) && e.r1 == Word(4 * i + 4)
    ensures AddressIs(Lane(), st + LANES + 4 * i, Build(d, e))
  {
    hide Build, Get, Word;
    BuildBase(d, e);
    BuildGet(d, e, R1);
    IndexedAddress(F0, st, R1.Number(), 4 * i + 4, Build(d, e));
  }

  lemma WordAddress(d: Data, e: Env, st: nat, data: nat, i: nat)
    requires |e.mem| == MEMORY_SIZE && Apart(st, data) && i < 4 && e.f1 == Word(data) && e.c0 == Word(4 * i)
    ensures AddressIs(BlockWord(), data + 4 * i, Build(d, e))
  {
    hide Build, Get, Word;
    BuildBase(d, e);
    BuildGet(d, e, F1);
    BuildGet(d, e, C0);
    IndexedAddress(F1.Number(), data, C0.Number(), 4 * i, Build(d, e));
  }

  /** The registers point at the state, the block, and their i-th words. */
  predicate Pointed(d: Data, e: Env, st: nat, data: nat, i: nat) {
    && |e.mem| == MEMORY_SIZE
    && Apart(st, data)
    && i < 4
    && Get(d, F0) == Word(st)
    && e.f1 == Word(data)
    && e.c0 == Word(4 * i)
  }

  lemma FetchLaneEffect(d: Data, e: Env, st: nat, data: nat, i: nat)
    requires Pointed(d, e, st, data, i)
    ensures BlockTakes(FetchLane(), d, e, e.(r1 := Word(4 * i + 4), r0 := LaneAt(e.mem, st, i)))
  {
    hide Takes, BlockTakes, Word, Binary, Build, Get, WordAt, Lit, RR, LoadInsn, Lane, AddressIs;
    var c := FetchLane();
    var e1 := e.(r1 := Word(4 * i));
    var e2 := e.(r1 := Word(4 * i + 4));
    TakesCopy(d, e, R1, C0);
    TakesBinaryLiteral(d, e1, ADD, R1, Word(4));
    AddIs(4 * i, 4);
    LaneAddress(d, e2, st, data, i);
    TakesLoad(d, e2, R0, Lane(), st + LANES + 4 * i);
    TakesThree(c[0], c[1], c[2], d, e, e1, e2, e2.(r0 := LaneAt(e.mem, st, i)));
  }

  lemma FetchWordEffect(d: Data, e: Env, st: nat, data: nat, i: nat)
    requires Pointed(d, e, st, data, i)
    ensures BlockTakes(FetchWord(), d, e, e.(r4 := Xor(SwapHalves(WordOf(e.mem, data, i), Int), PRIME_2)))
  {
    hide Takes, BlockTakes, Word, Build, Get, WordAt, Lit, BlockWord, AddressIs, Xor, SwapHalves;
    var c := FetchWord();
    var x := SwapHalves(WordOf(e.mem, data, i), Int);
    WordAddress(d, e, st, data, i);
    TakesSwapLoad(d, e, R4, BlockWord(), data + 4 * i);
    TakesXorLiteral(d, e.(r4 := x), R4, PRIME_2);
    TakesTwo(c[0], c[1], d, e, e.(r4 := x), e.(r4 := Xor(x, PRIME_2)));
  }

  lemma JoinEffect(d: Data, e: Env)
    ensures BlockTakes(Join(), d, e, e.(r0 := Xor(Roll(Xor(e.r0, e.r4)), PRIME_1)))
  {
    hide Takes, BlockTakes, Build, Lit, RR, Xor, Roll;
    var c := Join();
    var x := Xor(e.r0, e.r4);
    TakesXor(d, e, R0, R4);
    TakesRoll(d, e.(r0 := x), R0);
    TakesXorLiteral(d, e.(r0 := Roll(x)), R0, PRIME_1);
    TakesThree(c[0], c[1], c[2], d, e, e.(r0 := x), e.(r0 := Roll(x)), e.(r0 := Xor(Roll(x), PRIME_1)));
  }

  lemma StoreLaneEffect(d: Data, e: Env, st: nat, data: nat, i: nat)
    requires Pointed(d, e, st, data, i) && e.r1 == Word(4 * i + 4)
    ensures BlockTakes(StoreLane(), d, e, e.(mem := SetWord(e.mem, st + LANES + 4 * i, e.r0), c0 := Word(4 * i + 4)))
  {
    hide Takes, BlockTakes, Word, Binary, Build, Get, SetWord, Lit, StoreInsn, Lane, AddressIs;
    var c := StoreLane();
    LaneAddress(d, e, st, data, i);
    TakesStore(d, e, Lane(), st + LANES + 4 * i, R0);
    var e1 := e.(mem := SetWord(e.mem, st + LANES + 4 * i, e.r0));
    TakesBinaryLiteral(d, e1, ADD, C0, Word(4));
    AddIs(4 * i, 4);
    TakesTwo(c[0], c[1], d, e, e1, e1.(c0 := Word(4 * i + 4)));
  }

  /** The state after lane `i` is mixed. */
  function LaneDone(e: Env, st: nat, data: nat, i: nat): Env
    requires |e.mem| == MEMORY_SIZE && Apart(st, data) && i < 4
  {
    hide Mix, Absorb;
    var w := WordOf(e.mem, data, i);
    var x := Mix(LaneAt(e.mem, st, i), w);
    e.(r0 := x, r1 := Word(4 * i + 4), r4 := Absorb(w), c0 := Word(4 * i + 4),
        mem := SetWord(e.mem, st + LANES + 4 * i, x))
  }

  lemma LaneEffect(d: Data, e: Env, st: nat, data: nat, i: nat)
    requires Pointed(d, e, st, data, i)
    ensures BlockTakes(LaneCode(), d, e, LaneDone(e, st, data, i))
  {
    hide BlockTakes, Word, Build, Get, SetWord, LaneAt, WordOf, Xor, Roll, Scramble, SwapHalves;
    hide FetchLane, FetchWord, StageInsns, Join, StoreLane;
    var w, l := WordOf(e.mem, data, i), LaneAt(e.mem, st, i);
    var y := Xor(SwapHalves(w, Int), PRIME_2);
    var a := Scramble(BEFORE, y);
    var z := Xor(Roll(Xor(l, a)), PRIME_1);
    var x := Scramble(AFTER, z);
    assert a == Absorb(w) && x == Mix(l, w);
    var e1 := e.(r1 := Word(4 * i + 4), r0 := l);
    var e2 := e1.(r4 := y);
    var e3 := e1.(r4 := a);
    var e4 := e3.(r0 := z);
    var e5 := e3.(r0 := x);
    hide Absorb, Mix;
    FetchLaneEffect(d, e, st, data, i);
    FetchWordEffect(d, e1, st, data, i);
    StagesEffect(d, e2, R4, BEFORE);
    JoinEffect(d, e3);
    StagesEffect(d, e4, R0, AFTER);
    StoreLaneEffect(d, e5, st, data, i);
    var f := LaneDone(e, st, data, i);
    TakesBoth(FetchLane(), FetchWord(), d, e, e1, e2);
    TakesBoth(FetchLane() + FetchWord(), StageInsns(R4, BEFORE), d, e, e2, e3);
    TakesBoth(FetchLane() + FetchWord() + StageInsns(R4, BEFORE), Join(), d, e, e3, e4);
    TakesBoth(FetchLane() + FetchWord() + StageInsns(R4, BEFORE) + Join(), StageInsns(R0, AFTER), d, e, e4, e5);
    TakesBoth(FetchLane() + FetchWord() + StageInsns(R4, BEFORE) + Join() + StageInsns(R0, AFTER), StoreLane(), d, e,
        e5, f);
  }

  lemma OutsideStored(m: Memory, n: Memory, st: nat, a: nat, x: bv32)
    requires |n| == MEMORY_SIZE && st + TOTAL + 4 <= |n| && Outside(m, n, st) && st + LANES <= a <= st + TOTAL
    ensures Outside(m, SetWord(n, a, x), st)
  {
    hide B0, B1, B2, B3;
  }

  /** The block is not disturbed. */
  lemma BlockKept(m: Memory, n: Memory, st: nat, data: nat, i: nat)
    requires |m| == |n| == MEMORY_SIZE && Apart(st, data) && Outside(m, n, st) && i < 4
    ensures WordOf(n, data, i) == WordOf(m, data, i)
  {
    hide Cat;
  }

  lemma LaneMixes(m: Memory, e: Env, st: nat, data: nat, i: nat)
    requires |m| == |e.mem| == MEMORY_SIZE && Apart(st, data) && i < 4 && Mixed(m, e.mem, st, data, i)
    ensures Mixed(m, LaneDone(e, st, data, i).mem, st, data, i + 1)
  {
    hide Mix, Absorb, Word, SetWord, WordAt, Outside, WordOf;
    var a := st + LANES + 4 * i;
    var x := Mix(LaneAt(e.mem, st, i), WordOf(e.mem, data, i));
    var n := SetWord(e.mem, a, x);
    BlockKept(m, e.mem, st, data, i);
    OutsideStored(m, e.mem, st, a, x);
    forall j: nat | 0 <= j < 4
      ensures LaneAt(n, st, j) == if j < i + 1 then Mix(LaneAt(m, st, j), WordOf(m, data, j)) else LaneAt(m, st, j)
    {
      WordAfterSet(e.mem, a, x, st + LANES + 4 * j);
    }
  }

  lemma TotalKept(e: Env, st: nat, data: nat, i: nat)
    requires |e.mem| == MEMORY_SIZE && Apart(st, data) && i < 4
    ensures WordAt(LaneDone(e, st, data, i).mem, st + TOTAL) == WordAt(e.mem, st + TOTAL)
  {
    hide Mix, Absorb, Word, SetWord, WordAt;
    WordAfterSet(e.mem, st + LANES + 4 * i, Mix(LaneAt(e.mem, st, i), WordOf(e.mem, data, i)), st + TOTAL);
  }

  lemma {:induction false} LanesRun(p: Prog, u: set<LocalKey>, s: State, at: nat, d: Data, e: Env, st: nat, data: nat,
      i: nat, m: Memory, fl: Comparison) returns (f: Env, gl: Comparison)
    requires UpdateAt(p, at) && s.status == Running && |m| == MEMORY_SIZE
    requires Pointed(d, e, st, data, i) && Mixed(m, e.mem, st, data, i)
    ensures Goes(p, u, In(s, at + 3, d, e, fl), In(s, at + 27, d, f, gl))
    ensures |f.mem| == MEMORY_SIZE && Mixed(m, f.mem, st, data, 4) && f.f1 == e.f1 && f.r2 == e.r2 && f.r3 == e.r3
    ensures WordAt(f.mem, st + TOTAL) == WordAt(e.mem, st + TOTAL)
    decreases 4 - i
  {
    hide BlockTakes, Word, Build, Goes, Get, Compare, Counting, LaneCode, BlockAt, Mix, Absorb, SetWord, WordAt, Mixed;
    UpdateParts(p, at);
    UpdateLengths();
    LaneEffect(d, e, st, data, i);
    f := LaneDone(e, st, data, i);
    LaneMixes(m, e, st, data, i);
    TotalKept(e, st, data, i);
    GoesTaken(p, u, In(s, at + 3, d, e, fl), LaneCode(), d, e, f);
    GoesCounting(p, u, In(s, at + 25, d, f, fl), 16, LOOP, d, f, 4 * (i + 1));
    gl := Compare(Word(4 * (i + 1)), Word(16));
    GoesOn(p, u, In(s, at + 3, d, e, fl), In(s, at + 25, d, f, fl), In(s, if i < 3 then at + 3 else at + 27, d, f, gl));
    if i < 3 {
      var h, hl := f, gl;
      f, gl := LanesRun(p, u, s, at, d, h, st, data, i + 1, m, hl);
      GoesOn(p, u, In(s, at + 3, d, e, fl), In(s, at + 3, d, h, hl), In(s, at + 27, d, f, gl));
    }
  }

  // ----- The whole function -----

  predicate Called(p: Prog, u: set<LocalKey>, s: State, at: nat, st: nat, data: nat) {
    && UpdateAt(p, at)
    && s.status == Running
    && s.pc == at
    && s.stack != []
    && |s.data.mem| == MEMORY_SIZE
    && Apart(st, data)
    && Get(s.data, F0) == Word(st)
    && Get(s.data, F1.Number()) == Word(data)
    && KeyHere(s, 0) in u
  }

  /** What a call does: the four lanes are mixed with the four words of the block, 16 is added to the
      length, R0 points to the state, all registers but R0, R1 and R4 and all other memory are as before. */
  ghost predicate Updated(s: State, t: State, st: nat, data: nat) {
    && s.stack != []
    && |s.data.mem| == |t.data.mem| == MEMORY_SIZE
    && Apart(st, data)
    && t.status == Running
    && t.pc == s.stack[|s.stack| - 1]
    && t.stack == s.stack[..|s.stack| - 1]
    && t.shadow == (if s.shadow == [] then [] else s.shadow[..|s.shadow| - 1])
    && Get(t.data, R0.Number()) == Word(st)
    && (forall r: bv4 :: r != 4 && r != 5 && r != 8 ==> Get(t.data, r) == Get(s.data, r))
    && Mixed(s.data.mem, t.data.mem, st, data, 4)
    && WordAt(t.data.mem, st + TOTAL) == Add(0x10, WordAt(s.data.mem, st + TOTAL))
    && (forall k :: k != KeyHere(s, 0) ==> Local(t, k) == Local(s, k))
  }

  /** Memory once the length is counted. */
  function Counted(m: Memory, st: nat): Memory
    requires st + TOTAL + 4 <= |m|
  {
    SetWord(m, st + TOTAL, Add(0x10, WordAt(m, st + TOTAL)))
  }

  lemma CountedMixed(m: Memory, st: nat, data: nat)
    requires |m| == MEMORY_SIZE && Apart(st, data)
    ensures Mixed(m, Counted(m, st), st, data, 0)
    ensures WordAt(Counted(m, st), st + TOTAL) == Add(0x10, WordAt(m, st + TOTAL))
  {
    hide Mix, Add, SetWord, WordAt, Outside;
    var x := Add(0x10, WordAt(m, st + TOTAL));
    OutsideSame(m, st);
    OutsideStored(m, m, st, st + TOTAL, x);
    WordAfterSet(m, st + TOTAL, x, st + TOTAL);
    forall i: nat | 0 <= i < 4 ensures LaneAt(SetWord(m, st + TOTAL, x), st, i) == LaneAt(m, st, i) {
      WordAfterSet(m, st + TOTAL, x, st + LANES + 4 * i);
    }
  }

  lemma OutsideSame(m: Memory, st: nat)
    ensures Outside(m, m, st)
  {
  }

  lemma TakesCount(d: Data, e: Env, st: nat)
    requires |e.mem| == MEMORY_SIZE && PROGRAM_LO <= st && st + TOTAL + 4 <= MEMORY_SIZE && Get(d, F0) == Word(st)
    ensures Takes(Insn(ADD, Field(TOTAL), Literal(0x10, Int)), d, e, e.(mem := Counted(e.mem, st)))
  {
    hide Word, Get, Build, Takes, Add, AddressIs, SetWord, WordAt;
    BuildBase(d, e);
    BasedAddress(F0, st, TOTAL, Build(d, e));
    TakesIncrement(d, e, Field(TOTAL), st + TOTAL, 0x10);
  }

  lemma StartAt(p: Prog, at: nat)
    requires UpdateAt(p, at)
    ensures at + 30 <= |p.insns| && forall i :: 0 <= i < 3 ==> p.insns[at + i] == Start()[i]
  {
    hide Word, Field, Lit, BlockAt;
    UpdateParts(p, at);
    UpdateLengths();
    InsnAt(p, at, Start(), 0);
    InsnAt(p, at, Start(), 1);
    InsnAt(p, at, Start(), 2);
  }

  lemma FinishAt(p: Prog, at: nat)
    requires UpdateAt(p, at)
    ensures at + 30 <= |p.insns| && forall i :: 0 <= i < 3 ==> p.insns[at + 27 + i] == Finish()[i]
  {
    hide Word, BlockAt, Start, LaneCode, Counting;
    UpdateParts(p, at);
    UpdateLengths();
    InsnAt(p, at + 27, Finish(), 0);
    InsnAt(p, at + 27, Finish(), 1);
    InsnAt(p, at + 27, Finish(), 2);
  }

  /** The counter is saved, the length counted, and the counter reset. */
  lemma Begins(p: Prog, u: set<LocalKey>, s: State, at: nat, st: nat, data: nat)
    requires Called(p, u, s, at, st, data)
    ensures var d := s.data;
            Goes(p, u, s, In(KeptCounter(s), at + 3, d, Initially(d).(c0 := Word(0), mem := Counted(d.mem, st)),
                s.flags))
  {
    hide Goes, Word, Get, UpdateAt, Build, Takes, Saved, Counted, Lit, Field;
    StartAt(p, at);
    assert p.insns[at + 0] == Start()[0] && p.insns[at + 1] == Start()[1] && p.insns[at + 2] == Start()[2];
    KeptCounterParts(s);
    var d, e, v := s.data, Initially(s.data), KeptCounter(s);
    GoesPut(p, u, s, 0, C0.Number());
    BuildInitially(d);
    var e1 := e.(mem := Counted(d.mem, st));
    TakesCount(d, e, st);
    GoesInsn(p, u, v, at + 1, Start()[1], d, e, e1, s.flags);
    TakesLiteral(d, e1, C0, Word(0));
    GoesInsn(p, u, v, at + 2, Start()[2], d, e1, e1.(c0 := Word(0)), s.flags);
    GoesFar(p, u, s, In(v, at + 1, d, e, s.flags), In(v, at + 2, d, e1, s.flags),
        In(v, at + 3, d, e1.(c0 := Word(0)), s.flags));
  }

  /** The registers and memory at the return. */
  function Final(s: State, f: Env, st: nat): Env
    requires st < WORD_LIMIT
  {
    f.(r0 := Word(st), c0 := Get(s.data, C0.Number()))
  }

  lemma Ends(p: Prog, u: set<LocalKey>, s: State, at: nat, st: nat, data: nat, f: Env, fl: Comparison)
    requires Called(p, u, s, at, st, data) && |f.mem| == MEMORY_SIZE
    ensures Goes(p, u, In(KeptCounter(s), at + 27, s.data, f, fl),
        Leave(In(KeptCounter(s), at + 29, s.data, Final(s, f, st), fl)))
  {
    hide Goes, Word, UpdateAt, Build, KeptCounter, Get, Set, Remembers, Takes;
    FinishAt(p, at);
    assert p.insns[at + 27] == Finish()[0] && p.insns[at + 27 + 1] == Finish()[1];
    assert p.insns[at + 27 + 2] == Finish()[2];
    KeptCounterParts(s);
    var d, v, x := s.data, KeptCounter(s), Get(s.data, C0.Number());
    var g := f.(r0 := Word(st));
    TakesPointer(d, f, st);
    GoesInsn(p, u, v, at + 27, Finish()[0], d, f, g, fl);
    BuildBase(d, g);
    RemembersHere(v, at + 28, Build(d, g), fl, 0, x);
    GoesGet(p, u, In(v, at + 28, d, g, fl), 0, C0.Number(), x);
    BuildSet(d, g, C0, x);
    var h := Final(s, f, st);
    BuildBase(d, h);
    GoesReturn(p, u, In(v, at + 29, d, h, fl));
    GoesFar(p, u, In(v, at + 27, d, f, fl), In(v, at + 28, d, g, fl), In(v, at + 29, d, h, fl),
        Leave(In(v, at + 29, d, h, fl)));
  }

  lemma EndsUpdated(s: State, f: Env, pc: nat, fl: Comparison, st: nat, data: nat)
    requires s.stack != [] && s.status == Running && |s.data.mem| == |f.mem| == MEMORY_SIZE && Apart(st, data)
    requires Mixed(s.data.mem, f.mem, st, data, 4)
    requires WordAt(f.mem, st + TOTAL) == Add(0x10, WordAt(s.data.mem, st + TOTAL))
    requires var e := Initially(s.data); f.f1 == e.f1 && f.r2 == e.r2 && f.r3 == e.r3
    ensures Updated(s, Leave(In(KeptCounter(s), pc, s.data, Final(s, f, st), fl)), st, data)
  {
    hide KeptCounter, Mixed, Build, Get, Word, WordAt, Add;
    var d, g := s.data, Final(s, f, st);
    var t := Leave(In(KeptCounter(s), pc, d, g, fl));
    KeptCounterParts(s);
    BuildGet(d, g, R0);
    BuildBase(d, g);
    InitiallyIs(d);
    forall r: bv4 | r != 4 && r != 5 && r != 8 ensures Get(t.data, r) == Get(d, r) {
      BuildMost(d, g, r);
    }
  }

  lemma BuildMost(d: Data, g: Env, r: bv4)
    requires r != 4 && r != 5 && r != 8
    requires var e := Initially(d); g.f1 == e.f1 && g.c0 == e.c0 && g.r2 == e.r2 && g.r3 == e.r3
    ensures Get(Build(d, g), r) == Get(d, r)
  {
  }

  /** Where the lanes, the words and the length lie, in literals. */
  lemma UpdatedLiterals(s: State, t: State, st: nat, data: nat)
    requires Updated(s, t, st, data)
    ensures var m, n := s.data.mem, t.data.mem;
            && |m| == |n| == MEMORY_SIZE && st + 0x18 <= |m| && data + 0x10 <= |m|
            && (forall i :: 0 <= i < 4 ==>
                  WordAt(n, st + 4 + 4 * i) == Mix(WordAt(m, st + 4 + 4 * i), WordAt(m, data + 4 * i)))
            && WordAt(n, st + 0x14) == Add(0x10, WordAt(m, st + 0x14))
  {
    hide Mix, WordAt, Get, Add, Outside, Word;
    var m, n := s.data.mem, t.data.mem;
    forall i: nat | i < 4
      ensures WordAt(n, st + 4 + 4 * i) == Mix(WordAt(m, st + 4 + 4 * i), WordAt(m, data + 4 * i))
    {
      assert LaneAt(n, st, i) == Mix(LaneAt(m, st, i), WordOf(m, data, i));
    }
  }

  /** A call runs through and mixes the block into the state. */
  lemma UpdateReturns(p: Prog, u: set<LocalKey>, s: State, at: nat, st: nat, data: nat) returns (t: State)
    requires Called(p, u, s, at, st, data)
    ensures Goes(p, u, s, t) && Updated(s, t, st, data)
    ensures var m, n := s.data.mem, t.data.mem;
            && |n| == |m|
            && (forall i :: 0 <= i < 4 ==>
                  WordAt(n, st + 4 + 4 * i) == Mix(WordAt(m, st + 4 + 4 * i), WordAt(m, data + 4 * i)))
            && WordAt(n, st + 0x14) == Add(0x10, WordAt(m, st + 0x14))
  {
    hide Goes, Word, Build, KeptCounter, UpdateAt, Get, SetWord, WordAt, Counted, Mixed, Updated;
    var d, e, m := s.data, Initially(s.data), s.data.mem;
    InitiallyIs(d);
    KeptCounterParts(s);
    Begins(p, u, s, at, st, data);
    CountedMixed(m, st, data);
    CountedSize(m, st);
    var e1 := e.(c0 := Word(0), mem := Counted(m, st));
    var f, fl := LanesRun(p, u, KeptCounter(s), at, d, e1, st, data, 0, m, s.flags);
    Ends(p, u, s, at, st, data, f, fl);
    t := Leave(In(KeptCounter(s), at + 29, d, Final(s, f, st), fl));
    GoesFar(p, u, s, In(KeptCounter(s), at + 3, d, e1, s.flags), In(KeptCounter(s), at + 27, d, f, fl), t);
    EndsUpdated(s, f, at + 29, fl, st, data);
    UpdatedLiterals(s, t, st, data);
  }

  lemma CountedSize(m: Memory, st: nat)
    requires st + TOTAL + 4 <= |m|
    ensures |Counted(m, st)| == |m|
  {
  }

  // ----- Injectivity -----

  predicate SameLanes(m: Memory, n: Memory, st: nat)
    requires |m| == |n| == MEMORY_SIZE && st + TOTAL + 4 <= MEMORY_SIZE
  {
    forall i :: 0 <= i < 4 ==> LaneAt(m, st, i) == LaneAt(n, st, i)
  }

  predicate SameBlock(m: Memory, n: Memory, data: nat)
    requires |m| == |n| == MEMORY_SIZE && data + 16 <= MEMORY_SIZE
  {
    forall i :: 0 <= i < 4 ==> WordOf(m, data, i) == WordOf(n, data, i)
  }

  /** Two updates, of memory m1 to n1 and of m2 to n2, that end with the same lanes: they began with the
      same lanes exactly when they mixed in the same block. So for fixed lanes the update is injective in
      its block, and for a fixed block in the lanes. */
  lemma UpdateInjective(m1: Memory, n1: Memory, m2: Memory, n2: Memory, st: nat, data: nat)
    requires |m1| == |n1| == |m2| == |n2| == MEMORY_SIZE && Apart(st, data)
    requires Mixed(m1, n1, st, data, 4) && Mixed(m2, n2, st, data, 4) && SameLanes(n1, n2, st)
    ensures SameLanes(m1, m2, st) <==> SameBlock(m1, m2, data)
  {
    hide Mix, Unmix, Absorb, Unabsorb, WordAt, Outside, Xor;
    forall i: nat | 0 <= i < 4
      ensures LaneAt(m1, st, i) == LaneAt(m2, st, i) <==> WordOf(m1, data, i) == WordOf(m2, data, i)
    {
      assert LaneAt(n1, st, i) == LaneAt(n2, st, i);
      LaneRecovered(LaneAt(m1, st, i), WordOf(m1, data, i));
      LaneRecovered(LaneAt(m2, st, i), WordOf(m2, data, i));
      WordRecovered(LaneAt(m1, st, i), WordOf(m1, data, i));
      WordRecovered(LaneAt(m2, st, i), WordOf(m2, data, i));
    }
  }
}
