/** FUN_MersenneTwisterRand inside any program: every call returns the next tempered word of the stream. */
module TwisterRand {
  import opened Words
  import opened Alu
  import opened Program
  import opened Blocks
  import opened Words32
  import opened Symbolic
  import opened Twister
  import opened MersenneCode
  import opened TwisterLoops

  const INIT := "FUN_MersenneTwisterInit"
  const LOOP1 := "LAB_MersenneTwisterRand_Loop1"
  const LOOP2 := "LAB_MersenneTwisterRand_Loop2"
  const NEXT_GEN := "LAB_MersenneTwisterRand_NextGen"

  // ----- The code -----

  function Index(): Operand { Field(INDEX) }

  function CompareIndex(x: bv32): Insn { Insn(CMP, Index(), Literal(x, Int)) }

  function Entry(): seq<Insn> {
    [Insn(PUT, Literal(0, Int), Reg(F1.Number(), Int)), Insn(PUT, Literal(1, Int), Reg(C0.Number(), Int)),
     LoadInsn(R0, Index()), CompareIndex(Word(624)), Insn(JMP, LabelRef(NEXT_GEN), Flag(LT))]
  }

  function Check(): seq<Insn> {
    [Lit(MOV, F1, 4357), LoadInsn(R0, Index()),
     CompareIndex(Word(625)), Insn(CALL, LabelRef(INIT), Flag(GTE)),
     CompareIndex(Word(0)), Insn(CALL, LabelRef(INIT), Flag(LT)),
     Lit(MOV, C0, Word(0))]
  }

  function JoinFirst(): seq<Insn> { [LoadInsn(R2, Field(0)), Lit(AND, R2, LOWER), RR(OR, R1, R2)] }

  function Finish(): seq<Insn> { [StoreInsn(Element(), R2), Insn(MOV, Index(), Literal(Word(0), Int))] }

  function WrapAround(): seq<Insn> { TakeUpper() + JoinFirst() + MixIn(Field(1584)) + MixMag() + Finish() }

  function NextWord(): seq<Insn> {
    [LoadInsn(R0, Index()), Lit(MUL, R0, Word(4)), LoadInsn(R0, Element()), Insn(ADD, Index(), Literal(Word(1), Int))]
  }

  function RightStage(n: bv32): seq<Insn> { [RR(MOV, R1, R0), Lit(SHR, R1, n), RR(XOR, R0, R1)] }

  function LeftStage(n: bv32, mask: bv32): seq<Insn> {
    [RR(MOV, R1, R0), Lit(SHL, R1, n), Lit(AND, R1, mask), RR(XOR, R0, R1)]
  }

  function Tempering(): seq<Insn> {
    RightStage(11) + LeftStage(7, 0x9D2C_5680) + LeftStage(15, 0xEFC6_0000) + RightStage(18)
  }

  function Exit(): seq<Insn> {
    [Insn(GET, Reg(F1.Number(), Int), Literal(0, Int)), Insn(GET, Reg(C0.Number(), Int), Literal(1, Int)),
     Insn(RET, NoOperand, NoOperand)]
  }

  function RandCode(): seq<Insn> {
    Entry() + Check() + Loop(true, LOOP1) + Loop(false, LOOP2) + WrapAround() + NextWord() + Tempering() + Exit()
  }

  /** The function stands at `at` in the program, its labels where they belong. */
  predicate RandAt(p: Prog, at: nat) {
    && BlockAt(p, at, RandCode())
    && LOOP1 in p.labels && p.labels[LOOP1] == at + 12
    && LOOP2 in p.labels && p.labels[LOOP2] == at + 34
    && NEXT_GEN in p.labels && p.labels[NEXT_GEN] == at + 73
    && INIT in p.labels && p.labels[INIT] < |p.insns|
  }

  lemma Lengths()
    ensures |Entry()| == 5 && |Check()| == 7 && |Loop(true, LOOP1)| == |Loop(false, LOOP2)| == 22
    ensures |WrapAround()| == 17 && |NextWord()| == 4 && |Tempering()| == 14 && |Exit()| == 3
  {
    hide Word, Lit, RR, LoadInsn, StoreInsn, Field, Element, CompareIndex;
    BodyLength(true);
    BodyLength(false);
  }

  lemma Parts(p: Prog, at: nat)
    requires RandAt(p, at)
    ensures at + 94 <= |p.insns|
    ensures BlockAt(p, at, Entry()) && BlockAt(p, at + 5, Check())
    ensures LoopAt(p, at + 12, true, LOOP1) && LoopAt(p, at + 34, false, LOOP2)
    ensures BlockAt(p, at + 56, WrapAround()) && BlockAt(p, at + 73, NextWord())
    ensures BlockAt(p, at + 77, Tempering()) && BlockAt(p, at + 91, Exit())
  {
    Lengths();
    hide Entry, Check, Loop, WrapAround, NextWord, Tempering, Exit;
    assert at + 94 <= |p.insns|;
    hide BlockAt;
    var a := Entry();
    var b := a + Check();
    var c := b + Loop(true, LOOP1);
    var e := c + Loop(false, LOOP2);
    var f := e + WrapAround();
    var g := f + NextWord();
    var h := g + Tempering();
    BlockSplit(p, at, h, Exit());
    BlockSplit(p, at, g, Tempering());
    BlockSplit(p, at, f, NextWord());
    BlockSplit(p, at, e, WrapAround());
    BlockSplit(p, at, c, Loop(false, LOOP2));
    BlockSplit(p, at, b, Loop(true, LOOP1));
    BlockSplit(p, at, a, Check());
  }

  // ----- What the pieces do -----

  lemma FieldAddress(d: Data, e: Env, base: nat, n: nat)
    requires |e.mem| == MEMORY_SIZE && Placed(base) && n <= INDEX && Get(d, F0) == Word(base)
    ensures AddressIs(Field(n), base + n, Build(d, e))
  {
    BuildBase(d, e);
    hide Build, Get, Word;
    BasedAddress(F0, base, n, Build(d, e));
  }

  lemma IndexIs(mem: Memory, base: nat)
    requires |mem| == MEMORY_SIZE && Placed(base)
    ensures IndexWord(mem, base) == WordAt(mem, base + INDEX)
  {
  }

  /** The index is loaded. */
  lemma LoadIndex(d: Data, e: Env, base: nat, r: Working)
    requires |e.mem| == MEMORY_SIZE && Placed(base) && Get(d, F0) == Word(base)
    ensures Takes(LoadInsn(r, Index()), d, e, With(e, r, IndexWord(e.mem, base)))
  {
    hide Takes, Word, Build, Get, WordAt, LoadInsn, AddressIs;
    FieldAddress(d, e, base, INDEX);
    IndexIs(e.mem, base);
    TakesLoad(d, e, r, Index(), base + INDEX);
  }

  /** R1 gains the lower bits of slot 0. */
  lemma JoinFirstEffect(d: Data, e: Env, base: nat)
    requires |e.mem| == MEMORY_SIZE && Placed(base) && Get(d, F0) == Word(base)
    ensures var b := Binary(AND, Slot(e.mem, base, 0), LOWER);
            BlockTakes(JoinFirst(), d, e, e.(r1 := Binary(OR, e.r1, b), r2 := b))
  {
    hide Takes, BlockTakes, Word, Binary, Slot, Build, Get, WordAt, Lit, RR, LoadInsn, AddressIs;
    var c := JoinFirst();
    var x := Slot(e.mem, base, 0);
    var b := Binary(AND, x, LOWER);
    var e1 := e.(r2 := x);
    var e2 := e.(r2 := b);
    FieldAddress(d, e, base, 0);
    TakesLoad(d, e, R2, Field(0), base);
    SlotIs(e.mem, base, 0);
    TakesBinaryLiteral(d, e1, AND, R2, LOWER);
    TakesBinary(d, e2, OR, R1, R2);
    TakesThree(c[0], c[1], c[2], d, e, e1, e2, e2.(r1 := Binary(OR, e.r1, b)));
  }

  lemma FinishEffect(d: Data, e: Env, base: nat, k: nat)
    requires |e.mem| == MEMORY_SIZE && Placed(base) && k < N && Get(d, F0) == Word(base) && e.r0 == Word(4 * k)
    ensures BlockTakes(Finish(), d, e, e.(mem := SetWord(SetWord(e.mem, base + 4 * k, e.r2), base + INDEX, Word(0))))
  {
    hide Takes, BlockTakes, Word, Build, Get, SetWord, StoreInsn, Element, AddressIs, Field;
    var c := Finish();
    ElementAddress(d, e, base, k);
    TakesStore(d, e, Element(), base + 4 * k, R2);
    var e1 := e.(mem := SetWord(e.mem, base + 4 * k, e.r2));
    FieldAddress(d, e1, base, INDEX);
    TakesStoreLiteral(d, e1, Index(), base + INDEX, Word(0));
    TakesTwo(c[0], c[1], d, e, e1, e1.(mem := SetWord(e1.mem, base + INDEX, Word(0))));
  }

  /** The state after the last word of a generation. */
  function Wrapped(e: Env, base: nat): Env
    requires |e.mem| == MEMORY_SIZE && Placed(base)
  {
    var a, b, c := Slot(e.mem, base, 623), Slot(e.mem, base, 0), Slot(e.mem, base, 396);
    Env(Word(4 * 623), Mag(Joined(a, b)), Twist(a, b, c), Half(Joined(a, b)), e.r4, e.f1, e.c0,
        SetWord(SetWord(e.mem, base + 4 * 623, Twist(a, b, c)), base + INDEX, Word(0)))
  }

  lemma WrapEffect(d: Data, e: Env, base: nat)
    requires |e.mem| == MEMORY_SIZE && Placed(base) && MagSet(e.mem) && Get(d, F0) == Word(base) && e.c0 == Word(623)
    ensures BlockTakes(WrapAround(), d, e, Wrapped(e, base))
  {
    hide BlockTakes, Word, Binary, Slot, Build, Get, Mag, MagSet, Joined, Xor, Half, SetWord;
    hide TakeUpper, JoinFirst, MixIn, MixMag, Finish, AddressIs, Field;
    var a, b, c := Slot(e.mem, base, 623), Slot(e.mem, base, 0), Slot(e.mem, base, 396);
    var y := Joined(a, b);
    var e1 := e.(r0 := Word(4 * 623), r1 := Binary(AND, a, UPPER));
    var e2 := e1.(r1 := y, r2 := Binary(AND, b, LOWER));
    var e3 := e2.(r2 := Xor(c, Half(y)), r3 := Half(y));
    var e4 := e3.(r1 := Mag(y), r2 := Twist(a, b, c));
    TakeUpperEffect(d, e, base, 623);
    JoinFirstEffect(d, e1, base);
    JoinedIs(a, b);
    FieldAddress(d, e2, base, 1584);
    MixInEffect(d, e2, Field(1584), base, 396);
    MixMagEffect(d, e3);
    FinishEffect(d, e4, base, 623);
    TakesBoth(TakeUpper(), JoinFirst(), d, e, e1, e2);
    TakesBoth(TakeUpper() + JoinFirst(), MixIn(Field(1584)), d, e, e2, e3);
    TakesBoth(TakeUpper() + JoinFirst() + MixIn(Field(1584)), MixMag(), d, e, e3, e4);
    TakesBoth(TakeUpper() + JoinFirst() + MixIn(Field(1584)) + MixMag(), Finish(), d, e, e4, Wrapped(e, base));
  }

  /** Slot i is fetched and the index moves on. */
  lemma NextWordEffect(d: Data, e: Env, base: nat, i: nat)
    requires |e.mem| == MEMORY_SIZE && Placed(base) && i < N && Get(d, F0) == Word(base)
    requires IndexWord(e.mem, base) == Word(i)
    ensures BlockTakes(NextWord(), d, e, e.(r0 := Slot(e.mem, base, i),
        mem := SetWord(e.mem, base + INDEX, Word(i + 1))))
  {
    hide Takes, BlockTakes, Word, Binary, Slot, Build, Get, WordAt, SetWord, Lit, LoadInsn, Element, AddressIs, Field;
    hide IndexWord, Add;
    var c := NextWord();
    var e1 := e.(r0 := Word(i));
    var e2 := e.(r0 := Word(4 * i));
    var e3 := e.(r0 := Slot(e.mem, base, i));
    LoadIndex(d, e, base, R0);
    TakesBinaryLiteral(d, e1, MUL, R0, Word(4));
    MulFour(i);
    ElementAddress(d, e2, base, i);
    TakesLoad(d, e2, R0, Element(), base + 4 * i);
    SlotIs(e.mem, base, i);
    FieldAddress(d, e3, base, INDEX);
    IndexIs(e.mem, base);
    TakesIncrement(d, e3, Index(), base + INDEX, Word(1));
    AddWords(1, i);
    TakesFour(c[0], c[1], c[2], c[3], d, e, e1, e2, e3, e3.(mem := SetWord(e.mem, base + INDEX, Word(i + 1))));
  }

  lemma RightEffect(d: Data, e: Env, n: bv32)
    requires n < 32
    ensures var y := Binary(SHR, e.r0, n); BlockTakes(RightStage(n), d, e, e.(r0 := Xor(e.r0, y), r1 := y))
  {
    hide Takes, BlockTakes, Binary, Build, Get, Lit, RR, Xor;
    var c := RightStage(n);
    var y := Binary(SHR, e.r0, n);
    var e1 := e.(r1 := e.r0);
    var e2 := e.(r1 := y);
    TakesCopy(d, e, R1, R0);
    TakesBinaryLiteral(d, e1, SHR, R1, n);
    TakesXor(d, e2, R0, R1);
    TakesThree(c[0], c[1], c[2], d, e, e1, e2, e2.(r0 := Xor(e.r0, y)));
  }

  lemma LeftEffect(d: Data, e: Env, n: bv32, mask: bv32)
    requires n < 32
    ensures var y := Binary(AND, Binary(SHL, e.r0, n), mask);
            BlockTakes(LeftStage(n, mask), d, e, e.(r0 := Xor(e.r0, y), r1 := y))
  {
    hide Takes, BlockTakes, Binary, Build, Get, Lit, RR, Xor;
    var c := LeftStage(n, mask);
    var x := Binary(SHL, e.r0, n);
    var y := Binary(AND, x, mask);
    var e1 := e.(r1 := e.r0);
    var e2 := e.(r1 := x);
    var e3 := e.(r1 := y);
    TakesCopy(d, e, R1, R0);
    TakesBinaryLiteral(d, e1, SHL, R1, n);
    TakesBinaryLiteral(d, e2, AND, R1, mask);
    TakesXor(d, e3, R0, R1);
    TakesFour(c[0], c[1], c[2], c[3], d, e, e1, e2, e3, e3.(r0 := Xor(e.r0, y)));
  }

  lemma RightAre(x: bv32)
    ensures Binary(SHR, x, 11) == Right11(x)
    ensures Binary(SHR, x, 18) == Right18(x)
  {
  }

  lemma LeftAre(x: bv32, n: bv32, y: bv32, mask: bv32)
    requires n < 32
    ensures Binary(SHL, x, n) == Left(x, n) && Binary(AND, y, mask) == Masked(y, mask)
  {
  }

  lemma StagesAre(x: bv32)
    ensures Xor(x, Binary(SHR, x, 11)) == Shift11(x)
    ensures Xor(x, Binary(AND, Binary(SHL, x, 7), 0x9D2C_5680)) == Shift7(x)
    ensures Xor(x, Binary(AND, Binary(SHL, x, 15), 0xEFC6_0000)) == Shift15(x)
    ensures Xor(x, Binary(SHR, x, 18)) == Shift18(x)
  {
    hide Xor, Binary, Right11, Right18, Left, Masked;
    RightAre(x);
    LeftAre(x, 7, Left(x, 7), 0x9D2C_5680);
    LeftAre(x, 15, Left(x, 15), 0xEFC6_0000);
  }

  /** The four stages temper R0. */
  lemma TemperingEffect(d: Data, e: Env)
    ensures BlockTakes(Tempering(), d, e, e.(r0 := Temper(e.r0), r1 := Binary(SHR, Shift15(Shift7(Shift11(e.r0))), 18)))
  {
    hide BlockTakes, Binary, Build, RightStage, LeftStage, Shift11, Shift7, Shift15, Shift18, Xor;
    var x1, y1 := Shift11(e.r0), Binary(SHR, e.r0, 11);
    var x2, y2 := Shift7(x1), Binary(AND, Binary(SHL, x1, 7), 0x9D2C_5680);
    var x3, y3 := Shift15(x2), Binary(AND, Binary(SHL, x2, 15), 0xEFC6_0000);
    var x4, y4 := Shift18(x3), Binary(SHR, x3, 18);
    StagesAre(e.r0);
    StagesAre(x1);
    StagesAre(x2);
    StagesAre(x3);
    var e1 := e.(r0 := x1, r1 := y1);
    var e2 := e.(r0 := x2, r1 := y2);
    var e3 := e.(r0 := x3, r1 := y3);
    RightEffect(d, e, 11);
    LeftEffect(d, e1, 7, 0x9D2C_5680);
    LeftEffect(d, e2, 15, 0xEFC6_0000);
    RightEffect(d, e3, 18);
    TakesBoth(RightStage(11), LeftStage(7, 0x9D2C_5680), d, e, e1, e2);
    TakesBoth(RightStage(11) + LeftStage(7, 0x9D2C_5680), LeftStage(15, 0xEFC6_0000), d, e, e2, e3);
    TakesBoth(RightStage(11) + LeftStage(7, 0x9D2C_5680) + LeftStage(15, 0xEFC6_0000), RightStage(18), d, e, e3,
        e.(r0 := x4, r1 := y4));
  }
}
