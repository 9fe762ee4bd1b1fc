/** A whole program that seeds the Mersenne Twister and draws from it, as source text, in order, and on
    the machine after any compilation. */
module TwisterProgram {
  import opened Words
  import opened Alu
  import opened Program
  import opened Blocks
  import opened Texts
  import opened Words32
  import opened Symbolic
  import opened Reaching
  import opened Twister
  import opened MersenneCode
  import opened TwisterLoops
  import opened TwisterRand
  import opened TwisterCalls
  import opened TwisterInit
  import Machine
  import Layout
  import Relation
  import Simulation
  import Theorems

  // ----- The text -----

  const DRAW := "LAB_Draw"

  /** Point F0 to a blob, put a seed in F1, seed, and draw for ever. */
  function Main(base: nat, seed: bv32): seq<Insn>
    requires base < WORD_LIMIT
  {
    [LitInsn(MOV, F0, Word(base)), LitInsn(MOV, F1.Number(), seed), Insn(CALL, LabelRef(INIT), NoOperand)]
  }

  function DrawLoop(): seq<Insn> { [Insn(CALL, LabelRef(RAND), NoOperand), Insn(JMP, LabelRef(DRAW), NoOperand)] }

  function InitFront(): seq<Insn> { Save() + Head() }

  function InitRest(): seq<Insn> { Multiply() + Advance() + Counting(624, TwisterInit.LOOP) + Tail() + Restore() }

  function RandFront(): seq<Insn> { Entry() + Check() }

  function RandRest(): seq<Insn> { NextWord() + Tempering() + Exit() }

  function Loop2(): seq<Insn> { Loop(false, LOOP2) + WrapAround() }

  function Text(base: nat, seed: bv32): seq<Line>
    requires base < WORD_LIMIT
  {
    Codes(Main(base, seed))
    + [Label(DRAW)] + Codes(DrawLoop())
    + [Label(INIT)] + Codes(InitFront())
    + [Label(TwisterInit.LOOP)] + Codes(InitRest())
    + [Label(RAND)] + Codes(RandFront())
    + [Label(LOOP1)] + Codes(Loop(true, LOOP1))
    + [Label(LOOP2)] + Codes(Loop2())
    + [Label(NEXT_GEN)] + Codes(RandRest())
  }

  /** The program the text parses to. */
  function Whole(base: nat, seed: bv32): Prog
    requires base < WORD_LIMIT
  {
    hide Main, InitFront, InitRest, RandFront, Loop, Loop2, RandRest;
    Prog(
      Main(base, seed) + DrawLoop() + InitFront() + InitRest()
      + RandFront() + Loop(true, LOOP1) + Loop2() + RandRest(),
      Places())
  }

  function Places(): map<string, nat> {
    map[][DRAW := 3][INIT := 5][TwisterInit.LOOP := 11][RAND := 25][LOOP1 := 37][LOOP2 := 59][NEXT_GEN := 98]
  }

  lemma PartLengths(base: nat, seed: bv32)
    requires base < WORD_LIMIT
    ensures |Main(base, seed)| == 3 && |DrawLoop()| == 2 && |InitFront()| == 6
    ensures |InitRest()| == 14 && |RandFront()| == 12
    ensures |Loop(true, LOOP1)| == 22 && |Loop2()| == 39 && |RandRest()| == 21
  {
    hide Word, Save, Head, Multiply, Advance, Counting, Tail, Restore, Entry, Check, Loop, WrapAround, NextWord;
    hide Tempering, Exit;
    InitLengths();
    Lengths();
  }

  lemma TextParses(base: nat, seed: bv32)
    requires base < WORD_LIMIT
    ensures Parse(Text(base, seed)) == Whole(base, seed)
  {
    hide Parse, Main, DrawLoop, InitFront, InitRest, RandFront, Loop, Loop2, RandRest, Codes, Word;
    PartLengths(base, seed);
    var l0 := Codes(Main(base, seed));
    var ld := l0 + [Label(DRAW)] + Codes(DrawLoop());
    var l1 := ld + [Label(INIT)] + Codes(InitFront());
    var l2 := l1 + [Label(TwisterInit.LOOP)] + Codes(InitRest());
    var l3 := l2 + [Label(RAND)] + Codes(RandFront());
    var l4 := l3 + [Label(LOOP1)] + Codes(Loop(true, LOOP1));
    var l5 := l4 + [Label(LOOP2)] + Codes(Loop2());
    ParseMain(base, seed);
    ParseLabelled(l0, DRAW, DrawLoop());
    ParseLabelled(ld, INIT, InitFront());
    ParseLabelled(l1, TwisterInit.LOOP, InitRest());
    ParseLabelled(l2, RAND, RandFront());
    ParseLabelled(l3, LOOP1, Loop(true, LOOP1));
    ParseLabelled(l4, LOOP2, Loop2());
    ParseLabelled(l5, NEXT_GEN, RandRest());
  }

  lemma ParseMain(base: nat, seed: bv32)
    requires base < WORD_LIMIT
    ensures Parse(Codes(Main(base, seed))) == Prog(Main(base, seed), map[])
  {
    hide Main, Codes, Word;
    ParseCodes([], Main(base, seed));
    assert [] + Codes(Main(base, seed)) == Codes(Main(base, seed));
    assert [] + Main(base, seed) == Main(base, seed);
    assert Parse([]) == Prog([], map[]);
  }

  lemma PlacesAre()
    ensures var l := Places();
            && DRAW in l && l[DRAW] == 3
            && INIT in l && l[INIT] == 5
            && TwisterInit.LOOP in l && l[TwisterInit.LOOP] == 11
            && RAND in l && l[RAND] == 25
            && LOOP1 in l && l[LOOP1] == 37
            && LOOP2 in l && l[LOOP2] == 59
            && NEXT_GEN in l && l[NEXT_GEN] == 98
  {
  }

  lemma InitStands(base: nat, seed: bv32)
    requires base < WORD_LIMIT
    ensures BlockAt(Whole(base, seed), 5, InitCode())
  {
    hide Main, DrawLoop, Word, InitFront, InitRest, RandFront, Loop, Loop2, RandRest, InitCode, Places;
    PartLengths(base, seed);
    InitIs();
    var p, a, b := Whole(base, seed), Main(base, seed) + DrawLoop(), InitCode();
    var c := RandFront() + Loop(true, LOOP1) + Loop2() + RandRest();
    assert p.insns == a + b + c;
  }

  lemma RandStands(base: nat, seed: bv32)
    requires base < WORD_LIMIT
    ensures BlockAt(Whole(base, seed), 25, RandCode())
  {
    hide Main, DrawLoop, Word, InitFront, InitRest, RandFront, Loop, Loop2, RandRest, RandCode, Places;
    PartLengths(base, seed);
    RandIs();
    var p, a, b := Whole(base, seed), Main(base, seed) + DrawLoop() + InitFront() + InitRest(), RandCode();
    assert p.insns == a + b + [];
  }

  lemma MainStands(base: nat, seed: bv32)
    requires base < WORD_LIMIT
    ensures var p, c := Whole(base, seed), Main(base, seed) + DrawLoop();
            |c| == 5 && |p.insns| == 119 && forall j :: 0 <= j < 5 ==> p.insns[j] == c[j]
  {
    hide Main, DrawLoop, Word, InitFront, InitRest, RandFront, Loop, Loop2, RandRest, Places;
    PartLengths(base, seed);
  }

  /** The functions stand where the labels say, and the session where it should. */
  lemma WholeStands(base: nat, seed: bv32)
    requires base < WORD_LIMIT
    ensures LoopSessionAt(Whole(base, seed), 2, DRAW)
  {
    hide Main, Word, InitCode, RandCode, BlockAt, Places;
    InitStands(base, seed);
    RandStands(base, seed);
    MainStands(base, seed);
    MainCalls(base, seed);
    PlacesAre();
    var p, c := Whole(base, seed), Main(base, seed) + DrawLoop();
    assert p.labels == Places();
    hide Whole;
    assert p.insns[2] == c[2] && p.insns[3] == c[3] && p.insns[4] == c[4];
  }

  lemma InitIs()
    ensures InitCode() == InitFront() + InitRest()
  {
    hide Save, Head, Multiply, Advance, Counting, Tail, Restore;
  }

  lemma RandIs()
    ensures RandCode() == RandFront() + Loop(true, LOOP1) + Loop2() + RandRest()
  {
    hide Entry, Check, Loop, WrapAround, NextWord, Tempering, Exit;
  }

  lemma MainCalls(base: nat, seed: bv32)
    requires base < WORD_LIMIT
    ensures var c := Main(base, seed) + DrawLoop();
            && |c| == 5
            && c[0] == LitInsn(MOV, F0, Word(base)) && c[1] == LitInsn(MOV, F1.Number(), seed)
            && c[2] == Insn(CALL, LabelRef(INIT), NoOperand)
            && c[3] == Insn(CALL, LabelRef(RAND), NoOperand)
            && c[4] == Insn(JMP, LabelRef(DRAW), NoOperand)
  {
    hide Word;
  }

  // ----- Running it -----

  /** The registers are set up. */
  lemma Prepares(base: nat, seed: bv32, u: set<LocalKey>, s: State) returns (t: State)
    requires Placed(base) && base < WORD_LIMIT
    requires s.pc == 0 && s.status == Running && |s.data.mem| == MEMORY_SIZE
    ensures Goes(Whole(base, seed), u, s, t)
    ensures t == s.(pc := 2, data := t.data) && |t.data.mem| == MEMORY_SIZE
    ensures Get(t.data, F0) == Word(base) && Get(t.data, F1.Number()) == seed
  {
    hide Goes, Whole, Main, Word, Get, Set, AllDoable, DoAll, Doable, Do;
    var p, c, d := Whole(base, seed), Main(base, seed) + DrawLoop(), s.data;
    MainStands(base, seed);
    MainCalls(base, seed);
    assert p.insns[0] == c[0] && p.insns[1] == c[1];
    var block := [LitInsn(MOV, F0, Word(base)), LitInsn(MOV, F1.Number(), seed)];
    assert p.insns[0..2] == block;
    DoLoadLiteral(F0, Word(base), d);
    var e := Set(d, F0, Word(base));
    DoLoadLiteral(F1.Number(), seed, e);
    DoTwo(block[0], block[1], d);
    GetSet(d, F0, Word(base), F0);
    GetSet(e, F1.Number(), seed, F0);
    GetSet(e, F1.Number(), seed, F1.Number());
    GoesBlock(p, u, s, block);
    t := Moved(s, 2, DoAll(block, d), s.flags);
  }

  /** The four local variables the program uses. */
  function Locals(): set<LocalKey> {
    {LocalKey(ReturningTo(3), 0), LocalKey(ReturningTo(3), 1), LocalKey(ReturningTo(4), 0), LocalKey(ReturningTo(4), 1)}
  }

  /** From power-on, the text run in order comes to its jump, for every n, with n words drawn and the
      n-th word of the seed's stream, tempered, in R0. */
  lemma TextDraws(base: nat, seed: bv32, n: nat, mem: Memory) returns (k: nat)
    requires Placed(base) && base < WORD_LIMIT && n > 0 && |mem| == MEMORY_SIZE
    ensures var p, u := Parse(Text(base, seed)), Locals();
            && CanRun(p, u, k, Initial(mem))
            && var t := Run(p, u, k, Initial(mem));
               && t.status == Running && t.pc == 4
               && Drawn(t.data.mem, base, seed, n)
               && Get(t.data, R0.Number()) == Temper(Stream(seed, n + 623))
  {
    hide Whole, Text, Parse, Word, Get, Temper, Stream, Drawn, Run, CanRun, LoopSessionAt;
    var p, u := Whole(base, seed), Locals();
    TextParses(base, seed);
    WholeStands(base, seed);
    var s := Prepares(base, seed, u, Initial(mem));
    var t := LoopDraws(p, u, s, base, DRAW, n);
    GoesOn(p, u, Initial(mem), s, t);
    k :| CanRun(p, u, k, Initial(mem)) && Run(p, u, k, Initial(mem)) == t;
  }

  /** So does the machine, whatever the shuffle and the ciphers the text was compiled with, as long as
      the four local variables do not collide. */
  lemma MachineDraws(base: nat, seed: bv32, n: nat, ch: Layout.Choice, img: Layout.Image, mem: Memory) returns (k: nat)
    requires Placed(base) && base < WORD_LIMIT && n > 0 && Theorems.Fresh(mem)
    requires Layout.IsImage(Parse(Text(base, seed)), ch, img) && Relation.NoClash(ch, img, Locals())
    ensures |img| == 119 && Layout.ValidChoice(ch, 119)
    ensures var code := Layout.Flatten(img);
            && Machine.CanRun(code, k, Machine.Boot(mem))
            && var m := Machine.Run(code, k, Machine.Boot(mem));
               && Val(m.vip) == Layout.Start(ch, img, 4)
               && Drawn(m.data.mem, base, seed, n)
               && Get(m.data, R0.Number()) == Temper(Stream(seed, n + 623))
  {
    hide Whole, Text, Parse, Word, Temper, Stream, Run, CanRun, Machine.Run, Machine.CanRun, Layout.IsImage;
    hide Relation.NoClash;
    hide Layout.Start, Val, Layout.Flatten, Locals;
    k := TextDraws(base, seed, n, mem);
    var p := Parse(Text(base, seed));
    assert |p.insns| == 119 by {
      TextParses(base, seed);
      MainStands(base, seed);
    }
    Simulation.ImageSize(p, ch, img);
    Theorems.CompilerCorrect(p, ch, img, Locals(), mem, k);
    hide Drawn, Get;
    DrawnAgrees(
      Machine.Run(Layout.Flatten(img), k, Machine.Boot(mem)).data.mem,
      Run(p, Locals(), k, Initial(mem)).data.mem,
      base, seed, n);
  }

  /** The blob and the constants lie in program memory. */
  lemma DrawnAgrees(a: Memory, b: Memory, base: nat, seed: bv32, n: nat)
    requires Relation.Agree(a, b) && Drawn(b, base, seed, n)
    ensures Drawn(a, base, seed, n)
  {
    hide WordAt, Stream, Word, Relation.Agree;
    Relation.AgreeSizes(a, b);
    SameWord(a, b, MAG);
    SameWord(a, b, MAG + 4);
    SameWord(a, b, base + INDEX);
    forall j: nat | 0 <= j < N ensures Slot(a, base, j) == Slot(b, base, j) {
      SameWord(a, b, base + 4 * j);
    }
    hide Slot;
  }

  lemma SameWord(a: Memory, b: Memory, at: nat)
    requires Relation.Agree(a, b) && PROGRAM_LO <= at && at + 4 <= MEMORY_SIZE
    ensures |a| == |b| == MEMORY_SIZE && WordAt(a, at) == WordAt(b, at)
  {
    hide Cat;
  }
}
