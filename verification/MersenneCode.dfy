/** The Mersenne Twister as a virtual program: the straight-line pieces of FUN_MersenneTwisterInit and
    FUN_MersenneTwisterRand and what each of them computes. */
module MersenneCode {
  import opened Words
  import opened Alu
  import opened Program
  import opened Blocks
  import opened Words32
  import opened Symbolic
  import opened Twister

  /** MT_MAG. */
  const MAG: nat := 0x0E_6E04
  /** The offset of the index in the data blob. */
  const INDEX: nat := 0x4E00

  /** [F0+R0] */
  function Element(): Operand { Indexed(F0, Int, R0.Number(), Int, Int) }

  // ----- The blob in memory -----

  /** The blob at `base` lies in program memory and does not overlap the constants at MT_MAG. */
  predicate Placed(base: nat) {
    && PROGRAM_LO <= base
    && base + INDEX + 4 <= MEMORY_SIZE
    && (base + INDEX + 4 <= MAG || MAG + 8 <= base)
  }

  function Slot(mem: Memory, base: nat, j: nat): bv32
    requires |mem| == MEMORY_SIZE && Placed(base) && j < N
  {
    WordAt(mem, base + 4 * j)
  }

  predicate MagSet(mem: Memory)
    requires |mem| == MEMORY_SIZE
  {
    WordAt(mem, MAG) == 0 && WordAt(mem, MAG + 4) == MATRIX
  }

  /** The index `i` of slot `j` in the stream once the first `k` slots of generation `g` are renewed. */
  function StreamIndex(g: nat, k: nat, j: nat): nat {
    N * g + j + if j < k then N else 0
  }

  /** The slots hold the stream, the first `k` already one generation ahead. */
  predicate Holds(mem: Memory, base: nat, seed: bv32, g: nat, k: nat)
    requires |mem| == MEMORY_SIZE && Placed(base)
  {
    forall j :: 0 <= j < N ==> Slot(mem, base, j) == Stream(seed, StreamIndex(g, k, j))
  }

  function IndexWord(mem: Memory, base: nat): bv32
    requires |mem| == MEMORY_SIZE && Placed(base)
  {
    WordAt(mem, base + INDEX)
  }
  // ----- Pieces of the twist -----

  /** R0 becomes 4k, R1 the upper bit of slot k. */
  function TakeUpper(): seq<Insn> {
    [RR(MOV, R0, C0), Lit(MUL, R0, Word(4)), LoadInsn(R1, Element()), Lit(AND, R1, UPPER)]
  }

  lemma ElementAddress(d: Data, e: Env, base: nat, k: nat)
    requires |e.mem| == MEMORY_SIZE && Placed(base) && k < N && Get(d, F0) == Word(base) && e.r0 == Word(4 * k)
    ensures AddressIs(Element(), base + 4 * k, Build(d, e))
  {
    BuildBase(d, e);
    BuildGet(d, e, R0);
    hide Build, Get, Word;
    IndexedAddress(F0, base, R0.Number(), 4 * k, Build(d, e));
  }

  lemma TakeUpperEffect(d: Data, e: Env, base: nat, k: nat)
    requires |e.mem| == MEMORY_SIZE && Placed(base) && k < N && Get(d, F0) == Word(base) && e.c0 == Word(k)
    ensures BlockTakes(TakeUpper(), d, e, e.(r0 := Word(4 * k), r1 := Binary(AND, Slot(e.mem, base, k), UPPER)))
  {
    hide Takes, BlockTakes, Word, Binary, Slot, Build, Get, WordAt, Lit, RR, LoadInsn, Element, AddressIs;
    var c := TakeUpper();
    var e1 := e.(r0 := Word(k));
    var e2 := e.(r0 := Word(4 * k));
    var e3 := e2.(r1 := Slot(e.mem, base, k));
    TakesCopy(d, e, R0, C0);
    TakesBinaryLiteral(d, e1, MUL, R0, Word(4));
    MulFour(k);
    ElementAddress(d, e2, base, k);
    TakesLoad(d, e2, R1, Element(), base + 4 * k);
    SlotIs(e.mem, base, k);
    TakesBinaryLiteral(d, e3, AND, R1, UPPER);
    TakesFour(c[0], c[1], c[2], c[3], d, e, e1, e2, e3, e3.(r1 := Binary(AND, Slot(e.mem, base, k), UPPER)));
  }

  lemma SlotIs(mem: Memory, base: nat, j: nat)
    requires |mem| == MEMORY_SIZE && Placed(base) && j < N
    ensures Slot(mem, base, j) == WordAt(mem, base + 4 * j)
  {
  }

  /** R0 becomes 4(k+1), R1 gains the lower bits of slot k+1. */
  function JoinLower(): seq<Insn> {
    [Lit(ADD, R0, Word(4)), LoadInsn(R2, Element()), Lit(AND, R2, LOWER), RR(OR, R1, R2)]
  }

  lemma JoinLowerEffect(d: Data, e: Env, base: nat, k: nat)
    requires |e.mem| == MEMORY_SIZE && Placed(base) && k + 1 < N && Get(d, F0) == Word(base) && e.r0 == Word(4 * k)
    ensures var b := Binary(AND, Slot(e.mem, base, k + 1), LOWER);
            BlockTakes(JoinLower(), d, e, e.(r0 := Word(4 * (k + 1)), r1 := Binary(OR, e.r1, b), r2 := b))
  {
    hide Takes, BlockTakes, Word, Binary, Slot, Build, Get, WordAt, Lit, RR, LoadInsn, Element, AddressIs;
    var c := JoinLower();
    var x := Slot(e.mem, base, k + 1);
    var b := Binary(AND, x, LOWER);
    var e1 := e.(r0 := Word(4 * (k + 1)));
    var e2 := e1.(r2 := x);
    var e3 := e1.(r2 := b);
    TakesBinaryLiteral(d, e, ADD, R0, Word(4));
    AddIs(4 * k, 4);
    ElementAddress(d, e1, base, k + 1);
    TakesLoad(d, e1, R2, Element(), base + 4 * (k + 1));
    SlotIs(e.mem, base, k + 1);
    TakesBinaryLiteral(d, e2, AND, R2, LOWER);
    TakesBinary(d, e3, OR, R1, R2);
    TakesFour(c[0], c[1], c[2], c[3], d, e, e1, e2, e3, e3.(r1 := Binary(OR, e.r1, b)));
  }

  /** R2 becomes the word at slot m (address R0 = 4m, or `o`) XOR half of R1. */
  function MixIn(o: Operand): seq<Insn> {
    [LoadInsn(R2, o), RR(MOV, R3, R1), Lit(SHR, R3, 1), RR(XOR, R2, R3)]
  }

  lemma MixInEffect(d: Data, e: Env, o: Operand, base: nat, m: nat)
    requires |e.mem| == MEMORY_SIZE && Placed(base) && m < N && AddressIs(o, base + 4 * m, Build(d, e))
    ensures var h := Half(e.r1);
            BlockTakes(MixIn(o), d, e, e.(r2 := Xor(Slot(e.mem, base, m), h), r3 := h))
  {
    hide Takes, BlockTakes, Word, Half, Xor, Slot, Build, Get, WordAt, Lit, RR, LoadInsn, AddressIs;
    var c := MixIn(o);
    var x, h := Slot(e.mem, base, m), Half(e.r1);
    var e1 := e.(r2 := x);
    var e2 := e1.(r3 := e.r1);
    var e3 := e1.(r3 := h);
    TakesLoad(d, e, R2, o, base + 4 * m);
    SlotIs(e.mem, base, m);
    TakesCopy(d, e1, R3, R1);
    TakesHalf(d, e2, R3);
    TakesXor(d, e3, R2, R3);
    TakesFour(c[0], c[1], c[2], c[3], d, e, e1, e2, e3, e3.(r2 := Xor(x, h)));
  }

  /** R1 becomes the matrix word its lowest bit selects, and R2 is XORed with it. */
  function MixMag(): seq<Insn> {
    [Lit(AND, R1, 1), Lit(MUL, R1, Word(4)), LoadInsn(R1, Based(R1.Number(), Int, Word(MAG), Int)), RR(XOR, R2, R1)]
  }

  function MagIndex(y: bv32): nat { if y & 1 == 0 then 0 else 4 }

  lemma MagValue(y: bv32, mem: Memory)
    requires |mem| == MEMORY_SIZE && MagSet(mem)
    ensures Binary(MUL, Binary(AND, y, 1), Word(4)) == Word(MagIndex(y))
    ensures WordAt(mem, MAG + MagIndex(y)) == Mag(y)
  {
    hide WordAt, Word, Mul;
    SmallWords();
    FourTimes(0);
    FourTimes(1);
  }

  lemma MixMagEffect(d: Data, e: Env)
    requires |e.mem| == MEMORY_SIZE && MagSet(e.mem)
    ensures BlockTakes(MixMag(), d, e, e.(r1 := Mag(e.r1), r2 := Xor(e.r2, Mag(e.r1))))
  {
    hide Takes, BlockTakes, Word, Binary, Build, Get, WordAt, Lit, RR, LoadInsn, AddressIs, Mag, MagSet;
    var c := MixMag();
    var y, a := e.r1, MagIndex(e.r1);
    var e1 := e.(r1 := Binary(AND, y, 1));
    var e2 := e.(r1 := Word(a));
    var e3 := e.(r1 := Mag(y));
    TakesBinaryLiteral(d, e, AND, R1, 1);
    TakesBinaryLiteral(d, e1, MUL, R1, Word(4));
    MagValue(y, e.mem);
    BuildGet(d, e2, R1);
    BuildBase(d, e2);
    BasedAddress(R1.Number(), a, MAG, Build(d, e2));
    TakesLoad(d, e2, R1, Based(R1.Number(), Int, Word(MAG), Int), a + MAG);
    TakesXor(d, e3, R2, R1);
    TakesFour(c[0], c[1], c[2], c[3], d, e, e1, e2, e3, e3.(r2 := Xor(e.r2, Mag(y))));
  }

  /** The renewed word goes to slot k and the counter moves on. */
  function StoreNext(): seq<Insn> {
    [StoreInsn(Element(), R2), Lit(ADD, C0, Word(1))]
  }

  lemma StoreNextEffect(d: Data, e: Env, base: nat, k: nat)
    requires |e.mem| == MEMORY_SIZE && Placed(base) && k < N && Get(d, F0) == Word(base)
    requires e.r0 == Word(4 * k) && e.c0 == Word(k)
    ensures BlockTakes(StoreNext(), d, e, e.(c0 := Word(k + 1), mem := SetWord(e.mem, base + 4 * k, e.r2)))
  {
    hide Takes, BlockTakes, Word, Binary, Build, Get, SetWord, Lit, StoreInsn, Element, AddressIs;
    var c := StoreNext();
    ElementAddress(d, e, base, k);
    TakesStore(d, e, Element(), base + 4 * k, R2);
    var e1 := e.(mem := SetWord(e.mem, base + 4 * k, e.r2));
    TakesBinaryLiteral(d, e1, ADD, C0, Word(1));
    AddIs(k, 1);
    TakesTwo(c[0], c[1], d, e, e1, e1.(c0 := Word(k + 1)));
  }

  // ----- The two loop bodies -----

  /** The first loop fetches the word 397 slots ahead, the second the one 227 slots behind. */
  function Body(ahead: bool): seq<Insn> {
    TakeUpper() + JoinLower() + [if ahead then Lit(ADD, R0, Word(1584)) else Lit(SUB, R0, Word(912))]
    + MixIn(Element()) + MixMag() + [if ahead then Lit(SUB, R0, Word(1588)) else Lit(ADD, R0, Word(908))] + StoreNext()
  }

  /** The slot that holds the word 397 places on in the stream. */
  function Middle(k: nat): nat
    requires k < N
  {
    if k < 227 then k + 397 else k - 227
  }

  /** The state after one turn of a loop. */
  function Renewed(e: Env, base: nat, k: nat): Env
    requires |e.mem| == MEMORY_SIZE && Placed(base) && k + 1 < N
  {
    var a, b, c := Slot(e.mem, base, k), Slot(e.mem, base, k + 1), Slot(e.mem, base, Middle(k));
    Env(Word(4 * k), Mag(Joined(a, b)), Twist(a, b, c), Half(Joined(a, b)), e.r4, e.f1, Word(k + 1),
        SetWord(e.mem, base + 4 * k, Twist(a, b, c)))
  }

  lemma JoinedIs(a: bv32, b: bv32)
    ensures Binary(OR, Binary(AND, a, UPPER), Binary(AND, b, LOWER)) == Joined(a, b)
  {
  }

  /** Moving R0 to the middle slot. */
  lemma ToMiddle(d: Data, e: Env, ahead: bool, k: nat)
    requires k + 1 < N && (ahead <==> k < 227) && e.r0 == Word(4 * (k + 1))
    ensures BlockTakes([if ahead then Lit(ADD, R0, Word(1584)) else Lit(SUB, R0, Word(912))], d, e,
        e.(r0 := Word(4 * Middle(k))))
  {
    hide Takes, BlockTakes, Word, Binary, Lit;
    var f := e.(r0 := Word(4 * Middle(k)));
    if ahead {
      AddIs(4 * (k + 1), 1584);
      TakesBinaryLiteral(d, e, ADD, R0, Word(1584));
      OneTakes(Lit(ADD, R0, Word(1584)), d, e, f);
    } else {
      SubIs(4 * (k + 1), 912);
      TakesBinaryLiteral(d, e, SUB, R0, Word(912));
      OneTakes(Lit(SUB, R0, Word(912)), d, e, f);
    }
  }

  /** And back to slot k. */
  lemma FromMiddle(d: Data, e: Env, ahead: bool, k: nat)
    requires k + 1 < N && (ahead <==> k < 227) && e.r0 == Word(4 * Middle(k))
    ensures BlockTakes([if ahead then Lit(SUB, R0, Word(1588)) else Lit(ADD, R0, Word(908))], d, e,
        e.(r0 := Word(4 * k)))
  {
    hide Takes, BlockTakes, Word, Binary, Lit;
    var f := e.(r0 := Word(4 * k));
    if ahead {
      SubIs(4 * Middle(k), 1588);
      TakesBinaryLiteral(d, e, SUB, R0, Word(1588));
      OneTakes(Lit(SUB, R0, Word(1588)), d, e, f);
    } else {
      AddIs(4 * Middle(k), 908);
      TakesBinaryLiteral(d, e, ADD, R0, Word(908));
      OneTakes(Lit(ADD, R0, Word(908)), d, e, f);
    }
  }

  /** One turn of either loop renews slot k by the recurrence. */
  lemma BodyEffect(d: Data, e: Env, base: nat, k: nat, ahead: bool)
    requires |e.mem| == MEMORY_SIZE && Placed(base) && k + 1 < N && (ahead <==> k < 227) && MagSet(e.mem)
    requires Get(d, F0) == Word(base) && e.c0 == Word(k)
    ensures BlockTakes(Body(ahead), d, e, Renewed(e, base, k))
  {
    hide BlockTakes, Word, Binary, Slot, Build, Get, Lit, Mag, MagSet, Joined, Xor, Half, Middle, SetWord, Takes;
    hide TakeUpper, JoinLower, MixIn, MixMag, StoreNext, AddressIs, Element;
    var m := Middle(k);
    MiddleBound(k);
    var a, b, c := Slot(e.mem, base, k), Slot(e.mem, base, k + 1), Slot(e.mem, base, m);
    var y := Joined(a, b);
    var e1 := e.(r0 := Word(4 * k), r1 := Binary(AND, a, UPPER));
    var e2 := e.(r0 := Word(4 * (k + 1)), r1 := y, r2 := Binary(AND, b, LOWER));
    var e3 := e2.(r0 := Word(4 * m));
    var e4 := e3.(r2 := Xor(c, Half(y)), r3 := Half(y));
    var e5 := e4.(r1 := Mag(y), r2 := Twist(a, b, c));
    var e6 := e5.(r0 := Word(4 * k));
    TakeUpperEffect(d, e, base, k);
    JoinLowerEffect(d, e1, base, k);
    JoinedIs(a, b);
    ToMiddle(d, e2, ahead, k);
    ElementAddress(d, e3, base, m);
    MixInEffect(d, e3, Element(), base, m);
    MixMagEffect(d, e4);
    FromMiddle(d, e5, ahead, k);
    StoreNextEffect(d, e6, base, k);
    Chain(ahead, d, e, e1, e2, e3, e4, e5, e6, Renewed(e, base, k));
  }

  lemma MiddleBound(k: nat)
    requires k < N
    ensures Middle(k) < N
  {
  }

  lemma Chain(ahead: bool, d: Data, e: Env, e1: Env, e2: Env, e3: Env, e4: Env, e5: Env, e6: Env, f: Env)
    requires BlockTakes(TakeUpper(), d, e, e1) && BlockTakes(JoinLower(), d, e1, e2)
    requires BlockTakes([if ahead then Lit(ADD, R0, Word(1584)) else Lit(SUB, R0, Word(912))], d, e2, e3)
    requires BlockTakes(MixIn(Element()), d, e3, e4) && BlockTakes(MixMag(), d, e4, e5)
    requires BlockTakes([if ahead then Lit(SUB, R0, Word(1588)) else Lit(ADD, R0, Word(908))], d, e5, e6)
    requires BlockTakes(StoreNext(), d, e6, f)
    ensures BlockTakes(Body(ahead), d, e, f)
  {
    hide BlockTakes, Word, Lit, TakeUpper, JoinLower, MixIn, MixMag, StoreNext, Element;
    var s := [if ahead then Lit(ADD, R0, Word(1584)) else Lit(SUB, R0, Word(912))];
    var t := [if ahead then Lit(SUB, R0, Word(1588)) else Lit(ADD, R0, Word(908))];
    TakesBoth(TakeUpper(), JoinLower(), d, e, e1, e2);
    TakesBoth(TakeUpper() + JoinLower(), s, d, e, e2, e3);
    TakesBoth(TakeUpper() + JoinLower() + s, MixIn(Element()), d, e, e3, e4);
    TakesBoth(TakeUpper() + JoinLower() + s + MixIn(Element()), MixMag(), d, e, e4, e5);
    TakesBoth(TakeUpper() + JoinLower() + s + MixIn(Element()) + MixMag(), t, d, e, e5, e6);
    TakesBoth(TakeUpper() + JoinLower() + s + MixIn(Element()) + MixMag() + t, StoreNext(), d, e, e6, f);
  }
}
