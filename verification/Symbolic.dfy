/** Straight-line code on symbolic register values: what each instruction and each block does to the
    registers a function works with, and to memory. */
module Symbolic {
  import opened Words
  import opened Alu
  import opened Program
  import opened Blocks
  import opened Words32
  import opened Twister

  /** The registers the functions write or index with. */
  datatype Working = R0 | R1 | R2 | R3 | R4 | F1 | C0 {
    function Number(): bv4 {
      match this
      case R0 => 4
      case R1 => 5
      case R2 => 6
      case R3 => 7
      case R4 => 8
      case F1 => 11
      case C0 => 14
    }

    function Name(): string {
      match this
      case R0 => "R0"
      case R1 => "R1"
      case R2 => "R2"
      case R3 => "R3"
      case R4 => "R4"
      case F1 => "F1"
      case C0 => "C0"
    }
  }

  const F0: bv4 := 10

  /** The registers in the order of their numbers. */
  const REGISTERS: seq<string> := [
    "P0", "P1", "P2", "P3", "R0", "R1", "R2", "R3", "R4", "R5", "F0", "F1", "F2", "F3", "C0", "C1"]

  lemma RegisterNumbers(r: Working)
    ensures |REGISTERS| == 16 && REGISTERS[r.Number() as nat] == r.Name() && REGISTERS[F0 as nat] == "F0"
  {
  }

  function Lit(op: Opcode, r: Working, x: bv32): Insn { LitInsn(op, r.Number(), x) }

  function RR(op: Opcode, r: Working, q: Working): Insn { RegInsn(op, r.Number(), Int, q.Number(), Int) }

  function LoadInsn(r: Working, o: Operand): Insn { Insn(MOV, Reg(r.Number(), Int), o) }

  function StoreInsn(o: Operand, r: Working): Insn { Insn(MOV, o, Reg(r.Number(), Int)) }

  /** [F0+n] */
  function Field(n: nat): Operand
    requires n < WORD_LIMIT
  {
    Based(F0, Int, Word(n), Int)
  }

  // ----- Symbolic states -----

  /** The registers the program works with, and memory. */
  datatype Env = Env(r0: bv32, r1: bv32, r2: bv32, r3: bv32, r4: bv32, f1: bv32, c0: bv32, mem: Memory)

  /** The state with the working registers of `e` and all other registers of `d`. */
  function Build(d: Data, e: Env): Data {
    Data(d.regs[4 := e.r0][5 := e.r1][6 := e.r2][7 := e.r3][8 := e.r4][11 := e.f1][14 := e.c0], e.mem)
  }

  function At(e: Env, r: Working): bv32 {
    match r
    case R0 => e.r0
    case R1 => e.r1
    case R2 => e.r2
    case R3 => e.r3
    case R4 => e.r4
    case F1 => e.f1
    case C0 => e.c0
  }

  function With(e: Env, r: Working, x: bv32): Env {
    match r
    case R0 => e.(r0 := x)
    case R1 => e.(r1 := x)
    case R2 => e.(r2 := x)
    case R3 => e.(r3 := x)
    case R4 => e.(r4 := x)
    case F1 => e.(f1 := x)
    case C0 => e.(c0 := x)
  }

  lemma BuildGet(d: Data, e: Env, r: Working)
    ensures Get(Build(d, e), r.Number()) == At(e, r)
  {
  }

  lemma BuildBase(d: Data, e: Env)
    ensures Get(Build(d, e), F0) == Get(d, F0) && Build(d, e).mem == e.mem
  {
  }

  lemma BuildSet(d: Data, e: Env, r: Working, x: bv32)
    ensures Set(Build(d, e), r.Number(), x) == Build(d, With(e, r, x))
  {
    hide Set, Working.Number;
    NumberIs(r);
    SetAt(Build(d, e), r.Number(), RegisterIndex(r), x);
    var regs, with_ := Build(d, e).regs, Build(d, With(e, r, x)).regs;
    forall i | 0 <= i < 16 ensures regs[RegisterIndex(r) := x][i] == with_[i] {
      if i == RegisterIndex(r) {
        assert with_[i] == x;
      }
    }
    assert regs[RegisterIndex(r) := x] == with_;
  }

  /** The index of a register in the register file. */
  function RegisterIndex(r: Working): (n: nat)
    ensures n < 16
  {
    match r
    case R0 => 4
    case R1 => 5
    case R2 => 6
    case R3 => 7
    case R4 => 8
    case F1 => 11
    case C0 => 14
  }

  lemma SetAt(d: Data, r: bv4, i: nat, x: bv32)
    requires r as nat == i && i < 16
    ensures Set(d, r, x) == d.(regs := d.regs[i := x])
  {
  }

  lemma NumberIs(r: Working)
    ensures r.Number() as nat == RegisterIndex(r)
  {
  }

  /** Every state is built from itself. */
  function Initially(d: Data): Env {
    Env(d.regs[4], d.regs[5], d.regs[6], d.regs[7], d.regs[8], d.regs[11], d.regs[14], d.mem)
  }

  lemma BuildInitially(d: Data)
    ensures Build(d, Initially(d)) == d
  {
    assert Build(d, Initially(d)).regs == d.regs;
  }

  // ----- Single instructions on symbolic states -----

  /** The instruction takes `e` to `f`. */
  predicate Takes(i: Insn, d: Data, e: Env, f: Env) {
    Doable(i, Build(d, e)) && Do(i, Build(d, e)) == Build(d, f)
  }

  lemma TakesCopy(d: Data, e: Env, r: Working, q: Working)
    ensures Takes(RR(MOV, r, q), d, e, With(e, r, At(e, q)))
  {
    hide Doable, Do, Build, With, At, Get, Set;
    DoCopy(r.Number(), q.Number(), Build(d, e));
    BuildGet(d, e, q);
    BuildSet(d, e, r, At(e, q));
  }

  lemma TakesLiteral(d: Data, e: Env, r: Working, x: bv32)
    ensures Takes(Lit(MOV, r, x), d, e, With(e, r, x))
  {
    hide Doable, Do, Build, With, At, Get, Set;
    DoLoadLiteral(r.Number(), x, Build(d, e));
    BuildSet(d, e, r, x);
  }

  /** Operations without undefined cases. */
  predicate Total(op: Opcode) {
    op.ADD? || op.SUB? || op.MUL? || op.AND? || op.OR? || op.XOR?
  }

  lemma TotalDefined(op: Opcode, x: bv32, y: bv32)
    requires Total(op)
    ensures IsBinary(op) && BinaryDefined(op, x, y)
  {
  }

  lemma TakesBinary(d: Data, e: Env, op: Opcode, r: Working, q: Working)
    requires Total(op)
    ensures Takes(RR(op, r, q), d, e, With(e, r, Binary(op, At(e, r), At(e, q))))
  {
    hide Doable, Do, Build, With, At, Get, Set, Binary, BinaryDefined, IsBinary;
    TotalDefined(op, At(e, r), At(e, q));
    BuildGet(d, e, r);
    BuildGet(d, e, q);
    DoBinary(op, r.Number(), q.Number(), Build(d, e));
    BuildSet(d, e, r, Binary(op, At(e, r), At(e, q)));
  }

  lemma TakesBinaryLiteral(d: Data, e: Env, op: Opcode, r: Working, x: bv32)
    requires IsBinary(op) && BinaryDefined(op, At(e, r), x)
    ensures Takes(Lit(op, r, x), d, e, With(e, r, Binary(op, At(e, r), x)))
  {
    hide Doable, Do, Build, With, At, Get, Set, Binary, BinaryDefined;
    BuildGet(d, e, r);
    DoLiteral(op, r.Number(), x, Build(d, e));
    BuildSet(d, e, r, Binary(op, At(e, r), x));
  }

  lemma TakesXor(d: Data, e: Env, r: Working, q: Working)
    ensures Takes(RR(XOR, r, q), d, e, With(e, r, Xor(At(e, r), At(e, q))))
  {
    hide Takes, With, At;
    TakesBinary(d, e, XOR, r, q);
    assert Binary(XOR, At(e, r), At(e, q)) == Xor(At(e, r), At(e, q));
  }

  lemma TakesHalf(d: Data, e: Env, r: Working)
    ensures Takes(Lit(SHR, r, 1), d, e, With(e, r, Half(At(e, r))))
  {
    hide Takes, With, At;
    TakesBinaryLiteral(d, e, SHR, r, 1);
    assert Binary(SHR, At(e, r), 1) == Half(At(e, r));
  }

  lemma TakesLoad(d: Data, e: Env, r: Working, o: Operand, a: nat)
    requires AddressIs(o, a, Build(d, e))
    ensures a + 4 <= |e.mem| && Takes(LoadInsn(r, o), d, e, With(e, r, WordAt(e.mem, a)))
  {
    assert Build(d, e).mem == e.mem;
    hide Doable, Do, Build, With, At, Get, Set, WordAt, PlaceOf, Word;
    DoLoad(r.Number(), o, a, Build(d, e));
    BuildSet(d, e, r, WordAt(e.mem, a));
  }

  lemma TakesStore(d: Data, e: Env, o: Operand, a: nat, r: Working)
    requires AddressIs(o, a, Build(d, e))
    ensures a + 4 <= |e.mem| && Takes(StoreInsn(o, r), d, e, e.(mem := SetWord(e.mem, a, At(e, r))))
  {
    assert Build(d, e).mem == e.mem;
    BuildMemory(d, e, SetWord(e.mem, a, At(e, r)));
    hide Doable, Do, Build, At, Get, Set, SetWord, PlaceOf, Word;
    DoStore(o, a, r.Number(), Build(d, e));
    BuildGet(d, e, r);
  }

  lemma BuildMemory(d: Data, e: Env, m: Memory)
    ensures Build(d, e).(mem := m) == Build(d, e.(mem := m))
  {
  }

  lemma TakesStoreLiteral(d: Data, e: Env, o: Operand, a: nat, x: bv32)
    requires AddressIs(o, a, Build(d, e))
    ensures a + 4 <= |e.mem| && Takes(Insn(MOV, o, Literal(x, Int)), d, e, e.(mem := SetWord(e.mem, a, x)))
  {
    assert Build(d, e).mem == e.mem;
    BuildMemory(d, e, SetWord(e.mem, a, x));
    hide Doable, Do, Build, At, Get, Set, SetWord, PlaceOf, Word;
    DoStoreLiteral(o, a, x, Build(d, e));
  }

  lemma TakesIncrement(d: Data, e: Env, o: Operand, a: nat, x: bv32)
    requires AddressIs(o, a, Build(d, e))
    ensures a + 4 <= |e.mem|
    ensures Takes(Insn(ADD, o, Literal(x, Int)), d, e, e.(mem := SetWord(e.mem, a, Add(x, WordAt(e.mem, a)))))
  {
    assert Build(d, e).mem == e.mem;
    BuildMemory(d, e, SetWord(e.mem, a, Add(x, WordAt(e.mem, a))));
    hide Doable, Do, Build, At, Get, Set, SetWord, WordAt, Add, PlaceOf, Word;
    DoIncrement(o, a, x, Build(d, e));
  }

  /** R0 gets the pointer. */
  lemma TakesPointer(d: Data, e: Env, base: nat)
    requires base < WORD_LIMIT && Get(d, F0) == Word(base)
    ensures Takes(RegInsn(MOV, R0.Number(), Int, F0, Int), d, e, e.(r0 := Word(base)))
  {
    hide Doable, Do, Build, Get, Set, Word;
    BuildBase(d, e);
    DoCopy(R0.Number(), F0, Build(d, e));
    BuildSet(d, e, R0, Word(base));
  }

  /** A block takes `e` to `f`. */
  predicate BlockTakes(b: seq<Insn>, d: Data, e: Env, f: Env) {
    AllDoable(b, Build(d, e)) && DoAll(b, Build(d, e)) == Build(d, f)
  }

  lemma TakesNothing(d: Data, e: Env)
    ensures BlockTakes([], d, e, e)
  {
  }

  /** Blocks grow one instruction at a time. */
  lemma TakesFirst(i: Insn, rest: seq<Insn>, d: Data, e: Env, f: Env, g: Env)
    requires Takes(i, d, e, f) && BlockTakes(rest, d, f, g)
    ensures BlockTakes([i] + rest, d, e, g)
  {
    hide Doable, Do, Build;
    DoFirst(i, rest, Build(d, e));
  }

  lemma TakesTwo(i: Insn, j: Insn, d: Data, e: Env, f: Env, g: Env)
    requires Takes(i, d, e, f) && Takes(j, d, f, g)
    ensures BlockTakes([i, j], d, e, g)
  {
    hide Doable, Do, Build;
    DoTwo(i, j, Build(d, e));
  }

  lemma TakesThree(i: Insn, j: Insn, k: Insn, d: Data, e: Env, f: Env, g: Env, h: Env)
    requires Takes(i, d, e, f) && Takes(j, d, f, g) && Takes(k, d, g, h)
    ensures BlockTakes([i, j, k], d, e, h)
  {
    hide Doable, Do, Build;
    DoThree(i, j, k, Build(d, e));
  }

  lemma TakesFour(i: Insn, j: Insn, k: Insn, l: Insn, d: Data, e: Env, f: Env, g: Env, h: Env, m: Env)
    requires Takes(i, d, e, f) && Takes(j, d, f, g) && Takes(k, d, g, h) && Takes(l, d, h, m)
    ensures BlockTakes([i, j, k, l], d, e, m)
  {
    hide Doable, Do, Build;
    DoFour(i, j, k, l, Build(d, e));
  }

  lemma TakesBoth(a: seq<Insn>, b: seq<Insn>, d: Data, e: Env, f: Env, g: Env)
    requires BlockTakes(a, d, e, f) && BlockTakes(b, d, f, g)
    ensures BlockTakes(a + b, d, e, g)
  {
    hide AllDoable, DoAll, Build;
    DoAppend(a, b, Build(d, e));
  }

  lemma OneTakes(i: Insn, d: Data, e: Env, f: Env)
    requires Takes(i, d, e, f)
    ensures BlockTakes([i], d, e, f)
  {
    hide Doable, Do, Build;
    DoOne(i, Build(d, e));
  }
}
