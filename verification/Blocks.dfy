/** Straight-line runs of data instructions inside a source program. */
module Blocks {
  import opened Words
  import opened Alu
  import opened AluCases
  import opened Program

  // ----- One data instruction -----

  predicate Doable(i: Insn, d: Data) {
    && !i.o1.LabelRef?
    && !i.o2.LabelRef?
    && ExecDefined(i.op, PlaceOf(i.o1, d.regs), PlaceOf(i.o2, d.regs), d, PROGRAM_LO)
  }

  function Do(i: Insn, d: Data): Data
    requires Doable(i, d)
  {
    Exec(i.op, PlaceOf(i.o1, d.regs), PlaceOf(i.o2, d.regs), d)
  }

  // ----- Blocks -----

  predicate AllDoable(block: seq<Insn>, d: Data) {
    hide Doable, Do;
    block == [] || (Doable(block[0], d) && AllDoable(block[1..], Do(block[0], d)))
  }

  function DoAll(block: seq<Insn>, d: Data): Data
    requires AllDoable(block, d)
  {
    hide Doable, Do;
    if block == [] then d else DoAll(block[1..], Do(block[0], d))
  }

  lemma {:induction false} DoAppend(a: seq<Insn>, b: seq<Insn>, d: Data)
    requires AllDoable(a, d) && AllDoable(b, DoAll(a, d))
    ensures AllDoable(a + b, d) && DoAll(a + b, d) == DoAll(b, DoAll(a, d))
  {
    hide Doable, Do;
    if a == [] {
      assert a + b == b;
    } else {
      DoAppend(a[1..], b, Do(a[0], d));
      assert (a + b)[1..] == a[1..] + b;
    }
  }

  lemma DoOne(i: Insn, d: Data)
    requires Doable(i, d)
    ensures AllDoable([i], d) && DoAll([i], d) == Do(i, d)
  {
    hide Doable, Do;
    assert AllDoable([], Do(i, d)) && DoAll([], Do(i, d)) == Do(i, d);
    assert [i][1..] == [];
  }

  /** A block with one more instruction in front. */
  lemma DoFirst(i: Insn, rest: seq<Insn>, d: Data)
    requires Doable(i, d) && AllDoable(rest, Do(i, d))
    ensures AllDoable([i] + rest, d) && DoAll([i] + rest, d) == DoAll(rest, Do(i, d))
  {
    hide Doable, Do;
    assert ([i] + rest)[1..] == rest;
  }

  lemma DoTwo(i: Insn, j: Insn, d: Data)
    requires Doable(i, d) && Doable(j, Do(i, d))
    ensures AllDoable([i, j], d) && DoAll([i, j], d) == Do(j, Do(i, d))
  {
    hide Doable, Do;
    DoOne(j, Do(i, d));
    DoFirst(i, [j], d);
    assert [i] + [j] == [i, j];
  }

  lemma DoThree(i: Insn, j: Insn, k: Insn, d: Data)
    requires Doable(i, d) && Doable(j, Do(i, d)) && Doable(k, Do(j, Do(i, d)))
    ensures AllDoable([i, j, k], d) && DoAll([i, j, k], d) == Do(k, Do(j, Do(i, d)))
  {
    hide Doable, Do;
    DoTwo(j, k, Do(i, d));
    DoFirst(i, [j, k], d);
    assert [i] + [j, k] == [i, j, k];
  }

  lemma DoFour(i: Insn, j: Insn, k: Insn, l: Insn, d: Data)
    requires Doable(i, d) && Doable(j, Do(i, d)) && Doable(k, Do(j, Do(i, d))) && Doable(l, Do(k, Do(j, Do(i, d))))
    ensures AllDoable([i, j, k, l], d) && DoAll([i, j, k, l], d) == Do(l, Do(k, Do(j, Do(i, d))))
  {
    hide Doable, Do;
    DoThree(j, k, l, Do(i, d));
    DoFirst(i, [j, k, l], d);
    assert [i] + [j, k, l] == [i, j, k, l];
  }

  /** The block stands at `at` in the program. */
  predicate BlockAt(p: Prog, at: nat, block: seq<Insn>) {
    at + |block| <= |p.insns| && p.insns[at..at + |block|] == block
  }

  lemma BlockSplit(p: Prog, at: nat, a: seq<Insn>, b: seq<Insn>)
    requires BlockAt(p, at, a + b)
    ensures BlockAt(p, at, a) && BlockAt(p, at + |a|, b)
  {
    assert p.insns[at..at + |a|] == p.insns[at..at + |a + b|][..|a|];
    assert p.insns[at + |a|..at + |a| + |b|] == p.insns[at..at + |a + b|][|a|..];
  }

  lemma StepBlock(p: Prog, u: set<LocalKey>, s: State)
    requires s.status == Running && s.pc + 1 < |p.insns| && |s.data.mem| == MEMORY_SIZE && Doable(p.insns[s.pc], s.data)
    ensures Defined(p, u, s) && Step(p, u, s) == s.(pc := s.pc + 1, data := Do(p.insns[s.pc], s.data))
    ensures |Do(p.insns[s.pc], s.data).mem| == MEMORY_SIZE
  {
    hide Compute, ComputeDefined, DestValue, SourceValue, PlaceOf, OperandsReady, Val, High;
    DataOnly(p.insns[s.pc], s.data);
  }

  lemma DataOnly(i: Insn, d: Data)
    requires Doable(i, d)
    ensures IsData(i.op)
  {
  }

  /** A block in the middle of a program runs through and does what its instructions do. */
  lemma {:induction false} BlockRuns(p: Prog, u: set<LocalKey>, s: State, block: seq<Insn>)
    requires BlockAt(p, s.pc, block) && s.pc + |block| < |p.insns|
    requires s.status == Running && |s.data.mem| == MEMORY_SIZE && AllDoable(block, s.data)
    ensures CanRun(p, u, |block|, s)
    ensures Run(p, u, |block|, s) == s.(pc := s.pc + |block|, data := DoAll(block, s.data))
    ensures |DoAll(block, s.data).mem| == MEMORY_SIZE
    decreases |block|
  {
    hide Doable, Do, Defined, Step;
    if block != [] {
      assert p.insns[s.pc] == p.insns[s.pc..s.pc + |block|][0];
      StepBlock(p, u, s);
      var t := Step(p, u, s);
      assert p.insns[t.pc..t.pc + |block| - 1] == block[1..];
      BlockRuns(p, u, t, block[1..]);
    }
  }

  // ----- Runs in sequence -----

  lemma {:induction false} RunAppend(p: Prog, u: set<LocalKey>, m: nat, n: nat, s: State)
    requires CanRun(p, u, m, s) && CanRun(p, u, n, Run(p, u, m, s))
    ensures CanRun(p, u, m + n, s) && Run(p, u, m + n, s) == Run(p, u, n, Run(p, u, m, s))
    decreases m
  {
    hide Defined, Step;
    if m > 0 && s.status == Running {
      RunAppend(p, u, m - 1, n, Step(p, u, s));
    } else if s.status != Running {
    }
  }

  lemma RunOne(p: Prog, u: set<LocalKey>, s: State)
    requires Defined(p, u, s)
    ensures CanRun(p, u, 1, s) && Run(p, u, 1, s) == Step(p, u, s)
  {
    hide Step;
    assert s.status == Running;
    assert CanRun(p, u, 0, Step(p, u, s)) && Run(p, u, 0, Step(p, u, s)) == Step(p, u, s);
  }

  // ----- Register instructions -----

  function RegInsn(op: Opcode, r1: bv4, v1: Width, r2: bv4, v2: Width): Insn {
    Insn(op, Reg(r1, v1), Reg(r2, v2))
  }

  function LitInsn(op: Opcode, r: bv4, x: bv32): Insn {
    Insn(op, Reg(r, Int), Literal(x, Int))
  }

  function Get(d: Data, r: bv4): bv32 { d.regs[r as nat] }

  function Set(d: Data, r: bv4, x: bv32): Data { d.(regs := d.regs[r as nat := x]) }

  lemma GetSet(d: Data, r: bv4, x: bv32, q: bv4)
    ensures Get(Set(d, r, x), q) == if q == r then x else Get(d, q)
  {
  }

  lemma SetSet(d: Data, r: bv4, x: bv32, y: bv32)
    ensures Set(Set(d, r, x), r, y) == Set(d, r, y)
  {
  }

  /** The value a move-like instruction writes. */
  function MoveValue(op: Opcode, x: bv32, v2: Width): bv32
    requires op.MOV? || op.SWAP? || op.REV?
  {
    if op.MOV? then x else if op.SWAP? then SwapHalves(x, v2) else ReverseBits(x, v2)
  }

  /** A register after a write of `x` at width `v`. */
  function Merged(old_: bv32, v: Width, x: bv32): bv32 {
    High(old_, v) | x
  }

  lemma MergedInt(old_: bv32, x: bv32)
    ensures Merged(old_, Int, x) == x
  {
  }

  predicate Source(p: Place, d: Data) {
    !p.Nothing? && Readable(p, p.v, PROGRAM_LO, |d.mem|) && Readable(p, p.v, 0, |d.mem|)
  }

  lemma MoveReady(op: Opcode, r1: bv4, v1: Width, p2: Place, d: Data)
    requires (op.MOV? || op.SWAP? || op.REV?) && Source(p2, d)
    ensures ExecDefined(op, InRegister(r1, v1), p2, d, PROGRAM_LO)
  {
    hide Val;
  }

  lemma DefinedAbove(op: Opcode, p1: Place, p2: Place, d: Data)
    requires ExecDefined(op, p1, p2, d, PROGRAM_LO)
    ensures ExecDefined(op, p1, p2, d, 0) && SourceValue(op, p1, p2, d) == Read(p2, p2.v, d.regs, d.mem)
  {
    hide Val;
  }

  lemma MoveDone(op: Opcode, r1: bv4, v1: Width, p2: Place, d: Data)
    requires (op.MOV? || op.SWAP? || op.REV?) && Source(p2, d)
    requires ExecDefined(op, InRegister(r1, v1), p2, d, PROGRAM_LO)
    ensures Exec(op, InRegister(r1, v1), p2, d) ==
            Set(d, r1, Merged(Get(d, r1), v1, MoveValue(op, Read(p2, p2.v, d.regs, d.mem), p2.v)))
  {
    hide Read, Low, High, SwapHalves, ReverseBits, Val, Exec, ExecDefined;
    DefinedAbove(op, InRegister(r1, v1), p2, d);
    MoveCases(op, InRegister(r1, v1), p2, d);
  }

  lemma DoMove(op: Opcode, r1: bv4, v1: Width, r2: bv4, v2: Width, d: Data)
    requires op.MOV? || op.SWAP? || op.REV?
    ensures var i := RegInsn(op, r1, v1, r2, v2);
            Doable(i, d) && Do(i, d) == Set(d, r1, Merged(Get(d, r1), v1, MoveValue(op, Low(Get(d, r2), v2), v2)))
  {
    hide Low, Merged, SwapHalves, ReverseBits, ExecDefined, Exec, MoveValue, Set;
    MoveReady(op, r1, v1, InRegister(r2, v2), d);
    MoveDone(op, r1, v1, InRegister(r2, v2), d);
  }

  lemma BinaryReady(op: Opcode, r1: bv4, p2: Place, d: Data)
    requires IsBinary(op) && Source(p2, d)
    requires BinaryDefined(op, Get(d, r1), Read(p2, p2.v, d.regs, d.mem))
    ensures ExecDefined(op, InRegister(r1, Int), p2, d, PROGRAM_LO)
  {
    hide Val, BinaryDefined, Read;
    ReadFull(r1, d);
  }

  lemma BinaryDone(op: Opcode, r1: bv4, p2: Place, d: Data)
    requires IsBinary(op) && Source(p2, d)
    requires ExecDefined(op, InRegister(r1, Int), p2, d, PROGRAM_LO)
    ensures var s := Read(p2, p2.v, d.regs, d.mem);
            BinaryDefined(op, Get(d, r1), s)
            && Exec(op, InRegister(r1, Int), p2, d) == Set(d, r1, Binary(op, Get(d, r1), s))
  {
    hide Val, Binary, BinaryDefined, Read, Exec, ExecDefined, IsBinary;
    DefinedAbove(op, InRegister(r1, Int), p2, d);
    BinaryCases(op, InRegister(r1, Int), p2, d);
    OrZero(Binary(op, Get(d, r1), Read(p2, p2.v, d.regs, d.mem)));
  }

  lemma ReadFull(r: bv4, d: Data)
    ensures Read(InRegister(r, Int), Int, d.regs, d.mem) == Get(d, r)
  {
  }

  lemma ReadLiteral(x: bv32, d: Data)
    ensures Read(Constant(x, Int), Int, d.regs, d.mem) == x
  {
  }

  /** Arithmetic between full registers. */
  lemma DoBinary(op: Opcode, r1: bv4, r2: bv4, d: Data)
    requires IsBinary(op) && BinaryDefined(op, Get(d, r1), Get(d, r2))
    ensures var i := RegInsn(op, r1, Int, r2, Int);
            Doable(i, d) && Do(i, d) == Set(d, r1, Binary(op, Get(d, r1), Get(d, r2)))
  {
    hide ExecDefined, Exec, Binary, BinaryDefined, Read, IsBinary, Get, Set;
    ReadFull(r2, d);
    BinaryReady(op, r1, InRegister(r2, Int), d);
    BinaryDone(op, r1, InRegister(r2, Int), d);
  }

  /** Arithmetic between a full register and a literal. */
  lemma DoLiteral(op: Opcode, r: bv4, x: bv32, d: Data)
    requires IsBinary(op) && BinaryDefined(op, Get(d, r), x)
    ensures var i := LitInsn(op, r, x);
            Doable(i, d) && Do(i, d) == Set(d, r, Binary(op, Get(d, r), x))
  {
    hide ExecDefined, Exec, Binary, BinaryDefined, Read, IsBinary, Get, Set;
    ReadLiteral(x, d);
    BinaryReady(op, r, Constant(x, Int), d);
    BinaryDone(op, r, Constant(x, Int), d);
  }
}
