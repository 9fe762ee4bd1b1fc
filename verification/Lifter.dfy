/** The constraint generator: it picks bytes, shorts or the whole of a 32-bit number, folds them with
    random operations, and emits assembly that must check the same value. */
module Lifter {
  import opened Words
  import opened Alu
  import opened AluCases
  import opened Program
  import opened Blocks

  // ----- What the generator computes -----

  datatype BinOp = ADD | SUB | MUL | AND | OR | XOR | PACKHI | PACKLO

  /** Which part of the number an operand is: byte 0..3, the short at byte 0..2, or all of it. */
  datatype Part = B0 | B1 | B2 | B3 | S0 | S1 | S2 | I0

  /** `select_operand`, without mutation. */
  function Select(x: bv32, part: Part): bv32 {
    match part
    case B0 => x & 0x0000_00FF
    case B1 => (x & 0x0000_FF00) >> 8
    case B2 => (x & 0x00FF_0000) >> 16
    case B3 => (x & 0xFF00_0000) >> 24
    case S0 => x & 0x0000_FFFF
    case S1 => (x & 0x00FF_FF00) >> 8
    case S2 => (x & 0xFFFF_0000) >> 16
    case I0 => x
  }

  /** `calculate`: the integer result masked to 32 bits. */
  function Calculate(x: bv32, y: bv32, o: BinOp): bv32 {
    match o
    case ADD => Wrap(Val(x) + Val(y))
    case SUB => Wrap(Val(x) - Val(y))
    case MUL => Wrap(Val(x) * Val(y))
    case AND => x & y
    case OR => x | y
    case XOR => x ^ y
    case PACKHI => (x & 0xFFFF_0000) | ((y & 0xFFFF_0000) >> 16)
    case PACKLO => (x & 0x0000_FFFF) | ((y & 0x0000_FFFF) << 16)
  }

  /** An operation and its right operand. */
  datatype Term = Term(op: BinOp, part: Part)

  /** The answer of a constraint: the operands folded from the left. */
  function Fold(x: bv32, acc: bv32, terms: seq<Term>): bv32
    decreases |terms|
  {
    if terms == [] then acc
    else Fold(x, Calculate(acc, Select(x, terms[0].part), terms[0].op), terms[1..])
  }

  /** The answer of a whole constraint on the number `x`. */
  function Answer(x: bv32, first: Part, terms: seq<Term>): bv32 {
    Fold(x, Select(x, first), terms)
  }

  // ----- What it emits -----

  const F0: bv4 := 10
  const R1: bv4 := 5
  const R2: bv4 := 6

  /** `asm_load`. */
  function Load(part: Part, src: bv4, dst: bv4): seq<Insn> {
    match part
    case B0 => [RegInsn(Opcode.MOV, dst, Int, src, Byte)]
    case B1 => [RegInsn(Opcode.MOV, dst, Int, src, Short), LitInsn(Opcode.SHR, dst, 8)]
    case B2 => [RegInsn(Opcode.SWAP, dst, Int, src, Int), RegInsn(Opcode.MOV, dst, Int, dst, Byte)]
    case B3 => [RegInsn(Opcode.REV, dst, Int, src, Int), RegInsn(Opcode.MOV, dst, Int, dst, Byte),
        RegInsn(Opcode.REV, dst, Byte, dst, Byte)]
    case S0 => [RegInsn(Opcode.MOV, dst, Int, src, Short)]
    case S1 => [RegInsn(Opcode.MOV, dst, Int, src, Int), LitInsn(Opcode.SHL, dst, 8), LitInsn(Opcode.SHR, dst, 16)]
    case S2 => [RegInsn(Opcode.REV, dst, Int, src, Int), RegInsn(Opcode.MOV, dst, Int, dst, Short),
        RegInsn(Opcode.REV, dst, Short, dst, Short)]
    case I0 => [RegInsn(Opcode.MOV, dst, Int, src, Int)]
  }

  function OpcodeOf(o: BinOp): Opcode {
    match o
    case ADD => Opcode.ADD
    case SUB => Opcode.SUB
    case MUL => Opcode.MUL
    case AND => Opcode.AND
    case OR => Opcode.OR
    case XOR => Opcode.XOR
    case PACKHI => Opcode.PACKHI
    case PACKLO => Opcode.PACKLO
  }

  /** The loads and operations of a constraint. */
  function Terms(terms: seq<Term>): seq<Insn> {
    if terms == [] then []
    else Load(terms[0].part, F0, R2) + [RegInsn(OpcodeOf(terms[0].op), R1, Int, R2, Int)] + Terms(terms[1..])
  }

  /** A constraint without its comparison. */
  function Computation(first: Part, terms: seq<Term>): seq<Insn> {
    Load(first, F0, R1) + Terms(terms)
  }

  /** The comparison with the answer and the return on failure. */
  function Comparison32(ans: bv32): seq<Insn> {
    [Insn(Opcode.CMP, Reg(R1, Int), Literal(ans, Int)), Insn(Opcode.RET, Flag(NEQ), NoOperand)]
  }

  /** `main`'s loop over one constraint, growing the code list. */
  method Emit(first: Part, terms: seq<Term>, ans: bv32) returns (code: seq<Insn>)
    ensures code == Computation(first, terms) + Comparison32(ans)
  {
    hide Load;
    code := Load(first, F0, R1);
    for j := 0 to |terms|
      invariant code + Terms(terms[j..]) == Computation(first, terms)
    {
      code := code + Load(terms[j].part, F0, R2);
      code := code + [RegInsn(OpcodeOf(terms[j].op), R1, Int, R2, Int)];
      assert terms[j..][1..] == terms[j + 1..];
    }
    code := code + Comparison32(ans);
  }

  // ----- Loading a part -----

  /** A move into a full register. */
  lemma FullMove(op: Opcode, dst: bv4, src: bv4, v: Width, d: Data)
    requires op.MOV? || op.SWAP? || op.REV?
    ensures var i := RegInsn(op, dst, Int, src, v);
            Doable(i, d) && Do(i, d) == Set(d, dst, MoveValue(op, Low(Get(d, src), v), v))
  {
    hide Doable, Do, Low, MoveValue, Set, Get, Merged;
    DoMove(op, dst, Int, src, v, d);
    MergedInt(Get(d, dst), MoveValue(op, Low(Get(d, src), v), v));
  }

  /** The emitted loads put exactly the selected part into the target register and change nothing else. */
  lemma LoadSelects(part: Part, src: bv4, dst: bv4, d: Data)
    requires src != dst
    ensures AllDoable(Load(part, src, dst), d)
    ensures DoAll(Load(part, src, dst), d) == Set(d, dst, Select(Get(d, src), part))
  {
    hide Doable, Do, Low, High, MoveValue, Set, Get, Select, Binary, AllDoable, DoAll;
    var x := Get(d, src);
    match part
    case B0 =>
      FullMove(Opcode.MOV, dst, src, Byte, d);
      DoOne(Load(part, src, dst)[0], d);
      SelectedLow(x);
    case B1 => LoadB1(src, dst, d);
    case B2 => LoadB2(src, dst, d);
    case B3 => LoadB3(src, dst, d);
    case S0 =>
      FullMove(Opcode.MOV, dst, src, Short, d);
      DoOne(Load(part, src, dst)[0], d);
      SelectedLow(x);
    case S1 => LoadS1(src, dst, d);
    case S2 => LoadS2(src, dst, d);
    case I0 =>
      FullMove(Opcode.MOV, dst, src, Int, d);
      DoOne(Load(part, src, dst)[0], d);
      SelectedLow(x);
  }

  lemma SelectedLow(x: bv32)
    ensures MoveValue(Opcode.MOV, Low(x, Byte), Byte) == Select(x, B0)
    ensures MoveValue(Opcode.MOV, Low(x, Short), Short) == Select(x, S0)
    ensures MoveValue(Opcode.MOV, Low(x, Int), Int) == Select(x, I0)
  {
  }

  lemma LoadB1(src: bv4, dst: bv4, d: Data)
    requires src != dst
    ensures AllDoable(Load(B1, src, dst), d) && DoAll(Load(B1, src, dst), d) == Set(d, dst, Select(Get(d, src), B1))
  {
    hide Doable, Do, Low, MoveValue, Set, Get, Select, Binary;
    var x := Get(d, src);
    var y := MoveValue(Opcode.MOV, Low(x, Short), Short);
    FullMove(Opcode.MOV, dst, src, Short, d);
    var d1 := Set(d, dst, y);
    GetSet(d, dst, y, dst);
    DoLiteral(Opcode.SHR, dst, 8, d1);
    SetSet(d, dst, y, Binary(Opcode.SHR, y, 8));
    DoTwo(Load(B1, src, dst)[0], Load(B1, src, dst)[1], d);
    SelectedB1(x);
  }

  lemma SelectedB1(x: bv32)
    ensures Binary(Opcode.SHR, MoveValue(Opcode.MOV, Low(x, Short), Short), 8) == Select(x, B1)
  {
  }

  lemma LoadB2(src: bv4, dst: bv4, d: Data)
    requires src != dst
    ensures AllDoable(Load(B2, src, dst), d) && DoAll(Load(B2, src, dst), d) == Set(d, dst, Select(Get(d, src), B2))
  {
    hide Doable, Do, Low, MoveValue, Set, Get, Select;
    var x := Get(d, src);
    var y := MoveValue(Opcode.SWAP, Low(x, Int), Int);
    FullMove(Opcode.SWAP, dst, src, Int, d);
    GetSet(d, dst, y, dst);
    FullMove(Opcode.MOV, dst, dst, Byte, Set(d, dst, y));
    SetSet(d, dst, y, MoveValue(Opcode.MOV, Low(y, Byte), Byte));
    DoTwo(Load(B2, src, dst)[0], Load(B2, src, dst)[1], d);
    SelectedB2(x);
  }

  lemma SelectedB2(x: bv32)
    ensures MoveValue(Opcode.MOV, Low(MoveValue(Opcode.SWAP, Low(x, Int), Int), Byte), Byte) == Select(x, B2)
  {
  }

  /** REV, truncate, REV at the narrow width: the reversal of the upper end, truncated and undone. */
  function DoublyReversed(x: bv32, v: Width): bv32 {
    var y := Low(ReverseBits(x, Int), v);
    Merged(y, v, ReverseBits(Low(y, v), v))
  }

  function ReverseLoad(v: Width, src: bv4, dst: bv4): seq<Insn> {
    [RegInsn(Opcode.REV, dst, Int, src, Int), RegInsn(Opcode.MOV, dst, Int, dst, v),
        RegInsn(Opcode.REV, dst, v, dst, v)]
  }

  lemma LoadReversed(v: Width, src: bv4, dst: bv4, d: Data)
    requires src != dst
    ensures AllDoable(ReverseLoad(v, src, dst), d)
    ensures DoAll(ReverseLoad(v, src, dst), d) == Set(d, dst, DoublyReversed(Get(d, src), v))
  {
    hide Doable, Do, Low, Merged, ReverseBits, Set, Get, MoveValue, AllDoable, DoAll, RegInsn;
    var y := ReverseBits(Get(d, src), Int);
    var z := Low(y, v);
    var e := Set(d, dst, z);
    LoadTruncated(v, src, dst, d);
    GetSet(d, dst, z, dst);
    MovedValues(Low(z, v), v);
    DoMove(Opcode.REV, dst, v, dst, v, e);
    SetSet(d, dst, z, Merged(z, v, ReverseBits(Low(z, v), v)));
    var c := ReverseLoad(v, src, dst);
    DoOne(c[2], e);
    DoAppend([c[0], c[1]], [c[2]], d);
    assert [c[0], c[1]] + [c[2]] == c;
  }

  lemma LoadTruncated(v: Width, src: bv4, dst: bv4, d: Data)
    requires src != dst
    ensures var i, j := RegInsn(Opcode.REV, dst, Int, src, Int), RegInsn(Opcode.MOV, dst, Int, dst, v);
            && AllDoable([i, j], d)
            && DoAll([i, j], d) == Set(d, dst, Low(ReverseBits(Get(d, src), Int), v))
  {
    hide Doable, Do, Low, Merged, ReverseBits, Set, Get, MoveValue, AllDoable, DoAll, RegInsn;
    var x := Get(d, src);
    var y := ReverseBits(x, Int);
    LowInt(x);
    MovedValues(x, Int);
    FullMove(Opcode.REV, dst, src, Int, d);
    GetSet(d, dst, y, dst);
    MovedValues(Low(y, v), v);
    FullMove(Opcode.MOV, dst, dst, v, Set(d, dst, y));
    SetSet(d, dst, y, Low(y, v));
    DoTwo(RegInsn(Opcode.REV, dst, Int, src, Int), RegInsn(Opcode.MOV, dst, Int, dst, v), d);
  }

  lemma MovedValues(x: bv32, v: Width)
    ensures MoveValue(Opcode.MOV, x, v) == x && MoveValue(Opcode.REV, x, v) == ReverseBits(x, v)
  {
  }

  lemma LoadB3(src: bv4, dst: bv4, d: Data)
    requires src != dst
    ensures AllDoable(Load(B3, src, dst), d) && DoAll(Load(B3, src, dst), d) == Set(d, dst, Select(Get(d, src), B3))
  {
    hide DoublyReversed, Select, AllDoable, DoAll;
    LoadReversed(Byte, src, dst, d);
    SelectedB3(Get(d, src));
  }

  lemma LoadS2(src: bv4, dst: bv4, d: Data)
    requires src != dst
    ensures AllDoable(Load(S2, src, dst), d) && DoAll(Load(S2, src, dst), d) == Set(d, dst, Select(Get(d, src), S2))
  {
    hide DoublyReversed, Select, AllDoable, DoAll;
    LoadReversed(Short, src, dst, d);
    SelectedS2(Get(d, src));
  }

  lemma LowInt(x: bv32)
    ensures Low(x, Int) == x
  {
  }

  lemma SelectedB3(x: bv32)
    ensures DoublyReversed(x, Byte) == Select(x, B3)
  {
  }

  lemma SelectedS2(x: bv32)
    ensures DoublyReversed(x, Short) == Select(x, S2)
  {
  }

  lemma LoadS1(src: bv4, dst: bv4, d: Data)
    requires src != dst
    ensures AllDoable(Load(S1, src, dst), d) && DoAll(Load(S1, src, dst), d) == Set(d, dst, Select(Get(d, src), S1))
  {
    hide Doable, Do, Low, MoveValue, Set, Get, Select, Binary;
    var x := Get(d, src);
    var y := MoveValue(Opcode.MOV, Low(x, Int), Int);
    FullMove(Opcode.MOV, dst, src, Int, d);
    GetSet(d, dst, y, dst);
    var z := Binary(Opcode.SHL, y, 8);
    DoLiteral(Opcode.SHL, dst, 8, Set(d, dst, y));
    SetSet(d, dst, y, z);
    GetSet(d, dst, z, dst);
    DoLiteral(Opcode.SHR, dst, 16, Set(d, dst, z));
    SetSet(d, dst, z, Binary(Opcode.SHR, z, 16));
    DoThree(Load(S1, src, dst)[0], Load(S1, src, dst)[1], Load(S1, src, dst)[2], d);
    SelectedS1(x);
  }

  lemma SelectedS1(x: bv32)
    ensures Binary(Opcode.SHR, Binary(Opcode.SHL, MoveValue(Opcode.MOV, Low(x, Int), Int), 8), 16) == Select(x, S1)
  {
  }

  // ----- Folding -----

  /** One emitted operation is one calculation. */
  lemma OperationCalculates(o: BinOp, d: Data)
    ensures var i := RegInsn(OpcodeOf(o), R1, Int, R2, Int);
            Doable(i, d) && Do(i, d) == Set(d, R1, Calculate(Get(d, R1), Get(d, R2), o))
  {
    hide Doable, Do, Set, Get, Calculate;
    if o.PACKHI? || o.PACKLO? {
      DoPack(o, d);
    } else {
      DoBinary(OpcodeOf(o), R1, R2, d);
      CalculateIs(o, Get(d, R1), Get(d, R2));
    }
  }

  lemma CalculateIs(o: BinOp, x: bv32, y: bv32)
    requires !o.PACKHI? && !o.PACKLO?
    ensures Calculate(x, y, o) == Binary(OpcodeOf(o), x, y)
  {
    hide Wrap, Val;
    match o
    case ADD =>
    case SUB =>
    case MUL => MulIs(x, y);
    case AND =>
    case OR =>
    case XOR =>
  }

  lemma DoPack(o: BinOp, d: Data)
    requires o.PACKHI? || o.PACKLO?
    ensures var i := RegInsn(OpcodeOf(o), R1, Int, R2, Int);
            Doable(i, d) && Do(i, d) == Set(d, R1, Calculate(Get(d, R1), Get(d, R2), o))
  {
    hide Calculate, PackHigh, PackLow, Exec, ExecDefined;
    var op, p1, p2 := OpcodeOf(o), InRegister(R1, Int), InRegister(R2, Int);
    PackReady(op, p1, p2, d);
    PackCases(op, p1, p2, d);
    PackValue(o, Get(d, R1), Get(d, R2));
    OrZero(Calculate(Get(d, R1), Get(d, R2), o));
  }

  lemma PackReady(op: Opcode, p1: Place, p2: Place, d: Data)
    requires IsPack(op) && p1.InRegister? && p2.InRegister?
    ensures ExecDefined(op, p1, p2, d, 0) && ExecDefined(op, p1, p2, d, PROGRAM_LO)
    ensures SourceValue(op, p1, p2, d) == Low(Get(d, p2.r), p2.v)
  {
  }

  lemma PackValue(o: BinOp, x: bv32, y: bv32)
    ensures o.PACKHI? ==> PackHigh(x, y, Int) == Calculate(x, y, o)
    ensures o.PACKLO? ==> PackLow(x, y, Int) == Calculate(x, y, o)
  {
    hide Wrap, Val;
  }

  /** The emitted terms fold the operations into R1, whatever their number. */
  lemma {:induction false} TermsFold(terms: seq<Term>, d: Data)
    ensures AllDoable(Terms(terms), d)
    ensures var e := DoAll(Terms(terms), d);
            Get(e, R1) == Fold(Get(d, F0), Get(d, R1), terms) && Get(e, F0) == Get(d, F0) && e.mem == d.mem
    decreases |terms|
  {
    hide Doable, Do, Calculate, Select, Load;
    if terms != [] {
      hide Set, Get;
      var t := terms[0];
      LoadSelects(t.part, F0, R2, d);
      var y := Select(Get(d, F0), t.part);
      var d1 := Set(d, R2, y);
      OperationCalculates(t.op, d1);
      var i := RegInsn(OpcodeOf(t.op), R1, Int, R2, Int);
      DoOne(i, d1);
      DoAppend(Load(t.part, F0, R2), [i], d);
      var x := Calculate(Get(d1, R1), Get(d1, R2), t.op);
      var d2 := Set(d1, R1, x);
      TermsFold(terms[1..], d2);
      DoAppend(Load(t.part, F0, R2) + [i], Terms(terms[1..]), d);
    }
  }

  /** The emitted computation leaves the Python value in R1. */
  lemma ComputationFolds(first: Part, terms: seq<Term>, d: Data)
    ensures AllDoable(Computation(first, terms), d)
    ensures var e := DoAll(Computation(first, terms), d);
            Get(e, R1) == Answer(Get(d, F0), first, terms) && Get(e, F0) == Get(d, F0) && e.mem == d.mem
  {
    hide Doable, Do, Set, Get, Select, Load, Terms, Fold;
    var x := Select(Get(d, F0), first);
    LoadSelects(first, F0, R1, d);
    GetSet(d, R1, x, R1);
    GetSet(d, R1, x, F0);
    SetMem(d, R1, x);
    TermsFold(terms, Set(d, R1, x));
    DoAppend(Load(first, F0, R1), Terms(terms), d);
  }

  lemma SetMem(d: Data, r: bv4, x: bv32)
    ensures Set(d, r, x).mem == d.mem
  {
  }

  // ----- The whole constraint in a program -----

  /** Running an emitted constraint inside any program: the comparison sets EQ exactly when the value
      the generator computes from F0 is the answer, and the constraint is left at its end exactly then;
      otherwise it returns to the caller. */
  lemma ConstraintChecks(p: Prog, u: set<LocalKey>, s: State, first: Part, terms: seq<Term>, ans: bv32)
    requires s.status == Running && |s.data.mem| == MEMORY_SIZE
    requires BlockAt(p, s.pc, Computation(first, terms) + Comparison32(ans))
    requires s.pc + |Computation(first, terms)| + 2 < |p.insns|
    ensures var n, x := |Computation(first, terms)|, Get(s.data, F0);
            && CanRun(p, u, n + 1, s)
            && CanRun(p, u, n + 2, s)
            && Checked(s, Run(p, u, n + 1, s), Run(p, u, n + 2, s), s.pc + n + 2, Answer(x, first, terms) == ans)
  {
    hide Computation, Answer, Defined, Step, CanRun, Run, Get;
    var n := |Computation(first, terms)|;
    var b := AfterComputation(p, u, s, first, terms, ans);
    CompareStep(p, u, b, ans);
    var c := Step(p, u, b);
    RunOne(p, u, b);
    RunAppend(p, u, n, 1, s);
    ReturnStep(p, u, c);
    RunOne(p, u, c);
    RunAppend(p, u, n + 1, 1, s);
  }

  /** The state after the comparison and the state after the conditional return that follows it. */
  predicate Checked(s: State, compared: State, returned: State, end: nat, passed: bool)
    requires end > 0
  {
    && compared == s.(pc := end - 1, data := compared.data, flags := compared.flags)
    && Get(compared.data, F0) == Get(s.data, F0) && compared.data.mem == s.data.mem
    && (compared.flags == Equal <==> passed)
    && returned == if passed then compared.(pc := end) else Leave(compared)
  }

  lemma AfterComputation(p: Prog, u: set<LocalKey>, s: State, first: Part, terms: seq<Term>,
      ans: bv32) returns (b: State)
    requires s.status == Running && |s.data.mem| == MEMORY_SIZE
    requires BlockAt(p, s.pc, Computation(first, terms) + Comparison32(ans))
    requires s.pc + |Computation(first, terms)| + 2 < |p.insns|
    ensures var n := |Computation(first, terms)|;
            && CanRun(p, u, n, s) && b == Run(p, u, n, s)
            && b == s.(pc := s.pc + n, data := b.data) && Get(b.data, F0) == Get(s.data, F0) && b.data.mem == s.data.mem
            && BlockAt(p, b.pc, Comparison32(ans))
            && Get(b.data, R1) == Answer(Get(s.data, F0), first, terms)
  {
    hide Computation, Answer, Defined, Step, CanRun, Run, Get, AllDoable, DoAll;
    BlockSplit(p, s.pc, Computation(first, terms), Comparison32(ans));
    ComputationFolds(first, terms, s.data);
    BlockRuns(p, u, s, Computation(first, terms));
    b := Run(p, u, |Computation(first, terms)|, s);
  }

  lemma CompareStep(p: Prog, u: set<LocalKey>, s: State, ans: bv32)
    requires s.status == Running && |s.data.mem| == MEMORY_SIZE
    requires BlockAt(p, s.pc, Comparison32(ans)) && s.pc + 2 < |p.insns|
    ensures Defined(p, u, s)
    ensures Step(p, u, s) == s.(pc := s.pc + 1, flags := Compare(Get(s.data, R1), ans))
  {
    hide Compare, Val;
    assert p.insns[s.pc] == p.insns[s.pc..s.pc + 2][0];
  }

  lemma ReturnStep(p: Prog, u: set<LocalKey>, s: State)
    requires s.status == Running && |s.data.mem| == MEMORY_SIZE && s.flags != Unset
    requires s.pc + 1 < |p.insns| && p.insns[s.pc] == Comparison32(0)[1]
    ensures Defined(p, u, s)
    ensures Step(p, u, s) == if s.flags == Equal then s.(pc := s.pc + 1) else Leave(s)
  {
  }
}
