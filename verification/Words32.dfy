/** Words of program memory, and the instructions that move them, seen through integer addresses. */
module Words32 {
  import opened Words
  import opened Alu
  import opened AluCases
  import opened Program
  import opened Blocks

  // ----- Integer facts about words -----

  lemma AddWords(a: nat, b: nat)
    requires a + b < WORD_LIMIT
    ensures Add(Word(a), Word(b)) == Word(a + b)
  {
    hide Val, Word;
    ValWord(a);
    ValWord(b);
  }

  lemma SubWords(a: nat, b: nat)
    requires b <= a < WORD_LIMIT
    ensures Sub(Word(a), Word(b)) == Word(a - b)
  {
    hide Val, Word;
    ValWord(a);
    ValWord(b);
  }

  lemma FourTimes(a: nat)
    requires 4 * a < WORD_LIMIT
    ensures Mul(Word(a), Word(4)) == Word(4 * a)
  {
    hide Val, Word, Mul;
    MulIs(Word(a), Word(4));
    ValWord(a);
    ValWord(4);
  }

  lemma CompareWords(a: nat, b: nat)
    requires a < WORD_LIMIT && b < WORD_LIMIT
    ensures Compare(Word(a), Word(b)) == if a == b then Equal else if a > b then Greater else Less
  {
    hide Val, Word;
    ValWord(a);
    ValWord(b);
  }

  // ----- The same for instructions -----

  lemma AddIs(a: nat, b: nat)
    requires a + b < WORD_LIMIT
    ensures Binary(ADD, Word(a), Word(b)) == Word(a + b)
  {
    hide Word, Add;
    AddWords(a, b);
  }

  lemma SubIs(a: nat, b: nat)
    requires b <= a < WORD_LIMIT
    ensures Binary(SUB, Word(a), Word(b)) == Word(a - b)
  {
    hide Word, Sub;
    SubWords(a, b);
  }

  lemma MulFour(k: nat)
    requires 4 * k < WORD_LIMIT
    ensures Binary(MUL, Word(k), Word(4)) == Word(4 * k)
  {
    hide Word, Mul;
    FourTimes(k);
  }

  // ----- Words of memory -----

  function WordAt(mem: Memory, a: nat): bv32
    requires a + 4 <= |mem|
  {
    Load(mem, a, Int)
  }

  function SetWord(mem: Memory, a: nat, x: bv32): (m: Memory)
    requires a + 4 <= |mem|
    ensures |m| == |mem|
  {
    Store(mem, a, Int, x)
  }

  /** A stored word is read back; words that do not overlap it are unchanged. */
  lemma WordAfterSet(mem: Memory, a: nat, x: bv32, b: nat)
    requires a + 4 <= |mem| && b + 4 <= |mem|
    ensures b == a ==> WordAt(SetWord(mem, a, x), b) == x
    ensures b + 4 <= a || a + 4 <= b ==> WordAt(SetWord(mem, a, x), b) == WordAt(mem, b)
  {
    hide Cat, B0, B1, B2, B3;
    if a == b {
      LoadStore(mem, a, Int, x);
    } else {
      assert b + 4 <= a || a + 4 <= b ==> forall i :: b <= i < b + 4 ==> SetWord(mem, a, x)[i] == mem[i];
    }
  }

  predicate InProgram(a: nat, size: nat) {
    PROGRAM_LO <= a && a + 4 <= size
  }

  // ----- Memory instructions -----

  /** The operand is the word of memory at address `a`. */
  predicate AddressIs(o: Operand, a: nat, d: Data) {
    && (o.Absolute? || o.Based? || o.Indexed?)
    && a < WORD_LIMIT
    && InProgram(a, |d.mem|)
    && PlaceOf(o, d.regs) == InMemory(Word(a), Int)
  }

  lemma BasedAddress(b: bv4, base: nat, disp: nat, d: Data)
    requires base + disp < WORD_LIMIT && Get(d, b) == Word(base) && InProgram(base + disp, |d.mem|)
    ensures AddressIs(Based(b, Int, Word(disp), Int), base + disp, d)
  {
    hide Word;
    AddWords(base, disp);
  }

  lemma IndexedAddress(b: bv4, base: nat, i: bv4, index: nat, d: Data)
    requires base + index < WORD_LIMIT && Get(d, b) == Word(base) && Get(d, i) == Word(index)
    requires InProgram(base + index, |d.mem|)
    ensures AddressIs(Indexed(b, Int, i, Int, Int), base + index, d)
  {
    hide Word;
    AddWords(base, index);
  }

  lemma AddressReads(o: Operand, a: nat, d: Data)
    requires AddressIs(o, a, d)
    ensures var p := PlaceOf(o, d.regs);
            && Source(p, d)
            && Writable(p, PROGRAM_LO, |d.mem|)
            && Read(p, Int, d.regs, d.mem) == WordAt(d.mem, a)
            && (forall x :: Write(p, x, d) == d.(mem := SetWord(d.mem, a, x)))
  {
    hide PlaceOf, Word, Load, Store, Val;
    ValWord(a);
  }

  /** MOV register, memory. */
  lemma DoLoad(r: bv4, o: Operand, a: nat, d: Data)
    requires AddressIs(o, a, d)
    ensures var i := Insn(MOV, Reg(r, Int), o); Doable(i, d) && Do(i, d) == Set(d, r, WordAt(d.mem, a))
  {
    var p := PlaceOf(o, d.regs);
    RegPlace(r, d);
    hide PlaceOf, Word, ExecDefined, Exec, Read, Source, WordAt, Set, Merged;
    AddressReads(o, a, d);
    MoveReady(MOV, r, Int, p, d);
    MoveDone(MOV, r, Int, p, d);
    MergedInt(Get(d, r), WordAt(d.mem, a));
  }

  lemma RegPlace(r: bv4, d: Data)
    ensures PlaceOf(Reg(r, Int), d.regs) == InRegister(r, Int)
  {
  }

  lemma StoreReady(p1: Place, p2: Place, d: Data)
    requires p1.InMemory? && Writable(p1, PROGRAM_LO, |d.mem|) && Source(p2, d)
    ensures ExecDefined(MOV, p1, p2, d, PROGRAM_LO)
  {
    hide Val;
  }

  lemma StoreDone(p1: Place, p2: Place, d: Data)
    requires p1.InMemory? && ExecDefined(MOV, p1, p2, d, PROGRAM_LO)
    ensures Exec(MOV, p1, p2, d) == Write(p1, Read(p2, p2.v, d.regs, d.mem), d)
  {
    hide Val, Exec, ExecDefined, Write, Read;
    DefinedAbove(MOV, p1, p2, d);
    MoveCases(MOV, p1, p2, d);
  }

  /** MOV memory, register. */
  lemma DoStore(o: Operand, a: nat, r: bv4, d: Data)
    requires AddressIs(o, a, d)
    ensures var i := Insn(MOV, o, Reg(r, Int)); Doable(i, d) && Do(i, d) == d.(mem := SetWord(d.mem, a, Get(d, r)))
  {
    var p := PlaceOf(o, d.regs);
    RegPlace(r, d);
    hide PlaceOf, Word, ExecDefined, Exec, Read, WordAt, SetWord, Write;
    AddressReads(o, a, d);
    ReadFull(r, d);
    StoreReady(p, InRegister(r, Int), d);
    StoreDone(p, InRegister(r, Int), d);
  }

  /** MOV memory, literal. */
  lemma DoStoreLiteral(o: Operand, a: nat, x: bv32, d: Data)
    requires AddressIs(o, a, d)
    ensures var i := Insn(MOV, o, Literal(x, Int)); Doable(i, d) && Do(i, d) == d.(mem := SetWord(d.mem, a, x))
  {
    var p := PlaceOf(o, d.regs);
    assert PlaceOf(Literal(x, Int), d.regs) == Constant(x, Int);
    hide PlaceOf, Word, ExecDefined, Exec, Read, WordAt, SetWord, Write;
    AddressReads(o, a, d);
    ReadLiteral(x, d);
    StoreReady(p, Constant(x, Int), d);
    StoreDone(p, Constant(x, Int), d);
  }

  lemma IncrementDone(p1: Place, p2: Place, d: Data)
    requires p1.InMemory? && ExecDefined(ADD, p1, p2, d, PROGRAM_LO) && Source(p1, d) && p1.v.Int?
    ensures Exec(ADD, p1, p2, d) ==
            Write(p1, Add(Read(p2, p2.v, d.regs, d.mem), Read(p1, Int, d.regs, d.mem)), d)
  {
    hide Val, Exec, ExecDefined, Write, Add, Load;
    DefinedAbove(ADD, p1, p2, d);
    BinaryCases(ADD, p1, p2, d);
  }

  /** ADD memory, literal. */
  lemma DoIncrement(o: Operand, a: nat, x: bv32, d: Data)
    requires AddressIs(o, a, d)
    ensures var i := Insn(ADD, o, Literal(x, Int));
            Doable(i, d) && Do(i, d) == d.(mem := SetWord(d.mem, a, Add(x, WordAt(d.mem, a))))
  {
    var p := PlaceOf(o, d.regs);
    assert PlaceOf(Literal(x, Int), d.regs) == Constant(x, Int);
    MemoryWidth(o, a, d);
    hide PlaceOf, Word, ExecDefined, Exec, Read, WordAt, SetWord, Write, Add;
    AddressReads(o, a, d);
    ReadLiteral(x, d);
    IncrementDone(p, Constant(x, Int), d);
  }

  lemma MemoryWidth(o: Operand, a: nat, d: Data)
    requires AddressIs(o, a, d)
    ensures PlaceOf(o, d.regs).InMemory? && PlaceOf(o, d.regs).v == Int
  {
    hide Word;
  }

  /** MOV register, literal. */
  lemma DoLoadLiteral(r: bv4, x: bv32, d: Data)
    ensures var i := LitInsn(MOV, r, x); Doable(i, d) && Do(i, d) == Set(d, r, x)
  {
    var p := Constant(x, Int);
    assert PlaceOf(Literal(x, Int), d.regs) == p;
    RegPlace(r, d);
    hide PlaceOf, ExecDefined, Exec, Read, Set, Merged;
    ReadLiteral(x, d);
    MoveReady(MOV, r, Int, p, d);
    MoveDone(MOV, r, Int, p, d);
    MergedInt(Get(d, r), x);
  }

  /** MOV register, register. */
  lemma DoCopy(r: bv4, q: bv4, d: Data)
    ensures var i := RegInsn(MOV, r, Int, q, Int); Doable(i, d) && Do(i, d) == Set(d, r, Get(d, q))
  {
    hide Doable, Do, Set, Get, Merged;
    DoMove(MOV, r, Int, q, Int, d);
    MergedInt(Get(d, r), Get(d, q));
  }

  // ----- Comparisons -----

  /** The operand reads as `x`. */
  predicate Reads(o: Operand, x: bv32, d: Data) {
    Available(o, d) && ValueOf(o, d) == x
  }

  lemma ReadsRegister(r: bv4, d: Data)
    ensures Reads(Reg(r, Int), Get(d, r), d)
  {
  }

  lemma ReadsLiteral(x: bv32, d: Data)
    ensures Reads(Literal(x, Int), x, d)
  {
  }

  lemma ReadsMemory(o: Operand, a: nat, d: Data)
    requires AddressIs(o, a, d)
    ensures Reads(o, WordAt(d.mem, a), d)
  {
    MemoryWidth(o, a, d);
    hide PlaceOf, Word, Read, WordAt;
    AddressReads(o, a, d);
  }

  lemma CompareStep(p: Prog, u: set<LocalKey>, s: State, o1: Operand, o2: Operand, x: bv32, y: bv32)
    requires s.status == Running && s.pc + 1 < |p.insns| && |s.data.mem| == MEMORY_SIZE
    requires p.insns[s.pc] == Insn(CMP, o1, o2) && Reads(o1, x, s.data) && Reads(o2, y, s.data)
    ensures Defined(p, u, s) && Step(p, u, s) == s.(pc := s.pc + 1, flags := Compare(x, y))
  {
    hide Compare, Available, ValueOf;
  }

  /** A conditional jump. */
  lemma JumpStep(p: Prog, u: set<LocalKey>, s: State, name: string, c: Condition)
    requires s.status == Running && s.pc + 1 < |p.insns| && |s.data.mem| == MEMORY_SIZE
    requires p.insns[s.pc] == Insn(JMP, LabelRef(name), Flag(c)) && name in p.labels && p.labels[name] < |p.insns|
    ensures Defined(p, u, s)
    ensures Step(p, u, s) == s.(pc := if Meets(c.Mask(), s.flags.Bits()) then p.labels[name] else s.pc + 1)
  {
    hide Meets, Condition.Mask, Comparison.Bits, Available, ValueOf;
    FlagReads(c, s.data);
  }

  lemma FlagReads(c: Condition, d: Data)
    ensures Reads(Flag(c), c.Mask(), d)
  {
  }
}
