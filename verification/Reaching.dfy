/** Runs of unspecified length inside a source program. */
module Reaching {
  import opened Words
  import opened Alu
  import opened Program
  import opened Blocks
  import opened Words32
  import opened Symbolic

  /** Some number of defined steps leads from `s` to `t`. */
  ghost predicate Goes(p: Prog, u: set<LocalKey>, s: State, t: State) {
    exists n: nat :: CanRun(p, u, n, s) && Run(p, u, n, s) == t
  }

  lemma GoesOn(p: Prog, u: set<LocalKey>, s: State, t: State, v: State)
    requires Goes(p, u, s, t) && Goes(p, u, t, v)
    ensures Goes(p, u, s, v)
  {
    hide CanRun, Run;
    var m: nat :| CanRun(p, u, m, s) && Run(p, u, m, s) == t;
    var n: nat :| CanRun(p, u, n, t) && Run(p, u, n, t) == v;
    RunAppend(p, u, m, n, s);
  }

  lemma GoesFar(p: Prog, u: set<LocalKey>, s: State, t: State, v: State, w: State)
    requires Goes(p, u, s, t) && Goes(p, u, t, v) && Goes(p, u, v, w)
    ensures Goes(p, u, s, w)
  {
    hide Goes;
    GoesOn(p, u, s, t, v);
    GoesOn(p, u, s, v, w);
  }

  lemma GoesStep(p: Prog, u: set<LocalKey>, s: State)
    requires Defined(p, u, s)
    ensures Goes(p, u, s, Step(p, u, s))
  {
    hide CanRun, Run, Step, Defined;
    RunOne(p, u, s);
  }

  /** The state `s` moved to another place with other data and flags. */
  function Moved(s: State, pc: nat, d: Data, flags: Comparison): State {
    s.(pc := pc, data := d, flags := flags)
  }

  lemma GoesRun(p: Prog, u: set<LocalKey>, n: nat, s: State)
    requires CanRun(p, u, n, s)
    ensures Goes(p, u, s, Run(p, u, n, s))
  {
  }

  /** An unconditional jump. */
  lemma GoesAlways(p: Prog, u: set<LocalKey>, s: State, name: string)
    requires s.status == Running && s.pc < |p.insns| && |s.data.mem| == MEMORY_SIZE
    requires p.insns[s.pc] == Insn(JMP, LabelRef(name), NoOperand) && name in p.labels && p.labels[name] < |p.insns|
    ensures Goes(p, u, s, s.(pc := p.labels[name]))
  {
    assert Defined(p, u, s) && Step(p, u, s) == s.(pc := p.labels[name]);
    GoesStep(p, u, s);
  }

  /** A block of data instructions runs through. */
  lemma GoesBlock(p: Prog, u: set<LocalKey>, s: State, block: seq<Insn>)
    requires BlockAt(p, s.pc, block) && s.pc + |block| < |p.insns|
    requires s.status == Running && |s.data.mem| == MEMORY_SIZE && AllDoable(block, s.data)
    ensures Goes(p, u, s, Moved(s, s.pc + |block|, DoAll(block, s.data), s.flags))
    ensures |DoAll(block, s.data).mem| == MEMORY_SIZE
  {
    hide CanRun, Run, AllDoable, DoAll;
    BlockRuns(p, u, s, block);
  }

  lemma GoesCompare(p: Prog, u: set<LocalKey>, s: State, o1: Operand, o2: Operand, x: bv32, y: bv32)
    requires s.status == Running && s.pc + 1 < |p.insns| && |s.data.mem| == MEMORY_SIZE
    requires p.insns[s.pc] == Insn(CMP, o1, o2) && Reads(o1, x, s.data) && Reads(o2, y, s.data)
    ensures Goes(p, u, s, Moved(s, s.pc + 1, s.data, Compare(x, y)))
  {
    hide Goes, Compare, Step, Defined, Reads;
    CompareStep(p, u, s, o1, o2, x, y);
    GoesStep(p, u, s);
  }

  lemma GoesNowhere(p: Prog, u: set<LocalKey>, s: State)
    ensures Goes(p, u, s, s)
  {
    assert CanRun(p, u, 0, s) && Run(p, u, 0, s) == s;
  }

  predicate Holding(c: Condition, flags: Comparison) { Meets(c.Mask(), flags.Bits()) }

  lemma GoesJump(p: Prog, u: set<LocalKey>, s: State, name: string, c: Condition)
    requires s.status == Running && s.pc + 1 < |p.insns| && |s.data.mem| == MEMORY_SIZE
    requires p.insns[s.pc] == Insn(JMP, LabelRef(name), Flag(c)) && name in p.labels && p.labels[name] < |p.insns|
    ensures Goes(p, u, s, Moved(s, if Holding(c, s.flags) then p.labels[name] else s.pc + 1, s.data, s.flags))
  {
    hide Goes, Step, Defined, Meets, Condition.Mask, Comparison.Bits;
    JumpStep(p, u, s, name, c);
    GoesStep(p, u, s);
  }

  /** A call whose condition does not hold is passed over. */
  lemma GoesPastCall(p: Prog, u: set<LocalKey>, s: State, name: string, c: Condition)
    requires s.status == Running && s.pc + 1 < |p.insns| && |s.data.mem| == MEMORY_SIZE
    requires p.insns[s.pc] == Insn(CALL, LabelRef(name), Flag(c)) && name in p.labels && p.labels[name] < |p.insns|
    requires !Holding(c, s.flags)
    ensures Goes(p, u, s, Moved(s, s.pc + 1, s.data, s.flags))
  {
    GoesStep(p, u, s);
  }

  /** Which outcomes satisfy the conditions. */
  lemma ConditionHolds(f: Comparison)
    ensures Holding(LT, f) <==> f.Less?
    ensures Holding(GTE, f) <==> f.Greater? || f.Equal?
  {
  }

  // ----- Locals -----

  function KeyHere(s: State, id: bv32): LocalKey { LocalKey(TopFrame(s), id) }

  function Saved(s: State, id: bv32, x: bv32): State {
    PutLocal(KeyHere(s, id), Int, x, s)
  }

  lemma GoesPut(p: Prog, u: set<LocalKey>, s: State, id: bv32, r: bv4)
    requires s.status == Running && s.pc + 1 < |p.insns| && |s.data.mem| == MEMORY_SIZE
    requires p.insns[s.pc] == Insn(PUT, Literal(id, Int), Reg(r, Int)) && KeyHere(s, id) in u
    ensures Goes(p, u, s, Saved(s, id, Get(s.data, r)).(pc := s.pc + 1))
  {
    GoesStep(p, u, s);
  }

  predicate Remembers(s: State, id: bv32, x: bv32) {
    Load(Local(s, KeyHere(s, id)), 0, Int) == x
  }

  lemma GoesGet(p: Prog, u: set<LocalKey>, s: State, id: bv32, r: bv4, x: bv32)
    requires s.status == Running && s.pc + 1 < |p.insns| && |s.data.mem| == MEMORY_SIZE
    requires p.insns[s.pc] == Insn(GET, Reg(r, Int), Literal(id, Int)) && KeyHere(s, id) in u && Remembers(s, id, x)
    ensures Goes(p, u, s, Moved(s, s.pc + 1, Set(s.data, r, x), s.flags))
  {
    GoesStep(p, u, s);
  }

  /** A saved value is remembered, also after a value is saved under another id. */
  lemma SavedRemembered(s: State, id: bv32, x: bv32, other: bv32, y: bv32)
    requires id != other
    ensures Remembers(Saved(s, id, x), id, x) && Remembers(Saved(Saved(s, id, x), other, y), id, x)
  {
    hide Load, Store;
    LoadStore(Local(s, KeyHere(s, id)), 0, Int, x);
  }

  /** An unconditional return. */
  lemma GoesReturn(p: Prog, u: set<LocalKey>, s: State)
    requires s.status == Running && s.pc < |p.insns| && |s.data.mem| == MEMORY_SIZE
    requires p.insns[s.pc] == Insn(RET, NoOperand, NoOperand)
    ensures Goes(p, u, s, Leave(s))
  {
    assert Defined(p, u, s) && Step(p, u, s) == Leave(s);
    GoesStep(p, u, s);
  }

  /** What a frame remembers does not depend on where the program stands or on its data. */
  lemma RemembersHere(s: State, pc: nat, d: Data, fl: Comparison, id: bv32, x: bv32)
    requires Remembers(s, id, x)
    ensures Remembers(Moved(s, pc, d, fl), id, x)
  {
    hide Load;
  }

  /** The state with the loop counter saved. */
  function KeptCounter(s: State): State { Saved(s, 0, Get(s.data, C0.Number())) }

  lemma KeptCounterParts(s: State)
    ensures KeptCounter(s) == s.(locals := KeptCounter(s).locals)
    ensures Remembers(KeptCounter(s), 0, Get(s.data, C0.Number()))
    ensures forall k :: k != KeyHere(s, 0) ==> Local(KeptCounter(s), k) == Local(s, k)
  {
    SavedRemembered(s, 0, Get(s.data, C0.Number()), 1, 0);
    hide Store, Get, Load;
  }

  // ----- Symbolic states inside a program -----

  /** The state at `pc` with the registers and memory of `e`. */
  function In(s: State, pc: nat, d: Data, e: Env, flags: Comparison): State {
    Moved(s, pc, Build(d, e), flags)
  }

  /** A block that takes `e` to `f` leads from one state to the other. */
  lemma GoesTaken(p: Prog, u: set<LocalKey>, s: State, block: seq<Insn>, d: Data, e: Env, f: Env)
    requires BlockAt(p, s.pc, block) && s.pc + |block| < |p.insns|
    requires s.status == Running && |e.mem| == MEMORY_SIZE && s.data == Build(d, e) && BlockTakes(block, d, e, f)
    ensures Goes(p, u, s, Moved(s, s.pc + |block|, Build(d, f), s.flags)) && |f.mem| == MEMORY_SIZE
  {
    assert Build(d, e).mem == e.mem && Build(d, f).mem == f.mem;
    hide AllDoable, DoAll, Build, Goes;
    GoesBlock(p, u, s, block);
  }

  /** The comparison and the jump back at the end of a loop. */
  lemma GoesCounting(p: Prog, u: set<LocalKey>, s: State, n: nat, name: string, d: Data, e: Env, k: nat)
    requires n < WORD_LIMIT && k < WORD_LIMIT
    requires BlockAt(p, s.pc, Counting(n, name)) && s.pc + 2 < |p.insns|
    requires name in p.labels && p.labels[name] < |p.insns|
    requires s.status == Running && |e.mem| == MEMORY_SIZE && s.data == Build(d, e) && e.c0 == Word(k)
    ensures var fl := Compare(Word(k), Word(n));
            Goes(p, u, s, Moved(s, if k < n then p.labels[name] else s.pc + 2, s.data, fl))
  {
    var c := Counting(n, name);
    assert p.insns[s.pc] == c[0] && p.insns[s.pc + 1] == c[1] by {
      assert p.insns[s.pc] == p.insns[s.pc..s.pc + 2][0];
      assert p.insns[s.pc + 1] == p.insns[s.pc..s.pc + 2][1];
    }
    assert Build(d, e).mem == e.mem;
    BuildGet(d, e, C0);
    ReadsRegister(C0.Number(), s.data);
    ReadsLiteral(Word(n), s.data);
    hide Goes, Compare, Build, Reads, Get, Word, Holding;
    var fl := Compare(Word(k), Word(n));
    var t := Moved(s, s.pc + 1, s.data, fl);
    GoesCompare(p, u, s, Reg(C0.Number(), Int), Literal(Word(n), Int), Word(k), Word(n));
    GoesJump(p, u, t, name, LT);
    CompareWords(k, n);
    ConditionHolds(fl);
    GoesOn(p, u, s, t, Moved(s, if k < n then p.labels[name] else s.pc + 2, s.data, fl));
  }

  lemma InsnAt(p: Prog, at: nat, block: seq<Insn>, i: nat)
    requires BlockAt(p, at, block) && i < |block|
    ensures at + i < |p.insns| && p.insns[at + i] == block[i]
  {
    assert p.insns[at..at + |block|][i] == p.insns[at + i];
  }

  lemma GoesInsn(p: Prog, u: set<LocalKey>, s: State, pc: nat, i: Insn, d: Data, e: Env, f: Env, fl: Comparison)
    requires pc + 1 < |p.insns| && p.insns[pc] == i && s.status == Running
    requires |e.mem| == MEMORY_SIZE && Takes(i, d, e, f)
    ensures Goes(p, u, In(s, pc, d, e, fl), In(s, pc + 1, d, f, fl)) && |f.mem| == MEMORY_SIZE
  {
    hide Build, Goes, Takes;
    OneTakes(i, d, e, f);
    assert p.insns[pc..pc + 1] == [i];
    GoesTaken(p, u, In(s, pc, d, e, fl), [i], d, e, f);
  }

  function Counting(n: nat, name: string): seq<Insn>
    requires n < WORD_LIMIT
  {
    [Insn(CMP, Reg(C0.Number(), Int), Literal(Word(n), Int)), Insn(JMP, LabelRef(name), Flag(LT))]
  }

  lemma InitiallyIs(d: Data)
    ensures Initially(d).f1 == Get(d, F1.Number()) && Initially(d).c0 == Get(d, C0.Number())
  {
  }
}
