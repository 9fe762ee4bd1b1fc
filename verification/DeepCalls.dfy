/** A program whose 129th open call comes back to the wrong place. */
module DeepCalls {
  import opened Words
  import opened Alu
  import opened Program
  import opened Blocks
  import opened Words32
  import opened Symbolic
  import opened Reaching
  import opened Calls
  import opened Layout
  import Machine
  import Relation
  import Theorems
  import Simulation

  const F := "FUN_F"
  const G := "FUN_G"

  /** FUN_F calls itself until 128 calls are open, then calls FUN_G, which returns at once. */
  function Deep(): Prog {
    Prog([Insn(CALL, LabelRef(F), NoOperand),
          Insn(EXIT, NoOperand, NoOperand),
          LitInsn(ADD, R0.Number(), Word(1)),
          Insn(CMP, Reg(R0.Number(), Int), Literal(Word(128), Int)),
          Insn(CALL, LabelRef(F), Flag(LT)),
          Insn(CALL, LabelRef(G), NoOperand),
          Insn(RET, NoOperand, NoOperand),
          Insn(RET, NoOperand, NoOperand)],
         map[F := 2, G := 7])
  }

  /** The return indices of `k` open calls of FUN_F. */
  function Pending(k: nat): seq<nat>
    requires k > 0
  {
    [1] + seq(k - 1, _ => 5)
  }

  /** FUN_F entered with `k` calls open. */
  predicate AtLevel(s: State, k: nat) {
    && 1 <= k <= STACK_CAPACITY
    && s.status == Running
    && s.pc == 2
    && s.stack == s.shadow == Pending(k)
    && |s.data.mem| == MEMORY_SIZE
    && Get(s.data, R0.Number()) == Word(k - 1)
  }

  /** FUN_F about to call FUN_G with all 128 slots taken. */
  predicate AtBottom(s: State) {
    s.status == Running && s.pc == 5 && s.stack == s.shadow == Pending(STACK_CAPACITY) && |s.data.mem| == MEMORY_SIZE
  }

  lemma Names()
    ensures F != G && F in Deep().labels && Deep().labels[F] == 2 && G in Deep().labels && Deep().labels[G] == 7
  {
    hide Word;
    assert F[4] == 'F' && G[4] == 'G';
  }

  /** A conditional call that is made. */
  lemma CallStep(p: Prog, u: set<LocalKey>, s: State, name: string, c: Condition)
    requires s.status == Running && s.pc + 1 < |p.insns| && |s.data.mem| == MEMORY_SIZE
    requires p.insns[s.pc] == Insn(CALL, LabelRef(name), Flag(c)) && name in p.labels && p.labels[name] < |p.insns|
    requires Holding(c, s.flags)
    ensures Defined(p, u, s) && Step(p, u, s) == Enter(p.labels[name], s)
  {
    hide Meets, Condition.Mask, Comparison.Bits, Available, ValueOf, Enter;
    FlagReads(c, s.data);
  }

  /** The counter goes up and is compared. */
  lemma Counts(u: set<LocalKey>, s: State, k: nat) returns (t: State)
    requires AtLevel(s, k)
    ensures Goes(Deep(), u, s, t) && t.status == Running && t.pc == 4 && t.stack == t.shadow == Pending(k)
    ensures |t.data.mem| == MEMORY_SIZE && Get(t.data, R0.Number()) == Word(k)
    ensures t.flags == if k == STACK_CAPACITY then Equal else Less
  {
    hide Word, Get, Set, Goes, Pending, Binary, Compare, Doable, Do, AllDoable, DoAll, Reads;
    var p, d := Deep(), s.data;
    var i := p.insns[2];
    AddIs(k - 1, 1);
    DoLiteral(ADD, R0.Number(), Word(1), d);
    DoOne(i, d);
    assert p.insns[2..3] == [i];
    GoesBlock(p, u, s, [i]);
    var e := Set(d, R0.Number(), Word(k));
    GetSet(d, R0.Number(), Word(k), R0.Number());
    var v := Moved(s, 3, e, s.flags);
    ReadsRegister(R0.Number(), e);
    ReadsLiteral(Word(128), e);
    GoesCompare(p, u, v, Reg(R0.Number(), Int), Literal(Word(128), Int), Word(k), Word(128));
    CompareWords(k, 128);
    t := Moved(v, 4, e, Compare(Word(k), Word(128)));
    GoesOn(p, u, s, v, t);
  }

  lemma {:induction false} Descends(u: set<LocalKey>, s: State, k: nat) returns (t: State)
    requires AtLevel(s, k)
    ensures Goes(Deep(), u, s, t) && AtBottom(t)
    decreases STACK_CAPACITY - k
  {
    hide Word, Get, Goes, Defined, Step;
    var p := Deep();
    Names();
    var v := Counts(u, s, k);
    ConditionHolds(v.flags);
    hide Holding;
    if k == STACK_CAPACITY {
      GoesPastCall(p, u, v, F, LT);
      t := Moved(v, 5, v.data, v.flags);
      GoesOn(p, u, s, v, t);
    } else {
      CallStep(p, u, v, F, LT);
      GoesStep(p, u, v);
      var w := Step(p, u, v);
      assert Pending(k) + [5] == Pending(k + 1);
      t := Descends(u, w, k + 1);
      GoesFar(p, u, s, v, w, t);
    }
  }

  /** From power-on the program comes to call FUN_G with all slots taken. */
  lemma Reaches(u: set<LocalKey>, mem: Memory) returns (t: State)
    requires |mem| == MEMORY_SIZE
    ensures Goes(Deep(), u, Initial(mem), t) && AtBottom(t)
  {
    hide Goes, Get, Word;
    Names();
    var p, s := Deep(), Initial(mem);
    FirstCall(u, mem);
    GoesStep(p, u, s);
    var v := Step(p, u, s);
    t := Descends(u, v, 1);
    GoesOn(p, u, s, v, t);
  }

  lemma FirstCall(u: set<LocalKey>, mem: Memory)
    requires |mem| == MEMORY_SIZE
    ensures Defined(Deep(), u, Initial(mem)) && AtLevel(Step(Deep(), u, Initial(mem)), 1)
  {
    Names();
    hide Word;
    SmallWords();
  }

  /** FUN_G returns at once, and not to its caller's successor. */
  lemma CallsG(u: set<LocalKey>, s: State)
    requires AtBottom(s)
    ensures CallAndReturn(Deep(), u, s, 0) && s.stack[STACK_CAPACITY - 1] == 5
    ensures CanRun(Deep(), u, 2, s) && Run(Deep(), u, 2, s).status == Running && Run(Deep(), u, 2, s).pc == 5
  {
    hide Word;
    Names();
    var v := s.(pc := 7, shadow := s.shadow + [6]);
    assert Defined(Deep(), u, s) && Step(Deep(), u, s) == v;
    assert Defined(Deep(), u, v) && Step(Deep(), u, v).pc == 5;
    RunOne(Deep(), u, v);
    RunOne(Deep(), u, s);
    RunAppend(Deep(), u, 1, 1, s);
  }

  /** On the machine, from power-on and under any shuffle: after some steps FUN_F calls FUN_G, whose RET
      goes back to that very call instead of behind it. */
  lemma WrongReturn(ch: Choice, img: Image, mem: Memory) returns (n: nat)
    requires IsImage(Deep(), ch, img) && Theorems.Fresh(mem)
    ensures |img| == 8 && ValidChoice(ch, 8)
    ensures var code := Flatten(img);
            && Machine.CanRun(code, n, Machine.Boot(mem))
            && Machine.CanRun(code, n + 2, Machine.Boot(mem))
            && var m, e := Machine.Run(code, n, Machine.Boot(mem)), Machine.Run(code, n + 2, Machine.Boot(mem));
               && |m.stack| == STACK_CAPACITY
               && Val(m.vip) == Start(ch, img, 5) && Val(e.vip) == Start(ch, img, 5) != Start(ch, img, 6)
  {
    hide IsImage, CanRun, Run, Machine.CanRun, Machine.Run, Val, Start, Flatten, CallAndReturn;
    var p: Prog, u: set<LocalKey> := Deep(), {};
    DeepSize(ch, img);
    hide Deep;
    var t := Reaches(u, mem);
    n :| CanRun(p, u, n, Initial(mem)) && Run(p, u, n, Initial(mem)) == t;
    CallsG(u, t);
    RunAppend(p, u, n, 2, Initial(mem));
    Theorems.CompilerCorrect(p, ch, img, u, mem, n);
    Theorems.CompilerCorrect(p, ch, img, u, mem, n + 2);
    if Start(ch, img, 5) == Start(ch, img, 6) {
      StartInjective(p, ch, img, 5, 6);
    }
  }

  lemma DeepSize(ch: Choice, img: Image)
    requires IsImage(Deep(), ch, img)
    ensures |img| == 8 && ValidChoice(ch, 8) && Deep().insns != []
  {
    hide Word;
    Simulation.ImageSize(Deep(), ch, img);
  }
}
