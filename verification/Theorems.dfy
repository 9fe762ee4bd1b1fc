/** What compiler correctness means for whole runs from power-on. */
module Theorems {
  import opened Words
  import opened Alu
  import opened Program
  import Machine
  import opened Layout
  import opened Relation
  import opened Simulation

  /** Memory as mapped before the machine starts: zero below the program's own area. */
  predicate Fresh(mem: Memory) {
    |mem| == MEMORY_SIZE && forall a :: 0 <= a < PROGRAM_LO ==> mem[a] == 0
  }

  /** The machine starts at the first source instruction, whatever the shuffle. */
  lemma BootMatches(ch: Choice, img: Image, u: set<LocalKey>, mem: Memory)
    requires ValidChoice(ch, |img|) && img != [] && NoClash(ch, img, u) && Fresh(mem)
    ensures Matches(ch, img, u, Initial(mem), Machine.Boot(mem))
  {
    hide WindowAt;
    var s, m := Initial(mem), Machine.Boot(mem);
    assert Start(ch, img, 0) == 0;
    assert Wrap(0) == 0;
    forall k | k in u
      ensures WindowHolds(mem, WindowAt(ch, img, k), Local(s, k))
    {
    }
  }

  /** What can be observed of a machine state is that of the source state: registers, program memory,
      flags and outcome; the position and every pending return are offsets of source instructions. */
  predicate Observes(ch: Choice, img: Image, s: State, m: Machine.MState) {
    && ValidChoice(ch, |img|)
    && m.data.regs == s.data.regs
    && Agree(m.data.mem, s.data.mem)
    && m.flag == s.flags.Bits()
    && m.status == s.status
    && (s.status.Running? ==> s.pc < |img| && Val(m.vip) == Start(ch, img, s.pc))
    && |m.stack| == |s.stack|
    && (forall i :: 0 <= i < |s.stack| ==> s.stack[i] < |img| && Val(m.stack[i]) == Start(ch, img, s.stack[i]))
  }

  lemma MatchesObserves(p: Prog, ch: Choice, img: Image, u: set<LocalKey>, s: State, m: Machine.MState)
    requires IsImage(p, ch, img) && NoClash(ch, img, u) && Matches(ch, img, u, s, m)
    ensures Observes(ch, img, s, m)
  {
    hide IsImage, NoClash, Address, CellsMatch, LocalsMatch, Val, Agree;
    ImageSize(p, ch, img);
    if s.status.Running? {
      AddressFacts(p, ch, img, s.pc);
    }
    forall i | 0 <= i < |s.stack|
      ensures s.stack[i] < |img| && Val(m.stack[i]) == Start(ch, img, s.stack[i])
    {
      AddressFacts(p, ch, img, s.stack[i]);
    }
  }

  /** The compiled program behaves as the source program, from power-on and for any number of steps. */
  lemma CompilerCorrect(p: Prog, ch: Choice, img: Image, u: set<LocalKey>, mem: Memory, n: nat)
    requires IsImage(p, ch, img) && NoClash(ch, img, u) && p.insns != [] && Fresh(mem)
    requires CanRun(p, u, n, Initial(mem))
    ensures Machine.CanRun(Flatten(img), n, Machine.Boot(mem))
    ensures Observes(ch, img, Run(p, u, n, Initial(mem)), Machine.Run(Flatten(img), n, Machine.Boot(mem)))
  {
    hide IsImage, NoClash, Matches, Observes, CanRun, Run, Machine.CanRun, Machine.Run;
    ImageSize(p, ch, img);
    BootMatches(ch, img, u, mem);
    RunCorrect(p, ch, img, u, n, Initial(mem), Machine.Boot(mem));
    MatchesObserves(p, ch, img, u, Run(p, u, n, Initial(mem)), Machine.Run(Flatten(img), n, Machine.Boot(mem)));
  }

  /** Two compilations of one program under different shuffles and ciphers cannot be told apart by
      registers, flags, program memory, call depth or outcome, provided neither image makes two used
      local variables collide. */
  lemma ShuffleIndependent(p: Prog, ch1: Choice, img1: Image, ch2: Choice, img2: Image, u: set<LocalKey>, mem: Memory,
      n: nat)
    requires IsImage(p, ch1, img1) && IsImage(p, ch2, img2) && NoClash(ch1, img1, u) && NoClash(ch2, img2, u)
    requires p.insns != [] && Fresh(mem) && CanRun(p, u, n, Initial(mem))
    ensures Machine.CanRun(Flatten(img1), n, Machine.Boot(mem)) && Machine.CanRun(Flatten(img2), n, Machine.Boot(mem))
    ensures var a := Machine.Run(Flatten(img1), n, Machine.Boot(mem));
            var b := Machine.Run(Flatten(img2), n, Machine.Boot(mem));
            DataAgree(a.data, b.data) && a.flag == b.flag && a.status == b.status && |a.stack| == |b.stack|
  {
    hide IsImage, NoClash, CanRun, Run, Machine.CanRun, Machine.Run, Start, Val, Comparison.Bits;
    CompilerCorrect(p, ch1, img1, u, mem, n);
    CompilerCorrect(p, ch2, img2, u, mem, n);
  }

  /** The machine under a source run stands where the source program stands: at the start of an
      instruction, or at the halt address, which is the start of no instruction. */
  lemma SourceStaysInCode(p: Prog, ch: Choice, img: Image, u: set<LocalKey>, mem: Memory, n: nat)
    requires IsImage(p, ch, img) && NoClash(ch, img, u) && p.insns != [] && Fresh(mem)
    requires CanRun(p, u, n, Initial(mem))
    ensures Machine.CanRun(Flatten(img), n, Machine.Boot(mem))
    ensures var m := Machine.Run(Flatten(img), n, Machine.Boot(mem));
            && (m.status == Running ==> exists i :: 0 <= i < |img| && Val(m.vip) == Start(ch, img, i))
            && (m.status == Halted ==> Val(m.vip) == 0xFF_FFFF)
            && (forall i :: 0 <= i < |img| ==> Start(ch, img, i) != 0xFF_FFFF)
  {
    hide IsImage, NoClash, CanRun, Run, Machine.CanRun, Machine.Run, Address, ContentsMatch, Val;
    ImageSize(p, ch, img);
    BootMatches(ch, img, u, mem);
    RunCorrect(p, ch, img, u, n, Initial(mem), Machine.Boot(mem));
    ImageSize(p, ch, img);
    ValHalt();
    var s, m := Run(p, u, n, Initial(mem)), Machine.Run(Flatten(img), n, Machine.Boot(mem));
    if s.status == Running {
      AddressFacts(p, ch, img, s.pc);
    }
    forall i | 0 <= i < |img|
      ensures Start(ch, img, i) != 0xFF_FFFF
    {
      StartBounds(p, ch, img, i);
    }
  }

  // ----- Flags -----

  predicate FlagValid(flag: bv32) {
    flag == 0 || flag == 1 || flag == 2 || flag == 4
  }

  lemma PerformKeepsFlag(op: Opcode, p1: Alu.Place, p2: Alu.Place, link: bv32, m: Machine.MState)
    requires Machine.SafeOp(op, p1, p2, m) && FlagValid(m.flag)
    ensures FlagValid(Machine.Perform(op, p1, p2, link, m).flag)
  {
    hide Machine.SetCell, Machine.FirstEmpty, Machine.GuardMet, Machine.BaseKey, Machine.Hash, Machine.Compared;
    hide Exec, Write, Read, Load, Store, Val, ExecDefined, Readable, Writable, FlagValid;
    if op.CMP? {
      ComparedValid(m.flag, Read(p1, p1.v, m.data.regs, m.data.mem), Read(p2, p2.v, m.data.regs, m.data.mem));
    }
  }

  lemma ComparedValid(flag: bv32, x: bv32, y: bv32)
    ensures FlagValid(Machine.Compared(flag, x, y))
  {
  }

  lemma StepKeepsFlag(code: Machine.Code, m: Machine.MState)
    requires Machine.Safe(code, m) && FlagValid(m.flag)
    ensures FlagValid(Machine.Step(code, m).flag)
  {
    hide FlagValid, Machine.Perform, Machine.SafeOp, Machine.Resolve, Machine.Resolvable, Machine.ReadLink;
    hide Machine.Select, Val;
    var d := Machine.DecodeAt(code, Val(m.vip));
    PerformKeepsFlag(
      Machine.Select(d.opcode),
      Machine.Resolve(code, d.op1, m.data.regs),
      Machine.Resolve(code, d.op2, m.data.regs),
      Machine.ReadLink(code, Machine.LinkAt(Val(m.vip), d)),
      m);
  }

  /** On any code whatever, a machine started with clear flags never has the error flag nor two flags
      set at once. */
  lemma {:induction false} FlagInvariant(code: Machine.Code, n: nat, m: Machine.MState)
    requires Machine.CanRun(code, n, m) && FlagValid(m.flag)
    ensures FlagValid(Machine.Run(code, n, m).flag)
    decreases n
  {
    hide FlagValid, Machine.Step, Machine.Safe;
    if n > 0 && m.status == Running {
      StepKeepsFlag(code, m);
      FlagInvariant(code, n - 1, Machine.Step(code, m));
    }
  }

  /** After a comparison, each condition name holds exactly when its unsigned relation does. */
  lemma ConditionMeaning(c: Condition, x: bv32, y: bv32)
    ensures Meets(c.Mask(), Compare(x, y).Bits()) <==>
            match c
            case EQ => Val(x) == Val(y)
            case NEQ => Val(x) != Val(y)
            case LT => Val(x) < Val(y)
            case LTE => Val(x) <= Val(y)
            case GT => Val(x) > Val(y)
            case GTE => Val(x) >= Val(y)
            case ERR => false
  {
    if Val(x) == Val(y) {
      ValInjective(x, y);
    }
    hide Val;
  }
}
