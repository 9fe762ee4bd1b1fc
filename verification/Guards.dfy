/** What conditions on jumps, calls and returns mean in a machine run. */
module Guards {
  import opened Words
  import opened Alu
  import opened Program
  import opened Machine
  import Theorems
  import Decoding
  import opened Layout
  import opened Relation
  import opened Simulation
  import opened Control

  /** The operation and the operands of the instruction at the current address. */
  function OpNow(code: Code, m: MState): Opcode
    requires Safe(code, m)
  {
    Select(DecodeAt(code, Val(m.vip)).opcode)
  }

  function FirstNow(code: Code, m: MState): Place
    requires Safe(code, m)
  {
    Resolve(code, DecodeAt(code, Val(m.vip)).op1, m.data.regs)
  }

  function SecondNow(code: Code, m: MState): Place
    requires Safe(code, m)
  {
    Resolve(code, DecodeAt(code, Val(m.vip)).op2, m.data.regs)
  }

  lemma PerformsNow(code: Code, m: MState)
    requires Safe(code, m)
    ensures SafeOp(OpNow(code, m), FirstNow(code, m), SecondNow(code, m), m)
    ensures Machine.Step(code, m) == Perform(OpNow(code, m), FirstNow(code, m), SecondNow(code, m), LinkNow(code, m), m)
  {
    hide SafeOp, Perform, Select, Resolve, Resolvable, Val;
  }

  function ReadNow(p: Place, m: MState): bv32
    requires ReadableNow(p, m.data)
  {
    Read(p, p.v, m.data.regs, m.data.mem)
  }

  /** The current instruction compares `x` with `y`. */
  predicate ComparesNow(code: Code, m: MState, x: bv32, y: bv32) {
    hide Safe, Val, Read, Readable;
    && Safe(code, m)
    && OpNow(code, m).CMP?
    && ReadableNow(FirstNow(code, m), m.data) && ReadNow(FirstNow(code, m), m) == x
    && ReadableNow(SecondNow(code, m), m.data) && ReadNow(SecondNow(code, m), m) == y
  }

  /** No comparison among the first `n` instructions. */
  predicate NoCompare(code: Code, n: nat, m: MState)
    requires Machine.CanRun(code, n, m)
    decreases n
  {
    hide Safe, Machine.Step, OpNow;
    n > 0 && m.status == Running ==> !OpNow(code, m).CMP? && NoCompare(code, n - 1, Machine.Step(code, m))
  }

  lemma OtherKeepsFlag(op: Opcode, p1: Place, p2: Place, link: bv32, m: MState)
    requires SafeOp(op, p1, p2, m) && !op.CMP?
    ensures Perform(op, p1, p2, link, m).flag == m.flag
  {
    hide SetCell, FirstEmpty, GuardMet, BaseKey, Hash, Compared;
    hide Exec, Write, Read, Load, Store, Val, ExecDefined, Readable, Writable;
  }

  lemma {:induction false} FlagStays(code: Code, n: nat, m: MState)
    requires Machine.CanRun(code, n, m) && NoCompare(code, n, m)
    ensures Machine.Run(code, n, m).flag == m.flag
    decreases n
  {
    hide Safe, Machine.Step, OpNow, FirstNow, SecondNow, LinkNow, SafeOp, Perform;
    if n > 0 && m.status == Running {
      PerformsNow(code, m);
      OtherKeepsFlag(OpNow(code, m), FirstNow(code, m), SecondNow(code, m), LinkNow(code, m), m);
      FlagStays(code, n - 1, Machine.Step(code, m));
    }
  }

  /** With a valid flag a comparison leaves the bit of its own outcome, whatever was compared before. */
  lemma ComparisonSets(code: Code, m: MState, x: bv32, y: bv32)
    requires ComparesNow(code, m, x, y) && Theorems.FlagValid(m.flag)
    ensures Machine.Step(code, m).flag == Compare(x, y).Bits()
  {
    hide Safe, OpNow, FirstNow, SecondNow, LinkNow, Val, Machine.Step, Compared, Read, Readable, Theorems.FlagValid;
    PerformsNow(code, m);
    NoError(m.flag);
    ComparedIs(m.flag, x, y);
  }

  lemma NoError(flag: bv32)
    requires Theorems.FlagValid(flag)
    ensures flag & FLAG_ERR == 0
  {
  }

  /** The relation a condition name stands for, between unsigned words. */
  predicate Stands(c: Condition, x: bv32, y: bv32) {
    match c
    case EQ => Val(x) == Val(y)
    case NEQ => Val(x) != Val(y)
    case LT => Val(x) < Val(y)
    case LTE => Val(x) <= Val(y)
    case GT => Val(x) > Val(y)
    case GTE => Val(x) >= Val(y)
    case ERR => false
  }

  /** The condition as an operand. */
  function Guard(c: Condition): Place { Constant(c.Mask(), Byte) }

  lemma GuardStands(c: Condition, x: bv32, y: bv32, m: MState)
    requires m.flag == Compare(x, y).Bits()
    ensures GuardReadable(Guard(c), m.data) && (GuardMet(Guard(c), m) <==> Stands(c, x, y))
  {
    Theorems.ConditionMeaning(c, x, y);
    MaskLow(c);
    hide Val, Low, Condition.Mask, Compare, Meets;
  }

  lemma MaskLow(c: Condition)
    ensures Low(c.Mask(), Byte) == c.Mask()
  {
  }

  /** What a guarded jump, call or return does when its condition holds and when it does not. */
  predicate Obeys(op: Opcode, p1: Place, link: bv32, m: MState, t: MState, holds: bool)
    requires |m.data.mem| == MEMORY_SIZE && (op.JMP? || op.CALL? ==> ReadableNow(p1, m.data))
  {
    && (op.JMP? ==> t == Continue(if holds then ReadNow(p1, m) + 1 else 0, link, m))
    && (op.CALL? ==> t == if holds then Call(ReadNow(p1, m), link, m) else Continue(0, link, m))
    && (op.RET? ==> t == if holds then Return(link, m) else Continue(0, link, m))
  }

  /** The current instruction is a jump, call or return with the condition `c`. */
  predicate GuardedNow(code: Code, m: MState, c: Condition) {
    hide Safe, OpNow, FirstNow, SecondNow;
    && Safe(code, m)
    && var op := OpNow(code, m);
       ((op.JMP? || op.CALL?) && SecondNow(code, m) == Guard(c)) || (op.RET? && FirstNow(code, m) == Guard(c))
  }

  /** On any code, in any run from power-on: after a comparison of `x` with `y` and any number of
      instructions that compare nothing, a jump, call or return under a condition is made exactly when
      the condition's unsigned relation holds between `x` and `y`. */
  lemma GuardsObey(code: Code, mem: Memory, k: nat, n: nat, x: bv32, y: bv32, c: Condition)
    requires Machine.CanRun(code, k, Boot(mem))
    requires var m0 := Machine.Run(code, k, Boot(mem));
             && ComparesNow(code, m0, x, y)
             && Machine.CanRun(code, n, Machine.Step(code, m0))
             && NoCompare(code, n, Machine.Step(code, m0))
             && GuardedNow(code, Machine.Run(code, n, Machine.Step(code, m0)), c)
    ensures var m := Machine.Run(code, n, Machine.Step(code, Machine.Run(code, k, Boot(mem))));
            && |m.data.mem| == MEMORY_SIZE
            && (OpNow(code, m).JMP? || OpNow(code, m).CALL? ==> ReadableNow(FirstNow(code, m), m.data))
            && Obeys(OpNow(code, m), FirstNow(code, m), LinkNow(code, m), m, Machine.Step(code, m), Stands(c, x, y))
  {
    hide Machine.CanRun, Machine.Run, Safe, Machine.Step, OpNow, FirstNow, SecondNow, LinkNow, Stands, Compare, Guard;
    hide NoCompare;
    hide ReadNow, Readable, Theorems.FlagValid, Comparison.Bits, Val, Read;
    var m0 := Machine.Run(code, k, Boot(mem));
    var m := Machine.Run(code, n, Machine.Step(code, m0));
    BootFlag();
    Theorems.FlagInvariant(code, k, Boot(mem));
    ComparisonSets(code, m0, x, y);
    FlagStays(code, n, Machine.Step(code, m0));
    GuardStands(c, x, y, m);
    PerformsNow(code, m);
    PerformObeys(OpNow(code, m), FirstNow(code, m), SecondNow(code, m), LinkNow(code, m), m);
  }

  lemma BootFlag()
    ensures Theorems.FlagValid(0)
  {
  }

  lemma PerformObeys(op: Opcode, p1: Place, p2: Place, link: bv32, m: MState)
    requires SafeOp(op, p1, p2, m)
    ensures |m.data.mem| == MEMORY_SIZE && (op.JMP? || op.CALL? ==> ReadableNow(p1, m.data))
    ensures (op.JMP? || op.CALL?) && GuardReadable(p2, m.data) ==>
              Obeys(op, p1, link, m, Perform(op, p1, p2, link, m), GuardMet(p2, m))
    ensures op.RET? && GuardReadable(p1, m.data) ==>
              Obeys(op, p1, link, m, Perform(op, p1, p2, link, m), GuardMet(p1, m))
  {
    hide Val, Read, Readable, GuardMet, Call, Return, Continue, ExecDefined, Writable;
  }

  // ----- Compiled guards -----

  /** The source instruction is a jump, call or return under the condition `c`. */
  predicate Guarded(i: Insn, c: Condition) {
    ((i.op.JMP? || i.op.CALL?) && i.o2 == Flag(c)) || (i.op.RET? && i.o1 == Flag(c))
  }

  /** At the start of a compiled instruction the machine decodes that instruction and its operands. */
  lemma DecodesNow(p: Prog, ch: Choice, img: Image, i: nat, m: MState)
    requires IsImage(p, ch, img) && i < |img| && m.vip == Address(ch, img, i) && Safe(Flatten(img), m)
    ensures |img| == |p.insns| && ValidChoice(ch, |img|)
    ensures OpNow(Flatten(img), m) == p.insns[i].op
    ensures FirstNow(Flatten(img), m) == SeenNow(p, ch, img, p.insns[i].o1, m)
    ensures SecondNow(Flatten(img), m) == SeenNow(p, ch, img, p.insns[i].o2, m)
    ensures i + 1 < |img| ==> LinkNow(Flatten(img), m) == Address(ch, img, i + 1)
  {
    hide Select, DecodeAt, Resolve, Resolvable, ReadLink, LinkAt;
    hide Decoding.PlaceWith, TargetOf, Val, SafeOp, Address;
    ImageSize(p, ch, img);
    AddressFacts(p, ch, img, i);
    SeesInstruction(p, ch, img, i, m.data.regs);
  }

  /** A condition compiled with a jump, call or return is decoded as the guard of that instruction. */
  lemma GuardedInImage(p: Prog, ch: Choice, img: Image, i: nat, m: MState, c: Condition)
    requires IsImage(p, ch, img) && i < |img| && m.vip == Address(ch, img, i) && Safe(Flatten(img), m)
    requires i < |p.insns| && Guarded(p.insns[i], c)
    ensures GuardedNow(Flatten(img), m, c)
  {
    hide IsImage, Safe, OpNow, FirstNow, SecondNow, Address, Flatten, LinkNow, SeenNow, Guard;
    DecodesNow(p, ch, img, i, m);
    GuardSeen(p, ch, img, c, m);
  }

  lemma GuardSeen(p: Prog, ch: Choice, img: Image, c: Condition, m: MState)
    requires ValidChoice(ch, |img|)
    ensures SeenNow(p, ch, img, Flag(c), m) == Guard(c)
  {
    hide Condition.Mask;
  }

  /** Where a guarded instruction goes: on to its successor, or where an unguarded one would go. */
  predicate Follows(p: Prog, ch: Choice, img: Image, i: nat, m: MState, t: MState, holds: bool)
    requires i < |p.insns| && |m.data.mem| == MEMORY_SIZE
    requires p.insns[i].op.JMP? || p.insns[i].op.CALL? ==> IsTarget(p, p.insns[i].o1)
  {
    var insn, next := p.insns[i], Address(ch, img, i + 1);
    if !holds then t == m.(vip := next)
    else if insn.op.JMP? then t == m.(vip := Address(ch, img, p.labels[insn.o1.name]))
    else if insn.op.CALL? then t == Call(Address(ch, img, p.labels[insn.o1.name]), next, m)
    else t == Return(next, m)
  }

  /** In any run of any image from power-on: after a comparison of `x` with `y` and instructions that
      compare nothing, a compiled jump, call or return under a condition goes to its target or back to
      its caller exactly when the condition's relation holds between `x` and `y`, else to its successor. */
  lemma CompiledGuardsObey(p: Prog, ch: Choice, img: Image, mem: Memory, k: nat, n: nat, x: bv32, y: bv32,
    i: nat, c: Condition)
    requires IsImage(p, ch, img) && i + 1 < |img| == |p.insns| && Guarded(p.insns[i], c)
    requires p.insns[i].op.JMP? || p.insns[i].op.CALL? ==> IsTarget(p, p.insns[i].o1)
    requires Machine.CanRun(Flatten(img), k, Boot(mem))
    requires var m0 := Machine.Run(Flatten(img), k, Boot(mem));
             && ComparesNow(Flatten(img), m0, x, y)
             && Machine.CanRun(Flatten(img), n, Machine.Step(Flatten(img), m0))
             && NoCompare(Flatten(img), n, Machine.Step(Flatten(img), m0))
    requires var m := Machine.Run(Flatten(img), n, Machine.Step(Flatten(img), Machine.Run(Flatten(img), k, Boot(mem))));
             m.vip == Address(ch, img, i) && Safe(Flatten(img), m)
    ensures var m := Machine.Run(Flatten(img), n, Machine.Step(Flatten(img), Machine.Run(Flatten(img), k, Boot(mem))));
            |m.data.mem| == MEMORY_SIZE
            && Follows(p, ch, img, i, m, Machine.Step(Flatten(img), m), Stands(c, x, y))
  {
    hide IsImage, Machine.CanRun, Machine.Run, Safe, Machine.Step, OpNow, FirstNow, SecondNow, LinkNow, Stands;
    hide NoCompare, GuardedNow, Obeys, Follows, Flatten, Address;
    var code := Flatten(img);
    var m := Machine.Run(code, n, Machine.Step(code, Machine.Run(code, k, Boot(mem))));
    GuardedInImage(p, ch, img, i, m, c);
    GuardsObey(code, mem, k, n, x, y, c);
    ObeysFollows(p, ch, img, i, m, Machine.Step(code, m), Stands(c, x, y), c);
  }

  lemma ObeysFollows(p: Prog, ch: Choice, img: Image, i: nat, m: MState, t: MState, holds: bool, c: Condition)
    requires IsImage(p, ch, img) && i + 1 < |img| == |p.insns| && Guarded(p.insns[i], c)
    requires p.insns[i].op.JMP? || p.insns[i].op.CALL? ==> IsTarget(p, p.insns[i].o1)
    requires |m.data.mem| == MEMORY_SIZE && m.vip == Address(ch, img, i) && Safe(Flatten(img), m)
    requires var op, p1 := OpNow(Flatten(img), m), FirstNow(Flatten(img), m);
             && (op.JMP? || op.CALL? ==> ReadableNow(p1, m.data))
             && Obeys(op, p1, LinkNow(Flatten(img), m), m, t, holds)
    ensures Follows(p, ch, img, i, m, t, holds)
  {
    hide IsImage, Safe, OpNow, FirstNow, SecondNow, LinkNow, Flatten, Address, Call, Return, Read, Readable;
    hide SeenNow, Condition.Mask;
    IsRunning(Flatten(img), m);
    DecodesNow(p, ch, img, i, m);
    StartIs(p, ch, img, i + 1);
    var insn := p.insns[i];
    if insn.op.JMP? || insn.op.CALL? {
      LabelReads(p, ch, img, insn.o1, m);
      StartIs(p, ch, img, p.labels[insn.o1.name]);
    }
  }

  lemma IsRunning(code: Code, m: MState)
    requires Safe(code, m)
    ensures m.status == Running
  {
  }
}
