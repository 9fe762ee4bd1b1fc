/** Where control can go when the machine runs an image, whatever the program does to its data. */
module Control {
  import opened Words
  import opened Alu
  import opened Program
  import Machine
  import opened Decoding
  import opened Layout
  import opened Relation
  import opened Simulation

  /** Jumps and calls go to labels, and the last instruction does not fall through. */
  predicate SelfContained(p: Prog) {
    && p.insns != []
    && (forall i :: 0 <= i < |p.insns| && (p.insns[i].op.JMP? || p.insns[i].op.CALL?) ==> IsTarget(p, p.insns[i].o1))
    && Leaves(p.insns[|p.insns| - 1])
  }

  /** An unconditional jump or return, or an exit. */
  predicate Leaves(i: Insn) {
    (i.op.JMP? && i.o2.NoOperand?) || (i.op.RET? && i.o1.NoOperand?) || i.op.EXIT?
  }

  // ----- The invariant -----

  /** Source instruction `r` comes after a call. */
  predicate FollowsCall(p: Prog, r: nat) {
    0 < r < |p.insns| && p.insns[r - 1].op.CALL?
  }

  /** The address is the start of an instruction after a call. */
  ghost predicate IsReturn(p: Prog, ch: Choice, img: Image, x: bv32) {
    exists r :: FollowsCall(p, r) && x == Address(ch, img, r)
  }

  ghost predicate IsStart(ch: Choice, img: Image, x: bv32) {
    exists i :: 0 <= i < |img| && x == Address(ch, img, i)
  }

  ghost predicate InCode(p: Prog, ch: Choice, img: Image, m: Machine.MState) {
    && |m.stack| <= STACK_CAPACITY
    && (forall j :: 0 <= j < |m.stack| ==> IsReturn(p, ch, img, m.stack[j]))
    && (if m.status.Halted? then m.vip == Machine.HALT else IsStart(ch, img, m.vip))
  }

  // ----- One step -----

  function SeenNow(p: Prog, ch: Choice, img: Image, o: Operand, m: Machine.MState): Place
    requires ValidChoice(ch, |img|)
  {
    PlaceWith(o, TargetOf(p, ch, img, o), m.data.regs)
  }

  /** The pointer of the instruction at the current address. */
  function LinkNow(code: Machine.Code, m: Machine.MState): bv32
    requires Machine.Safe(code, m)
  {
    Machine.ReadLink(code, Machine.LinkAt(Val(m.vip), Machine.DecodeAt(code, Val(m.vip))))
  }

  /** At the start of source instruction `i` the machine performs that instruction. */
  lemma PerformsInstruction(p: Prog, ch: Choice, img: Image, i: nat, m: Machine.MState)
    requires IsImage(p, ch, img) && i < |img| && m.vip == Address(ch, img, i) && Machine.Safe(Flatten(img), m)
    ensures |img| == |p.insns| && ValidChoice(ch, |img|)
    ensures var insn := p.insns[i];
            var p1, p2 := SeenNow(p, ch, img, insn.o1, m), SeenNow(p, ch, img, insn.o2, m);
            && Machine.SafeOp(insn.op, p1, p2, m)
            && Machine.Step(Flatten(img), m) == Machine.Perform(insn.op, p1, p2, LinkNow(Flatten(img), m), m)
    ensures i + 1 < |img| ==> LinkNow(Flatten(img), m) == Address(ch, img, i + 1)
  {
    hide Machine.Select, Machine.DecodeAt, Machine.Resolve, Machine.Resolvable, Machine.ReadLink, Machine.LinkAt;
    hide PlaceWith, TargetOf, Val, Machine.SafeOp, Machine.Perform, Address;
    ImageSize(p, ch, img);
    AddressFacts(p, ch, img, i);
    SeesInstruction(p, ch, img, i, m.data.regs);
  }

  /** A label operand reads as the address of its instruction. */
  lemma LabelReads(p: Prog, ch: Choice, img: Image, o: Operand, m: Machine.MState)
    requires IsImage(p, ch, img) && IsTarget(p, o)
    ensures |img| == |p.insns| && ValidChoice(ch, |img|)
    ensures var q := SeenNow(p, ch, img, o, m);
            && Machine.ReadableNow(q, m.data)
            && Read(q, q.v, m.data.regs, m.data.mem) == Address(ch, img, p.labels[o.name])
  {
    hide Address;
    ImageSize(p, ch, img);
    TargetFacts(p, ch, img, o);
  }

  lemma StartIs(p: Prog, ch: Choice, img: Image, i: nat)
    requires IsImage(p, ch, img) && i < |img|
    ensures var x := Address(ch, img, i); IsStart(ch, img, x) && x != Machine.HALT && x + 1 != 0 && x + 1 - 1 == x
  {
    hide IsImage, Val, Start;
    AddressFacts(p, ch, img, i);
    Successor(Address(ch, img, i));
    hide Address;
  }

  lemma Successor(x: bv32)
    ensures x + 1 - 1 == x && (x + 1 == 0 <==> x == 0xFFFF_FFFF)
  {
  }

  lemma ReturnFacts(p: Prog, ch: Choice, img: Image, x: bv32)
    requires IsImage(p, ch, img) && IsReturn(p, ch, img, x)
    ensures IsStart(ch, img, x) && x != Machine.HALT && x != 0xFFFF_FFFF
  {
    hide IsImage, Address, Val, Start;
    ImageSize(p, ch, img);
    var r :| FollowsCall(p, r) && x == Address(ch, img, r);
    AddressFacts(p, ch, img, r);
  }

  /** Going to the start of an instruction keeps the invariant. */
  lemma Arrives(p: Prog, ch: Choice, img: Image, i: nat, link: bv32, m: Machine.MState)
    requires IsImage(p, ch, img) && i < |img| && |m.stack| <= STACK_CAPACITY
    requires forall j :: 0 <= j < |m.stack| ==> IsReturn(p, ch, img, m.stack[j])
    ensures InCode(p, ch, img, Machine.Continue(Address(ch, img, i) + 1, link, m))
    ensures link == Address(ch, img, i) ==> InCode(p, ch, img, Machine.Continue(0, link, m))
  {
    hide IsImage, Address, IsReturn;
    StartIs(p, ch, img, i);
  }

  /** One step keeps control inside the code. */
  lemma StepStaysInCode(p: Prog, ch: Choice, img: Image, m: Machine.MState)
    requires IsImage(p, ch, img) && SelfContained(p) && InCode(p, ch, img, m) && Machine.Safe(Flatten(img), m)
    ensures InCode(p, ch, img, Machine.Step(Flatten(img), m))
  {
    hide IsImage, Address, IsReturn, Machine.Step, Machine.Perform, Machine.SafeOp, LinkNow, SeenNow, Val;
    hide Machine.Resolvable, Machine.Resolve, Machine.DecodeAt, Machine.Select, Flatten;
    ImageSize(p, ch, img);
    var i :| 0 <= i < |img| && m.vip == Address(ch, img, i);
    PerformsInstruction(p, ch, img, i, m);
    var insn, link := p.insns[i], LinkNow(Flatten(img), m);
    if insn.op.JMP? || insn.op.CALL? {
      LabelReads(p, ch, img, insn.o1, m);
    }
    NothingSeen(p, ch, img, insn, m);
    PerformStays(p, ch, img, i, SeenNow(p, ch, img, insn.o1, m), SeenNow(p, ch, img, insn.o2, m), link, m);
  }

  lemma NothingSeen(p: Prog, ch: Choice, img: Image, insn: Insn, m: Machine.MState)
    requires ValidChoice(ch, |img|)
    ensures insn.o1.NoOperand? ==> SeenNow(p, ch, img, insn.o1, m).Nothing?
    ensures insn.o2.NoOperand? ==> SeenNow(p, ch, img, insn.o2, m).Nothing?
  {
  }

  lemma PerformStays(p: Prog, ch: Choice, img: Image, i: nat, p1: Place, p2: Place, link: bv32, m: Machine.MState)
    requires IsImage(p, ch, img) && SelfContained(p) && |img| == |p.insns| && i < |img|
    requires InCode(p, ch, img, m) && m.status == Running && m.vip == Address(ch, img, i)
    requires Machine.SafeOp(p.insns[i].op, p1, p2, m)
    requires i + 1 < |img| ==> link == Address(ch, img, i + 1)
    requires p.insns[i].op.JMP? || p.insns[i].op.CALL? ==>
               Read(p1, p1.v, m.data.regs, m.data.mem) == Address(ch, img, p.labels[p.insns[i].o1.name])
    requires (p.insns[i].o1.NoOperand? ==> p1.Nothing?) && (p.insns[i].o2.NoOperand? ==> p2.Nothing?)
    ensures InCode(p, ch, img, Machine.Perform(p.insns[i].op, p1, p2, link, m))
  {
    hide IsImage, Address, IsReturn, Val, Read, Meets, Machine.Compared, Machine.GetData, Machine.PutData, Exec;
    hide ExecDefined;
    hide Machine.Call, Machine.Return, Readable, Writable, Machine.Continue;
    var op := p.insns[i].op;
    if op.JMP? && Machine.GuardMet(p2, m) {
      Arrives(p, ch, img, p.labels[p.insns[i].o1.name], link, m);
    } else if op.CALL? && Machine.GuardMet(p2, m) {
      CallStays(p, ch, img, i, p.labels[p.insns[i].o1.name], link, m);
    } else if op.RET? && Machine.GuardMet(p1, m) {
      ReturnStays(p, ch, img, link, m);
    } else if !op.EXIT? {
      var t := Machine.Perform(op, p1, p2, link, m);
      var d, flag := t.data, t.flag;
      assert t == Machine.Continue(0, link, m.(data := d, flag := flag)) by { FallsThrough(op, p1, p2, link, m); }
      Arrives(p, ch, img, i + 1, link, m.(data := d, flag := flag));
    }
  }

  /** Every other instruction falls through to its successor, with the same stack. */
  lemma FallsThrough(op: Opcode, p1: Place, p2: Place, link: bv32, m: Machine.MState)
    requires Machine.SafeOp(op, p1, p2, m) && !op.EXIT?
    requires op.JMP? || op.CALL? ==> !Machine.GuardMet(p2, m)
    requires op.RET? ==> !Machine.GuardMet(p1, m)
    ensures var t := Machine.Perform(op, p1, p2, link, m);
            t == Machine.Continue(0, link, m.(data := t.data, flag := t.flag))
  {
    hide Val, Read, Meets, Machine.Compared, Machine.GetData, Machine.PutData, Exec, ExecDefined, Machine.Call;
    hide Machine.Return;
    hide Readable, Writable;
  }

  lemma CallStays(p: Prog, ch: Choice, img: Image, i: nat, j: nat, link: bv32, m: Machine.MState)
    requires IsImage(p, ch, img) && SelfContained(p) && |img| == |p.insns| && i < |img| && j < |img|
    requires InCode(p, ch, img, m) && m.status == Running && m.vip == Address(ch, img, i) && |m.data.mem| == MEMORY_SIZE
    requires p.insns[i].op.CALL? && (i + 1 < |img| ==> link == Address(ch, img, i + 1))
    ensures InCode(p, ch, img, Machine.Call(Address(ch, img, j), link, m))
  {
    hide IsImage, Address, Machine.Continue, Machine.FirstEmpty, Machine.SetCell;
    assert FollowsCall(p, i + 1);
    assert IsReturn(p, ch, img, link);
    hide IsReturn;
    if Machine.FirstEmpty(m.data.mem, 0) < SHADOW_CAPACITY {
      Arrives(p, ch, img, j, link, Machine.Opened(link, m));
    }
  }

  lemma ReturnStays(p: Prog, ch: Choice, img: Image, link: bv32, m: Machine.MState)
    requires IsImage(p, ch, img) && InCode(p, ch, img, m) && |m.data.mem| == MEMORY_SIZE
    ensures InCode(p, ch, img, Machine.Return(link, m))
  {
    hide IsImage, Address, IsReturn, Machine.Cleared;
    if m.stack == [] {
      Successor(Machine.HALT);
    } else {
      var x := Machine.Top(m.stack);
      ReturnFacts(p, ch, img, x);
      Successor(x);
    }
  }

  // ----- Runs -----

  lemma {:induction false} RunStaysInCode(p: Prog, ch: Choice, img: Image, n: nat, m: Machine.MState)
    requires IsImage(p, ch, img) && SelfContained(p) && InCode(p, ch, img, m) && Machine.CanRun(Flatten(img), n, m)
    ensures InCode(p, ch, img, Machine.Run(Flatten(img), n, m))
    decreases n
  {
    hide IsImage, InCode, SelfContained, Machine.Step, Machine.Safe, Flatten;
    if n > 0 && m.status == Running {
      StepStaysInCode(p, ch, img, m);
      RunStaysInCode(p, ch, img, n - 1, Machine.Step(Flatten(img), m));
    }
  }

  /** Every run of an image from power-on stands at the start of an instruction or at the halt address,
      whatever the program does to its data, its local variables and the call cells; and the halt address
      is the start of no instruction. */
  lemma ControlStaysInCode(p: Prog, ch: Choice, img: Image, mem: Memory, n: nat)
    requires IsImage(p, ch, img) && SelfContained(p) && Machine.CanRun(Flatten(img), n, Machine.Boot(mem))
    ensures |img| == |p.insns| && ValidChoice(ch, |img|)
    ensures var m := Machine.Run(Flatten(img), n, Machine.Boot(mem));
            && (m.status.Halted? ==> Val(m.vip) == 0xFF_FFFF)
            && (!m.status.Halted? ==> exists i :: 0 <= i < |img| && Val(m.vip) == Start(ch, img, i))
    ensures forall i :: 0 <= i < |img| ==> Start(ch, img, i) < 0xFF_FFFF
  {
    hide IsImage, Machine.CanRun, Machine.Run, Val, Start, Flatten;
    ImageSize(p, ch, img);
    AtStart(p, ch, img, mem);
    RunStaysInCode(p, ch, img, n, Machine.Boot(mem));
    ValHalt();
    var m := Machine.Run(Flatten(img), n, Machine.Boot(mem));
    if !m.status.Halted? {
      var i :| 0 <= i < |img| && m.vip == Address(ch, img, i);
      AddressFacts(p, ch, img, i);
    }
    forall i | 0 <= i < |img| ensures Start(ch, img, i) < 0xFF_FFFF {
      StartBounds(p, ch, img, i);
    }
  }

  /** The machine starts at the first instruction. */
  lemma AtStart(p: Prog, ch: Choice, img: Image, mem: Memory)
    requires IsImage(p, ch, img) && p.insns != []
    ensures InCode(p, ch, img, Machine.Boot(mem))
  {
    ImageSize(p, ch, img);
    hide IsReturn;
    assert Start(ch, img, 0) == 0;
    assert Wrap(0) == 0;
    assert Address(ch, img, 0) == 0;
  }
}
