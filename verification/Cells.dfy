/** The return addresses kept twice: on the linked stack and in cells of virtual memory. */
module Cells {
  import opened Words
  import opened Alu
  import opened Program
  import Machine
  import Decoding
  import opened Layout
  import opened Relation
  import opened Simulation
  import opened Control

  predicate SameCells(a: Memory, b: Memory) {
    |a| == |b| == MEMORY_SIZE && forall i :: Machine.SHADOW_LO <= i < PROGRAM_LO ==> b[i] == a[i]
  }

  /** The current instruction is no call made with 128 calls open, and nothing but a call or a return
      writes to the cells. */
  predicate Quiet(code: Machine.Code, m: Machine.MState)
    requires Machine.Safe(code, m)
  {
    hide Machine.Step, Val, Machine.Select, Machine.Resolve;
    var d := Machine.DecodeAt(code, Val(m.vip));
    var op := Machine.Select(d.opcode);
    && (op.CALL? && Machine.GuardMet(Machine.Resolve(code, d.op2, m.data.regs), m) ==> |m.stack| < STACK_CAPACITY)
    && (!op.CALL? && !op.RET? ==> SameCells(m.data.mem, Machine.Step(code, m).data.mem))
  }

  predicate QuietRun(code: Machine.Code, n: nat, m: Machine.MState)
    requires Machine.CanRun(code, n, m)
    decreases n
  {
    hide Machine.Step, Machine.Safe, Quiet;
    n > 0 && m.status == Running ==> Quiet(code, m) && QuietRun(code, n - 1, Machine.Step(code, m))
  }

  /** The stack holds the starts of the instructions `rs`, and so do the cells, in order. */
  predicate Records(ch: Choice, img: Image, m: Machine.MState, rs: seq<nat>) {
    && |m.data.mem| == MEMORY_SIZE
    && |m.stack| == |rs| <= STACK_CAPACITY
    && (forall j :: 0 <= j < |rs| ==> m.stack[j] == Address(ch, img, rs[j]))
    && CellsMatch(ch, img, m.data.mem, rs)
  }

  lemma CallRecords(p: Prog, ch: Choice, img: Image, i: nat, target: bv32, m: Machine.MState, rs: seq<nat>)
    requires IsImage(p, ch, img) && i + 1 < |img| && Records(ch, img, m, rs) && |m.stack| < STACK_CAPACITY
    ensures Records(ch, img, Machine.Call(target, Address(ch, img, i + 1), m), rs + [i + 1])
  {
    hide IsImage, Address, CellsMatch, Machine.SetCell, Machine.FirstEmpty;
    FirstEmptyCell(p, ch, img, m.data.mem, rs, 0);
    PushCell(ch, img, m.data.mem, rs, i + 1);
  }

  lemma ReturnRecords(p: Prog, ch: Choice, img: Image, link: bv32, m: Machine.MState, rs: seq<nat>)
    requires IsImage(p, ch, img) && Records(ch, img, m, rs)
    ensures Records(ch, img, Machine.Return(link, m), if rs == [] then [] else rs[..|rs| - 1])
  {
    hide IsImage, Address, CellsMatch, Machine.SetCell, Machine.FirstEmpty;
    FirstEmptyCell(p, ch, img, m.data.mem, rs, 0);
    if rs != [] {
      PopCell(ch, img, m.data.mem, rs);
    }
  }

  /** An instruction that is neither a taken call nor a taken return keeps the stack. */
  lemma PassesBy(op: Opcode, p1: Place, p2: Place, link: bv32, m: Machine.MState)
    requires Machine.SafeOp(op, p1, p2, m)
    requires op.CALL? ==> !Machine.GuardMet(p2, m)
    requires op.RET? ==> !Machine.GuardMet(p1, m)
    ensures var t := Machine.Perform(op, p1, p2, link, m);
            t.stack == m.stack && (op.CALL? || op.RET? ==> t.data == m.data)
  {
    hide Read, Readable, Writable, Meets, ExecDefined, Machine.Perform, Machine.GuardMet;
    if op.EXIT? {
      ExitKeeps(op, p1, p2, link, m);
    } else if op.JMP? && Machine.GuardMet(p2, m) {
      JumpKeeps(op, p1, p2, link, m);
    } else {
      FallsThrough(op, p1, p2, link, m);
      UntakenKeeps(op, p1, p2, link, m);
    }
  }

  lemma ExitKeeps(op: Opcode, p1: Place, p2: Place, link: bv32, m: Machine.MState)
    requires Machine.SafeOp(op, p1, p2, m) && op.EXIT?
    ensures Machine.Perform(op, p1, p2, link, m).stack == m.stack
  {
    hide Val, Read, Readable;
  }

  lemma JumpKeeps(op: Opcode, p1: Place, p2: Place, link: bv32, m: Machine.MState)
    requires Machine.SafeOp(op, p1, p2, m) && op.JMP?
    ensures Machine.Perform(op, p1, p2, link, m).stack == m.stack
  {
    hide Val, Read, Readable, Machine.GuardMet;
  }

  lemma UntakenKeeps(op: Opcode, p1: Place, p2: Place, link: bv32, m: Machine.MState)
    requires Machine.SafeOp(op, p1, p2, m)
    ensures op.CALL? && !Machine.GuardMet(p2, m) ==> Machine.Perform(op, p1, p2, link, m).data == m.data
    ensures op.RET? && !Machine.GuardMet(p1, m) ==> Machine.Perform(op, p1, p2, link, m).data == m.data
  {
    hide Val, Read, Readable, Meets, Machine.Call, Machine.Return, ExecDefined;
  }

  lemma StepRecords(p: Prog, ch: Choice, img: Image, m: Machine.MState, rs: seq<nat>) returns (qs: seq<nat>)
    requires IsImage(p, ch, img) && SelfContained(p) && InCode(p, ch, img, m) && Records(ch, img, m, rs)
    requires Machine.Safe(Flatten(img), m) && Quiet(Flatten(img), m)
    ensures Records(ch, img, Machine.Step(Flatten(img), m), qs)
  {
    hide IsImage, Address, IsReturn, Machine.Step, Machine.SafeOp, LinkNow, SeenNow, Val, CellsMatch, Read;
    hide Machine.Resolvable, Machine.Resolve, Machine.DecodeAt, Machine.Select, Flatten, Machine.Perform;
    hide Machine.GuardMet;
    ImageSize(p, ch, img);
    var i :| 0 <= i < |img| && m.vip == Address(ch, img, i);
    var op := QuietHere(p, ch, img, i, m);
    var link := LinkNow(Flatten(img), m);
    var p1, p2 := SeenNow(p, ch, img, p.insns[i].o1, m), SeenNow(p, ch, img, p.insns[i].o2, m);
    TakenIs(op, p1, p2, link, m);
    if op.CALL? && Machine.GuardMet(p2, m) {
      qs := rs + [i + 1];
      CallRecords(p, ch, img, i, Read(p1, p1.v, m.data.regs, m.data.mem), m, rs);
    } else if op.RET? && Machine.GuardMet(p1, m) {
      qs := if rs == [] then [] else rs[..|rs| - 1];
      ReturnRecords(p, ch, img, link, m, rs);
    } else {
      qs := rs;
      PassesBy(op, p1, p2, link, m);
      var t := Machine.Perform(op, p1, p2, link, m);
      assert SameCells(m.data.mem, t.data.mem);
      CellsUntouched(ch, img, m.data.mem, t.data.mem, rs);
    }
  }

  lemma TakenIs(op: Opcode, p1: Place, p2: Place, link: bv32, m: Machine.MState)
    requires Machine.SafeOp(op, p1, p2, m)
    ensures op.CALL? ==> Machine.ReadableNow(p1, m.data) && Machine.GuardReadable(p2, m.data)
    ensures op.RET? ==> Machine.GuardReadable(p1, m.data)
    ensures op.CALL? && Machine.GuardMet(p2, m) ==>
              Machine.Perform(op, p1, p2, link, m) == Machine.Call(Read(p1, p1.v, m.data.regs, m.data.mem), link, m)
    ensures op.RET? && Machine.GuardMet(p1, m) ==> Machine.Perform(op, p1, p2, link, m) == Machine.Return(link, m)
  {
    hide Val, Read, Meets, Machine.Call, Machine.Return, Readable, Writable, ExecDefined;
  }

  /** What a quiet instruction is at the start of source instruction `i`. */
  lemma QuietHere(p: Prog, ch: Choice, img: Image, i: nat, m: Machine.MState) returns (op: Opcode)
    requires IsImage(p, ch, img) && SelfContained(p) && i < |img| && m.vip == Address(ch, img, i)
    requires Machine.Safe(Flatten(img), m) && Quiet(Flatten(img), m)
    ensures |img| == |p.insns| && ValidChoice(ch, |img|) && op == p.insns[i].op && (op.CALL? ==> i + 1 < |img|)
    ensures var p1, p2 := SeenNow(p, ch, img, p.insns[i].o1, m), SeenNow(p, ch, img, p.insns[i].o2, m);
            && Machine.SafeOp(op, p1, p2, m)
            && Machine.Step(Flatten(img), m) == Machine.Perform(op, p1, p2, LinkNow(Flatten(img), m), m)
            && (i + 1 < |img| ==> LinkNow(Flatten(img), m) == Address(ch, img, i + 1))
            && (op.CALL? ==> Machine.GuardReadable(p2, m.data))
            && (op.CALL? && Machine.GuardMet(p2, m) ==> |m.stack| < STACK_CAPACITY)
            && (!op.CALL? && !op.RET? ==> SameCells(m.data.mem, Machine.Step(Flatten(img), m).data.mem))
  {
    hide IsImage, Address, Machine.Step, LinkNow, Val, Read, SameCells, Decoding.PlaceWith, TargetOf, Readable;
    hide ExecDefined;
    hide Machine.Resolvable, Machine.Resolve, Machine.DecodeAt, Machine.Select, Machine.Perform, Machine.GuardMet;
    PerformsInstruction(p, ch, img, i, m);
    ImageSize(p, ch, img);
    AddressFacts(p, ch, img, i);
    SeesInstruction(p, ch, img, i, m.data.regs);
    op := p.insns[i].op;
  }

  lemma {:induction false} RunRecords(p: Prog, ch: Choice, img: Image, n: nat, m: Machine.MState,
      rs: seq<nat>) returns (qs: seq<nat>)
    requires IsImage(p, ch, img) && SelfContained(p) && InCode(p, ch, img, m) && Records(ch, img, m, rs)
    requires Machine.CanRun(Flatten(img), n, m) && QuietRun(Flatten(img), n, m)
    ensures Records(ch, img, Machine.Run(Flatten(img), n, m), qs)
    decreases n
  {
    hide IsImage, SelfContained, InCode, Records, Quiet, Machine.Safe, Machine.Step, Flatten;
    qs := rs;
    if n > 0 && m.status == Running {
      StepStaysInCode(p, ch, img, m);
      qs := StepRecords(p, ch, img, m, rs);
      qs := RunRecords(p, ch, img, n - 1, Machine.Step(Flatten(img), m), qs);
    }
  }

  /** In every run from power-on that opens at most 128 calls and writes to the cells by calls and returns
      only, the linked stack and the cells hold the same addresses, each the start of an instruction after
      a call; the scan finds as many cells as there are calls open, so the overflow exit is never taken. */
  lemma CallStacksAgree(p: Prog, ch: Choice, img: Image, mem: Memory, n: nat)
    requires IsImage(p, ch, img) && SelfContained(p) && |mem| == MEMORY_SIZE
    requires forall a :: Machine.SHADOW_LO <= a < PROGRAM_LO ==> mem[a] == 0
    requires Machine.CanRun(Flatten(img), n, Machine.Boot(mem)) && QuietRun(Flatten(img), n, Machine.Boot(mem))
    ensures var m := Machine.Run(Flatten(img), n, Machine.Boot(mem));
            && |m.data.mem| == MEMORY_SIZE
            && Machine.FirstEmpty(m.data.mem, 0) == |m.stack| <= STACK_CAPACITY < SHADOW_CAPACITY
            && forall j :: 0 <= j < |m.stack| ==>
                 IsReturn(p, ch, img, m.stack[j]) && CellHolds(m.data.mem, j, m.stack[j])
  {
    hide IsImage, Address, CellHolds, IsReturn, Machine.FirstEmpty, SelfContained, Flatten;
    assert p.insns != [] by { NotEmpty(p); }
    AtStart(p, ch, img, mem);
    RunStaysInCode(p, ch, img, n, Machine.Boot(mem));
    var rs := RunRecords(p, ch, img, n, Machine.Boot(mem), []);
    FirstEmptyCell(p, ch, img, Machine.Run(Flatten(img), n, Machine.Boot(mem)).data.mem, rs, 0);
  }

  lemma NotEmpty(p: Prog)
    requires SelfContained(p)
    ensures p.insns != []
  {
  }

  // ----- The cells in literals -----

  /** Cell `i` holds anything but three zero bytes. */
  predicate Used(mem: Memory, i: nat)
    requires |mem| == MEMORY_SIZE && i < 21845
  {
    !(mem[0x1_0000 + 3 * i] == 0 && mem[0x1_0001 + 3 * i] == 0 && mem[0x1_0002 + 3 * i] == 0)
  }

  lemma {:induction false} FirstUnused(mem: Memory, i: nat, k: nat)
    requires |mem| == MEMORY_SIZE && i <= k <= 21845
    requires forall j :: i <= j < k ==> Used(mem, j)
    requires k < 21845 ==> !Used(mem, k)
    ensures Machine.FirstEmpty(mem, i) == k
    decreases k - i
  {
    if i < k {
      assert Used(mem, i);
      FirstUnused(mem, i + 1, k);
    }
  }

  /** A call writes its return address, highest byte first, to the first unused cell, and stacks it if
      fewer than 128 are stacked; once all cells are used it ends the program with 0xEF32. */
  lemma CallStores(target: bv32, link: bv32, m: Machine.MState, k: nat)
    requires |m.data.mem| == MEMORY_SIZE && k <= 21845
    requires forall j :: 0 <= j < k ==> Used(m.data.mem, j)
    requires k < 21845 ==> !Used(m.data.mem, k)
    ensures Machine.Call(target, link, m) ==
            if k == 21845 then m.(status := Exited(0xEF32))
            else
              var c, vip := 0x1_0000 + 3 * k, if target == 0xFFFF_FFFF then link else target;
              m.(vip := vip,
                 status := if vip == 0xFF_FFFF then Halted else Running,
                 data := m.data.(mem := m.data.mem[c := B2(link)][c + 1 := B1(link)][c + 2 := B0(link)]),
                 stack := if |m.stack| < 128 then m.stack + [link] else m.stack)
  {
    hide B0, B1, B2, Machine.FirstEmpty;
    FirstUnused(m.data.mem, 0, k);
    Successor(target);
  }

  /** A return clears the last used cell and goes to the address on top of the stack, or halts. */
  lemma ReturnClears(link: bv32, m: Machine.MState, k: nat)
    requires |m.data.mem| == MEMORY_SIZE && k <= 21845
    requires forall j :: 0 <= j < k ==> Used(m.data.mem, j)
    requires k < 21845 ==> !Used(m.data.mem, k)
    ensures Machine.Return(link, m) ==
            var top := if m.stack == [] then 0xFFFF_FFFF else m.stack[|m.stack| - 1];
            var vip := if top == 0xFFFF_FFFF then 0xFF_FFFF else top;
            m.(vip := vip,
               status := if vip == 0xFF_FFFF then Halted else Running,
               data := m.data.(mem := if k == 0 then m.data.mem else
                 var c := 0x1_0000 + 3 * (k - 1); m.data.mem[c := 0][c + 1 := 0][c + 2 := 0]),
               stack := if m.stack == [] then [] else m.stack[..|m.stack| - 1])
  {
    ZeroBytes();
    hide B0, B1, B2, Machine.FirstEmpty;
    FirstUnused(m.data.mem, 0, k);
    Successor(if Machine.Top(m.stack) == 0xFFFF_FFFF then Machine.HALT else Machine.Top(m.stack));
  }

  lemma ZeroBytes()
    ensures B0(0) == 0 && B1(0) == 0 && B2(0) == 0
  {
  }
}
