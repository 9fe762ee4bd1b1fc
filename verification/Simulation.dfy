/** Compiler correctness: whatever the shuffle and the ciphers, the byte machine running the image of a
    program does, step by step, what the program does when executed in order. */
module Simulation {
  import opened Words
  import opened Alu
  import opened Program
  import opened Encoding
  import Machine
  import opened Decoding
  import opened Layout
  import opened Relation

  // ----- Addresses -----

  /** Addresses of instructions are offsets of the code and never the halt address. */
  lemma AddressFacts(p: Prog, ch: Choice, img: Image, i: nat)
    requires IsImage(p, ch, img) && i < |img|
    ensures var x := Address(ch, img, i);
            x != Machine.HALT && x != 0xFFFF_FFFF && x < 0x100_0000 && Val(x) == Start(ch, img, i)
  {
    hide Word, Val;
    var n := Start(ch, img, i);
    StartBounds(p, ch, img, i);
    ValWrap(n);
    SmallWord(n);
    ValHalt();
  }

  lemma ValHalt()
    ensures Val(Machine.HALT) == 0xFF_FFFF
  {
    var x := Machine.HALT;
    assert B0(x) == 0xFF && B1(x) == 0xFF && B2(x) == 0xFF && B3(x) == 0;
    hide B0, B1, B2, B3;
    ZeroByte();
    ToOfByte(0xFF);
  }

  lemma TargetFacts(p: Prog, ch: Choice, img: Image, o: Operand)
    requires IsImage(p, ch, img)
    ensures TargetOf(p, ch, img, o) < 0x100_0000
    ensures IsTarget(p, o) ==> TargetOf(p, ch, img, o) == Address(ch, img, p.labels[o.name])
  {
    hide Word;
    if o.LabelRef? && o.name in p.labels {
      var j := p.labels[o.name];
      if j < |img| {
        StartBounds(p, ch, img, j);
      }
      SmallWord(LabelOffset(ch, img, j));
    }
  }

  lemma LinkRoundTrip(x: bv32, code: Machine.Code, at: nat)
    requires x < 0x100_0000 && BytesAt(code, at, Link(x))
    ensures Machine.ReadLink(code, at) == x
  {
    ByteAt(code, at, Link(x), 0);
    ByteAt(code, at, Link(x), 1);
    ByteAt(code, at, Link(x), 2);
  }

  // ----- From bytes to one instruction -----

  /** At the start of source instruction `i` the machine sees that instruction, its label targets and
      the address of instruction `i + 1`. */
  lemma SeesInstruction(p: Prog, ch: Choice, img: Image, i: nat, regs: Registers)
    requires IsImage(p, ch, img) && i < |img|
    ensures var code, at, insn := Flatten(img), Start(ch, img, i), p.insns[i];
            && at + 3 <= |code|
            && var d := Machine.DecodeAt(code, at);
               && Machine.Select(d.opcode) == insn.op
               && Machine.Resolvable(code, d.op1)
               && Machine.Resolvable(code, d.op2)
               && Machine.Resolve(code, d.op1, regs) == PlaceWith(insn.o1, TargetOf(p, ch, img, insn.o1), regs)
               && Machine.Resolve(code, d.op2, regs) == PlaceWith(insn.o2, TargetOf(p, ch, img, insn.o2), regs)
               && Machine.LinkAt(at, d) + 3 <= |code|
               && (i + 1 < |img| ==> Machine.ReadLink(code, Machine.LinkAt(at, d)) == Address(ch, img, i + 1))
  {
    hide Machine.Select, Machine.DecodeAt, Machine.Resolve, Machine.Resolvable, Machine.ReadLink, Machine.LinkAt;
    hide PlaceWith, TargetOf, Body, Link, Wrap;
    var code, at, insn := Flatten(img), Start(ch, img, i), p.insns[i];
    TargetFacts(p, ch, img, insn.o1);
    TargetFacts(p, ch, img, insn.o2);
    EncodedSplit(p, ch, img, i);
    hide IsImage, Flatten;
    DecodeRoundTrip(code, at, insn, ch.draws[i], TargetOf(p, ch, img, insn.o1), TargetOf(p, ch, img, insn.o2), regs);
    if i + 1 < |img| {
      AddressFacts(p, ch, img, i + 1);
      LinkRoundTrip(Address(ch, img, i + 1), code, at + |BodyOf(p, ch, img, i)|);
    }
  }

  /** The bytes of an instruction are its body and its fallthrough pointer. */
  lemma EncodedSplit(p: Prog, ch: Choice, img: Image, i: nat)
    requires IsImage(p, ch, img) && i < |img|
    ensures EncodableInsn(p.insns[i])
    ensures var code, at, body := Flatten(img), Start(ch, img, i), BodyOf(p, ch, img, i);
            && at + |body| + 3 <= |code|
            && BytesAt(code, at, body)
            && (i + 1 < |img| ==> BytesAt(code, at + |body|, Link(Address(ch, img, i + 1))))
  {
    hide Body, Link, TargetOf, Wrap;
    assert IsEncoded(p, ch, img, i);
    var code, at, bytes, body := Flatten(img), Start(ch, img, i), img[ch.place[i]], BodyOf(p, ch, img, i);
    FlattenAt(img, ch.place[i]);
    assert bytes == body + bytes[|body|..];
    BytesSplit(code, at, body, bytes[|body|..]);
  }

  // ----- Operand values and guards -----

  lemma ValueAgrees(o: Operand, s: State, m: Machine.MState)
    requires DataAgree(m.data, s.data) && Available(o, s.data)
    ensures var p := PlaceOf(o, s.data.regs);
            Machine.ReadableNow(p, m.data) && Read(p, p.v, m.data.regs, m.data.mem) == ValueOf(o, s.data)
  {
    hide Read, Val, Agree;
    AgreeSizes(m.data.mem, s.data.mem);
    ReadAgree(PlaceOf(o, s.data.regs), PlaceOf(o, s.data.regs).v, m.data, s.data);
  }

  lemma NothingPlace(o: Operand, regs: Registers)
    requires !o.LabelRef?
    ensures PlaceOf(o, regs).Nothing? <==> o.NoOperand?
  {
  }

  lemma GuardAgrees(o: Operand, s: State, m: Machine.MState)
    requires DataAgree(m.data, s.data) && m.flag == s.flags.Bits() && GuardDefined(o, s.data)
    ensures var p := PlaceOf(o, s.data.regs);
            Machine.GuardReadable(p, m.data) && (Machine.GuardMet(p, m) <==> Taken(o, s))
  {
    hide Read, Readable, Agree, PlaceOf, Comparison.Bits, Meets;
    NothingPlace(o, s.data.regs);
    if !o.NoOperand? {
      ValueAgrees(o, s, m);
    }
  }

  // ----- Moving on -----

  /** Falling through leads to the next source instruction. */
  lemma FallThrough(p: Prog, ch: Choice, img: Image, u: set<LocalKey>, s: State, m: Machine.MState, link: bv32)
    requires IsImage(p, ch, img) && NoClash(ch, img, u) && ContentsMatch(ch, img, u, s, m)
    requires s.status.Running? && s.pc + 1 < |img| && link == Address(ch, img, s.pc + 1)
    ensures Matches(ch, img, u, Next(s), Machine.Continue(0, link, m))
  {
    hide CellsMatch, LocalsMatch, StacksMatch, Agree, Address, NoClash, IsImage;
    AgreeSizes(m.data.mem, s.data.mem);
    AddressFacts(p, ch, img, s.pc + 1);
    SameLocals(ch, img, u, m.data.mem, s, Next(s));
  }

  /** Going to an address `x` of a source instruction `j` leads to that instruction. */
  lemma GoTo(p: Prog, ch: Choice, img: Image, u: set<LocalKey>, s: State, m: Machine.MState, link: bv32, j: nat,
      x: bv32)
    requires IsImage(p, ch, img) && NoClash(ch, img, u) && ContentsMatch(ch, img, u, s, m)
    requires s.status.Running? && j < |img| && x == Address(ch, img, j)
    ensures Matches(ch, img, u, s.(pc := j), Machine.Continue(x + 1, link, m))
  {
    hide CellsMatch, LocalsMatch, StacksMatch, Agree, Address, NoClash, IsImage;
    AgreeSizes(m.data.mem, s.data.mem);
    AddressFacts(p, ch, img, j);
    SameLocals(ch, img, u, m.data.mem, s, s.(pc := j));
  }

  lemma SameLocals(ch: Choice, img: Image, u: set<LocalKey>, mem: Memory, s: State, t: State)
    requires |mem| == MEMORY_SIZE && NoClash(ch, img, u) && LocalsMatch(ch, img, u, mem, s) && t.locals == s.locals
    ensures LocalsMatch(ch, img, u, mem, t)
  {
    hide WindowAt;
    LocalsUntouched(ch, img, u, mem, mem, s, t);
  }

  // ----- One instruction at a time -----

  /** What every case below starts from: matching states at an instruction `insn` whose operands the
      machine sees as `p1` and `p2`, and `link`, the address of the instruction after it. */
  predicate Situation(p: Prog, ch: Choice, img: Image, u: set<LocalKey>, s: State, m: Machine.MState, link: bv32) {
    && IsImage(p, ch, img)
    && NoClash(ch, img, u)
    && Matches(ch, img, u, s, m)
    && Defined(p, u, s)
    && (s.pc + 1 < |img| ==> link == Address(ch, img, s.pc + 1))
  }

  /** The operand of the current instruction as the machine sees it. */
  function Seen(p: Prog, ch: Choice, img: Image, o: Operand, s: State): Place
    requires ValidChoice(ch, |img|)
  {
    PlaceWith(o, TargetOf(p, ch, img, o), s.data.regs)
  }

  lemma ImageSize(p: Prog, ch: Choice, img: Image)
    requires IsImage(p, ch, img)
    ensures |img| == |p.insns| && ValidChoice(ch, |img|)
  {
  }

  lemma DefinedEverywhere(op: Opcode, p1: Place, p2: Place, d: Data)
    requires ExecDefined(op, p1, p2, d, PROGRAM_LO)
    ensures ExecDefined(op, p1, p2, d, 0)
  {
  }

  lemma DataCase(p: Prog, ch: Choice, img: Image, u: set<LocalKey>, s: State, m: Machine.MState, link: bv32)
    requires Situation(p, ch, img, u, s, m, link) && IsData(p.insns[s.pc].op)
    ensures var i := p.insns[s.pc];
            var p1, p2 := Seen(p, ch, img, i.o1, s), Seen(p, ch, img, i.o2, s);
            && Machine.SafeOp(i.op, p1, p2, m)
            && Matches(ch, img, u, Step(p, u, s), Machine.Perform(i.op, p1, p2, link, m))
  {
    hide Exec, ExecDefined, CellsMatch, LocalsMatch, StacksMatch, Agree, SameBelow, Address, NoClash, IsImage;
    hide TargetOf, PlaceOf;
    var i := p.insns[s.pc];
    var p1, p2 := PlaceOf(i.o1, s.data.regs), PlaceOf(i.o2, s.data.regs);
    AgreeSizes(m.data.mem, s.data.mem);
    ImageSize(p, ch, img);
    DefinedEverywhere(i.op, p1, p2, s.data);
    ExecDefinedAgree(i.op, p1, p2, m.data, s.data);
    ExecAgree(i.op, p1, p2, m.data, s.data);
    DataEffect(ch, img, u, s, m, Exec(i.op, p1, p2, s.data), Exec(i.op, p1, p2, m.data));
    FallThrough(p, ch, img, u, s.(data := Exec(i.op, p1, p2, s.data)), m.(data := Exec(i.op, p1, p2, m.data)), link);
  }

  /** Replacing registers and program memory by agreeing ones keeps the contents matched. */
  lemma DataEffect(ch: Choice, img: Image, u: set<LocalKey>, s: State, m: Machine.MState, d: Data, e: Data)
    requires NoClash(ch, img, u) && ContentsMatch(ch, img, u, s, m) && DataAgree(e, d) && SameBelow(e.mem, m.data.mem)
    ensures ContentsMatch(ch, img, u, s.(data := d), m.(data := e))
  {
    hide StacksMatch;
    CellsUntouched(ch, img, m.data.mem, e.mem, s.shadow);
    LocalsUntouched(ch, img, u, m.data.mem, e.mem, s, s.(data := d));
  }

  lemma CompareCase(p: Prog, ch: Choice, img: Image, u: set<LocalKey>, s: State, m: Machine.MState, link: bv32)
    requires Situation(p, ch, img, u, s, m, link) && p.insns[s.pc].op.CMP?
    ensures var i := p.insns[s.pc];
            var p1, p2 := Seen(p, ch, img, i.o1, s), Seen(p, ch, img, i.o2, s);
            && Machine.SafeOp(i.op, p1, p2, m)
            && Matches(ch, img, u, Step(p, u, s), Machine.Perform(i.op, p1, p2, link, m))
  {
    hide Read, Readable, CellsMatch, LocalsMatch, StacksMatch, Agree, Address, NoClash, IsImage, TargetOf, PlaceOf;
    hide Compare, Machine.Compared;
    var i := p.insns[s.pc];
    AgreeSizes(m.data.mem, s.data.mem);
    ImageSize(p, ch, img);
    ValueAgrees(i.o1, s, m);
    ValueAgrees(i.o2, s, m);
    var x, y := ValueOf(i.o1, s.data), ValueOf(i.o2, s.data);
    CompareAgrees(s.flags, x, y);
    var t, n := s.(flags := Compare(x, y)), m.(flag := Machine.Compared(m.flag, x, y));
    SameLocals(ch, img, u, m.data.mem, s, t);
    FallThrough(p, ch, img, u, t, n, link);
  }

  /** The machine's nested conditional sets exactly the bit of the outcome, because no state of an
      in-order run has the error bit. */
  lemma CompareAgrees(c: Comparison, x: bv32, y: bv32)
    ensures Machine.Compared(c.Bits(), x, y) == Compare(x, y).Bits()
  {
    hide Val;
    if Val(x) == Val(y) {
      ValInjective(x, y);
    }
  }

  lemma JumpCase(p: Prog, ch: Choice, img: Image, u: set<LocalKey>, s: State, m: Machine.MState, link: bv32)
    requires Situation(p, ch, img, u, s, m, link) && p.insns[s.pc].op.JMP?
    ensures var i := p.insns[s.pc];
            var p1, p2 := Seen(p, ch, img, i.o1, s), Seen(p, ch, img, i.o2, s);
            && Machine.SafeOp(i.op, p1, p2, m)
            && Matches(ch, img, u, Step(p, u, s), Machine.Perform(i.op, p1, p2, link, m))
  {
    hide Readable, CellsMatch, LocalsMatch, StacksMatch, Agree, Address, NoClash, IsImage, TargetOf, PlaceOf, Taken;
    hide Machine.GuardMet;
    var i := p.insns[s.pc];
    AgreeSizes(m.data.mem, s.data.mem);
    ImageSize(p, ch, img);
    LabelSeen(p, ch, img, i.o1, s, m);
    GuardAgrees(i.o2, s, m);
    if Taken(i.o2, s) {
      var j := p.labels[i.o1.name];
      GoTo(p, ch, img, u, s, m, link, j, Address(ch, img, j));
    } else {
      FallThrough(p, ch, img, u, s, m, link);
    }
  }

  /** A jump or call operand reads as the address of the instruction its label stands for. */
  lemma LabelSeen(p: Prog, ch: Choice, img: Image, o: Operand, s: State, m: Machine.MState)
    requires IsImage(p, ch, img) && IsTarget(p, o)
    ensures var q := Seen(p, ch, img, o, s);
            && Machine.ReadableNow(q, m.data)
            && Read(q, q.v, m.data.regs, m.data.mem) == Address(ch, img, p.labels[o.name])
  {
    hide Address;
    TargetFacts(p, ch, img, o);
  }

  lemma CallCase(p: Prog, ch: Choice, img: Image, u: set<LocalKey>, s: State, m: Machine.MState, link: bv32)
    requires Situation(p, ch, img, u, s, m, link) && p.insns[s.pc].op.CALL?
    ensures var i := p.insns[s.pc];
            var p1, p2 := Seen(p, ch, img, i.o1, s), Seen(p, ch, img, i.o2, s);
            && Machine.SafeOp(i.op, p1, p2, m)
            && Matches(ch, img, u, Step(p, u, s), Machine.Perform(i.op, p1, p2, link, m))
  {
    hide Readable, CellsMatch, LocalsMatch, StacksMatch, Agree, Address, NoClash, IsImage, TargetOf, PlaceOf, Taken;
    hide Machine.GuardMet;
    hide Enter, Machine.Call;
    var i := p.insns[s.pc];
    AgreeSizes(m.data.mem, s.data.mem);
    ImageSize(p, ch, img);
    LabelSeen(p, ch, img, i.o1, s, m);
    GuardAgrees(i.o2, s, m);
    if Taken(i.o2, s) {
      EnterAgrees(p, ch, img, u, s, m, link, p.labels[i.o1.name]);
    } else {
      FallThrough(p, ch, img, u, s, m, link);
    }
  }

  /** Opening a call, including the calls that find the stack or the cells full. */
  lemma EnterAgrees(p: Prog, ch: Choice, img: Image, u: set<LocalKey>, s: State, m: Machine.MState, link: bv32, j: nat)
    requires IsImage(p, ch, img) && NoClash(ch, img, u) && Matches(ch, img, u, s, m) && s.status.Running?
    requires s.pc + 1 < |img| && link == Address(ch, img, s.pc + 1) && j < |img|
    ensures Matches(ch, img, u, Enter(j, s), Machine.Call(Address(ch, img, j), link, m))
  {
    hide CellsMatch, LocalsMatch, StacksMatch, Agree, Address, NoClash, IsImage, Machine.Continue, Machine.FirstEmpty;
    hide Machine.SetCell;
    AgreeSizes(m.data.mem, s.data.mem);
    FirstEmptyCell(p, ch, img, m.data.mem, s.shadow, 0);
    if |s.shadow| == SHADOW_CAPACITY {
      SameLocals(ch, img, u, m.data.mem, s, Enter(j, s));
    } else {
      var r := s.pc + 1;
      PushAgrees(ch, img, u, s, m, r);
      GoTo(p, ch, img, u, Pushed(s, r), MPushed(m, |s.shadow|, link), link, j, Address(ch, img, j));
    }
  }

  function Pushed(s: State, r: nat): State {
    s.(stack := if |s.stack| < STACK_CAPACITY then s.stack + [r] else s.stack, shadow := s.shadow + [r])
  }

  function MPushed(m: Machine.MState, i: nat, x: bv32): Machine.MState
    requires |m.data.mem| == MEMORY_SIZE && i < SHADOW_CAPACITY
  {
    m.(data := m.data.(mem := Machine.SetCell(m.data.mem, i, x)),
      stack := if |m.stack| < STACK_CAPACITY then m.stack + [x] else m.stack)
  }

  lemma PushAgrees(ch: Choice, img: Image, u: set<LocalKey>, s: State, m: Machine.MState, r: nat)
    requires NoClash(ch, img, u) && ContentsMatch(ch, img, u, s, m) && |s.shadow| < SHADOW_CAPACITY && 0 < r < |img|
    ensures ContentsMatch(ch, img, u, Pushed(s, r), MPushed(m, |s.shadow|, Address(ch, img, r)))
  {
    hide CellsMatch, LocalsMatch, Agree, Address, NoClash, Machine.SetCell;
    AgreeSizes(m.data.mem, s.data.mem);
    var mem := Machine.SetCell(m.data.mem, |s.shadow|, Address(ch, img, r));
    PushCell(ch, img, m.data.mem, s.shadow, r);
    CellOnly(m.data.mem, s.data.mem, |s.shadow|, Address(ch, img, r));
    LocalsUntouched(ch, img, u, m.data.mem, mem, s, Pushed(s, r));
  }

  /** Writing a call cell changes neither program memory nor local variables. */
  lemma CellOnly(a: Memory, b: Memory, i: nat, x: bv32)
    requires Agree(a, b) && i < SHADOW_CAPACITY
    ensures var m := Machine.SetCell(a, i, x);
            Agree(m, b) && forall k :: 0 <= k < Machine.SHADOW_LO ==> m[k] == a[k]
  {
    hide B0, B1, B2;
  }

  lemma ReturnCase(p: Prog, ch: Choice, img: Image, u: set<LocalKey>, s: State, m: Machine.MState, link: bv32)
    requires Situation(p, ch, img, u, s, m, link) && p.insns[s.pc].op.RET?
    ensures var i := p.insns[s.pc];
            var p1, p2 := Seen(p, ch, img, i.o1, s), Seen(p, ch, img, i.o2, s);
            && Machine.SafeOp(i.op, p1, p2, m)
            && Matches(ch, img, u, Step(p, u, s), Machine.Perform(i.op, p1, p2, link, m))
  {
    hide Readable, CellsMatch, LocalsMatch, StacksMatch, Agree, Address, NoClash, IsImage, TargetOf, PlaceOf, Taken;
    hide Machine.GuardMet;
    hide Leave, Machine.Return;
    var i := p.insns[s.pc];
    AgreeSizes(m.data.mem, s.data.mem);
    ImageSize(p, ch, img);
    GuardAgrees(i.o1, s, m);
    if Taken(i.o1, s) {
      LeaveAgrees(p, ch, img, u, s, m, link);
    } else {
      FallThrough(p, ch, img, u, s, m, link);
    }
  }

  function Popped(s: State): State {
    s.(stack := if s.stack == [] then [] else s.stack[..|s.stack| - 1],
      shadow := if s.shadow == [] then [] else s.shadow[..|s.shadow| - 1])
  }

  function MPopped(m: Machine.MState, i: nat): Machine.MState
    requires |m.data.mem| == MEMORY_SIZE && i <= SHADOW_CAPACITY
  {
    m.(data := if i == 0 then m.data else m.data.(mem := Machine.SetCell(m.data.mem, i - 1, 0)),
      stack := if m.stack == [] then [] else m.stack[..|m.stack| - 1])
  }

  lemma PopAgrees(ch: Choice, img: Image, u: set<LocalKey>, s: State, m: Machine.MState)
    requires NoClash(ch, img, u) && ContentsMatch(ch, img, u, s, m) && |s.shadow| <= SHADOW_CAPACITY
    ensures ContentsMatch(ch, img, u, Popped(s), MPopped(m, |s.shadow|))
  {
    hide CellsMatch, LocalsMatch, Agree, Address, NoClash, Machine.SetCell;
    AgreeSizes(m.data.mem, s.data.mem);
    if s.shadow == [] {
      SameLocals(ch, img, u, m.data.mem, s, Popped(s));
    } else {
      var mem := Machine.SetCell(m.data.mem, |s.shadow| - 1, 0);
      PopCell(ch, img, m.data.mem, s.shadow);
      CellOnly(m.data.mem, s.data.mem, |s.shadow| - 1, 0);
      LocalsUntouched(ch, img, u, m.data.mem, mem, s, Popped(s));
    }
  }

  /** Returning, or leaving the program when no call is open. */
  lemma LeaveAgrees(p: Prog, ch: Choice, img: Image, u: set<LocalKey>, s: State, m: Machine.MState, link: bv32)
    requires IsImage(p, ch, img) && NoClash(ch, img, u) && Matches(ch, img, u, s, m) && s.status.Running?
    ensures Matches(ch, img, u, Leave(s), Machine.Return(link, m))
  {
    hide CellsMatch, LocalsMatch, Agree, Address, NoClash, IsImage, Machine.FirstEmpty, MPopped, Machine.Continue;
    AgreeSizes(m.data.mem, s.data.mem);
    FirstEmptyCell(p, ch, img, m.data.mem, s.shadow, 0);
    PopAgrees(ch, img, u, s, m);
    ReturnUnfolds(link, m);
    var n := MPopped(m, |s.shadow|);
    if s.stack == [] {
      HaltAgrees(ch, img, u, s, n, link);
    } else {
      var r := s.stack[|s.stack| - 1];
      AddressFacts(p, ch, img, r);
      GoTo(p, ch, img, u, Popped(s), n, link, r, Address(ch, img, r));
    }
  }

  lemma ReturnUnfolds(link: bv32, m: Machine.MState)
    requires |m.data.mem| == MEMORY_SIZE
    ensures var n := MPopped(m, Machine.FirstEmpty(m.data.mem, 0));
            var top := if m.stack == [] then 0xFFFF_FFFF else m.stack[|m.stack| - 1];
            Machine.Return(link, m) == Machine.Continue((if top == 0xFFFF_FFFF then Machine.HALT else top) + 1, link, n)
  {
    hide Machine.SetCell, Machine.FirstEmpty, Machine.Continue;
  }

  lemma HaltAgrees(ch: Choice, img: Image, u: set<LocalKey>, s: State, n: Machine.MState, link: bv32)
    requires NoClash(ch, img, u) && ContentsMatch(ch, img, u, Popped(s), n) && s.stack == []
    ensures Matches(ch, img, u, Leave(s), Machine.Continue(Machine.HALT + 1, link, n))
  {
    hide CellsMatch, LocalsMatch, Agree, Address, NoClash;
    AgreeSizes(n.data.mem, s.data.mem);
    SameLocals(ch, img, u, n.data.mem, Popped(s), Leave(s));
  }

  lemma ExitCase(p: Prog, ch: Choice, img: Image, u: set<LocalKey>, s: State, m: Machine.MState, link: bv32)
    requires Situation(p, ch, img, u, s, m, link) && p.insns[s.pc].op.EXIT?
    ensures var i := p.insns[s.pc];
            var p1, p2 := Seen(p, ch, img, i.o1, s), Seen(p, ch, img, i.o2, s);
            && Machine.SafeOp(i.op, p1, p2, m)
            && Matches(ch, img, u, Step(p, u, s), Machine.Perform(i.op, p1, p2, link, m))
  {
    hide Read, Readable, CellsMatch, LocalsMatch, StacksMatch, Agree, Address, NoClash, IsImage, TargetOf, PlaceOf;
    var i := p.insns[s.pc];
    AgreeSizes(m.data.mem, s.data.mem);
    ImageSize(p, ch, img);
    NothingPlace(i.o1, s.data.regs);
    if !i.o1.NoOperand? {
      ValueAgrees(i.o1, s, m);
    }
    SameLocals(ch, img, u, m.data.mem, s, Step(p, u, s));
  }

  /** The key the machine hashes is the address of the frame. */
  lemma KeyAgrees(p: Prog, ch: Choice, img: Image, s: State, m: Machine.MState)
    requires IsImage(p, ch, img) && StacksMatch(ch, img, s.stack, m.stack)
    ensures Machine.BaseKey(m) == FrameAddress(ch, img, TopFrame(s))
  {
    hide Address, IsImage;
    if s.stack != [] {
      AddressFacts(p, ch, img, s.stack[|s.stack| - 1]);
    }
  }

  lemma PutCase(p: Prog, ch: Choice, img: Image, u: set<LocalKey>, s: State, m: Machine.MState, link: bv32)
    requires Situation(p, ch, img, u, s, m, link) && p.insns[s.pc].op.PUT?
    ensures var i := p.insns[s.pc];
            var p1, p2 := Seen(p, ch, img, i.o1, s), Seen(p, ch, img, i.o2, s);
            && Machine.SafeOp(i.op, p1, p2, m)
            && Matches(ch, img, u, Step(p, u, s), Machine.Perform(i.op, p1, p2, link, m))
  {
    hide Read, Readable, CellsMatch, LocalsMatch, StacksMatch, Agree, Address, NoClash, IsImage, TargetOf, PlaceOf;
    hide Machine.Hash, Machine.BaseKey, Store, PutLocal, TopFrame, Val;
    var i := p.insns[s.pc];
    AgreeSizes(m.data.mem, s.data.mem);
    ImageSize(p, ch, img);
    ValueAgrees(i.o1, s, m);
    ValueAgrees(i.o2, s, m);
    KeyAgrees(p, ch, img, s, m);
    var k, v, x := KeyOf(i.o1, s), PlaceOf(i.o2, s.data.regs).v, ValueOf(i.o2, s.data);
    PutEffect(ch, img, u, s, m, k, v, x);
    FallThrough(p, ch, img, u, PutLocal(k, v, x, s), MPut(ch, img, m, k, v, x), link);
  }

  function MPut(ch: Choice, img: Image, m: Machine.MState, k: LocalKey, v: Width, x: bv32): Machine.MState
    requires |m.data.mem| == MEMORY_SIZE
  {
    m.(data := m.data.(mem := Store(m.data.mem, WindowAt(ch, img, k), v, x)))
  }

  /** Storing a local variable keeps program memory, call cells and the other locals. */
  lemma PutEffect(ch: Choice, img: Image, u: set<LocalKey>, s: State, m: Machine.MState, k: LocalKey, v: Width, x: bv32)
    requires NoClash(ch, img, u) && ContentsMatch(ch, img, u, s, m) && k in u
    ensures ContentsMatch(ch, img, u, PutLocal(k, v, x, s), MPut(ch, img, m, k, v, x))
    ensures PutLocal(k, v, x, s).status == s.status && PutLocal(k, v, x, s).pc == s.pc
  {
    hide CellsMatch, StacksMatch, WindowAt;
    AgreeSizes(m.data.mem, s.data.mem);
    var a := WindowAt(ch, img, k);
    var mem := Store(m.data.mem, a, v, x);
    StoreLocal(ch, img, u, m.data.mem, s, k, v, x);
    CellsUntouched(ch, img, m.data.mem, mem, s.shadow);
  }

  lemma GetCase(p: Prog, ch: Choice, img: Image, u: set<LocalKey>, s: State, m: Machine.MState, link: bv32)
    requires Situation(p, ch, img, u, s, m, link) && p.insns[s.pc].op.GET?
    ensures var i := p.insns[s.pc];
            var p1, p2 := Seen(p, ch, img, i.o1, s), Seen(p, ch, img, i.o2, s);
            && Machine.SafeOp(i.op, p1, p2, m)
            && Matches(ch, img, u, Step(p, u, s), Machine.Perform(i.op, p1, p2, link, m))
  {
    hide Read, Readable, CellsMatch, LocalsMatch, StacksMatch, Agree, Address, NoClash, IsImage, TargetOf, PlaceOf;
    hide Machine.Hash, Machine.BaseKey, Load, TopFrame, Val, Write, SameBelow;
    var i := p.insns[s.pc];
    AgreeSizes(m.data.mem, s.data.mem);
    ImageSize(p, ch, img);
    ValueAgrees(i.o2, s, m);
    KeyAgrees(p, ch, img, s, m);
    var k, v := KeyOf(i.o2, s), PlaceOf(i.o2, s.data.regs).v;
    WindowLoaded(ch, img, u, m.data.mem, s, k, v);
    var q, x := PlaceOf(i.o1, s.data.regs), Load(Local(s, k), 0, v);
    WriteAgree(q, x, m.data, s.data);
    DataEffect(ch, img, u, s, m, Write(q, x, s.data), Write(q, x, m.data));
    FallThrough(p, ch, img, u, s.(data := Write(q, x, s.data)), m.(data := Write(q, x, m.data)), link);
  }

  lemma WindowLoaded(ch: Choice, img: Image, u: set<LocalKey>, mem: Memory, s: State, k: LocalKey, v: Width)
    requires |mem| == MEMORY_SIZE && NoClash(ch, img, u) && LocalsMatch(ch, img, u, mem, s) && k in u
    ensures WindowAt(ch, img, k) + v.Bytes() <= MEMORY_SIZE
    ensures Load(mem, WindowAt(ch, img, k), v) == Load(Local(s, k), 0, v)
  {
    hide WindowAt, Load;
    WindowLoad(mem, WindowAt(ch, img, k), Local(s, k), v);
  }

  // ----- Compiler correctness -----

  /** One step of the byte machine on the image is safe and does one step of the program. */
  lemma StepCorrect(p: Prog, ch: Choice, img: Image, u: set<LocalKey>, s: State, m: Machine.MState)
    requires IsImage(p, ch, img) && NoClash(ch, img, u) && Matches(ch, img, u, s, m) && Defined(p, u, s)
    ensures Machine.Safe(Flatten(img), m)
    ensures Matches(ch, img, u, Step(p, u, s), Machine.Step(Flatten(img), m))
  {
    hide Machine.SafeOp, Machine.Perform, Machine.Select, Machine.DecodeAt, Machine.Resolve, Machine.Resolvable;
    hide Machine.ReadLink, Machine.LinkAt;
    hide Defined, Step, IsImage, NoClash, Seen, Address, ContentsMatch;
    Facts(p, ch, img, u, s, m);
    var code, i := Flatten(img), p.insns[s.pc];
    AddressFacts(p, ch, img, s.pc);
    SeesInstruction(p, ch, img, s.pc, m.data.regs);
    var link := Machine.ReadLink(code, Machine.LinkAt(Val(m.vip), Machine.DecodeAt(code, Val(m.vip))));
    CaseCorrect(p, ch, img, u, s, m, link);
  }

  lemma Facts(p: Prog, ch: Choice, img: Image, u: set<LocalKey>, s: State, m: Machine.MState)
    requires IsImage(p, ch, img) && NoClash(ch, img, u) && Matches(ch, img, u, s, m) && Defined(p, u, s)
    ensures |img| == |p.insns| && ValidChoice(ch, |img|) && s.pc < |img| && s.status == m.status == Running
    ensures m.vip == Address(ch, img, s.pc) && m.data.regs == s.data.regs && |m.data.mem| == MEMORY_SIZE
    ensures forall o :: Seen(p, ch, img, o, s) == PlaceWith(o, TargetOf(p, ch, img, o), m.data.regs)
  {
    hide Address, CellsMatch, LocalsMatch, StacksMatch, IsImage, TargetOf, PlaceWith, Available, GuardDefined;
    hide ExecDefined;
    ImageSize(p, ch, img);
  }

  lemma CaseCorrect(p: Prog, ch: Choice, img: Image, u: set<LocalKey>, s: State, m: Machine.MState, link: bv32)
    requires Situation(p, ch, img, u, s, m, link)
    ensures var i := p.insns[s.pc];
            var p1, p2 := Seen(p, ch, img, i.o1, s), Seen(p, ch, img, i.o2, s);
            && Machine.SafeOp(i.op, p1, p2, m)
            && Matches(ch, img, u, Step(p, u, s), Machine.Perform(i.op, p1, p2, link, m))
  {
    hide Matches, IsImage, NoClash, Seen, Machine.SafeOp, Machine.Perform, Step;
    var op := p.insns[s.pc].op;
    if op.JMP? {
      JumpCase(p, ch, img, u, s, m, link);
    } else if op.CALL? {
      CallCase(p, ch, img, u, s, m, link);
    } else if op.RET? {
      ReturnCase(p, ch, img, u, s, m, link);
    } else if op.EXIT? {
      ExitCase(p, ch, img, u, s, m, link);
    } else if op.CMP? {
      CompareCase(p, ch, img, u, s, m, link);
    } else if op.PUT? {
      PutCase(p, ch, img, u, s, m, link);
    } else if op.GET? {
      GetCase(p, ch, img, u, s, m, link);
    } else {
      DataCase(p, ch, img, u, s, m, link);
    }
  }

  /** Any number of steps: as long as the program's own run is defined, the machine is safe and the two
      runs stay in step. */
  lemma {:induction false} RunCorrect(p: Prog, ch: Choice, img: Image, u: set<LocalKey>, n: nat, s: State,
      m: Machine.MState)
    requires IsImage(p, ch, img) && NoClash(ch, img, u) && Matches(ch, img, u, s, m) && CanRun(p, u, n, s)
    ensures Machine.CanRun(Flatten(img), n, m)
    ensures Matches(ch, img, u, Run(p, u, n, s), Machine.Run(Flatten(img), n, m))
    decreases n
  {
    hide IsImage, NoClash, ContentsMatch, Defined, Step, Machine.Safe, Machine.Step, Address;
    if n > 0 && s.status == Running {
      StepCorrect(p, ch, img, u, s, m);
      RunCorrect(p, ch, img, u, n - 1, Step(p, u, s), Machine.Step(Flatten(img), m));
    }
  }
}
