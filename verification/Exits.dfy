/** The status a program ends with. */
module Exits {
  import opened Words
  import opened Alu
  import opened Program
  import Machine
  import opened Decoding
  import opened Layout
  import opened Relation
  import opened Simulation
  import opened Control
  import Guards

  /** The status `x` is what the operand of EXIT holds: nothing is 0, a literal itself at its width, a
      register its low bits and a memory operand the bytes at its address. */
  predicate Reports(o: Operand, d: Data, x: bv32) {
    match o
    case NoOperand => x == 0
    case Literal(y, v) => x == Low(y, v)
    case Reg(r, v) => x == Low(d.regs[r as nat], v)
    case Absolute(a, v) => LiesAt(Val(a), v, d.mem, x)
    case Based(b, bw, disp, v) => LiesAt(Val(Add(Low(d.regs[b as nat], bw), disp)), v, d.mem, x)
    case Indexed(b, bw, e, ew, v) =>
      LiesAt(Val(Add(Low(d.regs[b as nat], bw), Low(d.regs[e as nat], ew))), v, d.mem, x)
    case Flag(c) => x == c.Mask()
    case LabelRef(_) => true
  }

  predicate LiesAt(a: nat, v: Width, mem: Memory, x: bv32) {
    a + v.Bytes() <= |mem| && x == Load(mem, a, v)
  }

  /** EXIT ends a source program with the value of its operand and changes nothing else. */
  lemma SourceExits(p: Prog, u: set<LocalKey>, s: State)
    requires Defined(p, u, s) && p.insns[s.pc].op.EXIT?
    ensures var t := Program.Step(p, u, s);
            && t.status.Exited?
            && t == s.(status := t.status)
            && Reports(p.insns[s.pc].o1, s.data, t.status.code)
  {
    hide PlaceOf, Read, Readable, Reports, Val, Taken, KeyOf, ExecDefined, Exec, Writable, Compare;
    var o := p.insns[s.pc].o1;
    if !o.NoOperand? {
      OperandReadable(o, s.data);
    }
    if !o.LabelRef? {
      NothingIs(o, s.data.regs);
      PlaceReports(o, s.data);
    }
  }

  lemma OperandReadable(o: Operand, d: Data)
    requires Available(o, d)
    ensures var q := PlaceOf(o, d.regs); Readable(q, q.v, 0, |d.mem|) && ValueOf(o, d) == Read(q, q.v, d.regs, d.mem)
  {
    hide PlaceOf, Read, Val;
  }

  lemma NothingIs(o: Operand, regs: Registers)
    requires !o.LabelRef?
    ensures PlaceOf(o, regs).Nothing? <==> o.NoOperand?
  {
    hide Add, Low, Condition.Mask;
  }

  /** A compiled EXIT ends the machine with the value of its operand and changes nothing else. */
  lemma MachineExits(p: Prog, ch: Choice, img: Image, i: nat, m: Machine.MState)
    requires IsImage(p, ch, img) && i < |img| == |p.insns|
    requires m.vip == Address(ch, img, i) && Machine.Safe(Flatten(img), m)
    requires p.insns[i].op.EXIT? && !p.insns[i].o1.LabelRef?
    ensures var t := Machine.Step(Flatten(img), m);
            && t.status.Exited?
            && t == m.(status := t.status)
            && Reports(p.insns[i].o1, m.data, t.status.code)
  {
    hide IsImage, Machine.Safe, Machine.Step, Flatten, LinkNow, SeenNow, Address, Reports, Machine.Perform;
    var o := p.insns[i].o1;
    PerformsInstruction(p, ch, img, i, m);
    SeenIs(p, ch, img, o, m);
    PerformExits(SeenNow(p, ch, img, o, m), SeenNow(p, ch, img, p.insns[i].o2, m), LinkNow(Flatten(img), m), m);
    PlaceReports(o, m.data);
  }

  lemma SeenIs(p: Prog, ch: Choice, img: Image, o: Operand, m: Machine.MState)
    requires ValidChoice(ch, |img|) && !o.LabelRef?
    ensures SeenNow(p, ch, img, o, m) == PlaceOf(o, m.data.regs)
  {
    hide PlaceOf;
  }

  lemma PerformExits(p1: Place, p2: Place, link: bv32, m: Machine.MState)
    requires Machine.SafeOp(EXIT, p1, p2, m)
    ensures p1.Nothing? || Readable(p1, p1.v, 0, |m.data.mem|)
    ensures Machine.Perform(EXIT, p1, p2, link, m)
            == m.(status := Exited(if p1.Nothing? then 0 else Read(p1, p1.v, m.data.regs, m.data.mem)))
  {
    hide Read, Readable;
  }

  lemma PlaceReports(o: Operand, d: Data)
    requires !o.LabelRef?
    requires var q := PlaceOf(o, d.regs); q.Nothing? || Readable(q, q.v, 0, |d.mem|)
    ensures var q := PlaceOf(o, d.regs); Reports(o, d, if q.Nothing? then 0 else Read(q, q.v, d.regs, d.mem))
  {
    match o
    case Literal(x, v) => LowTwice(x, v);
    case Flag(c) => Guards.MaskLow(c);
    case _ =>
      hide Val, Load, Add, Low, Condition.Mask;
  }
}
