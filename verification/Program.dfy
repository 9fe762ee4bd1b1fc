/** Source programs: parsed lines of virtual assembly, and their meaning when executed in order with
    the program counter an instruction index. No byte encoding and no shuffling appears here. */
module Program {
  import opened Words
  import opened Alu

  // ----- Syntax -----

  /** The flag names that may stand as a condition. */
  datatype Condition = EQ | NEQ | LT | LTE | GT | GTE | ERR {
    function Mask(): bv32 {
      match this
      case EQ => 1
      case NEQ => 6
      case LT => 2
      case LTE => 3
      case GT => 4
      case GTE => 5
      case ERR => 8
    }
  }

  /** A parsed operand. `[x]` is Absolute, `[b+x]` and `[b]` are Based, `[b+d]` is Indexed. */
  datatype Operand =
    | NoOperand
    | Reg(r: bv4, v: Width)
    | Absolute(x: bv32, v: Width)
    | Based(b: bv4, bw: Width, disp: bv32, v: Width)
    | Indexed(b: bv4, bw: Width, d: bv4, dw: Width, v: Width)
    | Literal(x: bv32, v: Width)
    | Flag(c: Condition)
    | LabelRef(name: string)

  datatype Insn = Insn(op: Opcode, o1: Operand, o2: Operand)

  datatype Line = Label(name: string) | Code(insn: Insn)

  /** A program: its instructions in order and the index each label stands for. */
  datatype Prog = Prog(insns: seq<Insn>, labels: map<string, nat>)

  function Parse(lines: seq<Line>): Prog {
    if lines == [] then Prog([], map[])
    else
      var p := Parse(lines[..|lines| - 1]);
      match lines[|lines| - 1]
      case Label(name) => p.(labels := p.labels[name := |p.insns|])
      case Code(insn) => p.(insns := p.insns + [insn])
  }

  // ----- State -----

  /** Outcome of the last comparison; Unset before the first. */
  datatype Comparison = Unset | Equal | Less | Greater {
    /** The flag bits the machine keeps for this outcome. */
    function Bits(): bv32 {
      match this
      case Unset => 0
      case Equal => 1
      case Less => 2
      case Greater => 4
    }
  }

  function Compare(x: bv32, y: bv32): Comparison {
    if x == y then Equal else if Val(x) > Val(y) then Greater else Less
  }

  datatype Status = Running | Halted | Exited(code: bv32)

  /** Whose local variables: those of the outermost code, or of the call that returns to `ret`. */
  datatype Frame = Outermost | ReturningTo(ret: nat)

  datatype LocalKey = LocalKey(frame: Frame, id: bv32)

  type Window = w: seq<bv8> | |w| == 4 witness [0, 0, 0, 0]

  /** `stack` holds the return indices the machine still knows; `shadow` those of every call not yet
      returned from. They differ only after a call made with a full stack. */
  datatype State = State(
    pc: nat,
    data: Data,
    flags: Comparison,
    stack: seq<nat>,
    shadow: seq<nat>,
    locals: map<LocalKey, Window>,
    status: Status)

  const STACK_CAPACITY: nat := 128
  /** Number of 3-byte cells in the stack area of virtual memory. */
  const SHADOW_CAPACITY: nat := 21845
  const STACK_ERROR: bv32 := 0xEF32
  const MEMORY_SIZE: nat := 0x10_0000
  /** Below this address memory belongs to the machine: locals and call cells. */
  const PROGRAM_LO: nat := 0x2_0000

  function TopFrame(s: State): Frame {
    if s.stack == [] then Outermost else ReturningTo(s.stack[|s.stack| - 1])
  }

  function Local(s: State, k: LocalKey): Window {
    if k in s.locals then s.locals[k] else [0, 0, 0, 0]
  }

  // ----- Operands -----

  function PlaceOf(o: Operand, regs: Registers): Place
    requires !o.LabelRef?
  {
    match o
    case NoOperand => Nothing
    case Reg(r, v) => InRegister(r, v)
    case Absolute(x, v) => InMemory(x, v)
    case Based(b, bw, disp, v) => InMemory(Add(Low(regs[b as nat], bw), disp), v)
    case Indexed(b, bw, d, dw, v) => InMemory(Add(Low(regs[b as nat], bw), Low(regs[d as nat], dw)), v)
    case Literal(x, v) => Constant(Low(x, v), v)
    case Flag(c) => Constant(c.Mask(), Byte)
  }

  /** The operand is a value the program may read. */
  predicate Available(o: Operand, d: Data) {
    && !o.LabelRef?
    && !o.NoOperand?
    && Readable(PlaceOf(o, d.regs), PlaceOf(o, d.regs).v, PROGRAM_LO, |d.mem|)
  }

  function ValueOf(o: Operand, d: Data): bv32
    requires Available(o, d)
  {
    var p := PlaceOf(o, d.regs);
    Read(p, p.v, d.regs, d.mem)
  }

  predicate GuardDefined(o: Operand, d: Data) {
    o.NoOperand? || Available(o, d)
  }

  /** A condition shares a bit with the flags. */
  predicate Meets(condition: bv32, flags: bv32) { condition & flags != 0 }

  /** A control-flow instruction is taken when it has no condition or its condition meets the flags. */
  predicate Taken(o: Operand, s: State)
    requires GuardDefined(o, s.data)
  {
    o.NoOperand? || Meets(ValueOf(o, s.data), s.flags.Bits())
  }

  // ----- One step -----

  predicate IsTarget(p: Prog, o: Operand) {
    o.LabelRef? && o.name in p.labels && p.labels[o.name] < |p.insns|
  }

  function KeyOf(o: Operand, s: State): LocalKey
    requires Available(o, s.data)
  {
    LocalKey(TopFrame(s), ValueOf(o, s.data))
  }

  /** What a program must respect at the current instruction: it stays inside its code, jumps and
      calls go to labels, memory operands lie in program memory, local variables are among the keys
      `u`, and no C arithmetic is undefined. */
  predicate Defined(p: Prog, u: set<LocalKey>, s: State) {
    && s.status == Running
    && s.pc < |p.insns|
    && |s.data.mem| == MEMORY_SIZE
    && var i := p.insns[s.pc];
       var inside := s.pc + 1 < |p.insns|;
       if i.op.JMP? then
         IsTarget(p, i.o1) && GuardDefined(i.o2, s.data) && (Taken(i.o2, s) || inside)
       else if i.op.CALL? then
         IsTarget(p, i.o1) && GuardDefined(i.o2, s.data) && inside
       else if i.op.RET? then
         GuardDefined(i.o1, s.data) && (Taken(i.o1, s) || inside)
       else if i.op.EXIT? then
         GuardDefined(i.o1, s.data)
       else if i.op.CMP? then
         Available(i.o1, s.data) && Available(i.o2, s.data) && inside
       else if i.op.PUT? then
         Available(i.o1, s.data) && Available(i.o2, s.data) && KeyOf(i.o1, s) in u && inside
       else if i.op.GET? then
         && !i.o1.LabelRef?
         && !i.o1.NoOperand?
         && Writable(PlaceOf(i.o1, s.data.regs), PROGRAM_LO, |s.data.mem|)
         && Available(i.o2, s.data)
         && KeyOf(i.o2, s) in u
         && inside
       else
         && !i.o1.LabelRef?
         && !i.o2.LabelRef?
         && ExecDefined(i.op, PlaceOf(i.o1, s.data.regs), PlaceOf(i.o2, s.data.regs), s.data, PROGRAM_LO)
         && inside
  }

  function Next(s: State): State {
    s.(pc := s.pc + 1)
  }

  function Step(p: Prog, u: set<LocalKey>, s: State): State
    requires Defined(p, u, s)
  {
    var i := p.insns[s.pc];
    if i.op.JMP? then
      if Taken(i.o2, s) then s.(pc := p.labels[i.o1.name]) else Next(s)
    else if i.op.CALL? then
      if Taken(i.o2, s) then Enter(p.labels[i.o1.name], s) else Next(s)
    else if i.op.RET? then
      if Taken(i.o1, s) then Leave(s) else Next(s)
    else if i.op.EXIT? then
      s.(status := Exited(if i.o1.NoOperand? then 0 else ValueOf(i.o1, s.data)))
    else if i.op.CMP? then
      Next(s.(flags := Compare(ValueOf(i.o1, s.data), ValueOf(i.o2, s.data))))
    else if i.op.PUT? then
      Next(PutLocal(KeyOf(i.o1, s), PlaceOf(i.o2, s.data.regs).v, ValueOf(i.o2, s.data), s))
    else if i.op.GET? then
      var x := Load(Local(s, KeyOf(i.o2, s)), 0, PlaceOf(i.o2, s.data.regs).v);
      Next(s.(data := Write(PlaceOf(i.o1, s.data.regs), x, s.data)))
    else
      Next(s.(data := Exec(i.op, PlaceOf(i.o1, s.data.regs), PlaceOf(i.o2, s.data.regs), s.data)))
  }

  function PutLocal(k: LocalKey, w: Width, x: bv32, s: State): State {
    s.(locals := s.locals[k := Store(Local(s, k), 0, w, x)])
  }

  /** A call: the return index is recorded, silently dropped when 128 calls are already open, and
      the program ends with an error when the call cells run out. */
  function Enter(target: nat, s: State): State {
    if |s.shadow| >= SHADOW_CAPACITY then s.(status := Exited(STACK_ERROR))
    else
      s.(pc := target,
      stack := if |s.stack| < STACK_CAPACITY then s.stack + [s.pc + 1] else s.stack,
      shadow := s.shadow + [s.pc + 1])
  }

  /** A return: to the last recorded index, or out of the program when there is none. */
  function Leave(s: State): State {
    var shadow := if s.shadow == [] then [] else s.shadow[..|s.shadow| - 1];
    if s.stack == [] then s.(shadow := shadow, status := Halted)
    else s.(pc := s.stack[|s.stack| - 1], stack := s.stack[..|s.stack| - 1], shadow := shadow)
  }

  // ----- Runs -----

  /** The first `n` steps, or those before the program ends, are all defined. */
  predicate CanRun(p: Prog, u: set<LocalKey>, n: nat, s: State)
    decreases n
  {
    n == 0 || s.status != Running || (Defined(p, u, s) && CanRun(p, u, n - 1, Step(p, u, s)))
  }

  function Run(p: Prog, u: set<LocalKey>, n: nat, s: State): State
    requires CanRun(p, u, n, s)
    decreases n
  {
    if n == 0 || s.status != Running then s else Run(p, u, n - 1, Step(p, u, s))
  }

  /** Registers, memory, flags and stack as the machine starts. */
  function Initial(mem: Memory): State {
    State(0, Data(seq(16, _ => 0), mem), Unset, [], [], map[], Running)
  }
}
