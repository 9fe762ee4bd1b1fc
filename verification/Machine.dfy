/** The byte-code machine as a function on states: fetch, decode, dispatch and the handlers of
    control flow and local variables, over a code image indexed by bytes. */
module Machine {
  import opened Words
  import opened Alu
  import opened Program
  import opened Encoding

  type Code = seq<bv8>

  datatype MState = MState(
    vip: bv32,
    data: Data,
    flag: bv32,
    stack: seq<bv32>,
    status: Status)

  const HALT: bv32 := 0xFF_FFFF
  const SHADOW_LO: nat := 0x1_0000
  const SHADOW_HI: nat := 0x1_FFFF
  const FLAG_ERR: bv32 := 8

  // ----- Fetch -----

  datatype Header = Header(
    left: bv8, t1: bv2, v1: bv2, l1: bv2,
    xor: bv2, t2: bv2, v2: bv2, l2: bv2, right: bv8)

  function Fetch(h0: bv8, h1: bv8, h2: bv8): Header {
    Header(
      (h0 & 0xF8) >> 3,
      ((h0 & 0x06) >> 1) as bv2,
      (((h0 & 1) << 1) | ((h1 & 0x80) >> 7)) as bv2,
      ((h1 & 0x60) >> 5) as bv2,
      ((h1 & 0x18) >> 3) as bv2,
      ((h1 & 0x06) >> 1) as bv2,
      (((h1 & 1) << 1) | ((h2 & 0x80) >> 7)) as bv2,
      ((h2 & 0x60) >> 5) as bv2,
      h2 & 0x1F)
  }

  // ----- Decode -----

  /** A decoded operand; `at` is where its bytes start and `l` how many there are. */
  datatype RawOperand = RawOperand(t: bv2, v: bv2, l: nat, at: nat)

  datatype Decoded = Decoded(opcode: bv8, op1: RawOperand, op2: RawOperand)

  function DecodeOpcode(h: Header): (c: bv8)
    ensures c < 32
  {
    var left := if h.xor == 2 || h.xor == 3 then !h.left else h.left;
    var right := if h.xor == 1 || h.xor == 3 then !h.right else h.right;
    (right ^ left) & 0x1F
  }

  function Decode(vip: nat, h: Header): Decoded {
    var n1 := ByteCount(h.l1);
    Decoded(
      DecodeOpcode(h),
      RawOperand(h.t1, h.v1, n1, vip + 3),
      RawOperand(h.t2, h.v2, ByteCount(h.l2), vip + 3 + n1))
  }

  function DecodeAt(code: Code, vip: nat): Decoded
    requires vip + 3 <= |code|
  {
    Decode(vip, Fetch(code[vip], code[vip + 1], code[vip + 2]))
  }

  /** Position of the fallthrough pointer, right after the operands present. */
  function LinkAt(vip: nat, d: Decoded): nat {
    vip + (if d.op1.t != 0 then d.op1.l else 0) + (if d.op2.t != 0 then d.op2.l else 0) + 3
  }

  function ReadLink(code: Code, at: nat): bv32
    requires at + 3 <= |code|
  {
    (code[at] as bv32 | (code[at + 1] as bv32 << 8) | (code[at + 2] as bv32 << 16)) ^ LINK_KEY
  }

  // ----- Operands -----

  function WidthOf(v: bv2): Width
    requires v != 0
  {
    if v == 1 then Byte else if v == 2 then Short else Int
  }

  /** The operand can be resolved: it has a width, its bytes lie in the code, and a memory operand is
      long enough to carry a displacement. A three-byte literal is read with the byte after it. */
  predicate Resolvable(code: Code, o: RawOperand) {
    o.t != 0 ==>
      && o.v != 0
      && 1 <= o.l <= 4
      && o.at + (if o.l == 3 then 4 else o.l) <= |code|
      && (o.t == 2 ==> o.l >= 2)
  }

  /** The displacement bytes after the leading byte of a memory operand. */
  function Displacement(code: Code, o: RawOperand): bv32
    requires Resolvable(code, o) && o.t == 2
  {
    if o.l == 2 then code[o.at + 1] as bv32
    else if o.l == 3 then (code[o.at + 1] as bv32 << 8) | code[o.at + 2] as bv32
    else (code[o.at + 1] as bv32 << 16) | (code[o.at + 2] as bv32 << 8) | code[o.at + 3] as bv32
  }

  /** Truncation by the two width bits of a compound operand; 0 truncates nothing. */
  function LowBy(x: bv32, v: bv8): bv32 {
    if v == 1 then x & 0xFF else if v == 2 then x & 0xFFFF else x
  }

  /** The address of a memory operand. */
  function MemoryOffset(code: Code, o: RawOperand, regs: Registers): bv32
    requires Resolvable(code, o) && o.t == 2
  {
    var c0, c1 := code[o.at], code[o.at + 1];
    if c0 & 0x40 != 0 then
      var rb := (((c0 & 0x03) << 2) | ((c1 & 0xC0) >> 6)) as bv4;
      var rd := ((c1 & 0x3C) >> 2) as bv4;
      Add(LowBy(regs[rb as nat], (c0 & 0x30) >> 4), LowBy(regs[rd as nat], (c0 & 0x0C) >> 2))
    else
      var base := if c0 & 0x80 != 0 then LowBy(regs[(c0 & 0x0F) as bv4 as nat], (c0 & 0x30) >> 4) else 0;
      Add(base, Displacement(code, o))
  }

  /** The bytes of a literal as a number. */
  function LiteralData(code: Code, at: nat, l: nat): bv32
    requires 1 <= l <= 4 && at + (if l == 3 then 4 else l) <= |code|
  {
    if l == 1 then code[at] as bv32
    else if l == 2 then (code[at] as bv32 << 8) | code[at + 1] as bv32
    else
      var data := Cat(code[at], code[at + 1], code[at + 2], code[at + 3]);
      if l == 3 then (data & 0xFFFF_FF00) >> 8 else data
  }

  function Immediate(code: Code, o: RawOperand): bv32
    requires Resolvable(code, o) && o.t == 3
  {
    Low(LiteralData(code, o.at, o.l), WidthOf(o.v))
  }

  function Resolve(code: Code, o: RawOperand, regs: Registers): Place
    requires Resolvable(code, o)
  {
    if o.t == 0 then Nothing
    else if o.t == 1 then InRegister((code[o.at] & 0x0F) as bv4, WidthOf(o.v))
    else if o.t == 2 then InMemory(MemoryOffset(code, o, regs), WidthOf(o.v))
    else Constant(Immediate(code, o), WidthOf(o.v))
  }

  // ----- Dispatch -----

  /** The operation the decision tree of `dispatch` reaches. */
  function Select(c: bv8): Opcode
    requires c < 32
  {
    if c % 6 == 0 then
      if c * 6 == 0 then MOV
      else if c < 10 then MUL
      else if c > 20 then PACKLO
      else if c % 9 == 0 then SHR
      else RET
    else if c % 3 == 0 then
      if c < 10 then
        if c & 3 == 3 then GET else CMP
      else if c % 5 == 0 then OR
      else if c % 7 == 0 then SWAP
      else FORK
    else if c % 2 == 0 then
      if c > 10 then
        if c < 20 then
          if c % 7 == 0 then AND else XOR
        else if c > 20 then
          if c % 11 == 0 then REV else ROR
        else SYSCALL
      else if c < 10 then
        if c & 7 == 0 then MOD
        else if c & 3 == 0 then ADD
        else PUT
      else JMP
    else if c & 3 == 1 then
      if c > 20 then ROL
      else if c > 10 then
        if c * 3 > 50 then SHL else EXIT
      else if c % 5 == 0 then SUB
      else LEA
    else
      if c > 20 then PACKHI
      else if c < 10 then DIV
      else if c % 11 == 0 then CALL
      else NOT
  }

  // ----- Call cells in memory -----

  /** The address of the i-th call cell. */
  function Cell(i: nat): nat {
    SHADOW_LO + 3 * i
  }

  predicate CellEmpty(mem: Memory, i: nat)
    requires |mem| == MEMORY_SIZE && i <= SHADOW_CAPACITY
  {
    mem[Cell(i)] == 0 && mem[Cell(i) + 1] == 0 && mem[Cell(i) + 2] == 0
  }

  /** The first empty call cell from `i` on, or the end of the area. */
  function FirstEmpty(mem: Memory, i: nat): (r: nat)
    requires |mem| == MEMORY_SIZE && i <= SHADOW_CAPACITY
    ensures i <= r <= SHADOW_CAPACITY
    decreases SHADOW_CAPACITY - i
  {
    if i == SHADOW_CAPACITY || CellEmpty(mem, i) then i else FirstEmpty(mem, i + 1)
  }

  function SetCell(mem: Memory, i: nat, x: bv32): (m: Memory)
    requires |mem| == MEMORY_SIZE && i < SHADOW_CAPACITY
    ensures |m| == MEMORY_SIZE
  {
    mem[Cell(i) := B2(x)][Cell(i) + 1 := B1(x)][Cell(i) + 2 := B0(x)]
  }

  // ----- Local variables -----

  /** The word without its lowest `i` bytes. */
  function Shifted(x: bv32, i: nat): bv32
    requires i < 4
  {
    if i == 0 then x else if i == 1 then x >> 8 else if i == 2 then x >> 16 else x >> 24
  }

  /** The hash of the first `n` bytes of a frame key; each round mixes in all higher bytes too. */
  function KeyHash(base: bv32, n: nat): bv32
    requires n <= 4
  {
    if n == 0 then 0x4571_CBE2 else Mul(Xor(KeyHash(base, n - 1), Shifted(base, n - 1)), 0x346_6875)
  }

  /** Where the window of a local variable starts. */
  function Hash(base: bv32, id: bv32): (r: bv32)
    ensures Val(r) <= 0xFFFF
  {
    var h := Mul(Xor(KeyHash(base, 4), id), 0x857_C4B2);
    ValHalf(h);
    Low(h, Short)
  }

  lemma ValHalf(x: bv32)
    ensures Val(Low(x, Short)) <= 0xFFFF
  {
    assert Low(x, Short) == x & 0xFFFF;
    assert B3(x & 0xFFFF) == 0 && B2(x & 0xFFFF) == 0;
    hide B0, B1, B2, B3;
    ZeroByte();
    OfByteBound(B1(x & 0xFFFF));
    OfByteBound(B0(x & 0xFFFF));
  }

  /** The return address on top of the stack, or 0 when there is none. */
  function BaseKey(m: MState): bv32 {
    if Top(m.stack) == 0xFFFF_FFFF then 0 else Top(m.stack)
  }

  // ----- One step -----

  predicate GuardReadable(p: Place, d: Data) {
    p.Nothing? || Readable(p, p.v, 0, |d.mem|)
  }

  predicate GuardMet(p: Place, m: MState)
    requires GuardReadable(p, m.data)
  {
    p.Nothing? || Meets(Read(p, p.v, m.data.regs, m.data.mem), m.flag)
  }

  function Compared(flag: bv32, x: bv32, y: bv32): bv32 {
    if flag & FLAG_ERR != 0 || x == y then 1 else if Val(x) > Val(y) then 4 else if Val(x) < Val(y) then 2 else 0
  }

  /** Unless the error flag is set, the nested conditional is the outcome of the comparison. */
  lemma ComparedIs(flag: bv32, x: bv32, y: bv32)
    requires flag & FLAG_ERR == 0
    ensures Compared(flag, x, y) == Compare(x, y).Bits()
  {
    if Val(x) == Val(y) {
      ValInjective(x, y);
    }
    hide Val;
  }

  predicate ReadableNow(p: Place, d: Data) {
    !p.Nothing? && Readable(p, p.v, 0, |d.mem|)
  }

  /** The instruction at the current address stays within the code, within virtual memory and within
      defined C behaviour. */
  predicate Safe(code: Code, m: MState) {
    && m.status == Running
    && |m.data.mem| == MEMORY_SIZE
    && Val(m.vip) + 3 <= |code|
    && var d := DecodeAt(code, Val(m.vip));
       && LinkAt(Val(m.vip), d) + 3 <= |code|
       && Resolvable(code, d.op1)
       && Resolvable(code, d.op2)
       && SafeOp(Select(d.opcode), Resolve(code, d.op1, m.data.regs), Resolve(code, d.op2, m.data.regs), m)
  }

  predicate SafeOp(op: Opcode, p1: Place, p2: Place, m: MState) {
    && |m.data.mem| == MEMORY_SIZE
    && if op.JMP? || op.CALL? then ReadableNow(p1, m.data) && GuardReadable(p2, m.data)
       else if op.RET? || op.EXIT? then GuardReadable(p1, m.data)
       else if op.CMP? then ReadableNow(p1, m.data) && ReadableNow(p2, m.data)
       else if op.PUT? then
         ReadableNow(p1, m.data) && ReadableNow(p2, m.data)
       else if op.GET? then
         ReadableNow(p2, m.data) && Writable(p1, 0, MEMORY_SIZE)
       else ExecDefined(op, p1, p2, m.data, 0)
  }

  /** Where a handler's result leads: 0 means fall through, anything else one more than the target. */
  function Continue(ret: bv32, link: bv32, m: MState): MState {
    var vip := if ret != 0 then ret - 1 else link;
    m.(vip := vip, status := if vip == HALT then Halted else Running)
  }

  /** A return address is entered in the first empty cell and, if there is room, on the stack. */
  function Opened(link: bv32, m: MState): MState
    requires |m.data.mem| == MEMORY_SIZE && FirstEmpty(m.data.mem, 0) < SHADOW_CAPACITY
  {
    m.(data := m.data.(mem := SetCell(m.data.mem, FirstEmpty(m.data.mem, 0), link)),
      stack := if |m.stack| < STACK_CAPACITY then m.stack + [link] else m.stack)
  }

  function Call(target: bv32, link: bv32, m: MState): MState
    requires |m.data.mem| == MEMORY_SIZE
  {
    if FirstEmpty(m.data.mem, 0) == SHADOW_CAPACITY then m.(status := Exited(STACK_ERROR))
    else Continue(target + 1, link, Opened(link, m))
  }

  function Cleared(mem: Memory): Memory
    requires |mem| == MEMORY_SIZE
  {
    var i := FirstEmpty(mem, 0);
    if i == 0 then mem else SetCell(mem, i - 1, 0)
  }

  /** The newest of a list of return addresses, all ones when there is none. */
  function Top(stack: seq<bv32>): bv32 {
    if stack == [] then 0xFFFF_FFFF else stack[|stack| - 1]
  }

  function Rest(stack: seq<bv32>): seq<bv32> {
    if stack == [] then [] else stack[..|stack| - 1]
  }

  /** The last used cell is cleared and the newest return address popped. */
  function Closed(m: MState): MState
    requires |m.data.mem| == MEMORY_SIZE
  {
    m.(data := m.data.(mem := Cleared(m.data.mem)), stack := Rest(m.stack))
  }

  function Return(link: bv32, m: MState): MState
    requires |m.data.mem| == MEMORY_SIZE
  {
    Continue((if Top(m.stack) == 0xFFFF_FFFF then HALT else Top(m.stack)) + 1, link, Closed(m))
  }

  /** The address of the local variable whose number `p` holds. */
  function LocalAt(p: Place, m: MState): (a: nat)
    requires ReadableNow(p, m.data)
    ensures a <= 0xFFFF
  {
    Val(Hash(BaseKey(m), Read(p, p.v, m.data.regs, m.data.mem)))
  }

  function PutData(p1: Place, p2: Place, m: MState): Data
    requires SafeOp(PUT, p1, p2, m)
  {
    hide Val, Read, Store, LocalAt;
    m.data.(mem := Store(m.data.mem, LocalAt(p1, m), p2.v, Read(p2, p2.v, m.data.regs, m.data.mem)))
  }

  function GetData(p1: Place, p2: Place, m: MState): Data
    requires SafeOp(GET, p1, p2, m)
  {
    hide Val, Read, Load, Write, LocalAt, ExecDefined;
    Write(p1, Load(m.data.mem, LocalAt(p2, m), p2.v), m.data)
  }

  function Perform(op: Opcode, p1: Place, p2: Place, link: bv32, m: MState): MState
    requires SafeOp(op, p1, p2, m)
  {
    hide Exec, ExecDefined, PutData, GetData, Val, Meets, Compared, Call, Return;
    var regs, mem := m.data.regs, m.data.mem;
    if op.JMP? then
      Continue(if GuardMet(p2, m) then Read(p1, p1.v, regs, mem) + 1 else 0, link, m)
    else if op.CALL? then
      if GuardMet(p2, m) then Call(Read(p1, p1.v, regs, mem), link, m) else Continue(0, link, m)
    else if op.RET? then
      if GuardMet(p1, m) then Return(link, m) else Continue(0, link, m)
    else if op.EXIT? then
      m.(status := Exited(if p1.Nothing? then 0 else Read(p1, p1.v, regs, mem)))
    else if op.CMP? then
      Continue(0, link, m.(flag := Compared(m.flag, Read(p1, p1.v, regs, mem), Read(p2, p2.v, regs, mem))))
    else if op.PUT? then
      Continue(0, link, m.(data := PutData(p1, p2, m)))
    else if op.GET? then
      Continue(0, link, m.(data := GetData(p1, p2, m)))
    else
      Continue(0, link, m.(data := Exec(op, p1, p2, m.data)))
  }

  function Step(code: Code, m: MState): MState
    requires Safe(code, m)
  {
    var d := DecodeAt(code, Val(m.vip));
    Perform(
      Select(d.opcode),
      Resolve(code, d.op1, m.data.regs),
      Resolve(code, d.op2, m.data.regs),
      ReadLink(code, LinkAt(Val(m.vip), d)),
      m)
  }

  // ----- Runs -----

  predicate CanRun(code: Code, n: nat, m: MState)
    decreases n
  {
    hide Safe, Step;
    n == 0 || m.status != Running || (Safe(code, m) && CanRun(code, n - 1, Step(code, m)))
  }

  function Run(code: Code, n: nat, m: MState): MState
    requires CanRun(code, n, m)
    decreases n
  {
    hide Safe, Step;
    if n == 0 || m.status != Running then m else Run(code, n - 1, Step(code, m))
  }

  /** The state `emulate(0)` starts from. */
  function Boot(mem: Memory): MState {
    MState(0, Data(seq(16, _ => 0), mem), 0, [], Running)
  }
}
