/** What the data instructions compute: the specification the C handlers are proved against and
    the meaning the in-order source programs are given. */
module Alu {
  import opened Words

  /** The 28 operations, in the order that fixes their numbers. */
  datatype Opcode =
    | MOV | LEA | PUT | GET
    | ADD | SUB | MUL | DIV | MOD
    | CMP | JMP | CALL | RET | EXIT
    | AND | OR | XOR | SHL | SHR | NOT
    | SYSCALL | SWAP | REV | PACKHI | PACKLO | ROL | ROR | FORK

  // ----- Truncation and merging -----

  /** The low bits of a word (POST_V_TRUNCATION). */
  function Low(x: bv32, v: Width): bv32 {
    match v
    case Byte => x & 0xFF
    case Short => x & 0xFFFF
    case Int => x
  }

  lemma LowTwice(x: bv32, v: Width)
    ensures Low(Low(x, v), v) == Low(x, v)
  {
  }

  /** The bits of a word above the given width (PRE_V_TRUNCATION). */
  function High(x: bv32, v: Width): bv32 {
    match v
    case Byte => x & 0xFFFF_FF00
    case Short => x & 0xFFFF_0000
    case Int => 0
  }

  // ----- Memory, big-endian -----

  type Memory = seq<bv8>

  function Load(mem: Memory, a: nat, v: Width): bv32
    requires a + v.Bytes() <= |mem|
  {
    match v
    case Byte => Cat(0, 0, 0, mem[a])
    case Short => Cat(0, 0, mem[a], mem[a + 1])
    case Int => Cat(mem[a], mem[a + 1], mem[a + 2], mem[a + 3])
  }

  /** Writes the low bits of `x`, most significant byte first, and nothing else. */
  function Store(mem: Memory, a: nat, v: Width, x: bv32): (m: Memory)
    requires a + v.Bytes() <= |mem|
    ensures |m| == |mem|
    ensures forall i :: 0 <= i < |mem| && !(a <= i < a + v.Bytes()) ==> m[i] == mem[i]
  {
    match v
    case Byte => mem[a := B0(x)]
    case Short => mem[a := B1(x)][a + 1 := B0(x)]
    case Int => mem[a := B3(x)][a + 1 := B2(x)][a + 2 := B1(x)][a + 3 := B0(x)]
  }

  /** Loading at the width of the last store gives back the stored bits. */
  lemma LoadStore(mem: Memory, a: nat, v: Width, x: bv32)
    requires a + v.Bytes() <= |mem|
    ensures Load(Store(mem, a, v, x), a, v) == Low(x, v)
  {
    hide Cat, B0, B1, B2, B3;
    CatBytes(0, 0, 0, B0(x));
    LowBytes(x, v);
  }

  /** The low bits of a word, byte by byte. */
  lemma LowBytes(x: bv32, v: Width)
    ensures Low(x, v) == match v
                         case Byte => Cat(0, 0, 0, B0(x))
                         case Short => Cat(0, 0, B1(x), B0(x))
                         case Int => Cat(B3(x), B2(x), B1(x), B0(x))
  {
    match v
    case Byte => LowByte(x);
    case Short => LowShort(x);
    case Int => BytesCat(x);
  }

  lemma LowByte(x: bv32)
    ensures x & 0xFF == Cat(0, 0, 0, B0(x))
  {
  }

  lemma LowShort(x: bv32)
    ensures x & 0xFFFF == Cat(0, 0, B1(x), B0(x))
  {
  }

  // ----- Halves and bit reversal -----

  /** Exchanges the halves of the low bits. */
  function SwapHalves(x: bv32, v: Width): bv32 {
    match v
    case Byte => ((x & 0xF0) >> 4) | ((x & 0x0F) << 4)
    case Short => Cat(0, 0, B0(x), B1(x))
    case Int => Cat(B1(x), B0(x), B3(x), B2(x))
  }

  /** Bit i of the result is bit 7 - i of the argument. */
  function ReverseByte(b: bv8): bv8 {
    ((b & 0x01) << 7) | ((b & 0x02) << 5) | ((b & 0x04) << 3) | ((b & 0x08) << 1)
    | ((b & 0x10) >> 1) | ((b & 0x20) >> 3) | ((b & 0x40) >> 5) | ((b & 0x80) >> 7)
  }

  /** Reverses the low bits. */
  function ReverseBits(x: bv32, v: Width): bv32 {
    match v
    case Byte => Cat(0, 0, 0, ReverseByte(B0(x)))
    case Short => Cat(0, 0, ReverseByte(B0(x)), ReverseByte(B1(x)))
    case Int => Cat(ReverseByte(B0(x)), ReverseByte(B1(x)), ReverseByte(B2(x)), ReverseByte(B3(x)))
  }

  /** The upper half of the source in the lower half of the destination. */
  function PackHigh(d: bv32, s: bv32, v: Width): bv32 {
    match v
    case Byte => (d & 0xF0) | ((s & 0xF0) >> 4)
    case Short => (d & 0xFF00) | ((s & 0xFF00) >> 8)
    case Int => (d & 0xFFFF_0000) | ((s & 0xFFFF_0000) >> 16)
  }

  /** The lower half of the source in the upper half of the destination. */
  function PackLow(d: bv32, s: bv32, v: Width): bv32 {
    match v
    case Byte => (d & 0x0F) | ((s & 0x0F) << 4)
    case Short => (d & 0x00FF) | ((s & 0x00FF) << 8)
    case Int => (d & 0x0000_FFFF) | ((s & 0x0000_FFFF) << 16)
  }

  predicate IsRotation(r: bv32, v: Width) {
    match v
    case Byte => r < 8
    case Short => r < 16
    case Int => r < 32
  }

  /** The rotation amount in force at a width. */
  function RotateBy(s: bv32, v: Width): (r: bv32)
    ensures IsRotation(r, v)
  {
    match v
    case Byte => s & 7
    case Short => s & 15
    case Int => s & 31
  }

  /** The left rotation of a value of the given width. At widths below 32 bits the bits shifted out
      of the value stay in the result, as in the handler. */
  function RotateLeft(d: bv32, r: bv32, v: Width): bv32
    requires IsRotation(r, v)
  {
    match v
    case Byte => (d << r) | (d >> (8 - r))
    case Short => (d << r) | (d >> (16 - r))
    case Int => (d << r) | (d >> (32 - r))
  }

  function RotateRight(d: bv32, r: bv32, v: Width): bv32
    requires IsRotation(r, v)
  {
    match v
    case Byte => (d >> r) | (d << (8 - r))
    case Short => (d >> r) | (d << (16 - r))
    case Int => (d >> r) | (d << (32 - r))
  }

  // ----- Two-operand arithmetic -----

  predicate IsBinary(op: Opcode) {
    op.ADD? || op.SUB? || op.MUL? || op.DIV? || op.MOD? || op.AND? || op.OR? || op.XOR? || op.SHL? || op.SHR?
  }

  /** Division by zero and shifts by 32 or more are undefined in C. */
  predicate BinaryDefined(op: Opcode, d: bv32, s: bv32) {
    match op
    case DIV => Val(s) != 0
    case MOD => Val(s) != 0
    case SHL => s < 32
    case SHR => s < 32
    case _ => true
  }

  function Binary(op: Opcode, d: bv32, s: bv32): bv32
    requires IsBinary(op) && BinaryDefined(op, d, s)
  {
    match op
    case ADD => Add(d, s)
    case SUB => Sub(d, s)
    case MUL => Mul(d, s)
    case DIV => Div(d, s)
    case MOD => Mod(d, s)
    case AND => d & s
    case OR => d | s
    case XOR => d ^ s
    case SHL => d << s
    case SHR => d >> s
  }

  // ----- Operands -----

  /** An operand after its address has been computed. */
  datatype Place =
    | Nothing
    | InRegister(r: bv4, v: Width)
    | InMemory(a: bv32, v: Width)
    | Constant(x: bv32, v: Width)

  type Registers = regs: seq<bv32> | |regs| == 16 witness seq(16, _ => 0)

  /** The place can be read at width `w`; memory below `lo` is off limits. */
  predicate Readable(p: Place, w: Width, lo: nat, size: nat) {
    && !p.Nothing?
    && (p.InMemory? ==> lo <= Val(p.a) && Val(p.a) + w.Bytes() <= size)
  }

  function Read(p: Place, w: Width, regs: Registers, mem: Memory): bv32
    requires Readable(p, w, 0, |mem|)
  {
    match p
    case InRegister(r, _) => Low(regs[r as nat], w)
    case InMemory(a, _) => Load(mem, Val(a), w)
    case Constant(x, _) => Low(x, w)
  }

  datatype Data = Data(regs: Registers, mem: Memory)

  /** The place can be a destination. A store that widens its data reads three bytes past the
      destination address, so these must exist. */
  predicate Writable(p: Place, lo: nat, size: nat) {
    p.InMemory? ==> lo <= Val(p.a) && Val(p.a) + 4 <= size
  }

  /** Writes a result. A register keeps the bits above the operand's width and is ORed with the
      whole of the result; memory receives the low bits only; a constant destination is ignored. */
  function Write(p: Place, x: bv32, st: Data): Data
    requires Writable(p, 0, |st.mem|)
  {
    match p
    case InRegister(r, v) => st.(regs := st.regs[r as nat := High(st.regs[r as nat], v) | x])
    case InMemory(a, v) => st.(mem := Store(st.mem, Val(a), v, x))
    case _ => st
  }

  // ----- Data instructions -----

  predicate IsMove(op: Opcode) { op.MOV? || op.NOT? || op.SWAP? || op.REV? }

  predicate IsPack(op: Opcode) { op.PACKHI? || op.PACKLO? }

  predicate IsRotate(op: Opcode) { op.ROL? || op.ROR? }

  predicate IsData(op: Opcode) { IsBinary(op) || IsMove(op) || IsPack(op) || IsRotate(op) }

  /** The width at which the destination is read. */
  function DestWidth(op: Opcode, p1: Place, p2: Place): Width
    requires !p1.Nothing? && !p2.Nothing?
  {
    if IsPack(op) then p2.v else if p1.InRegister? && IsBinary(op) then Int else p1.v
  }

  /** The instruction reads its destination before writing it. Arithmetic on a constant destination
      reads nothing, packing and rotating do. */
  predicate ReadsDest(op: Opcode, p1: Place) {
    IsPack(op) || IsRotate(op) || (IsBinary(op) && !p1.Constant?)
  }

  /** No undefined C arithmetic: no division by zero, no shift by 32 or more. */
  predicate ComputeDefined(op: Opcode, p1: Place, d: bv32, s: bv32)
    requires !p1.Nothing?
  {
    && (IsBinary(op) && p1.InRegister? ==> BinaryDefined(op, d, s))
    && (IsBinary(op) && p1.InMemory? ==>
          if op.SHL? || op.SHR? then BinaryDefined(op, s, d) else BinaryDefined(op, d, s))
    && (IsRotate(op) && p1.v.Int? ==> RotateBy(s, Int) != 0)
  }

  /** Shifts of a memory destination take the shifted value from the source and the amount from
      memory. */
  function BinaryResult(op: Opcode, p1: Place, d: bv32, s: bv32): bv32
    requires IsBinary(op) && !p1.Nothing? && ComputeDefined(op, p1, d, s)
  {
    if p1.Constant? then 0
    else if p1.InRegister? then Low(Binary(op, d, s), p1.v)
    else if op.SHL? || op.SHR? then Binary(op, s, d)
    else Binary(op, d, s)
  }

  /** The result of a data instruction from its destination value `d` and source value `s`. */
  function Compute(op: Opcode, p1: Place, v2: Width, d: bv32, s: bv32): bv32
    requires IsData(op) && !p1.Nothing? && ComputeDefined(op, p1, d, s)
  {
    if IsBinary(op) then BinaryResult(op, p1, d, s)
    else if op.MOV? then s
    else if op.NOT? then if p1.InRegister? then Low(!s, p1.v) else !s
    else if op.SWAP? then SwapHalves(s, v2)
    else if op.REV? then ReverseBits(s, v2)
    else if op.PACKHI? then PackHigh(d, s, v2)
    else if op.PACKLO? then PackLow(d, s, v2)
    else if op.ROL? then RotateLeft(d, RotateBy(s, p1.v), p1.v)
    else RotateRight(d, RotateBy(s, p1.v), p1.v)
  }

  /** The operands of a data instruction exist and lie within memory at or above `lo`. */
  predicate OperandsReady(op: Opcode, p1: Place, p2: Place, lo: nat, size: nat) {
    && IsData(op)
    && !p1.Nothing?
    && !p2.Nothing?
    && Readable(p2, p2.v, lo, size)
    && (ReadsDest(op, p1) ==> Readable(p1, DestWidth(op, p1, p2), lo, size))
    && Writable(p1, lo, size)
  }

  function DestValue(op: Opcode, p1: Place, p2: Place, st: Data): bv32
    requires OperandsReady(op, p1, p2, 0, |st.mem|)
  {
    if ReadsDest(op, p1) then Read(p1, DestWidth(op, p1, p2), st.regs, st.mem) else 0
  }

  function SourceValue(op: Opcode, p1: Place, p2: Place, st: Data): bv32
    requires OperandsReady(op, p1, p2, 0, |st.mem|)
  {
    Read(p2, p2.v, st.regs, st.mem)
  }

  /** A data instruction stays within memory at or above `lo` and within defined C arithmetic. */
  predicate ExecDefined(op: Opcode, p1: Place, p2: Place, st: Data, lo: nat) {
    && OperandsReady(op, p1, p2, 0, |st.mem|)
    && OperandsReady(op, p1, p2, lo, |st.mem|)
    && ComputeDefined(op, p1, DestValue(op, p1, p2, st), SourceValue(op, p1, p2, st))
  }

  /** A value widened with the bytes of memory after its own (VMEM_EXPANSION). The byte at address
      a + k joins at byte k of the word, counted from the low end. */
  function Widened(mem: Memory, a: nat, v: Width, x: bv32): bv32
    requires a + 4 <= |mem|
  {
    match v
    case Byte => Or(x, Cat(mem[a + 3], mem[a + 2], mem[a + 1], 0))
    case Short => Or(x, Cat(mem[a + 3], mem[a + 2], 0, 0))
    case Int => x
  }

  /** The value handed to the store. PACKHI and PACKLO widen it at the width of their source, not of
      their destination, so a wider destination in memory receives some of the bytes that follow. */
  function Stored(op: Opcode, p1: Place, v2: Width, x: bv32, st: Data): bv32
    requires Writable(p1, 0, |st.mem|)
  {
    if IsPack(op) && p1.InMemory? then Widened(st.mem, Val(p1.a), v2, x) else x
  }

  /** The result of a data instruction, before it is stored. */
  function Result(op: Opcode, p1: Place, p2: Place, st: Data): bv32
    requires ExecDefined(op, p1, p2, st, 0)
  {
    Compute(op, p1, p2.v, DestValue(op, p1, p2, st), SourceValue(op, p1, p2, st))
  }

  function Exec(op: Opcode, p1: Place, p2: Place, st: Data): Data
    requires ExecDefined(op, p1, p2, st, 0)
  {
    Write(p1, Stored(op, p1, p2.v, Result(op, p1, p2, st), st), st)
  }
}
