/** The byte form of one instruction: header, operand bytes and fallthrough pointer. */
module Encoding {
  import opened Words
  import opened Alu
  import opened Program

  const LINK_KEY: bv32 := 0xDC_2606
  /** Stands for a label's offset until the offsets are known. */
  const PLACEHOLDER: bv32 := 0x11_2233

  /** The random bits drawn for one instruction. */
  datatype Draw = Draw(l: bv5, o: bv2)

  function Number(op: Opcode): bv5 {
    match op
    case MOV => 0
    case LEA => 1
    case PUT => 2
    case GET => 3
    case ADD => 4
    case SUB => 5
    case MUL => 6
    case DIV => 7
    case MOD => 8
    case CMP => 9
    case JMP => 10
    case CALL => 11
    case RET => 12
    case EXIT => 13
    case AND => 14
    case OR => 15
    case XOR => 16
    case SHL => 17
    case SHR => 18
    case NOT => 19
    case SYSCALL => 20
    case SWAP => 21
    case REV => 22
    case PACKHI => 23
    case PACKLO => 24
    case ROL => 25
    case ROR => 26
    case FORK => 27
  }

  /** The right half of the ciphered opcode. */
  function Cipher(draw: Draw, op: bv5): bv5 {
    if draw.o == 0 then draw.l ^ op
    else if draw.o == 1 then !(draw.l ^ op)
    else if draw.o == 2 then !draw.l ^ op
    else !(draw.l ^ !op)
  }

  // ----- Operands -----

  /** An operand as the assembler packs it: type, width, length code and value. */
  datatype Field = Field(t: bv2, v: bv2, l: bv2, x: bv32)

  /** One less than the number of bytes needed for a value. */
  function LengthCode(x: bv32): bv2 {
    if x < 0x100 then 0 else if x < 0x1_0000 then 1 else if x < 0x100_0000 then 2 else 3
  }

  function ByteCount(l: bv2): (n: nat)
    ensures 1 <= n <= 4
  {
    if l == 0 then 1 else if l == 1 then 2 else if l == 2 then 3 else 4
  }

  /** Displacements and absolute addresses have at most 20 bits. */
  predicate Encodable(o: Operand) {
    match o
    case Absolute(x, _) => x < 0x10_0000
    case Based(_, _, disp, _) => disp < 0x10_0000
    case _ => true
  }

  /** The leading byte of a based operand: marker bit, base width and base register. */
  function BaseByte(b: bv4, bw: Width): bv8 {
    0x80 | (bw.Code() as bv8 << 4) | b as bv8
  }

  /** The leading byte shifted past a displacement, and the displacement. */
  function Compound(base: bv8, disp: bv32, l: bv2): bv32 {
    (if l == 0 then base as bv32 << 8 else if l == 1 then base as bv32 << 16 else base as bv32 << 24) | disp
  }

  /** The packed form of an operand; a label reference is a 3-byte literal holding `target`. */
  function Pack(o: Operand, target: bv32): Field
    requires Encodable(o)
  {
    match o
    case NoOperand => Field(0, 0, 0, 0)
    case Reg(r, v) => Field(1, v.Code(), 0, r as bv32)
    case Absolute(x, v) => Field(2, v.Code(), LengthCode(x) + 1, x)
    case Based(b, bw, disp, v) =>
      var x := Compound(BaseByte(b, bw), disp, LengthCode(disp));
      Field(2, v.Code(), LengthCode(x), x)
    case Indexed(b, bw, d, dw, v) =>
      var x := 0x3000 | (bw.Code() as bv32 << 10) | (dw.Code() as bv32 << 8) | (b as bv32 << 4) | d as bv32;
      Field(2, v.Code(), 1, x << 2)
    case Literal(x, v) => Field(3, v.Code(), LengthCode(x), x)
    case Flag(c) => Field(3, 1, 0, c.Mask())
    case LabelRef(_) => Field(3, 3, 2, target)
  }

  /** The low bytes of a value, most significant first. */
  function BigEndian(x: bv32, l: bv2): (s: seq<bv8>)
    ensures |s| == ByteCount(l)
  {
    if l == 0 then [B0(x)]
    else if l == 1 then [B1(x), B0(x)]
    else if l == 2 then [B2(x), B1(x), B0(x)]
    else [B3(x), B2(x), B1(x), B0(x)]
  }

  function FieldBytes(f: Field): seq<bv8> {
    if f.t == 0 then [] else BigEndian(f.x, f.l)
  }

  /** How many bytes an operand takes; the target of a label does not matter. */
  function FieldSize(f: Field): nat {
    if f.t == 0 then 0 else ByteCount(f.l)
  }

  // ----- Instructions -----

  function HeaderWord(draw: Draw, op: bv5, f1: Field, f2: Field): bv32 {
    (draw.l as bv32 << 19)
    | (f1.t as bv32 << 17) | (f1.v as bv32 << 15) | (f1.l as bv32 << 13)
    | (draw.o as bv32 << 11)
    | (f2.t as bv32 << 9) | (f2.v as bv32 << 7) | (f2.l as bv32 << 5)
    | Cipher(draw, op) as bv32
  }

  /** Operands are packed in order, so a second operand comes with a first. */
  predicate EncodableInsn(i: Insn) {
    Encodable(i.o1) && Encodable(i.o2) && (i.o1.NoOperand? ==> i.o2.NoOperand?)
  }

  /** Header and operands, with label references resolved to `t1` and `t2`. */
  function Body(i: Insn, draw: Draw, t1: bv32, t2: bv32): seq<bv8>
    requires EncodableInsn(i)
  {
    var f1, f2 := Pack(i.o1, t1), Pack(i.o2, t2);
    BigEndian(HeaderWord(draw, Number(i.op), f1, f2), 2) + FieldBytes(f1) + FieldBytes(f2)
  }

  /** The size of an encoded instruction, fallthrough pointer included. */
  function Size(i: Insn): (n: nat)
    requires EncodableInsn(i)
    ensures n >= 6
  {
    3 + FieldSize(Pack(i.o1, 0)) + FieldSize(Pack(i.o2, 0)) + 3
  }

  /** The size does not depend on the cipher or on the targets of labels. */
  lemma BodySize(i: Insn, draw: Draw, t1: bv32, t2: bv32)
    requires EncodableInsn(i)
    ensures |Body(i, draw, t1, t2)| + 3 == Size(i)
  {
    hide Pack, BigEndian, HeaderWord, Number;
    PackShape(i.o1, t1);
    PackShape(i.o2, t2);
  }

  /** Type, width and length of an operand do not depend on what its label resolves to. */
  lemma PackShape(o: Operand, target: bv32)
    requires Encodable(o)
    ensures Pack(o, target).(x := 0) == Pack(o, 0).(x := 0)
  {
    if o.LabelRef? {
    } else {
    }
  }

  /** The fallthrough pointer: a ciphered offset, least significant byte first. */
  function Link(offset: bv32): (s: seq<bv8>)
    ensures |s| == 3
  {
    var f := offset ^ LINK_KEY;
    [B0(f), B1(f), B2(f)]
  }
}
