/** The byte format in literals: what the numbers and the fields of encoded instructions are, not only
    that both sides agree on them. */
module Format {
  import opened Words
  import opened Alu
  import opened Program
  import opened Encoding
  import Machine

  /** The operations in the order of their numbers. */
  const OPERATIONS: seq<Opcode> := [
    MOV, LEA, PUT, GET,
    ADD, SUB, MUL, DIV, MOD,
    CMP, JMP, CALL, RET, EXIT,
    AND, OR, XOR, SHL, SHR, NOT,
    SYSCALL, SWAP, REV, PACKHI, PACKLO, ROL, ROR, FORK]

  /** The compiler gives every operation its place in the list. */
  lemma NumberIs(op: Opcode)
    ensures Number(op) as nat < |OPERATIONS| == 28 && OPERATIONS[Number(op) as nat] == op
  {
  }

  /** The machine's comparisons select the operation at that place. */
  lemma SelectIs(c: bv8)
    requires c < 28
    ensures c as nat < |OPERATIONS| && Machine.Select(c) == OPERATIONS[c as nat]
  {
  }

  // ----- Encoded instructions -----

  /** ADD R0 R1, under the first cipher. */
  lemma RegisterBytes()
    ensures Body(Insn(ADD, Reg(4, Int), Reg(5, Int)), Draw(0, 0), 0, 0) == [0x03, 0x83, 0x84, 0x04, 0x05]
  {
  }

  /** EXIT, under the fourth cipher. */
  lemma PlainBytes()
    ensures Body(Insn(EXIT, NoOperand, NoOperand), Draw(30, 3), 0, 0) == [0xF0, 0x18, 0x13]
  {
  }

  /** MOV R0.b 0x1234, under the second cipher. */
  lemma LiteralBytes()
    ensures Body(Insn(MOV, Reg(4, Byte), Literal(0x1234, Int)), Draw(21, 1), 0, 0)
            == [0xAA, 0x8F, 0xAA, 0x04, 0x12, 0x34]
  {
  }

  /** MOV [0x30001].s R5, under the third cipher. */
  lemma AbsoluteBytes()
    ensures Body(Insn(MOV, Absolute(0x3_0001, Short), Reg(9, Int)), Draw(9, 2), 0, 0)
            == [0x4D, 0x73, 0x96, 0x00, 0x03, 0x00, 0x01, 0x09]
  {
  }

  /** XOR [F0.s+0x12] R0, under the fourth cipher. */
  lemma BasedBytes()
    ensures Body(Insn(XOR, Based(10, Short, 0x12, Int), Reg(4, Int)), Draw(31, 3), 0, 0)
            == [0xFD, 0xBB, 0x8F, 0xAA, 0x12, 0x04]
  {
  }

  /** SUB R1 [F0+R0.b], under the first cipher. */
  lemma IndexedBytes()
    ensures Body(Insn(SUB, Reg(5, Int), Indexed(10, Int, 4, Byte, Int)), Draw(17, 0), 0, 0)
            == [0x8B, 0x85, 0xB4, 0x05, 0xF6, 0x90]
  {
  }

  /** RET NEQ, under the second cipher. */
  lemma ReturnBytes()
    ensures Body(Insn(RET, Flag(NEQ), NoOperand), Draw(6, 1), 0, 0) == [0x36, 0x88, 0x15, 0x06]
  {
  }

  /** JMP under LT to a label at 0x456, under the third cipher. */
  lemma JumpBytes(name: string)
    ensures Body(Insn(JMP, LabelRef(name), Flag(LT)), Draw(12, 2), 0x456, 0)
            == [0x67, 0xD6, 0x99, 0x00, 0x04, 0x56, 0x02]
  {
  }

  /** The byte of each condition. */
  lemma ConditionBytes(c: Condition)
    ensures FieldBytes(Pack(Flag(c), 0)) == [match c
      case EQ => 0x01
      case LT => 0x02
      case LTE => 0x03
      case GT => 0x04
      case GTE => 0x05
      case NEQ => 0x06
      case ERR => 0x08]
  {
  }

  /** The pointer to offset 0x10. */
  lemma PointerBytes()
    ensures Link(0x10) == [0x16, 0x26, 0xDC]
  {
  }
}
