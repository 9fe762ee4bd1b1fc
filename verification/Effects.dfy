/** What the moving, packing and rotating instructions leave, byte by byte, and the order of bytes in memory. */
module Effects {
  import opened Words
  import opened Alu
  import opened AluCases

  // ----- Moving -----

  /** MOV, NOT, SWAP and REV into a full-width register: the value at the source's width as it is,
      complemented, with its halves exchanged, or with its bits in the opposite order. */
  lemma MoveLeaves(op: Opcode, r: bv4, p2: Place, st: Data)
    requires IsMove(op) && ExecDefined(op, InRegister(r, Int), p2, st, 0)
    ensures Readable(p2, p2.v, 0, |st.mem|)
    ensures Moved(op, p2.v, Read(p2, p2.v, st.regs, st.mem), Exec(op, InRegister(r, Int), p2, st).regs[r as nat])
  {
    hide Exec, ExecDefined, ComputeDefined, SwapHalves, ReverseBits, Val, Read;
    ReadySource(op, InRegister(r, Int), p2, st);
    MoveCases(op, InRegister(r, Int), p2, st);
    var s := Read(p2, p2.v, st.regs, st.mem);
    Complement(s);
    Halves(s, p2.v);
    Turning(s, p2.v);
    WrittenWhole(r, if op.MOV? then s else if op.NOT? then !s else if op.SWAP? then SwapHalves(s, p2.v)
                    else ReverseBits(s, p2.v), st);
    hide Moved, Low, Write;
  }

  lemma WrittenWhole(r: bv4, x: bv32, st: Data)
    ensures Write(InRegister(r, Int), Low(x, Int), st) == Write(InRegister(r, Int), x, st)
            == st.(regs := st.regs[r as nat := x])
  {
  }

  ghost predicate Moved(op: Opcode, v: Width, s: bv32, x: bv32) {
    && (op.MOV? ==> x == s)
    && (op.NOT? ==> Xor(x, s) == 0xFFFF_FFFF)
    && (op.SWAP? ==> x == match v
          case Byte => Cat(0, 0, 0, (B0(s) << 4) | (B0(s) >> 4))
          case Short => Cat(0, 0, B0(s), B1(s))
          case Int => Cat(B1(s), B0(s), B3(s), B2(s)))
    && (op.REV? ==> match v
          case Byte => x < 0x100 && OppositeBits(B0(s), B0(x))
          case Short => x < 0x1_0000 && OppositeBits(B1(s), B0(x)) && OppositeBits(B0(s), B1(x))
          case Int =>
            && OppositeBits(B3(s), B0(x)) && OppositeBits(B2(s), B1(x))
            && OppositeBits(B1(s), B2(x)) && OppositeBits(B0(s), B3(x)))
  }

  function Bit(b: bv8, i: bv8): bv8
    requires i < 8
  {
    (b >> i) & 1
  }

  ghost predicate OppositeBits(b: bv8, c: bv8) {
    forall i: bv8 | i < 8 :: Bit(c, i) == Bit(b, 7 - i)
  }

  lemma ReadySource(op: Opcode, p1: Place, p2: Place, st: Data)
    requires ExecDefined(op, p1, p2, st, 0)
    ensures Readable(p2, p2.v, 0, |st.mem|) && SourceValue(op, p1, p2, st) == Read(p2, p2.v, st.regs, st.mem)
  {
    hide Read, Val, ComputeDefined;
  }

  lemma Complement(s: bv32)
    ensures Xor(!s, s) == 0xFFFF_FFFF
  {
  }

  lemma Halves(s: bv32, v: Width)
    ensures Moved(SWAP, v, s, SwapHalves(s, v))
  {
  }

  lemma Turning(s: bv32, v: Width)
    ensures Moved(REV, v, s, ReverseBits(s, v))
  {
    hide OppositeBits, Cat, B0, B1, B2, B3, ReverseByte;
    var c3, c2, c1, c0 := ReverseByte(B0(s)), ReverseByte(B1(s)), ReverseByte(B2(s)), ReverseByte(B3(s));
    CatBytes(c3, c2, c1, c0);
    CatBytes(0, 0, c3, c2);
    CatBytes(0, 0, 0, c3);
    Small(c3, c2);
    Opposite(B0(s));
    Opposite(B1(s));
    Opposite(B2(s));
    Opposite(B3(s));
  }

  lemma Small(b: bv8, c: bv8)
    ensures Cat(0, 0, b, c) < 0x1_0000 && Cat(0, 0, 0, b) < 0x100
  {
  }

  lemma Opposite(b: bv8)
    ensures OppositeBits(b, ReverseByte(b))
  {
  }

  // ----- Packing -----

  /** PACKHI puts the source's upper half into the destination's lower half, PACKLO the source's lower
      half into the destination's upper half. */
  lemma PackLeaves(op: Opcode, r: bv4, v: Width, p2: Place, st: Data)
    requires IsPack(op) && ExecDefined(op, InRegister(r, v), p2, st, 0)
    ensures Readable(p2, p2.v, 0, |st.mem|)
    ensures var d, s := Low(st.regs[r as nat], p2.v), Read(p2, p2.v, st.regs, st.mem);
            Packed(op, p2.v, d, s, Result(op, InRegister(r, v), p2, st))
  {
    hide Exec, ExecDefined, ComputeDefined, PackHigh, PackLow, Val, Result, Packed, Stored, Write, Low;
    ReadySource(op, InRegister(r, v), p2, st);
    PackCases(op, InRegister(r, v), p2, st);
    DestRead(r, v, p2.v, st);
    Packing(op, p2.v, Low(st.regs[r as nat], p2.v), Read(p2, p2.v, st.regs, st.mem));
  }

  lemma DestRead(r: bv4, v: Width, w: Width, st: Data)
    ensures Read(InRegister(r, v), w, st.regs, st.mem) == Low(st.regs[r as nat], w)
  {
    hide Low;
  }

  predicate Packed(op: Opcode, v: Width, d: bv32, s: bv32, x: bv32)
    requires IsPack(op)
  {
    match v
    case Byte => B0(x) == if op.PACKHI? then (B0(d) & 0xF0) | (B0(s) >> 4) else (B0(d) & 0x0F) | (B0(s) << 4)
    case Short => B1(x) == (if op.PACKHI? then B1(d) else B0(s)) && B0(x) == (if op.PACKHI? then B1(s) else B0(d))
    case Int => x == if op.PACKHI? then Cat(B3(d), B2(d), B3(s), B2(s)) else Cat(B1(s), B0(s), B1(d), B0(d))
  }

  lemma Packing(op: Opcode, v: Width, d: bv32, s: bv32)
    requires IsPack(op)
    ensures Packed(op, v, d, s, if op.PACKHI? then PackHigh(d, s, v) else PackLow(d, s, v))
  {
    hide PackHigh, PackLow, Cat, B0, B1, B2, B3;
    match v
    case Byte =>
      HighNibbles(d, s);
      LowNibbles(d, s);
    case Short =>
      HighBytes(d, s);
      LowBytesPacked(d, s);
    case Int =>
      HighHalves(d, s);
      LowHalves(d, s);
  }

  lemma HighNibbles(d: bv32, s: bv32)
    ensures B0(PackHigh(d, s, Byte)) == (B0(d) & 0xF0) | (B0(s) >> 4)
  {
  }

  lemma LowNibbles(d: bv32, s: bv32)
    ensures B0(PackLow(d, s, Byte)) == (B0(d) & 0x0F) | (B0(s) << 4)
  {
  }

  lemma HighBytes(d: bv32, s: bv32)
    ensures B1(PackHigh(d, s, Short)) == B1(d) && B0(PackHigh(d, s, Short)) == B1(s)
  {
  }

  lemma LowBytesPacked(d: bv32, s: bv32)
    ensures B1(PackLow(d, s, Short)) == B0(s) && B0(PackLow(d, s, Short)) == B0(d)
  {
  }

  lemma HighHalves(d: bv32, s: bv32)
    ensures PackHigh(d, s, Int) == Cat(B3(d), B2(d), B3(s), B2(s))
  {
  }

  lemma LowHalves(d: bv32, s: bv32)
    ensures PackLow(d, s, Int) == Cat(B1(s), B0(s), B1(d), B0(d))
  {
  }

  // ----- Rotating -----

  /** ROL turns the destination to the left and ROR to the right, by the amount in force at its width. */
  lemma RotateLeaves(op: Opcode, r: bv4, p2: Place, st: Data)
    requires IsRotate(op) && ExecDefined(op, InRegister(r, Int), p2, st, 0)
    ensures Readable(p2, p2.v, 0, |st.mem|)
    ensures var a := RotateBy(Read(p2, p2.v, st.regs, st.mem), Int);
            Exec(op, InRegister(r, Int), p2, st).regs[r as nat]
            == if op.ROL? then RotateLeft(st.regs[r as nat], a, Int) else RotateRight(st.regs[r as nat], a, Int)
  {
    hide Exec, ExecDefined, ComputeDefined, RotateLeft, RotateRight, RotateBy, Val, Read;
    ReadySource(op, InRegister(r, Int), p2, st);
    RotateCases(op, InRegister(r, Int), p2, st);
    var d, a := st.regs[r as nat], RotateBy(Read(p2, p2.v, st.regs, st.mem), Int);
    RegisterRead(r, st);
    WrittenWhole(r, if op.ROL? then RotateLeft(d, a, Int) else RotateRight(d, a, Int), st);
    hide Write;
  }

  lemma RegisterRead(r: bv4, st: Data)
    ensures Read(InRegister(r, Int), Int, st.regs, st.mem) == st.regs[r as nat]
  {
  }

  // ----- Two-operand operations and memory, in samples -----

  lemma BinarySamples()
    ensures Binary(AND, 0xC, 0xA) == 0x8 && Binary(OR, 0xC, 0xA) == 0xE && Binary(XOR, 0xC, 0xA) == 0x6
    ensures Binary(SHL, 0x9000_0003, 4) == 0x30 && Binary(SHR, 0x9000_0030, 4) == 0x900_0003
  {
  }

  /** The most significant byte comes first. */
  lemma MemorySamples(mem: Memory)
    requires |mem| >= 4
    ensures Store(mem, 0, Int, 0x1234_5678)[..4] == [0x12, 0x34, 0x56, 0x78]
    ensures Store(mem, 0, Short, 0x1234_5678)[..2] == [0x56, 0x78] && Store(mem, 0, Byte, 0x1234_5678)[0] == 0x78
    ensures mem[..4] == [0x12, 0x34, 0x56, 0x78] ==>
              Load(mem, 0, Byte) == 0x12 && Load(mem, 0, Short) == 0x1234 && Load(mem, 0, Int) == 0x1234_5678
  {
    if mem[..4] == [0x12, 0x34, 0x56, 0x78] {
      assert mem[0] == mem[..4][0] && mem[1] == mem[..4][1] && mem[2] == mem[..4][2] && mem[3] == mem[..4][3];
    }
  }
}
