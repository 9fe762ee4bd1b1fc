/** The machine's decoder undoes the assembler's encoder. */
module Decoding {
  import opened Words
  import opened Alu
  import opened Program
  import opened Encoding
  import opened Machine

  // ----- Header -----

  /** Every header field comes back, whatever the cipher bits. */
  lemma FetchHeader(draw: Draw, op: bv5, f1: Field, f2: Field)
    ensures var b := BigEndian(HeaderWord(draw, op, f1, f2), 2);
            Fetch(b[0], b[1], b[2]) ==
            Header(draw.l as bv8, f1.t, f1.v, f1.l, draw.o, f2.t, f2.v, f2.l, Cipher(draw, op) as bv8)
  {
    var w := HeaderWord(draw, op, f1, f2);
    var h := Fetch(B2(w), B1(w), B0(w));
  }

  /** The four ciphers are undone by the complements `decode` applies. */
  lemma DecodeCipher(draw: Draw, op: bv5, h: Header)
    requires h.left == draw.l as bv8 && h.xor == draw.o && h.right == Cipher(draw, op) as bv8
    ensures DecodeOpcode(h) == op as bv8
  {
    if draw.o == 0 {
    } else if draw.o == 1 {
    } else if draw.o == 2 {
    } else {
    }
  }

  /** The decision tree sends every operation number to its own handler. */
  lemma SelectNumber(op: Opcode)
    ensures Number(op) as bv8 < 32 && Select(Number(op) as bv8) == op
  {
  }

  // ----- Operands -----

  /** The decoded form of an operand that was packed as `f` and placed at `at`. */
  function Raw(f: Field, at: nat): RawOperand {
    RawOperand(f.t, f.v, ByteCount(f.l), at)
  }

  /** What the machine sees of an operand: a label reference is a 32-bit constant. */
  function PlaceWith(o: Operand, target: bv32, regs: Registers): Place {
    if o.LabelRef? then Constant(target, Int) else PlaceOf(o, regs)
  }

  predicate BytesAt(code: Code, at: nat, bytes: seq<bv8>) {
    at + |bytes| <= |code| && code[at..at + |bytes|] == bytes
  }

  lemma WidthRoundTrip(v: Width)
    ensures v.Code() != 0 && WidthOf(v.Code()) == v
    ensures forall x :: LowBy(x, v.Code() as bv8) == Low(x, v)
  {
  }

  lemma ByteAt(code: Code, at: nat, bytes: seq<bv8>, k: nat)
    requires BytesAt(code, at, bytes) && k < |bytes|
    ensures code[at + k] == bytes[k]
  {
    assert code[at..at + |bytes|][k] == bytes[k];
  }

  lemma ResolveReg(code: Code, at: nat, o: Operand, regs: Registers)
    requires o.Reg? && BytesAt(code, at, FieldBytes(Pack(o, 0)))
    ensures Resolvable(code, Raw(Pack(o, 0), at))
    ensures Resolve(code, Raw(Pack(o, 0), at), regs) == PlaceOf(o, regs)
  {
    ByteAt(code, at, FieldBytes(Pack(o, 0)), 0);
    WidthRoundTrip(o.v);
  }

  /** A literal of any length is read back in full. */
  lemma LiteralRoundTrip(code: Code, at: nat, x: bv32, l: bv2)
    requires LengthCode(x) == l && BytesAt(code, at, BigEndian(x, l)) && at + 4 <= |code|
    ensures LiteralData(code, at, ByteCount(l)) == x
  {
    hide Cat, B0, B1, B2, B3;
    var b := BigEndian(x, l);
    ByteAt(code, at, b, 0);
    if l == 0 {
      LiteralBits1(x);
    } else if l == 1 {
      ByteAt(code, at, b, 1);
      LiteralBits2(x);
    } else if l == 2 {
      ByteAt(code, at, b, 1);
      ByteAt(code, at, b, 2);
      LiteralBits3(x, code[at + 3]);
    } else {
      ByteAt(code, at, b, 1);
      ByteAt(code, at, b, 2);
      ByteAt(code, at, b, 3);
      BytesCat(x);
    }
  }

  lemma ImmediateRoundTrip(code: Code, at: nat, f: Field)
    requires f.t == 3 && f.v != 0 && LengthCode(f.x) == f.l
    requires BytesAt(code, at, FieldBytes(f)) && at + 4 <= |code|
    ensures Resolvable(code, Raw(f, at))
    ensures Immediate(code, Raw(f, at)) == Low(f.x, WidthOf(f.v))
  {
    hide Low, WidthOf, LengthCode, LiteralData;
    LiteralRoundTrip(code, at, f.x, f.l);
  }

  lemma LiteralBits1(x: bv32)
    ensures x < 0x100 ==> B0(x) as bv32 == x
  {
  }

  lemma LiteralBits2(x: bv32)
    ensures x < 0x1_0000 ==> (B1(x) as bv32 << 8) | B0(x) as bv32 == x
  {
  }

  /** The byte read past a three-byte literal is dropped again. */
  lemma LiteralBits3(x: bv32, next: bv8)
    ensures x < 0x100_0000 ==> (Cat(B2(x), B1(x), B0(x), next) & 0xFFFF_FF00) >> 8 == x
    ensures x < 0x100_0000 ==> (B2(x) as bv32 << 16) | (B1(x) as bv32 << 8) | B0(x) as bv32 == x
  {
  }

  /** An absolute address: the leading byte is 0, the rest is the address. */
  lemma AbsoluteRoundTrip(code: Code, at: nat, o: Operand, regs: Registers)
    requires o.Absolute? && Encodable(o) && BytesAt(code, at, FieldBytes(Pack(o, 0))) && at + 4 <= |code|
    ensures Resolvable(code, Raw(Pack(o, 0), at))
    ensures MemoryOffset(code, Raw(Pack(o, 0), at), regs) == o.x
  {
    hide Add, LowBy;
    var f, x := Pack(o, 0), o.x;
    var b := FieldBytes(f);
    AbsoluteBits(x);
    WidthRoundTrip(o.v);
    ByteAt(code, at, b, 0);
    ByteAt(code, at, b, 1);
    if f.l == 1 {
      LiteralBits1(x);
    } else if f.l == 2 {
      ByteAt(code, at, b, 2);
      LiteralBits2(x);
    } else {
      ByteAt(code, at, b, 2);
      ByteAt(code, at, b, 3);
      LiteralBits3(x, 0);
    }
    assert Displacement(code, Raw(f, at)) == x;
    AddZero(x);
  }

  lemma AbsoluteBits(x: bv32)
    requires x < 0x10_0000
    ensures B3(x) == 0 && LengthCode(x) + 1 == (if x < 0x100 then 1 else if x < 0x1_0000 then 2 else 3)
    ensures x < 0x1_0000 ==> B2(x) == 0
    ensures x < 0x100 ==> B1(x) == 0
  {
  }

  lemma AddZero(x: bv32)
    ensures Add(0, x) == x
  {
    hide Word;
    WordVal(x);
    assert Val(0) == 0;
  }

  /** A based operand is one byte longer than its displacement, so its length is never 1. */
  lemma BasedBytes(base: bv8, disp: bv32)
    requires base >= 0x80 && disp < 0x10_0000
    ensures var l := LengthCode(disp);
            var x := Compound(base, disp, l);
            && l < 3
            && LengthCode(x) == l + 1
            && BigEndian(x, l + 1) == [base] + BigEndian(disp, l)
  {
    hide Compound, LengthCode, BigEndian;
    if disp < 0x100 {
      BasedBytes1(base, disp);
    } else if disp < 0x1_0000 {
      BasedBytes2(base, disp);
    } else {
      BasedBytes3(base, disp);
    }
  }

  lemma BasedBytes1(base: bv8, disp: bv32)
    requires base >= 0x80 && disp < 0x100
    ensures var x := Compound(base, disp, 0);
            LengthCode(disp) == 0 && LengthCode(x) == 1 && BigEndian(x, 1) == [base] + BigEndian(disp, 0)
  {
    hide B0, B1, B2, B3;
    BasedBits1(base, disp);
  }

  lemma BasedBytes2(base: bv8, disp: bv32)
    requires base >= 0x80 && disp >= 0x100 && disp < 0x1_0000
    ensures var x := Compound(base, disp, 1);
            LengthCode(disp) == 1 && LengthCode(x) == 2 && BigEndian(x, 2) == [base] + BigEndian(disp, 1)
  {
    hide B0, B1, B2, B3;
    BasedBits2(base, disp);
  }

  lemma BasedBytes3(base: bv8, disp: bv32)
    requires base >= 0x80 && disp >= 0x1_0000 && disp < 0x100_0000
    ensures var x := Compound(base, disp, 2);
            LengthCode(disp) == 2 && LengthCode(x) == 3 && BigEndian(x, 3) == [base] + BigEndian(disp, 2)
  {
    hide B0, B1, B2, B3;
    BasedBits3(base, disp);
  }

  lemma BasedBits1(c: bv8, d: bv32)
    requires c >= 0x80 && d < 0x100
    ensures var x := (c as bv32 << 8) | d; x >= 0x100 && x < 0x1_0000 && B1(x) == c && B0(x) == B0(d)
  {
  }

  lemma BasedBits2(c: bv8, d: bv32)
    requires c >= 0x80 && d < 0x1_0000
    ensures var x := (c as bv32 << 16) | d;
            x >= 0x1_0000 && x < 0x100_0000 && B2(x) == c && B1(x) == B1(d) && B0(x) == B0(d)
  {
  }

  lemma BasedBits3(c: bv8, d: bv32)
    requires c >= 0x80 && d < 0x100_0000
    ensures var x := (c as bv32 << 24) | d;
            x >= 0x100_0000 && B3(x) == c && B2(x) == B2(d) && B1(x) == B1(d) && B0(x) == B0(d)
  {
  }

  lemma {:induction false} DisplacementRoundTrip(code: Code, at: nat, o: RawOperand, x: bv32, l: bv2)
    requires l < 3 && LengthCode(x) == l && o.at == at && o.l == ByteCount(l) + 1 && o.t == 2 && o.v != 0
    requires at + 4 <= |code| && BytesAt(code, at + 1, BigEndian(x, l))
    ensures Resolvable(code, o) && Displacement(code, o) == x
  {
    hide B0, B1, B2, B3;
    var b := BigEndian(x, l);
    ByteAt(code, at + 1, b, 0);
    if l == 0 {
      LiteralBits1(x);
    } else if l == 1 {
      ByteAt(code, at + 1, b, 1);
      LiteralBits2(x);
    } else {
      ByteAt(code, at + 1, b, 1);
      ByteAt(code, at + 1, b, 2);
      LiteralBits3(x, 0);
    }
  }

  lemma BasedRoundTrip(code: Code, at: nat, o: Operand, regs: Registers)
    requires o.Based? && Encodable(o) && BytesAt(code, at, FieldBytes(Pack(o, 0))) && at + 4 <= |code|
    ensures Resolvable(code, Raw(Pack(o, 0), at))
    ensures MemoryOffset(code, Raw(Pack(o, 0), at), regs) == Add(Low(regs[o.b as nat], o.bw), o.disp)
  {
    hide Add, LowBy, Low, Compound, LengthCode, BigEndian;
    var f, l := Pack(o, 0), LengthCode(o.disp);
    BasedBytes(BaseByte(o.b, o.bw), o.disp);
    WidthRoundTrip(o.v);
    WidthRoundTrip(o.bw);
    var rest := BigEndian(o.disp, l);
    assert FieldBytes(f) == [BaseByte(o.b, o.bw)] + rest;
    ByteAt(code, at, FieldBytes(f), 0);
    assert code[at + 1..at + 1 + |rest|] == code[at..at + 1 + |rest|][1..] == rest;
    DisplacementRoundTrip(code, at, Raw(f, at), o.disp, l);
  }

  lemma IndexedRoundTrip(code: Code, at: nat, o: Operand, regs: Registers)
    requires o.Indexed? && BytesAt(code, at, FieldBytes(Pack(o, 0))) && at + 4 <= |code|
    ensures Resolvable(code, Raw(Pack(o, 0), at))
    ensures MemoryOffset(code, Raw(Pack(o, 0), at), regs)
            == Add(Low(regs[o.b as nat], o.bw), Low(regs[o.d as nat], o.dw))
  {
    hide Add, LowBy, Low;
    var f := Pack(o, 0);
    WidthRoundTrip(o.v);
    WidthRoundTrip(o.bw);
    WidthRoundTrip(o.dw);
    ByteAt(code, at, FieldBytes(f), 0);
    ByteAt(code, at, FieldBytes(f), 1);
  }

  /** Decoding an encoded operand in place gives the operand itself: same kind, same width, same
      register, same value and, for memory, the same effective address in every register state. */
  lemma ResolveRoundTrip(code: Code, at: nat, o: Operand, target: bv32, regs: Registers)
    requires Encodable(o) && target < 0x100_0000
    requires BytesAt(code, at, FieldBytes(Pack(o, target))) && at + FieldSize(Pack(o, target)) + 3 <= |code|
    ensures Resolvable(code, Raw(Pack(o, target), at))
    ensures Resolve(code, Raw(Pack(o, target), at), regs) == PlaceWith(o, target, regs)
  {
    hide LiteralData, MemoryOffset, Add, LengthCode;
    match o
    case NoOperand =>
    case Reg(_, _) => ResolveReg(code, at, o, regs);
    case Absolute(_, v) =>
      WidthRoundTrip(v);
      AbsoluteRoundTrip(code, at, o, regs);
    case Based(_, _, _, v) =>
      WidthRoundTrip(v);
      BasedRoundTrip(code, at, o, regs);
    case Indexed(_, _, _, _, v) =>
      WidthRoundTrip(v);
      IndexedRoundTrip(code, at, o, regs);
    case Literal(_, v) =>
      WidthRoundTrip(v);
      ImmediateRoundTrip(code, at, Pack(o, target));
    case Flag(c) =>
      FlagBits(c);
      ImmediateRoundTrip(code, at, Pack(o, target));
    case LabelRef(_) => LabelRoundTrip(code, at, target);
  }

  /** A label's offset always takes three bytes. */
  lemma LabelRoundTrip(code: Code, at: nat, target: bv32)
    requires target < 0x100_0000 && BytesAt(code, at, BigEndian(target, 2)) && at + 4 <= |code|
    ensures LiteralData(code, at, 3) == target && Low(target, Int) == target
  {
    hide Cat, B0, B1, B2, B3;
    var b := BigEndian(target, 2);
    ByteAt(code, at, b, 0);
    ByteAt(code, at, b, 1);
    ByteAt(code, at, b, 2);
    LiteralBits3(target, code[at + 3]);
  }

  lemma FlagBits(c: Condition)
    ensures LengthCode(c.Mask()) == 0 && Low(c.Mask(), Byte) == c.Mask()
  {
  }

  // ----- Instructions -----

  /** Fetch and decode recover the opcode and both packed operands. */
  lemma DecodeFields(code: Code, at: nat, op: bv5, draw: Draw, f1: Field, f2: Field)
    requires BytesAt(code, at, BigEndian(HeaderWord(draw, op, f1, f2), 2))
    ensures DecodeAt(code, at) == Decoded(op as bv8, Raw(f1, at + 3), Raw(f2, at + 3 + ByteCount(f1.l)))
  {
    hide HeaderWord, Fetch, DecodeOpcode, Cipher, B0, B1, B2, B3;
    var h := BigEndian(HeaderWord(draw, op, f1, f2), 2);
    assert |h| == 3;
    ByteAt(code, at, h, 0);
    ByteAt(code, at, h, 1);
    ByteAt(code, at, h, 2);
    FetchHeader(draw, op, f1, f2);
    DecodeCipher(draw, op, Fetch(h[0], h[1], h[2]));
  }

  /** Fetching and decoding where the body of an instruction was placed recovers its operation and its
      operands, and the fallthrough pointer is sought exactly behind the body. */
  lemma DecodeRoundTrip(code: Code, at: nat, i: Insn, draw: Draw, t1: bv32, t2: bv32, regs: Registers)
    requires EncodableInsn(i) && t1 < 0x100_0000 && t2 < 0x100_0000
    requires BytesAt(code, at, Body(i, draw, t1, t2)) && at + |Body(i, draw, t1, t2)| + 3 <= |code|
    ensures var d := DecodeAt(code, at);
            && d.opcode == Number(i.op) as bv8
            && Select(d.opcode) == i.op
            && LinkAt(at, d) == at + |Body(i, draw, t1, t2)|
            && Resolvable(code, d.op1)
            && Resolvable(code, d.op2)
            && Resolve(code, d.op1, regs) == PlaceWith(i.o1, t1, regs)
            && Resolve(code, d.op2, regs) == PlaceWith(i.o2, t2, regs)
  {
    hide Pack, HeaderWord, Number, Select, Resolvable, Resolve, PlaceWith, BigEndian, DecodeAt;
    var f1, f2 := Pack(i.o1, t1), Pack(i.o2, t2);
    var h, b1, b2 := BigEndian(HeaderWord(draw, Number(i.op), f1, f2), 2), FieldBytes(f1), FieldBytes(f2);
    assert |h| == 3;
    assert Body(i, draw, t1, t2) == h + (b1 + b2);
    BytesSplit(code, at, h, b1 + b2);
    BytesSplit(code, at + 3, b1, b2);
    DecodeFields(code, at, Number(i.op), draw, f1, f2);
    SelectNumber(i.op);
    ResolveRoundTrip(code, at + 3, i.o1, t1, regs);
    PackKind(i.o1, t1);
    PackKind(i.o2, t2);
    if i.o1.NoOperand? {
      ResolveNothing(code, DecodeAt(code, at).op2, t2, regs);
    } else {
      ResolveRoundTrip(code, at + 3 + |b1|, i.o2, t2, regs);
    }
  }

  lemma BytesSplit(code: Code, at: nat, a: seq<bv8>, b: seq<bv8>)
    requires BytesAt(code, at, a + b)
    ensures BytesAt(code, at, a) && BytesAt(code, at + |a|, b)
  {
    assert code[at..at + |a|] == code[at..at + |a + b|][..|a|];
    assert code[at + |a|..at + |a| + |b|] == code[at..at + |a + b|][|a|..];
  }

  lemma PackKind(o: Operand, target: bv32)
    requires Encodable(o)
    ensures Pack(o, target).t == 0 <==> o.NoOperand?
  {
    hide Compound, LengthCode;
  }

  lemma ResolveNothing(code: Code, o: RawOperand, target: bv32, regs: Registers)
    requires o.t == 0
    ensures Resolvable(code, o) && Resolve(code, o, regs) == PlaceWith(NoOperand, target, regs)
  {
  }
}
