/** Writes that keep more than their result: packing into memory, and results ORed into registers. */
module Packing {
  import opened Words
  import opened Alu
  import opened AluCases

  /** The bytes of memory that join the result above width `w` and are stored at width `v` are zero. */
  predicate QuietAbove(mem: Memory, a: nat, w: Width, v: Width)
    requires a + 4 <= |mem|
  {
    forall i :: a + w.Bytes() <= i < a + v.Bytes() ==> mem[i] == 0
  }

  /** The byte at position k of a word, counted from the low end. */
  function ByteOf(x: bv32, k: nat): bv8
    requires k < 4
  {
    if k == 0 then B0(x) else if k == 1 then B1(x) else if k == 2 then B2(x) else B3(x)
  }

  /** Widening a value of width `w` keeps its bytes and puts the byte at a + k on top at position k. */
  lemma WidenedBytes(mem: Memory, a: nat, w: Width, x: bv32, k: nat)
    requires a + 4 <= |mem| && x == Low(x, w) && k < 4
    ensures ByteOf(Widened(mem, a, w, x), k) == if k < w.Bytes() then ByteOf(x, k) else mem[a + k]
  {
    LowTop(x, w);
    hide Cat, B0, B1, B2, B3, Or, OrByte, Low;
    var c := ByteOf(x, k);
    OrByteZero(c, 0);
    OrByteZero(c, mem[a + k]);
    match w
    case Byte =>
      OrBytes(x, Cat(mem[a + 3], mem[a + 2], mem[a + 1], 0));
      CatBytes(mem[a + 3], mem[a + 2], mem[a + 1], 0);
    case Short =>
      OrBytes(x, Cat(mem[a + 3], mem[a + 2], 0, 0));
      CatBytes(mem[a + 3], mem[a + 2], 0, 0);
    case Int =>
  }

  /** A truncated word has no bytes above its width. */
  lemma LowTop(x: bv32, w: Width)
    requires x == Low(x, w)
    ensures forall k :: w.Bytes() <= k < 4 ==> ByteOf(x, k) == 0
  {
    hide Cat, B0, B1, B2, B3, Low;
    LowBytes(x, w);
    CatBytes(0, 0, 0, B0(x));
    CatBytes(0, 0, B1(x), B0(x));
  }

  /** A store puts byte k of a word at position v - 1 - k. */
  lemma StoredByte(mem: Memory, a: nat, v: Width, x: bv32, k: nat)
    requires a + 4 <= |mem| && k < v.Bytes()
    ensures Store(mem, a, v, x)[a + (v.Bytes() - 1 - k)] == ByteOf(x, k)
  {
    hide B0, B1, B2, B3;
  }

  lemma SameStore(mem: Memory, a: nat, v: Width, x: bv32, y: bv32)
    requires a + 4 <= |mem|
    ensures Store(mem, a, v, x) == Store(mem, a, v, y) <==>
            forall k :: 0 <= k < v.Bytes() ==> ByteOf(x, k) == ByteOf(y, k)
  {
    hide ByteOf, Store;
    if Store(mem, a, v, x) == Store(mem, a, v, y) {
      forall k | 0 <= k < v.Bytes() ensures ByteOf(x, k) == ByteOf(y, k) {
        StoredByte(mem, a, v, x, k);
        StoredByte(mem, a, v, y, k);
      }
    } else if forall k :: 0 <= k < v.Bytes() ==> ByteOf(x, k) == ByteOf(y, k) {
      SameBytesStore(mem, a, v, x, y);
    }
  }

  lemma SameBytesStore(mem: Memory, a: nat, v: Width, x: bv32, y: bv32)
    requires a + 4 <= |mem| && forall k :: 0 <= k < v.Bytes() ==> ByteOf(x, k) == ByteOf(y, k)
    ensures Store(mem, a, v, x) == Store(mem, a, v, y)
  {
    hide B0, B1, B2, B3;
    assert ByteOf(x, 0) == ByteOf(y, 0);
    assert !v.Byte? ==> ByteOf(x, 1) == ByteOf(y, 1);
    assert v.Int? ==> ByteOf(x, 2) == ByteOf(y, 2) && ByteOf(x, 3) == ByteOf(y, 3);
  }

  /** A value of width `w`, widened at `w` and stored at `v`, arrives alone exactly when the bytes that
      join it are zero. */
  lemma WidenedAlone(mem: Memory, a: nat, w: Width, v: Width, x: bv32)
    requires a + 4 <= |mem| && x == Low(x, w)
    ensures Store(mem, a, v, Widened(mem, a, w, x)) == Store(mem, a, v, x) <==> QuietAbove(mem, a, w, v)
  {
    hide Widened, ByteOf, Store, Low;
    var y := Widened(mem, a, w, x);
    SameStore(mem, a, v, y, x);
    LowTop(x, w);
    forall k | 0 <= k < 4
      ensures ByteOf(y, k) == if k < w.Bytes() then ByteOf(x, k) else mem[a + k]
    {
      WidenedBytes(mem, a, w, x, k);
    }
    if forall k :: 0 <= k < v.Bytes() ==> ByteOf(y, k) == ByteOf(x, k) {
      forall i | a + w.Bytes() <= i < a + v.Bytes() ensures mem[i] == 0 {
        assert ByteOf(y, i - a) == ByteOf(x, i - a);
      }
    }
  }

  /** A packed value fits its width. */
  lemma PackedFits(d: bv32, s: bv32, v: Width)
    ensures PackHigh(d, s, v) == Low(PackHigh(d, s, v), v) && PackLow(d, s, v) == Low(PackLow(d, s, v), v)
  {
    hide PackHigh, PackLow;
    match v
    case Byte =>
      PackedHighByte(d, s, PackHigh(d, s, v));
      PackedLowByte(d, s, PackLow(d, s, v));
    case Short =>
      PackedHighShort(d, s, PackHigh(d, s, v));
      PackedLowShort(d, s, PackLow(d, s, v));
    case Int =>
  }

  lemma PackedHighByte(d: bv32, s: bv32, x: bv32)
    requires x == PackHigh(d, s, Byte)
    ensures x == Low(x, Byte)
  {
  }

  lemma PackedLowByte(d: bv32, s: bv32, x: bv32)
    requires x == PackLow(d, s, Byte)
    ensures x == Low(x, Byte)
  {
  }

  lemma PackedHighShort(d: bv32, s: bv32, x: bv32)
    requires x == PackHigh(d, s, Short)
    ensures x == Low(x, Short)
  {
  }

  lemma PackedLowShort(d: bv32, s: bv32, x: bv32)
    requires x == PackLow(d, s, Short)
    ensures x == Low(x, Short)
  {
  }

  /** Packing into memory stores its result and nothing else exactly when the bytes between the width of
      the source and that of the destination are zero; always when the destination is not wider. */
  lemma PackStores(op: Opcode, p1: Place, p2: Place, st: Data)
    requires IsPack(op) && p1.InMemory? && ExecDefined(op, p1, p2, st, 0)
    ensures Val(p1.a) + 4 <= |st.mem|
    ensures Exec(op, p1, p2, st) == Write(p1, Result(op, p1, p2, st), st) <==> QuietAbove(st.mem, Val(p1.a), p2.v, p1.v)
  {
    hide Val, PackHigh, PackLow, Low, Widened, Store, Result, Read, QuietAbove, SourceValue;
    PackCases(op, p1, p2, st);
    var x := Result(op, p1, p2, st);
    var d, s := Read(p1, p2.v, st.regs, st.mem), SourceValue(op, p1, p2, st);
    PackedFits(d, s, p2.v);
    WidenedAlone(st.mem, Val(p1.a), p2.v, p1.v, x);
  }

  /** PACKHI [0x30000].s R1.b leaves the byte at 0x30001 in 0x30000, where its result has no bits. */
  lemma PackLeaks(st: Data)
    requires |st.mem| == 0x10_0000
    ensures var p1, p2 := InMemory(0x3_0000, Short), InRegister(5, Byte);
            && ExecDefined(PACKHI, p1, p2, st, 0)
            && Result(PACKHI, p1, p2, st) < 0x100
            && Exec(PACKHI, p1, p2, st).mem[0x3_0000] == st.mem[0x3_0001]
  {
    hide PackHigh, Read, Widened, Store, Cat;
    var p1, p2 := InMemory(0x3_0000, Short), InRegister(5, Byte);
    AddressIs();
    hide Val;
    PackCases(PACKHI, p1, p2, st);
    var x := Result(PACKHI, p1, p2, st);
    PackedFits(Read(p1, Byte, st.regs, st.mem), SourceValue(PACKHI, p1, p2, st), Byte);
    WidenedBytes(st.mem, 0x3_0000, Byte, x, 1);
    StoredByte(st.mem, 0x3_0000, Short, Widened(st.mem, 0x3_0000, Byte, x), 1);
  }

  lemma AddressIs()
    ensures Val(0x3_0000) == 0x3_0000
  {
  }

  // ----- Registers -----

  /** All bits of `a` are bits of `h`. */
  predicate Within(a: bv32, h: bv32) { a & !h == 0 }

  /** Above the width, the result has no bits that the register lacks. */
  predicate NoNewBits(x: bv32, reg: bv32, v: Width) {
    Within(High(x, v), High(reg, v))
  }

  lemma OrWithin(a: bv32, h: bv32)
    ensures Or(h, a) == h <==> Within(a, h)
  {
    if Within(a, h) {
    } else if Or(h, a) == h {
    }
  }

  /** The high bits of a word, byte by byte. */
  lemma HighBytes(x: bv32, v: Width)
    ensures High(x, v) == match v
                          case Byte => Cat(B3(x), B2(x), B1(x), 0)
                          case Short => Cat(B3(x), B2(x), 0, 0)
                          case Int => Cat(0, 0, 0, 0)
  {
    match v
    case Byte =>
    case Short =>
    case Int =>
  }

  lemma HighOr(h: bv32, x: bv32, v: Width)
    ensures High(Or(High(h, v), x), v) == Or(High(h, v), High(x, v))
  {
    hide High, Cat, Or, OrByte, B0, B1, B2, B3;
    var y, z := Or(High(h, v), x), Or(High(h, v), High(x, v));
    HighBytes(h, v);
    HighBytes(x, v);
    HighBytes(y, v);
    OrBytes(High(h, v), x);
    OrBytes(High(h, v), High(x, v));
    BytesCat(z);
    OrByteZero(0, 0);
    CatBytes(B3(h), B2(h), B1(h), 0);
    CatBytes(B3(x), B2(x), B1(x), 0);
    CatBytes(B3(h), B2(h), 0, 0);
    CatBytes(B3(x), B2(x), 0, 0);
    CatBytes(0, 0, 0, 0);
  }

  lemma LowOr(h: bv32, x: bv32, v: Width)
    ensures Low(Or(High(h, v), x), v) == Low(x, v)
  {
    match v
    case Byte =>
    case Short =>
    case Int =>
  }

  /** Every data instruction leaves the low bits of its result in a destination register, and keeps the
      bits above the width exactly when the result brings no new ones. */
  lemma RegisterKeeps(op: Opcode, r: bv4, v: Width, p2: Place, st: Data)
    requires ExecDefined(op, InRegister(r, v), p2, st, 0)
    ensures var x, reg, y := Result(op, InRegister(r, v), p2, st), st.regs[r as nat],
                             Exec(op, InRegister(r, v), p2, st).regs[r as nat];
            && Low(y, v) == Low(x, v)
            && (High(y, v) == High(reg, v) <==> NoNewBits(x, reg, v))
  {
    hide Low, High, Within, Or, Result, ExecDefined;
    var x, reg := Result(op, InRegister(r, v), p2, st), st.regs[r as nat];
    WrittenIs(op, r, v, p2, st);
    HighOr(reg, x, v);
    LowOr(reg, x, v);
    OrWithin(High(x, v), High(reg, v));
  }

  lemma WrittenIs(op: Opcode, r: bv4, v: Width, p2: Place, st: Data)
    requires ExecDefined(op, InRegister(r, v), p2, st, 0)
    ensures Exec(op, InRegister(r, v), p2, st).regs[r as nat]
            == Or(High(st.regs[r as nat], v), Result(op, InRegister(r, v), p2, st))
  {
    hide Low, High, Result, ExecDefined;
  }

  /** In particular when the result fits the width. */
  lemma FittingKeeps(x: bv32, reg: bv32, v: Width)
    requires x == Low(x, v)
    ensures NoNewBits(x, reg, v)
  {
    hide High, Low, Cat, B0, B1, B2, B3, Within;
    LowBytes(x, v);
    HighBytes(x, v);
    CatBytes(0, 0, 0, B0(x));
    CatBytes(0, 0, B1(x), B0(x));
    NothingWithin(High(reg, v));
  }

  lemma NothingWithin(h: bv32)
    ensures Cat(0, 0, 0, 0) == 0 && Within(Cat(0, 0, 0, 0), h)
  {
  }

  /** MOV R0.b R1.s with 0x100 in R1 changes the second byte of R0. */
  lemma RegisterLeaks(st: Data)
    requires st.regs[4] == 0 && st.regs[5] == 0x100
    ensures var p1, p2 := InRegister(4, Byte), InRegister(5, Short);
            ExecDefined(MOV, p1, p2, st, 0) && Exec(MOV, p1, p2, st).regs[4] == 0x100
  {
  }
}
