/** What rotating means: the amount in force, one bit at a time, and rotating back. */
module Rotation {
  import opened Words
  import opened Alu

  function Bits(v: Width): nat { 8 * v.Bytes() }

  // ----- The amount -----

  function Five(b: bv8, v: Width): bv8 {
    match v
    case Byte => b & 7
    case Short => b & 15
    case Int => b & 31
  }

  lemma FiveVal(b: bv8, v: Width)
    ensures Five(b, v) as nat == b as nat % Bits(v)
  {
    match v
    case Byte => ThreeBits(b);
    case Short => FourBits(b);
    case Int => FiveBits(b);
  }

  lemma ThreeBits(b: bv8)
    ensures (b & 7) as nat == b as nat % 8
  {
  }

  lemma FourBits(b: bv8)
    ensures (b & 15) as nat == b as nat % 16
  {
  }

  lemma FiveBits(b: bv8)
    ensures (b & 31) as nat == b as nat % 32
  {
  }

  lemma AmountBytes(s: bv32, v: Width)
    ensures RotateBy(s, v) == Cat(0, 0, 0, Five(B0(s), v))
  {
  }

  /** The amount in force is the operand's value modulo the number of bits of the width. */
  lemma AmountIs(s: bv32, v: Width)
    ensures Val(RotateBy(s, v)) == Val(s) % Bits(v)
  {
    hide Cat, B0, B1, B2, B3, OfByte, RotateBy, Five;
    var b := Five(B0(s), v);
    AmountBytes(s, v);
    CatBytes(0, 0, 0, b);
    ZeroByte();
    ToOfByte(b);
    ToOfByte(B0(s));
    FiveVal(B0(s), v);
    LowDigit(OfByte(B3(s)), OfByte(B2(s)), OfByte(B1(s)), OfByte(B0(s)), v);
  }

  lemma LowDigit(b3: nat, b2: nat, b1: nat, b0: nat, v: Width)
    ensures (0x100_0000 * b3 + 0x1_0000 * b2 + 0x100 * b1 + b0) % Bits(v) == b0 % Bits(v)
  {
    match v
    case Byte => Rest(0x20_0000 * b3 + 0x2000 * b2 + 0x20 * b1 + b0 / 8, b0 % 8, 8);
    case Short => Rest(0x10_0000 * b3 + 0x1000 * b2 + 0x10 * b1 + b0 / 16, b0 % 16, 16);
    case Int => Rest(0x8_0000 * b3 + 0x800 * b2 + 8 * b1 + b0 / 32, b0 % 32, 32);
  }

  lemma Rest(q: nat, r: nat, n: nat)
    requires r < n && (n == 8 || n == 16 || n == 32)
    ensures (n * q + r) % n == r
  {
  }

  // ----- The rotation -----

  /** By one bit: doubled, with the highest bit coming in below. */
  lemma LeftOnce(d: bv32)
    ensures RotateLeft(d, 1, Int) == Or(d << 1, if d < 0x8000_0000 then 0 else 1)
  {
  }

  function Up(d: bv32, r: bv32): bv32
    requires r < 32
  {
    d << r
  }

  function Down(d: bv32, r: bv32): bv32
    requires r < 32
  {
    d >> r
  }

  /** Further rotations go on one bit at a time. */
  lemma LeftOnward(d: bv32, r: bv32)
    requires 0 < r < 31
    ensures RotateLeft(d, r + 1, Int) == RotateLeft(RotateLeft(d, r, Int), 1, Int)
  {
    LeftParts(d, r);
    LeftParts(d, r + 1);
    LeftParts(RotateLeft(d, r, Int), 1);
    hide RotateLeft, Up, Down, Or;
    var x, y := Up(d, r), Down(d, 32 - r);
    OrUp(x, y);
    OrDown(x, y);
    UpUp(d, r);
    LowestBits(d, r);
    DownGone(d, r);
    Joined(Up(x, 1), Up(y, 1), Down(x, 31));
  }

  lemma LeftParts(d: bv32, r: bv32)
    requires 0 < r < 32
    ensures RotateLeft(d, r, Int) == Or(Up(d, r), Down(d, 32 - r))
  {
  }

  lemma OrUp(x: bv32, y: bv32)
    ensures Up(Or(x, y), 1) == Or(Up(x, 1), Up(y, 1))
  {
  }

  lemma OrDown(x: bv32, y: bv32)
    ensures Down(Or(x, y), 31) == Or(Down(x, 31), Down(y, 31))
  {
  }

  lemma UpUp(d: bv32, r: bv32)
    requires r < 31
    ensures Up(Up(d, r), 1) == Up(d, r + 1)
  {
  }

  lemma LowestBits(d: bv32, r: bv32)
    requires 0 < r < 31
    ensures Down(d, 31 - r) == Or(Down(Up(d, r), 31), Up(Down(d, 32 - r), 1))
  {
  }

  lemma DownGone(d: bv32, r: bv32)
    requires 0 < r < 31
    ensures Down(Down(d, 32 - r), 31) == 0
  {
  }

  lemma Joined(a: bv32, b: bv32, c: bv32)
    ensures Or(Or(a, b), Or(c, 0)) == Or(a, Or(c, b))
  {
    OrNothing(c);
    OrComm(b, c);
    OrAssoc(a, b, c);
    hide Or;
  }

  lemma OrNothing(c: bv32)
    ensures Or(c, 0) == c
  {
  }

  lemma OrComm(b: bv32, c: bv32)
    ensures Or(b, c) == Or(c, b)
  {
  }

  lemma OrAssoc(a: bv32, b: bv32, c: bv32)
    ensures Or(Or(a, b), c) == Or(a, Or(b, c))
  {
  }

  // ----- Narrow rotations -----

  /** The value side by side with itself, filling 32 bits. */
  function Repeated(d: bv32, v: Width): bv32 {
    match v
    case Byte => Cat(B0(d), B0(d), B0(d), B0(d))
    case Short => Cat(B1(d), B0(d), B1(d), B0(d))
    case Int => d
  }

  /** The low bits of a narrow rotation are those of the 32-bit rotation of the repeated value. */
  lemma NarrowLeft(d: bv32, r: bv32, v: Width)
    requires IsRotation(r, v) && Low(d, v) == d
    ensures Low(RotateLeft(d, r, v), v) == Low(RotateLeft(Repeated(d, v), r, Int), v)
  {
    match v
    case Byte => ByteLeft(d, r, Repeated(d, Byte));
    case Short => ShortLeft(d, r, Repeated(d, Short));
    case Int =>
  }

  lemma ByteLeft(d: bv32, r: bv32, e: bv32)
    requires r < 8 && Low(d, Byte) == d && e == Repeated(d, Byte)
    ensures Low(RotateLeft(d, r, Byte), Byte) == Low(RotateLeft(e, r, Int), Byte)
  {
  }

  lemma ShortLeft(d: bv32, r: bv32, e: bv32)
    requires r < 16 && Low(d, Short) == d && e == Repeated(d, Short)
    ensures Low(RotateLeft(d, r, Short), Short) == Low(RotateLeft(e, r, Int), Short)
  {
  }

  // ----- Back -----

  /** ROR undoes ROL by the same amount: on 32 bits the whole word, on fewer the low bits. */
  lemma RightUndoesLeft(d: bv32, r: bv32, v: Width)
    requires IsRotation(r, v) && Low(d, v) == d && (v.Int? ==> r != 0)
    ensures Low(RotateRight(Low(RotateLeft(d, r, v), v), r, v), v) == d
  {
    match v
    case Byte => ByteBack(d, r);
    case Short => ShortBack(d, r);
    case Int => IntBack(d, r, RotateLeft(d, r, Int));
  }

  lemma IntBack(d: bv32, r: bv32, y: bv32)
    requires 0 < r < 32 && y == RotateLeft(d, r, Int)
    ensures RotateRight(y, r, Int) == d
  {
  }

  lemma ShortBack(d: bv32, r: bv32)
    requires r < 16 && Low(d, Short) == d
    ensures Low(RotateRight(Low(RotateLeft(d, r, Short), Short), r, Short), Short) == d
  {
  }

  lemma ByteBack(d: bv32, r: bv32)
    requires r < 8 && Low(d, Byte) == d
    ensures Low(RotateRight(Low(RotateLeft(d, r, Byte), Byte), r, Byte), Byte) == d
  {
  }
}
