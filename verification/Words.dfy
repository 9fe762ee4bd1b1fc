/** 32-bit words, bytes, and the bridge between words and unbounded integers.
    A `bv32` stands for a C `uint32_t`, a `bv8` for a `uint8_t`. Memory and code are indexed by
    integers, so every address passes through `Val`; the assembler computes offsets as integers,
    so every offset passes through `Word`. */
module Words {

  /** Operand widths: V_BYTE, V_SHORT and V_INT of the instruction header. */
  datatype Width = Byte | Short | Int {
    function Bytes(): (n: nat)
      ensures 1 <= n <= 4
    {
      match this
      case Byte => 1
      case Short => 2
      case Int => 4
    }

    /** The two-bit code of a width in an instruction header. */
    function Code(): bv2 {
      match this
      case Byte => 1
      case Short => 2
      case Int => 3
    }
  }

  const WORD_LIMIT: nat := 0x1_0000_0000

  // ----- Bytes of a word -----

  function B0(x: bv32): bv8 { (x & 0xFF) as bv8 }

  function B1(x: bv32): bv8 { ((x >> 8) & 0xFF) as bv8 }

  function B2(x: bv32): bv8 { ((x >> 16) & 0xFF) as bv8 }

  function B3(x: bv32): bv8 { ((x >> 24) & 0xFF) as bv8 }

  /** The word whose bytes, most significant first, are the arguments. */
  function Cat(b3: bv8, b2: bv8, b1: bv8, b0: bv8): bv32 {
    (b3 as bv32 << 24) | (b2 as bv32 << 16) | (b1 as bv32 << 8) | b0 as bv32
  }

  lemma CatBytes(b3: bv8, b2: bv8, b1: bv8, b0: bv8)
    ensures var x := Cat(b3, b2, b1, b0); B0(x) == b0 && B1(x) == b1 && B2(x) == b2 && B3(x) == b3
  {
  }

  lemma BytesCat(x: bv32)
    ensures Cat(B3(x), B2(x), B1(x), B0(x)) == x
  {
  }

  // ----- Exclusive or and inclusive or -----

  function Xor(x: bv32, y: bv32): bv32 { x ^ y }

  function Or(x: bv32, y: bv32): bv32 { x | y }

  lemma XorBack(z: bv32, x: bv32, y: bv32)
    requires z == Xor(x, y)
    ensures Xor(z, y) == x && Xor(y, z) == x
  {
  }

  lemma XorMoved(z: bv32, x: bv32, y: bv32)
    requires z == Xor(x, y)
    ensures Xor(z, x) == y && Xor(x, z) == y
  {
  }

  lemma XorComm(x: bv32, y: bv32)
    ensures Xor(x, y) == Xor(y, x)
  {
  }

  lemma XorAssoc(x: bv32, y: bv32, z: bv32)
    ensures Xor(Xor(x, y), z) == Xor(x, Xor(y, z))
  {
  }

  lemma XorCancel(x: bv32, y: bv32, z: bv32)
    ensures Xor(Xor(x, y), Xor(y, z)) == Xor(x, z)
  {
  }

  lemma XorZero(x: bv32)
    ensures Xor(0, x) == x && Xor(x, 0) == x
  {
  }

  function OrByte(b: bv8, c: bv8): bv8 { b | c }

  lemma OrByteZero(b: bv8, c: bv8)
    ensures b == 0 ==> OrByte(b, c) == c
    ensures c == 0 ==> OrByte(b, c) == b
  {
  }

  /** Bytes of words join separately. */
  lemma OrBytes(x: bv32, y: bv32)
    ensures B0(Or(x, y)) == OrByte(B0(x), B0(y)) && B1(Or(x, y)) == OrByte(B1(x), B1(y))
    ensures B2(Or(x, y)) == OrByte(B2(x), B2(y)) && B3(Or(x, y)) == OrByte(B3(x), B3(y))
  {
    LowestOr(x, y);
    SecondOr(x, y);
    ThirdOr(x, y);
    HighestOr(x, y);
    hide Or, OrByte, B0, B1, B2, B3;
  }

  lemma LowestOr(x: bv32, y: bv32)
    ensures B0(Or(x, y)) == OrByte(B0(x), B0(y))
  {
  }

  lemma SecondOr(x: bv32, y: bv32)
    ensures B1(Or(x, y)) == OrByte(B1(x), B1(y))
  {
  }

  lemma ThirdOr(x: bv32, y: bv32)
    ensures B2(Or(x, y)) == OrByte(B2(x), B2(y))
  {
  }

  lemma HighestOr(x: bv32, y: bv32)
    ensures B3(Or(x, y)) == OrByte(B3(x), B3(y))
  {
  }

  lemma OrZero(x: bv32)
    ensures 0 | x == x
  {
  }

  // ----- Words and integers -----

  /** The byte of an integer and the integer of a byte, by counting: a proof that unfolds them meets no
      conversion between bit vectors and integers. ByteIs shows that they are these conversions. */
  function ToByte(n: nat): bv8
    requires n < 256
  {
    if n == 0 then 0 else ToByte(n - 1) + 1
  }

  function OfByte(b: bv8): (n: nat)
    decreases b
  {
    if b == 0 then 0 else OfByte(b - 1) + 1
  }

  /** The integer a word denotes. */
  function Val(x: bv32): (n: nat) {
    0x100_0000 * OfByte(B3(x)) + 0x1_0000 * OfByte(B2(x)) + 0x100 * OfByte(B1(x)) + OfByte(B0(x))
  }

  /** The word denoting an integer. */
  function Word(n: nat): bv32
    requires n < WORD_LIMIT
  {
    Cat(ToByte(n / 0x100_0000), ToByte(n / 0x1_0000 % 0x100), ToByte(n / 0x100 % 0x100), ToByte(n % 0x100))
  }

  lemma Digits(n: nat)
    requires n < WORD_LIMIT
    ensures n == 0x100_0000 * (n / 0x100_0000) + 0x1_0000 * (n / 0x1_0000 % 0x100)
                 + 0x100 * (n / 0x100 % 0x100) + n % 0x100
  {
    assert n / 0x100 == 0x100 * (n / 0x1_0000) + n / 0x100 % 0x100;
    assert n / 0x1_0000 == 0x100 * (n / 0x100_0000) + n / 0x1_0000 % 0x100;
  }

  lemma FromDigits(a: nat, b: nat, c: nat, d: nat)
    requires a < 256 && b < 256 && c < 256 && d < 256
    ensures var n := 0x100_0000 * a + 0x1_0000 * b + 0x100 * c + d;
            && n < WORD_LIMIT
            && n / 0x100_0000 == a && n / 0x1_0000 % 0x100 == b && n / 0x100 % 0x100 == c && n % 0x100 == d
  {
    var n := 0x100_0000 * a + 0x1_0000 * b + 0x100 * c + d;
    assert n / 0x100 == 0x1_0000 * a + 0x100 * b + c;
    assert n / 0x1_0000 == 0x100 * a + b;
  }

  lemma {:induction false} ByteIs(n: nat)
    requires n < 256
    ensures ToByte(n) as nat == n && OfByte(ToByte(n)) == n
  {
    if n > 0 {
      ByteIs(n - 1);
      Counts(ToByte(n - 1), n - 1);
    }
  }

  lemma Counts(b: bv8, n: nat)
    requires b as nat == n && n < 255
    ensures (b + 1) as nat == n + 1 && b + 1 != 0 && b + 1 - 1 == b
  {
  }

  lemma OfToByte(n: nat)
    requires n < 256
    ensures OfByte(ToByte(n)) == n
  {
    ByteIs(n);
  }

  lemma {:induction false} ToOfByte(b: bv8)
    ensures OfByte(b) == b as nat && ToByte(OfByte(b)) == b
    decreases b
  {
    if b != 0 {
      ToOfByte(b - 1);
    }
  }

  lemma OfByteBound(b: bv8)
    ensures OfByte(b) < 256
  {
    ToOfByte(b);
  }

  /** Reading a word back as an integer undoes `Word`. */
  lemma ValWord(n: nat)
    requires n < WORD_LIMIT
    ensures Val(Word(n)) == n
  {
    hide ToByte, OfByte, Cat, B0, B1, B2, B3;
    Digits(n);
    var q3, q2, q1, q0 := n / 0x100_0000, n / 0x1_0000 % 0x100, n / 0x100 % 0x100, n % 0x100;
    OfToByte(q3);
    OfToByte(q2);
    OfToByte(q1);
    OfToByte(q0);
    CatBytes(ToByte(q3), ToByte(q2), ToByte(q1), ToByte(q0));
  }

  /** Every word is the word of exactly one integer below 2^32. */
  lemma WordVal(x: bv32)
    ensures Val(x) < WORD_LIMIT && Word(Val(x)) == x
  {
    hide ToByte, OfByte, Cat, B0, B1, B2, B3;
    var b3, b2, b1, b0 := B3(x), B2(x), B1(x), B0(x);
    BytesCat(x);
    ToOfByte(b3);
    ToOfByte(b2);
    ToOfByte(b1);
    ToOfByte(b0);
    FromDigits(OfByte(b3), OfByte(b2), OfByte(b1), OfByte(b0));
  }

  lemma ValInjective(x: bv32, y: bv32)
    requires Val(x) == Val(y)
    ensures x == y
  {
    hide Val, Word;
    WordVal(x);
    WordVal(y);
  }

  // ----- Unsigned arithmetic modulo 2^32 -----

  /** The word of an integer reduced modulo 2^32, as C's `uint32_t` conversion does. */
  function Wrap(n: int): bv32 {
    Word(n % WORD_LIMIT)
  }

  function Add(x: bv32, y: bv32): bv32 { Wrap(Val(x) + Val(y)) }

  function Sub(x: bv32, y: bv32): bv32 { Wrap(Val(x) - Val(y)) }

  /** A product as repeated addition: a proof that unfolds it meets no non-linear arithmetic. */
  function Times(a: nat, b: nat): nat {
    if a == 0 then 0 else Times(a - 1, b) + b
  }

  lemma {:induction false} TimesIs(a: nat, b: nat)
    ensures Times(a, b) == a * b
  {
    if a > 0 {
      TimesIs(a - 1, b);
    }
  }

  function Mul(x: bv32, y: bv32): bv32 { Wrap(Times(Val(x), Val(y))) }

  lemma MulIs(x: bv32, y: bv32)
    ensures Mul(x, y) == Wrap(Val(x) * Val(y))
  {
    hide Wrap, Val;
    TimesIs(Val(x), Val(y));
  }

  function Div(x: bv32, y: bv32): bv32
    requires Val(y) != 0
  {
    Wrap(Val(x) / Val(y))
  }

  function Mod(x: bv32, y: bv32): bv32
    requires Val(y) != 0
  {
    Wrap(Val(x) % Val(y))
  }

  lemma ValWrap(n: int)
    ensures Val(Wrap(n)) == n % WORD_LIMIT
  {
    hide Val, Word;
    ValWord(n % WORD_LIMIT);
  }

  /** Integers below 2^24 are words below 2^24. */
  lemma SmallWord(n: nat)
    requires n < 0x100_0000
    ensures Wrap(n) < 0x100_0000 && B3(Wrap(n)) == 0
  {
    hide Word, B3;
    assert Wrap(n) == Word(n);
    TopByte(n);
    TopByteZero(Word(n));
  }

  lemma TopByte(n: nat)
    requires n < 0x100_0000
    ensures B3(Word(n)) == 0
  {
    hide ToByte, Cat, B0, B1, B2, B3;
    CatBytes(ToByte(n / 0x100_0000), ToByte(n / 0x1_0000 % 0x100), ToByte(n / 0x100 % 0x100), ToByte(n % 0x100));
    assert n / 0x100_0000 == 0;
    ZeroByte();
  }

  lemma ZeroByte()
    ensures ToByte(0) == 0 && OfByte(0) == 0
  {
  }

  lemma SmallWords()
    ensures Word(0) == 0 && Word(1) == 1
  {
    assert ToByte(0) == 0 && ToByte(1) == 1;
    hide ToByte;
    assert Word(0) == Cat(0, 0, 0, 0) && Word(1) == Cat(0, 0, 0, 1);
    hide Word;
  }

  lemma TopByteZero(x: bv32)
    ensures B3(x) == 0 ==> x < 0x100_0000
  {
  }
}
