/** The Mersenne Twister as a stream of words: MT19937 of section 26.5.3.2 [rand.eng.mers] of
    ISO/IEC 14882:2011, seeded with the multiplier 6069. */
module Twister {
  import opened Words

  const N: nat := 624
  const UPPER: bv32 := 0x8000_0000
  const LOWER: bv32 := 0x7FFF_FFFF
  const MATRIX: bv32 := 0x9908_B0DF

  /** The upper bit of one word and the lower 31 bits of the next. */
  function Joined(a: bv32, b: bv32): bv32 { (a & UPPER) | (b & LOWER) }

  function Mag(y: bv32): bv32 { if y & 1 == 0 then 0 else MATRIX }

  function Half(y: bv32): bv32 { y >> 1 }

  function Twist(a: bv32, b: bv32, c: bv32): bv32 {
    Xor(Xor(c, Half(Joined(a, b))), Mag(Joined(a, b)))
  }

  /** The n-th word of the stream: 624 seeded words, then the recurrence. */
  function Stream(seed: bv32, n: nat): bv32
    decreases n
  {
    if n == 0 then seed
    else if n < N then Mul(Stream(seed, n - 1), Word(6069))
    else Twist(Stream(seed, n - 624), Stream(seed, n - 623), Stream(seed, n - 227))
  }

  /** The seeded words are the powers of 6069 times the seed. */
  lemma {:induction false} SeededWords(seed: bv32, n: nat)
    requires n < 624
    ensures Val(Stream(seed, n)) == Val(seed) * Power(6069, n) % 0x1_0000_0000
  {
    hide Val, Mul, Word, Twist;
    if n == 0 {
      WordVal(seed);
    } else {
      var x, q := Stream(seed, n - 1), Val(seed) * Power(6069, n - 1);
      SeededWords(seed, n - 1);
      ValWord(6069);
      MulIs(x, Word(6069));
      ValWrap(Val(x) * 6069);
      ReducedTimes(q, 6069);
      Regrouped(Val(seed), Power(6069, n - 1));
    }
  }

  function Power(b: nat, n: nat): nat { if n == 0 then 1 else b * Power(b, n - 1) }

  lemma Regrouped(a: nat, b: nat)
    ensures a * b * 6069 == a * (6069 * b)
  {
  }

  lemma ReducedTimes(q: nat, b: nat)
    ensures q % WORD_LIMIT * b % WORD_LIMIT == q * b % WORD_LIMIT
  {
    var k, r := q / WORD_LIMIT, q % WORD_LIMIT;
    assert q * b == r * b + k * b * WORD_LIMIT;
    SameRest(r * b, k * b);
  }

  lemma SameRest(n: int, k: int)
    ensures (n + k * WORD_LIMIT) % WORD_LIMIT == n % WORD_LIMIT
  {
  }

  /** Each later word is made of those 624, 623 and 227 places before it. */
  lemma LaterWords(seed: bv32, n: nat)
    ensures Stream(seed, n + 624) == Twist(Stream(seed, n), Stream(seed, n + 1), Stream(seed, n + 397))
  {
    hide Twist, Mul;
  }

  // ----- The twist, bit by bit -----

  /** The third word goes through as it is, and nothing comes from nothing. */
  lemma TwistPlain(a: bv32, b: bv32, c: bv32)
    ensures Twist(0, 0, 0) == 0
    ensures Twist(a, b, c) == Xor(Twist(a, b, 0), c)
  {
    assert Mag(Joined(0, 0)) == 0 && Half(Joined(0, 0)) == 0;
    hide Mag, Joined, Half;
    XorSwap(Half(Joined(a, b)), Mag(Joined(a, b)), c);
  }

  lemma XorSwap(h: bv32, m: bv32, c: bv32)
    ensures Xor(Xor(c, h), m) == Xor(Xor(Xor(0, h), m), c)
    ensures Xor(Xor(0, 0), 0) == 0
  {
    XorZero(0);
    XorZero(h);
    hide Xor;
    XorAssoc(c, h, m);
    XorComm(c, Xor(h, m));
  }

  /** The lowest bit of the second word brings in the matrix. */
  lemma TwistLowest(a: bv32, b: bv32, c: bv32)
    ensures Xor(Twist(a, b, c), Twist(a, Xor(b, 1), c)) == 0x9908_B0DF
  {
    JoinedLowest(a, b);
    hide Joined, Half;
    MagDiffers(Joined(a, b), Joined(a, Xor(b, 1)), Xor(c, Half(Joined(a, b))));
  }

  lemma JoinedLowest(a: bv32, b: bv32)
    ensures Half(Joined(a, Xor(b, 1))) == Half(Joined(a, b))
    ensures Joined(a, Xor(b, 1)) & 1 == 0 <==> Joined(a, b) & 1 != 0
  {
  }

  lemma MagDiffers(y: bv32, z: bv32, h: bv32)
    requires z & 1 == 0 <==> y & 1 != 0
    ensures Xor(Xor(h, Mag(y)), Xor(h, Mag(z))) == 0x9908_B0DF
  {
  }

  /** A bit of the second word between the lowest and the highest moves down by one. */
  lemma TwistMiddle(a: bv32, b: bv32, c: bv32, bits: bv32)
    requires bits & 0x8000_0001 == 0
    ensures Xor(Twist(a, b, c), Twist(a, Xor(b, bits), c)) == Half(bits)
  {
    JoinedMiddle(a, b, bits);
    HalfDiffers(c, Half(Joined(a, b)), Half(bits), Mag(Joined(a, b)));
    hide Joined, Half;
  }

  lemma JoinedMiddle(a: bv32, b: bv32, bits: bv32)
    requires bits & 0x8000_0001 == 0
    ensures Half(Joined(a, Xor(b, bits))) == Xor(Half(Joined(a, b)), Half(bits))
    ensures Mag(Joined(a, Xor(b, bits))) == Mag(Joined(a, b))
  {
  }

  lemma HalfDiffers(c: bv32, h: bv32, k: bv32, m: bv32)
    ensures Xor(Xor(Xor(c, h), m), Xor(Xor(c, Xor(h, k)), m)) == k
  {
    hide Xor;
    var x := Xor(c, h);
    XorAssoc(c, h, k);
    XorComm(Xor(x, k), m);
    XorCancel(x, m, Xor(x, k));
    XorMoved(Xor(x, k), x, k);
  }

  /** The highest bit of the first word moves down by one; that of the second does not count. */
  lemma TwistHighest(a: bv32, b: bv32, c: bv32)
    ensures Xor(Twist(a, b, c), Twist(Xor(a, 0x8000_0000), b, c)) == 0x4000_0000
    ensures Twist(a, Xor(b, 0x8000_0000), c) == Twist(a, b, c)
  {
    JoinedHighest(a, b);
    HalfDiffers(c, Half(Joined(a, b)), 0x4000_0000, Mag(Joined(a, b)));
    hide Joined, Half;
  }

  lemma JoinedHighest(a: bv32, b: bv32)
    ensures Half(Joined(Xor(a, 0x8000_0000), b)) == Xor(Half(Joined(a, b)), 0x4000_0000)
    ensures Mag(Joined(Xor(a, 0x8000_0000), b)) == Mag(Joined(a, b))
    ensures Joined(a, Xor(b, 0x8000_0000)) == Joined(a, b)
  {
  }

  /** No other bit of the first word counts. */
  lemma TwistLower(a: bv32, b: bv32, c: bv32, bits: bv32)
    requires bits & 0x8000_0000 == 0
    ensures Twist(Xor(a, bits), b, c) == Twist(a, b, c)
  {
    JoinedLower(a, b, bits);
    hide Joined, Half;
  }

  lemma JoinedLower(a: bv32, b: bv32, bits: bv32)
    requires bits & 0x8000_0000 == 0
    ensures Joined(Xor(a, bits), b) == Joined(a, b)
  {
    hide Xor, Joined;
    SameUpper(Xor(a, bits), a, bits);
    SameJoined(Xor(a, bits), a, b);
  }

  lemma SameJoined(x: bv32, a: bv32, b: bv32)
    requires x & UPPER == a & UPPER
    ensures Joined(x, b) == Joined(a, b)
  {
  }

  lemma SameUpper(x: bv32, a: bv32, bits: bv32)
    requires bits & 0x8000_0000 == 0 && x == Xor(a, bits)
    ensures x & UPPER == a & UPPER
  {
  }

  // ----- Tempering, and how to undo it -----

  function Right11(x: bv32): bv32 { x >> 11 }

  function Right22(x: bv32): bv32 { x >> 22 }

  function Right18(x: bv32): bv32 { x >> 18 }

  function Left(x: bv32, n: bv32): bv32
    requires n < 32
  {
    x << n
  }

  function Masked(x: bv32, mask: bv32): bv32 { x & mask }

  function Shift11(x: bv32): bv32 { Xor(x, Right11(x)) }

  function Shift7(x: bv32): bv32 { Xor(x, Masked(Left(x, 7), 0x9D2C_5680)) }

  function Shift15(x: bv32): bv32 { Xor(x, Mix15(x)) }

  function Mix15(x: bv32): bv32 { Masked(Left(x, 15), 0xEFC6_0000) }

  function Shift18(x: bv32): bv32 { Xor(x, Right18(x)) }

  /** The tempering applied to each word on output. */
  function Temper(x: bv32): bv32 { Shift18(Shift15(Shift7(Shift11(x)))) }

  function Undo11(x: bv32): bv32 { Xor(Shift11(x), Right22(x)) }

  function Undo7(x: bv32): bv32 {
    var a := Shift7(x);
    var b := x ^ ((a << 7) & 0x9D2C_5680);
    var c := x ^ ((b << 7) & 0x9D2C_5680);
    x ^ ((c << 7) & 0x9D2C_5680)
  }

  function Untemper(x: bv32): bv32 { Undo11(Undo7(Shift15(Shift18(x)))) }

  lemma UndoShift18(x: bv32)
    ensures Shift18(Shift18(x)) == x
  {
    hide Xor, Right18;
    SameTop18(Shift18(x), x);
    XorBack(Shift18(x), x, Right18(x));
  }

  lemma SameTop18(a: bv32, x: bv32)
    requires a == Xor(x, Right18(x))
    ensures Right18(a) == Right18(x)
  {
  }

  lemma UndoShift15(x: bv32)
    ensures Shift15(Shift15(x)) == x
  {
    hide Xor, Mix15;
    SameMix15(Shift15(x), x);
    XorBack(Shift15(x), x, Mix15(x));
  }

  lemma SameMix15(a: bv32, x: bv32)
    requires a == Xor(x, Mix15(x))
    ensures Mix15(a) == Mix15(x)
  {
  }

  lemma UndoShift7(x: bv32)
    ensures Undo7(Shift7(x)) == x
  {
  }

  lemma UndoShift11(x: bv32)
    ensures Undo11(Shift11(x)) == x
  {
    hide Xor, Right11, Right22;
    var a, y := Shift11(x), Right11(x);
    RightXor(x, y);
    XorCancel(x, y, Right22(x));
    SameTop22(a, x);
    XorBack(Shift11(a), x, Right22(x));
  }

  lemma RightXor(x: bv32, y: bv32)
    ensures Right11(Xor(x, y)) == Xor(Right11(x), Right11(y))
    ensures Right11(Right11(x)) == Right22(x)
  {
  }

  lemma SameTop22(a: bv32, x: bv32)
    requires a == Xor(x, Right11(x))
    ensures Right22(a) == Right22(x)
  {
  }

  /** Three tempered words. */
  lemma TemperedWords()
    ensures Temper(1) == 0x0040_0091
    ensures Temper(0x8000_0000) == 0x8810_2204
    ensures Temper(0x1234_5678) == 0x2B7E_4A2D
    ensures Temper(0xFFE0_03FF) == 0xA655_80EA
    ensures Temper(0xF2C5_B1C9) == 0x1039_FBF1
  {
  }

  /** Every output determines the word it was made from. */
  lemma TemperInvertible(x: bv32)
    ensures Untemper(Temper(x)) == x
  {
    hide Shift11, Shift7, Shift15, Shift18, Undo11, Undo7;
    UndoShift18(Shift15(Shift7(Shift11(x))));
    UndoShift15(Shift7(Shift11(x)));
    UndoShift7(Shift11(x));
    UndoShift11(x);
  }

  /** The outputs of one generation determine its 624 words, and with them the whole stream after it. */
  lemma {:induction false} OutputsDetermineStream(s: bv32, t: bv32, m: nat, n: nat)
    requires forall k :: m <= k < m + N ==> Temper(Stream(s, k)) == Temper(Stream(t, k))
    requires n >= m
    ensures Stream(s, n) == Stream(t, n)
    decreases n
  {
    hide Temper, Untemper, Twist;
    if n < m + N {
      TemperInvertible(Stream(s, n));
      TemperInvertible(Stream(t, n));
    } else {
      OutputsDetermineStream(s, t, m, n - 624);
      OutputsDetermineStream(s, t, m, n - 623);
      OutputsDetermineStream(s, t, m, n - 227);
    }
  }
}
