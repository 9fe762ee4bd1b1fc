/** Where local variables live: which numbers share a place within one call, and some places in literals. */
module LocalHash {
  import opened Words
  import opened Alu
  import opened Forms
  import opened Program
  import opened Machine
  import opened Layout
  import opened Relation

  const LAST: bv32 := 0x857_C4B2
  const ROUND: bv32 := 0x346_6875

  // ----- Values of literals -----

  /** The integer of a word given by its bytes as integers. */
  lemma ValOf(x: bv32, b3: bv8, b2: bv8, b1: bv8, b0: bv8)
    requires x == Cat(b3, b2, b1, b0)
    ensures Val(x) == 0x100_0000 * b3 as nat + 0x1_0000 * b2 as nat + 0x100 * b1 as nat + b0 as nat
  {
    hide Cat, OfByte;
    ValCat(b3, b2, b1, b0);
    ToOfByte(b3);
    ToOfByte(b2);
    ToOfByte(b1);
    ToOfByte(b0);
  }

  lemma LastVal()
    ensures Val(LAST) == 0x857_C4B2
  {
    ValOf(LAST, 0x08, 0x57, 0xC4, 0xB2);
  }

  lemma RoundVal()
    ensures Val(ROUND) == 0x346_6875
  {
    ValOf(ROUND, 0x03, 0x46, 0x68, 0x75);
  }

  // ----- The hash as arithmetic -----

  lemma HashIs(base: bv32, id: bv32)
    ensures Hash(base, id) == Low(Mul(Xor(KeyHash(base, 4), id), LAST), Short)
  {
    hide Mul, KeyHash, Val;
  }

  lemma HashVal(base: bv32, id: bv32)
    ensures Val(Hash(base, id)) == Val(Xor(KeyHash(base, 4), id)) * 0x857_C4B2 % 0x1_0000
  {
    hide Mul, KeyHash, Val, Low, Hash, Wrap, Xor;
    var x := Xor(KeyHash(base, 4), id);
    var n := Val(x) * 0x857_C4B2;
    HashIs(base, id);
    LastVal();
    MulIs(x, LAST);
    ValWrap(n);
    LowVal(Wrap(n), Short);
    WrapsAway(n, Short);
  }

  /** The multiplier is twice an odd number, so modulo 2^16 it tells exactly the low 15 bits apart. */
  lemma MultiplierSeparates(a: nat, b: nat)
    ensures a * 0x857_C4B2 % 0x1_0000 == b * 0x857_C4B2 % 0x1_0000 <==> a % 0x8000 == b % 0x8000
  {
    if a % 0x8000 == b % 0x8000 {
      SameLowSameProduct(a, b);
    } else if a * 0x857_C4B2 % 0x1_0000 == b * 0x857_C4B2 % 0x1_0000 {
      SameProductSameLow(a, b);
    }
  }

  lemma SameLowSameProduct(a: nat, b: nat)
    requires a % 0x8000 == b % 0x8000
    ensures a * 0x857_C4B2 % 0x1_0000 == b * 0x857_C4B2 % 0x1_0000
  {
    var q := a / 0x8000 - b / 0x8000;
    assert a == b + 0x8000 * q;
    AddMultiple(q * 69984857, b * 0x857_C4B2, Short);
  }

  /** 17897 undoes half the multiplier modulo 2^15. */
  lemma SameProductSameLow(a: nat, b: nat)
    requires a * 0x857_C4B2 % 0x1_0000 == b * 0x857_C4B2 % 0x1_0000
    ensures a % 0x8000 == b % 0x8000
  {
    var d := a - b;
    var q := a * 0x857_C4B2 / 0x1_0000 - b * 0x857_C4B2 / 0x1_0000;
    assert d * 0x857_C4B2 == 0x1_0000 * q;
    assert d * 69984857 == 0x8000 * q;
    assert d == 0x8000 * (q * 17897 - d * 38223846);
    var k := q * 17897 - d * 38223846;
    assert a == b + 0x8000 * k;
  }

  // ----- The low 15 bits -----

  function Low15(x: bv32): bv32 { x & 0x7FFF }

  function LowSeven(b: bv8): bv8 { b & 0x7F }

  lemma LowSevenVal(b: bv8)
    ensures OfByte(LowSeven(b)) == OfByte(b) % 128
  {
    hide OfByte;
    ToOfByte(b);
    ToOfByte(LowSeven(b));
    SevenBits(b);
  }

  lemma SevenBits(b: bv8)
    ensures LowSeven(b) as nat == b as nat % 128
  {
  }

  lemma Low15Bytes(x: bv32)
    ensures Low15(x) == Cat(0, 0, LowSeven(B1(x)), B0(x))
  {
  }

  lemma Low15Val(x: bv32)
    ensures Val(Low15(x)) == Val(x) % 0x8000
  {
    hide Cat, B0, B1, B2, B3, OfByte, Low15, LowSeven;
    var b3, b2, b1, b0 := B3(x), B2(x), B1(x), B0(x);
    Low15Bytes(x);
    CatBytes(0, 0, LowSeven(b1), b0);
    ZeroByte();
    LowSevenVal(b1);
    OfByteBound(b1);
    OfByteBound(b0);
    Digits15(OfByte(b3), OfByte(b2), OfByte(b1), OfByte(b0));
  }

  lemma Digits15(b3: nat, b2: nat, b1: nat, b0: nat)
    requires b1 < 256 && b0 < 256
    ensures (0x100_0000 * b3 + 0x1_0000 * b2 + 0x100 * b1 + b0) % 0x8000 == 0x100 * (b1 % 128) + b0
  {
    var q, r := 0x200 * b3 + 2 * b2 + b1 / 128, 0x100 * (b1 % 128) + b0;
    assert b1 == 128 * (b1 / 128) + b1 % 128;
    QuotientApart(0x100_0000 * b3 + 0x1_0000 * b2 + 0x100 * b1 + b0, q, r);
  }

  lemma QuotientApart(n: nat, q: nat, r: nat)
    requires n == 0x8000 * q + r && r < 0x8000
    ensures n % 0x8000 == r
  {
  }

  lemma Low15Equal(x: bv32, y: bv32)
    ensures Low15(x) == Low15(y) <==> Low15(Xor(x, y)) == 0
  {
    if Low15(x) == Low15(y) {
      EqualDiffers(x, y);
    } else if Low15(Xor(x, y)) == 0 {
      DiffersEqual(x, y);
    }
  }

  lemma EqualDiffers(x: bv32, y: bv32)
    requires Low15(x) == Low15(y)
    ensures Low15(Xor(x, y)) == 0
  {
  }

  lemma DiffersEqual(x: bv32, y: bv32)
    requires Low15(Xor(x, y)) == 0
    ensures Low15(x) == Low15(y)
  {
  }

  /** Within one call two variable numbers share their place exactly when they agree in their low 15 bits. */
  lemma HashSeparates(base: bv32, i: bv32, j: bv32)
    ensures Hash(base, i) == Hash(base, j) <==> (i ^ j) & 0x7FFF == 0
  {
    assert (i ^ j) & 0x7FFF == Low15(Xor(i, j));
    hide Hash, KeyHash, Xor, Low15, Val;
    var k := KeyHash(base, 4);
    var x, y := Xor(k, i), Xor(k, j);
    HashVal(base, i);
    HashVal(base, j);
    MultiplierSeparates(Val(x), Val(y));
    Low15Val(x);
    Low15Val(y);
    if Hash(base, i) == Hash(base, j) {
      ValInjective(Low15(x), Low15(y));
    } else if Low15(x) == Low15(y) {
      ValInjective(Hash(base, i), Hash(base, j));
    }
    Low15Equal(x, y);
    XorComm(k, i);
    XorCancel(i, k, j);
  }

  // ----- Places in literals -----

  /** One round in literals. */
  lemma Round(base: bv32, n: nat, y: bv32, z: bv32)
    requires n < 4 && y == Xor(KeyHash(base, n), Shifted(base, n))
    requires Val(y) * 0x346_6875 % WORD_LIMIT == Val(z)
    ensures KeyHash(base, n + 1) == z
  {
    hide Mul, Val, Wrap, Xor, Shifted;
    RoundVal();
    MulIs(y, ROUND);
    ValWrap(Val(y) * 0x346_6875);
    ValInjective(Mul(y, ROUND), z);
  }

  lemma OutermostMixed()
    ensures Shifted(0x0, 0) == 0x0 && Xor(0x4571_CBE2, 0x0) == 0x4571_CBE2
    ensures Shifted(0x0, 1) == 0x0 && Xor(0x5DA1_FE4A, 0x0) == 0x5DA1_FE4A
    ensures Shifted(0x0, 2) == 0x0 && Xor(0x93_47D2, 0x0) == 0x93_47D2
    ensures Shifted(0x0, 3) == 0x0 && Xor(0x31E9_22FA, 0x0) == 0x31E9_22FA
  {
  }

  lemma OutermostKey()
    ensures KeyHash(0x0, 4) == 0x41E_8C42
  {
    hide Val, Mul, Xor, Shifted;
    OutermostMixed();
    ValOf(0x4571_CBE2, 0x45, 0x71, 0xCB, 0xE2);
    ValOf(0x5DA1_FE4A, 0x5D, 0xA1, 0xFE, 0x4A);
    ValOf(0x93_47D2, 0x00, 0x93, 0x47, 0xD2);
    ValOf(0x31E9_22FA, 0x31, 0xE9, 0x22, 0xFA);
    ValOf(0x41E_8C42, 0x04, 0x1E, 0x8C, 0x42);
    Round(0x0, 0, 0x4571_CBE2, 0x5DA1_FE4A);
    Round(0x0, 1, 0x5DA1_FE4A, 0x93_47D2);
    Round(0x0, 2, 0x93_47D2, 0x31E9_22FA);
    Round(0x0, 3, 0x31E9_22FA, 0x41E_8C42);
  }

  lemma InnerMixed()
    ensures Shifted(0x12_3456, 0) == 0x12_3456 && Xor(0x4571_CBE2, 0x12_3456) == 0x4563_FFB4
    ensures Shifted(0x12_3456, 1) == 0x1234 && Xor(0x5DCC_FD44, 0x1234) == 0x5DCC_EF70
    ensures Shifted(0x12_3456, 2) == 0x12 && Xor(0xE88E_EE30, 0x12) == 0xE88E_EE22
    ensures Shifted(0x12_3456, 3) == 0x0 && Xor(0xDD5C_A58A, 0x0) == 0xDD5C_A58A
  {
  }

  lemma InnerKey()
    ensures KeyHash(0x12_3456, 4) == 0xB053_B812
  {
    hide Val, Mul, Xor, Shifted;
    InnerMixed();
    ValOf(0x4563_FFB4, 0x45, 0x63, 0xFF, 0xB4);
    ValOf(0x5DCC_FD44, 0x5D, 0xCC, 0xFD, 0x44);
    ValOf(0x5DCC_EF70, 0x5D, 0xCC, 0xEF, 0x70);
    ValOf(0xE88E_EE30, 0xE8, 0x8E, 0xEE, 0x30);
    ValOf(0xE88E_EE22, 0xE8, 0x8E, 0xEE, 0x22);
    ValOf(0xDD5C_A58A, 0xDD, 0x5C, 0xA5, 0x8A);
    ValOf(0xB053_B812, 0xB0, 0x53, 0xB8, 0x12);
    Round(0x12_3456, 0, 0x4563_FFB4, 0x5DCC_FD44);
    Round(0x12_3456, 1, 0x5DCC_EF70, 0xE88E_EE30);
    Round(0x12_3456, 2, 0xE88E_EE22, 0xDD5C_A58A);
    Round(0x12_3456, 3, 0xDD5C_A58A, 0xB053_B812);
  }

  lemma VariableMixed()
    ensures Xor(0x41E_8C42, 0) == 0x41E_8C42 && Xor(0x41E_8C42, 1) == 0x41E_8C43 && Xor(0xB053_B812, 1) == 0xB053_B813
  {
  }

  /** The places of the variables 0 and 1 of the outermost frame, and of variable 1 of an inner one. */
  lemma FirstPlace()
    ensures Hash(0x0, 0x0) == 0xDE4
  {
    hide Val, Hash, Xor, KeyHash;
    OutermostKey();
    VariableMixed();
    HashVal(0x0, 0x0);
    ValOf(0x41E_8C42, 0x04, 0x1E, 0x8C, 0x42);
    ValOf(0xDE4, 0x00, 0x00, 0x0D, 0xE4);
    ValInjective(Hash(0x0, 0x0), 0xDE4);
  }

  lemma SecondPlace()
    ensures Hash(0x0, 0x1) == 0xD296
  {
    hide Val, Hash, Xor, KeyHash;
    OutermostKey();
    VariableMixed();
    HashVal(0x0, 0x1);
    ValOf(0x41E_8C43, 0x04, 0x1E, 0x8C, 0x43);
    ValOf(0xD296, 0x00, 0x00, 0xD2, 0x96);
    ValInjective(Hash(0x0, 0x1), 0xD296);
  }

  lemma InnerPlace()
    ensures Hash(0x12_3456, 0x1) == 0x8936
  {
    hide Val, Hash, Xor, KeyHash;
    InnerKey();
    VariableMixed();
    HashVal(0x12_3456, 0x1);
    ValOf(0xB053_B813, 0xB0, 0x53, 0xB8, 0x13);
    ValOf(0x8936, 0x00, 0x00, 0x89, 0x36);
    ValInjective(Hash(0x12_3456, 0x1), 0x8936);
  }

  lemma PlaceVals()
    ensures Val(0x0DE4) == 0x0DE4 && Val(0xD296) == 0xD296
  {
    hide Val;
    ValOf(0x0DE4, 0x00, 0x00, 0x0D, 0xE4);
    ValOf(0xD296, 0x00, 0x00, 0xD2, 0x96);
  }

  /** In every image the variables 0 and 1 of the outermost frame keep out of each other's way. */
  lemma OutermostNoClash(ch: Choice, img: Image)
    ensures NoClash(ch, img, {LocalKey(Outermost, 0), LocalKey(Outermost, 1)})
  {
    hide Val, Hash;
    FirstPlace();
    SecondPlace();
    PlaceVals();
  }

  /** Two variables of one frame that agree in their low 15 bits cannot be used in one program. */
  lemma AlwaysClash(ch: Choice, img: Image, u: set<LocalKey>, f: Frame, i: bv32, j: bv32)
    requires LocalKey(f, i) in u && LocalKey(f, j) in u && i != j && (i ^ j) & 0x7FFF == 0
    ensures !NoClash(ch, img, u)
  {
    HashSeparates(FrameAddress(ch, img, f), i, j);
    hide Hash, Val, FrameAddress;
    assert WindowAt(ch, img, LocalKey(f, i)) == WindowAt(ch, img, LocalKey(f, j));
  }
}
