/** Reversing bits one at a time, as the REV handler and the constraint generator do. */
module BitReversal {
  import opened Words
  import opened Alu

  function Appended(rev: bv32, src: bv32): bv32 { (rev << 1) | (src & 1) }

  function Halved(src: bv32): bv32 { src >> 1 }

  /** `n` rounds of moving the lowest bit of `src` to the low end of `rev`. */
  function ShiftBits(rev: bv32, src: bv32, n: nat): bv32
    decreases n
  {
    if n == 0 then rev else ShiftBits(Appended(rev, src), Halved(src), n - 1)
  }

  /** Two rounds at once. */
  function AppendedTwice(rev: bv32, src: bv32): bv32 { Appended(Appended(rev, src), Halved(src)) }

  function HalvedTwice(src: bv32): bv32 { Halved(Halved(src)) }

  lemma ShiftTwo(rev: bv32, src: bv32, n: nat)
    requires n >= 2
    ensures ShiftBits(rev, src, n) == ShiftBits(AppendedTwice(rev, src), HalvedTwice(src), n - 2)
  {
    hide Appended, Halved;
    assert ShiftBits(rev, src, n) == ShiftBits(Appended(rev, src), Halved(src), n - 1);
  }

  function AppendByte(rev: bv32, b: bv8): bv32 { (rev << 8) | b as bv32 }

  function DropByte(src: bv32): bv32 { src >> 8 }

  /** Eight rounds append the reversed low byte. */
  lemma ShiftByte(rev: bv32, src: bv32, n: nat)
    requires n >= 8
    ensures ShiftBits(rev, src, n) == ShiftBits(AppendByte(rev, ReverseByte(B0(src))), DropByte(src), n - 8)
  {
    hide ReverseByte, B0, AppendByte, DropByte, AppendedTwice, HalvedTwice, ShiftBits;
    var r1, s1 := AppendedTwice(rev, src), HalvedTwice(src);
    var r2, s2 := AppendedTwice(r1, s1), HalvedTwice(s1);
    var r3, s3 := AppendedTwice(r2, s2), HalvedTwice(s2);
    ShiftTwo(rev, src, n);
    ShiftTwo(r1, s1, n - 2);
    ShiftTwo(r2, s2, n - 4);
    ShiftTwo(r3, s3, n - 6);
    EightRounds(rev, src);
  }

  lemma EightRounds(rev: bv32, src: bv32)
    ensures var r1, s1 := AppendedTwice(rev, src), HalvedTwice(src);
            var r2, s2 := AppendedTwice(r1, s1), HalvedTwice(s1);
            var r3, s3 := AppendedTwice(r2, s2), HalvedTwice(s2);
            AppendedTwice(r3, s3) == AppendByte(rev, ReverseByte(B0(src))) && HalvedTwice(s3) == DropByte(src)
  {
  }

  /** As many rounds as the width has bits reverse the low bits. */
  lemma ShiftReverses(x: bv32, v: Width)
    ensures ShiftBits(0, x, 8 * v.Bytes()) == ReverseBits(x, v)
  {
    hide ReverseByte, B0, B1, B2, B3, Cat, AppendByte, DropByte;
    var a, b, c, d := ReverseByte(B0(x)), ReverseByte(B1(x)), ReverseByte(B2(x)), ReverseByte(B3(x));
    var x1 := DropByte(x);
    var x2 := DropByte(x1);
    var x3 := DropByte(x2);
    var r1 := AppendByte(0, a);
    var r2 := AppendByte(r1, b);
    var r3 := AppendByte(r2, c);
    DroppedBytes(x);
    JoinTwo(a, b);
    JoinFour(a, b, c, d);
    ShiftByte(0, x, 8 * v.Bytes());
    if !v.Byte? {
      ShiftByte(r1, x1, 8 * v.Bytes() - 8);
    }
    if v.Int? {
      ShiftByte(r2, x2, 16);
      ShiftByte(r3, x3, 8);
    }
  }

  lemma DroppedBytes(x: bv32)
    ensures B0(DropByte(x)) == B1(x)
    ensures B0(DropByte(DropByte(x))) == B2(x)
    ensures B0(DropByte(DropByte(DropByte(x)))) == B3(x)
  {
  }

  lemma JoinTwo(a: bv8, b: bv8)
    ensures AppendByte(0, a) == Cat(0, 0, 0, a)
    ensures AppendByte(AppendByte(0, a), b) == Cat(0, 0, a, b)
  {
  }

  lemma JoinFour(a: bv8, b: bv8, c: bv8, d: bv8)
    ensures AppendByte(AppendByte(AppendByte(AppendByte(0, a), b), c), d) == Cat(a, b, c, d)
  {
  }
}
