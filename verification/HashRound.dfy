/** One lane of the hasher's update: a chain of reversible steps, and how to run it backwards. */
module HashRound {
  import opened Words
  import opened Alu
  import opened Blocks

  const PRIME_1: bv32 := 0x9E37_79B1
  const PRIME_2: bv32 := 0x85EB_CA77

  /** SWAP or REV of a register onto itself at one width. */
  datatype Stage = Stage(op: Opcode, v: Width) {
    predicate Valid() { op.SWAP? || op.REV? }

    function Apply(x: bv32): bv32
      requires Valid()
    {
      Merged(x, v, MoveValue(op, Low(x, v), v))
    }
  }

  predicate AllValid(stages: seq<Stage>) {
    forall i :: 0 <= i < |stages| ==> stages[i].Valid()
  }

  function Scramble(stages: seq<Stage>, x: bv32): bv32
    requires AllValid(stages)
    decreases |stages|
  {
    if stages == [] then x else Scramble(stages[1..], stages[0].Apply(x))
  }

  /** The stages last to first. */
  function Unscramble(stages: seq<Stage>, x: bv32): bv32
    requires AllValid(stages)
    decreases |stages|
  {
    if stages == [] then x else stages[0].Apply(Unscramble(stages[1..], x))
  }

  function Spread(x: bv32, v: Width): bv32 { Merged(x, v, SwapHalves(Low(x, v), v)) }

  function Turned(x: bv32, v: Width): bv32 { Merged(x, v, ReverseBits(Low(x, v), v)) }

  function SwapNibbles(b: bv8): bv8 { (b >> 4) | (b << 4) }

  lemma SwapNibblesTwice(b: bv8)
    ensures SwapNibbles(SwapNibbles(b)) == b
  {
  }

  /** Exchange at each width, byte by byte. */
  lemma SpreadBytes(x: bv32, v: Width)
    ensures Spread(x, v) ==
            match v
            case Byte => Cat(B3(x), B2(x), B1(x), SwapNibbles(B0(x)))
            case Short => Cat(B3(x), B2(x), B0(x), B1(x))
            case Int => Cat(B1(x), B0(x), B3(x), B2(x))
  {
    match v
    case Byte =>
    case Short =>
    case Int =>
  }

  lemma ReverseByteTwice(b: bv8)
    ensures ReverseByte(ReverseByte(b)) == b
  {
  }

  /** Reversal at each width, byte by byte. */
  lemma TurnedBytes(x: bv32, v: Width)
    ensures Turned(x, v) ==
            match v
            case Byte => Cat(B3(x), B2(x), B1(x), ReverseByte(B0(x)))
            case Short => Cat(B3(x), B2(x), ReverseByte(B0(x)), ReverseByte(B1(x)))
            case Int => Cat(ReverseByte(B0(x)), ReverseByte(B1(x)), ReverseByte(B2(x)), ReverseByte(B3(x)))
  {
    hide ReverseByte;
    match v
    case Byte =>
    case Short =>
    case Int =>
  }

  lemma SpreadTwice(x: bv32, v: Width)
    ensures Spread(Spread(x, v), v) == x
  {
    hide Spread, Cat, B0, B1, B2, B3, SwapNibbles;
    SpreadBytes(x, v);
    SpreadBytes(Spread(x, v), v);
    SwapNibblesTwice(B0(x));
    BytesCat(x);
    match v
    case Byte => CatBytes(B3(x), B2(x), B1(x), SwapNibbles(B0(x)));
    case Short => CatBytes(B3(x), B2(x), B0(x), B1(x));
    case Int => CatBytes(B1(x), B0(x), B3(x), B2(x));
  }

  lemma TurnedTwice(x: bv32, v: Width)
    ensures Turned(Turned(x, v), v) == x
  {
    hide Turned, Cat, B0, B1, B2, B3, ReverseByte;
    var y := Turned(x, v);
    TurnedBytes(x, v);
    TurnedBytes(y, v);
    ReverseByteTwice(B0(x));
    ReverseByteTwice(B1(x));
    ReverseByteTwice(B2(x));
    ReverseByteTwice(B3(x));
    BytesCat(x);
    match v
    case Byte => CatBytes(B3(x), B2(x), B1(x), ReverseByte(B0(x)));
    case Short => CatBytes(B3(x), B2(x), ReverseByte(B0(x)), ReverseByte(B1(x)));
    case Int => CatBytes(ReverseByte(B0(x)), ReverseByte(B1(x)), ReverseByte(B2(x)), ReverseByte(B3(x)));
  }

  /** SWAP and REV at one width undo themselves and keep the bits above it. */
  lemma ApplyTwice(s: Stage, x: bv32)
    requires s.Valid()
    ensures s.Apply(s.Apply(x)) == x
  {
    hide Merged, Low, SwapHalves, ReverseBits;
    if s.op.SWAP? {
      assert forall y :: s.Apply(y) == Spread(y, s.v);
      SpreadTwice(x, s.v);
    } else {
      assert forall y :: s.Apply(y) == Turned(y, s.v);
      TurnedTwice(x, s.v);
    }
  }

  lemma {:induction false} UnscrambleScramble(stages: seq<Stage>, x: bv32)
    requires AllValid(stages)
    ensures Unscramble(stages, Scramble(stages, x)) == x
    decreases |stages|
  {
    if stages != [] {
      hide Stage.Apply;
      UnscrambleScramble(stages[1..], stages[0].Apply(x));
      ApplyTwice(stages[0], x);
    }
  }

  // ----- One lane -----

  const BEFORE := [Stage(SWAP, Short), Stage(REV, Short), Stage(SWAP, Byte),
                   Stage(REV, Byte), Stage(SWAP, Int), Stage(REV, Int)]
  const AFTER := [Stage(REV, Int), Stage(SWAP, Int), Stage(SWAP, Short),
                  Stage(REV, Short), Stage(REV, Byte), Stage(SWAP, Byte)]

  function Roll(x: bv32): bv32 { RotateLeft(x, 13, Int) }

  function Unroll(x: bv32): bv32 { RotateRight(x, 13, Int) }

  lemma UnrollRoll(x: bv32)
    ensures Unroll(Roll(x)) == x
  {
  }

  /** What a word of data contributes. */
  function Absorb(word: bv32): bv32 { Scramble(BEFORE, Xor(SwapHalves(word, Int), PRIME_2)) }

  function Mix(lane: bv32, word: bv32): bv32 {
    hide Roll, Absorb, Scramble, Xor;
    Scramble(AFTER, Xor(Roll(Xor(lane, Absorb(word))), PRIME_1))
  }

  function Unabsorb(x: bv32): bv32 { SwapHalves(Xor(Unscramble(BEFORE, x), PRIME_2), Int) }

  /** The lane and the word's contribution, joined. */
  function Unmix(mixed: bv32): bv32 { Unroll(Xor(Unscramble(AFTER, mixed), PRIME_1)) }

  lemma XorTwice(x: bv32, y: bv32)
    ensures Xor(Xor(x, y), y) == x
  {
    XorBack(Xor(x, y), x, y);
  }

  lemma XorTwiceLeft(x: bv32, y: bv32, z: bv32)
    requires z == Xor(x, y)
    ensures Xor(z, x) == y
  {
  }

  lemma SwapTwice(x: bv32)
    ensures SwapHalves(SwapHalves(x, Int), Int) == x
  {
  }

  lemma UnabsorbAbsorb(word: bv32)
    ensures Unabsorb(Absorb(word)) == word
  {
    hide Xor, SwapHalves, Scramble, Unscramble;
    UnscrambleScramble(BEFORE, Xor(SwapHalves(word, Int), PRIME_2));
    XorTwice(SwapHalves(word, Int), PRIME_2);
    SwapTwice(word);
  }

  lemma UnmixMix(lane: bv32, word: bv32)
    ensures Unmix(Mix(lane, word)) == Xor(lane, Absorb(word))
  {
    hide Xor, Scramble, Unscramble, Roll, Unroll, Absorb;
    var y := Xor(lane, Absorb(word));
    UnscrambleScramble(AFTER, Xor(Roll(y), PRIME_1));
    XorTwice(Roll(y), PRIME_1);
    UnrollRoll(y);
  }

  /** A mixed lane together with the word mixed in gives back the lane before. */
  lemma LaneRecovered(lane: bv32, word: bv32)
    ensures Xor(Unmix(Mix(lane, word)), Absorb(word)) == lane
  {
    hide Xor, Mix, Unmix, Absorb;
    UnmixMix(lane, word);
    XorTwice(lane, Absorb(word));
  }

  /** A mixed lane together with the lane before gives back the word mixed in. */
  lemma WordRecovered(lane: bv32, word: bv32)
    ensures Unabsorb(Xor(Unmix(Mix(lane, word)), lane)) == word
  {
    hide Xor, Mix, Unmix, Absorb, Unabsorb;
    UnmixMix(lane, word);
    XorTwiceLeft(lane, Absorb(word), Xor(lane, Absorb(word)));
    UnabsorbAbsorb(word);
  }

  // ----- One lane, byte by byte -----

  lemma SpreadIs(s: Stage, x: bv32)
    requires s.Valid()
    ensures s.Apply(x) == if s.op.SWAP? then Spread(x, s.v) else Turned(x, s.v)
  {
    hide Merged, Low, SwapHalves, ReverseBits;
  }

  /** Two stages at the same width, SWAP then REV or REV then SWAP. */
  function Both(first: Opcode, second: Opcode, v: Width, x: bv32): bv32
    requires Stage(first, v).Valid() && Stage(second, v).Valid()
  {
    Stage(second, v).Apply(Stage(first, v).Apply(x))
  }

  lemma ShortStages(b3: bv8, b2: bv8, b1: bv8, b0: bv8)
    ensures Both(SWAP, REV, Short, Cat(b3, b2, b1, b0)) == Cat(b3, b2, ReverseByte(b1), ReverseByte(b0))
  {
    hide Cat, B0, B1, B2, B3, ReverseByte, Spread, Turned, Stage.Apply;
    var x := Cat(b3, b2, b1, b0);
    SpreadIs(Stage(SWAP, Short), x);
    SpreadBytes(x, Short);
    CatBytes(b3, b2, b1, b0);
    SpreadIs(Stage(REV, Short), Cat(b3, b2, b0, b1));
    TurnedBytes(Cat(b3, b2, b0, b1), Short);
    CatBytes(b3, b2, b0, b1);
  }

  lemma ByteStages(b3: bv8, b2: bv8, b1: bv8, b0: bv8)
    ensures Both(SWAP, REV, Byte, Cat(b3, b2, b1, b0)) == Cat(b3, b2, b1, ReverseByte(SwapNibbles(b0)))
    ensures Both(REV, SWAP, Byte, Cat(b3, b2, b1, b0)) == Cat(b3, b2, b1, SwapNibbles(ReverseByte(b0)))
  {
    hide Cat, B0, B1, B2, B3, ReverseByte, SwapNibbles, Spread, Turned, Stage.Apply;
    var x := Cat(b3, b2, b1, b0);
    CatBytes(b3, b2, b1, b0);
    SpreadIs(Stage(SWAP, Byte), x);
    SpreadBytes(x, Byte);
    CatBytes(b3, b2, b1, SwapNibbles(b0));
    SpreadIs(Stage(REV, Byte), Cat(b3, b2, b1, SwapNibbles(b0)));
    TurnedBytes(Cat(b3, b2, b1, SwapNibbles(b0)), Byte);
    SpreadIs(Stage(REV, Byte), x);
    TurnedBytes(x, Byte);
    CatBytes(b3, b2, b1, ReverseByte(b0));
    SpreadIs(Stage(SWAP, Byte), Cat(b3, b2, b1, ReverseByte(b0)));
    SpreadBytes(Cat(b3, b2, b1, ReverseByte(b0)), Byte);
  }

  lemma IntStages(b3: bv8, b2: bv8, b1: bv8, b0: bv8)
    ensures Both(SWAP, REV, Int, Cat(b3, b2, b1, b0))
            == Cat(ReverseByte(b2), ReverseByte(b3), ReverseByte(b0), ReverseByte(b1))
    ensures Both(REV, SWAP, Int, Cat(b3, b2, b1, b0))
            == Cat(ReverseByte(b2), ReverseByte(b3), ReverseByte(b0), ReverseByte(b1))
  {
    hide Cat, B0, B1, B2, B3, ReverseByte, Spread, Turned, Stage.Apply;
    var x := Cat(b3, b2, b1, b0);
    CatBytes(b3, b2, b1, b0);
    SpreadIs(Stage(SWAP, Int), x);
    SpreadBytes(x, Int);
    CatBytes(b1, b0, b3, b2);
    SpreadIs(Stage(REV, Int), Cat(b1, b0, b3, b2));
    TurnedBytes(Cat(b1, b0, b3, b2), Int);
    SpreadIs(Stage(REV, Int), x);
    TurnedBytes(x, Int);
    var y := Cat(ReverseByte(b0), ReverseByte(b1), ReverseByte(b2), ReverseByte(b3));
    CatBytes(ReverseByte(b0), ReverseByte(b1), ReverseByte(b2), ReverseByte(b3));
    SpreadIs(Stage(SWAP, Int), y);
    SpreadBytes(y, Int);
  }

  lemma FirstStage(a: Stage, rest: seq<Stage>, x: bv32)
    requires a.Valid() && AllValid(rest)
    ensures AllValid([a] + rest) && Scramble([a] + rest, x) == Scramble(rest, a.Apply(x))
  {
    hide Stage.Apply;
    assert ([a] + rest)[1..] == rest;
  }

  lemma ThreePairs(a: Stage, b: Stage, c: Stage, d: Stage, e: Stage, f: Stage, x: bv32)
    requires a.Valid() && b.Valid() && c.Valid() && d.Valid() && e.Valid() && f.Valid()
    ensures Scramble([a, b, c, d, e, f], x) == f.Apply(e.Apply(d.Apply(c.Apply(b.Apply(a.Apply(x))))))
  {
    hide Stage.Apply;
    var x1 := a.Apply(x);
    var x2 := b.Apply(x1);
    var x3 := c.Apply(x2);
    var x4 := d.Apply(x3);
    var x5 := e.Apply(x4);
    assert Scramble([], f.Apply(x5)) == f.Apply(x5);
    hide Scramble;
    FirstStage(f, [], x5);
    FirstStage(e, [f], x4);
    FirstStage(d, [e, f], x3);
    FirstStage(c, [d, e, f], x2);
    FirstStage(b, [c, d, e, f], x1);
    FirstStage(a, [b, c, d, e, f], x);
    assert [f] + [] == [f] && [e] + [f] == [e, f] && [d] + [e, f] == [d, e, f];
    assert [c] + [d, e, f] == [c, d, e, f] && [b] + [c, d, e, f] == [b, c, d, e, f];
    assert [a] + [b, c, d, e, f] == [a, b, c, d, e, f];
  }

  /** Reversing and exchanging nibbles commute. */
  lemma NibblesTurned(b: bv8)
    ensures ReverseByte(SwapNibbles(b)) == SwapNibbles(ReverseByte(b))
  {
  }

  /** Bytes rearranged and turned as the stages before the join do together. */
  function Opened(x: bv32): bv32 {
    Cat(ReverseByte(B2(x)), ReverseByte(B3(x)), ReverseByte(SwapNibbles(B0(x))), B1(x))
  }

  /** And as those after it do. */
  function Closed(x: bv32): bv32 {
    Cat(ReverseByte(B2(x)), ReverseByte(B3(x)), B0(x), SwapNibbles(ReverseByte(B1(x))))
  }

  /** What the stages before the join do together. */
  lemma BeforeBytes(x: bv32)
    ensures Scramble(BEFORE, x) == Opened(x)
  {
    hide Cat, B0, B1, B2, B3, ReverseByte, SwapNibbles, Stage.Apply, Scramble;
    var b3, b2, b1, b0 := B3(x), B2(x), B1(x), B0(x);
    BytesCat(x);
    ThreePairs(BEFORE[0], BEFORE[1], BEFORE[2], BEFORE[3], BEFORE[4], BEFORE[5], x);
    assert BEFORE == [BEFORE[0], BEFORE[1], BEFORE[2], BEFORE[3], BEFORE[4], BEFORE[5]];
    ShortStages(b3, b2, b1, b0);
    ByteStages(b3, b2, ReverseByte(b1), ReverseByte(b0));
    IntStages(b3, b2, ReverseByte(b1), ReverseByte(SwapNibbles(ReverseByte(b0))));
    ReverseByteTwice(b0);
    ReverseByteTwice(b1);
    NibblesTurned(ReverseByte(b0));
    NibblesTurned(b0);
  }

  /** What the stages after the join do together. */
  lemma AfterBytes(x: bv32)
    ensures Scramble(AFTER, x) == Closed(x)
  {
    hide Cat, B0, B1, B2, B3, ReverseByte, SwapNibbles, Stage.Apply, Scramble;
    var b3, b2, b1, b0 := B3(x), B2(x), B1(x), B0(x);
    BytesCat(x);
    ThreePairs(AFTER[0], AFTER[1], AFTER[2], AFTER[3], AFTER[4], AFTER[5], x);
    assert AFTER == [AFTER[0], AFTER[1], AFTER[2], AFTER[3], AFTER[4], AFTER[5]];
    IntStages(b3, b2, b1, b0);
    ShortStages(ReverseByte(b2), ReverseByte(b3), ReverseByte(b0), ReverseByte(b1));
    ByteStages(ReverseByte(b2), ReverseByte(b3), ReverseByte(ReverseByte(b0)), ReverseByte(ReverseByte(b1)));
    ReverseByteTwice(b0);
    ReverseByteTwice(b1);
  }

  /** The published round in one formula: the word of data with its halves exchanged and the second prime
      joined, its bytes rearranged; then joined to the lane, rotated left by 13, joined to the first prime
      and rearranged again. */
  lemma MixIs(lane: bv32, word: bv32)
    ensures Mix(lane, word) ==
            Closed(Xor(RotateLeft(Xor(lane, Opened(Xor(SwapHalves(word, Int), 0x85EB_CA77))), 13, Int), 0x9E37_79B1))
  {
    hide Opened, Closed, Scramble, Xor, SwapHalves, RotateLeft;
    var x := Xor(SwapHalves(word, Int), 0x85EB_CA77);
    BeforeBytes(x);
    AfterBytes(Xor(RotateLeft(Xor(lane, Scramble(BEFORE, x)), 13, Int), 0x9E37_79B1));
  }

  /** An empty lane and an empty word. */
  lemma MixedZero()
    ensures Mix(0, 0) == 0x77C5_454C
  {
    hide Mix;
    MixIs(0, 0);
    assert SwapHalves(0, Int) == 0;
    XorZero(0x85EB_CA77);
    assert Opened(0x85EB_CA77) == 0xD7A1_EECA;
    XorZero(0xD7A1_EECA);
    assert RotateLeft(0xD7A1_EECA, 13, Int) == 0x3DD9_5AF4;
    assert Xor(0x3DD9_5AF4, 0x9E37_79B1) == 0xA3EE_2345;
    assert Closed(0xA3EE_2345) == 0x77C5_454C;
    hide Opened, Closed, Xor, SwapHalves, RotateLeft;
  }
}
