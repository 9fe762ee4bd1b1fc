/** The length of the code at the end of the executable: enciphered by the compiler, deciphered by the
    loader with the help of the file's own ELF magic. */
module Trailer {
  import opened Words
  import opened Alu
  import opened Layout

  /** 7F 'E' 'L' 'F'. */
  const MAGIC: seq<bv8> := [0x7F, 0x45, 0x4C, 0x46]
  const MAGIC_WORD: bv32 := 0x464C_457F

  function Right13(x: bv32): bv32 { RotateRight(x, 13, Int) }

  function Left13(x: bv32): bv32 { RotateLeft(x, 13, Int) }

  function Left27(x: bv32): bv32 { RotateLeft(x, 27, Int) }

  function Right27(x: bv32): bv32 { RotateRight(x, 27, Int) }

  function BigBytes(x: bv32): (b: seq<bv8>)
    ensures |b| == 4
  {
    [B3(x), B2(x), B1(x), B0(x)]
  }

  // ----- The compiler -----

  /** The eight bytes for a length and a random word. */
  function Cipher(length: bv32, key: bv32): (b: seq<bv8>)
    ensures |b| == 8
  {
    BigBytes(Right13(Xor(Xor(length, MAGIC_WORD), key))) + BigBytes(Left27(key))
  }

  /** The trailer of a file of 0x1234 bytes under one key. */
  lemma CipherSample()
    ensures Cipher(0x1234, 0x89AB_CDEF) == [0xD5, 0x26, 0x7F, 0x3C, 0x7C, 0x4D, 0x5E, 0x6F]
  {
    assert Xor(Xor(0x1234, MAGIC_WORD), 0x89AB_CDEF) == 0xCFE7_9AA4;
  }

  /** The compiled instructions, then the trailer. */
  method Emit(compiled: seq<seq<bv8>>, key: bv32) returns (file: seq<bv8>)
    requires |Flatten(compiled)| < WORD_LIMIT
    ensures file == Flatten(compiled) + Cipher(Word(|Flatten(compiled)|), key)
  {
    var length := 0;
    for j := 0 to |compiled|
      invariant length == |Flatten(compiled[..j])|
    {
      FlattenNext(compiled, j);
      length := length + |compiled[j]|;
    }
    assert compiled[..|compiled|] == compiled;
    file := [];
    for j := 0 to |compiled|
      invariant file == Flatten(compiled[..j])
    {
      FlattenNext(compiled, j);
      file := file + compiled[j];
    }
    var hi := Right13(Xor(Xor(Word(length), MAGIC_WORD), key));
    var lo := Left27(key);
    file := file + (BigBytes(hi) + BigBytes(lo));
  }

  lemma FlattenNext(images: seq<seq<bv8>>, j: nat)
    requires j < |images|
    ensures Flatten(images[..j + 1]) == Flatten(images[..j]) + images[j]
  {
    assert images[..j + 1][..j] == images[..j];
  }

  // ----- The loader -----

  /** A 16-bit half moved into a word. */
  function ShiftedHalf(half: bv16, n: nat): bv32
    requires n == 0 || n == 8 || n == 16
  {
    if n == 0 then half as bv32 else if n == 8 then half as bv32 << 8 else half as bv32 << 16
  }

  function Half(first: bv8, second: bv8): bv16 { second as bv16 | (first as bv16 << 8) }

  function Joined(word: bv32, half: bv32): bv32 { word | half }

  lemma BigHalves(a: bv8, b: bv8, c: bv8, d: bv8)
    ensures Joined(Joined(0, ShiftedHalf(Half(a, b), 16)), ShiftedHalf(Half(c, d), 0)) == Cat(a, b, c, d)
    ensures Joined(Joined(0, ShiftedHalf(Half(a, b), 0)), ShiftedHalf(Half(c, d), 16)) == Cat(c, d, a, b)
  {
  }

  /** What the trailer says together with the first four bytes of the file. */
  function Deciphered(magic: seq<bv8>, trailer: seq<bv8>): bv32
    requires |magic| == 4 && |trailer| == 8
  {
    var hi := Cat(trailer[0], trailer[1], trailer[2], trailer[3]);
    var lo := Cat(trailer[4], trailer[5], trailer[6], trailer[7]);
    Xor(Cat(magic[3], magic[2], magic[1], magic[0]), Xor(Left13(hi), Right27(lo)))
  }

  /** Reads the length and then that many bytes before the trailer; none if the file is too short. */
  method LoadCode(file: seq<bv8>) returns (length: bv32, code: seq<bv8>)
    requires |file| >= 8
    ensures length == Deciphered(file[..4], file[|file| - 8..])
    ensures code == if Val(length) + 8 <= |file| then file[|file| - 8 - Val(length)..|file| - 8] else []
  {
    hide Half, ShiftedHalf, Cat, Joined, Xor, Left13, Right27, Val;
    var trailer, magic := file[|file| - 8..], file[..4];
    var lo: bv32, hi: bv32 := 0, 0;
    var i := 0;
    while i < 4
      invariant i == 0 || i == 2 || i == 4
      invariant i == 0 ==> lo == 0 && hi == 0
      invariant i == 2 ==> lo == Joined(0, ShiftedHalf(Half(trailer[4], trailer[5]), 16))
      invariant i == 2 ==> hi == Joined(0, ShiftedHalf(Half(trailer[0], trailer[1]), 16))
      invariant i == 4 ==> lo == Cat(trailer[4], trailer[5], trailer[6], trailer[7])
      invariant i == 4 ==> hi == Cat(trailer[0], trailer[1], trailer[2], trailer[3])
      decreases 4 - i
    {
      BigHalves(trailer[4], trailer[5], trailer[6], trailer[7]);
      BigHalves(trailer[0], trailer[1], trailer[2], trailer[3]);
      lo := Joined(lo, ShiftedHalf(Half(trailer[4 + i], trailer[4 + i + 1]), 16 - 8 * i));
      hi := Joined(hi, ShiftedHalf(Half(trailer[i], trailer[i + 1]), 16 - 8 * i));
      i := i + 2;
    }
    var elf: bv32 := 0;
    i := 0;
    while i < 4
      invariant i == 0 || i == 2 || i == 4
      invariant i == 0 ==> elf == 0
      invariant i == 2 ==> elf == Joined(0, ShiftedHalf(Half(magic[1], magic[0]), 0))
      invariant i == 4 ==> elf == Cat(magic[3], magic[2], magic[1], magic[0])
      decreases 4 - i
    {
      BigHalves(magic[1], magic[0], magic[3], magic[2]);
      elf := Joined(elf, ShiftedHalf(Half(magic[i + 1], magic[i]), 8 * i));
      i := i + 2;
    }
    length := Xor(elf, Xor(Left13(hi), Right27(lo)));
    code := if Val(length) + 8 <= |file| then file[|file| - 8 - Val(length)..|file| - 8] else [];
  }

  // ----- The round trip -----

  lemma Unrotated(x: bv32, y: bv32)
    ensures Left13(Right13(x)) == x && Right27(Left27(y)) == y
  {
  }

  lemma Cancelled(m: bv32, length: bv32, key: bv32)
    ensures Xor(m, Xor(Xor(Xor(length, MAGIC_WORD), key), key)) == length <==> m == MAGIC_WORD
  {
    hide Xor;
    var a := Xor(length, MAGIC_WORD);
    XorBack(Xor(a, key), a, key);
    XorBack(a, length, MAGIC_WORD);
    XorMoved(a, length, MAGIC_WORD);
    var l := Xor(m, a);
    XorBack(l, m, a);
  }

  /** The deciphered length is the enciphered one exactly when the file begins with the ELF magic. */
  lemma LengthRecovered(magic: seq<bv8>, length: bv32, key: bv32)
    requires |magic| == 4
    ensures Deciphered(magic, Cipher(length, key)) == length <==> magic == MAGIC
  {
    hide Cat, B0, B1, B2, B3, Left13, Right13, Left27, Right27, Xor;
    var hi, lo := Right13(Xor(Xor(length, MAGIC_WORD), key)), Left27(key);
    BytesCat(hi);
    BytesCat(lo);
    Unrotated(Xor(Xor(length, MAGIC_WORD), key), key);
    Cancelled(Cat(magic[3], magic[2], magic[1], magic[0]), length, key);
    MagicWord(magic);
  }

  lemma MagicWord(magic: seq<bv8>)
    requires |magic| == 4
    ensures Cat(magic[3], magic[2], magic[1], magic[0]) == MAGIC_WORD <==> magic == MAGIC
  {
    hide Cat, B0, B1, B2, B3;
    CatBytes(magic[3], magic[2], magic[1], magic[0]);
    CatBytes(0x46, 0x4C, 0x45, 0x7F);
    MagicIs();
    assert magic == [magic[0], magic[1], magic[2], magic[3]];
  }

  lemma MagicIs()
    ensures Cat(0x46, 0x4C, 0x45, 0x7F) == MAGIC_WORD
  {
  }

  /** A program that begins with the ELF magic, with an image and its trailer appended, loads exactly
      that image. */
  method LoadEmitted(host: seq<bv8>, compiled: seq<seq<bv8>>, key: bv32) returns (length: bv32, code: seq<bv8>)
    requires |host| >= 4 && host[..4] == MAGIC && |Flatten(compiled)| < WORD_LIMIT
    ensures Val(length) == |Flatten(compiled)| && code == Flatten(compiled)
  {
    hide Cipher, Deciphered, Val, Word;
    var emitted := Emit(compiled, key);
    var file := host + emitted;
    var image := Flatten(compiled);
    assert file[..4] == MAGIC;
    assert file[|file| - 8..] == Cipher(Word(|image|), key);
    LengthRecovered(MAGIC, Word(|image|), key);
    ValWord(|image|);
    length, code := LoadCode(file);
    assert file[|file| - 8 - |image|..|file| - 8] == image;
  }
}
