/** Where instructions end up: shuffled images, prefix-sum offsets and the concatenated code. */
module Layout {
  import opened Words
  import opened Program
  import opened Encoding
  import opened Machine

  type Image = seq<seq<bv8>>

  /** The random choices of one assembly: `order[k]` is the source index of the instruction at place
      `k`, `place` its inverse, and `draws[i]` the cipher bits of source instruction `i`. */
  datatype Choice = Choice(order: seq<nat>, place: seq<nat>, draws: seq<Draw>)

  /** A shuffle of all instructions but the first. */
  predicate IsShuffle(order: seq<nat>, place: seq<nat>, n: nat) {
    && |order| == n && |place| == n
    && (forall k :: 0 <= k < n ==> order[k] < n && place[order[k]] == k)
    && (forall i :: 0 <= i < n ==> place[i] < n && order[place[i]] == i)
    && (n > 0 ==> order[0] == 0)
  }

  predicate ValidChoice(ch: Choice, n: nat) {
    IsShuffle(ch.order, ch.place, n) && |ch.draws| == n
  }

  // ----- Offsets -----

  /** Total length of the first `k` instructions of an image. */
  function Offset(img: Image, k: nat): nat
    requires k <= |img|
  {
    if k == 0 then 0 else Offset(img, k - 1) + |img[k - 1]|
  }

  /** The code the machine runs. */
  function Flatten(img: Image): Code {
    if img == [] then [] else Flatten(img[..|img| - 1]) + img[|img| - 1]
  }

  lemma {:induction false} OffsetPrefix(img: Image, m: nat, k: nat)
    requires k <= m <= |img|
    ensures Offset(img[..m], k) == Offset(img, k)
  {
    if k > 0 {
      OffsetPrefix(img, m, k - 1);
    }
  }

  lemma {:induction false} FlattenLength(img: Image)
    ensures |Flatten(img)| == Offset(img, |img|)
  {
    if img != [] {
      FlattenLength(img[..|img| - 1]);
      OffsetPrefix(img, |img| - 1, |img| - 1);
    }
  }

  /** The bytes of the k-th instruction of an image lie at its offset in the code. */
  lemma {:induction false} FlattenAt(img: Image, k: nat)
    requires k < |img|
    ensures var at := Offset(img, k);
            at + |img[k]| <= |Flatten(img)| && Flatten(img)[at..at + |img[k]|] == img[k]
  {
    var n := |img| - 1;
    var rest := img[..n];
    FlattenLength(img);
    FlattenLength(rest);
    OffsetPrefix(img, n, n);
    if k < n {
      FlattenAt(rest, k);
      OffsetPrefix(img, n, k);
      var at := Offset(img, k);
      assert Flatten(img)[at..at + |img[k]|] == Flatten(rest)[at..at + |img[k]|];
    }
  }

  lemma {:induction false} OffsetMonotonic(img: Image, j: nat, k: nat)
    requires j <= k <= |img|
    ensures Offset(img, j) <= Offset(img, k)
    decreases k
  {
    if j < k {
      OffsetMonotonic(img, j, k - 1);
    }
  }

  /** Offsets depend only on the lengths of the instructions. */
  lemma {:induction false} OffsetOfLengths(a: Image, b: Image, k: nat)
    requires |a| == |b| && k <= |a| && forall j :: 0 <= j < k ==> |a[j]| == |b[j]|
    ensures Offset(a, k) == Offset(b, k)
  {
    if k > 0 {
      OffsetOfLengths(a, b, k - 1);
    }
  }

  // ----- Images of programs -----

  /** Where source instruction `i` starts. */
  function Start(ch: Choice, img: Image, i: nat): nat
    requires i < |ch.place| && ch.place[i] <= |img|
  {
    Offset(img, ch.place[i])
  }

  /** The offset a label resolves to; a label behind the last instruction gets the end of the code. */
  function LabelOffset(ch: Choice, img: Image, index: nat): nat
    requires ValidChoice(ch, |img|)
  {
    if index < |img| then Start(ch, img, index) else Offset(img, |img|)
  }

  /** What the operand bytes of a label reference hold. */
  function TargetOf(p: Prog, ch: Choice, img: Image, o: Operand): bv32
    requires ValidChoice(ch, |img|)
  {
    if o.LabelRef? && o.name in p.labels then Wrap(LabelOffset(ch, img, p.labels[o.name])) else 0
  }

  predicate LabelsKnown(p: Prog, i: Insn) {
    && (i.o1.LabelRef? ==> i.o1.name in p.labels)
    && (i.o2.LabelRef? ==> i.o2.name in p.labels)
  }

  function BodyOf(p: Prog, ch: Choice, img: Image, i: nat): seq<bv8>
    requires ValidChoice(ch, |img|) && |img| == |p.insns| && i < |img| && EncodableInsn(p.insns[i])
  {
    Body(p.insns[i], ch.draws[i], TargetOf(p, ch, img, p.insns[i].o1), TargetOf(p, ch, img, p.insns[i].o2))
  }

  /** The bytes of source instruction `i`: its body with labels resolved, then the pointer to source
      instruction `i + 1`. The last instruction ends in three bytes that mean nothing. */
  predicate IsEncoded(p: Prog, ch: Choice, img: Image, i: nat)
    requires ValidChoice(ch, |img|) && |img| == |p.insns| && i < |img|
  {
    && EncodableInsn(p.insns[i])
    && LabelsKnown(p, p.insns[i])
    && var bytes := img[ch.place[i]];
       var n := |bytes| - 3;
       && |bytes| == Size(p.insns[i])
       && bytes[..n] == BodyOf(p, ch, img, i)
       && (i + 1 < |img| ==> bytes[n..] == Link(Wrap(Start(ch, img, i + 1))))
  }

  /** `img` is the shuffled, linked and resolved form of `p`. */
  predicate IsAssembled(p: Prog, ch: Choice, img: Image) {
    && |img| == |p.insns|
    && ValidChoice(ch, |img|)
    && forall i :: 0 <= i < |img| ==> IsEncoded(p, ch, img, i)
  }

  /** An assembled image short enough for 24-bit offsets; the compiler only warns about longer ones. */
  predicate IsImage(p: Prog, ch: Choice, img: Image) {
    IsAssembled(p, ch, img) && Offset(img, |img|) <= 0xFF_FFFF
  }

  /** The first source instruction stays first; all others start later, below the halt address. */
  lemma StartBounds(p: Prog, ch: Choice, img: Image, i: nat)
    requires IsImage(p, ch, img) && i < |img|
    ensures Start(ch, img, i) < 0xFF_FFFF && (i > 0 ==> Start(ch, img, i) > 0) && Start(ch, img, 0) == 0
  {
    var k := ch.place[i];
    assert IsEncoded(p, ch, img, i);
    OffsetMonotonic(img, k + 1, |img|);
    assert ch.place[0] == 0;
    if i > 0 {
      assert k > 0;
      assert IsEncoded(p, ch, img, ch.order[0]);
      OffsetMonotonic(img, 1, k);
    }
  }

  /** Distinct instructions start at distinct offsets. */
  lemma StartInjective(p: Prog, ch: Choice, img: Image, i: nat, j: nat)
    requires IsImage(p, ch, img) && i < |img| && j < |img| && Start(ch, img, i) == Start(ch, img, j)
    ensures i == j
  {
    hide BodyOf, Size, Link, EncodableInsn, LabelsKnown, Wrap;
    var k, l := ch.place[i], ch.place[j];
    if k < l {
      assert IsEncoded(p, ch, img, i);
      OffsetMonotonic(img, k + 1, l);
    } else if l < k {
      assert IsEncoded(p, ch, img, j);
      OffsetMonotonic(img, l + 1, k);
    }
  }
}
