/** The driver of the compiler: one pass over the lines, the shuffle, and the two in-place passes that
    rewrite fallthrough pointers and label references. */
module Assembler {
  import opened Words
  import opened Program
  import opened Encoding
  import opened Layout

  datatype Error =
    | DuplicateLabel(name: string)
    | UndefinedLabel(name: string)
    | BadOperand
    | OffsetTooLarge
    | NoInstructions

  datatype Result<T> = Ok(value: T) | Err(error: Error)

  /** A label reference: the instruction it occurs in and whether it is the second operand. */
  datatype Ref = Ref(name: string, index: nat, second: bool)

  const FILLER: seq<bv8> := [0xFF, 0xFF, 0xFF]

  // ----- What the passes compute -----

  predicate UniqueLabels(lines: seq<Line>) {
    forall i, j :: 0 <= i < j < |lines| && lines[i].Label? && lines[j].Label? ==> lines[i].name != lines[j].name
  }

  function OperandOf(i: Insn, second: bool): Operand {
    if second then i.o2 else i.o1
  }

  predicate RefSound(p: Prog, r: Ref) {
    && r.index < |p.insns|
    && OperandOf(p.insns[r.index], r.second) == LabelRef(r.name)
  }

  predicate RefsSound(p: Prog, refs: seq<Ref>) {
    forall r :: r in refs ==> RefSound(p, r)
  }

  predicate HasRef(refs: seq<Ref>, o: Operand, i: nat, second: bool) {
    o.LabelRef? ==> Ref(o.name, i, second) in refs
  }

  /** Every label operand of the program is recorded. */
  predicate RefsComplete(p: Prog, refs: seq<Ref>) {
    forall i :: 0 <= i < |p.insns| ==> HasRef(refs, p.insns[i].o1, i, false) && HasRef(refs, p.insns[i].o2, i, true)
  }

  /** The references an instruction adds. */
  function RefsOf(i: Insn, index: nat): seq<Ref> {
    (if i.o1.LabelRef? then [Ref(i.o1.name, index, false)] else [])
    + (if i.o2.LabelRef? then [Ref(i.o2.name, index, true)] else [])
  }

  predicate AllEncodable(p: Prog) {
    forall i :: 0 <= i < |p.insns| ==> EncodableInsn(p.insns[i])
  }

  predicate AllDefined(p: Prog) {
    forall i :: 0 <= i < |p.insns| ==> LabelsKnown(p, p.insns[i])
  }

  // ----- First pass -----

  /** The placeholder form of an instruction. */
  function Draft(i: Insn, draw: Draw): (s: seq<bv8>)
    requires EncodableInsn(i)
    ensures |s| == Size(i)
  {
    BodySize(i, draw, PLACEHOLDER, PLACEHOLDER);
    Body(i, draw, PLACEHOLDER, PLACEHOLDER) + FILLER
  }

  datatype Pass = Pass(labels: map<string, nat>, refs: seq<Ref>, compiled: seq<seq<bv8>>, fallthrough: bv32)

  /** Labels are recorded as instruction indices, references collected, instructions encoded. */
  method FirstPass(lines: seq<Line>, draws: seq<Draw>) returns (r: Result<Pass>)
    requires |draws| == |Parse(lines).insns|
    ensures r.Ok? ==>
      var p, o := Parse(lines), r.value;
      && UniqueLabels(lines)
      && AllEncodable(p)
      && o.labels == p.labels
      && RefsSound(p, o.refs) && RefsComplete(p, o.refs)
      && |o.compiled| == |p.insns|
      && (forall i :: 0 <= i < |p.insns| ==> o.compiled[i] == Draft(p.insns[i], draws[i]))
      && (|p.insns| == 1 ==> o.fallthrough == Wrap(Size(p.insns[0])))
    ensures r.Err? ==>
      match r.error
      case DuplicateLabel(_) => !UniqueLabels(lines)
      case BadOperand => !AllEncodable(Parse(lines))
      case _ => false
  {
    hide Parse, Draft, Size, EncodableInsn, Wrap, UniqueLabels, LabelsSeen, Compiled;
    var labels: map<string, nat>, refs: seq<Ref>, compiled: seq<seq<bv8>>, fallthrough := map[], [], [], 0;
    var size := 0;
    ParseEmpty();
    NothingCompiled(lines, draws);
    assert lines[..0] == [];
    for k := 0 to |lines|
      invariant Parse(lines[..k]).labels == labels && |Parse(lines[..k]).insns| == |compiled|
      invariant Compiled(Parse(lines[..k]), draws, compiled, refs)
      invariant LabelsSeen(lines, k, labels)
      invariant |compiled| == 0 ==> size == 0
      invariant |compiled| == 1 ==>
        FirstEncodable(Parse(lines[..k])) && fallthrough == Wrap(Size(Parse(lines[..k]).insns[0]))
    {
      ParseNext(lines, k);
      LabelsNext(lines, k, labels, |compiled|);
      match lines[k]
      case Label(name) =>
        if name in labels {
          return Err(DuplicateLabel(name));
        }
        CompiledLabel(Parse(lines[..k]), draws, compiled, refs, labels[name := |compiled|]);
        labels := labels[name := |compiled|];
      case Code(insn) =>
        ParseMore(lines, k + 1);
        if !EncodableInsn(insn) {
          ParsePrefix(lines, k + 1);
          assert Parse(lines).insns[|compiled|] == Parse(lines[..k + 1]).insns[|compiled|] == insn;
          return Err(BadOperand);
        }
        CompiledNext(Parse(lines[..k]), draws, compiled, refs, insn);
        var packed := Draft(insn, draws[|compiled|]);
        refs := refs + RefsOf(insn, |compiled|);
        size := size + |packed|;
        fallthrough := Wrap(size);
        compiled := compiled + [packed];
    }
    assert lines[..|lines|] == lines;
    CompiledIs(Parse(lines), draws, compiled, refs);
    LabelsAll(lines, labels);
    return Ok(Pass(labels, refs, compiled, fallthrough));
  }

  /** The instructions so far are encoded and their references collected. */
  predicate Compiled(p: Prog, draws: seq<Draw>, compiled: seq<seq<bv8>>, refs: seq<Ref>) {
    && |p.insns| == |compiled| <= |draws|
    && AllEncodable(p)
    && RefsSound(p, refs) && RefsComplete(p, refs)
    && (forall i :: 0 <= i < |compiled| ==> compiled[i] == Draft(p.insns[i], draws[i]))
  }

  predicate FirstEncodable(p: Prog) {
    |p.insns| > 0 && EncodableInsn(p.insns[0])
  }

  /** The labels of the first `k` lines are distinct and are those recorded. */
  predicate LabelsSeen(lines: seq<Line>, k: nat, labels: map<string, nat>) {
    && k <= |lines|
    && UniqueLabels(lines[..k])
    && (forall i :: 0 <= i < k && lines[i].Label? ==> lines[i].name in labels)
    && (forall l :: l in labels ==> Label(l) in lines[..k])
  }

  lemma NothingCompiled(lines: seq<Line>, draws: seq<Draw>)
    ensures Compiled(Prog([], map[]), draws, [], []) && LabelsSeen(lines, 0, map[])
  {
  }

  lemma CompiledIs(p: Prog, draws: seq<Draw>, compiled: seq<seq<bv8>>, refs: seq<Ref>)
    requires Compiled(p, draws, compiled, refs)
    ensures |p.insns| == |compiled| <= |draws| && AllEncodable(p) && RefsSound(p, refs) && RefsComplete(p, refs)
    ensures forall i :: 0 <= i < |compiled| ==> compiled[i] == Draft(p.insns[i], draws[i])
  {
  }

  lemma CompiledLabel(p: Prog, draws: seq<Draw>, compiled: seq<seq<bv8>>, refs: seq<Ref>, labels: map<string, nat>)
    requires Compiled(p, draws, compiled, refs)
    ensures Compiled(p.(labels := labels), draws, compiled, refs)
  {
    hide Draft, EncodableInsn;
  }

  lemma CompiledNext(p: Prog, draws: seq<Draw>, compiled: seq<seq<bv8>>, refs: seq<Ref>, insn: Insn)
    requires Compiled(p, draws, compiled, refs) && |compiled| < |draws| && EncodableInsn(insn)
    ensures var packed := Draft(insn, draws[|compiled|]);
            Compiled(p.(insns := p.insns + [insn]), draws, compiled + [packed], refs + RefsOf(insn, |compiled|))
    ensures |Draft(insn, draws[|compiled|])| == Size(insn)
  {
    hide Draft, EncodableInsn, Size;
  }

  lemma LabelsNext(lines: seq<Line>, k: nat, labels: map<string, nat>, n: nat)
    requires LabelsSeen(lines, k, labels) && k < |lines|
    ensures lines[k].Code? ==> LabelsSeen(lines, k + 1, labels)
    ensures lines[k].Label? && lines[k].name !in labels ==> LabelsSeen(lines, k + 1, labels[lines[k].name := n])
    ensures lines[k].Label? && lines[k].name in labels ==> !UniqueLabels(lines)
  {
    assert lines[..k + 1] == lines[..k] + [lines[k]];
  }

  lemma LabelsAll(lines: seq<Line>, labels: map<string, nat>)
    requires LabelsSeen(lines, |lines|, labels)
    ensures UniqueLabels(lines)
  {
    assert lines[..|lines|] == lines;
  }

  lemma ParseEmpty()
    ensures Parse([]) == Prog([], map[])
  {
  }

  lemma ParseNext(lines: seq<Line>, k: nat)
    requires k < |lines|
    ensures var p := Parse(lines[..k]);
            Parse(lines[..k + 1]) ==
              match lines[k]
              case Label(name) => p.(labels := p.labels[name := |p.insns|])
              case Code(insn) => p.(insns := p.insns + [insn])
  {
    assert lines[..k + 1][..k] == lines[..k];
  }

  /** Later lines only add instructions. */
  lemma {:induction false} ParsePrefix(lines: seq<Line>, k: nat)
    requires k <= |lines|
    ensures Parse(lines[..k]).insns <= Parse(lines).insns
    decreases |lines| - k
  {
    if k < |lines| {
      hide Parse;
      ParseNext(lines, k);
      ParsePrefix(lines, k + 1);
    } else {
      assert lines[..k] == lines;
    }
  }

  lemma ParseMore(lines: seq<Line>, k: nat)
    requires k <= |lines|
    ensures |Parse(lines[..k]).insns| <= |Parse(lines).insns|
  {
    ParsePrefix(lines, k);
  }

  // ----- Sizes -----

  /** Every instruction of the image has its own size, whatever its pointer and labels hold. */
  predicate Sized(p: Prog, ch: Choice, img: Image) {
    && |img| == |p.insns|
    && ValidChoice(ch, |img|)
    && AllEncodable(p)
    && forall k :: 0 <= k < |img| ==> |img[k]| == Size(p.insns[ch.order[k]])
  }

  /** Rewriting instructions in place never moves an instruction. */
  lemma OffsetsStable(p: Prog, ch: Choice, a: Image, b: Image, k: nat)
    requires Sized(p, ch, a) && Sized(p, ch, b) && k <= |a|
    ensures Offset(a, k) == Offset(b, k)
  {
    hide Size, EncodableInsn;
    OffsetOfLengths(a, b, k);
  }

  // ----- Second pass: fallthrough pointers -----

  /** The pointer of the instruction at place `k` leads to its source successor. */
  predicate Linked(ch: Choice, img: Image, k: nat)
    requires ValidChoice(ch, |img|) && k < |img|
  {
    var n := |img[k]| - 3;
    n >= 0 && (ch.order[k] + 1 < |img| ==> img[k][n..] == Link(Wrap(Start(ch, img, ch.order[k] + 1))))
  }

  /** Cutting the last three bytes leaves the body. */
  predicate BodyIs(img: Image, k: nat, body: seq<bv8>)
    requires k < |img|
  {
    |img[k]| == |body| + 3 && img[k][..|body|] == body
  }

  function DraftBody(p: Prog, ch: Choice, i: nat): seq<bv8>
    requires i < |p.insns| && |ch.draws| == |p.insns| && EncodableInsn(p.insns[i])
  {
    Body(p.insns[i], ch.draws[i], PLACEHOLDER, PLACEHOLDER)
  }

  /** All bodies are as the first pass left them. */
  predicate BodiesDrafted(p: Prog, ch: Choice, img: Image)
    requires Sized(p, ch, img)
  {
    forall k :: 0 <= k < |img| ==> BodyIs(img, k, DraftBody(p, ch, ch.order[k]))
  }

  /** An instruction with its last three bytes replaced by the low bytes of `f`, lowest first. */
  function WithLink(packed: seq<bv8>, f: bv32): (s: seq<bv8>)
    requires |packed| >= 3
    ensures |s| == |packed|
  {
    packed[..|packed| - 3] + [B0(f), B1(f), B2(f)]
  }

  predicate LinkedUpTo(ch: Choice, img: Image, n: nat)
    requires ValidChoice(ch, |img|) && n <= |img|
  {
    forall k :: 0 <= k < n ==> Linked(ch, img, k)
  }

  /** Replacing the pointer of one instruction keeps all sizes, all bodies and all other pointers. */
  lemma LinkStep(p: Prog, ch: Choice, img: Image, k: nat, f: bv32)
    requires Sized(p, ch, img) && BodiesDrafted(p, ch, img) && k < |img| && LinkedUpTo(ch, img, k) && |img[k]| >= 3
    requires ch.order[k] + 1 < |img| ==> f == Wrap(Start(ch, img, ch.order[k] + 1)) ^ LINK_KEY
    ensures var b := img[k := WithLink(img[k], f)];
            Sized(p, ch, b) && BodiesDrafted(p, ch, b) && LinkedUpTo(ch, b, k + 1)
  {
    hide Size, EncodableInsn, DraftBody, Wrap, B0, B1, B2;
    var b := img[k := WithLink(img[k], f)];
    forall j | 0 <= j < |img|
      ensures BodyIs(b, j, DraftBody(p, ch, ch.order[j]))
    {
      assert BodyIs(img, j, DraftBody(p, ch, ch.order[j]));
    }
    forall j | 0 <= j < k + 1
      ensures Linked(ch, b, j)
    {
      if ch.order[j] + 1 < |img| {
        OffsetsStable(p, ch, b, img, ch.place[ch.order[j] + 1]);
      }
      assert j < k ==> Linked(ch, img, j);
    }
  }

  /** Rewrites every fallthrough pointer in place; the last source instruction gets whatever the
      variable held before, ciphered once more. Offsets beyond 24 bits do not fit the three bytes. */
  method CorrectFallthroughs(ghost p: Prog, ghost ch: Choice, shuffled: Image, indices: seq<nat>,
                             reordering: map<nat, nat>, last: bv32)
    returns (r: Result<Image>)
    requires Sized(p, ch, shuffled) && BodiesDrafted(p, ch, shuffled)
    requires indices == ch.order
    requires forall i :: i in reordering <==> 0 <= i < |shuffled|
    requires forall i :: i in reordering ==> reordering[i] == ch.place[i]
    ensures r.Ok? ==>
      && |r.value| == |shuffled|
      && Sized(p, ch, r.value)
      && BodiesDrafted(p, ch, r.value)
      && LinkedUpTo(ch, r.value, |r.value|)
    ensures r.Err? ==> r.error.OffsetTooLarge? && Offset(shuffled, |shuffled|) > 0xFF_FFFF
  {
    hide DraftBody, Wrap, BodiesDrafted, LinkedUpTo, WithLink, EncodableInsn;
    var compiled := shuffled;
    var fallthrough := last;
    NothingLinked(ch, shuffled);
    for new_ := 0 to |indices|
      invariant |compiled| == |shuffled| && Sized(p, ch, compiled) && BodiesDrafted(p, ch, compiled)
      invariant LinkedUpTo(ch, compiled, new_)
    {
      var old_ := indices[new_];
      if old_ + 1 in reordering {
        var dst := reordering[old_ + 1];
        var offset := Offset(compiled, dst);
        if offset > 0xFF_FFFF {
          OffsetsStable(p, ch, compiled, shuffled, dst);
          OffsetMonotonic(shuffled, dst, |shuffled|);
          return Err(OffsetTooLarge);
        }
        fallthrough := Wrap(offset);
      }
      fallthrough := fallthrough ^ LINK_KEY;
      LinkStep(p, ch, compiled, new_, fallthrough);
      compiled := compiled[new_ := WithLink(compiled[new_], fallthrough)];
    }
    return Ok(compiled);
  }

  lemma NothingLinked(ch: Choice, img: Image)
    requires ValidChoice(ch, |img|)
    ensures LinkedUpTo(ch, img, 0)
  {
  }

  // ----- Third pass: label references -----

  /** Overwrites three bytes with an offset, most significant byte first. */
  function Patch(b: seq<bv8>, at: nat, x: bv32): (s: seq<bv8>)
    requires at + 3 <= |b|
    ensures |s| == |b|
  {
    b[at := B2(x)][at + 1 := B1(x)][at + 2 := B0(x)]
  }

  /** Where the bytes of an operand start. */
  function SlotAt(i: Insn, second: bool): nat
    requires EncodableInsn(i)
  {
    3 + if second then FieldSize(Pack(i.o1, 0)) else 0
  }

  lemma HeaderIgnoresTargets(draw: Draw, op: bv5, f1: Field, f2: Field, g1: Field, g2: Field)
    requires f1.(x := 0) == g1.(x := 0) && f2.(x := 0) == g2.(x := 0)
    ensures HeaderWord(draw, op, f1, f2) == HeaderWord(draw, op, g1, g2)
  {
    assert f1.t == g1.t && f1.v == g1.v && f1.l == g1.l;
    assert f2.t == g2.t && f2.v == g2.v && f2.l == g2.l;
    hide Cipher;
  }

  /** An encoded instruction before its last part is resolved differently. */
  lemma SameHeader(i: Insn, draw: Draw, t1: bv32, t2: bv32, u1: bv32, u2: bv32)
    requires EncodableInsn(i)
    ensures HeaderWord(draw, Number(i.op), Pack(i.o1, t1), Pack(i.o2, t2))
            == HeaderWord(draw, Number(i.op), Pack(i.o1, u1), Pack(i.o2, u2))
    ensures FieldSize(Pack(i.o1, t1)) == |FieldBytes(Pack(i.o1, t1))| == FieldSize(Pack(i.o1, 0))
  {
    hide Pack, HeaderWord, Number;
    PackShape(i.o1, t1);
    PackShape(i.o1, u1);
    PackShape(i.o2, t2);
    PackShape(i.o2, u2);
    HeaderIgnoresTargets(draw, Number(i.op), Pack(i.o1, t1), Pack(i.o2, t2), Pack(i.o1, u1), Pack(i.o2, u2));
  }

  /** Overwriting a label operand gives the body with that label resolved. */
  lemma PatchBody(i: Insn, draw: Draw, t1: bv32, t2: bv32, second: bool, x: bv32)
    requires EncodableInsn(i) && OperandOf(i, second).LabelRef?
    ensures SlotAt(i, second) + 3 <= |Body(i, draw, t1, t2)|
    ensures Patch(Body(i, draw, t1, t2), SlotAt(i, second), x) ==
            if second then Body(i, draw, t1, x) else Body(i, draw, x, t2)
  {
    hide Pack, HeaderWord, Number, B0, B1, B2, B3, FieldBytes, FieldSize, Patch;
    var u1, u2 := if second then t1 else x, if second then x else t2;
    SameHeader(i, draw, t1, t2, u1, u2);
    LabelField(OperandOf(i, second), if second then t2 else t1);
    LabelField(OperandOf(i, second), x);
    var h := BigEndian(HeaderWord(draw, Number(i.op), Pack(i.o1, t1), Pack(i.o2, t2)), 2);
    hide BigEndian;
    var a, b := FieldBytes(Pack(i.o1, t1)), FieldBytes(Pack(i.o2, t2));
    if second {
      PatchMiddle(h + a, b, [], x);
      assert h + a + b + [] == h + a + b;
    } else {
      PatchMiddle(h, a, b, x);
    }
  }

  lemma LabelField(o: Operand, t: bv32)
    requires o.LabelRef?
    ensures FieldBytes(Pack(o, t)) == [B2(t), B1(t), B0(t)] && FieldSize(Pack(o, t)) == 3
  {
    hide B0, B1, B2, B3;
  }

  lemma PatchMiddle(a: seq<bv8>, b: seq<bv8>, c: seq<bv8>, x: bv32)
    requires |b| == 3
    ensures Patch(a + b + c, |a|, x) == a + [B2(x), B1(x), B0(x)] + c
  {
    hide B0, B1, B2;
  }

  /** What a label operand holds once the references in `done` have been resolved. */
  function Resolved(p: Prog, ch: Choice, img: Image, done: seq<Ref>, i: nat, second: bool): bv32
    requires i < |p.insns| && ValidChoice(ch, |img|)
  {
    var o := OperandOf(p.insns[i], second);
    if o.LabelRef? && Ref(o.name, i, second) in done then TargetOf(p, ch, img, o) else PLACEHOLDER
  }

  function BodyAfter(p: Prog, ch: Choice, img: Image, done: seq<Ref>, i: nat): seq<bv8>
    requires i < |p.insns| && ValidChoice(ch, |img|) && |img| == |p.insns| && EncodableInsn(p.insns[i])
  {
    Body(p.insns[i], ch.draws[i], Resolved(p, ch, img, done, i, false), Resolved(p, ch, img, done, i, true))
  }

  /** `img` is `linked` with the references in `done` resolved and nothing else changed. */
  predicate PatchedBy(p: Prog, ch: Choice, linked: Image, done: seq<Ref>, img: Image)
    requires Sized(p, ch, linked)
  {
    && Sized(p, ch, img)
    && forall k :: 0 <= k < |img| ==>
         && BodyIs(img, k, BodyAfter(p, ch, linked, done, ch.order[k]))
         && |img[k]| == |linked[k]|
         && img[k][|img[k]| - 3..] == linked[k][|linked[k]| - 3..]
  }

  /** Resolving one more reference. */
  lemma PatchStep(p: Prog, ch: Choice, linked: Image, done: seq<Ref>, r: Ref, img: Image, x: bv32)
    requires Sized(p, ch, linked) && PatchedBy(p, ch, linked, done, img) && RefSound(p, r)
    requires x == TargetOf(p, ch, linked, LabelRef(r.name))
    ensures var k, at := ch.place[r.index], SlotAt(p.insns[r.index], r.second);
            && at + 3 <= |img[k]|
            && PatchedBy(p, ch, linked, done + [r], img[k := Patch(img[k], at, x)])
  {
    hide Body, Size, EncodableInsn, TargetOf, B0, B1, B2;
    var i, k, at := r.index, ch.place[r.index], SlotAt(p.insns[r.index], r.second);
    var t1, t2 := Resolved(p, ch, linked, done, i, false), Resolved(p, ch, linked, done, i, true);
    var body := BodyAfter(p, ch, linked, done, i);
    assert BodyIs(img, k, BodyAfter(p, ch, linked, done, ch.order[k]));
    PatchBody(p.insns[i], ch.draws[i], t1, t2, r.second, x);
    assert img[k] == body + img[k][|body|..];
    PatchPrefix(body, img[k][|body|..], at, x);
    var b := img[k := Patch(img[k], at, x)];
    forall j | 0 <= j < |img|
      ensures BodyIs(b, j, BodyAfter(p, ch, linked, done + [r], ch.order[j]))
      ensures b[j][|b[j]| - 3..] == linked[j][|linked[j]| - 3..]
    {
      assert BodyIs(img, j, BodyAfter(p, ch, linked, done, ch.order[j]));
      if j != k {
        assert ch.order[j] != i;
      }
    }
  }

  lemma PatchPrefix(a: seq<bv8>, b: seq<bv8>, at: nat, x: bv32)
    requires at + 3 <= |a|
    ensures Patch(a + b, at, x) == Patch(a, at, x) + b
  {
    hide B0, B1, B2;
  }

  /** Label indices follow the shuffle; a label behind the last instruction stays where it is. */
  function Reindexed(labels: map<string, nat>, reordering: map<nat, nat>): map<string, nat> {
    map l | l in labels :: if labels[l] in reordering then reordering[labels[l]] else labels[l]
  }

  predicate LabelsInRange(p: Prog) {
    forall l :: l in p.labels ==> p.labels[l] <= |p.insns|
  }

  lemma {:induction false} ParsedLabelsInRange(lines: seq<Line>)
    ensures LabelsInRange(Parse(lines))
  {
    if lines != [] {
      ParsedLabelsInRange(lines[..|lines| - 1]);
    }
  }

  /** Resolves every recorded reference in place. */
  method ResolveLabels(p: Prog, ghost ch: Choice, linked: Image, refs: seq<Ref>, reordering: map<nat, nat>)
    returns (r: Result<Image>)
    requires Sized(p, ch, linked) && BodiesDrafted(p, ch, linked)
    requires RefsSound(p, refs) && RefsComplete(p, refs) && LabelsInRange(p)
    requires forall i :: i in reordering <==> 0 <= i < |linked|
    requires forall i :: i in reordering ==> reordering[i] == ch.place[i]
    ensures r.Ok? ==> PatchedBy(p, ch, linked, refs, r.value) && AllDefined(p)
    ensures r.Err? ==>
      match r.error
      case UndefinedLabel(_) => !AllDefined(p)
      case OffsetTooLarge => Offset(linked, |linked|) > 0xFF_FFFF
      case _ => false
  {
    hide PatchedBy, Patch, BodiesDrafted, TargetOf, Wrap, Size;
    var labels := Reindexed(p.labels, reordering);
    var compiled := linked;
    NothingPatched(p, ch, linked);
    for j := 0 to |refs|
      invariant |compiled| == |linked| && Sized(p, ch, compiled) && PatchedBy(p, ch, linked, refs[..j], compiled)
      invariant forall k :: 0 <= k < j ==> refs[k].name in p.labels
    {
      var ref := refs[j];
      assert RefSound(p, ref);
      if ref.name !in labels {
        assert !LabelsKnown(p, p.insns[ref.index]);
        return Err(UndefinedLabel(ref.name));
      }
      var offset := Offset(compiled, labels[ref.name]);
      OffsetsStable(p, ch, compiled, linked, labels[ref.name]);
      if offset > 0xFF_FFFF {
        OffsetMonotonic(linked, labels[ref.name], |linked|);
        return Err(OffsetTooLarge);
      }
      TargetIs(p, ch, linked, ref.name, labels[ref.name], offset);
      var k := reordering[ref.index];
      PatchStep(p, ch, linked, refs[..j], ref, compiled, Wrap(offset));
      assert refs[..j + 1] == refs[..j] + [ref];
      compiled := compiled[k := Patch(compiled[k], SlotAt(p.insns[ref.index], ref.second), Wrap(offset))];
      PatchedSized(p, ch, linked, refs[..j + 1], compiled);
    }
    assert refs[..|refs|] == refs;
    KnownLabels(p, refs);
    return Ok(compiled);
  }

  lemma TargetIs(p: Prog, ch: Choice, img: Image, name: string, k: nat, offset: nat)
    requires ValidChoice(ch, |img|) && |img| == |p.insns| && LabelsInRange(p) && name in p.labels && k <= |img|
    requires k == (if p.labels[name] < |img| then ch.place[p.labels[name]] else p.labels[name])
    requires offset == Offset(img, k)
    ensures TargetOf(p, ch, img, LabelRef(name)) == Wrap(offset)
  {
    hide Wrap;
  }

  lemma PatchedSized(p: Prog, ch: Choice, linked: Image, done: seq<Ref>, img: Image)
    requires Sized(p, ch, linked) && PatchedBy(p, ch, linked, done, img)
    ensures Sized(p, ch, img)
  {
  }

  lemma NothingPatched(p: Prog, ch: Choice, linked: Image)
    requires Sized(p, ch, linked) && BodiesDrafted(p, ch, linked)
    ensures PatchedBy(p, ch, linked, [], linked)
  {
    hide Body, Size, EncodableInsn, TargetOf;
    forall k | 0 <= k < |linked|
      ensures BodyIs(linked, k, BodyAfter(p, ch, linked, [], ch.order[k]))
    {
      assert BodyIs(linked, k, DraftBody(p, ch, ch.order[k]));
    }
  }

  lemma KnownLabels(p: Prog, refs: seq<Ref>)
    requires RefsComplete(p, refs) && forall k :: 0 <= k < |refs| ==> refs[k].name in p.labels
    ensures AllDefined(p)
  {
    forall i | 0 <= i < |p.insns|
      ensures LabelsKnown(p, p.insns[i])
    {
      assert HasRef(refs, p.insns[i].o1, i, false) && HasRef(refs, p.insns[i].o2, i, true);
    }
  }

  // ----- The result -----

  /** With all references resolved, every body is the program's own. */
  lemma BodyComplete(p: Prog, ch: Choice, linked: Image, refs: seq<Ref>, img: Image, i: nat)
    requires Sized(p, ch, linked) && Sized(p, ch, img) && RefsComplete(p, refs) && AllDefined(p) && LabelsInRange(p)
    requires i < |p.insns|
    ensures BodyAfter(p, ch, linked, refs, i) == BodyOf(p, ch, img, i)
  {
    hide Size, Wrap, HeaderWord, BigEndian, Number, Pack;
    var insn := p.insns[i];
    assert HasRef(refs, insn.o1, i, false) && HasRef(refs, insn.o2, i, true) && LabelsKnown(p, insn);
    SameField(p, ch, linked, refs, img, i, false);
    SameField(p, ch, linked, refs, img, i, true);
  }

  lemma SameField(p: Prog, ch: Choice, linked: Image, refs: seq<Ref>, img: Image, i: nat, second: bool)
    requires Sized(p, ch, linked) && Sized(p, ch, img) && LabelsInRange(p) && i < |p.insns|
    requires var o := OperandOf(p.insns[i], second); HasRef(refs, o, i, second) && (o.LabelRef? ==> o.name in p.labels)
    ensures var o := OperandOf(p.insns[i], second);
            Pack(o, Resolved(p, ch, linked, refs, i, second)) == Pack(o, TargetOf(p, ch, img, o))
  {
    hide Size, Wrap;
    var o := OperandOf(p.insns[i], second);
    if o.LabelRef? {
      var j := p.labels[o.name];
      OffsetsStable(p, ch, linked, img, if j < |img| then ch.place[j] else |img|);
    } else {
    }
  }

  lemma Finished(p: Prog, ch: Choice, linked: Image, refs: seq<Ref>, img: Image)
    requires Sized(p, ch, linked) && LinkedUpTo(ch, linked, |linked|) && PatchedBy(p, ch, linked, refs, img)
    requires RefsComplete(p, refs) && AllDefined(p) && LabelsInRange(p)
    ensures IsAssembled(p, ch, img)
  {
    hide Body, Size, EncodableInsn, TargetOf, Wrap, Link, LabelsKnown;
    forall i | 0 <= i < |img|
      ensures IsEncoded(p, ch, img, i)
    {
      var k := ch.place[i];
      assert BodyIs(img, k, BodyAfter(p, ch, linked, refs, ch.order[k]));
      BodyComplete(p, ch, linked, refs, img, i);
      assert Linked(ch, linked, k);
      if i + 1 < |img| {
        OffsetsStable(p, ch, linked, img, ch.place[i + 1]);
      }
    }
  }

  /** The image before any pointer or label is filled in. */
  function Drafts(p: Prog, ch: Choice): (img: Image)
    requires ValidChoice(ch, |p.insns|) && AllEncodable(p)
    ensures Sized(p, ch, img) && BodiesDrafted(p, ch, img)
  {
    DraftsSized(p, ch);
    seq(|p.insns|, k requires 0 <= k < |p.insns| => Draft(p.insns[ch.order[k]], ch.draws[ch.order[k]]))
  }

  lemma DraftsSized(p: Prog, ch: Choice)
    requires ValidChoice(ch, |p.insns|) && AllEncodable(p)
    ensures var n := |p.insns|;
            var img := seq(n, k requires 0 <= k < n => Draft(p.insns[ch.order[k]], ch.draws[ch.order[k]]));
            Sized(p, ch, img) && BodiesDrafted(p, ch, img)
  {
    hide Size, Body, EncodableInsn;
  }

  /** The fault an error reports is one the program has. */
  predicate Explained(lines: seq<Line>, ch: Choice, e: Error)
    requires ValidChoice(ch, |Parse(lines).insns|)
  {
    var p := Parse(lines);
    match e
    case DuplicateLabel(_) => !UniqueLabels(lines)
    case BadOperand => !AllEncodable(p)
    case NoInstructions => p.insns == []
    case UndefinedLabel(_) => !AllDefined(p)
    case OffsetTooLarge => AllEncodable(p) && Offset(Drafts(p, ch), |p.insns|) > 0xFF_FFFF
  }

  lemma TooLarge(lines: seq<Line>, ch: Choice, img: Image)
    requires ValidChoice(ch, |Parse(lines).insns|) && Sized(Parse(lines), ch, img) && Offset(img, |img|) > 0xFF_FFFF
    ensures Explained(lines, ch, OffsetTooLarge)
  {
    hide Parse, BodiesDrafted, Draft, Size;
    OffsetsStable(Parse(lines), ch, img, Drafts(Parse(lines), ch), |img|);
  }

  /** The whole compiler: for every shuffle and every choice of cipher bits it produces an assembled
      image of the program, or reports a fault the program has. */
  method Assemble(lines: seq<Line>, draws: seq<Draw>, order: seq<nat>, ghost place: seq<nat>) returns (r: Result<Image>)
    requires ValidChoice(Choice(order, place, draws), |Parse(lines).insns|)
    ensures r.Ok? ==> IsAssembled(Parse(lines), Choice(order, place, draws), r.value) && UniqueLabels(lines)
    ensures r.Err? ==> Explained(lines, Choice(order, place, draws), r.error)
  {
    hide Parse, Sized, BodiesDrafted, LinkedUpTo, PatchedBy, IsAssembled, RefsComplete, RefsSound, AllEncodable;
    hide AllDefined;
    hide Draft, Drafts, UniqueLabels, LabelsInRange, Offset;
    ghost var ch := Choice(order, place, draws);
    var first := FirstPass(lines, draws);
    if first.Err? {
      return Err(first.error);
    }
    var p, compiled := Parse(lines), first.value.compiled;
    var n := |compiled|;
    if n == 0 {
      return Err(NoInstructions);
    }
    var shuffled := seq(n, k requires 0 <= k < n => compiled[order[k]]);
    ShuffledDrafts(p, ch, compiled, shuffled);
    var reordering := Reordering(order, place);
    var linked := CorrectFallthroughs(p, ch, shuffled, order, reordering, first.value.fallthrough);
    if linked.Err? {
      TooLarge(lines, ch, shuffled);
      return Err(linked.error);
    }
    ParsedLabelsInRange(lines);
    r := ResolveLabels(p, ch, linked.value, first.value.refs, reordering);
    if r.Ok? {
      Finished(p, ch, linked.value, first.value.refs, r.value);
    } else if r.error.OffsetTooLarge? {
      TooLarge(lines, ch, linked.value);
    }
  }

  lemma ShuffledDrafts(p: Prog, ch: Choice, compiled: seq<seq<bv8>>, shuffled: Image)
    requires ValidChoice(ch, |p.insns|) && AllEncodable(p) && |compiled| == |shuffled| == |p.insns|
    requires forall i :: 0 <= i < |compiled| ==> compiled[i] == Draft(p.insns[i], ch.draws[i])
    requires forall k :: 0 <= k < |shuffled| ==> shuffled[k] == compiled[ch.order[k]]
    ensures Sized(p, ch, shuffled) && BodiesDrafted(p, ch, shuffled)
  {
    hide Draft, Sized, BodiesDrafted;
    assert shuffled == Drafts(p, ch);
  }

  /** The dictionary from old to new positions. */
  method Reordering(indices: seq<nat>, ghost place: seq<nat>) returns (m: map<nat, nat>)
    requires IsShuffle(indices, place, |indices|)
    ensures forall i :: i in m <==> 0 <= i < |indices|
    ensures forall i :: i in m ==> m[i] == place[i]
  {
    m := map[];
    for new_ := 0 to |indices|
      invariant forall k :: 0 <= k < new_ ==> indices[k] in m
      invariant forall i :: i in m ==> i < |indices| && m[i] == place[i]
    {
      m := m[indices[new_] := new_];
    }
    forall i | 0 <= i < |indices|
      ensures i in m
    {
      assert indices[place[i]] == i;
    }
  }
}
