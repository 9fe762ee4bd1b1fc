/** The whole label pass as published, replacement after replacement, against the intended pass. */
module PublishedPass {
  import opened Words
  import opened Program
  import opened Encoding
  import opened Layout
  import opened Assembler
  import opened Published

  /** The published pass has no effect on this reference and the intended one none either. */
  predicate Harmless(p: Prog, ch: Choice, linked: Image, r: Ref)
    requires ValidChoice(ch, |linked|) && r.index < |linked|
  {
    TargetIsPlaceholder(p, ch, linked, r) && !Occurs(linked[ch.place[r.index]])
  }

  /** The label referred to starts at 0x112233. */
  predicate TargetIsPlaceholder(p: Prog, ch: Choice, linked: Image, r: Ref)
    requires ValidChoice(ch, |linked|)
  {
    TargetOf(p, ch, linked, LabelRef(r.name)) == PLACEHOLDER
  }

  predicate AllHarmless(p: Prog, ch: Choice, linked: Image, refs: seq<Ref>)
    requires Sized(p, ch, linked) && RefsSound(p, refs)
  {
    forall r :: r in refs ==> Harmless(p, ch, linked, r)
  }

  predicate AllPlaceholder(p: Prog, ch: Choice, linked: Image, refs: seq<Ref>)
    requires ValidChoice(ch, |linked|)
  {
    forall r :: r in refs ==> TargetIsPlaceholder(p, ch, linked, r)
  }

  // ----- What the pass keeps -----

  predicate SlotKept(s: seq<bv8>, at: nat) {
    at + 3 <= |s| && s[at..at + 3] == [0x11, 0x22, 0x33]
  }

  /** Every label operand still holds the placeholder. */
  predicate SlotsKept(p: Prog, ch: Choice, img: Image)
    requires Sized(p, ch, img)
  {
    forall i, second :: 0 <= i < |p.insns| && OperandOf(p.insns[i], second).LabelRef? ==>
      SlotKept(img[ch.place[i]], SlotAt(p.insns[i], second))
  }

  /** Every occurrence of the pattern is gone. */
  predicate Wiped(a: seq<bv8>, b: seq<bv8>) {
    |a| == |b| && forall k :: 0 <= k < |a| && OccursAt(a, k) ==> b[k] == 0x11
  }

  /** After the references in `done` have been searched for. */
  predicate Searched(p: Prog, ch: Choice, linked: Image, done: seq<Ref>, img: Image)
    requires Sized(p, ch, linked) && RefsSound(p, done)
  {
    && Sized(p, ch, img)
    && SlotsKept(p, ch, img)
    && (forall k :: 0 <= k < |img| ==> Untouched(ch, done, k) ==> img[k] == linked[k])
    && (AllHarmless(p, ch, linked, done) ==> img == linked)
    && (AllPlaceholder(p, ch, linked, done) ==>
          forall r :: r in done ==> Wiped(linked[ch.place[r.index]], img[ch.place[r.index]]))
  }

  predicate Untouched(ch: Choice, done: seq<Ref>, k: nat) {
    forall r :: r in done ==> r.index < |ch.place| && ch.place[r.index] != k
  }

  // ----- One replacement -----

  lemma SlotSurvives(s: seq<bv8>, with_: seq<bv8>, at: nat)
    requires |with_| == 3 && SlotKept(s, at)
    ensures SlotKept(ReplaceAll(s, with_), at)
  {
    hide ReplaceAll;
    var w := s[at..at + 3];
    assert s[at] == w[0] && s[at + 1] == w[1] && s[at + 2] == w[2];
    Missed(s, with_, at);
    Missed(s, with_, at + 1);
    Missed(s, with_, at + 2);
    assert ReplaceAll(s, with_)[at..at + 3] == w;
  }

  /** The pattern does not overlap itself, so every occurrence is replaced. */
  lemma {:induction false} ReplacedAt(s: seq<bv8>, with_: seq<bv8>, k: nat)
    requires |with_| == 3 && OccursAt(s, k)
    ensures ReplaceAll(s, with_)[k] == with_[0]
    decreases |s|
  {
    var w := s[k..k + 3];
    assert s[k] == w[0] && s[k + 1] == w[1] && s[k + 2] == w[2];
    if s[..3] == PATTERN {
      assert s[0] == s[..3][0] && s[1] == s[..3][1] && s[2] == s[..3][2];
      if k > 0 {
        assert s[3..][k - 3..k - 3 + 3] == w;
        ReplacedAt(s[3..], with_, k - 3);
      }
    } else {
      assert k > 0 by { assert s[0..0 + 3] == s[..3]; }
      assert s[1..][k - 1..k - 1 + 3] == w;
      ReplacedAt(s[1..], with_, k - 1);
    }
  }

  /** A replacement by the placeholder's bytes wipes out every occurrence, and what is wiped stays so. */
  lemma Wipes(a: seq<bv8>, b: seq<bv8>)
    requires a == b || Wiped(a, b)
    ensures Wiped(a, ReplaceAll(b, OffsetBytes(PLACEHOLDER)))
  {
    hide ReplaceAll, OffsetBytes, OccursAt;
    var w := OffsetBytes(PLACEHOLDER);
    PlaceholderBytes();
    forall k | 0 <= k < |a| && OccursAt(a, k) ensures ReplaceAll(b, w)[k] == 0x11 {
      if Wiped(a, b) {
        Missed(b, w, k);
      } else {
        ReplacedAt(b, w, k);
      }
    }
  }

  /** The image after the search for one reference. */
  function Replace(p: Prog, ch: Choice, img: Image, r: Ref, x: bv32): Image
    requires Sized(p, ch, img) && r.index < |img|
  {
    img[ch.place[r.index] := ReplaceAll(img[ch.place[r.index]], OffsetBytes(x))]
  }

  lemma ReplaceKeeps(p: Prog, ch: Choice, img: Image, r: Ref, x: bv32)
    requires Sized(p, ch, img) && r.index < |img| && SlotsKept(p, ch, img)
    ensures var n := Replace(p, ch, img, r, x); Sized(p, ch, n) && SlotsKept(p, ch, n)
  {
    hide ReplaceAll, OffsetBytes, Size, EncodableInsn, SlotAt, SlotKept;
    var n := Replace(p, ch, img, r, x);
    forall i, second | 0 <= i < |p.insns| && OperandOf(p.insns[i], second).LabelRef?
      ensures SlotKept(n[ch.place[i]], SlotAt(p.insns[i], second))
    {
      assert SlotKept(img[ch.place[i]], SlotAt(p.insns[i], second));
      SlotSurvives(img[ch.place[i]], OffsetBytes(x), SlotAt(p.insns[i], second));
    }
  }

  lemma SearchStep(p: Prog, ch: Choice, linked: Image, done: seq<Ref>, r: Ref, img: Image, x: bv32)
    requires Sized(p, ch, linked) && RefsSound(p, done) && RefSound(p, r) && Searched(p, ch, linked, done, img)
    requires x == TargetOf(p, ch, linked, LabelRef(r.name))
    ensures RefsSound(p, done + [r]) && Searched(p, ch, linked, done + [r], Replace(p, ch, img, r, x))
  {
    hide ReplaceAll, OffsetBytes, Size, EncodableInsn, SlotsKept, TargetOf, Wiped, Occurs;
    var n, k := Replace(p, ch, img, r, x), ch.place[r.index];
    ReplaceKeeps(p, ch, img, r, x);
    forall j | 0 <= j < |n| && Untouched(ch, done + [r], j) ensures n[j] == linked[j] {
      assert r in done + [r];
      assert Untouched(ch, done, j);
    }
    if AllHarmless(p, ch, linked, done + [r]) {
      assert r in done + [r];
      assert AllHarmless(p, ch, linked, done);
      NothingReplaced(linked[k], OffsetBytes(x));
    }
    if AllPlaceholder(p, ch, linked, done + [r]) {
      assert r in done + [r];
      assert AllPlaceholder(p, ch, linked, done);
      WipeStep(p, ch, linked, done, r, img);
    }
  }

  lemma WipeStep(p: Prog, ch: Choice, linked: Image, done: seq<Ref>, r: Ref, img: Image)
    requires Sized(p, ch, linked) && RefsSound(p, done) && RefSound(p, r) && Searched(p, ch, linked, done, img)
    requires AllPlaceholder(p, ch, linked, done)
    ensures var n := Replace(p, ch, img, r, PLACEHOLDER);
            forall q :: q in done + [r] ==> Wiped(linked[ch.place[q.index]], n[ch.place[q.index]])
  {
    hide ReplaceAll, OffsetBytes, Size, EncodableInsn, SlotsKept, TargetOf, Wiped, Occurs;
    var n, k := Replace(p, ch, img, r, PLACEHOLDER), ch.place[r.index];
    assert img[k] == linked[k] || Wiped(linked[k], img[k]) by {
      if !Untouched(ch, done, k) {
        var q :| q in done && !(q.index < |ch.place| && ch.place[q.index] != k);
        assert RefSound(p, q);
      }
    }
    Wipes(linked[k], img[k]);
    forall q | q in done + [r] ensures Wiped(linked[ch.place[q.index]], n[ch.place[q.index]]) {
    }
  }

  // ----- Against the intended pass -----

  /** A label operand of an encoded instruction holds the bytes of its target. */
  lemma SlotHolds(i: Insn, draw: Draw, t1: bv32, t2: bv32, second: bool)
    requires EncodableInsn(i) && OperandOf(i, second).LabelRef?
    ensures var s, at := Body(i, draw, t1, t2), SlotAt(i, second);
            at + 3 <= |s| && s[at..at + 3] == OffsetBytes(if second then t2 else t1)
  {
    hide Body, SlotAt, B0, B1, B2;
    var s, at, t := Body(i, draw, t1, t2), SlotAt(i, second), if second then t2 else t1;
    PatchBody(i, draw, t1, t2, second, t);
    assert Patch(s, at, t) == s;
    assert s[at] == B2(t) && s[at + 1] == B1(t) && s[at + 2] == B0(t);
  }

  lemma DraftedKept(p: Prog, ch: Choice, linked: Image)
    requires Sized(p, ch, linked) && BodiesDrafted(p, ch, linked)
    ensures Searched(p, ch, linked, [], linked)
  {
    hide Body, Size, EncodableInsn, SlotAt, TargetOf, OffsetBytes;
    PlaceholderBytes();
    forall i, second | 0 <= i < |p.insns| && OperandOf(p.insns[i], second).LabelRef?
      ensures SlotKept(linked[ch.place[i]], SlotAt(p.insns[i], second))
    {
      var k, at := ch.place[i], SlotAt(p.insns[i], second);
      assert BodyIs(linked, k, DraftBody(p, ch, ch.order[k]));
      var body := DraftBody(p, ch, i);
      SlotHolds(p.insns[i], ch.draws[i], PLACEHOLDER, PLACEHOLDER, second);
    }
  }

  /** If the pass did what is intended, every label referred to starts at the placeholder. */
  lemma TargetForced(p: Prog, ch: Choice, linked: Image, refs: seq<Ref>, img: Image, r: Ref)
    requires Sized(p, ch, linked) && RefsSound(p, refs) && r in refs
    requires PatchedBy(p, ch, linked, refs, img) && SlotsKept(p, ch, img)
    requires TargetOf(p, ch, linked, LabelRef(r.name)) < 0x100_0000
    ensures TargetIsPlaceholder(p, ch, linked, r)
  {
    hide Body, Size, EncodableInsn, SlotAt, TargetOf, OffsetBytes;
    assert RefSound(p, r);
    var i, k, at := r.index, ch.place[r.index], SlotAt(p.insns[r.index], r.second);
    assert BodyIs(img, k, BodyAfter(p, ch, linked, refs, ch.order[k]));
    var body := BodyAfter(p, ch, linked, refs, i);
    var t1, t2 := Resolved(p, ch, linked, refs, i, false), Resolved(p, ch, linked, refs, i, true);
    SlotHolds(p.insns[i], ch.draws[i], t1, t2, r.second);
    assert OperandOf(p.insns[i], r.second).LabelRef?;
    assert SlotKept(img[k], at);
    OffsetBytesInjective(TargetOf(p, ch, linked, LabelRef(r.name)));
  }

  /** With all labels at the placeholder, the intended pass changes nothing. */
  lemma IntendedIsLinked(p: Prog, ch: Choice, linked: Image, refs: seq<Ref>, img: Image)
    requires Sized(p, ch, linked) && BodiesDrafted(p, ch, linked) && RefsSound(p, refs)
    requires AllPlaceholder(p, ch, linked, refs) && Sized(p, ch, img)
    ensures PatchedBy(p, ch, linked, refs, img) <==> img == linked
  {
    hide BodyAfter, DraftBody, Size, EncodableInsn, TargetOf;
    forall k | 0 <= k < |linked|
      ensures BodyAfter(p, ch, linked, refs, ch.order[k]) == DraftBody(p, ch, ch.order[k])
    {
      SameBody(p, ch, linked, refs, ch.order[k]);
    }
    forall k | 0 <= k < |linked| ensures BodyIs(linked, k, BodyAfter(p, ch, linked, refs, ch.order[k])) {
      assert BodyIs(linked, k, DraftBody(p, ch, ch.order[k]));
    }
    if PatchedBy(p, ch, linked, refs, img) {
      forall k | 0 <= k < |linked| ensures img[k] == linked[k] {
        var body := DraftBody(p, ch, ch.order[k]);
        assert BodyIs(img, k, BodyAfter(p, ch, linked, refs, ch.order[k])) && BodyIs(linked, k, body);
      }
    }
  }

  lemma SameBody(p: Prog, ch: Choice, linked: Image, refs: seq<Ref>, i: nat)
    requires Sized(p, ch, linked) && AllPlaceholder(p, ch, linked, refs) && i < |p.insns|
    ensures BodyAfter(p, ch, linked, refs, i) == DraftBody(p, ch, i)
  {
    hide Body, Size, Resolved, TargetOf;
    SameResolved(p, ch, linked, refs, i, false);
    SameResolved(p, ch, linked, refs, i, true);
  }

  lemma SameResolved(p: Prog, ch: Choice, linked: Image, refs: seq<Ref>, i: nat, second: bool)
    requires Sized(p, ch, linked) && AllPlaceholder(p, ch, linked, refs) && i < |p.insns|
    ensures Resolved(p, ch, linked, refs, i, second) == PLACEHOLDER
  {
    hide TargetOf, Size, EncodableInsn;
    var o := OperandOf(p.insns[i], second);
    if o.LabelRef? && Ref(o.name, i, second) in refs {
      assert TargetIsPlaceholder(p, ch, linked, Ref(o.name, i, second));
      assert o == LabelRef(o.name);
    }
  }

  /** After all searches: the image is the intended one exactly when every label referred to starts at
      0x112233 and no instruction that refers to one contains the pattern. */
  lemma SearchedIntended(p: Prog, ch: Choice, linked: Image, refs: seq<Ref>, img: Image)
    requires Sized(p, ch, linked) && BodiesDrafted(p, ch, linked) && RefsSound(p, refs)
    requires Searched(p, ch, linked, refs, img)
    requires forall r :: r in refs ==> TargetOf(p, ch, linked, LabelRef(r.name)) < 0x100_0000
    ensures PatchedBy(p, ch, linked, refs, img) <==> AllHarmless(p, ch, linked, refs)
  {
    hide Size, EncodableInsn, SlotsKept, TargetOf, PatchedBy, OccursAt;
    if PatchedBy(p, ch, linked, refs, img) {
      forall r | r in refs ensures TargetIsPlaceholder(p, ch, linked, r) {
        TargetForced(p, ch, linked, refs, img, r);
      }
      IntendedIsLinked(p, ch, linked, refs, img);
      forall r | r in refs ensures !Occurs(linked[ch.place[r.index]]) {
        var a := linked[ch.place[r.index]];
        assert Wiped(a, a);
        if Occurs(a) {
          var k :| 0 <= k < |a| && OccursAt(a, k);
          FirstByte(a, k);
        }
      }
    } else if AllHarmless(p, ch, linked, refs) {
      IntendedIsLinked(p, ch, linked, refs, img);
    }
  }

  lemma FirstByte(s: seq<bv8>, k: nat)
    requires OccursAt(s, k)
    ensures s[k] == 0xB0
  {
    assert s[k] == s[k..k + 3][0];
  }

  // ----- The pass -----

  /** Searches every referring instruction for the pattern, in whatever order the references come, and
      puts the label's offset where it is found. */
  method ResolveAsPublished(p: Prog, ghost ch: Choice, linked: Image, refs: seq<Ref>, reordering: map<nat, nat>)
    returns (r: Result<Image>)
    requires Sized(p, ch, linked) && BodiesDrafted(p, ch, linked)
    requires RefsSound(p, refs) && RefsComplete(p, refs) && LabelsInRange(p)
    requires forall i :: i in reordering <==> 0 <= i < |linked|
    requires forall i :: i in reordering ==> reordering[i] == ch.place[i]
    ensures r.Ok? ==> (PatchedBy(p, ch, linked, refs, r.value) <==> AllHarmless(p, ch, linked, refs))
    ensures r.Err? ==>
      match r.error
      case UndefinedLabel(_) => !AllDefined(p)
      case OffsetTooLarge => Offset(linked, |linked|) > 0xFF_FFFF
      case _ => false
  {
    hide PatchedBy, BodiesDrafted, TargetOf, Wrap, Size, Searched, AllHarmless, ReplaceAll, OffsetBytes;
    var labels := Reindexed(p.labels, reordering);
    var compiled := linked;
    DraftedKept(p, ch, linked);
    for j := 0 to |refs|
      invariant |compiled| == |linked| && Sized(p, ch, compiled)
      invariant RefsSound(p, refs[..j]) && Searched(p, ch, linked, refs[..j], compiled)
      invariant forall q :: q in refs[..j] ==> TargetOf(p, ch, linked, LabelRef(q.name)) < 0x100_0000
    {
      var ref := refs[j];
      assert RefSound(p, ref);
      if ref.name !in labels {
        assert !LabelsKnown(p, p.insns[ref.index]);
        return Err(UndefinedLabel(ref.name));
      }
      var offset := Offset(compiled, labels[ref.name]);
      OffsetsStable(p, ch, compiled, linked, labels[ref.name]);
      if offset > 0xFF_FFFF {
        OffsetMonotonic(linked, labels[ref.name], |linked|);
        return Err(OffsetTooLarge);
      }
      TargetIs(p, ch, linked, ref.name, labels[ref.name], offset);
      SmallWord(offset);
      SearchStep(p, ch, linked, refs[..j], ref, compiled, Wrap(offset));
      assert refs[..j + 1] == refs[..j] + [ref];
      var k := reordering[ref.index];
      compiled := compiled[k := ReplaceAll(compiled[k], OffsetBytes(Wrap(offset)))];
    }
    assert refs[..|refs|] == refs;
    SearchedIntended(p, ch, linked, refs, compiled);
    return Ok(compiled);
  }
}
