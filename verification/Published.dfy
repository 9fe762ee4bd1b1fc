/** The label pass as published: it searches each referring instruction for a byte pattern that is not
    the placeholder the first pass emits. The assembler of this project overwrites the placeholder
    instead; here is exactly when the published search has the same effect. */
module Published {
  import opened Words
  import opened Program
  import opened Encoding
  import opened Assembler

  const PATTERN: seq<bv8> := [0xB0, 0x00, 0xB5]

  /** Python's bytes.replace for a 3-byte pattern: leftmost occurrences first, none overlapping. */
  function ReplaceAll(s: seq<bv8>, with_: seq<bv8>): (r: seq<bv8>)
    requires |with_| == 3
    ensures |r| == |s|
    decreases |s|
  {
    if |s| < 3 then s
    else if s[..3] == PATTERN then with_ + ReplaceAll(s[3..], with_)
    else [s[0]] + ReplaceAll(s[1..], with_)
  }

  predicate OccursAt(s: seq<bv8>, k: nat) {
    k + 3 <= |s| && s[k..k + 3] == PATTERN
  }

  predicate Occurs(s: seq<bv8>) {
    exists k :: 0 <= k < |s| && OccursAt(s, k)
  }

  function OffsetBytes(x: bv32): (b: seq<bv8>)
    ensures |b| == 3
  {
    [B2(x), B1(x), B0(x)]
  }

  /** A byte that is no byte of the pattern is never replaced. */
  lemma {:induction false} Missed(s: seq<bv8>, with_: seq<bv8>, k: nat)
    requires |with_| == 3 && k < |s| && s[k] !in PATTERN
    ensures ReplaceAll(s, with_)[k] == s[k]
    decreases |s|
  {
    if |s| >= 3 {
      if s[..3] == PATTERN {
        assert s[0] == s[..3][0] && s[1] == s[..3][1] && s[2] == s[..3][2];
        Missed(s[3..], with_, k - 3);
      } else if k > 0 {
        Missed(s[1..], with_, k - 1);
      }
    }
  }

  lemma {:induction false} NothingReplaced(s: seq<bv8>, with_: seq<bv8>)
    requires |with_| == 3 && !Occurs(s)
    ensures ReplaceAll(s, with_) == s
    decreases |s|
  {
    if |s| >= 3 {
      assert s[..3] == s[0..0 + 3] && !OccursAt(s, 0);
      forall k | 0 <= k < |s[1..]| ensures !OccursAt(s[1..], k) {
        if k + 3 <= |s[1..]| {
          assert s[1..][k..k + 3] == s[k + 1..k + 1 + 3];
          assert !OccursAt(s, k + 1);
        }
      }
      NothingReplaced(s[1..], with_);
    }
  }

  lemma {:induction false} SomethingReplaced(s: seq<bv8>, with_: seq<bv8>, k: nat)
    requires |with_| == 3 && with_ != PATTERN && OccursAt(s, k)
    ensures ReplaceAll(s, with_) != s
    decreases |s|
  {
    if s[..3] == PATTERN {
      assert ReplaceAll(s, with_)[..3] == with_;
    } else {
      assert k > 0 by { assert s[0..0 + 3] == s[..3]; }
      assert s[1..][k - 1..k - 1 + 3] == s[k..k + 3];
      SomethingReplaced(s[1..], with_, k - 1);
      assert ReplaceAll(s, with_)[1..] == ReplaceAll(s[1..], with_);
    }
  }

  /** An encoded instruction with unresolved labels and any fallthrough pointer. */
  function Unresolved(i: Insn, draw: Draw, link: seq<bv8>): seq<bv8>
    requires EncodableInsn(i) && |link| == 3
  {
    Body(i, draw, PLACEHOLDER, PLACEHOLDER) + link
  }

  lemma PlaceholderBytes()
    ensures OffsetBytes(PLACEHOLDER) == [0x11, 0x22, 0x33]
  {
  }

  /** A label operand holds the placeholder. */
  lemma PlaceholderAt(i: Insn, draw: Draw, link: seq<bv8>, second: bool)
    requires EncodableInsn(i) && |link| == 3 && OperandOf(i, second).LabelRef?
    ensures var b, at := Unresolved(i, draw, link), SlotAt(i, second);
            at + 3 <= |b| && b[at..at + 3] == [0x11, 0x22, 0x33]
  {
    hide Body, SlotAt, B0, B1, B2;
    var s, at := Body(i, draw, PLACEHOLDER, PLACEHOLDER), SlotAt(i, second);
    PatchBody(i, draw, PLACEHOLDER, PLACEHOLDER, second, PLACEHOLDER);
    PlaceholderBytes();
    assert Patch(s, at, PLACEHOLDER) == s;
    assert s[at] == B2(PLACEHOLDER) && s[at + 1] == B1(PLACEHOLDER) && s[at + 2] == B0(PLACEHOLDER);
    assert OffsetBytes(PLACEHOLDER) == [B2(PLACEHOLDER), B1(PLACEHOLDER), B0(PLACEHOLDER)];
    assert (s + link)[at..at + 3] == [s[at], s[at + 1], s[at + 2]];
  }

  /** The published search never reaches a label operand: it keeps the placeholder. */
  lemma LabelsMissed(i: Insn, draw: Draw, link: seq<bv8>, second: bool, x: bv32)
    requires EncodableInsn(i) && |link| == 3 && OperandOf(i, second).LabelRef?
    ensures var b, at := Unresolved(i, draw, link), SlotAt(i, second);
            at + 3 <= |b| && ReplaceAll(b, OffsetBytes(x))[at..at + 3] == [0x11, 0x22, 0x33]
  {
    hide Unresolved, SlotAt, OffsetBytes, ReplaceAll;
    var b, at := Unresolved(i, draw, link), SlotAt(i, second);
    PlaceholderAt(i, draw, link, second);
    var w := b[at..at + 3];
    assert b[at] == w[0] && b[at + 1] == w[1] && b[at + 2] == w[2];
    Missed(b, OffsetBytes(x), at);
    Missed(b, OffsetBytes(x), at + 1);
    Missed(b, OffsetBytes(x), at + 2);
    assert ReplaceAll(b, OffsetBytes(x))[at..at + 3] == w;
  }

  lemma OffsetBytesInjective(x: bv32)
    requires x < 0x100_0000
    ensures OffsetBytes(x) == [0x11, 0x22, 0x33] <==> x == PLACEHOLDER
  {
    PlaceholderBytes();
  }

  /** The published search resolves a label as intended exactly when the offset happens to be the
      placeholder and no other bytes of the instruction match the pattern. */
  lemma PublishedIntended(i: Insn, draw: Draw, link: seq<bv8>, second: bool, x: bv32)
    requires EncodableInsn(i) && |link| == 3 && OperandOf(i, second).LabelRef? && x < 0x100_0000
    ensures var b, at := Unresolved(i, draw, link), SlotAt(i, second);
            && at + 3 <= |b|
            && (ReplaceAll(b, OffsetBytes(x)) == Patch(b, at, x) <==> x == PLACEHOLDER && !Occurs(b))
  {
    hide Unresolved, SlotAt, ReplaceAll, B0, B1, B2;
    var b, at := Unresolved(i, draw, link), SlotAt(i, second);
    PlaceholderAt(i, draw, link, second);
    LabelsMissed(i, draw, link, second, x);
    OffsetBytesInjective(x);
    assert Patch(b, at, x)[at..at + 3] == OffsetBytes(x);
    if x == PLACEHOLDER {
      var w := b[at..at + 3];
      assert b[at] == w[0] && b[at + 1] == w[1] && b[at + 2] == w[2];
      assert Patch(b, at, x) == b;
      if Occurs(b) {
        var k :| 0 <= k < |b| && OccursAt(b, k);
        assert OffsetBytes(x)[0] != PATTERN[0];
        SomethingReplaced(b, OffsetBytes(x), k);
      } else {
        NothingReplaced(b, OffsetBytes(x));
      }
    }
  }
}
