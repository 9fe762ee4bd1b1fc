/** Source text made of labels and blocks of instructions, and what it parses to. */
module Texts {
  import opened Program

  function Codes(block: seq<Insn>): (lines: seq<Line>)
    ensures |lines| == |block|
  {
    seq(|block|, i requires 0 <= i < |block| => Code(block[i]))
  }

  lemma {:induction false} ParseCodes(lines: seq<Line>, block: seq<Insn>)
    ensures Parse(lines + Codes(block)) == Parse(lines).(insns := Parse(lines).insns + block)
    decreases |block|
  {
    if block == [] {
      assert lines + Codes(block) == lines;
      assert Parse(lines).insns + block == Parse(lines).insns;
    } else {
      var front, last := block[..|block| - 1], block[|block| - 1];
      assert lines + Codes(block) == lines + Codes(front) + [Code(last)];
      ParseCodes(lines, front);
      ParseLast(lines + Codes(front), Code(last));
      assert Parse(lines).insns + front + [last] == Parse(lines).insns + block;
    }
  }

  lemma ParseLast(lines: seq<Line>, line: Line)
    ensures Parse(lines + [line]) ==
            match line
            case Label(name) => Parse(lines).(labels := Parse(lines).labels[name := |Parse(lines).insns|])
            case Code(insn) => Parse(lines).(insns := Parse(lines).insns + [insn])
  {
    assert (lines + [line])[..|lines|] == lines;
  }

  /** A label and the code under it. */
  lemma ParseLabelled(lines: seq<Line>, name: string, block: seq<Insn>)
    ensures var p := Parse(lines);
            Parse(lines + [Label(name)] + Codes(block)) == Prog(p.insns + block, p.labels[name := |p.insns|])
  {
    ParseLast(lines, Label(name));
    ParseCodes(lines + [Label(name)], block);
  }
}
