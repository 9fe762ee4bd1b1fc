/** The whole validation routine the constraint generator writes: one labelled constraint per number and
    a common ending. */
module Validation {
  import opened Alu
  import opened Program
  import opened Blocks
  import opened Texts
  import opened Words32
  import opened Reaching
  import Lifter

  /** What the generator found for one number. */
  datatype Constraint = Constraint(first: Lifter.Part, terms: seq<Lifter.Term>, ans: bv32)

  /** The value the generator computes from the number `x`. */
  function ValueOn(c: Constraint, x: bv32): bv32 { Lifter.Answer(x, c.first, c.terms) }

  const CORRECT := "LAB_ValidateNext_Correct"

  // ----- Names -----

  function Digit(n: nat): char
    requires n < 10
  {
    "0123456789"[n]
  }

  function Decimal(n: nat): (s: string)
    ensures |s| > 0
  {
    if n < 10 then [Digit(n)] else Decimal(n / 10) + [Digit(n % 10)]
  }

  /** The number a text of decimal digits stands for. */
  function ReadDecimal(s: string): nat
    requires forall i :: 0 <= i < |s| ==> '0' <= s[i] <= '9'
  {
    if s == [] then 0 else 10 * ReadDecimal(s[..|s| - 1]) + (s[|s| - 1] - '0') as nat
  }

  /** Reading a written number gives it back, and nothing stands before it. */
  lemma {:induction false} DecimalReads(n: nat)
    ensures forall i :: 0 <= i < |Decimal(n)| ==> '0' <= Decimal(n)[i] <= '9'
    ensures ReadDecimal(Decimal(n)) == n && (n > 0 ==> Decimal(n)[0] != '0')
  {
    if n >= 10 {
      DecimalReads(n / 10);
      assert Decimal(n)[..|Decimal(n)| - 1] == Decimal(n / 10);
    } else {
      assert Decimal(n)[..0] == [];
    }
  }

  function EntryName(n: nat): string { "LAB_ValidateNext_" + Decimal(n) }

  lemma DecimalDiffers(m: nat, n: nat)
    requires Decimal(m) == Decimal(n)
    ensures m == n
  {
    DecimalReads(m);
    DecimalReads(n);
  }

  lemma {:induction false} FirstDigit(n: nat)
    ensures Decimal(n)[0] in "0123456789"
  {
    if n >= 10 {
      FirstDigit(n / 10);
    }
  }

  /** Entry names differ from one another and from the name of the ending. */
  lemma NamesDiffer(m: nat, n: nat)
    ensures EntryName(m) != CORRECT && (EntryName(m) == EntryName(n) ==> m == n)
  {
    FirstDigit(m);
    assert EntryName(m)[17] == Decimal(m)[0] && CORRECT[17] == 'C';
    if EntryName(m) == EntryName(n) {
      assert Decimal(m) == EntryName(m)[17..] && Decimal(n) == EntryName(n)[17..];
      DecimalDiffers(m, n);
    }
  }

  // ----- What is written -----

  function CodeOf(c: Constraint): seq<Insn> { Lifter.Computation(c.first, c.terms) + Lifter.Comparison32(c.ans) }

  const JUMP := Insn(JMP, LabelRef(CORRECT), NoOperand)
  const ENDING := Insn(RET, Flag(EQ), NoOperand)

  /** The lines of the first `k` constraints. */
  function Lines(cs: seq<Constraint>, start: nat, k: nat): seq<Line>
    requires k <= |cs|
  {
    if k == 0 then []
    else Lines(cs, start, k - 1) + [Label(EntryName(start + k - 1))] + Codes(CodeOf(cs[k - 1])) + [Code(JUMP)]
  }

  /** All lines: the last constraint runs into the ending. */
  function Listing(cs: seq<Constraint>, start: nat): seq<Line>
    requires cs != []
  {
    var n := |cs| - 1;
    Lines(cs, start, n) + [Label(EntryName(start + n))] + Codes(CodeOf(cs[n])) + [Label(CORRECT)] + [Code(ENDING)]
  }

  /** The generator's loop over the numbers, the cut of the last jump, and the ending. */
  method EmitAll(cs: seq<Constraint>, start: nat) returns (code: seq<Line>)
    requires cs != []
    ensures code == Listing(cs, start)
  {
    hide EntryName, CodeOf;
    code := [];
    for i := 0 to |cs|
      invariant code == Lines(cs, start, i)
    {
      code := code + [Label(EntryName(i + start))];
      var insns := Lifter.Emit(cs[i].first, cs[i].terms, cs[i].ans);
      EmittedIs(cs[i], insns);
      code := code + Codes(insns);
      code := code + [Code(JUMP)];
    }
    var n := |cs| - 1;
    assert code == (Lines(cs, start, n) + [Label(EntryName(start + n))] + Codes(CodeOf(cs[n]))) + [Code(JUMP)];
    code := code[..|code| - 1];
    code := code + [Label(CORRECT)];
    code := code + [Code(ENDING)];
  }

  lemma EmittedIs(c: Constraint, insns: seq<Insn>)
    requires insns == Lifter.Computation(c.first, c.terms) + Lifter.Comparison32(c.ans)
    ensures insns == CodeOf(c)
  {
  }

  // ----- What it parses to -----

  /** The instructions of the first `k` constraints. */
  function Insns(cs: seq<Constraint>, k: nat): seq<Insn>
    requires k <= |cs|
  {
    if k == 0 then [] else Insns(cs, k - 1) + CodeOf(cs[k - 1]) + [JUMP]
  }

  function AllInsns(cs: seq<Constraint>): seq<Insn>
    requires cs != []
  {
    Insns(cs, |cs| - 1) + CodeOf(cs[|cs| - 1]) + [ENDING]
  }

  /** Where constraint `k` begins. */
  function Entry(cs: seq<Constraint>, k: nat): nat
    requires k <= |cs|
  {
    |Insns(cs, k)|
  }

  predicate Labelled(labels: map<string, nat>, cs: seq<Constraint>, start: nat, k: nat)
    requires k <= |cs|
  {
    forall j :: 0 <= j < k ==> EntryAt(labels, cs, start, j)
  }

  predicate EntryAt(labels: map<string, nat>, cs: seq<Constraint>, start: nat, j: nat)
    requires j <= |cs|
  {
    EntryName(start + j) in labels && labels[EntryName(start + j)] == Entry(cs, j)
  }

  lemma {:induction false} LinesParse(cs: seq<Constraint>, start: nat, k: nat)
    requires k <= |cs|
    ensures var p := Parse(Lines(cs, start, k)); p.insns == Insns(cs, k) && Labelled(p.labels, cs, start, k)
    decreases k
  {
    hide Parse, EntryName, CodeOf;
    if k == 0 {
      NothingParses();
    } else {
      var before, name := Lines(cs, start, k - 1), EntryName(start + k - 1);
      LinesParse(cs, start, k - 1);
      ParseLabelled(before, name, CodeOf(cs[k - 1]));
      ParseLast(before + [Label(name)] + Codes(CodeOf(cs[k - 1])), Code(JUMP));
      forall j | 0 <= j < k ensures EntryAt(Parse(Lines(cs, start, k)).labels, cs, start, j) {
        assert j < k - 1 ==> EntryAt(Parse(before).labels, cs, start, j);
        NamesDiffer(start + j, start + k - 1);
      }
    }
  }

  lemma NothingParses()
    ensures Parse([]) == Prog([], map[])
  {
  }

  /** The text parses to the instructions, with every entry and the ending where they belong. */
  lemma ListingParses(cs: seq<Constraint>, start: nat)
    requires cs != []
    ensures var p := Parse(Listing(cs, start));
            && p.insns == AllInsns(cs)
            && Labelled(p.labels, cs, start, |cs|)
            && CORRECT in p.labels && p.labels[CORRECT] == |AllInsns(cs)| - 1
  {
    hide Parse, EntryName, CodeOf;
    var n := |cs| - 1;
    var before, name := Lines(cs, start, n), EntryName(start + n);
    var lines := before + [Label(name)] + Codes(CodeOf(cs[n]));
    LinesParse(cs, start, n);
    ParseLabelled(before, name, CodeOf(cs[n]));
    ParseLast(lines, Label(CORRECT));
    ParseLast(lines + [Label(CORRECT)], Code(ENDING));
    forall j | 0 <= j < |cs| ensures EntryAt(Parse(Listing(cs, start)).labels, cs, start, j) {
      assert j < n ==> EntryAt(Parse(before).labels, cs, start, j);
      NamesDiffer(start + j, start + n);
    }
  }

  // ----- What it does -----

  /** The routine stands at `at` in the program. */
  predicate ValidationAt(p: Prog, at: nat, cs: seq<Constraint>) {
    && cs != []
    && BlockAt(p, at, AllInsns(cs))
    && CORRECT in p.labels && p.labels[CORRECT] == at + |AllInsns(cs)| - 1
  }

  lemma {:induction false} InsnsPrefix(cs: seq<Constraint>, j: nat, k: nat)
    requires j <= k <= |cs|
    ensures Insns(cs, j) <= Insns(cs, k)
    decreases k - j
  {
    hide CodeOf;
    if j < k {
      InsnsPrefix(cs, j, k - 1);
    }
  }

  /** Constraint `k` and the instruction after it. */
  lemma ConstraintAt(p: Prog, at: nat, cs: seq<Constraint>, k: nat)
    requires ValidationAt(p, at, cs) && k < |cs|
    ensures var c, pc := CodeOf(cs[k]), at + Entry(cs, k);
            && BlockAt(p, pc, c)
            && pc + |c| < |p.insns|
            && p.insns[pc + |c|] == (if k + 1 < |cs| then JUMP else ENDING)
            && at + |AllInsns(cs)| - 1 < |p.insns| && p.insns[at + |AllInsns(cs)| - 1] == ENDING
  {
    hide CodeOf, Insns, AllInsns, BlockAt;
    var c, pc, last := CodeOf(cs[k]), at + Entry(cs, k), if k + 1 < |cs| then JUMP else ENDING;
    var rest := AllSplit(cs, k);
    BlockSplit(p, at, Insns(cs, k), c + ([last] + rest));
    BlockSplit(p, pc, c, [last] + rest);
    InsnAt(p, pc + |c|, [last] + rest, 0);
    LastIs(cs);
    InsnAt(p, at, AllInsns(cs), |AllInsns(cs)| - 1);
  }

  lemma AllSplit(cs: seq<Constraint>, k: nat) returns (rest: seq<Insn>)
    requires k < |cs|
    ensures AllInsns(cs) == Insns(cs, k) + (CodeOf(cs[k]) + ([if k + 1 < |cs| then JUMP else ENDING] + rest))
  {
    hide CodeOf;
    var c, n, last := CodeOf(cs[k]), |cs| - 1, if k + 1 < |cs| then JUMP else ENDING;
    var a := Insns(cs, k) + c + [last];
    if k < n {
      assert a == Insns(cs, k + 1);
      InsnsPrefix(cs, k + 1, n);
      assert Insns(cs, n) <= AllInsns(cs);
    }
    assert a <= AllInsns(cs);
    rest := AllInsns(cs)[|a|..];
  }

  lemma LastIs(cs: seq<Constraint>)
    requires cs != []
    ensures |AllInsns(cs)| > 0 && AllInsns(cs)[|AllInsns(cs)| - 1] == ENDING
  {
    hide CodeOf, Insns;
  }

  /** The state `c` is `s` with a comparison made and R1 and R2 used. */
  predicate Compared(s: State, c: State) {
    && c == s.(pc := c.pc, data := c.data, flags := c.flags)
    && Get(c.data, Lifter.F0) == Get(s.data, Lifter.F0)
    && c.data.mem == s.data.mem
  }

  /** Entered at any of its labels with a number in F0, the routine returns to its caller, with EQ set
      exactly when the value the generator computes from the number is that constraint's answer. */
  lemma EntryValidates(p: Prog, u: set<LocalKey>, s: State, at: nat, cs: seq<Constraint>, k: nat) returns (c: State)
    requires ValidationAt(p, at, cs) && k < |cs|
    requires s.pc == at + Entry(cs, k) && s.status == Running && |s.data.mem| == MEMORY_SIZE
    ensures Goes(p, u, s, Leave(c)) && Compared(s, c)
    ensures c.flags == Equal <==> ValueOn(cs[k], Get(s.data, Lifter.F0)) == cs[k].ans
  {
    hide Get, Goes, CodeOf, AllInsns, Lifter.Answer, Run, CanRun, Leave;
    var d := cs[k];
    ConstraintAt(p, at, cs, k);
    CodeLength(d);
    var n := |Lifter.Computation(d.first, d.terms)|;
    Lifter.ConstraintChecks(p, u, s, d.first, d.terms, d.ans);
    var a, e := Run(p, u, n + 1, s), Run(p, u, n + 2, s);
    GoesRun(p, u, n + 2, s);
    if a.flags == Equal {
      c := e;
      if k + 1 < |cs| {
        c := e.(pc := at + |AllInsns(cs)| - 1);
        GoesAlways(p, u, e, CORRECT);
        GoesOn(p, u, s, e, c);
      }
      EndingReturns(p, u, c);
      GoesOn(p, u, s, c, Leave(c));
    } else {
      c := a;
    }
  }

  lemma CodeLength(c: Constraint)
    ensures CodeOf(c) == Lifter.Computation(c.first, c.terms) + Lifter.Comparison32(c.ans)
    ensures |CodeOf(c)| == |Lifter.Computation(c.first, c.terms)| + 2
  {
  }

  lemma EndingReturns(p: Prog, u: set<LocalKey>, s: State)
    requires s.status == Running && s.pc < |p.insns| && p.insns[s.pc] == ENDING && s.flags == Equal
    requires |s.data.mem| == MEMORY_SIZE
    ensures Goes(p, u, s, Leave(s))
  {
    FlagReads(EQ, s.data);
    assert Defined(p, u, s) && Step(p, u, s) == Leave(s);
    GoesStep(p, u, s);
  }
}
