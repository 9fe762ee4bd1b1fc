/** The effect of a data instruction, kind by kind. */
module AluCases {
  import opened Words
  import opened Alu

  lemma MoveCases(op: Opcode, p1: Place, p2: Place, st: Data)
    requires IsMove(op) && ExecDefined(op, p1, p2, st, 0)
    ensures Writable(p1, 0, |st.mem|) && !p1.Nothing? && !p2.Nothing?
    ensures var s := SourceValue(op, p1, p2, st);
            Exec(op, p1, p2, st) == Write(p1,
              if op.MOV? then s
              else if op.NOT? then if p1.InRegister? then Low(!s, p1.v) else !s
              else if op.SWAP? then SwapHalves(s, p2.v)
              else ReverseBits(s, p2.v), st)
  {
    hide Write, SourceValue, Low, SwapHalves, ReverseBits, Val;
  }

  lemma PackCases(op: Opcode, p1: Place, p2: Place, st: Data)
    requires IsPack(op) && ExecDefined(op, p1, p2, st, 0)
    ensures Writable(p1, 0, |st.mem|) && !p1.Nothing? && !p2.Nothing? && Readable(p1, p2.v, 0, |st.mem|)
    ensures var s, d := SourceValue(op, p1, p2, st), Read(p1, p2.v, st.regs, st.mem);
            var x := if op.PACKHI? then PackHigh(d, s, p2.v) else PackLow(d, s, p2.v);
            Result(op, p1, p2, st) == x && Exec(op, p1, p2, st) == Write(p1, Stored(op, p1, p2.v, x, st), st)
  {
    hide Write, SourceValue, Read, PackHigh, PackLow, Val, Widened;
  }

  lemma PackIgnored(op: Opcode, p1: Place, p2: Place, st: Data)
    requires IsPack(op) && ExecDefined(op, p1, p2, st, 0) && p1.Constant?
    ensures Exec(op, p1, p2, st) == st
  {
    hide SourceValue, Read, PackHigh, PackLow, Val;
  }

  lemma RotateCases(op: Opcode, p1: Place, p2: Place, st: Data)
    requires IsRotate(op) && ExecDefined(op, p1, p2, st, 0)
    ensures Writable(p1, 0, |st.mem|) && !p1.Nothing? && !p2.Nothing? && Readable(p1, p1.v, 0, |st.mem|)
    ensures var s, d := SourceValue(op, p1, p2, st), Read(p1, p1.v, st.regs, st.mem);
            var r := RotateBy(s, p1.v);
            Exec(op, p1, p2, st) == Write(p1, if op.ROL? then RotateLeft(d, r, p1.v) else RotateRight(d, r, p1.v), st)
  {
    hide Write, SourceValue, Read, RotateLeft, RotateRight, Val;
  }

  /** Arithmetic by kind of destination. The handlers of commutative operations take the memory value
      as second operand, those of SHL and SHR too; SUB, DIV and MOD take it first. */
  lemma BinaryCases(op: Opcode, p1: Place, p2: Place, st: Data)
    requires IsBinary(op) && ExecDefined(op, p1, p2, st, 0)
    ensures Writable(p1, 0, |st.mem|)
    ensures var s := SourceValue(op, p1, p2, st);
            && (p1.InRegister? ==>
                  var d := st.regs[p1.r as nat];
                  BinaryDefined(op, d, s) && Exec(op, p1, p2, st) == Write(p1, Low(Binary(op, d, s), p1.v), st))
            && (p1.InMemory? ==>
                  Val(p1.a) + 4 <= |st.mem| &&
                  var d := Load(st.mem, Val(p1.a), p1.v);
                  var first := op.SUB? || op.DIV? || op.MOD?;
                  && (if first then BinaryDefined(op, d, s) else BinaryDefined(op, s, d))
                  && Exec(op, p1, p2, st) == Write(p1, if first then Binary(op, d, s) else Binary(op, s, d), st))
            && (p1.Constant? ==> Exec(op, p1, p2, st) == st)
  {
    hide Binary, Load, Write, SourceValue, BinaryDefined;
    var s := SourceValue(op, p1, p2, st);
    if p1.InRegister? {
      assert Low(st.regs[p1.r as nat], Int) == st.regs[p1.r as nat];
    } else if p1.InMemory? {
      if !(op.SUB? || op.DIV? || op.MOD? || op.SHL? || op.SHR?) {
        Commutes(op, Load(st.mem, Val(p1.a), p1.v), s);
      }
    } else {
      ConstantIgnored(p1, Compute(op, p1, p2.v, DestValue(op, p1, p2, st), s), st);
    }
  }

  lemma ConstantIgnored(p: Place, x: bv32, st: Data)
    requires p.Constant?
    ensures Write(p, x, st) == st
  {
  }

  lemma NothingIgnored(p: Place, x: bv32, st: Data)
    requires Writable(p, 0, |st.mem|)
    ensures p.Nothing? ==> Write(p, x, st) == st
  {
  }

  lemma Commutes(op: Opcode, x: bv32, y: bv32)
    requires IsBinary(op) && !(op.SUB? || op.DIV? || op.MOD? || op.SHL? || op.SHR?)
    ensures BinaryDefined(op, x, y) && BinaryDefined(op, y, x) && Binary(op, x, y) == Binary(op, y, x)
  {
    hide Val, Wrap;
    MulIs(x, y);
    MulIs(y, x);
    assert Val(x) * Val(y) == Val(y) * Val(x);
  }
}
