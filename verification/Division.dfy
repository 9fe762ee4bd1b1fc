/** DIV and MOD leave the quotient and the remainder of unsigned division. */
module Division {
  import opened Words
  import opened Alu
  import opened AluCases

  /** `q` and `m` are the quotient and the remainder of `d` by `s`. */
  predicate IsDivision(d: bv32, s: bv32, q: bv32, m: bv32) {
    Val(d) == Val(q) * Val(s) + Val(m) && Val(m) < Val(s)
  }

  lemma BinaryDivides(d: bv32, s: bv32)
    requires Val(s) != 0
    ensures BinaryDefined(DIV, d, s) && BinaryDefined(MOD, d, s)
    ensures IsDivision(d, s, Binary(DIV, d, s), Binary(MOD, d, s))
  {
    hide Val, Wrap;
    WordVal(d);
    WordVal(s);
    ValWrap(Val(d) / Val(s));
    ValWrap(Val(d) % Val(s));
    Quotient(Val(d), Val(s));
  }

  lemma Quotient(a: nat, b: nat)
    requires 0 < b && a < WORD_LIMIT && b < WORD_LIMIT
    ensures 0 <= a / b < WORD_LIMIT && a / b % WORD_LIMIT == a / b
    ensures a % b % WORD_LIMIT == a % b < b && a == a / b * b + a % b
  {
    var q := a / b;
    assert a == q * b + a % b;
    Grows(q, b);
  }

  lemma {:induction false} Grows(q: nat, b: nat)
    requires 0 < b
    ensures q <= q * b
  {
    if q > 0 {
      Grows(q - 1, b);
      assert q * b == (q - 1) * b + b;
    }
  }

  /** A register destination is divided whole; what DIV and MOD leave is truncated to its width, so a
      full-width destination gets quotient and remainder themselves. */
  lemma RegisterDivides(r: bv4, v: Width, p2: Place, st: Data) returns (q: bv32, m: bv32)
    requires ExecDefined(DIV, InRegister(r, v), p2, st, 0) && ExecDefined(MOD, InRegister(r, v), p2, st, 0)
    ensures Readable(p2, p2.v, 0, |st.mem|)
    ensures IsDivision(st.regs[r as nat], Read(p2, p2.v, st.regs, st.mem), q, m)
    ensures Low(Exec(DIV, InRegister(r, v), p2, st).regs[r as nat], v) == Low(q, v)
    ensures Low(Exec(MOD, InRegister(r, v), p2, st).regs[r as nat], v) == Low(m, v)
  {
    hide Val, Binary, Low, High, Exec, ComputeDefined, Read, BinaryDefined;
    var d, s := st.regs[r as nat], SourceValue(DIV, InRegister(r, v), p2, st);
    BinaryCases(DIV, InRegister(r, v), p2, st);
    BinaryCases(MOD, InRegister(r, v), p2, st);
    NotZero(d, s);
    BinaryDivides(d, s);
    q, m := Binary(DIV, d, s), Binary(MOD, d, s);
    LowWritten(r, v, q, st);
    LowWritten(r, v, m, st);
  }

  lemma NotZero(d: bv32, s: bv32)
    requires BinaryDefined(DIV, d, s)
    ensures Val(s) != 0
  {
    hide Val;
  }

  lemma LowWritten(r: bv4, v: Width, x: bv32, st: Data)
    ensures Low(Write(InRegister(r, v), Low(x, v), st).regs[r as nat], v) == Low(x, v)
  {
    match v
    case Byte =>
    case Short =>
    case Int =>
  }

  /** A memory destination is divided as it is read at its own width, and the low bits are stored. */
  lemma MemoryDivides(a: bv32, v: Width, p2: Place, st: Data) returns (q: bv32, m: bv32)
    requires ExecDefined(DIV, InMemory(a, v), p2, st, 0) && ExecDefined(MOD, InMemory(a, v), p2, st, 0)
    ensures Readable(p2, p2.v, 0, |st.mem|) && Val(a) + 4 <= |st.mem|
    ensures IsDivision(Load(st.mem, Val(a), v), Read(p2, p2.v, st.regs, st.mem), q, m)
    ensures Exec(DIV, InMemory(a, v), p2, st) == st.(mem := Store(st.mem, Val(a), v, q))
    ensures Exec(MOD, InMemory(a, v), p2, st) == st.(mem := Store(st.mem, Val(a), v, m))
  {
    hide Val, Binary, Low, High, Exec, ComputeDefined, Read, BinaryDefined, Load, Store;
    var s := SourceValue(DIV, InMemory(a, v), p2, st);
    BinaryCases(DIV, InMemory(a, v), p2, st);
    BinaryCases(MOD, InMemory(a, v), p2, st);
    var d := Load(st.mem, Val(a), v);
    NotZero(d, s);
    BinaryDivides(d, s);
    q, m := Binary(DIV, d, s), Binary(MOD, d, s);
  }
}
