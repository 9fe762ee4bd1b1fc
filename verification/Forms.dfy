/** The register form and the memory form of an arithmetic instruction compute the same low bits. */
module Forms {
  import opened Words
  import opened Alu
  import opened AluCases

  /** Operations whose low result bits depend on the low destination bits only. */
  predicate Modular(op: Opcode) {
    op.ADD? || op.SUB? || op.MUL? || op.AND? || op.OR? || op.XOR?
  }

  /** How many values a width has. */
  function Span(v: Width): nat {
    match v
    case Byte => 0x100
    case Short => 0x1_0000
    case Int => WORD_LIMIT
  }

  lemma LowDigits(b3: nat, b2: nat, b1: nat, b0: nat)
    requires b3 < 256 && b2 < 256 && b1 < 256 && b0 < 256
    ensures var n := 0x100_0000 * b3 + 0x1_0000 * b2 + 0x100 * b1 + b0;
            n % 0x100 == b0 && n % 0x1_0000 == 0x100 * b1 + b0 && n % WORD_LIMIT == n
  {
    var n := 0x100_0000 * b3 + 0x1_0000 * b2 + 0x100 * b1 + b0;
    assert n == 0x100 * (0x1_0000 * b3 + 0x100 * b2 + b1) + b0;
    assert n == 0x1_0000 * (0x100 * b3 + b2) + (0x100 * b1 + b0);
  }

  /** The integer of a word given by its bytes. */
  lemma ValCat(b3: bv8, b2: bv8, b1: bv8, b0: bv8)
    ensures Val(Cat(b3, b2, b1, b0))
            == 0x100_0000 * OfByte(b3) + 0x1_0000 * OfByte(b2) + 0x100 * OfByte(b1) + OfByte(b0)
  {
    hide Cat, B0, B1, B2, B3, OfByte;
    CatBytes(b3, b2, b1, b0);
  }

  lemma LowVal(x: bv32, v: Width)
    ensures Val(Low(x, v)) == Val(x) % Span(v)
  {
    hide Cat, B0, B1, B2, B3, OfByte, ToByte, Low, Val;
    var b3, b2, b1, b0 := B3(x), B2(x), B1(x), B0(x);
    LowBytes(x, v);
    BytesCat(x);
    ZeroByte();
    OfByteBound(b3);
    OfByteBound(b2);
    OfByteBound(b1);
    OfByteBound(b0);
    ValCat(b3, b2, b1, b0);
    LowDigits(OfByte(b3), OfByte(b2), OfByte(b1), OfByte(b0));
    match v
    case Byte => ValCat(0, 0, 0, b0);
    case Short => ValCat(0, 0, b1, b0);
    case Int =>
  }

  lemma SameLow(x: bv32, y: bv32, v: Width)
    requires Val(x) % Span(v) == Val(y) % Span(v)
    ensures Low(x, v) == Low(y, v)
  {
    hide Val, Low;
    LowVal(x, v);
    LowVal(y, v);
    ValInjective(Low(x, v), Low(y, v));
  }

  lemma WrapLow(m: int, n: int, v: Width)
    requires m % Span(v) == n % Span(v)
    ensures Low(Wrap(m), v) == Low(Wrap(n), v)
  {
    hide Val, Low, Wrap;
    ValWrap(m);
    ValWrap(n);
    WrapsAway(m, v);
    WrapsAway(n, v);
    SameLow(Wrap(m), Wrap(n), v);
  }

  lemma AddMultiple(k: int, n: int, v: Width)
    ensures (Span(v) * k + n) % Span(v) == n % Span(v)
  {
    match v
    case Byte => assert 0x100 * k + n == 0x100 * (k + n / 0x100) + n % 0x100;
    case Short => assert 0x1_0000 * k + n == 0x1_0000 * (k + n / 0x1_0000) + n % 0x1_0000;
    case Int => assert WORD_LIMIT * k + n == WORD_LIMIT * (k + n / WORD_LIMIT) + n % WORD_LIMIT;
  }

  lemma WrapsAway(n: int, v: Width)
    ensures n % WORD_LIMIT % Span(v) == n % Span(v)
  {
    var q, r := n / WORD_LIMIT, n % WORD_LIMIT;
    match v
    case Byte => AddMultiple(0x100_0000 * q, r, v);
    case Short => AddMultiple(0x1_0000 * q, r, v);
    case Int =>
  }

  lemma ProductModulo(d: nat, s: nat, v: Width)
    ensures (d * s) % Span(v) == (d % Span(v) * s) % Span(v)
  {
    var q, r := d / Span(v), d % Span(v);
    assert d * s == Span(v) * (q * s) + r * s by { assert d == Span(v) * q + r; }
    AddMultiple(q * s, r * s, v);
  }

  lemma SumModulo(d: nat, s: int, v: Width)
    ensures (d + s) % Span(v) == (d % Span(v) + s) % Span(v)
  {
    var q, r := d / Span(v), d % Span(v);
    assert d + s == Span(v) * q + (r + s);
    AddMultiple(q, r + s, v);
  }

  lemma ArithmeticLow(d: bv32, s: bv32, v: Width)
    ensures Low(Add(d, s), v) == Low(Add(Low(d, v), s), v)
    ensures Low(Sub(d, s), v) == Low(Sub(Low(d, v), s), v)
    ensures Low(Mul(d, s), v) == Low(Mul(Low(d, v), s), v)
  {
    hide Val, Low, Wrap, Span;
    LowVal(d, v);
    SumModulo(Val(d), Val(s), v);
    SumModulo(Val(d), 0 - Val(s), v);
    ProductModulo(Val(d), Val(s), v);
    WrapLow(Val(d) + Val(s), Val(Low(d, v)) + Val(s), v);
    WrapLow(Val(d) - Val(s), Val(Low(d, v)) - Val(s), v);
    MulIs(d, s);
    MulIs(Low(d, v), s);
    WrapLow(Val(d) * Val(s), Val(Low(d, v)) * Val(s), v);
  }

  function And(x: bv32, y: bv32): bv32 { x & y }

  lemma AndMask(d: bv32, s: bv32, m: bv32, l: bv32)
    requires l == And(d, m)
    ensures And(And(d, s), m) == And(And(l, s), m)
  {
  }

  lemma LowAnd(x: bv32)
    ensures Low(x, Byte) == And(x, 0xFF) && Low(x, Short) == And(x, 0xFFFF) && Low(x, Int) == x
  {
  }

  lemma AndLow(d: bv32, s: bv32, v: Width)
    ensures Low(And(d, s), v) == Low(And(Low(d, v), s), v)
  {
    hide And, Low;
    var l := Low(d, v);
    LowAnd(d);
    LowAnd(And(d, s));
    LowAnd(And(l, s));
    match v
    case Byte => AndMask(d, s, 0xFF, l);
    case Short => AndMask(d, s, 0xFFFF, l);
    case Int =>
  }

  lemma OrLow(d: bv32, s: bv32, v: Width)
    ensures Low(Or(d, s), v) == Low(Or(Low(d, v), s), v)
  {
    match v
    case Byte =>
    case Short =>
    case Int =>
  }

  lemma XorLow(d: bv32, s: bv32, v: Width)
    ensures Low(Xor(d, s), v) == Low(Xor(Low(d, v), s), v)
  {
    match v
    case Byte =>
    case Short =>
    case Int =>
  }

  lemma BinaryLow(op: Opcode, d: bv32, s: bv32, v: Width)
    requires Modular(op)
    ensures Low(Outcome(op, d, s), v) == Low(Outcome(op, Low(d, v), s), v)
  {
    hide Low, Add, Sub, Mul, Binary, And, Or, Xor;
    ArithmeticIs(d, s);
    ArithmeticIs(Low(d, v), s);
    AndIs(d, s);
    AndIs(Low(d, v), s);
    OrIs(d, s);
    OrIs(Low(d, v), s);
    XorIs(d, s);
    XorIs(Low(d, v), s);
    ArithmeticLow(d, s, v);
    AndLow(d, s, v);
    OrLow(d, s, v);
    XorLow(d, s, v);
  }

  lemma AndIs(d: bv32, s: bv32)
    ensures Binary(AND, d, s) == And(d, s)
  {
  }

  lemma OrIs(d: bv32, s: bv32)
    ensures Binary(OR, d, s) == Or(d, s)
  {
  }

  lemma XorIs(d: bv32, s: bv32)
    ensures Binary(XOR, d, s) == Xor(d, s)
  {
  }

  lemma ArithmeticIs(d: bv32, s: bv32)
    ensures Binary(ADD, d, s) == Add(d, s) && Binary(SUB, d, s) == Sub(d, s) && Binary(MUL, d, s) == Mul(d, s)
  {
    hide Add, Sub, Mul;
  }

  lemma HighKept(x: bv32, y: bv32, v: Width)
    ensures High(Or(High(x, v), Low(y, v)), v) == High(x, v)
    ensures Low(Or(High(x, v), Low(y, v)), v) == Low(y, v)
  {
    match v
    case Byte =>
    case Short =>
    case Int =>
  }

  /** The operation on any two values; it is defined on all. */
  function Outcome(op: Opcode, d: bv32, s: bv32): bv32
    requires Modular(op)
  {
    Binary(op, d, s)
  }

  /** The register form. */
  lemma RegisterForm(op: Opcode, r: bv4, v: Width, p2: Place, st: Data, s: bv32)
    requires Modular(op) && ExecDefined(op, InRegister(r, v), p2, st, 0)
    requires s == SourceValue(op, InRegister(r, v), p2, st)
    ensures var x := Low(Outcome(op, st.regs[r as nat], s), v);
            Exec(op, InRegister(r, v), p2, st) == st.(regs := st.regs[r as nat := Or(High(st.regs[r as nat], v), x)])
  {
    hide Val, Binary, Low, High, Exec, ExecDefined, SourceValue, BinaryDefined;
    BinaryCases(op, InRegister(r, v), p2, st);
  }

  /** The memory form. */
  lemma MemoryForm(op: Opcode, a: bv32, v: Width, p2: Place, st: Data, s: bv32)
    requires Modular(op) && ExecDefined(op, InMemory(a, v), p2, st, 0)
    requires s == SourceValue(op, InMemory(a, v), p2, st)
    ensures Val(a) + 4 <= |st.mem|
    ensures var y := Outcome(op, Load(st.mem, Val(a), v), s);
            Exec(op, InMemory(a, v), p2, st) == st.(mem := Store(st.mem, Val(a), v, y))
  {
    hide Val, Binary, Low, High, Exec, ComputeDefined, SourceValue, BinaryDefined, Load, Store;
    BinaryCases(op, InMemory(a, v), p2, st);
    Commuted(op, s, Load(st.mem, Val(a), v));
  }

  /** From equal low bits, both forms leave equal low bits. The register form keeps the bits above its
      width, all other registers and memory; the memory form keeps all registers and all other bytes. */
  lemma FormsAgree(op: Opcode, r: bv4, a: bv32, v: Width, p2: Place, st: Data)
    requires Modular(op)
    requires ExecDefined(op, InRegister(r, v), p2, st, 0) && ExecDefined(op, InMemory(a, v), p2, st, 0)
    requires Val(a) + 4 <= |st.mem| && Load(st.mem, Val(a), v) == Low(st.regs[r as nat], v)
    ensures var d, e := Exec(op, InRegister(r, v), p2, st), Exec(op, InMemory(a, v), p2, st);
            && |e.mem| == |st.mem|
            && Load(e.mem, Val(a), v) == Low(d.regs[r as nat], v)
            && High(d.regs[r as nat], v) == High(st.regs[r as nat], v)
            && d.mem == st.mem
            && d.regs == st.regs[r as nat := d.regs[r as nat]]
            && e.regs == st.regs
            && (forall i :: 0 <= i < |st.mem| && !(Val(a) <= i < Val(a) + v.Bytes()) ==> e.mem[i] == st.mem[i])
  {
    hide Val, Low, High, Exec, ExecDefined, Load, Store, SourceValue, Outcome, Or;
    var s := SourceAny(op, r, a, v, p2, st);
    var old_, m := st.regs[r as nat], Load(st.mem, Val(a), v);
    RegisterForm(op, r, v, p2, st, s);
    MemoryForm(op, a, v, p2, st, s);
    BinaryLow(op, old_, s, v);
    HighKept(old_, Outcome(op, old_, s), v);
    LoadStore(st.mem, Val(a), v, Outcome(op, m, s));
  }

  /** Both forms read the same source. */
  lemma SourceAny(op: Opcode, r: bv4, a: bv32, v: Width, p2: Place, st: Data) returns (s: bv32)
    requires ExecDefined(op, InRegister(r, v), p2, st, 0) && ExecDefined(op, InMemory(a, v), p2, st, 0)
    ensures s == SourceValue(op, InRegister(r, v), p2, st) == SourceValue(op, InMemory(a, v), p2, st)
  {
    hide Val, Low, Load;
    s := SourceValue(op, InRegister(r, v), p2, st);
  }

  lemma Commuted(op: Opcode, x: bv32, y: bv32)
    requires Modular(op)
    ensures BinaryDefined(op, x, y) && BinaryDefined(op, y, x)
    ensures !op.SUB? ==> Binary(op, x, y) == Binary(op, y, x)
  {
    hide Add, Sub, Mul, Binary;
    if !op.SUB? {
      Commutes(op, x, y);
    }
  }
}
