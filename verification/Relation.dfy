/** How a state of the byte machine represents a state of an in-order run: the memory the program may
    touch, the call cells, and the windows of local variables. */
module Relation {
  import opened Words
  import opened Alu
  import opened Program
  import Machine
  import opened Layout

  // ----- Agreement of memories -----

  /** The memories agree on everything the program may touch. */
  predicate Agree(a: Memory, b: Memory) {
    |a| == |b| == MEMORY_SIZE && forall i :: PROGRAM_LO <= i < MEMORY_SIZE ==> a[i] == b[i]
  }

  predicate SameBelow(a: Memory, b: Memory) {
    |a| == |b| == MEMORY_SIZE && forall i :: 0 <= i < PROGRAM_LO ==> a[i] == b[i]
  }

  predicate DataAgree(a: Data, b: Data) {
    a.regs == b.regs && Agree(a.mem, b.mem)
  }

  lemma LoadAgree(a: Memory, b: Memory, at: nat, v: Width)
    requires Agree(a, b) && PROGRAM_LO <= at && at + v.Bytes() <= MEMORY_SIZE
    ensures Load(a, at, v) == Load(b, at, v)
  {
    hide Cat;
  }

  lemma StoreAgree(a: Memory, b: Memory, at: nat, v: Width, x: bv32)
    requires Agree(a, b) && PROGRAM_LO <= at && at + v.Bytes() <= MEMORY_SIZE
    ensures Agree(Store(a, at, v, x), Store(b, at, v, x)) && SameBelow(Store(a, at, v, x), a)
  {
    hide B0, B1, B2, B3;
  }

  lemma ReadAgree(p: Place, w: Width, a: Data, b: Data)
    requires DataAgree(a, b) && Readable(p, w, PROGRAM_LO, MEMORY_SIZE)
    ensures Read(p, w, a.regs, a.mem) == Read(p, w, b.regs, b.mem)
  {
    hide Load, Low, Val;
    if p.InMemory? {
      LoadAgree(a.mem, b.mem, Val(p.a), w);
    }
  }

  lemma WriteAgree(p: Place, x: bv32, a: Data, b: Data)
    requires DataAgree(a, b) && Writable(p, PROGRAM_LO, MEMORY_SIZE)
    ensures DataAgree(Write(p, x, a), Write(p, x, b)) && SameBelow(Write(p, x, a).mem, a.mem)
  {
    hide Store, High, Val;
    if p.InMemory? {
      StoreAgree(a.mem, b.mem, Val(p.a), p.v, x);
    }
  }

  lemma AgreeSizes(a: Memory, b: Memory)
    requires Agree(a, b)
    ensures |a| == |b| == MEMORY_SIZE
  {
  }

  lemma OperandsAgree(op: Opcode, p1: Place, p2: Place, a: Data, b: Data)
    requires DataAgree(a, b) && OperandsReady(op, p1, p2, PROGRAM_LO, MEMORY_SIZE)
    requires OperandsReady(op, p1, p2, 0, MEMORY_SIZE)
    ensures |a.mem| == |b.mem| == MEMORY_SIZE
    ensures DestValue(op, p1, p2, a) == DestValue(op, p1, p2, b)
    ensures SourceValue(op, p1, p2, a) == SourceValue(op, p1, p2, b)
  {
    hide Val, Read, IsData, Agree, Readable;
    AgreeSizes(a.mem, b.mem);
    ReadAgree(p2, p2.v, a, b);
    if ReadsDest(op, p1) {
      ReadAgree(p1, DestWidth(op, p1, p2), a, b);
    }
  }

  lemma ExecDefinedAgree(op: Opcode, p1: Place, p2: Place, a: Data, b: Data)
    requires DataAgree(a, b) && ExecDefined(op, p1, p2, b, PROGRAM_LO)
    ensures ExecDefined(op, p1, p2, a, 0)
  {
    hide Val, ComputeDefined, DestValue, SourceValue, OperandsReady;
    AgreeSizes(a.mem, b.mem);
    OperandsAgree(op, p1, p2, a, b);
  }

  /** A data instruction has the same effect on agreeing states and never touches machine memory. */
  lemma ExecAgree(op: Opcode, p1: Place, p2: Place, a: Data, b: Data)
    requires DataAgree(a, b) && ExecDefined(op, p1, p2, b, PROGRAM_LO) && ExecDefined(op, p1, p2, a, 0)
    ensures DataAgree(Exec(op, p1, p2, a), Exec(op, p1, p2, b)) && SameBelow(Exec(op, p1, p2, a).mem, a.mem)
  {
    hide Val, Write, Compute, ComputeDefined, DestValue, SourceValue, Agree, SameBelow, IsData, ReadsDest, Readable;
    AgreeSizes(a.mem, b.mem);
    OperandsAgree(op, p1, p2, a, b);
    var x := Compute(op, p1, p2.v, DestValue(op, p1, p2, b), SourceValue(op, p1, p2, b));
    StoredAgree(op, p1, p2.v, x, a, b);
    hide Stored;
    WriteAgree(p1, Stored(op, p1, p2.v, x, b), a, b);
  }

  /** What is stored depends on agreeing memory only. */
  lemma StoredAgree(op: Opcode, p1: Place, v2: Width, x: bv32, a: Data, b: Data)
    requires DataAgree(a, b) && |a.mem| == |b.mem| && Writable(p1, PROGRAM_LO, |b.mem|)
    ensures Stored(op, p1, v2, x, a) == Stored(op, p1, v2, x, b)
  {
    hide Val, Widened;
    if p1.InMemory? {
      WidenedAgree(a.mem, b.mem, Val(p1.a), v2, x);
    }
  }

  lemma WidenedAgree(a: Memory, b: Memory, at: nat, v: Width, x: bv32)
    requires Agree(a, b) && PROGRAM_LO <= at && at + 4 <= MEMORY_SIZE
    ensures Widened(a, at, v, x) == Widened(b, at, v, x)
  {
    hide Cat, Or;
  }

  // ----- Call cells -----

  predicate CellHolds(mem: Memory, i: nat, x: bv32)
    requires |mem| == MEMORY_SIZE && i < SHADOW_CAPACITY
  {
    var c := Machine.Cell(i);
    mem[c] == B2(x) && mem[c + 1] == B1(x) && mem[c + 2] == B0(x)
  }

  /** Return address of source index `r`. */
  function Address(ch: Choice, img: Image, r: nat): bv32 {
    if r < |ch.place| && ch.place[r] <= |img| then Wrap(Start(ch, img, r)) else 0
  }

  /** The call cells hold the addresses of the open calls, then nothing but zeros. */
  predicate CellsMatch(ch: Choice, img: Image, mem: Memory, shadow: seq<nat>)
    requires |mem| == MEMORY_SIZE
  {
    && |shadow| <= SHADOW_CAPACITY
    && (forall i :: 0 <= i < |shadow| ==> 0 < shadow[i] < |img| && CellHolds(mem, i, Address(ch, img, shadow[i])))
    && (forall a :: Machine.Cell(|shadow|) <= a < Machine.Cell(SHADOW_CAPACITY) ==> mem[a] == 0)
  }

  /** An offset strictly inside the code never looks like an empty cell. */
  lemma AddressNotZero(p: Prog, ch: Choice, img: Image, r: nat)
    requires IsImage(p, ch, img) && 0 < r < |img|
    ensures var x := Address(ch, img, r); B2(x) != 0 || B1(x) != 0 || B0(x) != 0
    ensures Address(ch, img, r) < 0x100_0000
  {
    var n := Start(ch, img, r);
    StartBounds(p, ch, img, r);
    SmallWord(n);
    ThreeBytes(n);
  }

  lemma ThreeBytes(n: nat)
    requires 0 < n < 0x100_0000
    ensures var x := Wrap(n); B2(x) != 0 || B1(x) != 0 || B0(x) != 0
  {
    hide Word, B0, B1, B2, B3, OfByte;
    ValWrap(n);
    SmallWord(n);
    ZeroByte();
  }

  /** Scanning the cells finds the number of open calls. */
  lemma {:induction false} FirstEmptyCell(p: Prog, ch: Choice, img: Image, mem: Memory, shadow: seq<nat>, i: nat)
    requires IsImage(p, ch, img) && |mem| == MEMORY_SIZE && CellsMatch(ch, img, mem, shadow) && i <= |shadow|
    ensures Machine.FirstEmpty(mem, i) == |shadow|
    decreases |shadow| - i
  {
    hide Address, IsImage, B0, B1, B2;
    if i < |shadow| {
      assert CellHolds(mem, i, Address(ch, img, shadow[i]));
      AddressNotZero(p, ch, img, shadow[i]);
      FirstEmptyCell(p, ch, img, mem, shadow, i + 1);
    }
  }

  /** Opening a call fills the first empty cell. */
  lemma PushCell(ch: Choice, img: Image, mem: Memory, shadow: seq<nat>, r: nat)
    requires |mem| == MEMORY_SIZE && CellsMatch(ch, img, mem, shadow) && |shadow| < SHADOW_CAPACITY && 0 < r < |img|
    ensures var m := Machine.SetCell(mem, |shadow|, Address(ch, img, r));
            CellsMatch(ch, img, m, shadow + [r])
  {
    hide Address, B0, B1, B2;
    var m := Machine.SetCell(mem, |shadow|, Address(ch, img, r));
    forall i | 0 <= i < |shadow| + 1
      ensures 0 < (shadow + [r])[i] < |img| && CellHolds(m, i, Address(ch, img, (shadow + [r])[i]))
    {
      if i < |shadow| {
        assert CellHolds(mem, i, Address(ch, img, shadow[i]));
      }
    }
  }

  /** Closing a call empties the last used cell. */
  lemma PopCell(ch: Choice, img: Image, mem: Memory, shadow: seq<nat>)
    requires |mem| == MEMORY_SIZE && CellsMatch(ch, img, mem, shadow) && shadow != []
    ensures CellsMatch(ch, img, Machine.SetCell(mem, |shadow| - 1, 0), shadow[..|shadow| - 1])
  {
    hide Address;
    var n := |shadow| - 1;
    var m := Machine.SetCell(mem, n, 0);
    assert B0(0) == 0 && B1(0) == 0 && B2(0) == 0;
    forall i | 0 <= i < n
      ensures CellHolds(m, i, Address(ch, img, shadow[i]))
    {
      assert CellHolds(mem, i, Address(ch, img, shadow[i]));
    }
  }

  lemma CellsUntouched(ch: Choice, img: Image, a: Memory, b: Memory, shadow: seq<nat>)
    requires |a| == |b| == MEMORY_SIZE && CellsMatch(ch, img, a, shadow)
    requires forall i :: Machine.SHADOW_LO <= i < PROGRAM_LO ==> b[i] == a[i]
    ensures CellsMatch(ch, img, b, shadow)
  {
    hide Address, B0, B1, B2;
    forall i | 0 <= i < |shadow|
      ensures CellHolds(b, i, Address(ch, img, shadow[i]))
    {
      assert CellHolds(a, i, Address(ch, img, shadow[i]));
    }
  }

  // ----- Local variables -----

  function FrameAddress(ch: Choice, img: Image, f: Frame): bv32 {
    match f
    case Outermost => 0
    case ReturningTo(r) => Address(ch, img, r)
  }

  /** Where the window of a local variable lies in this image. */
  function WindowAt(ch: Choice, img: Image, k: LocalKey): nat {
    Val(Machine.Hash(FrameAddress(ch, img, k.frame), k.id))
  }

  /** No two used windows overlap in this image, and none reaches into the call cells. */
  predicate NoClash(ch: Choice, img: Image, u: set<LocalKey>) {
    && (forall k :: k in u ==> WindowAt(ch, img, k) + 4 <= Machine.SHADOW_LO)
    && (forall j, k :: j in u && k in u && j != k ==>
          WindowAt(ch, img, j) + 4 <= WindowAt(ch, img, k) || WindowAt(ch, img, k) + 4 <= WindowAt(ch, img, j))
  }

  predicate WindowHolds(mem: Memory, at: nat, w: Window)
    requires |mem| == MEMORY_SIZE && at + 4 <= MEMORY_SIZE
  {
    mem[at] == w[0] && mem[at + 1] == w[1] && mem[at + 2] == w[2] && mem[at + 3] == w[3]
  }

  predicate LocalsMatch(ch: Choice, img: Image, u: set<LocalKey>, mem: Memory, s: State)
    requires |mem| == MEMORY_SIZE && NoClash(ch, img, u)
  {
    forall k :: k in u ==> WindowHolds(mem, WindowAt(ch, img, k), Local(s, k))
  }

  lemma LocalsUntouched(ch: Choice, img: Image, u: set<LocalKey>, a: Memory, b: Memory, s: State, t: State)
    requires |a| == |b| == MEMORY_SIZE && NoClash(ch, img, u) && LocalsMatch(ch, img, u, a, s)
    requires forall i :: 0 <= i < Machine.SHADOW_LO ==> b[i] == a[i]
    requires t.locals == s.locals
    ensures LocalsMatch(ch, img, u, b, t)
  {
    hide WindowAt;
    forall k | k in u
      ensures WindowHolds(b, WindowAt(ch, img, k), Local(t, k))
    {
      assert WindowHolds(a, WindowAt(ch, img, k), Local(s, k));
    }
  }

  lemma WindowLoad(mem: Memory, at: nat, w: Window, v: Width)
    requires |mem| == MEMORY_SIZE && at + 4 <= MEMORY_SIZE && WindowHolds(mem, at, w)
    ensures Load(mem, at, v) == Load(w, 0, v)
  {
    hide Cat;
  }

  /** Storing a local changes its own window and no other used window. */
  lemma StoreLocal(ch: Choice, img: Image, u: set<LocalKey>, mem: Memory, s: State, k: LocalKey, v: Width, x: bv32)
    requires |mem| == MEMORY_SIZE && NoClash(ch, img, u) && LocalsMatch(ch, img, u, mem, s) && k in u
    ensures var m := Store(mem, WindowAt(ch, img, k), v, x); LocalsMatch(ch, img, u, m, PutLocal(k, v, x, s))
  {
    hide WindowAt, B0, B1, B2, B3;
    var m := Store(mem, WindowAt(ch, img, k), v, x);
    var t := PutLocal(k, v, x, s);
    assert WindowHolds(mem, WindowAt(ch, img, k), Local(s, k));
    forall j | j in u
      ensures WindowHolds(m, WindowAt(ch, img, j), Local(t, j))
    {
      if j != k {
        assert WindowHolds(mem, WindowAt(ch, img, j), Local(s, j));
      }
    }
  }

  // ----- States -----

  predicate StacksMatch(ch: Choice, img: Image, stack: seq<nat>, mstack: seq<bv32>) {
    && |mstack| == |stack| <= STACK_CAPACITY
    && forall i :: 0 <= i < |stack| ==> 0 < stack[i] < |img| && mstack[i] == Address(ch, img, stack[i])
  }

  /** Everything but the position and the status. */
  predicate ContentsMatch(ch: Choice, img: Image, u: set<LocalKey>, s: State, m: Machine.MState)
    requires NoClash(ch, img, u)
  {
    && DataAgree(m.data, s.data)
    && m.flag == s.flags.Bits()
    && StacksMatch(ch, img, s.stack, m.stack)
    && CellsMatch(ch, img, m.data.mem, s.shadow)
    && LocalsMatch(ch, img, u, m.data.mem, s)
  }

  /** A running machine stands at the start of the source instruction; a halted one at the halt address. */
  predicate PositionsMatch(ch: Choice, img: Image, s: State, m: Machine.MState) {
    && m.status == s.status
    && (s.status.Running? ==> s.pc < |img| && m.vip == Address(ch, img, s.pc))
    && (s.status.Halted? ==> m.vip == Machine.HALT)
  }

  /** The machine state `m` represents the source state `s` in the image `img`. */
  predicate Matches(ch: Choice, img: Image, u: set<LocalKey>, s: State, m: Machine.MState)
    requires NoClash(ch, img, u)
  {
    ContentsMatch(ch, img, u, s, m) && PositionsMatch(ch, img, s, m)
  }
}
