/** Calls and local variables on the machine itself: any code, whatever the program does elsewhere. */
module Frames {
  import opened Words
  import opened Alu
  import opened Program
  import opened Machine
  import opened Control
  import opened Guards
  import opened Cells

  // ----- Open calls -----

  /** For `n` steps at least `d` calls stay open. */
  predicate StaysAbove(code: Code, n: nat, m: MState, d: nat)
    requires Machine.CanRun(code, n, m)
    decreases n
  {
    hide Safe, Machine.Step;
    |m.stack| >= d && (n > 0 && m.status == Running ==> StaysAbove(code, n - 1, Machine.Step(code, m), d))
  }

  /** A step leaves the stack alone, puts the current pointer on top, or takes the top away. */
  lemma StackAfter(code: Code, m: MState)
    requires Safe(code, m)
    ensures Machine.Step(code, m).stack in {m.stack, m.stack + [LinkNow(code, m)], Rest(m.stack)}
  {
    hide Safe, Machine.Step, OpNow, FirstNow, SecondNow, LinkNow, SafeOp, Perform, GuardMet, Read, Readable;
    var op, p1, p2, link := OpNow(code, m), FirstNow(code, m), SecondNow(code, m), LinkNow(code, m);
    PerformsNow(code, m);
    TakenIs(op, p1, p2, link, m);
    MemorySize(op, p1, p2, m);
    if op.CALL? && GuardMet(p2, m) {
      StackOfCall(Read(p1, p1.v, m.data.regs, m.data.mem), link, m);
    } else if op.RET? && GuardMet(p1, m) {
    } else {
      PassesBy(op, p1, p2, link, m);
    }
  }

  lemma MemorySize(op: Opcode, p1: Place, p2: Place, m: MState)
    requires SafeOp(op, p1, p2, m)
    ensures |m.data.mem| == MEMORY_SIZE
  {
  }

  lemma StackOfCall(target: bv32, link: bv32, m: MState)
    requires |m.data.mem| == MEMORY_SIZE
    ensures FirstEmpty(m.data.mem, 0) < SHADOW_CAPACITY ==>
              Call(target, link, m).stack == if |m.stack| < STACK_CAPACITY then m.stack + [link] else m.stack
    ensures FirstEmpty(m.data.mem, 0) == SHADOW_CAPACITY ==> Call(target, link, m).stack == m.stack
  {
    hide FirstEmpty, SetCell;
  }

  /** Calls that stay open keep their return addresses. */
  lemma {:induction false} KeepsFrames(code: Code, n: nat, m: MState, d: nat)
    requires Machine.CanRun(code, n, m) && StaysAbove(code, n, m, d)
    ensures |Machine.Run(code, n, m).stack| >= d && Machine.Run(code, n, m).stack[..d] == m.stack[..d]
    decreases n
  {
    hide Safe, Machine.Step, LinkNow;
    if n > 0 && m.status == Running {
      StackAfter(code, m);
      KeepsFrames(code, n - 1, Machine.Step(code, m), d);
    }
  }

  /** The last two steps of a run of `n + 2`. */
  lemma {:induction false} RunOn(code: Code, n: nat, m: MState)
    requires Machine.CanRun(code, n, m) && Safe(code, Machine.Run(code, n, m))
    ensures Machine.CanRun(code, n + 1, m)
    ensures Machine.Run(code, n + 1, m) == Machine.Step(code, Machine.Run(code, n, m))
    decreases n
  {
    hide Machine.Step, Safe;
    if n > 0 && m.status == Running {
      RunOn(code, n - 1, Machine.Step(code, m));
    } else {
      IsRunning(code, m);
    }
  }

  // ----- A call and its return -----

  /** The current instruction is a call that is made, with a call cell free. */
  predicate CallsNow(code: Code, m: MState) {
    hide Safe, OpNow, SecondNow, FirstEmpty, GuardMet, Readable;
    && Safe(code, m)
    && |m.data.mem| == MEMORY_SIZE
    && OpNow(code, m).CALL?
    && GuardReadable(SecondNow(code, m), m.data)
    && GuardMet(SecondNow(code, m), m)
    && FirstEmpty(m.data.mem, 0) < SHADOW_CAPACITY
  }

  /** The current instruction is a return that is made. */
  predicate ReturnsNow(code: Code, m: MState) {
    hide Safe, OpNow, FirstNow, GuardMet, Readable;
    && Safe(code, m)
    && OpNow(code, m).RET?
    && GuardReadable(FirstNow(code, m), m.data)
    && GuardMet(FirstNow(code, m), m)
  }

  lemma CallPushes(code: Code, m: MState)
    requires CallsNow(code, m)
    ensures Machine.Step(code, m).stack == if |m.stack| < STACK_CAPACITY then m.stack + [LinkNow(code, m)] else m.stack
  {
    hide Safe, Machine.Step, OpNow, FirstNow, SecondNow, LinkNow, SafeOp, Perform, GuardMet, FirstEmpty, Call;
    hide Read, Readable;
    var op, p1, p2, link := OpNow(code, m), FirstNow(code, m), SecondNow(code, m), LinkNow(code, m);
    PerformsNow(code, m);
    TakenIs(op, p1, p2, link, m);
    StackOfCall(Read(p1, p1.v, m.data.regs, m.data.mem), link, m);
  }

  lemma ReturnPops(code: Code, m: MState)
    requires ReturnsNow(code, m) && m.stack != [] && m.stack[|m.stack| - 1] < 0x100_0000
    ensures Machine.Step(code, m).vip == m.stack[|m.stack| - 1]
  {
    hide Safe, Machine.Step, OpNow, FirstNow, SecondNow, LinkNow, SafeOp, Perform, GuardMet, Return, Read, Readable;
    var op, p1, p2, link := OpNow(code, m), FirstNow(code, m), SecondNow(code, m), LinkNow(code, m);
    PerformsNow(code, m);
    TakenIs(op, p1, p2, link, m);
    MemorySize(op, p1, p2, m);
    ReturnGoes(link, m);
  }

  lemma ReturnGoes(link: bv32, m: MState)
    requires |m.data.mem| == MEMORY_SIZE && m.stack != [] && m.stack[|m.stack| - 1] < 0x100_0000
    ensures Return(link, m).vip == m.stack[|m.stack| - 1]
  {
    hide Cleared;
    Successor(Top(m.stack));
  }

  /** A pointer has 24 bits. */
  lemma LinkSmall(code: Code, m: MState)
    requires Safe(code, m)
    ensures LinkNow(code, m) < 0x100_0000
  {
    hide Val, DecodeAt, LinkAt, Resolvable, Resolve, SafeOp, Select;
    var at := LinkAt(Val(m.vip), DecodeAt(code, Val(m.vip)));
  }

  /** The call in `m`, `n` steps that close no call but those they opened themselves, and a return. */
  predicate CallAndReturn(code: Code, m: MState, n: nat) {
    hide Machine.Step;
    && CallsNow(code, m)
    && var v := Machine.Step(code, m);
       && Machine.CanRun(code, n, v)
       && StaysAbove(code, n, v, |v.stack|)
       && |Machine.Run(code, n, v).stack| == |v.stack|
       && ReturnsNow(code, Machine.Run(code, n, v))
  }

  /** On any code: a call comes back behind itself, whatever its callee did in between, exactly when the
      stack had room, or the return address lost happens to be the one already on top. */
  lemma CallReturns(code: Code, m: MState, n: nat)
    requires |m.stack| <= STACK_CAPACITY && CallAndReturn(code, m, n)
    requires forall j :: 0 <= j < |m.stack| ==> m.stack[j] < 0x100_0000
    ensures Machine.CanRun(code, n + 2, m)
    ensures Machine.Run(code, n + 2, m).vip == LinkNow(code, m) <==>
            |m.stack| < STACK_CAPACITY || m.stack[STACK_CAPACITY - 1] == LinkNow(code, m)
  {
    hide Machine.Step, StaysAbove, LinkNow, Safe, OpNow, FirstNow, SecondNow, GuardMet, FirstEmpty;
    var v := Machine.Step(code, m);
    var t := Machine.Run(code, n, v);
    CallPushes(code, m);
    LinkSmall(code, m);
    KeepsFrames(code, n, v, |v.stack|);
    assert t.stack == t.stack[..|v.stack|] == v.stack[..|v.stack|] == v.stack;
    ReturnPops(code, t);
    RunOn(code, n, v);
    IsRunning(code, m);
    assert Machine.CanRun(code, n + 2, m) && Machine.Run(code, n + 2, m) == Machine.Run(code, n + 1, v);
  }

  // ----- Local variables -----

  /** The four bytes from `a` on are the same. */
  predicate SameWindow(x: Memory, y: Memory, a: nat) {
    |x| == |y| && a + 4 <= |x| && forall i :: a <= i < a + 4 ==> x[i] == y[i]
  }

  /** For `n` steps at least `d` calls stay open and the four bytes from `a` on keep their values. */
  predicate KeepsWindow(code: Code, n: nat, m: MState, d: nat, a: nat)
    requires Machine.CanRun(code, n, m)
    decreases n
  {
    hide Safe, Machine.Step, SameWindow;
    && |m.stack| >= d
    && (n > 0 && m.status == Running ==>
          && SameWindow(m.data.mem, Machine.Step(code, m).data.mem, a)
          && KeepsWindow(code, n - 1, Machine.Step(code, m), d, a))
  }

  lemma {:induction false} WindowStays(code: Code, n: nat, m: MState, d: nat, a: nat)
    requires Machine.CanRun(code, n, m) && KeepsWindow(code, n, m, d, a) && a + 4 <= |m.data.mem|
    ensures SameWindow(m.data.mem, Machine.Run(code, n, m).data.mem, a) && StaysAbove(code, n, m, d)
    decreases n
  {
    hide Safe, Machine.Step;
    if n > 0 && m.status == Running {
      WindowStays(code, n - 1, Machine.Step(code, m), d, a);
    }
  }

  /** Where the variable `id` of the current call lives. */
  function HomeOf(m: MState, id: bv32): (a: nat)
    ensures a <= 0xFFFF
  {
    Val(Hash(BaseKey(m), id))
  }

  /** The current instruction stores `x` at full width to the variable `id`. */
  predicate PutsNow(code: Code, m: MState, id: bv32, x: bv32) {
    hide Safe, OpNow, FirstNow, SecondNow, Readable, Read;
    && Safe(code, m)
    && |m.data.mem| == MEMORY_SIZE
    && OpNow(code, m).PUT?
    && ReadableNow(FirstNow(code, m), m.data) && ReadNow(FirstNow(code, m), m) == id
    && ReadableNow(SecondNow(code, m), m.data) && ReadNow(SecondNow(code, m), m) == x
    && SecondNow(code, m).v == Int
  }

  /** The current instruction loads the variable `id` at full width into register `r`. */
  predicate GetsNow(code: Code, m: MState, r: bv4, id: bv32) {
    hide Safe, OpNow, FirstNow, SecondNow, Readable, Read;
    && Safe(code, m)
    && |m.data.mem| == MEMORY_SIZE
    && OpNow(code, m).GET?
    && FirstNow(code, m) == InRegister(r, Int)
    && ReadableNow(SecondNow(code, m), m.data) && ReadNow(SecondNow(code, m), m) == id
    && SecondNow(code, m).v == Int
  }

  lemma PutStores(code: Code, m: MState, id: bv32, x: bv32)
    requires PutsNow(code, m, id, x)
    ensures var t := Machine.Step(code, m);
            && t.stack == m.stack
            && |t.data.mem| == MEMORY_SIZE
            && Load(t.data.mem, HomeOf(m, id), Int) == x
  {
    hide Safe, Machine.Step, OpNow, FirstNow, SecondNow, LinkNow, SafeOp, Perform, Read, Readable, Load, HomeOf;
    var op, p1, p2, link := OpNow(code, m), FirstNow(code, m), SecondNow(code, m), LinkNow(code, m);
    PerformsNow(code, m);
    PutPerformed(p1, p2, link, m);
    LoadStore(m.data.mem, HomeOf(m, id), Int, x);
  }

  lemma PutPerformed(p1: Place, p2: Place, link: bv32, m: MState)
    requires SafeOp(PUT, p1, p2, m)
    ensures |m.data.mem| == MEMORY_SIZE && ReadableNow(p1, m.data) && ReadableNow(p2, m.data)
    ensures var t := Perform(PUT, p1, p2, link, m);
            && t.stack == m.stack
            && t.data.mem == Store(m.data.mem, HomeOf(m, ReadNow(p1, m)), p2.v, ReadNow(p2, m))
  {
    hide Val, Read, Store, Hash, BaseKey, Readable;
  }

  lemma GetLoads(code: Code, m: MState, r: bv4, id: bv32)
    requires GetsNow(code, m, r, id)
    ensures Machine.Step(code, m).data.regs[r as nat] == Load(m.data.mem, HomeOf(m, id), Int)
  {
    hide Safe, Machine.Step, OpNow, FirstNow, SecondNow, LinkNow, SafeOp, Perform, Read, Readable, Load, HomeOf;
    var op, p1, p2, link := OpNow(code, m), FirstNow(code, m), SecondNow(code, m), LinkNow(code, m);
    PerformsNow(code, m);
    GetPerformed(r, p2, link, m);
  }

  lemma GetPerformed(r: bv4, p2: Place, link: bv32, m: MState)
    requires SafeOp(GET, InRegister(r, Int), p2, m)
    ensures |m.data.mem| == MEMORY_SIZE && ReadableNow(p2, m.data)
    ensures Perform(GET, InRegister(r, Int), p2, link, m).data.regs[r as nat]
            == Load(m.data.mem, HomeOf(m, ReadNow(p2, m)), p2.v)
  {
    hide Val, Read, Load, Hash, BaseKey, Readable, Write;
    FullWrite(r, Load(m.data.mem, HomeOf(m, ReadNow(p2, m)), p2.v), m.data);
  }

  lemma FullWrite(r: bv4, x: bv32, d: Data)
    ensures Write(InRegister(r, Int), x, d).regs[r as nat] == x
  {
    OrZero(x);
  }

  lemma SameLoad(x: Memory, y: Memory, a: nat)
    requires SameWindow(x, y, a)
    ensures Load(x, a, Int) == Load(y, a, Int)
  {
    hide Cat;
  }

  /** On any code: a variable stored by PUT is loaded by a later GET of the same call, provided its own
      four bytes are not written in between and the call stays open. Other variables may collide. */
  lemma LocalSurvives(code: Code, m: MState, n: nat, id: bv32, x: bv32, r: bv4)
    requires PutsNow(code, m, id, x) && Machine.CanRun(code, n, Machine.Step(code, m))
    requires KeepsWindow(code, n, Machine.Step(code, m), |m.stack|, HomeOf(m, id))
    requires var t := Machine.Run(code, n, Machine.Step(code, m)); |t.stack| == |m.stack| && GetsNow(code, t, r, id)
    ensures Machine.CanRun(code, n + 2, m) && Machine.Run(code, n + 2, m).data.regs[r as nat] == x
  {
    hide Machine.Step, KeepsWindow, StaysAbove, Safe, OpNow, FirstNow, SecondNow, Load, Val, Hash, Readable, Read;
    var v, a := Machine.Step(code, m), HomeOf(m, id);
    var t := Machine.Run(code, n, v);
    PutStores(code, m, id, x);
    WindowStays(code, n, v, |m.stack|, a);
    KeepsFrames(code, n, v, |m.stack|);
    assert t.stack == t.stack[..|m.stack|] == v.stack[..|m.stack|] == m.stack;
    GetLoads(code, t, r, id);
    SameLoad(v.data.mem, t.data.mem, a);
    RunOn(code, n, v);
    IsRunning(code, m);
    assert Machine.CanRun(code, n + 2, m) && Machine.Run(code, n + 2, m) == Machine.Run(code, n + 1, v);
  }
}
