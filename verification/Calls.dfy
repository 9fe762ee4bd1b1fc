/** Calls, returns and local variables over whole runs. */
module Calls {
  import opened Words
  import opened Alu
  import opened Program
  import Machine
  import opened Layout
  import opened Relation
  import opened Simulation
  import opened Theorems

  // ----- Bounded call depth: one stack in three places -----

  /** No more than 128 calls are open at any point of the first `n` steps. */
  predicate DepthBounded(p: Prog, u: set<LocalKey>, n: nat, s: State)
    requires CanRun(p, u, n, s)
    decreases n
  {
    hide Defined, Step;
    && |s.shadow| <= STACK_CAPACITY
    && (n > 0 && s.status == Running ==> DepthBounded(p, u, n - 1, Step(p, u, s)))
  }

  lemma StepKeepsStacksEqual(p: Prog, u: set<LocalKey>, s: State)
    requires Defined(p, u, s) && s.stack == s.shadow && |Step(p, u, s).shadow| <= STACK_CAPACITY
    ensures Step(p, u, s).stack == Step(p, u, s).shadow
  {
    hide Exec, ExecDefined, Available, GuardDefined, Taken, ValueOf, Write, Load, Store, KeyOf;
    var i := p.insns[s.pc];
    if i.op.RET? && s.stack != [] {
      assert s.stack[..|s.stack| - 1] == s.shadow[..|s.shadow| - 1];
    }
  }

  lemma {:induction false} RunKeepsStacksEqual(p: Prog, u: set<LocalKey>, n: nat, s: State)
    requires CanRun(p, u, n, s) && s.stack == s.shadow && DepthBounded(p, u, n, s)
    ensures Run(p, u, n, s).stack == Run(p, u, n, s).shadow
    ensures |Run(p, u, n, s).shadow| <= STACK_CAPACITY
    decreases n
  {
    hide Defined, Step;
    if n > 0 && s.status == Running {
      StepKeepsStacksEqual(p, u, s);
      RunKeepsStacksEqual(p, u, n - 1, Step(p, u, s));
    }
  }

  /** While at most 128 calls are open in a source run, the linked stack and the cells in memory hold the
      addresses of the returns the source program has pending, in order, and the next cell is empty. */
  lemma SourceStacksAgree(p: Prog, ch: Choice, img: Image, u: set<LocalKey>, mem: Memory, n: nat)
    requires IsImage(p, ch, img) && NoClash(ch, img, u) && p.insns != [] && Fresh(mem)
    requires CanRun(p, u, n, Initial(mem)) && DepthBounded(p, u, n, Initial(mem))
    ensures Machine.CanRun(Flatten(img), n, Machine.Boot(mem))
    ensures var s, m := Run(p, u, n, Initial(mem)), Machine.Run(Flatten(img), n, Machine.Boot(mem));
            && |m.data.mem| == MEMORY_SIZE
            && |m.stack| == |s.stack| == Machine.FirstEmpty(m.data.mem, 0)
            && |m.stack| <= STACK_CAPACITY
            && forall i :: 0 <= i < |m.stack| ==>
                 m.stack[i] == Address(ch, img, s.stack[i]) && CellHolds(m.data.mem, i, m.stack[i])
  {
    hide IsImage, NoClash, Address, CanRun, Run, DepthBounded, Machine.CanRun, Machine.Run, LocalsMatch;
    hide Machine.FirstEmpty, CellHolds;
    ImageSize(p, ch, img);
    BootMatches(ch, img, u, mem);
    RunCorrect(p, ch, img, u, n, Initial(mem), Machine.Boot(mem));
    RunKeepsStacksEqual(p, u, n, Initial(mem));
    var s, m := Run(p, u, n, Initial(mem)), Machine.Run(Flatten(img), n, Machine.Boot(mem));
    FirstEmptyCell(p, ch, img, m.data.mem, s.shadow, 0);
  }

  // ----- A call and its return -----

  /** For `n` steps at least `d` calls stay open. */
  predicate NeverBelow(p: Prog, u: set<LocalKey>, n: nat, s: State, d: nat)
    requires CanRun(p, u, n, s)
    decreases n
  {
    hide Defined, Step;
    |s.stack| >= d && (n > 0 && s.status == Running ==> NeverBelow(p, u, n - 1, Step(p, u, s), d))
  }

  lemma StepKeepsFrames(p: Prog, u: set<LocalKey>, s: State, d: nat)
    requires Defined(p, u, s) && |s.stack| >= d && |Step(p, u, s).stack| >= d
    ensures Step(p, u, s).stack[..d] == s.stack[..d]
  {
    hide Exec, ExecDefined, Available, GuardDefined, Taken, ValueOf, Write, Load, Store;
  }

  /** Calls that stay open keep their return indices. */
  lemma {:induction false} RunKeepsFrames(p: Prog, u: set<LocalKey>, n: nat, s: State, d: nat)
    requires CanRun(p, u, n, s) && NeverBelow(p, u, n, s, d)
    ensures |Run(p, u, n, s).stack| >= d && Run(p, u, n, s).stack[..d] == s.stack[..d]
    decreases n
  {
    hide Defined, Step;
    if n > 0 && s.status == Running {
      StepKeepsFrames(p, u, s, d);
      RunKeepsFrames(p, u, n - 1, Step(p, u, s), d);
    }
  }

  /** The current instruction is a call that is made, with call cells left. */
  predicate MakesCall(p: Prog, u: set<LocalKey>, s: State)
    requires Defined(p, u, s)
  {
    p.insns[s.pc].op.CALL? && Taken(p.insns[s.pc].o2, s) && |s.shadow| < SHADOW_CAPACITY
  }

  /** The current instruction is a return that is made. */
  predicate MakesReturn(p: Prog, u: set<LocalKey>, s: State)
    requires Defined(p, u, s)
  {
    p.insns[s.pc].op.RET? && Taken(p.insns[s.pc].o1, s)
  }

  /** The call in `s`, its callee's run of `n` steps that closes no call but those it opened itself, and
      the callee's return. */
  predicate CallAndReturn(p: Prog, u: set<LocalKey>, s: State, n: nat) {
    && Defined(p, u, s)
    && MakesCall(p, u, s)
    && var v := Step(p, u, s);
       && CanRun(p, u, n, v)
       && NeverBelow(p, u, n, v, |v.stack|)
       && var t := Run(p, u, n, v);
          |t.stack| == |v.stack| && Defined(p, u, t) && MakesReturn(p, u, t)
  }

  lemma CallPushes(p: Prog, u: set<LocalKey>, s: State)
    requires Defined(p, u, s) && MakesCall(p, u, s)
    ensures var v := Step(p, u, s);
            v.status == Running && v.stack == if |s.stack| < STACK_CAPACITY then s.stack + [s.pc + 1] else s.stack
  {
    hide Taken;
  }

  lemma ReturnPops(p: Prog, u: set<LocalKey>, s: State)
    requires Defined(p, u, s) && MakesReturn(p, u, s) && s.stack != []
    ensures var v := Step(p, u, s); v.status == Running && v.pc == s.stack[|s.stack| - 1]
  {
    hide Taken;
  }

  /** A call comes back behind itself, whatever its callee did in between, exactly when the call found
      room on the stack, or the return index lost happens to be the one already on top. */
  lemma CallReturns(p: Prog, u: set<LocalKey>, s: State, n: nat)
    requires |s.stack| <= STACK_CAPACITY && CallAndReturn(p, u, s, n)
    ensures CanRun(p, u, n + 2, s) && Run(p, u, n + 2, s).status == Running
    ensures Run(p, u, n + 2, s).pc == s.pc + 1 <==>
            |s.stack| < STACK_CAPACITY || s.stack[STACK_CAPACITY - 1] == s.pc + 1
  {
    hide Defined, Step, MakesCall, MakesReturn, NeverBelow;
    var v := Step(p, u, s);
    var t := Run(p, u, n, v);
    CallPushes(p, u, s);
    RunKeepsFrames(p, u, n, v, |v.stack|);
    assert t.stack == t.stack[..|v.stack|] == v.stack[..|v.stack|] == v.stack;
    ReturnPops(p, u, t);
    RunExtend(p, u, n, v);
    DefinedRuns(p, u, s);
    assert CanRun(p, u, n + 2, s) && Run(p, u, n + 2, s) == Run(p, u, n + 1, v) == Step(p, u, t);
  }

  /** The same on the machine: it stands behind the call exactly then. */
  lemma MachineCallReturns(p: Prog, ch: Choice, img: Image, u: set<LocalKey>, s: State, m: Machine.MState, n: nat)
    requires IsImage(p, ch, img) && NoClash(ch, img, u) && Matches(ch, img, u, s, m)
    requires |s.stack| <= STACK_CAPACITY && CallAndReturn(p, u, s, n)
    ensures s.pc + 1 < |img| && s.pc + 1 < |ch.place| && ch.place[s.pc + 1] <= |img|
    ensures Machine.CanRun(Flatten(img), n + 2, m)
    ensures var e := Machine.Run(Flatten(img), n + 2, m);
            && e.status == Running
            && (Val(e.vip) == Start(ch, img, s.pc + 1) <==>
                  |s.stack| < STACK_CAPACITY || s.stack[STACK_CAPACITY - 1] == s.pc + 1)
  {
    hide IsImage, NoClash, ContentsMatch, Machine.CanRun, Machine.Run, Run, CanRun, CallAndReturn, Start, Val;
    hide Address, Flatten;
    CallInside(p, u, s, n);
    CallReturns(p, u, s, n);
    RunCorrect(p, ch, img, u, n + 2, s, m);
    ImageSize(p, ch, img);
    var t := Run(p, u, n + 2, s);
    AddressFacts(p, ch, img, t.pc);
    if Start(ch, img, t.pc) == Start(ch, img, s.pc + 1) {
      StartInjective(p, ch, img, t.pc, s.pc + 1);
    }
  }

  lemma CallInside(p: Prog, u: set<LocalKey>, s: State, n: nat)
    requires CallAndReturn(p, u, s, n)
    ensures s.pc + 1 < |p.insns|
  {
    hide Taken, CanRun, Run, NeverBelow, MakesReturn;
  }

  // ----- Local variables survive calls -----

  /** The current instruction stores to the local variable `k`. */
  predicate Puts(p: Prog, u: set<LocalKey>, s: State, k: LocalKey)
    requires Defined(p, u, s)
  {
    p.insns[s.pc].op.PUT? && KeyOf(p.insns[s.pc].o1, s) == k
  }

  /** For `n` steps the calls open at depth `d` stay open and `k` is not stored to. */
  predicate Undisturbed(p: Prog, u: set<LocalKey>, n: nat, s: State, d: nat, k: LocalKey)
    requires CanRun(p, u, n, s)
    decreases n
  {
    hide Defined, Step, KeyOf;
    && |s.stack| >= d
    && (n > 0 && s.status == Running ==>
          !Puts(p, u, s, k) && Undisturbed(p, u, n - 1, Step(p, u, s), d, k))
  }

  lemma StepKeepsLocal(p: Prog, u: set<LocalKey>, s: State, d: nat, k: LocalKey)
    requires Defined(p, u, s) && !Puts(p, u, s, k) && |s.stack| >= d && |Step(p, u, s).stack| >= d
    ensures Local(Step(p, u, s), k) == Local(s, k)
    ensures Step(p, u, s).stack[..d] == s.stack[..d]
  {
    hide Exec, ExecDefined, Available, GuardDefined, Taken, ValueOf, Write, Load, Store;
  }

  lemma {:induction false} RunKeepsLocal(p: Prog, u: set<LocalKey>, n: nat, s: State, d: nat, k: LocalKey)
    requires CanRun(p, u, n, s) && Undisturbed(p, u, n, s, d, k)
    ensures |Run(p, u, n, s).stack| >= d
    ensures Local(Run(p, u, n, s), k) == Local(s, k) && Run(p, u, n, s).stack[..d] == s.stack[..d]
    decreases n
  {
    hide Defined, Step, Puts;
    if n > 0 && s.status == Running {
      StepKeepsLocal(p, u, s, d, k);
      RunKeepsLocal(p, u, n - 1, Step(p, u, s), d, k);
    }
  }

  /** One more defined step after a run. */
  lemma {:induction false} RunExtend(p: Prog, u: set<LocalKey>, n: nat, s: State)
    requires CanRun(p, u, n, s) && Defined(p, u, Run(p, u, n, s))
    ensures CanRun(p, u, n + 1, s) && Run(p, u, n + 1, s) == Step(p, u, Run(p, u, n, s))
    decreases n
  {
    hide Step;
    var t := Run(p, u, n, s);
    assert t.status == Running;
    if n > 0 && s.status == Running {
      RunExtend(p, u, n - 1, Step(p, u, s));
    } else {
      assert CanRun(p, u, 0, Step(p, u, s));
      assert Run(p, u, 0, Step(p, u, s)) == Step(p, u, s);
    }
  }

  /** The current instruction is a GET at full width into register `r` of the variable `id`. */
  predicate Gets(p: Prog, u: set<LocalKey>, s: State, r: bv4, id: bv32)
    requires Defined(p, u, s)
  {
    var i := p.insns[s.pc];
    && i.op.GET?
    && i.o1 == Reg(r, Int)
    && ValueOf(i.o2, s.data) == id
    && PlaceOf(i.o2, s.data.regs).v == Int
  }

  /** The current instruction is a PUT at full width of `x` to the variable `id`. */
  predicate PutsValue(p: Prog, u: set<LocalKey>, s: State, id: bv32, x: bv32)
    requires Defined(p, u, s)
  {
    var i := p.insns[s.pc];
    && i.op.PUT?
    && ValueOf(i.o1, s.data) == id
    && ValueOf(i.o2, s.data) == x
    && PlaceOf(i.o2, s.data.regs).v == Int
  }

  lemma PutStores(p: Prog, u: set<LocalKey>, s: State, id: bv32, x: bv32)
    requires Defined(p, u, s) && PutsValue(p, u, s, id, x)
    ensures var k, t := LocalKey(TopFrame(s), id), Step(p, u, s);
            Load(Local(t, k), 0, Int) == x && t.stack == s.stack && t.status == Running
  {
    hide Store, Load, Available, Val;
    LoadStore(Local(s, LocalKey(TopFrame(s), id)), 0, Int, x);
  }

  lemma GetLoads(p: Prog, u: set<LocalKey>, s: State, r: bv4, id: bv32)
    requires Defined(p, u, s) && Gets(p, u, s, r, id)
    ensures Step(p, u, s).data.regs[r as nat] == Load(Local(s, LocalKey(TopFrame(s), id)), 0, Int)
  {
    hide Load, Available, Val;
    OrZero(Load(Local(s, LocalKey(TopFrame(s), id)), 0, Int));
  }

  /** Under a source run a local variable survives calls: after `PUT id x`, any run that returns to the same call depth
      without closing the frame or storing to the variable lets `GET r id` load `x`, in the program and
      in the machine running any image of it. */
  lemma SourceLocalSurvives(p: Prog, ch: Choice, img: Image, u: set<LocalKey>, s: State, m: Machine.MState,
                      n: nat, id: bv32, x: bv32, r: bv4)
    requires IsImage(p, ch, img) && NoClash(ch, img, u) && Matches(ch, img, u, s, m)
    requires Defined(p, u, s) && PutsValue(p, u, s, id, x)
    requires CanRun(p, u, n, Step(p, u, s))
    requires Undisturbed(p, u, n, Step(p, u, s), |s.stack|, LocalKey(TopFrame(s), id))
    requires var t := Run(p, u, n, Step(p, u, s)); |t.stack| == |s.stack| && Defined(p, u, t) && Gets(p, u, t, r, id)
    ensures CanRun(p, u, n + 2, s) && Run(p, u, n + 2, s).data.regs[r as nat] == x
    ensures Machine.CanRun(Flatten(img), n + 2, m) && Machine.Run(Flatten(img), n + 2, m).data.regs[r as nat] == x
  {
    hide IsImage, NoClash, Matches, Defined, Step, Undisturbed, Gets, PutsValue, Load, Machine.CanRun, Machine.Run;
    var s1, k := Step(p, u, s), LocalKey(TopFrame(s), id);
    PutStores(p, u, s, id, x);
    RunKeepsLocal(p, u, n, s1, |s.stack|, k);
    var t := Run(p, u, n, s1);
    assert t.stack == t.stack[..|s.stack|] == s1.stack[..|s.stack|] == s.stack;
    GetLoads(p, u, t, r, id);
    RunExtend(p, u, n, s1);
    DefinedRuns(p, u, s);
    assert CanRun(p, u, n + 2, s) && Run(p, u, n + 2, s) == Run(p, u, n + 1, s1);
    RunCorrect(p, ch, img, u, n + 2, s, m);
    MatchesData(ch, img, u, Run(p, u, n + 2, s), Machine.Run(Flatten(img), n + 2, m));
  }

  lemma DefinedRuns(p: Prog, u: set<LocalKey>, s: State)
    requires Defined(p, u, s)
    ensures s.status == Running
  {
  }

  lemma MatchesData(ch: Choice, img: Image, u: set<LocalKey>, s: State, m: Machine.MState)
    requires NoClash(ch, img, u) && Matches(ch, img, u, s, m)
    ensures m.data.regs == s.data.regs
  {
  }
}
