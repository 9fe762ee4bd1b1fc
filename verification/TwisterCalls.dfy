/** Calls of FUN_MersenneTwisterRand: the whole function, with its regeneration, from entry to return. */
module TwisterCalls {
  import opened Words
  import opened Alu
  import opened Program
  import opened Blocks
  import opened Words32
  import opened Reaching
  import opened Symbolic
  import opened Twister
  import opened MersenneCode
  import opened TwisterLoops
  import opened TwisterRand

  // ----- The blob between calls -----

  /** Generation `g` with index `i`: slot i, when there is one, holds the next word to be tempered. */
  predicate Represents(mem: Memory, base: nat, seed: bv32, g: nat, i: nat) {
    && |mem| == MEMORY_SIZE
    && Placed(base)
    && i <= N
    && MagSet(mem)
    && Holds(mem, base, seed, g, 0)
    && IndexWord(mem, base) == Word(i)
  }

  /** The blob after `n` words have been drawn. */
  predicate Drawn(mem: Memory, base: nat, seed: bv32, n: nat) {
    Represents(mem, base, seed, (n + 623) / 624, (n + 623) % 624 + 1)
  }

  /** The constants, the index and the slots after `n` words have been drawn, in literals. */
  lemma DrawnLiterals(mem: Memory, base: nat, seed: bv32, n: nat)
    requires Drawn(mem, base, seed, n)
    ensures base + 0x4E04 <= |mem|
    ensures WordAt(mem, 0x0E_6E04) == 0 && WordAt(mem, 0x0E_6E08) == 0x9908_B0DF
    ensures WordAt(mem, base + 0x4E00) == Word((n + 623) % 624 + 1)
    ensures forall j :: 0 <= j < 624 ==> WordAt(mem, base + 4 * j) == Stream(seed, 624 * ((n + 623) / 624) + j)
  {
    hide Word, WordAt, Stream;
    forall j: nat | j < 624 ensures WordAt(mem, base + 4 * j) == Stream(seed, 624 * ((n + 623) / 624) + j) {
      SlotIs(mem, base, j);
      assert Slot(mem, base, j) == Stream(seed, StreamIndex((n + 623) / 624, 0, j));
    }
  }

  /** Writing the index changes neither the slots nor the constants. */
  lemma IndexStored(mem: Memory, base: nat, seed: bv32, g: nat, k: nat, i: nat)
    requires |mem| == MEMORY_SIZE && Placed(base) && MagSet(mem) && Holds(mem, base, seed, g, k) && i < WORD_LIMIT
    ensures var m := SetWord(mem, base + INDEX, Word(i));
            MagSet(m) && Holds(m, base, seed, g, k) && IndexWord(m, base) == Word(i) && Beyond(mem, m, base)
  {
    hide Word, SetWord, WordAt, Stream, MagSet, Beyond;
    var m := SetWord(mem, base + INDEX, Word(i));
    Beyond0(mem, base);
    BeyondStored(mem, mem, base, base + INDEX, Word(i));
    MagKept(mem, m, base);
    WordAfterSet(mem, base + INDEX, Word(i), base + INDEX);
    forall j: nat | 0 <= j < N ensures Slot(m, base, j) == Stream(seed, StreamIndex(g, k, j)) {
      WordAfterSet(mem, base + INDEX, Word(i), base + 4 * j);
      SlotIs(mem, base, j);
      SlotIs(m, base, j);
    }
  }

  lemma Beyond0(mem: Memory, base: nat)
    ensures Beyond(mem, mem, base)
  {
  }

  lemma BeyondOn(m: Memory, n: Memory, o: Memory, base: nat)
    requires Beyond(m, n, base) && Beyond(n, o, base)
    ensures Beyond(m, o, base)
  {
  }

  /** A generation renewed to the end is the next generation. */
  lemma NextGeneration(mem: Memory, base: nat, seed: bv32, g: nat)
    requires |mem| == MEMORY_SIZE && Placed(base) && Holds(mem, base, seed, g, N)
    ensures Holds(mem, base, seed, g + 1, 0)
  {
    hide Slot, Stream;
    forall j: nat | 0 <= j < N ensures Slot(mem, base, j) == Stream(seed, StreamIndex(g + 1, 0, j)) {
      assert StreamIndex(g, N, j) == StreamIndex(g + 1, 0, j);
    }
  }

  // ----- The index -----

  lemma GoesCompareIndex(p: Prog, u: set<LocalKey>, s: State, pc: nat, d: Data, e: Env, fl: Comparison, base: nat,
      i: nat, n: nat)
    requires pc + 1 < |p.insns| && n < WORD_LIMIT && p.insns[pc] == CompareIndex(Word(n)) && s.status == Running
    requires |e.mem| == MEMORY_SIZE && Placed(base) && Get(d, F0) == Word(base)
    requires i < WORD_LIMIT && IndexWord(e.mem, base) == Word(i)
    ensures var gl := if i == n then Equal else if i > n then Greater else Less;
            Goes(p, u, In(s, pc, d, e, fl), In(s, pc + 1, d, e, gl))
  {
    hide Goes, Compare, Build, Reads, Get, Word, IndexWord, AddressIs, Field, WordAt;
    BuildBase(d, e);
    FieldAddress(d, e, base, INDEX);
    IndexIs(e.mem, base);
    ReadsMemory(Index(), base + INDEX, Build(d, e));
    ReadsLiteral(Word(n), Build(d, e));
    GoesCompare(p, u, In(s, pc, d, e, fl), Index(), Literal(Word(n), Int), Word(i), Word(n));
    CompareWords(i, n);
  }

  // ----- Regeneration -----

  /** The error checks pass over, and the counter is reset. */
  lemma CheckPasses(p: Prog, u: set<LocalKey>, s: State, at: nat, d: Data, e: Env, base: nat,
      fl: Comparison) returns (gl: Comparison)
    requires RandAt(p, at) && s.status == Running
    requires |e.mem| == MEMORY_SIZE && Placed(base) && Get(d, F0) == Word(base) && IndexWord(e.mem, base) == Word(624)
    ensures Goes(p, u, In(s, at + 5, d, e, fl), In(s, at + 12, d, e.(r0 := Word(624), f1 := 4357, c0 := Word(0)), gl))
  {
    hide Goes, Build, Word, IndexWord, Get, LoopAt, BlockAt, Holding, CompareIndex, Lit, LoadInsn, Takes;
    Parts(p, at);
    BuildBase(d, e);
    var c := Check();
    InsnAt(p, at + 5, c, 0);
    InsnAt(p, at + 5, c, 1);
    InsnAt(p, at + 5, c, 2);
    InsnAt(p, at + 5, c, 3);
    InsnAt(p, at + 5, c, 4);
    InsnAt(p, at + 5, c, 5);
    InsnAt(p, at + 5, c, 6);
    hide Check;
    var e1 := e.(f1 := 4357);
    var e2 := e1.(r0 := Word(624));
    var e3 := e2.(c0 := Word(0));
    TakesLiteral(d, e, F1, 4357);
    GoesInsn(p, u, s, at + 5, c[0], d, e, e1, fl);
    LoadIndex(d, e1, base, R0);
    GoesInsn(p, u, s, at + 6, c[1], d, e1, e2, fl);
    GoesFar(p, u, In(s, at + 5, d, e, fl), In(s, at + 6, d, e1, fl), In(s, at + 7, d, e2, fl),
        In(s, at + 7, d, e2, fl)) by {
      GoesNowhere(p, u, In(s, at + 7, d, e2, fl));
    }
    gl := Greater;
    BothCallsPassed(p, u, s, at, d, e2, base, fl);
    TakesLiteral(d, e2, C0, Word(0));
    GoesInsn(p, u, s, at + 11, c[6], d, e2, e3, gl);
    GoesFar(p, u, In(s, at + 5, d, e, fl), In(s, at + 7, d, e2, fl), In(s, at + 11, d, e2, gl),
        In(s, at + 12, d, e3, gl));
  }

  /** Neither of the two emergency calls is made. */
  lemma BothCallsPassed(p: Prog, u: set<LocalKey>, s: State, at: nat, d: Data, e: Env, base: nat, fl: Comparison)
    requires RandAt(p, at) && s.status == Running
    requires |e.mem| == MEMORY_SIZE && Placed(base) && Get(d, F0) == Word(base) && IndexWord(e.mem, base) == Word(624)
    ensures Goes(p, u, In(s, at + 7, d, e, fl), In(s, at + 11, d, e, Greater))
  {
    hide Goes, Build, Word, IndexWord, Get, LoopAt, BlockAt, Holding, CompareIndex, Lit, LoadInsn, Takes;
    Parts(p, at);
    BuildBase(d, e);
    var c := Check();
    InsnAt(p, at + 5, c, 2);
    InsnAt(p, at + 5, c, 3);
    InsnAt(p, at + 5, c, 4);
    InsnAt(p, at + 5, c, 5);
    ConditionHolds(Less);
    ConditionHolds(Greater);
    GoesCompareIndex(p, u, s, at + 7, d, e, fl, base, 624, 625);
    GoesPastCall(p, u, In(s, at + 8, d, e, Less), INIT, GTE);
    GoesCompareIndex(p, u, s, at + 9, d, e, Less, base, 624, 0);
    GoesPastCall(p, u, In(s, at + 10, d, e, Greater), INIT, LT);
    GoesFar(p, u, In(s, at + 7, d, e, fl), In(s, at + 8, d, e, Less), In(s, at + 9, d, e, Less),
        In(s, at + 10, d, e, Greater));
    GoesOn(p, u, In(s, at + 7, d, e, fl), In(s, at + 10, d, e, Greater), In(s, at + 11, d, e, Greater));
  }

  /** The word that wraps around completes the generation. */
  lemma WrapMemory(e: Env, base: nat, seed: bv32, g: nat, m: Memory)
    requires Sliding(e, base, seed, g, 623, m)
    ensures Represents(Wrapped(e, base).mem, base, seed, g + 1, 0) && Beyond(m, Wrapped(e, base).mem, base)
  {
    hide Slot, SetWord, Stream, Twist, Holds, MagSet, Word, Beyond, IndexWord, Joined, Mag, Half, Placed;
    PlacedSlots(base);
    var x := Stream(seed, N * g + 623 + N);
    SlotRenewed(e.mem, base, seed, g, 623);
    SlideMemory(e.mem, base, seed, g, 623);
    var n := SetWord(e.mem, base + 4 * 623, x);
    BeyondStored(m, e.mem, base, base + 4 * 623, x);
    MagKept(e.mem, n, base);
    NextGeneration(n, base, seed, g);
    IndexStored(n, base, seed, g + 1, 0, 0);
    BeyondOn(m, n, SetWord(n, base + INDEX, Word(0)), base);
  }

  /** A used-up generation is replaced by the next. */
  lemma Regenerates(p: Prog, u: set<LocalKey>, s: State, at: nat, d: Data, e: Env, base: nat, seed: bv32, g: nat,
      fl: Comparison)
    returns (f: Env, gl: Comparison)
    requires RandAt(p, at) && s.status == Running
    requires Represents(e.mem, base, seed, g, N) && Get(d, F0) == Word(base)
    ensures Goes(p, u, In(s, at + 5, d, e, fl), In(s, at + 73, d, f, gl))
    ensures Represents(f.mem, base, seed, g + 1, 0) && Beyond(e.mem, f.mem, base) && f.r4 == e.r4
  {
    hide Goes, Build, Word, IndexWord, Get, LoopAt, BlockAt, MagSet, Holds, Placed, Beyond, WrapAround, BlockTakes;
    hide Twist, Mag, Joined, Half, Slot, SetWord;
    Parts(p, at);
    Lengths();
    hide RandAt;
    gl := CheckPasses(p, u, s, at, d, e, base, fl);
    var e1 := e.(r0 := Word(624), f1 := 4357, c0 := Word(0));
    Beyond0(e.mem, base);
    var e2, l2 := LoopRuns(p, u, s, at + 12, true, LOOP1, d, e1, base, seed, g, 0, e.mem, gl);
    var e3, l3 := LoopRuns(p, u, s, at + 34, false, LOOP2, d, e2, base, seed, g, 227, e.mem, l2);
    WrapMemory(e3, base, seed, g, e.mem);
    WrapEffect(d, e3, base);
    f := Wrapped(e3, base);
    GoesTaken(p, u, In(s, at + 56, d, e3, l3), WrapAround(), d, e3, f);
    GoesFar(p, u, In(s, at + 5, d, e, fl), In(s, at + 12, d, e1, gl), In(s, at + 34, d, e2, l2),
        In(s, at + 56, d, e3, l3));
    gl := l3;
    GoesOn(p, u, In(s, at + 5, d, e, fl), In(s, at + 56, d, e3, l3), In(s, at + 73, d, f, gl));
  }

  // ----- Drawing -----

  /** From LAB_MersenneTwisterRand_NextGen on, slot `i` is tempered and the index moves on. */
  lemma Draws(p: Prog, u: set<LocalKey>, s: State, at: nat, d: Data, e: Env, base: nat, seed: bv32, g: nat, i: nat,
      fl: Comparison)
    returns (f: Env)
    requires RandAt(p, at) && s.status == Running
    requires Represents(e.mem, base, seed, g, i) && i < N && Get(d, F0) == Word(base)
    ensures Goes(p, u, In(s, at + 73, d, e, fl), In(s, at + 91, d, f, fl))
    ensures f.r0 == Temper(Stream(seed, N * g + i))
    ensures Represents(f.mem, base, seed, g, i + 1) && Beyond(e.mem, f.mem, base) && f.r4 == e.r4
  {
    hide Goes, Build, Word, IndexWord, Get, LoopAt, BlockAt, MagSet, Holds, Beyond, NextWord, Tempering, BlockTakes;
    hide Slot, Temper, Stream, SetWord, Binary;
    Parts(p, at);
    Lengths();
    hide RandAt;
    SlotNow(e.mem, base, seed, g, i);
    var e1 := e.(r0 := Slot(e.mem, base, i), mem := SetWord(e.mem, base + INDEX, Word(i + 1)));
    NextWordEffect(d, e, base, i);
    IndexStored(e.mem, base, seed, g, 0, i + 1);
    GoesTaken(p, u, In(s, at + 73, d, e, fl), NextWord(), d, e, e1);
    f := e1.(r0 := Temper(e1.r0), r1 := Binary(SHR, Shift15(Shift7(Shift11(e1.r0))), 18));
    TemperingEffect(d, e1);
    GoesTaken(p, u, In(s, at + 77, d, e1, fl), Tempering(), d, e1, f);
    GoesOn(p, u, In(s, at + 73, d, e, fl), In(s, at + 77, d, e1, fl), In(s, at + 91, d, f, fl));
  }

  lemma SlotNow(mem: Memory, base: nat, seed: bv32, g: nat, i: nat)
    requires |mem| == MEMORY_SIZE && Placed(base) && i < N && Holds(mem, base, seed, g, 0)
    ensures Slot(mem, base, i) == Stream(seed, N * g + i)
  {
    hide Slot, Stream;
    assert StreamIndex(g, 0, i) == N * g + i;
  }

  // ----- The whole function -----

  /** The function is entered with a blob at `base` and a caller to return to. */
  predicate Entered(p: Prog, u: set<LocalKey>, s: State, at: nat, base: nat) {
    && RandAt(p, at)
    && s.status == Running
    && s.pc == at
    && s.stack != []
    && |s.data.mem| == MEMORY_SIZE
    && Placed(base)
    && Get(s.data, F0) == Word(base)
    && KeyHere(s, 0) in u
    && KeyHere(s, 1) in u
  }

  /** The state with F1 and C0 saved. */
  function Kept(s: State): State {
    Saved(Saved(s, 0, Get(s.data, F1.Number())), 1, Get(s.data, C0.Number()))
  }

  lemma SavesBoth(p: Prog, u: set<LocalKey>, s: State, at: nat, base: nat)
    requires Entered(p, u, s, at, base)
    ensures Goes(p, u, s, Kept(s).(pc := at + 2))
  {
    hide Goes, Word, Get, LoopAt, BlockAt, Store, Local, Placed;
    Parts(p, at);
    hide RandAt;
    InsnAt(p, at, Entry(), 0);
    InsnAt(p, at, Entry(), 1);
    hide Entry;
    GoesPut(p, u, s, 0, F1.Number());
    var t := Saved(s, 0, Get(s.data, F1.Number())).(pc := at + 1);
    GoesPut(p, u, t, 1, C0.Number());
    SavedMoves(Saved(s, 0, Get(s.data, F1.Number())), at + 1, 1, Get(s.data, C0.Number()));
    hide Saved;
    GoesOn(p, u, s, t, Kept(s).(pc := at + 2));
  }

  lemma SavedMoves(s: State, pc: nat, id: bv32, x: bv32)
    ensures Saved(s.(pc := pc), id, x).(pc := pc + 1) == Saved(s, id, x).(pc := pc + 1)
  {
    hide Store;
  }

  /** A used-up generation is renewed; otherwise the next word is drawn at once. */
  lemma Enters(p: Prog, u: set<LocalKey>, s: State, at: nat, base: nat, i: nat) returns (fl: Comparison)
    requires Entered(p, u, s, at, base) && i <= N && IndexWord(s.data.mem, base) == Word(i)
    ensures Goes(p, u, s, In(Kept(s), if i < N then at + 73 else at + 5, s.data, Initially(s.data).(r0 := Word(i)), fl))
  {
    hide Goes, Word, Get, LoopAt, BlockAt, Placed, Build, IndexWord, LoadInsn, CompareIndex, Takes, Kept, Holding;
    Parts(p, at);
    InsnAt(p, at, Entry(), 2);
    InsnAt(p, at, Entry(), 3);
    InsnAt(p, at, Entry(), 4);
    hide Entry;
    var d, e, v := s.data, Initially(s.data), Kept(s);
    var e1 := e.(r0 := Word(i));
    KeptParts(s);
    SavesBoth(p, u, s, at, base);
    BuildInitially(d);
    LoadIndex(d, e, base, R0);
    GoesInsn(p, u, v, at + 2, LoadInsn(R0, Index()), d, e, e1, v.flags);
    fl := if i < N then Less else Equal;
    GoesCompareIndex(p, u, v, at + 3, d, e1, v.flags, base, i, N);
    ConditionHolds(fl);
    BuildBase(d, e1);
    GoesJump(p, u, In(v, at + 4, d, e1, fl), NEXT_GEN, LT);
    GoesFar(p, u, s, v.(pc := at + 2), In(v, at + 3, d, e1, v.flags), In(v, at + 4, d, e1, fl));
    GoesOn(p, u, s, In(v, at + 4, d, e1, fl), In(v, if i < N then at + 73 else at + 5, d, e1, fl));
  }

  lemma KeptParts(s: State)
    ensures Kept(s) == s.(locals := Kept(s).locals)
  {
    hide Store, Local, Get;
  }

  lemma KeptRemembers(s: State)
    ensures Remembers(Kept(s), 0, Get(s.data, F1.Number())) && Remembers(Kept(s), 1, Get(s.data, C0.Number()))
  {
    hide Get, Saved, Remembers;
    SavedRemembered(s, 0, Get(s.data, F1.Number()), 1, Get(s.data, C0.Number()));
    SavedRemembered(Saved(s, 0, Get(s.data, F1.Number())), 1, Get(s.data, C0.Number()), 0, 0);
  }

  /** F1 and C0 are restored and the function returns. */
  lemma Exits(p: Prog, u: set<LocalKey>, s: State, at: nat, base: nat, f: Env, fl: Comparison)
    requires Entered(p, u, s, at, base) && |f.mem| == MEMORY_SIZE
    ensures var e := Initially(s.data);
            Goes(p, u, In(Kept(s), at + 91, s.data, f, fl),
                 Leave(In(Kept(s), at + 93, s.data, f.(f1 := e.f1, c0 := e.c0), fl)))
  {
    hide Goes, Word, LoopAt, BlockAt, Placed, Build, Kept, Get, Set, Remembers;
    Parts(p, at);
    hide RandAt;
    InsnAt(p, at + 91, Exit(), 0);
    InsnAt(p, at + 91, Exit(), 1);
    InsnAt(p, at + 91, Exit(), 2);
    hide Exit;
    KeptParts(s);
    KeptRemembers(s);
    var d, e, v := s.data, Initially(s.data), Kept(s);
    InitiallyIs(d);
    var f1 := f.(f1 := e.f1);
    var f2 := f1.(c0 := e.c0);
    BuildBase(d, f);
    BuildBase(d, f1);
    BuildBase(d, f2);
    RemembersHere(v, at + 91, Build(d, f), fl, 0, e.f1);
    GoesGet(p, u, In(v, at + 91, d, f, fl), 0, F1.Number(), e.f1);
    BuildSet(d, f, F1, e.f1);
    RemembersHere(v, at + 92, Build(d, f1), fl, 1, e.c0);
    GoesGet(p, u, In(v, at + 92, d, f1, fl), 1, C0.Number(), e.c0);
    BuildSet(d, f1, C0, e.c0);
    GoesReturn(p, u, In(v, at + 93, d, f2, fl));
    GoesFar(p, u, In(v, at + 91, d, f, fl), In(v, at + 92, d, f1, fl), In(v, at + 93, d, f2, fl),
        Leave(In(v, at + 93, d, f2, fl)));
  }

  predicate Scratch(r: bv4) { 4 <= r <= 7 }

  /** `t` is `s` returned to its caller with `x` in R0: all registers but R0-R3 and all memory outside
      the blob are as before, and so are all locals but the two of this call. */
  ghost predicate Returned(s: State, t: State, x: bv32, base: nat) {
    && s.stack != []
    && t.status == Running
    && t.pc == s.stack[|s.stack| - 1]
    && t.stack == s.stack[..|s.stack| - 1]
    && t.shadow == (if s.shadow == [] then [] else s.shadow[..|s.shadow| - 1])
    && Get(t.data, R0.Number()) == x
    && (forall r: bv4 :: !Scratch(r) ==> Get(t.data, r) == Get(s.data, r))
    && Beyond(s.data.mem, t.data.mem, base)
    && (forall k :: k != KeyHere(s, 0) && k != KeyHere(s, 1) ==> Local(t, k) == Local(s, k))
  }

  lemma KeptLocals(s: State, k: LocalKey)
    requires k != KeyHere(s, 0) && k != KeyHere(s, 1)
    ensures Local(Kept(s), k) == Local(s, k)
  {
    hide Store, Get;
  }

  lemma ReturnsSame(s: State, f: Env, pc: nat, fl: Comparison, base: nat)
    requires s.stack != [] && s.status == Running && Beyond(s.data.mem, f.mem, base) && f.r4 == Initially(s.data).r4
    ensures var e := Initially(s.data);
            Returned(s, Leave(In(Kept(s), pc, s.data, f.(f1 := e.f1, c0 := e.c0), fl)), f.r0, base)
  {
    hide Kept, Beyond, Build, Get;
    var e, d := Initially(s.data), s.data;
    var g := f.(f1 := e.f1, c0 := e.c0);
    var t := Leave(In(Kept(s), pc, d, g, fl));
    KeptParts(s);
    BuildGet(d, g, R0);
    BuildBase(d, g);
    forall r: bv4 | !Scratch(r) ensures Get(t.data, r) == Get(d, r) {
      BuildOthers(d, g, r);
    }
    forall k | k != KeyHere(s, 0) && k != KeyHere(s, 1) ensures Local(t, k) == Local(s, k) {
      KeptLocals(s, k);
    }
  }

  lemma BuildOthers(d: Data, g: Env, r: bv4)
    requires var e := Initially(d); !Scratch(r) && g.r4 == e.r4 && g.f1 == e.f1 && g.c0 == e.c0
    ensures Get(Build(d, g), r) == Get(d, r)
  {
  }

  /** A call that finds `n` words drawn returns the tempering of word n+624 of the stream, leaves n+1
      words drawn, and disturbs nothing else of its caller's. */
  lemma RandReturns(p: Prog, u: set<LocalKey>, s: State, at: nat, base: nat, seed: bv32, n: nat) returns (t: State)
    requires Entered(p, u, s, at, base) && Drawn(s.data.mem, base, seed, n)
    ensures Goes(p, u, s, t)
    ensures Returned(s, t, Temper(Stream(seed, n + 624)), base)
    ensures Drawn(t.data.mem, base, seed, n + 1)
  {
    hide Goes, Word, Build, Kept, Get, MagSet, Holds, Placed, Beyond, IndexWord, Temper, Stream, RandAt, KeyHere;
    hide Returned;
    var d, e := s.data, Initially(s.data);
    var g, i := (n + 623) / 624, (n + 623) % 624 + 1;
    var fl := Enters(p, u, s, at, base, i);
    var e1 := e.(r0 := Word(i));
    KeptParts(s);
    var h := e1;
    var gl := fl;
    Beyond0(d.mem, base);
    if i == N {
      h, gl := Regenerates(p, u, Kept(s), at, d, e1, base, seed, g, fl);
      GoesOn(p, u, s, In(Kept(s), at + 5, d, e1, fl), In(Kept(s), at + 73, d, h, gl));
      g, i := g + 1, 0;
    }
    var f := Draws(p, u, Kept(s), at, d, h, base, seed, g, i, gl);
    BeyondOn(d.mem, h.mem, f.mem, base);
    Exits(p, u, s, at, base, f, gl);
    t := Leave(In(Kept(s), at + 93, d, f.(f1 := e.f1, c0 := e.c0), gl));
    GoesFar(p, u, s, In(Kept(s), at + 73, d, h, gl), In(Kept(s), at + 91, d, f, gl), t);
    ReturnsSame(s, f, at + 93, gl, base);
    BuildBase(d, f.(f1 := e.f1, c0 := e.c0));
    assert N * g + i == n + 624;
    assert g == (n + 624) / 624 && i + 1 == (n + 624) % 624 + 1;
  }
}
