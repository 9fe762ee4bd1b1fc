/** The virtual machine as it is built: registers, memory and flag updated in place by the handlers,
    driven by the emulation loop. Every method is proved against the functions of `Machine`. */
module Vm {
  import opened Words
  import opened Alu
  import opened Program
  import opened Machine
  import opened AluCases
  import opened BitReversal
  import CallStack

  // ----- The obfuscation of table indices -----

  /** The junk added to an operand type is a multiple of 8, so the table index is the type. */
  lemma JunkKeepsType(trash: bv32, t: bv2)
    ensures ((((((t as bv32 ^ 0x55) + trash) - 0x7F) << 3) + t as bv32) & 0xFF) % 4 == t as bv32
  {
  }

  /** The junk ORed into a width is a multiple of 4, so the table index is the width. */
  lemma JunkKeepsWidth(trash: bv32, v: bv2)
    ensures (((((v as bv32 + 0xA2) ^ trash) & 0x7C) | v as bv32) & 0xFF) % 4 == v as bv32
  {
  }

  // ----- Widening before a store -----

  /** Widening at the width of the store never reaches memory. */
  lemma WidenedStore(mem: Memory, a: nat, v: Width, x: bv32)
    requires a + 4 <= |mem|
    ensures Store(mem, a, v, Widened(mem, a, v, x)) == Store(mem, a, v, x)
  {
    hide Cat, B0, B1, B2, B3, Or, OrByte;
    OrByteZero(B0(x), 0);
    OrByteZero(B1(x), 0);
    match v
    case Byte =>
      OrBytes(x, Cat(mem[a + 3], mem[a + 2], mem[a + 1], 0));
      CatBytes(mem[a + 3], mem[a + 2], mem[a + 1], 0);
    case Short =>
      OrBytes(x, Cat(mem[a + 3], mem[a + 2], 0, 0));
      CatBytes(mem[a + 3], mem[a + 2], 0, 0);
    case Int =>
  }

  class VirtualMachine {
    const code: seq<bv8>
    const vregs: array<bv32>
    const vmem: array<bv8>
    const callStack: CallStack.Stack
    var vflag: bv32
    var vip: bv32
    var status: Status

    ghost predicate Valid()
      reads this, vregs, vmem, callStack, callStack.frames
    {
      && vregs.Length == 16
      && vmem.Length == MEMORY_SIZE
      && callStack.Valid()
      && (vmem as object) != callStack.frames
      && (vregs as object) != callStack.frames
      && (vmem as object) != vregs
    }

    ghost function Contents(): Data
      requires vregs.Length == 16
      reads vregs, vmem
    {
      Data(vregs[..], vmem[..])
    }

    /** The state as a value. */
    ghost function Abstract(): MState
      requires Valid()
      reads this, vregs, vmem, callStack, callStack.frames
    {
      MState(vip, Contents(), vflag, callStack.Contents(), status)
    }

    /** Fresh registers, flag and call stack over existing memory, about to run from `start`. */
    constructor (code: seq<bv8>, vmem: array<bv8>, start: bv32)
      requires vmem.Length == MEMORY_SIZE
      ensures Valid() && this.code == code && this.vmem == vmem
      ensures fresh(vregs) && fresh(callStack) && fresh(callStack.frames)
      ensures Abstract() == MState(start, Data(seq(16, _ => 0), vmem[..]), 0, [], Running)
    {
      this.code, this.vmem := code, vmem;
      vregs := new bv32[16](_ => 0);
      callStack := new CallStack.Stack();
      vflag, vip, status := 0, start, Running;
      new;
      assert vregs[..] == seq(16, _ => 0);
    }

    // ----- Addresses and operand values -----

    method CalculateMemoryOffset(op: RawOperand) returns (offset: bv32)
      requires vregs.Length == 16 && Resolvable(code, op) && op.t == 2
      ensures offset == MemoryOffset(code, op, vregs[..])
    {
      hide Add, LowBy, Displacement;
      var c0 := code[op.at];
      var base, disp;
      if c0 & 0x40 != 0 {
        var c1 := code[op.at + 1];
        var rb := (((c0 & 0x03) << 2) | ((c1 & 0xC0) >> 6)) as bv4;
        var rd := ((c1 & 0x3C) >> 2) as bv4;
        base, disp := vregs[rb as nat], vregs[rd as nat];
        base := LowBy(base, (c0 & 0x30) >> 4);
        disp := LowBy(disp, (c0 & 0x0C) >> 2);
      } else {
        disp := ReadDisplacement(op);
        if c0 & 0x80 != 0 {
          base := vregs[(c0 & 0x0F) as bv4 as nat];
          base := LowBy(base, (c0 & 0x30) >> 4);
        } else {
          base := 0;
        }
      }
      offset := Add(base, disp);
    }

    method ReadDisplacement(op: RawOperand) returns (disp: bv32)
      requires Resolvable(code, op) && op.t == 2
      ensures disp == Displacement(code, op)
    {
      if op.l == 2 {
        disp := code[op.at + 1] as bv32;
      } else if op.l == 3 {
        disp := (code[op.at + 1] as bv32 << 8) | code[op.at + 2] as bv32;
      } else {
        disp := (code[op.at + 1] as bv32 << 16) | (code[op.at + 2] as bv32 << 8) | code[op.at + 3] as bv32;
      }
    }

    method LoadMemory(a: nat, v: Width) returns (x: bv32)
      requires a + v.Bytes() <= vmem.Length
      ensures x == Load(vmem[..], a, v)
    {
      match v
      case Byte =>
        x := vmem[a] as bv32;
      case Short =>
        x := (vmem[a] as bv32 << 8) | vmem[a + 1] as bv32;
      case Int =>
        x := (vmem[a] as bv32 << 24) | (vmem[a + 1] as bv32 << 16) | (vmem[a + 2] as bv32 << 8) | vmem[a + 3] as bv32;
    }

    method GetOperandData(trash: bv32, op: RawOperand) returns (x: bv32)
      requires vregs.Length == 16 && Resolvable(code, op) && op.t != 0
      requires Readable(Resolve(code, op, vregs[..]), WidthOf(op.v), 0, vmem.Length)
      ensures x == Read(Resolve(code, op, vregs[..]), WidthOf(op.v), vregs[..], vmem[..])
    {
      hide Load, Low, MemoryOffset, LiteralData, Val;
      var junk := ((op.t as bv32 ^ 0x55) + trash - 0x7F) << 3;
      var i := ((junk + op.t as bv32) & 0xFF) % 4;
      JunkKeepsType(trash, op.t);
      if i == 1 {
        x := Low(vregs[(code[op.at] & 0x0F) as bv4 as nat], WidthOf(op.v));
      } else if i == 2 {
        var offs := CalculateMemoryOffset(op);
        x := LoadMemory(Val(offs), WidthOf(op.v));
      } else {
        x := Low(LiteralData(code, op.at, op.l), WidthOf(op.v));
        LowTwice(LiteralData(code, op.at, op.l), WidthOf(op.v));
      }
    }

    // ----- Stores -----

    method WriteByte(a: nat, data: bv32, adj: nat)
      requires adj == 0 && a < vmem.Length
      modifies vmem
      ensures vmem[..] == old(vmem[..])[a := B0(data)]
    {
      vmem[a] := (data & 0xFF) as bv8;
    }

    method WriteShort(a: nat, data: bv32, adj: nat)
      requires adj == 0 && a + 1 < vmem.Length
      modifies vmem
      ensures vmem[..] == old(vmem[..])[a := B1(data)][a + 1 := B0(data)]
    {
      StoreBytes(data);
      vmem[a - adj] := ((data & 0xFF00) >> 8) as bv8;
      vmem[a + 1 - adj] := (data & 0xFF) as bv8;
    }

    /** With `adj` 2 only the last two bytes are written, at the address itself. */
    method WriteInt(a: nat, data: bv32, adj: nat)
      requires (adj == 0 && a + 3 < vmem.Length) || (adj == 2 && a + 1 < vmem.Length)
      modifies vmem
      ensures adj == 0 ==>
        vmem[..] == old(vmem[..])[a := B3(data)][a + 1 := B2(data)][a + 2 := B1(data)][a + 3 := B0(data)]
      ensures adj == 2 ==> vmem[..] == old(vmem[..])[a := B1(data)][a + 1 := B0(data)]
    {
      StoreBytes(data);
      if adj <= 0 { vmem[a - adj] := ((data & 0xFF00_0000) >> 24) as bv8; }
      if adj <= 1 { vmem[a + 1 - adj] := ((data & 0xFF_0000) >> 16) as bv8; }
      if adj <= 2 { vmem[a + 2 - adj] := ((data & 0xFF00) >> 8) as bv8; }
      if adj <= 3 { vmem[a + 3 - adj] := (data & 0xFF) as bv8; }
    }

    /** The flattened store ends having written the low bits, most significant byte first, and nothing
        else, whatever the trash value. */
    method WriteToVmem(a: nat, data: bv32, v: Width, trash: bv32)
      requires a + v.Bytes() <= vmem.Length
      modifies vmem
      ensures vmem[..] == Store(old(vmem[..]), a, v, data)
    {
      hide B0, B1, B2, B3;
      var code := v.Code();
      var junk := ((code as bv32 + 0xA2) ^ trash) & 0x7C;
      var i := ((junk | code as bv32) & 0xFF) % 4;
      JunkKeepsWidth(trash, code);
      var k := 0;
      var state := if i == 1 then 10 else if i == 2 then 33 else if i == 3 then 3 else 13;
      ghost var before := vmem[..];
      while state != 13
        invariant state == 10 ==> v.Byte? && k == 0 && vmem[..] == before
        invariant state == 33 ==> v.Short? && k == 0 && vmem[..] == before
        invariant state == 3 ==>
          || (v.Int? && k == 0 && vmem[..] == before)
          || (v.Short? && k == 2 && vmem[..] == Store(before, a, v, data))
        invariant state == 13 ==> vmem[..] == Store(before, a, v, data)
        invariant state == 10 || state == 33 || state == 3 || state == 13
        decreases if state == 33 then 2 else if state == 13 then 0 else 1
      {
        if state == 10 {
          state := state + 3;
          WriteByte(a, data, k);
        } else if state == 33 {
          WriteShort(a, data, k);
          state := state - 30;
          k := k + 2;
        } else {
          WriteInt(a, data, k);
          state := state + 10;
        }
      }
    }

    /** Widens a byte or short with the bytes after it in memory. */
    method Expand(a: nat, x: bv32, v: Width) returns (y: bv32)
      requires a + 4 <= vmem.Length
      ensures y == Widened(vmem[..], a, v, x)
    {
      match v
      case Byte =>
        y := Or(x, (vmem[a + 1] as bv32 << 8) | (vmem[a + 2] as bv32 << 16) | (vmem[a + 3] as bv32 << 24));
      case Short =>
        y := Or(x, (vmem[a + 2] as bv32 << 16) | (vmem[a + 3] as bv32 << 24));
      case Int => y := x;
    }

    /** Writes a result to a register, or to memory after widening it at the width `w`. */
    method WriteWidened(op: RawOperand, v: Width, w: Width, x: bv32, trash: bv32)
      requires vregs.Length == 16 && vmem.Length == MEMORY_SIZE
      requires Resolvable(code, op) && op.t != 0 && v == WidthOf(op.v)
      requires Writable(Resolve(code, op, vregs[..]), 0, vmem.Length)
      modifies vregs, vmem
      ensures var p := Resolve(code, op, old(vregs[..]));
              var y := if p.InMemory? then Widened(old(vmem[..]), Val(p.a), w, x) else x;
              Contents() == Write(p, y, old(Contents()))
    {
      hide Store, MemoryOffset, LiteralData, Low, High, Val, Widened;
      if op.t == 1 {
        var r := (code[op.at] & 0x0F) as bv4;
        var reg := High(vregs[r as nat], v);
        vregs[r as nat] := reg | x;
      } else if op.t == 2 {
        var offs := CalculateMemoryOffset(op);
        var y := Expand(Val(offs), x, w);
        WriteToVmem(Val(offs), y, v, trash);
      }
    }

    /** Writes a result to a register or, widened at its own width, to memory: the result alone arrives. */
    method WriteOperand(op: RawOperand, v: Width, x: bv32, trash: bv32)
      requires vregs.Length == 16 && vmem.Length == MEMORY_SIZE
      requires Resolvable(code, op) && op.t != 0 && v == WidthOf(op.v)
      requires Writable(Resolve(code, op, vregs[..]), 0, vmem.Length)
      modifies vregs, vmem
      ensures Contents() == Write(Resolve(code, op, old(vregs[..])), x, old(Contents()))
    {
      hide Store, MemoryOffset, LiteralData, Low, High, Val, Widened;
      ghost var p := Resolve(code, op, vregs[..]);
      ResolvedWidth(code, op, vregs[..]);
      if p.InMemory? {
        WidenedStore(vmem[..], Val(p.a), v, x);
      }
      WriteWidened(op, v, v, x, trash);
    }

    // ----- Data handlers -----

    /** A data instruction may be executed on the current registers and memory. */
    ghost predicate Ready(op: Opcode, o1: RawOperand, o2: RawOperand)
      reads this, vregs, vmem
    {
      && vregs.Length == 16
      && vmem.Length == MEMORY_SIZE
      && Resolvable(code, o1)
      && Resolvable(code, o2)
      && ExecDefined(op, Resolve(code, o1, vregs[..]), Resolve(code, o2, vregs[..]), Contents(), 0)
    }

    /** The effect a data handler must have. */
    ghost function Effect(op: Opcode, o1: RawOperand, o2: RawOperand): Data
      requires Ready(op, o1, o2)
      reads this, vregs, vmem
    {
      Exec(op, Resolve(code, o1, vregs[..]), Resolve(code, o2, vregs[..]), Contents())
    }

    /** The source operand of a data instruction. */
    method GetSource(op: Opcode, o1: RawOperand, o2: RawOperand, trash: bv32) returns (s: bv32)
      requires Ready(op, o1, o2)
      ensures s == SourceValue(op, Resolve(code, o1, vregs[..]), Resolve(code, o2, vregs[..]), Contents())
      ensures o1.t != 0 && o2.t != 0
    {
      hide Read, Load, Low, MemoryOffset, LiteralData, Val, IsData, ComputeDefined, DestValue, ReadsDest, DestWidth;
      s := GetOperandData(trash, o2);
    }

    /** ADD, SUB, MUL, DIV, MOD, AND, OR, XOR, SHL and SHR. */
    method HandleBinary(op: Opcode, o1: RawOperand, o2: RawOperand, trash: bv32)
      requires IsBinary(op) && Ready(op, o1, o2)
      modifies vregs, vmem
      ensures Contents() == old(Effect(op, o1, o2))
    {
      hide Binary, BinaryDefined, Exec, ExecDefined, SourceValue, MemoryOffset, Load, Low, Val, Write, IsBinary;
      var s := GetSource(op, o1, o2, trash);
      ghost var p1, p2 := Resolve(code, o1, vregs[..]), Resolve(code, o2, vregs[..]);
      var v := WidthOf(o1.v);
      BinaryCases(op, p1, p2, Contents());
      if o1.t == 1 {
        var reg := vregs[(code[o1.at] & 0x0F) as bv4 as nat];
        var res := Low(Binary(op, reg, s), v);
        WriteOperand(o1, v, res, trash);
      } else if o1.t == 2 {
        var offs := CalculateMemoryOffset(o1);
        var d := LoadMemory(Val(offs), v);
        var res := if op.SUB? || op.DIV? || op.MOD? then Binary(op, d, s) else Binary(op, s, d);
        WriteOperand(o1, v, res, trash);
      }
    }

    method HandleMov(o1: RawOperand, o2: RawOperand)
      requires Ready(MOV, o1, o2)
      modifies vregs, vmem
      ensures Contents() == old(Effect(MOV, o1, o2))
    {
      hide Exec, ExecDefined, SourceValue, Resolve, Val, Write;
      var s := GetSource(MOV, o1, o2, 0x37);
      MoveCases(MOV, Resolve(code, o1, vregs[..]), Resolve(code, o2, vregs[..]), Contents());
      WriteOperand(o1, WidthOf(o1.v), s, 0xD9);
    }

    method HandleNot(o1: RawOperand, o2: RawOperand)
      requires Ready(NOT, o1, o2)
      modifies vregs, vmem
      ensures Contents() == old(Effect(NOT, o1, o2))
    {
      hide Exec, ExecDefined, SourceValue, MemoryOffset, LiteralData, Val, Write, Low;
      var s := GetSource(NOT, o1, o2, 0x1D);
      MoveCases(NOT, Resolve(code, o1, vregs[..]), Resolve(code, o2, vregs[..]), Contents());
      var res := if o1.t == 1 then Low(!s, WidthOf(o1.v)) else !s;
      WriteOperand(o1, WidthOf(o1.v), res, 0xA2);
    }

    /** Exchanges halves under a mask chosen without branching. */
    method HandleSwap(o1: RawOperand, o2: RawOperand)
      requires Ready(SWAP, o1, o2)
      modifies vregs, vmem
      ensures Contents() == old(Effect(SWAP, o1, o2))
    {
      hide Exec, ExecDefined, SourceValue, Resolve, Val, Write, SwapHalves, SwapMasked, HighMask, HalfWidth;
      var s := GetSource(SWAP, o1, o2, 0xE5);
      ghost var p1, p2 := Resolve(code, o1, vregs[..]), Resolve(code, o2, vregs[..]);
      MoveCases(SWAP, p1, p2, Contents());
      ResolvedWidth(code, o2, vregs[..]);
      var v := WidthOf(o2.v);
      var mask := HighMask(v);
      var half := HalfWidth(v);
      MaskedSwap(s, v);
      var swapped := SwapMasked(s, mask, half);
      WriteOperand(o1, WidthOf(o1.v), swapped, 0xD9);
    }

    /** Reverses the bits one at a time. */
    method HandleRev(o1: RawOperand, o2: RawOperand)
      requires Ready(REV, o1, o2)
      modifies vregs, vmem
      ensures Contents() == old(Effect(REV, o1, o2))
    {
      hide Exec, ExecDefined, SourceValue, Resolve, Val, Write, ReverseBits;
      var s := GetSource(REV, o1, o2, 0x13);
      MoveCases(REV, Resolve(code, o1, vregs[..]), Resolve(code, o2, vregs[..]), Contents());
      ResolvedWidth(code, o2, vregs[..]);
      var rev := Reversed(s, WidthOf(o2.v));
      WriteOperand(o1, WidthOf(o1.v), rev, 0x52);
    }

    /** PACKHI and PACKLO: the destination is read, and the result widened, at the width of the source. */
    method HandlePack(op: Opcode, o1: RawOperand, o2: RawOperand)
      requires IsPack(op) && Ready(op, o1, o2)
      modifies vregs, vmem
      ensures Contents() == old(Effect(op, o1, o2))
    {
      hide Exec, ExecDefined, SourceValue, Resolve, Val, Write, Read, PackHigh, PackLow, PackHighMasked, PackLowMasked;
      hide HighMask, LowMask, HalfWidth, Widened;
      var s := GetSource(op, o1, o2, 0x4E);
      ghost var p1, p2 := Resolve(code, o1, vregs[..]), Resolve(code, o2, vregs[..]);
      ResolvedWidth(code, o2, vregs[..]);
      PackCases(op, p1, p2, Contents());
      var v := WidthOf(o2.v);
      Rewidened(code, o1, o2.v, vregs[..], vmem[..]);
      var d := GetOperandData(0xA3, o1.(v := o2.v));
      var half := HalfWidth(v);
      var packed;
      MaskedPack(d, s, v);
      if op.PACKHI? {
        var mask := HighMask(v);
        packed := PackHighMasked(d, s, mask, half);
      } else {
        var mask := LowMask(v);
        packed := PackLowMasked(d, s, mask, half);
      }
      if p1.Constant? {
        ConstantIgnored(p1, packed, Contents());
        PackIgnored(op, p1, p2, Contents());
      }
      WriteWidened(o1, WidthOf(o1.v), v, packed, 0x3F);
    }

    /** ROL and ROR. */
    method HandleRotate(op: Opcode, o1: RawOperand, o2: RawOperand, trash: bv32)
      requires IsRotate(op) && Ready(op, o1, o2)
      modifies vregs, vmem
      ensures Contents() == old(Effect(op, o1, o2))
    {
      hide Exec, ExecDefined, SourceValue, Resolve, Val, Write, Read, RotateLeft, RotateRight, IsRotate, Remainder;
      var s := GetSource(op, o1, o2, trash);
      ghost var p1, p2 := Resolve(code, o1, vregs[..]), Resolve(code, o2, vregs[..]);
      ResolvedWidth(code, o1, vregs[..]);
      RotateCases(op, p1, p2, Contents());
      var v := WidthOf(o1.v);
      var rot := Remainder(s, v);
      var val := GetOperandData(0x02, o1);
      RemainderIs(s, v);
      var res := if op.ROL? then RotateLeft(val, rot, v) else RotateRight(val, rot, v);
      WriteOperand(o1, v, res, 0x4B);
    }

    // ----- Control flow -----

    /** A control instruction may be executed in the current state. */
    ghost predicate Allowed(op: Opcode, o1: RawOperand, o2: RawOperand)
      reads this, vregs, vmem, callStack, callStack.frames
    {
      && Valid()
      && Resolvable(code, o1)
      && Resolvable(code, o2)
      && status == Running
      && SafeOp(op, Resolve(code, o1, vregs[..]), Resolve(code, o2, vregs[..]), Abstract())
    }

    /** The condition of a jump, call or return. */
    method Condition(o: RawOperand, trash: bv32) returns (met: bool)
      requires Valid() && Resolvable(code, o) && GuardReadable(Resolve(code, o, vregs[..]), Contents())
      ensures met == GuardMet(Resolve(code, o, vregs[..]), Abstract())
    {
      hide Read, Readable, MemoryOffset, Immediate, Meets;
      if o.t != 0 {
        ResolvedWidth(code, o, vregs[..]);
        var cond := GetOperandData(trash, o);
        met := Meets(cond, vflag);
      } else {
        met := true;
      }
    }

    method HandleCmp(o1: RawOperand, o2: RawOperand)
      requires Allowed(CMP, o1, o2)
      modifies this`vflag
      ensures Valid()
      ensures var p1, p2 := old(Resolve(code, o1, vregs[..])), old(Resolve(code, o2, vregs[..]));
              var d := old(Contents());
              Abstract() == old(Abstract()).(
                flag := Compared(old(vflag), Read(p1, p1.v, d.regs, d.mem), Read(p2, p2.v, d.regs, d.mem)))
      ensures var p1, p2 := old(Resolve(code, o1, vregs[..])), old(Resolve(code, o2, vregs[..]));
              var d := old(Contents());
              old(vflag) & FLAG_ERR == 0 ==>
                vflag == Compare(Read(p1, p1.v, d.regs, d.mem), Read(p2, p2.v, d.regs, d.mem)).Bits()
    {
      hide Read, Readable, MemoryOffset, Immediate, Val, Compare, Comparison.Bits;
      ResolvedWidth(code, o1, vregs[..]);
      ResolvedWidth(code, o2, vregs[..]);
      var x := GetOperandData(0x10, o1);
      var y := GetOperandData(0x20, o2);
      if vflag & FLAG_ERR == 0 {
        ComparedIs(vflag, x, y);
      }
      vflag :=
        if vflag & FLAG_ERR != 0 || x == y then 1 else if Val(x) > Val(y) then 4 else if Val(x) < Val(y) then 2 else 0;
    }

    /** The jump target plus one, or 0 when the condition is not met. */
    method HandleJmp(o1: RawOperand, o2: RawOperand) returns (ret: bv32)
      requires Allowed(JMP, o1, o2)
      ensures var p1, p2 := Resolve(code, o1, vregs[..]), Resolve(code, o2, vregs[..]);
              ret == if GuardMet(p2, Abstract()) then Read(p1, p1.v, vregs[..], vmem[..]) + 1 else 0
    {
      hide Read, Readable, Resolve, GuardMet, Val;
      ResolvedKind(code, o1, vregs[..]);
      var dst := GetOperandData(0xB3, o1);
      var met := Condition(o2, 0x00);
      if !met {
        return 0;
      }
      return dst + 1;
    }

    /** The address of the first empty call cell, or the end of the cells. */
    method ScanCells() returns (offs: nat)
      requires vmem.Length == MEMORY_SIZE
      ensures offs == Cell(FirstEmpty(vmem[..], 0))
    {
      offs := SHADOW_LO;
      ghost var i := 0;
      var data := ReadCell(offs);
      while data != 0 && offs < SHADOW_HI
        invariant 0 <= i <= SHADOW_CAPACITY && offs == Cell(i)
        invariant FirstEmpty(vmem[..], 0) == FirstEmpty(vmem[..], i)
        invariant i < SHADOW_CAPACITY ==> (data == 0 <==> CellEmpty(vmem[..], i))
        decreases SHADOW_CAPACITY - i
      {
        offs := offs + 3;
        i := i + 1;
        data := ReadCell(offs);
      }
    }

    method ReadCell(offs: nat) returns (data: bv32)
      requires vmem.Length == MEMORY_SIZE && offs + 2 < MEMORY_SIZE
      ensures data == 0 <==> vmem[offs] == 0 && vmem[offs + 1] == 0 && vmem[offs + 2] == 0
    {
      data := (vmem[offs] as bv32 << 16) | (vmem[offs + 1] as bv32 << 8) | vmem[offs + 2] as bv32;
    }

    method WriteCell(offs: nat, x: bv32)
      requires vmem.Length == MEMORY_SIZE && offs + 2 < MEMORY_SIZE
      modifies vmem
      ensures vmem[..] == old(vmem[..])[offs := B2(x)][offs + 1 := B1(x)][offs + 2 := B0(x)]
    {
      StoreBytes(x);
      vmem[offs] := ((x & 0xFF_0000) >> 16) as bv8;
      vmem[offs + 1] := ((x & 0xFF00) >> 8) as bv8;
      vmem[offs + 2] := (x & 0xFF) as bv8;
    }

    /** Stores the return address in the first empty cell and on the stack, or stops with an error. */
    method OpenCall(link: bv32)
      requires Valid()
      modifies this`status, vmem, callStack, callStack.frames
      ensures Valid()
      ensures Abstract() ==
              if FirstEmpty(old(vmem[..]), 0) == SHADOW_CAPACITY then old(Abstract()).(status := Exited(STACK_ERROR))
              else Opened(link, old(Abstract()))
    {
      hide FirstEmpty, B0, B1, B2;
      var offs := ScanCells();
      if offs >= SHADOW_HI - 2 {
        status := Exited(STACK_ERROR);
        return;
      }
      WriteCell(offs, link);
      var ok := callStack.Push(link);
    }

    /** Clears the last used cell and pops the return address; one more than it is returned. */
    method CloseCall() returns (ret: bv32)
      requires Valid()
      modifies vmem, callStack, callStack.frames
      ensures Valid()
      ensures Abstract() == Closed(old(Abstract()))
      ensures var top := Top(old(callStack.Contents())); ret == (if top == 0xFFFF_FFFF then HALT else top) + 1
    {
      hide FirstEmpty, SetCell, Cleared, CallStack.WellLinked, CallStack.Values;
      var returnto := callStack.Pop();
      assert returnto == Top(old(callStack.Contents())) && callStack.Contents() == Rest(old(callStack.Contents()));
      if returnto == 0xFFFF_FFFF {
        returnto := HALT;
      }
      ClearLastCell();
      return returnto + 1;
    }

    /** The cell before the first empty one becomes empty. */
    method ClearLastCell()
      requires vmem.Length == MEMORY_SIZE
      modifies vmem
      ensures vmem[..] == Cleared(old(vmem[..]))
    {
      hide FirstEmpty, B0, B1, B2;
      var end := ScanCells();
      var offs: int := end - 3;
      if offs >= SHADOW_LO {
        WriteCell(offs, 0);
      }
    }

    // ----- Local variables -----

    /** The key of the current frame. */
    method CurrentKey() returns (key: bv32)
      requires Valid()
      ensures key == BaseKey(Abstract())
    {
      key := callStack.Peek();
      if key == 0xFFFF_FFFF {
        key := 0;
      }
    }

    method HandlePut(o1: RawOperand, o2: RawOperand)
      requires Allowed(PUT, o1, o2)
      modifies vmem
      ensures Valid()
      ensures Contents() == old(PutData(Resolve(code, o1, vregs[..]), Resolve(code, o2, vregs[..]), Abstract()))
    {
      hide Read, Readable, Resolve, Val, Store, Hash, BaseKey;
      ResolvedKind(code, o1, vregs[..]);
      ResolvedKind(code, o2, vregs[..]);
      var id := GetOperandData(0x9A, o1);
      var key := CurrentKey();
      var h := FnvHash(key, id);
      var x := GetOperandData(0x20, o2);
      WriteToVmem(Val(h), x, WidthOf(o2.v), 0x89);
    }

    method HandleGet(o1: RawOperand, o2: RawOperand)
      requires Allowed(GET, o1, o2)
      modifies vregs, vmem
      ensures Valid()
      ensures Contents() == old(GetData(Resolve(code, o1, vregs[..]), Resolve(code, o2, vregs[..]), Abstract()))
    {
      hide Read, Readable, Resolve, Val, Load, Write, Hash, BaseKey;
      ResolvedKind(code, o1, vregs[..]);
      ResolvedKind(code, o2, vregs[..]);
      var id := GetOperandData(0x9A, o2);
      var key := CurrentKey();
      var h := FnvHash(key, id);
      var data := LoadMemory(Val(h), WidthOf(o2.v));
      NothingIgnored(Resolve(code, o1, vregs[..]), data, Contents());
      if o1.t != 0 {
        WriteOperand(o1, WidthOf(o1.v), data, 0x9A);
      }
    }

    // ----- Dispatch -----

    /** Runs the handler of a data instruction. */
    method DispatchData(op: Opcode, o1: RawOperand, o2: RawOperand)
      requires IsData(op) && Ready(op, o1, o2)
      modifies vregs, vmem
      ensures Contents() == old(Effect(op, o1, o2))
    {
      hide Ready, Effect;
      if op.MOV? {
        HandleMov(o1, o2);
      } else if op.NOT? {
        HandleNot(o1, o2);
      } else if op.SWAP? {
        HandleSwap(o1, o2);
      } else if op.REV? {
        HandleRev(o1, o2);
      } else if IsPack(op) {
        HandlePack(op, o1, o2);
      } else if IsRotate(op) {
        HandleRotate(op, o1, o2, 0x74);
      } else {
        HandleBinary(op, o1, o2, 0x9E);
      }
    }

    /** Goes where a handler's result leads: 0 means fall through. */
    method Proceed(ret: bv32, link: bv32)
      requires Valid()
      modifies this`vip, this`status
      ensures Valid()
      ensures Abstract() == Continue(ret, link, old(Abstract()))
    {
      vip := if ret != 0 then ret - 1 else link;
      status := if vip == HALT then Halted else Running;
    }

    /** The effect of an instruction on the whole state. */
    ghost function Outcome(op: Opcode, o1: RawOperand, o2: RawOperand, link: bv32): MState
      requires Allowed(op, o1, o2)
      reads this, vregs, vmem, callStack, callStack.frames
    {
      Perform(op, Resolve(code, o1, vregs[..]), Resolve(code, o2, vregs[..]), link, Abstract())
    }

    method DispatchCall(o1: RawOperand, o2: RawOperand, link: bv32)
      requires Allowed(CALL, o1, o2)
      modifies this, vmem, callStack, callStack.frames
      ensures Valid()
      ensures Abstract() == old(Outcome(CALL, o1, o2, link))
    {
      hide Read, Readable, Resolve, GuardMet, Val, FirstEmpty, Call, Continue, CallStack.WellLinked, CallStack.Values;
      ResolvedKind(code, o1, vregs[..]);
      var dst := GetOperandData(0x56, o1);
      var met := Condition(o2, 0x70);
      if !met {
        Proceed(0, link);
        return;
      }
      EnterCall(dst, link);
    }

    method EnterCall(dst: bv32, link: bv32)
      requires Valid() && status == Running
      modifies this, vmem, callStack, callStack.frames
      ensures Valid()
      ensures Abstract() == Call(dst, link, old(Abstract()))
    {
      hide FirstEmpty, Opened, Continue, CallStack.WellLinked, CallStack.Values;
      OpenCall(link);
      if FirstEmpty(old(vmem[..]), 0) < SHADOW_CAPACITY {
        OpenedRuns(link, old(Abstract()));
      }
      if status == Running {
        Proceed(dst + 1, link);
      }
    }

    method DispatchRet(o1: RawOperand, o2: RawOperand, link: bv32)
      requires Allowed(RET, o1, o2)
      modifies this, vmem, callStack, callStack.frames
      ensures Valid()
      ensures Abstract() == old(Outcome(RET, o1, o2, link))
    {
      hide Read, Readable, Resolve, GuardMet, Val, FirstEmpty, Closed, Continue, CallStack.WellLinked, CallStack.Values;
      var met := Condition(o1, 0x66);
      if !met {
        Proceed(0, link);
        return;
      }
      var ret := CloseCall();
      Proceed(ret, link);
    }

    method HandleExit(o1: RawOperand, o2: RawOperand)
      requires Allowed(EXIT, o1, o2)
      modifies this`status
      ensures Valid()
      ensures Abstract() == old(Outcome(EXIT, o1, o2, 0))
    {
      hide Read, Readable, Resolve, Val;
      ResolvedKind(code, o1, vregs[..]);
      var exit: bv32 := 0;
      if o1.t != 0 {
        exit := GetOperandData(0x8D, o1);
      }
      status := Exited(exit);
    }

    /** Hands an instruction to its handler and moves on. */
    method Dispatch(op: Opcode, o1: RawOperand, o2: RawOperand, link: bv32)
      requires Allowed(op, o1, o2)
      modifies this, vregs, vmem, callStack, callStack.frames
      ensures Valid()
      ensures Abstract() == old(Outcome(op, o1, o2, link))
    {
      hide Read, Readable, Resolve, GuardMet, Val, Call, Return, Continue, Exec, ExecDefined, PutData, GetData;
      hide Compared;
      hide CallStack.WellLinked, CallStack.Values;
      if op.JMP? {
        var ret := HandleJmp(o1, o2);
        Proceed(ret, link);
      } else if op.CALL? {
        DispatchCall(o1, o2, link);
      } else if op.RET? {
        DispatchRet(o1, o2, link);
      } else if op.EXIT? {
        HandleExit(o1, o2);
      } else if op.CMP? {
        HandleCmp(o1, o2);
        Proceed(0, link);
      } else if op.PUT? {
        HandlePut(o1, o2);
        Proceed(0, link);
      } else if op.GET? {
        HandleGet(o1, o2);
        Proceed(0, link);
      } else {
        DefinedIsData(op, Resolve(code, o1, vregs[..]), Resolve(code, o2, vregs[..]), Contents());
        DispatchData(op, o1, o2);
        Proceed(0, link);
      }
    }

    /** One round of the emulation loop: fetch, decode, dispatch. */
    method StepOnce()
      requires Valid() && Safe(code, Abstract())
      modifies this, vregs, vmem, callStack, callStack.frames
      ensures Valid()
      ensures Abstract() == Machine.Step(code, old(Abstract()))
    {
      hide SafeOp, Perform, Select, Resolve, Resolvable, Fetch, DecodeOpcode, Val, CallStack.WellLinked;
      hide CallStack.Values;
      var at := Val(vip);
      var header := Fetch(code[at], code[at + 1], code[at + 2]);
      var d := Decode(at, header);
      var link := ReadLink(code, LinkAt(at, d));
      Dispatch(Select(d.opcode), d.op1, d.op2, link);
    }

    /** The emulation loop, stopped after at most `n` instructions. */
    method Emulate(n: nat)
      requires Valid() && Machine.CanRun(code, n, Abstract())
      modifies this, vregs, vmem, callStack, callStack.frames
      ensures Valid()
      ensures Abstract() == Machine.Run(code, n, old(Abstract()))
    {
      hide Safe, Machine.Step, Valid;
      var k := 0;
      while k < n && status == Running
        invariant k <= n && Valid()
        invariant Machine.CanRun(code, n - k, Abstract())
        invariant Machine.Run(code, n - k, Abstract()) == Machine.Run(code, n, old(Abstract()))
      {
        StepOnce();
        k := k + 1;
      }
    }
  }

  lemma DefinedIsData(op: Opcode, p1: Place, p2: Place, st: Data)
    requires ExecDefined(op, p1, p2, st, 0)
    ensures IsData(op)
  {
  }

  lemma OpenedRuns(link: bv32, m: MState)
    requires |m.data.mem| == MEMORY_SIZE && FirstEmpty(m.data.mem, 0) < SHADOW_CAPACITY
    ensures Opened(link, m).status == m.status
  {
  }

  /** The hash of a frame key and a variable number, byte by byte of the key. */
  method FnvHash(base: bv32, id: bv32) returns (r: bv32)
    ensures r == Hash(base, id)
  {
    hide Mul, Val, Shifted;
    var h: bv32 := 0x4571_CBE2;
    for i := 0 to 4
      invariant h == KeyHash(base, i)
    {
      h := h ^ Shifted(base, i);
      h := Mul(h, 0x346_6875);
    }
    h := h ^ id;
    h := Mul(h, 0x857_C4B2);
    return h & 0xFFFF;
  }

  lemma ResolvedKind(code: Code, o: RawOperand, regs: Registers)
    requires Resolvable(code, o)
    ensures Resolve(code, o, regs).Nothing? <==> o.t == 0
    ensures o.t != 0 ==> Resolve(code, o, regs).v == WidthOf(o.v)
  {
    hide MemoryOffset, Immediate;
  }

  // ----- What each data handler computes -----

  function HighMask(v: Width): bv32 {
    match v
    case Byte => 0xF0
    case Short => 0xFF00
    case Int => 0xFFFF_0000
  }

  function LowMask(v: Width): bv32 {
    match v
    case Byte => 0x0F
    case Short => 0xFF
    case Int => 0xFFFF
  }

  function HalfWidth(v: Width): (h: bv32)
    ensures h <= 16
  {
    match v
    case Byte => 4
    case Short => 8
    case Int => 16
  }

  /** The REV loop. */
  method Reversed(x: bv32, v: Width) returns (rev: bv32)
    ensures rev == ReverseBits(x, v)
  {
    hide ReverseBits;
    var width := 8 * v.Bytes();
    var src := x;
    rev := 0;
    for i := 0 to width
      invariant ShiftBits(rev, src, width - i) == ShiftBits(0, x, width)
    {
      rev, src := Appended(rev, src), Halved(src);
    }
    ShiftReverses(x, v);
  }

  lemma ResolvedWidth(code: Code, o: RawOperand, regs: Registers)
    requires Resolvable(code, o) && o.t != 0
    ensures Resolve(code, o, regs) != Nothing && Resolve(code, o, regs).v == WidthOf(o.v)
  {
    hide MemoryOffset, Immediate;
  }

  /** Changing the width of an operand changes neither its register nor its address. */
  lemma Rewidened(code: Code, o: RawOperand, w: bv2, regs: Registers, mem: Memory)
    requires Resolvable(code, o) && o.t != 0 && w != 0
    requires Readable(Resolve(code, o, regs), WidthOf(w), 0, |mem|)
    ensures Resolvable(code, o.(v := w))
    ensures var p, q := Resolve(code, o, regs), Resolve(code, o.(v := w), regs);
            && Readable(q, WidthOf(w), 0, |mem|)
            && (p.Constant? <==> q.Constant?)
            && (!p.Constant? ==> Read(q, WidthOf(w), regs, mem) == Read(p, WidthOf(w), regs, mem))
  {
    hide Val, Load, Low, LiteralData, LowBy, Add;
  }

  /** The masked exchange of the SWAP handler. */
  function SwapMasked(s: bv32, mask: bv32, half: bv32): bv32
    requires half <= 16
  {
    ((s & mask) >> half) | ((s & (mask >> half)) << half)
  }

  function PackHighMasked(d: bv32, s: bv32, mask: bv32, half: bv32): bv32
    requires half <= 16
  {
    (d & mask) | ((s & mask) >> half)
  }

  function PackLowMasked(d: bv32, s: bv32, mask: bv32, half: bv32): bv32
    requires half <= 16
  {
    (d & mask) | ((s & mask) << half)
  }

  lemma MaskedSwap(s: bv32, v: Width)
    ensures SwapMasked(s, HighMask(v), HalfWidth(v)) == SwapHalves(s, v)
  {
    match v
    case Byte => MaskedSwap8(s);
    case Short => MaskedSwap16(s);
    case Int => MaskedSwap32(s);
    hide SwapMasked, SwapHalves;
  }

  lemma MaskedSwap8(s: bv32)
    ensures SwapMasked(s, 0xF0, 4) == SwapHalves(s, Byte)
  {
  }

  lemma MaskedSwap16(s: bv32)
    ensures SwapMasked(s, 0xFF00, 8) == SwapHalves(s, Short)
  {
  }

  lemma MaskedSwap32(s: bv32)
    ensures SwapMasked(s, 0xFFFF_0000, 16) == SwapHalves(s, Int)
  {
  }

  lemma MaskedPack(d: bv32, s: bv32, v: Width)
    ensures PackHighMasked(d, s, HighMask(v), HalfWidth(v)) == PackHigh(d, s, v)
    ensures PackLowMasked(d, s, LowMask(v), HalfWidth(v)) == PackLow(d, s, v)
  {
    match v
    case Byte => MaskedPack8(d, s);
    case Short => MaskedPack16(d, s);
    case Int => MaskedPack32(d, s);
    hide PackHighMasked, PackLowMasked, PackHigh, PackLow;
  }

  lemma MaskedPack8(d: bv32, s: bv32)
    ensures PackHighMasked(d, s, 0xF0, 4) == PackHigh(d, s, Byte) && PackLowMasked(d, s, 0x0F, 4) == PackLow(d, s, Byte)
  {
  }

  lemma MaskedPack16(d: bv32, s: bv32)
    ensures PackHighMasked(d, s, 0xFF00, 8) == PackHigh(d, s, Short)
    ensures PackLowMasked(d, s, 0xFF, 8) == PackLow(d, s, Short)
  {
  }

  lemma MaskedPack32(d: bv32, s: bv32)
    ensures PackHighMasked(d, s, 0xFFFF_0000, 16) == PackHigh(d, s, Int)
    ensures PackLowMasked(d, s, 0xFFFF, 16) == PackLow(d, s, Int)
  {
  }

  /** The rotation amount modulo the width in bits. */
  function Remainder(s: bv32, v: Width): bv32 {
    match v
    case Byte => s % 8
    case Short => s % 16
    case Int => s % 32
  }

  lemma RemainderIs(s: bv32, v: Width)
    ensures Remainder(s, v) == RotateBy(s, v)
  {
  }

  lemma StoreBytes(x: bv32)
    ensures ((x & 0xFF00_0000) >> 24) as bv8 == B3(x) && ((x & 0xFF_0000) >> 16) as bv8 == B2(x)
    ensures ((x & 0xFF00) >> 8) as bv8 == B1(x) && (x & 0xFF) as bv8 == B0(x)
  {
  }
}
