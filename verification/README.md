# WeeperVM: the compiler, the machine, and three virtual programs

WeeperVM is a virtual architecture built to be hard to read. A compiler turns assembly into byte code:
every instruction gets one of four opcode ciphers, all instructions but the first are shuffled, the
original order survives only as an XORed 3-byte pointer at the end of each instruction, and labels become
byte offsets. A C interpreter undoes all of this while it runs, with flattened stores, junk bits ORed into
operands, a call stack kept in two places and local variables kept in a hash-addressed dictionary.

This project models both sides and proves that they fit together: **for every program, every shuffle and
every choice of ciphers, any number of machine steps does what the same number of steps of the in-order
source program does** (`Theorems.CompilerCorrect`), and the C-style interpreter class does what the machine
does (`Vm.VirtualMachine.Emulate`). `Pipeline.BuildAndRun` puts the pieces end to end: assemble, append to
the executable, load, emulate. On top of that, three bodies of virtual code are proved correct as programs:
the Mersenne Twister, the hasher's update and the constraints lifted from the constraint generator.

## How the files fit

| layer | files |
|---|---|
| words and operations | `Words`, `Alu`, `AluCases`, `BitReversal`, `Forms`, `Packing`, `Division`, `Rotation`, `Effects` |
| source programs, in order, program counter an index | `Program` |
| encoding and assembly | `Encoding`, `Format`, `Layout`, `Assembler`, `Published`, `PublishedPass` |
| the machine as a function on values | `Machine`, `Decoding` |
| the interpreter as classes over arrays | `CallStack`, `Vm` |
| compiler correctness | `Relation`, `Simulation`, `Theorems`, `Calls`, `DeepCalls` |
| machine runs whatever the data | `Control`, `Cells`, `Guards`, `Frames`, `LocalHash`, `Exits` |
| the image at the end of the executable, and everything end to end | `Trailer`, `Pipeline` |
| source text, straight-line code and runs inside a program | `Texts`, `Blocks`, `Words32`, `Symbolic`, `Reaching` |
| lifted constraints | `Lifter`, `Validation` |
| Mersenne Twister | `Twister`, `MersenneCode`, `TwisterLoops`, `TwisterRand`, `TwisterCalls`, `TwisterInit`, `TwisterProgram` |
| hasher | `HashRound`, `HashUpdate` |

A source state has a program counter that is an instruction index, registers, memory from 0x20000 up, the
outcome of the last comparison, the return indices, and a dictionary from (frame, id) to a 4-byte local
variable. `Program.Defined` says what a program must respect at its current instruction: labels exist, data
operands lie in program memory, no undefined C arithmetic. A machine state has bytes. `Relation.Matches`
relates the two; the local variables are related under `Relation.NoClash`, which says that no two of the
local variables in use fall on overlapping bytes of this image. The condition is sufficient, not necessary:
variables that overlap and are never both in use do no harm, and `Frames.LocalSurvives` asks of a variable
only that its own bytes are not written. Which variables of one frame share a place is decided exactly by
`LocalHash.HashSeparates`. Runs that `Program.Defined` excludes, among them computed jumps and
data below 0x20000, are not compared with a source run; control flow, both call stacks, calls, conditions and
local variables are covered on the machine itself (`Control`, `Cells`, `Guards`, `Frames`).

Runs are counted in steps because `emulate` need not end. Integer arithmetic is modulo 2^32 by explicit
conversion; bit operations are on 32-bit vectors.

Both sides of the system are built from the same tables and constants, so agreement alone would not say which
ones. Numbers, formats, operations and programs are therefore also stated apart from the definitions both sides
use, by laws and by literals: `Format`, `Division`, `Rotation`, `Effects`, `LocalHash` and `Exits`, the last lemmas
of `Cells`, and in `Twister` and `HashRound` what the recurrence and the round do bit by bit and byte by byte.

## What the code does that its description does not say

* **Label references.** The compiler emits the placeholder 11 22 33 (`Compiler/WeeperVM_compile.py:345`) but
  looks for B0 00 B5 when it resolves labels (`:459`). `Assembler` models the evident intention, overwriting
  the operand bytes of every recorded reference. `Published` and `PublishedPass` model the search as written
  and prove exactly when it has the intended effect, for one replacement and for the whole pass: when every
  label referred to starts at 0x112233 and no instruction that refers to one contains B0 00 B5.
* **The last fallthrough pointer.** The assignment at `:422` misspells its variable, so the last source
  instruction gets a leftover pointer. The assembler model computes the same leftover, and `Program.Defined`
  asks that control never falls off the last instruction.
* **Deep calls.** The array-backed stack holds 128 returns; `handle_call` ignores a failed push
  (`VM/src/emulate.c:687`). `Calls.CallReturns` proves exactly when a call returns to its own successor,
  whatever its callee does, and `DeepCalls.WrongReturn` gives a program whose 129th open call does not, on
  the machine and under any shuffle. `handle_call` exits with 0xEF32 only when 21845 cells of the memory
  copy are full; source programs have both behaviours.
* **Long images.** The compiler only warns when the code is longer than 0xFFFFFF bytes (`:493`), although
  offsets are 24 bits and 0xFFFFFF is the halt address. `Layout.IsImage` includes the bound.
* **Register writes** OR the untruncated result into the register at byte and short width, and rotations at
  those widths keep bits above the width. The operations are modelled with these bits; `Packing.RegisterKeeps`
  proves exactly when a write leaves the bits above its width alone, and `Packing.RegisterLeaks` gives an
  instruction that does not.
* **PACKHI and PACKLO into memory.** Both handlers overwrite the destination's width by the source's
  (`VM/src/emulate.c:1078`, `:1125`), widen the result at that width and store it at the real one. A
  destination wider than the source therefore receives old bytes of memory: `PACKHI [0x30000].s R1.b` leaves
  the byte at 0x30001 in 0x30000 (`Packing.PackLeaks`). The model does the same, and `Packing.PackStores`
  proves that the result arrives alone exactly when the bytes in between are zero.
* **Local variables** are hashed with an even multiplier (`VM/src/emulate.c:240`), so bit 15 of a variable's number
  is lost along with the bits above it: two numbers of one frame share their place exactly when their low 15 bits
  agree (`LocalHash.HashSeparates`), and a program that uses both is outside `NoClash` in every image
  (`LocalHash.AlwaysClash`).
* **Shifts of a memory destination** take the value from the source and the amount from memory, and **GET**
  reads with the width of the id. Both are modelled as they are.

## Model

| member | source | states |
|---|---|---|
| Pipeline.BuildAndRun | VM/WeeperVM.c:87-102 | for a program that keeps to `Program.Defined` and whose local variables do not collide: lines assembled under any shuffle and ciphers, appended to an ELF file, loaded and emulated for n instructions end in a state observably equal to n steps of the source program; every failure is explained by the input |
| Theorems.CompilerCorrect | Compiler/WeeperVM_compile.py:397-460 | from power-on, for every program, shuffle and cipher choice whose image fits 24-bit offsets and keeps used local variables apart, and every n the source program can run: n machine steps are possible and give the registers, program memory, flags, outcome, position and pending returns of n source steps |
| Simulation.RunCorrect | VM/src/emulate.c:1674-1692 | from any related pair of states, n steps on both sides keep the relation, including call cells and local variables |
| Simulation.StepCorrect | VM/src/emulate.c:1521-1614 | one machine step from a state that represents a source state is safe and represents the next source state |
| Simulation.SeesInstruction | VM/src/emulate.c:1622-1671 | at the start of source instruction i the machine sees its opcode, its operands with labels replaced by start offsets, and a pointer to the start of instruction i + 1 |
| Simulation.LinkRoundTrip | VM/src/emulate.c:1612-1614 | the pointer bytes written by the compiler, read as dispatch reads them, give back the offset |
| Theorems.ShuffleIndependent | README.md:36-38 | two compilations of one program under different shuffles and ciphers cannot be told apart by registers, flags, program memory, call depth or outcome, when neither image makes used local variables collide |
| Control.ControlStaysInCode | VM/src/emulate.c:1681-1688 | in every machine run of an image whose jumps and calls go to labels and whose last instruction does not fall through, whatever the program does to its data, locals and call cells, the position is the start of an instruction or exactly 0xFFFFFF, and no instruction starts there |
| Control.StepStaysInCode | VM/src/emulate.c:640-727 | one step keeps the position in the code and every address on the stack the start of an instruction after a call |
| Theorems.SourceStaysInCode | VM/src/emulate.c:1681-1688 | under a defined source run the same holds without any condition on the program's text |
| Theorems.FlagInvariant | VM/src/emulate.c:624-637 | on any code whatever, at most one of EQ, LT, GT is ever set and ERR never |
| Guards.GuardsObey | VM/src/emulate.c:624-727 | on any code, in any run from power-on: after a comparison of x with y and any instructions that compare nothing, a jump, call or return under a condition is made exactly when its unsigned relation holds between x and y |
| Guards.CompiledGuardsObey | Compiler/WeeperVM_compile.py:206-209 | in any run of any image from power-on: after a comparison of x with y and instructions that compare nothing, a compiled jump, call or return under a condition goes to its label or back to its caller exactly when the condition's unsigned relation holds between x and y, and to its source successor otherwise |
| Guards.GuardedInImage | VM/src/emulate.c:1622-1668 | a condition name compiled with a jump, call or return at any place of the image is decoded as the guard of that instruction |
| Theorems.ConditionMeaning | Compiler/WeeperVM_compile.py:61-65 | each condition name shares a bit with the outcome of a comparison exactly when its unsigned relation holds |
| Cells.CallStacksAgree | VM/src/emulate.c:656-727 | in every machine run that makes no call with 128 open and writes to 0x10000-0x1FFFF by calls and returns only, the linked stack and the zero-terminated cells hold the same addresses, each the start of an instruction after a call, and the scan finds as many cells as calls are open, so the overflow exit is not taken |
| Cells.CallStores | VM/src/emulate.c:673-692 | a call writes its return address, highest byte first, into the first unused of the 21845 cells from 0x10000 and stacks it below 128; with all cells used it exits with 0xEF32 |
| Cells.ReturnClears | VM/src/emulate.c:694-727 | a return clears the last used cell, pops, and goes to the popped address, or to 0xFFFFFF and halts |
| Exits.SourceExits | Compiler/code_commented.weep:290 | EXIT ends a source program with the value of its operand, 0 without one, and changes nothing else |
| Exits.MachineExits | VM/src/emulate.c:730-733 | an EXIT compiled at any place of any image ends the machine with that value: nothing is 0, a literal itself, a register its low bits, memory the bytes at its address |
| Calls.SourceStacksAgree | VM/src/emulate.c:656-727 | under a defined source run of depth at most 128 both hold the returns the source program has pending |
| Calls.CallReturns | VM/src/emulate.c:656-727 | for any callee that closes no call but its own, however long it runs, the call comes back behind itself exactly when the stack had room or its top was already that return address |
| Frames.CallReturns | VM/src/emulate.c:656-727 | on any code, with 24-bit addresses on the stack: a call with a free cell, followed by any run that closes no call but those it opened and by a return, comes back to the call's own pointer exactly when the stack had room or that address was already on top |
| Calls.MachineCallReturns | VM/src/emulate.c:656-727 | under a defined source run the same in terms of source instructions: the machine stands behind the call exactly then |
| DeepCalls.WrongReturn | VM/src/emulate.c:686-690 | a program, run from power-on under any shuffle, reaches a call with 128 calls open that comes back to itself instead of behind itself |
| Frames.LocalSurvives | VM/src/emulate.c:317-401 | on any code: after a full-width PUT id x, any run that keeps the call open, writes none of that variable's four bytes and comes back to the same depth at a full-width GET id loads x, whether or not other variables collide |
| Calls.SourceLocalSurvives | VM/src/emulate.c:317-401 | under a defined source run with used variables apart, it is enough that no PUT names that key |
| Assembler.Assemble | Compiler/WeeperVM_compile.py:264-460 | success gives a shuffled, linked, resolved image of the parsed program with unique labels; every error is justified by the input |
| Assembler.FirstPass | Compiler/WeeperVM_compile.py:288-393 | labels are the indices of the next instructions, all label references and only those are recorded, every instruction is encoded with placeholders |
| Assembler.CorrectFallthroughs | Compiler/WeeperVM_compile.py:409-427 | rewriting pointers in place leaves every instruction's body and size alone and gives each instruction the start of its source successor |
| Assembler.ResolveLabels | Compiler/WeeperVM_compile.py:429-460 | overwriting references in place leaves everything else alone and gives every label operand the start of its target |
| Assembler.OffsetsStable | Compiler/WeeperVM_compile.py:409-460 | any two stages of the image have the same instruction offsets, so offsets computed during a pass stay true |
| Assembler.PatchBody | Compiler/WeeperVM_compile.py:450-459 | overwriting the three bytes of a label operand yields the encoding of the instruction with that label resolved |
| PublishedPass.ResolveAsPublished | Compiler/WeeperVM_compile.py:448-460 | the whole pass as published, in whatever order the references come, yields the intended image if and only if every label referred to starts at 0x112233 and no referring instruction contains the pattern |
| Published.PublishedIntended | Compiler/WeeperVM_compile.py:459 | one replacement resolves its label as intended if and only if the offset equals the placeholder and the pattern occurs nowhere in the instruction |
| Published.LabelsMissed | Compiler/WeeperVM_compile.py:459 | whatever the offset, the search as published leaves every label operand at the placeholder |
| Layout.FlattenAt | Compiler/WeeperVM_compile.py:453-454 | each instruction's bytes stand in the image at the sum of the lengths before it |
| Layout.StartBounds | Compiler/WeeperVM_compile.py:414-425 | the first source instruction starts at 0, all others later, all below the halt address |
| Layout.StartInjective | Compiler/WeeperVM_compile.py:414-425 | different source instructions start at different offsets |
| Encoding.BodySize | Compiler/WeeperVM_compile.py:360-393 | the length of an encoded instruction depends neither on its cipher nor on what its labels resolve to |
| Decoding.DecodeRoundTrip | VM/src/emulate.c:1622-1671 | fetch and decode of an encoded instruction recover opcode, both operands and the place of the pointer, for every cipher choice |
| Decoding.FetchHeader | VM/src/emulate.c:1657-1671 | the three header bytes unpack to the fields that were packed |
| Decoding.DecodeCipher | Compiler/WeeperVM_compile.py:326-331 | each of the four ciphers is undone by the decoding of its own selector |
| Decoding.SelectNumber | VM/src/emulate.c:1521-1610 | the tree of comparisons reaches the handler of exactly the encoded opcode, whose number is the published one by `Format.NumberIs` |
| Format.NumberIs | Compiler/WeeperVM_compile.py:12-43 | the 28 operations, listed in the published order, are numbered by their place |
| Format.SelectIs | VM/src/emulate.c:1521-1605 | for each of the 28 numbers the tree of comparisons reaches the operation at that place of the list |
| Format.RegisterBytes | Compiler/WeeperVM_compile.py:326-393 | ADD R0 R1 under the first cipher is 03 83 84 04 05 |
| Format.LiteralBytes | Compiler/WeeperVM_compile.py:202-244 | MOV R0.b 0x1234 under the second cipher is AA 8F AA 04 12 34: two bytes for a two-byte literal |
| Format.AbsoluteBytes | Compiler/WeeperVM_compile.py:191-200 | MOV [0x30001].s R5 under the third cipher is 4D 73 96 00 03 00 01 09 |
| Format.BasedBytes | Compiler/WeeperVM_compile.py:126-200 | XOR [F0.s+0x12] R0 under the fourth cipher is FD BB 8F AA 12 04 |
| Format.IndexedBytes | Compiler/WeeperVM_compile.py:126-200 | SUB R1 [F0+R0.b] under the first cipher is 8B 85 B4 05 F6 90 |
| Format.JumpBytes | Compiler/WeeperVM_compile.py:341-346 | JMP under LT to a label at 0x456 under the third cipher is 67 D6 99 00 04 56 02 |
| Format.ConditionBytes | Compiler/WeeperVM_compile.py:61-65 | the byte of each of the seven conditions |
| Format.PointerBytes | Compiler/WeeperVM_compile.py:420-427 | the pointer to offset 0x10 is 16 26 DC |
| Decoding.ResolveRoundTrip | Compiler/WeeperVM_compile.py:90-244 | every packed operand resolves to the place or value it was written for, for every register state |
| Decoding.BasedRoundTrip | VM/src/emulate.c:60-83 | [reg] and [reg+imm] decode to the truncated base plus the displacement modulo 2^32, and their decoded length is never 1, the case that leaves the displacement unset |
| Decoding.IndexedRoundTrip | VM/src/emulate.c:46-58 | [reg+reg] decodes to the sum of both truncated registers modulo 2^32 |
| Decoding.AbsoluteRoundTrip | Compiler/WeeperVM_compile.py:191-200 | [imm] decodes to its address |
| Decoding.ImmediateRoundTrip | VM/src/emulate.c:183-198 | an encoded immediate is read back in full whatever its length |
| Vm.VirtualMachine.Emulate | VM/src/emulate.c:1674-1692 | n turns of the interpreter loop over its arrays equal n steps of the machine function |
| Vm.VirtualMachine.StepOnce | VM/src/emulate.c:1681-1687 | one fetch, decode and dispatch updates registers, memory, flag, stack and position exactly as one machine step |
| Vm.VirtualMachine.constructor | VM/src/emulate.c:1676-1678 | a fresh context has zero registers, no flag and an empty stack |
| Vm.VirtualMachine.Dispatch | VM/src/emulate.c:1521-1614 | the handler chosen for an opcode has exactly that opcode's effect |
| Vm.VirtualMachine.WriteToVmem | VM/src/emulate.c:101-156 | for every width and junk value the flattened store ends having written exactly the low bits big-endian and nothing else |
| Vm.WidenedStore | VM/src/emulate.c:24-29 | widened at the width of its own store, a value reaches memory alone |
| Vm.VirtualMachine.WriteWidened | VM/src/emulate.c:1094-1114 | a result widened at one width and stored at another arrives with the bytes of memory the widening joins to it |
| Packing.PackStores | VM/src/emulate.c:1075-1165 | PACKHI and PACKLO into memory store their result alone if and only if the bytes between the source's width and the destination's are zero |
| Packing.PackLeaks | VM/src/emulate.c:1105-1110 | PACKHI of a byte into a short at 0x30000 leaves the old byte of 0x30001 in 0x30000 |
| Packing.WidenedAlone | VM/src/emulate.c:24-29 | a value of one width, widened there and stored at any width, arrives alone if and only if the bytes joined to it are zero |
| Packing.RegisterKeeps | VM/src/emulate.c:250-257 | a data instruction leaves the low bits of its result in a destination register and keeps the bits above the width if and only if the result has no bit there that the register lacks |
| Packing.RegisterLeaks | VM/src/emulate.c:250-257 | MOV R0.b R1.s with 0x100 in R1 changes the second byte of R0 |
| Vm.VirtualMachine.CalculateMemoryOffset | VM/src/emulate.c:42-83 | the address is that of the machine function, for all three operand forms |
| Vm.VirtualMachine.GetOperandData | VM/src/emulate.c:174-225 | the operand's value, whatever junk hides its type and width |
| Vm.VirtualMachine.HandleBinary | VM/src/emulate.c:409-622 | the ten arithmetic and bitwise handlers have their operation's effect on register and memory destinations; for DIV and MOD that effect is the division of `Division.RegisterDivides` and `Division.MemoryDivides` |
| Division.BinaryDivides | VM/src/emulate.c:535-622 | whatever the operands, divisor not zero: the value is the quotient times the divisor plus the remainder, and the remainder is below the divisor |
| Division.RegisterDivides | VM/src/emulate.c:535-622 | DIV and MOD of a register leave, truncated to the register's width, the quotient and the remainder of the whole register by the source |
| Division.MemoryDivides | VM/src/emulate.c:535-622 | DIV and MOD of memory divide the value read at its width and store the low bits of quotient and remainder |
| Effects.MoveLeaves | VM/src/emulate.c:245-273 | MOV, NOT, SWAP and REV leave, at every source width, the value, its complement, its halves exchanged byte by byte, its bits in opposite order bit by bit |
| Effects.PackLeaves | VM/src/emulate.c:1075-1165 | PACKHI and PACKLO put the upper half of the source below, and the lower half above, byte by byte |
| Effects.RotateLeaves | VM/src/emulate.c:1169-1252 | ROL rotates left and ROR right, by the amount in force at 32 bits |
| Effects.MemorySamples | VM/src/emulate.c:101-213 | words are stored and loaded with the most significant byte first |
| Rotation.AmountIs | VM/src/emulate.c:1169-1252 | the amount in force is the operand's value modulo the number of bits of the width |
| Rotation.LeftOnce | VM/src/emulate.c:1169-1208 | a 32-bit rotation by one doubles and brings the highest bit in below |
| Rotation.LeftOnward | VM/src/emulate.c:1169-1208 | a 32-bit rotation by r + 1 is one by r followed by one by 1 |
| Rotation.NarrowLeft | VM/src/emulate.c:1169-1208 | at 8 and 16 bits the low bits are those of the 32-bit rotation of the value written side by side with itself |
| Rotation.RightUndoesLeft | VM/src/emulate.c:1169-1252 | ROR undoes ROL by the same amount at every width |
| Vm.VirtualMachine.HandleMov | VM/src/emulate.c:245-273 | a register keeps the bits above its width and has the source ORed in, memory gets the low bits, a constant destination is ignored, nothing else changes |
| Vm.VirtualMachine.HandleNot | VM/src/emulate.c:951-989 | a register gets the complement truncated to its own width, memory the low bits of the whole complement, nothing else changes |
| Vm.VirtualMachine.HandleSwap | VM/src/emulate.c:992-1031 | the mask arithmetic of SWAP exchanges the halves at each width |
| Vm.VirtualMachine.HandleRev | VM/src/emulate.c:1034-1072 | the bit loop of REV reverses the bits at each width |
| Vm.VirtualMachine.HandlePack | VM/src/emulate.c:1075-1165 | PACKHI and PACKLO put the source's half into the other half of the destination, read and widened at the source's width and stored at its own |
| Vm.VirtualMachine.HandleRotate | VM/src/emulate.c:1169-1252 | ROL and ROR rotate by the amount modulo the width; below 32 bits the shifted-out bits stay in the result, as in the C code |
| Vm.VirtualMachine.HandleCmp | VM/src/emulate.c:624-637 | CMP computes the nested conditional of the C code and changes nothing else; without the error flag that is the bit of the unsigned comparison |
| Vm.VirtualMachine.HandlePut | VM/src/emulate.c:317-345 | PUT stores under the hash of the top return address and the id |
| Vm.VirtualMachine.HandleGet | VM/src/emulate.c:348-401 | GET loads from the same place at the id's width |
| Vm.VirtualMachine.DispatchCall | VM/src/emulate.c:656-692 | a taken call pushes the return address, fills the first empty cell and moves to the target; an untaken one falls through |
| Vm.VirtualMachine.DispatchRet | VM/src/emulate.c:694-727 | a taken return pops the stack, clears the last full cell and moves to the popped address, or to the halt address from an empty stack |
| Vm.VirtualMachine.ScanCells | VM/src/emulate.c:673-681 | the scan over the call cells stops at the first empty one |
| Vm.FnvHash | VM/src/emulate.c:233-242 | the hash loop computes the key the machine function uses; which keys those are, `LocalHash.HashSeparates` and the literal places state |
| LocalHash.HashSeparates | VM/src/emulate.c:233-242 | for all frame keys and numbers i and j, both variables have the same place if and only if i and j agree in their low 15 bits |
| LocalHash.FirstPlace | VM/src/emulate.c:233-242 | variable 0 of the outermost frame lies at 0x0DE4 |
| LocalHash.SecondPlace | VM/src/emulate.c:233-242 | variable 1 of the outermost frame lies at 0xD296 |
| LocalHash.InnerPlace | VM/src/emulate.c:233-242 | variable 1 of a frame that returns to 0x123456 lies at 0x8936 |
| LocalHash.OutermostNoClash | VM/src/emulate.c:317-401 | in every image the variables 0 and 1 of the outermost frame keep apart from each other and from the call cells |
| LocalHash.AlwaysClash | VM/src/emulate.c:233-242 | two variables of one frame whose numbers agree in the low 15 bits collide in every image |
| Vm.Reversed | VM/src/emulate.c:1034-1072 | the bit loop equals byte-wise reversal |
| BitReversal.ShiftReverses | Constraint_Generator/validate.py:43-48 | as many shift rounds as the width has bits reverse the low bits, for the generator and the machine alike |
| CallStack.Stack.constructor | VM/src/stack.c:6-15 | a new stack is empty, its free list links all 128 slots |
| CallStack.Stack.Push | VM/src/stack.c:18-31 | a push appends its value, and fails, changing nothing, exactly at 128 values |
| CallStack.Stack.Pop | VM/src/stack.c:34-49 | a pop removes and returns the newest value; for 24-bit values the all-ones word means empty and nothing else |
| CallStack.Stack.Peek | VM/src/stack.c:52-56 | a peek returns the newest value; for 24-bit values the all-ones word means empty and nothing else |
| CallStack.PushKeeps | VM/src/stack.c:18-31 | a push keeps the chains from top and free acyclic, disjoint and covering all slots |
| CallStack.PopKeeps | VM/src/stack.c:34-49 | a pop keeps them so |
| Forms.FormsAgree | VM/src/emulate.c:409-532 | from equal low bits, the register and memory forms of ADD, SUB, MUL, AND, OR and XOR leave equal low bits, and each preserves everything else |
| Alu.LoadStore | VM/src/emulate.c:199-213 | loading at the width of the last store gives back the low bits stored |
| Trailer.LoadEmitted | VM/WeeperVM.c:24-83 | any image shorter than 2^32, appended under any random key to a file with the ELF magic, is loaded back with its exact length and bytes |
| Trailer.LengthRecovered | Compiler/WeeperVM_compile.py:462-473 | the deciphered length is the enciphered one if and only if the file begins with the ELF magic |
| Trailer.CipherSample | Compiler/WeeperVM_compile.py:462-473 | the eight bytes for length 0x1234 and key 0x89ABCDEF are D5 26 7F 3C 7C 4D 5E 6F |
| Trailer.Emit | Compiler/WeeperVM_compile.py:462-490 | the file written is all instructions in order and the eight cipher bytes of their total length |
| Trailer.LoadCode | VM/WeeperVM.c:48-76 | the loops parse two big-endian words and one little-endian word and return the bytes before the trailer |
| Lifter.ConstraintChecks | Constraint_Generator/validate.py:398-416 | inside any program, an emitted constraint sets EQ exactly when the value the generator computes from F0 equals the answer; only then control goes on, otherwise it returns to the caller |
| Lifter.ComputationFolds | Constraint_Generator/validate.py:145-169 | for every number, operand list and operation list of any length, the emitted code leaves the generator's value in R1 and F0 and memory unchanged |
| Lifter.LoadSelects | Constraint_Generator/validate.py:304-359 | the emitted loads put exactly the selected byte, short or word in the target register and change nothing else |
| Lifter.Emit | Constraint_Generator/validate.py:406-415 | the code of one constraint is its computation followed by its comparison |
| Validation.EmitAll | Constraint_Generator/validate.py:398-419 | for any list of constraints the loop, the cut of its last jump and the ending give the labelled listing |
| Validation.ListingParses | Constraint_Generator/validate.py:404-419 | the listing parses to all constraints in order, every entry label at its constraint and the common label at the ending; no two labels coincide |
| Validation.DecimalReads | Constraint_Generator/validate.py:404 | the number in an entry's name, read as decimal digits, is the entry's number, without leading zeros |
| Validation.EntryValidates | Constraint_Generator/validate.py:398-419 | entered at any of its labels in any program, the routine returns to its caller with EQ set exactly when the value the generator computes from F0 is that constraint's answer, F0 and memory unchanged |
| Twister.TwistLowest | Compiler/code_commented.weep:380-390 | whatever the words, changing the lowest bit of the second changes the twist by exactly 0x9908B0DF |
| Twister.TwistMiddle | Compiler/code_commented.weep:368-390 | changing any of the bits 1 to 30 of the second word changes exactly the bits one place below |
| Twister.TwistHighest | Compiler/code_commented.weep:368-390 | changing the highest bit of the first word changes exactly bit 30; the highest bit of the second does not count |
| Twister.TwistLower | Compiler/code_commented.weep:368-390 | no other bit of the first word counts |
| Twister.TwistPlain | Compiler/code_commented.weep:385-390 | the third word is joined as it is, and three zero words give zero |
| Twister.SeededWords | Compiler/code_commented.weep:318-330 | the n-th of the 624 seeded words is the seed times 6069 to the n, modulo 2^32 |
| Twister.LaterWords | Compiler/code_commented.weep:368-390 | every later word is the twist of those 624, 623 and 227 places before it |
| Twister.TemperedWords | Compiler/code_commented.weep:439-457 | the tempering of five words, among them one that shows every bit of each mask |
| Twister.TemperInvertible | Compiler/code_commented.weep:439-457 | an explicit inverse undoes the four tempering stages on every word |
| Twister.OutputsDetermineStream | Compiler/code_commented.weep:439-457 | 624 consecutive outputs determine the words they came from and every later word of the stream |
| TwisterProgram.MachineDraws | Compiler/code_commented.weep:306-465 | compiled under any shuffle and ciphers that keep its four local variables apart, a program that seeds and draws in a loop comes to its jump, for every n, with n words drawn and the tempering of word n + 623 of the seed's stream in R0 of the machine |
| TwisterProgram.TextDraws | Compiler/code_commented.weep:306-465 | the same for the program text run in order |
| TwisterInit.LoopDraws | Compiler/code_commented.weep:306-465 | in any program, a loop around one call of Rand after a call of Init draws word n + 623 on its n-th turn, through any number of regenerations |
| TwisterInit.SessionDraws | Compiler/code_commented.weep:306-465 | in any program, a call of Init and n calls of Rand in a row leave the tempering of word n + 623 in R0 and n words drawn, through any number of regenerations |
| TwisterInit.InitReturns | Compiler/code_commented.weep:306-339 | Init seeds all 624 words, stores 624 at 0x4E00, 0 at 0x0E6E04 and 0x9908B0DF at 0x0E6E08, returns the blob's address, restores C0 and disturbs only R0, R1, the blob, the two constants and one local |
| TwisterInit.SeedLoop | Compiler/code_commented.weep:318-330 | from k seeded slots the seeding loop ends with all 624 seeded |
| TwisterCalls.RandReturns | Compiler/code_commented.weep:347-465 | a call that finds n words drawn returns the tempering of word n + 624, leaves n + 1 drawn, restores F1 and C0 and disturbs nothing but R0-R3, the blob and its two locals |
| TwisterCalls.Regenerates | Compiler/code_commented.weep:357-436 | a used-up generation is replaced by the next, through both loops and the word that wraps around; neither emergency call is made |
| TwisterCalls.Draws | Compiler/code_commented.weep:438-457 | the next slot is fetched and tempered and the index moves on |
| TwisterLoops.LoopRuns | Compiler/code_commented.weep:366-415 | either in-place loop, entered with k slots renewed, ends with all slots below its bound renewed and the others untouched |
| TwisterLoops.SlotRenewed | Compiler/code_commented.weep:368-390 | slots k, k + 1 and k + 397 around the window, twisted, give the word one generation ahead although part of the window is already renewed |
| MersenneCode.BodyEffect | Compiler/code_commented.weep:368-413 | one turn of either loop renews slot k by the recurrence and leaves the counter at k + 1 |
| TwisterRand.WrapEffect | Compiler/code_commented.weep:417-436 | the last word of a generation is renewed from slots 623, 0 and 396 and the index reset |
| TwisterRand.TemperingEffect | Compiler/code_commented.weep:442-457 | the fourteen shift, mask and XOR instructions temper R0 |
| HashUpdate.UpdateReturns | Compiler/code_commented.weep:1152-1199 | a call of XXHashUpdate mixes each lane, at offset 4 + 4i, with its word of the block, adds 16 to the length at offset 0x14, returns the state's address and disturbs nothing but R0, R1, R4, the state and one local |
| HashUpdate.UpdateInjective | Compiler/code_commented.weep:1152-1199 | of two updates, each taking one memory to another as a call does, that end with equal lanes: they began with equal lanes if and only if they mixed equal blocks |
| TwisterCalls.DrawnLiterals | Compiler/code_commented.weep:347-465 | after n draws the constants, the index and every slot in absolute terms: slot j holds word 624 g + j of generation g |
| HashRound.MixIs | Compiler/code_commented.weep:1168-1186 | the round in one formula with its two primes, the rotation by 13 and the byte form of both chains |
| HashRound.BeforeBytes | Compiler/code_commented.weep:1172-1177 | the six instructions before the join turn the bytes 3 2 1 0 into 2 turned, 3 turned, 0 turned with nibbles exchanged, and 1 as it is |
| HashRound.AfterBytes | Compiler/code_commented.weep:1181-1186 | those after it into 2 turned, 3 turned, 0 as it is, and 1 turned with nibbles exchanged |
| HashRound.MixedZero | Compiler/code_commented.weep:1168-1186 | an empty lane and an empty word mix to 0x77C5454C |
| HashRound.LaneRecovered | Compiler/code_commented.weep:1170-1187 | an explicit inverse gives back the lane from the mixed lane and the word |
| HashRound.WordRecovered | Compiler/code_commented.weep:1170-1187 | an explicit inverse gives back the word from the mixed lane and the lane |
| HashRound.ApplyTwice | VM/src/emulate.c:992-1072 | SWAP and REV of a register onto itself undo themselves at every width, upper bits included |
| HashRound.UnrollRoll | VM/src/emulate.c:1169-1208 | the 32-bit rotation by 13 is undone by the opposite rotation |

## Left out

- SYSCALL and FORK, system calls, threads, shared memory and inline assembly.
- LEA: it loads a byte of memory instead of an address, so there is nothing it promises.
- Division by zero, register shifts by 32 or more, 32-bit rotation by 0, operands of no type and out-of-range
  memory offsets: undefined in C, excluded by `Program.Defined` and `Machine.Safe`. A memory destination must
  leave three more bytes of memory after its address, because the widening store reads them.
- Operand widths of no type (V_NULL); the compiler never emits them.
- Memory operands with a minus sign: the compiler computes the negated displacement and never uses it.
- Text handling in the compiler: comments, constants, number formats, printing. The model starts from parsed
  lines; random choices are parameters.
- Termination of whole programs: runs are counted in steps.
- Writing to the call cells or to the local-variable area through ordinary memory operands: source programs
  keep their data above 0x20000.
- The scan over the call cells in PUT and GET: the key it finds is overwritten before it is used.
- NOT, REV and SWAP mutations of lifted operands: the generator overrides its own choice with NONE.
- The Z3 search for unique constraints, and uniqueness itself.
- XXHashDigest, which is not injective, and XXHashInit; the banner, timer, watcher, tracer and validation
  routines of the virtual code, which are input and output or instances of the lifted constraints.
- The emergency re-seeding calls inside MersenneTwisterRand are proved not to be made from a blob that Init or
  Rand left; an index above 624 is not modelled further.
- A trailer that claims more bytes than the file holds: the loader's seek then fails in the kernel; the model
  returns no code.
- Images of 2^32 bytes or more: the cipher then needs more than 32 bits.
- Theorems.ShuffleIndependent: memory below 0x20000 is not compared, because return addresses and local
  variables there depend on the shuffle.
