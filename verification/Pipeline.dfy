/** From source lines to a finished run: assemble, append to the executable, load, emulate. */
module Pipeline {
  import opened Alu
  import opened Program
  import opened Encoding
  import Machine
  import opened Layout
  import opened Relation
  import opened Theorems
  import Assembler
  import Trailer
  import Vm

  /** Memory as the loader maps it. */
  function Zeros(): (mem: Memory)
    ensures Fresh(mem)
  {
    seq(MEMORY_SIZE, _ => 0)
  }

  /** The image is short enough for 24-bit offsets and has a first instruction. */
  predicate Runnable(img: Image) {
    img != [] && |Flatten(img)| <= 0xFF_FFFF
  }

  /** Lines compiled under any shuffle and any choice of ciphers, carried in the executable and run for
      `n` instructions behave as the source program run in order. */
  method BuildAndRun(lines: seq<Line>, draws: seq<Draw>, order: seq<nat>, ghost place: seq<nat>,
    host: seq<bv8>, key: bv32, ghost u: set<LocalKey>, n: nat)
    returns (r: Assembler.Result<Vm.VirtualMachine>, ghost img: Image)
    requires ValidChoice(Choice(order, place, draws), |Parse(lines).insns|)
    requires |host| >= 4 && host[..4] == Trailer.MAGIC
    requires CanRun(Parse(lines), u, n, Initial(Zeros()))
    requires var ch := Choice(order, place, draws);
             forall i: Image :: IsImage(Parse(lines), ch, i) ==> NoClash(ch, i, u)
    ensures r.Ok? ==>
      && r.value.Valid()
      && IsImage(Parse(lines), Choice(order, place, draws), img)
      && Observes(Choice(order, place, draws), img, Run(Parse(lines), u, n, Initial(Zeros())), r.value.Abstract())
    ensures r.Err? ==>
      (Assembler.Explained(lines, Choice(order, place, draws), r.error)
       || (IsAssembled(Parse(lines), Choice(order, place, draws), img) && !Runnable(img)))
  {
    hide Parse, ValidChoice, IsAssembled, CanRun, Run, NoClash, Observes, Assembler.Explained, Machine.Run;
    hide Machine.CanRun, Initial;
    ghost var p, ch := Parse(lines), Choice(order, place, draws);
    img := [];
    var built := Assembler.Assemble(lines, draws, order, place);
    if built.Err? {
      return Assembler.Err(built.error), img;
    }
    var compiled := built.value;
    img := compiled;
    if compiled == [] || |Flatten(compiled)| > 0xFF_FFFF {
      return Assembler.Err(if compiled == [] then Assembler.NoInstructions else Assembler.OffsetTooLarge), img;
    }
    FlattenLength(compiled);
    var length, code := Trailer.LoadEmitted(host, compiled, key);
    Counted(p, ch, img);
    var vmem := new bv8[MEMORY_SIZE](_ => 0);
    assert vmem[..] == Zeros();
    var machine := new Vm.VirtualMachine(code, vmem, 0);
    CompilerCorrect(p, ch, img, u, Zeros(), n);
    machine.Emulate(n);
    return Assembler.Ok(machine), img;
  }

  lemma Counted(p: Prog, ch: Choice, img: Image)
    requires IsAssembled(p, ch, img) && img != []
    ensures p.insns != []
  {
  }
}
