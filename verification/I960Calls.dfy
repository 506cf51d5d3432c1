/**
 Runs of the i960 context without interrupts (src/runtime/cpu.cpp). They need nothing
 of the interrupt setup; runs with interrupts are in I960Run.
 */
module I960Calls {
  import opened Words
  import opened PlainStack
  import opened I960Cpu

  /** What the program does next; Store is a memory write, the others are PlainStack's. */
  datatype Act = Run(op: Op) | Store(a: Word, v: Word)

  /** The assumptions on the program: it keeps the previous frame pointer and does not touch saved frames. */
  ghost predicate Behaves(p: Plain, act: Act) {
    && CanDo(p, Op.Flush)
    && match act
       case Run(op) =>
         && CanDo(p, op)
         && (op.Call? || op.Exec? || op.Return? || op.Flush?)
         && (op.Call? ==> LineFree(p.stack, Down64(p.r[FP])))
         && (op.Return? ==> Down64(p.r[PFP]) == p.stack[|p.stack| - 1].addr)
       case Store(a, v) => a % 4 == 0 && LineFree(p.stack, Down64(a))
  }

  ghost function After(p: Plain, act: Act): Plain
    requires Behaves(p, act)
  {
    match act case Run(op) => Do(p, op) case Store(a, v) => p
  }

  ghost predicate AllBehave(p: Plain, acts: seq<Act>)
    decreases |acts|
  {
    acts == [] || (Behaves(p, acts[0]) && AllBehave(After(p, acts[0]), acts[1..]))
  }

  ghost function AfterAll(p: Plain, acts: seq<Act>): Plain
    requires AllBehave(p, acts)
    decreases |acts|
  {
    if acts == [] then p else AfterAll(After(p, acts[0]), acts[1..])
  }

  /**
   Over any run of calls, returns, flushes, stores and other instructions, at any
   depth, the machine with the frame cache is the machine with a plain stack.
   */
  method RunProgram(cpu: Cpu, acts: seq<Act>)
    requires cpu.Valid() && AllBehave(cpu.View(), acts)
    modifies cpu, cpu.r, cpu.rcache, cpu.frameAddr, cpu.bus, cpu.bus.workRam
    ensures cpu.Valid()
    ensures cpu.View() == AfterAll(old(cpu.View()), acts)
  {
    var i := 0;
    while i < |acts|
      invariant 0 <= i <= |acts|
      invariant cpu.Valid() && AllBehave(cpu.View(), acts[i..])
      invariant AfterAll(cpu.View(), acts[i..]) == AfterAll(old(cpu.View()), acts)
    {
      var act := acts[i];
      assert acts[i..][1..] == acts[i + 1..];
      match act {
        case Store(a, v) => cpu.Store(a, v);
        case Run(op) =>
          match op {
            case Exec(nr, nip, npc, nac) => cpu.Exec(nr, nip, npc, nac);
            case Call(adr) => cpu.DoCall(adr, 0, cpu.r[SP]);
            case Return => cpu.DoRet0();
            case _ => cpu.FlushReg();
          }
      }
      i := i + 1;
    }
  }
}
