/**
 The i960's calls, returns and interrupt entries as if every frame of registers
 went on an unbounded stack: no frame cache, no spilling, no memory. This is what
 src/runtime/cpu.cpp has to behave like.
 */
module PlainStack {
  import opened Words

  const PFP := 0
  const SP := 1
  const RIP := 2
  const FP := 31

  /** The record an interrupt entry keeps at the new frame: FP - 16 and FP - 12. */
  datatype Record = NoRecord | Record(fp: Word, pc: Word, ac: Word)

  /** A caller's sixteen local registers, and its frame address. */
  datatype Saved = Saved(addr: Word, locals: seq<Word>, record: Record)

  datatype Plain = Plain(r: seq<Word>, ip: Word, pc: Word, ac: Word, stack: seq<Saved>)

  predicate Shaped(p: Plain) {
    |p.r| == 32 && forall k :: 0 <= k < |p.stack| ==> |p.stack[k].locals| == 16
  }

  /** (FP & ~7) | type */
  function PfpWord(fp: Word, kind: nat): Word
    requires kind < 8
  {
    fp - fp % 8 + kind
  }

  /** do_call: push the locals, with the return address in them, and open a frame at the stack pointer. */
  function PushCall(p: Plain, adr: Word, kind: nat, stack: Word, record: Record): Plain
    requires Shaped(p) && kind < 8
  {
    var locals := p.r[..16][RIP := p.ip];
    var sp := if kind == 7 then stack else p.r[SP];
    var fp := Up64(sp);
    p.(r := p.r[RIP := p.ip][PFP := PfpWord(p.r[FP], kind)][FP := fp][SP := Add32(fp, 64)],
       ip := adr,
       stack := p.stack + [Saved(Down64(p.r[FP]), locals, record)])
  }

  /**
   Where a call goes and what it leaves: IP at the address, r2 the way back, r0 the old
   frame with the call's type, a frame at the first multiple of 64 from the stack
   pointer on, and every other register as it was.
   */
  lemma PushFacts(p: Plain, adr: Word, kind: nat, stack: Word, record: Record)
    requires Shaped(p) && kind < 8
    ensures var q, sp := PushCall(p, adr, kind, stack, record), if kind == 7 then stack else p.r[SP];
            && q.ip == adr && q.pc == p.pc && q.ac == p.ac
            && |q.r| == 32 && q.r[16..31] == p.r[16..31] && q.r[3..16] == p.r[3..16]
            && q.r[RIP] == p.ip && q.r[PFP] / 8 == p.r[FP] / 8 && q.r[PFP] % 8 == kind
            && q.r[FP] % 64 == 0 && (sp <= WORDS - 64 ==> sp <= q.r[FP] < sp + 64)
            && (q.r[FP] < WORDS - 64 ==> q.r[SP] == q.r[FP] + 64)
  {
    var q, sp := PushCall(p, adr, kind, stack, record), if kind == 7 then stack else p.r[SP];
    PfpLine(p.r[FP], kind);
    Up64Facts(sp);
    FrameTop(Up64(sp));
    OtherRegs(p.r, p.ip, PfpWord(p.r[FP], kind), Up64(sp), Add32(Up64(sp), 64));
  }

  lemma FrameTop(fp: Word)
    ensures fp < WORDS - 64 ==> Add32(fp, 64) == fp + 64
  {
  }

  /** The registers that a call does not write. */
  lemma OtherRegs(r: seq<Word>, rip: Word, pfp: Word, fp: Word, sp: Word)
    requires |r| == 32
    ensures var q := r[RIP := rip][PFP := pfp][FP := fp][SP := sp];
            && q[16..31] == r[16..31] && q[3..16] == r[3..16]
            && q[RIP] == rip && q[PFP] == pfp && q[FP] == fp && q[SP] == sp
  {
  }

  /** do_ret_0: pop the locals; the frame pointer comes from the previous frame pointer. */
  function Pop(p: Plain): Plain
    requires Shaped(p) && p.stack != []
  {
    var top := p.stack[|p.stack| - 1];
    var r := top.locals + p.r[16..][FP - 16 := Down64(p.r[PFP])];
    p.(r := r, ip := r[RIP], stack := p.stack[..|p.stack| - 1])
  }

  function Priority(pc: Word): nat { pc / 0x10000 % 32 }

  /** The stack pointer an interrupt starts from: its own stack, or the current one when nested. */
  function InterruptStack(p: Plain, intSp: Word): Word
    requires Shaped(p)
  {
    Add32(Up64(if HasBit(p.pc, 13) then p.r[SP] else intSp), 64)
  }

  /** PC in the handler: the level as priority, trace bits clear, supervisor and interrupt bits set. */
  function HandlerPc(pc: Word, lvl: nat): Word
    requires lvl < 32
  {
    SetBit32(SetBit32(ClearBit32(ClearBit32(WithLevel(pc, lvl), 10), 0), 1), 13)
  }

  /** take_interrupt, with the handler's address and the interrupt stack read from memory. */
  function Enter(p: Plain, handler: Word, intSp: Word, lvl: nat): Plain
    requires Shaped(p) && lvl < 32
  {
    var sp := InterruptStack(p, intSp);
    PushCall(p, handler, 7, sp, Record(Up64(sp), p.pc, p.ac)).(pc := HandlerPc(p.pc, lvl))
  }

  /** do_ret of type 7, before it looks for another interrupt. */
  function Leave(p: Plain): Plain
    requires Shaped(p) && p.stack != [] && p.stack[|p.stack| - 1].record.Record?
  {
    var top := p.stack[|p.stack| - 1];
    Pop(p).(pc := top.record.pc, ac := top.record.ac)
  }

  // ---- Runs -----------------------------------------------------------------

  /** One thing the program does; Exec is any instructions that only change the registers. */
  datatype Op =
    | Exec(r: seq<Word>, ip: Word, pc: Word, ac: Word)
    | Call(adr: Word)
    | Return
    | Flush
    | Interrupt(handler: Word, intSp: Word, lvl: nat)
    | EndInterrupt

  predicate CanDo(p: Plain, op: Op) {
    && Shaped(p)
    && match op
       case Exec(r, ip, pc, ac) => |r| == 32
       case Call(adr) => true
       case Return => p.stack != []
       case Flush => true
       case Interrupt(handler, intSp, lvl) => lvl < 32
       case EndInterrupt => p.stack != [] && p.stack[|p.stack| - 1].record.Record?
  }

  function Do(p: Plain, op: Op): (q: Plain)
    requires CanDo(p, op)
    ensures Shaped(q)
  {
    match op
    case Exec(r, ip, pc, ac) => p.(r := r, ip := ip, pc := pc, ac := ac)
    case Call(adr) => PushCall(p, adr, 0, p.r[SP], NoRecord)
    case Return => Pop(p)
    case Flush => p
    case Interrupt(handler, intSp, lvl) => Enter(p, handler, intSp, lvl)
    case EndInterrupt => Leave(p)
  }

  /** The state after the ops, each possible when it comes, none leaving fewer than `floor` frames. */
  ghost predicate Runs(p: Plain, ops: seq<Op>, floor: nat, q: Plain)
    decreases |ops|
  {
    if ops == [] then p == q && Shaped(p)
    else CanDo(p, ops[0]) && |Do(p, ops[0]).stack| >= floor && Runs(Do(p, ops[0]), ops[1..], floor, q)
  }

  /** Frames below the floor are never touched. */
  lemma {:induction false} FloorKept(p: Plain, ops: seq<Op>, floor: nat, q: Plain)
    requires Runs(p, ops, floor, q) && |p.stack| >= floor
    ensures Shaped(q) && |q.stack| >= floor && q.stack[..floor] == p.stack[..floor]
    decreases |ops|
  {
    if ops != [] {
      FloorKept(Do(p, ops[0]), ops[1..], floor, q);
    }
  }

  /** The program has kept the previous frame pointer, up to its type bits. */
  predicate SameFrame(p: Plain, q: Plain)
    requires Shaped(p) && Shaped(q)
  {
    Down64(p.r[PFP]) == Down64(q.r[PFP])
  }

  /**
   A call, then any run that stays inside it and comes back to its own frame, then
   the return: the caller's sixteen locals, frame pointer, instruction pointer and
   stack are back, whatever happened in between.
   */
  lemma ReturnRestores(p: Plain, adr: Word, body: seq<Op>, q: Plain)
    requires CanDo(p, Op.Call(adr))
    requires var c := Do(p, Op.Call(adr)); Runs(c, body, |c.stack|, q) && |q.stack| == |c.stack|
    requires Shaped(q) && SameFrame(Do(p, Op.Call(adr)), q)
    ensures var e := Do(q, Op.Return);
            && e.r[..16] == p.r[..16][RIP := p.ip] && e.ip == p.ip
            && e.r[FP] == Down64(p.r[FP])
            && e.stack == p.stack
            && e.pc == q.pc && e.ac == q.ac
            && e.r[16..31] == q.r[16..31]
  {
    var c := Do(p, Op.Call(adr));
    FloorKept(c, body, |c.stack|, q);
    assert q.stack == q.stack[..|c.stack|] == c.stack;
    PfpLine(p.r[FP], 0);
  }

  lemma PfpLine(fp: Word, kind: nat)
    requires kind < 8
    ensures Down64(PfpWord(fp, kind)) == Down64(fp)
    ensures PfpWord(fp, kind) % 8 == kind && PfpWord(fp, kind) / 8 == fp / 8
  {
    var x, q, m := PfpWord(fp, kind), fp / 64, fp % 64;
    assert fp == q * 64 + m;
    assert m % 8 == fp % 8;
    DivUnique(x, 64, q, m - m % 8 + kind);
    DivUnique(x, 8, fp / 8, kind);
  }

  /**
   Interrupt entry is transparent: after any balanced handler that keeps its frame,
   the type-7 return restores PC, AC, IP, the frame pointer and the sixteen locals
   of the interrupted code, with r2 the resume address.
   */
  lemma InterruptTransparent(p: Plain, handler: Word, intSp: Word, lvl: nat, body: seq<Op>, q: Plain)
    requires CanDo(p, Op.Interrupt(handler, intSp, lvl))
    requires var c := Do(p, Op.Interrupt(handler, intSp, lvl)); Runs(c, body, |c.stack|, q) && |q.stack| == |c.stack|
    requires Shaped(q) && SameFrame(Do(p, Op.Interrupt(handler, intSp, lvl)), q)
    ensures CanDo(q, Op.EndInterrupt)
    ensures var e := Do(q, Op.EndInterrupt);
            && e.pc == p.pc && e.ac == p.ac && e.ip == p.ip
            && e.r[..16] == p.r[..16][RIP := p.ip]
            && e.r[FP] == Down64(p.r[FP])
            && e.stack == p.stack
            && e.r[16..31] == q.r[16..31]
  {
    var c := Do(p, Op.Interrupt(handler, intSp, lvl));
    FloorKept(c, body, |c.stack|, q);
    assert q.stack == q.stack[..|c.stack|] == c.stack;
    PfpLine(p.r[FP], 7);
  }

  /**
   After such a call and return the caller has its own frame pointer again if and only
   if that was a multiple of 64: a return clears the low bits that a call has kept.
   */
  lemma FramePointerBack(p: Plain, adr: Word, body: seq<Op>, q: Plain)
    requires CanDo(p, Op.Call(adr))
    requires var c := Do(p, Op.Call(adr)); Runs(c, body, |c.stack|, q) && |q.stack| == |c.stack|
    requires Shaped(q) && SameFrame(Do(p, Op.Call(adr)), q)
    ensures Do(q, Op.Return).r[FP] == p.r[FP] <==> p.r[FP] % 64 == 0
  {
    ReturnRestores(p, adr, body, q);
  }

  /** A machine whose frame pointer is not a multiple of 64: it calls, returns at once, and has lost it. */
  function OddFrame(): Plain {
    Plain(seq(32, i => if i == FP then 0x50_1010 else 0), 0, 0, 0, [])
  }

  lemma FramePointerLost(adr: Word)
    ensures var c := Do(OddFrame(), Op.Call(adr));
            && c.stack != [] && SameFrame(c, c)
            && Do(c, Op.Return).r[FP] == 0x50_1000 && OddFrame().r[FP] == 0x50_1010
  {
    var p := OddFrame();
    ReturnRestores(p, adr, [], Do(p, Op.Call(adr)));
  }

  // ---- Where an interrupt entry writes --------------------------------------

  lemma Up64Facts(x: Word)
    ensures Up64(x) % 64 == 0
    ensures x <= WORDS - 64 ==> x <= Up64(x) < x + 64
  {
  }

  /**
   Where an interrupt goes: IP at the handler, PC's priority the level, and a frame above
   the padding line that starts at the stack it is entered from; globals and locals from
   r3 on are as they were.
   */
  lemma EnterFacts(p: Plain, handler: Word, intSp: Word, lvl: nat)
    requires Shaped(p) && lvl < 32
    ensures var q, from := Enter(p, handler, intSp, lvl), if HasBit(p.pc, 13) then p.r[SP] else intSp;
            && q.ip == handler && q.pc / 0x1_0000 % 32 == lvl && q.ac == p.ac
            && |q.r| == 32 && q.r[16..31] == p.r[16..31] && q.r[3..16] == p.r[3..16]
            && q.r[FP] % 64 == 0 && (from <= WORDS - 192 ==> from + 64 <= q.r[FP] < from + 128)
  {
    var sp, from := InterruptStack(p, intSp), if HasBit(p.pc, 13) then p.r[SP] else intSp;
    PushFacts(p, handler, 7, sp, Record(Up64(sp), p.pc, p.ac));
    HandlerLevel(p.pc, lvl);
    HandlerFrame(from);
  }

  lemma HandlerLevel(pc: Word, lvl: nat)
    requires lvl < 32
    ensures HandlerPc(pc, lvl) / 0x1_0000 % 32 == lvl
  {
    HandlerPcFacts(pc, lvl);
  }

  lemma HandlerFrame(from: Word)
    ensures var fp := Up64(Add32(Up64(from), 64));
            fp % 64 == 0 && (from <= WORDS - 192 ==> from + 64 <= fp < from + 128)
  {
    Up64Facts(from);
    Up64Facts(Add32(Up64(from), 64));
  }

  /** PC with its priority field replaced. */
  function WithLevel(pc: Word, lvl: nat): Word
    requires lvl < 32
  {
    pc / 0x20_0000 * 0x20_0000 + lvl * 0x1_0000 + pc % 0x1_0000
  }

  lemma WithLevelFields(pc: Word, lvl: nat)
    requires lvl < 32
    ensures var w := WithLevel(pc, lvl);
            w % 0x1_0000 == pc % 0x1_0000 && w / 0x1_0000 == pc / 0x20_0000 * 32 + lvl
  {
    DivUnique(WithLevel(pc, lvl), 0x1_0000, pc / 0x20_0000 * 32 + lvl, pc % 0x1_0000);
  }

  lemma HandlerPcHigh(pc: Word, lvl: nat)
    requires lvl < 32
    ensures HandlerPc(pc, lvl) / 0x1_0000 == WithLevel(pc, lvl) / 0x1_0000
  {
    var w := WithLevel(pc, lvl);
    assert Pow2(8) == 0x100;
    assert Pow2(16) == 0x1_0000;
    BitOpsHigh(w, 10, 16);
    BitOpsHigh(ClearBit(w, 10), 0, 16);
    BitOpsHigh(ClearBit(ClearBit(w, 10), 0), 1, 16);
    BitOpsHigh(SetBit(ClearBit(ClearBit(w, 10), 0), 1), 13, 16);
  }

  lemma HandlerPcLow(pc: Word, lvl: nat, i: nat)
    requires lvl < 32 && i < 16
    ensures HasBit(HandlerPc(pc, lvl), i) == (i == 1 || i == 13 || (i != 0 && i != 10 && HasBit(pc, i)))
  {
    var w := WithLevel(pc, lvl);
    assert Pow2(8) == 0x100;
    assert Pow2(16) == 0x1_0000;
    WithLevelFields(pc, lvl);
    LowBits(w, pc, 16, i);
    ClearBitBits(w, 10, i);
    ClearBitBits(ClearBit(w, 10), 0, i);
    SetBitBits(ClearBit(ClearBit(w, 10), 0), 1, i);
    SetBitBits(SetBit(ClearBit(ClearBit(w, 10), 0), 1), 13, i);
  }

  /**
   PC in the handler carries the level as its priority and the interrupt and
   supervisor bits, so a further entry is nested; the trace bits are clear and every
   other bit is the interrupted code's.
   */
  lemma HandlerPcFacts(pc: Word, lvl: nat)
    requires lvl < 32
    ensures Priority(HandlerPc(pc, lvl)) == lvl
    ensures HandlerPc(pc, lvl) / 0x20_0000 == pc / 0x20_0000
    ensures forall i: nat :: i < 16 ==>
              HasBit(HandlerPc(pc, lvl), i) == (i == 1 || i == 13 || (i != 0 && i != 10 && HasBit(pc, i)))
  {
    WithLevelFields(pc, lvl);
    HandlerPcHigh(pc, lvl);
    var h, q := HandlerPc(pc, lvl), pc / 0x20_0000;
    DivUnique(h / 0x1_0000, 32, q, lvl);
    DivUnique(h, 0x20_0000, q, lvl * 0x1_0000 + h % 0x1_0000);
    forall i: nat | i < 16
      ensures HasBit(h, i) == (i == 1 || i == 13 || (i != 0 && i != 10 && HasBit(pc, i)))
    {
      HandlerPcLow(pc, lvl, i);
    }
  }
}
