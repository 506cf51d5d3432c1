/**
 The i960 program's own stack discipline, and that it is enough: a program that keeps
 its stack pointer above its frame and inside its stack, and its frame pointers as
 calls left them, gives every call and every interrupt entry room. In a nested entry
 it is the padding of src/runtime/cpu.cpp:152-153 that makes this so.
 */
module I960Stacks {
  import opened Words
  import opened PlainStack
  import opened PendingTable
  import opened I960Cpu
  import opened I960Machine

  /** The program's stack and the interrupt stack, as addresses from and up to. */
  datatype Stacks = Stacks(proLo: int, proHi: int, intLo: int, intHi: int)

  function Lo(s: Stacks, nested: bool): int { if nested then s.intLo else s.proLo }

  function Hi(s: Stacks, nested: bool): int { if nested then s.intHi else s.proHi }

  ghost predicate ClearOfSetup(env: Env, lo: int, hi: int) {
    && (hi <= env.tab || env.tab + 1028 <= lo)
    && !(lo <= Add32(env.prcb, 20) < hi) && !(lo <= Add32(env.prcb, 24) < hi)
  }

  ghost predicate StacksOk(s: Stacks, env: Env) {
    && 64 <= s.proLo <= s.proHi <= WORDS - 64 && 64 <= s.intLo && s.intLo + 128 <= s.intHi <= WORDS - 64
    && (s.proHi <= s.intLo || s.intHi <= s.proLo)
    && s.intLo == Up64(env.intSp)
    && ClearOfSetup(env, s.proLo, s.proHi) && ClearOfSetup(env, s.intLo, s.intHi)
  }

  /** PC's interrupted bit: the code runs on the interrupt stack. */
  predicate Nested(pc: Word) { HasBit(pc, 13) }

  function Round64(x: int): int { (x + 63) / 64 * 64 }

  /** The frame is a line of the stack, and the stack pointer lies above it. */
  predicate Room(s: Stacks, nested: bool, fp: Word, sp: Word) {
    fp % 64 == 0 && Lo(s, nested) <= fp && fp + 64 <= sp <= Hi(s, nested)
  }

  /**
   The saved frames, newest last, under the frame at fp: a caller's frame and stack lie
   below its callee's frame; an interrupted handler's below the record of the entry; the
   first entry is at the bottom of the interrupt stack.
   */
  ghost predicate Below(s: Stacks, stack: seq<Saved>, fp: Word, nested: bool)
    decreases |stack|
  {
    if stack == [] then true
    else
      var top := stack[|stack| - 1];
      var inner := if top.record.Record? then Nested(top.record.pc) else nested;
      && |top.locals| == 16
      && Room(s, inner, top.addr, top.locals[SP])
      && (top.record.NoRecord? ==> fp == Round64(top.locals[SP]))
      && (top.record.Record? ==>
            nested && top.record.fp == fp && fp == (if inner then Round64(top.locals[SP]) else s.intLo) + 64)
      && Below(s, stack[..|stack| - 1], top.addr, inner)
  }

  /** What a disciplined run keeps. */
  ghost predicate Orderly(s: Stacks, p: Plain) {
    && PlainStack.Shaped(p)
    && Room(s, Nested(p.pc), p.r[FP], p.r[SP])
    && Below(s, p.stack, p.r[FP], Nested(p.pc))
  }

  /** Room for one more frame, and for one more interrupt entry: its record's line and its frame. */
  predicate CallFits(s: Stacks, p: Plain)
    requires PlainStack.Shaped(p)
  {
    Round64(p.r[SP]) + 64 <= Hi(s, Nested(p.pc))
  }

  predicate EntryFits(s: Stacks, p: Plain)
    requires PlainStack.Shaped(p)
  {
    Nested(p.pc) ==> Round64(p.r[SP]) + 128 <= s.intHi
  }

  /** What is asked of the program, act by act: no stack overflows, and no saved frame or setup word is written. */
  ghost predicate Disciplined(s: Stacks, env: Env, m: Machine, act: Act)
    requires Ok(env, m) && Orderly(s, m.p)
  {
    match act
    case Exec(r, ip, pc, ac) =>
      |r| == 32 && r[FP] == m.p.r[FP] && Nested(pc) == Nested(m.p.pc) && Room(s, Nested(pc), r[FP], r[SP])
    case Call(adr) => CallFits(s, m.p)
    case Return =>
      && m.p.stack != []
      && var top := m.p.stack[|m.p.stack| - 1];
         Down64(m.p.r[PFP]) == top.addr && m.p.r[PFP] % 8 == if top.record.Record? then 7 else 0
    case Store(a, v) => a % 4 == 0 && LineFree(m.p.stack, Down64(a)) && !EnvWord(env, a)
    case SetInput(line, state) => line < 4
    case CheckImmediate => TakesSlot(m) ==> EntryFits(s, m.p)
    case CheckPending => Takes(m) ==> EntryFits(s, m.p)
    case _ => true
  }

  // ---- Rounding -----------------------------------------------------------------

  lemma RoundUp(x: Word)
    ensures Round64(x) % 64 == 0 && x <= Round64(x) < x + 64
    ensures Round64(x) < WORDS ==> Up64(x) == Round64(x)
  {
    if x + 63 < WORDS {
      var q := (x + 63) / 64;
      assert x + 63 == 64 * q + (x + 63) % 64;
    }
  }

  lemma Aligned(x: Word)
    requires x % 64 == 0
    ensures Down64(x) == x && Up64(x) == x
  {
    assert x <= WORDS - 64;
  }

  // ---- Where saved frames lie ------------------------------------------------------

  /** A line of a saved frame or record lies on one of the two stacks, and below fp if that is fp's stack. */
  predicate LineBelow(s: Stacks, line: Word, fp: Word, nested: bool) {
    || (s.proLo <= line && line + 64 <= s.proHi && (nested || line + 64 <= fp))
    || (nested && s.intLo <= line && line + 64 <= s.intHi && line + 64 <= fp)
  }

  ghost predicate AllBelow(s: Stacks, stack: seq<Saved>, fp: Word, nested: bool) {
    forall k :: 0 <= k < |stack| ==>
      && LineBelow(s, stack[k].addr, fp, nested)
      && (stack[k].record.Record? ==> LineBelow(s, RecordLine(stack[k].record), fp, nested))
  }

  /** The newest saved frame, and its record, lie where they should. */
  lemma TopBelow(s: Stacks, env: Env, stack: seq<Saved>, fp: Word, nested: bool)
    requires StacksOk(s, env) && stack != [] && Below(s, stack, fp, nested) && fp + 64 <= Hi(s, nested)
    ensures var top := stack[|stack| - 1];
            && LineBelow(s, top.addr, fp, nested)
            && (top.record.Record? ==> RecordLine(top.record) == fp - 64 && LineBelow(s, fp - 64, fp, nested))
            && top.addr + 64 <= Hi(s, if top.record.Record? then Nested(top.record.pc) else nested)
  {
    var top := stack[|stack| - 1];
    RoundUp(top.locals[SP]);
    if top.record.Record? { NoWrap(fp, -64); }
  }

  /** All of them do. */
  lemma {:induction false} SavedBelow(s: Stacks, env: Env, stack: seq<Saved>, fp: Word, nested: bool)
    requires StacksOk(s, env) && Below(s, stack, fp, nested) && fp + 64 <= Hi(s, nested)
    ensures AllBelow(s, stack, fp, nested)
    decreases |stack|
  {
    if stack != [] {
      var top := stack[|stack| - 1];
      var rest := stack[..|stack| - 1];
      var inner := if top.record.Record? then Nested(top.record.pc) else nested;
      TopBelow(s, env, stack, fp, nested);
      SavedBelow(s, env, rest, top.addr, inner);
      forall k | 0 <= k < |rest|
        ensures LineBelow(s, stack[k].addr, fp, nested)
        ensures stack[k].record.Record? ==> LineBelow(s, RecordLine(stack[k].record), fp, nested)
      {
        assert stack[k] == rest[k];
      }
    }
  }

  /** A line at or above fp on the same stack holds no saved frame or record. */
  lemma FreeAbove(s: Stacks, env: Env, stack: seq<Saved>, fp: Word, nested: bool, line: Word)
    requires StacksOk(s, env) && AllBelow(s, stack, fp, nested)
    requires Lo(s, nested) <= fp <= line && line + 64 <= Hi(s, nested)
    ensures LineFree(stack, line) && Apart(env, line)
  {
  }

  // ---- Room for calls and entries -----------------------------------------------------

  /** The line a call spills to is free. */
  lemma CallHasRoom(s: Stacks, env: Env, p: Plain)
    requires StacksOk(s, env) && Orderly(s, p)
    ensures EntryLine(p) == p.r[FP] && LineFree(p.stack, p.r[FP]) && Apart(env, p.r[FP])
  {
    Aligned(p.r[FP]);
    SavedBelow(s, env, p.stack, p.r[FP], Nested(p.pc));
    FreeAbove(s, env, p.stack, p.r[FP], Nested(p.pc), p.r[FP]);
  }

  /** Where an entry puts its record's line. */
  function RecordAt(s: Stacks, p: Plain): int
    requires PlainStack.Shaped(p)
  {
    if Nested(p.pc) then Round64(p.r[SP]) else s.intLo
  }

  /** Where an entry puts its record's line and its frame: above everything the interrupted code has on that stack. */
  lemma EntryPlace(s: Stacks, env: Env, p: Plain)
    requires StacksOk(s, env) && Orderly(s, p) && EntryFits(s, p)
    ensures var at := RecordAt(s, p);
            && s.intLo <= at && at + 128 <= s.intHi && at % 64 == 0
            && RecordLineOf(p, env.intSp) == at && Up64(InterruptStack(p, env.intSp)) == at + 64
            && (Nested(p.pc) ==> p.r[FP] + 64 <= p.r[SP] <= at)
  {
    var x := if Nested(p.pc) then p.r[SP] else env.intSp;
    RoundUp(x);
    Up64Facts(env.intSp);
    assert Up64(x) == RecordAt(s, p);
    PaddingAt(RecordAt(s, p));
  }

  /** The padding line, then the frame. */
  lemma PaddingAt(at: Word)
    requires at % 64 == 0 && at + 64 < WORDS
    ensures Up64(Add32(at, 64)) == at + 64 && Add32(at + 64, -64) == at
  {
    NoWrap(at, 64);
    Aligned(at + 64);
    NoWrap(at + 64, -64);
  }

  /**
   An interrupt entry overwrites no saved frame and no record, and nothing of the setup,
   nested or not: in a nested entry because the interrupted frame ends below the stack
   pointer and the record lies above it.
   */
  lemma EntryHasRoom(s: Stacks, env: Env, p: Plain)
    requires StacksOk(s, env) && Orderly(s, p) && EntryFits(s, p)
    ensures CanTake(env, p)
  {
    CallHasRoom(s, env, p);
    EntryPlace(s, env, p);
    SavedBelow(s, env, p.stack, p.r[FP], Nested(p.pc));
    var line := RecordLineOf(p, env.intSp);
    if Nested(p.pc) {
      FreeAbove(s, env, p.stack, p.r[FP], true, line);
    }
  }

  /** The code an interrupt returns to has room for the entry that may follow at once: it had room for the last one. */
  lemma LeaveFits(s: Stacks, env: Env, p: Plain)
    requires StacksOk(s, env) && Orderly(s, p) && p.stack != [] && p.stack[|p.stack| - 1].record.Record?
    requires Down64(p.r[PFP]) == p.stack[|p.stack| - 1].addr
    ensures Orderly(s, Leave(p)) && EntryFits(s, Leave(p)) && AtHandlerEnd(p)
  {
  }

  // ---- The discipline is kept -----------------------------------------------------------

  lemma CallOrderly(s: Stacks, env: Env, p: Plain, adr: Word)
    requires StacksOk(s, env) && Orderly(s, p) && CallFits(s, p)
    ensures Orderly(s, PushCall(p, adr, 0, p.r[SP], NoRecord))
  {
    var q := PushCall(p, adr, 0, p.r[SP], NoRecord);
    RoundUp(p.r[SP]);
    Aligned(p.r[FP]);
    NoWrap(q.r[FP], 64);
    assert q.stack[..|q.stack| - 1] == p.stack;
    assert q.stack[|q.stack| - 1].locals[SP] == p.r[SP];
  }

  /** q is p interrupted: the handler's registers, PC and saved frame. */
  predicate Interrupted(s: Stacks, p: Plain, q: Plain)
    requires PlainStack.Shaped(p)
  {
    var at := RecordAt(s, p);
    && |q.r| == 32 && q.r[FP] == at + 64 && q.r[SP] == at + 128 && Nested(q.pc)
    && q.stack == p.stack + [Saved(p.r[FP], p.r[..16][RIP := p.ip], Record(q.r[FP], p.pc, p.ac))]
  }

  lemma EnteredFields(s: Stacks, env: Env, p: Plain, v: nat)
    requires StacksOk(s, env) && Orderly(s, p) && EntryFits(s, p) && |env.handlers| == 248 && 8 <= v < 256
    ensures Interrupted(s, p, Entered(env, p, v))
  {
    var q := Entered(env, p, v);
    EntryPlace(s, env, p);
    Aligned(p.r[FP]);
    NoWrap(q.r[FP], 64);
    HandlerPcFacts(p.pc, v / 8);
  }

  lemma InterruptedOrderly(s: Stacks, p: Plain, q: Plain)
    requires Orderly(s, p) && Interrupted(s, p, q)
    requires var at := RecordAt(s, p); s.intLo <= at && at + 128 <= s.intHi && at % 64 == 0
    ensures Orderly(s, q)
  {
    assert q.stack[..|q.stack| - 1] == p.stack;
    assert q.stack[|q.stack| - 1].locals[SP] == p.r[SP];
  }

  lemma EntryOrderly(s: Stacks, env: Env, p: Plain, v: nat)
    requires StacksOk(s, env) && Orderly(s, p) && EntryFits(s, p) && |env.handlers| == 248 && 8 <= v < 256
    ensures Orderly(s, Entered(env, p, v))
  {
    EntryPlace(s, env, p);
    EnteredFields(s, env, p, v);
    InterruptedOrderly(s, p, Entered(env, p, v));
  }

  lemma ReturnOrderly(s: Stacks, env: Env, m: Machine)
    requires StacksOk(s, env) && Ok(env, m) && Orderly(s, m.p) && Disciplined(s, env, m, Act.Return)
    ensures Behaves(env, m, Act.Return) && Orderly(s, Returned(env, m).p)
  {
    var top := m.p.stack[|m.p.stack| - 1];
    Aligned(top.addr);
    if top.record.Record? {
      LeaveFits(s, env, m.p);
      LeftOk(env, m);
      LookOrderly(s, env, Left(m));
    }
  }

  lemma LookOrderly(s: Stacks, env: Env, m: Machine)
    requires StacksOk(s, env) && Ok(env, m) && Orderly(s, m.p) && (Takes(m) ==> EntryFits(s, m.p))
    ensures (Takes(m) ==> CanTake(env, m.p)) && Orderly(s, Delivered(env, m).p)
  {
    if Takes(m) {
      EntryHasRoom(s, env, m.p);
      EntryOrderly(s, env, m.p, TakenVector(m));
    }
  }

  lemma SlotOrderly(s: Stacks, env: Env, m: Machine)
    requires StacksOk(s, env) && Ok(env, m) && Orderly(s, m.p) && (TakesSlot(m) ==> EntryFits(s, m.p))
    ensures (TakesSlot(m) ==> CanTake(env, m.p)) && Orderly(s, SlotTaken(env, m).p)
  {
    if TakesSlot(m) {
      EntryHasRoom(s, env, m.p);
      EntryOrderly(s, env, m.p, m.slot.vector);
    }
  }

  /** A disciplined act finds the room it needs, and leaves the stacks in order. */
  lemma DisciplinedStep(s: Stacks, env: Env, m: Machine, act: Act)
    requires StacksOk(s, env) && Ok(env, m) && Orderly(s, m.p) && Disciplined(s, env, m, act)
    ensures Behaves(env, m, act) && Orderly(s, Step(env, m, act).p)
  {
    match act
    case Call(adr) =>
      CallHasRoom(s, env, m.p);
      CallOrderly(s, env, m.p, adr);
    case Return => ReturnOrderly(s, env, m);
    case CheckImmediate => SlotOrderly(s, env, m);
    case CheckPending => LookOrderly(s, env, m);
    case _ =>
  }

  ghost predicate AllDisciplined(s: Stacks, env: Env, m: Machine, acts: seq<Act>)
    requires StacksOk(s, env) && Ok(env, m) && Orderly(s, m.p)
    decreases |acts|
  {
    acts == [] ||
    (Disciplined(s, env, m, acts[0]) &&
     (DisciplinedStep(s, env, m, acts[0]); AllDisciplined(s, env, Step(env, m, acts[0]), acts[1..])))
  }

  /**
   A disciplined program, over any run of calls, returns, stores, interrupt lines and
   entries nested to any depth: every call and entry finds its lines free of saved
   frames and records, and the stacks stay in order.
   */
  lemma {:induction false} DisciplinedRun(s: Stacks, env: Env, m: Machine, acts: seq<Act>)
    requires StacksOk(s, env) && Ok(env, m) && Orderly(s, m.p) && AllDisciplined(s, env, m, acts)
    ensures AllBehave(env, m, acts) && Orderly(s, AfterAll(env, m, acts).p)
    decreases |acts|
  {
    if acts != [] {
      DisciplinedStep(s, env, m, acts[0]);
      DisciplinedRun(s, env, Step(env, m, acts[0]), acts[1..]);
    }
  }

  /** A saved frame tells where its callee's frame is. */
  lemma FrameFromTop(s: Stacks, p: Plain, q: Plain)
    requires Orderly(s, p) && Orderly(s, q) && p.stack != [] && q.stack == p.stack
    ensures q.r[FP] == p.r[FP]
  {
  }

  /** After the act, a disciplined run that stays inside its frame until the return from it. */
  ghost predicate UpToItsReturn(s: Stacks, env: Env, m: Machine, act: Act, body: seq<Act>)
    requires StacksOk(s, env) && Ok(env, m) && Orderly(s, m.p) && Disciplined(s, env, m, act)
  {
    DisciplinedStep(s, env, m, act);
    var c := Step(env, m, act);
    && AllDisciplined(s, env, c, body)
    && (DisciplinedRun(s, env, c, body);
        var q := AfterAll(env, c, body);
        && Stays(env, c, body, |c.p.stack|) && |q.p.stack| == |c.p.stack|
        && Disciplined(s, env, q, Act.Return))
  }

  /**
   A disciplined run inside a call or an interrupt, up to its return, is one that the
   return undoes, and the return's own look for an interrupt has room.
   */
  lemma DisciplinedInside(s: Stacks, env: Env, m: Machine, act: Act, body: seq<Act>)
    requires StacksOk(s, env) && Ok(env, m) && Orderly(s, m.p) && Disciplined(s, env, m, act) && Opens(env, m, act)
    requires UpToItsReturn(s, env, m, act, body)
    ensures Inside(env, m, act, body)
    ensures Behaves(env, AfterAll(env, Step(env, m, act), body), Act.Return)
  {
    DisciplinedStep(s, env, m, act);
    var c := Step(env, m, act);
    DisciplinedRun(s, env, c, body);
    OpenedBy(env, m, act);
    FloorStays(env, c, body, |c.p.stack|);
    var q := AfterAll(env, c, body);
    assert q.p.stack == q.p.stack[..|c.p.stack|] == c.p.stack;
    FrameFromTop(s, c.p, q.p);
    ReturnOrderly(s, env, q);
  }

  lemma EmptyTable()
    ensures WellFormed(Table(0, seq(8, _ => 0)))
  {
    var t := Table(0, seq(8, _ => 0));
    forall lvl: nat | lvl < 32 ensures HasBit(t.levels, lvl) == LevelPending(t, lvl) {
      ZeroBits(lvl);
      forall v: nat | v < 256 ensures !Pending(t, v) { ZeroBits(v % 32); }
    }
  }

  /** A machine all this speaks of: a handler on the interrupt stack, and an interrupt waiting that it lets in. */
  lemma NestedExists() returns (s: Stacks, env: Env, m: Machine)
    ensures StacksOk(s, env) && Ok(env, m) && Orderly(s, m.p) && Nested(m.p.pc)
    ensures Disciplined(s, env, m, CheckImmediate) && Opens(env, m, CheckImmediate)
  {
    var r := seq(32, i => if i == FP then 0x50_0040 else if i == SP then 0x50_0080 else 0);
    s := Stacks(0x58_0000, 0x59_0000, 0x50_0000, 0x51_0000);
    env := Env(0, 0x1000, 0x50_0000, seq(248, _ => 0x2000));
    m := Machine(Plain(r, 0x2000, 0x2000, 0, []), Table(0, seq(8, _ => 0)), Holds(0x80), [0, 0, 0, 0], 0);
    EmptyTable();
    assert HasBit(0x2000, 13);
    assert Orderly(s, m.p) && EntryFits(s, m.p);
    EntryHasRoom(s, env, m.p);
  }
}
