/**
 The i960 and its interrupts as one machine without a frame cache: the plain stack,
 the pending table, the immediate slot and the interrupt lines (src/runtime/cpu.cpp).
 Its steps say which interrupt is entered and when, and here it is proved what every
 run keeps, and that calls and interrupt entries are undone by their returns.
 */
module I960Machine {
  import opened Words
  import opened PlainStack
  import opened PendingTable
  import opened I960Cpu

  /** What the interrupt setup keeps in memory: the table, the interrupt stack and the handlers of vectors 8 to 255. */
  datatype Env = Env(prcb: Word, tab: Word, intSp: Word, handlers: seq<Word>)

  /** m_immediate_irq, with its vector; its priority is the vector's level. */
  datatype Slot = Empty | Holds(vector: nat)

  datatype Machine = Machine(p: Plain, table: Table, slot: Slot, lines: seq<int>, icr: Word)

  ghost predicate EnvOk(env: Env) {
    && |env.handlers| == 248 && env.prcb % 4 == 0 && env.tab % 4 == 0 && env.tab <= WORDS - 1028
    && !(env.tab <= Add32(env.prcb, 20) < env.tab + 36) && !(env.tab <= Add32(env.prcb, 24) < env.tab + 36)
  }

  /** The words the setup lies in: the interrupt table, and the two pointers in the PRCB. */
  predicate EnvWord(env: Env, x: int) {
    env.tab <= x < env.tab + 1028 || x == Add32(env.prcb, 20) || x == Add32(env.prcb, 24)
  }

  /** None of them is in this line. */
  predicate Apart(env: Env, line: Word) {
    && (line + 64 <= env.tab || env.tab + 1028 <= line)
    && !InLine(Add32(env.prcb, 20), line) && !InLine(Add32(env.prcb, 24), line)
  }

  ghost predicate SavedApart(env: Env, stack: seq<Saved>) {
    forall k :: 0 <= k < |stack| ==>
      Apart(env, stack[k].addr) && (stack[k].record.Record? ==> Apart(env, RecordLine(stack[k].record)))
  }

  /** What every run keeps: the pending table well formed, and the setup clear of saved frames. */
  ghost predicate Ok(env: Env, m: Machine) {
    && EnvOk(env) && PlainStack.Shaped(m.p) && WellFormed(m.table)
    && (m.slot.Holds? ==> 8 <= m.slot.vector < 256)
    && |m.lines| == 4 && SavedApart(env, m.p.stack)
  }

  function Entered(env: Env, p: Plain, v: nat): Plain
    requires |env.handlers| == 248 && PlainStack.Shaped(p) && 8 <= v < 256
  {
    Enter(p, env.handlers[v - 8], env.intSp, v / 8)
  }

  /** The two lines an entry writes hold no saved frame, and nothing of the setup. */
  ghost predicate CanTake(env: Env, p: Plain) {
    CanEnter(p, env.intSp) && Apart(env, EntryLine(p)) && Apart(env, RecordLineOf(p, env.intSp))
  }

  /** Some pending vector is let in. */
  ghost predicate Takes(m: Machine)
    requires WellFormed(m.table)
  {
    exists v: nat :: Best(m.table, Priority(m.p.pc), v)
  }

  ghost function TakenVector(m: Machine): (v: nat)
    requires WellFormed(m.table) && Takes(m)
    ensures Best(m.table, Priority(m.p.pc), v) && 8 <= v < 256
  {
    var v: nat :| Best(m.table, Priority(m.p.pc), v);
    v
  }

  lemma BestUnique(t: Table, pri: nat, v: nat, u: nat)
    requires |t.vectors| == 8 && Best(t, pri, v) && Best(t, pri, u)
    ensures v == u
  {
  }

  /** check_pending_irqs: the best vector leaves the table and is entered. */
  ghost function Delivered(env: Env, m: Machine): Machine
    requires Ok(env, m)
  {
    if Takes(m) then
      var v := TakenVector(m);
      m.(p := Entered(env, m.p, v), table := Remove(m.table, v))
    else m
  }

  /** check_immediate_irqs takes the slot's vector. */
  predicate TakesSlot(m: Machine) {
    m.slot.Holds? && Allowed(Priority(m.p.pc), m.slot.vector / 8)
  }

  ghost function SlotTaken(env: Env, m: Machine): Machine
    requires Ok(env, m)
  {
    if TakesSlot(m) then m.(p := Entered(env, m.p, m.slot.vector), slot := Empty) else m
  }

  /** execute_set_input */
  function InputSet(m: Machine, line: nat, state: int): Machine
    requires |m.table.vectors| == 8 && |m.lines| == 4 && line < 4
  {
    var v, n := LineVector(m.icr, line), m.(lines := m.lines[line := state]);
    if state == 0 || state == m.lines[line] || v == 0 then n
    else if Allowed(Priority(m.p.pc), v / 8) && m.slot.Empty? then n.(slot := Holds(v))
    else n.(table := Post(m.table, v))
  }

  // ---- Runs -----------------------------------------------------------------

  /** What happens next. Exec is any instructions that only change the registers, PC and AC among them. */
  datatype Act =
    | Exec(r: seq<Word>, ip: Word, pc: Word, ac: Word)
    | Call(adr: Word)
    | Return
    | Flush
    | Store(a: Word, v: Word)
    | SetIcr(icr: Word)
    | SetInput(line: nat, state: int)
    | CheckImmediate
    | CheckPending

  /** The assumptions on the program and on the room for its entries, each only where an entry happens. */
  ghost predicate Behaves(env: Env, m: Machine, act: Act)
    requires Ok(env, m)
  {
    match act
    case Exec(r, ip, pc, ac) => |r| == 32
    case Call(adr) => LineFree(m.p.stack, Down64(m.p.r[FP])) && Apart(env, Down64(m.p.r[FP]))
    case Return =>
      && m.p.stack != [] && Down64(m.p.r[PFP]) == m.p.stack[|m.p.stack| - 1].addr
      && (m.p.r[PFP] % 8 == 7 ==> AtHandlerEnd(m.p) && (Takes(Left(m)) ==> CanTake(env, Left(m).p)))
    case Flush => true
    case Store(a, v) => a % 4 == 0 && LineFree(m.p.stack, Down64(a)) && !EnvWord(env, a)
    case SetIcr(icr) => true
    case SetInput(line, state) => line < 4
    case CheckImmediate => TakesSlot(m) ==> CanTake(env, m.p)
    case CheckPending => Takes(m) ==> CanTake(env, m.p)
  }

  /** The handler is back in the frame its entry opened. */
  predicate AtHandlerEnd(p: Plain)
    requires PlainStack.Shaped(p) && p.stack != []
  {
    var top := p.stack[|p.stack| - 1];
    top.record.Record? && p.r[FP] == top.record.fp
  }

  function Left(m: Machine): Machine
    requires CanDo(m.p, Op.EndInterrupt)
  {
    m.(p := Leave(m.p))
  }

  /** do_ret; return types other than 0 and 7 are fatal in the source and change nothing. */
  ghost function Returned(env: Env, m: Machine): Machine
    requires Ok(env, m) && Behaves(env, m, Act.Return)
  {
    if m.p.r[PFP] % 8 == 0 then m.(p := Pop(m.p))
    else if m.p.r[PFP] % 8 == 7 then LeftOk(env, m); Delivered(env, Left(m))
    else m
  }

  lemma LeftOk(env: Env, m: Machine)
    requires Ok(env, m) && CanDo(m.p, Op.EndInterrupt)
    ensures Ok(env, Left(m))
  {
  }

  ghost function Step(env: Env, m: Machine, act: Act): (n: Machine)
    requires Ok(env, m) && Behaves(env, m, act)
    ensures Ok(env, n)
  {
    match act
    case Exec(r, ip, pc, ac) => m.(p := m.p.(r := r, ip := ip, pc := pc, ac := ac))
    case Call(adr) => m.(p := PushCall(m.p, adr, 0, m.p.r[SP], NoRecord))
    case Return => ReturnOk(env, m); Returned(env, m)
    case Flush => m
    case Store(a, v) => m
    case SetIcr(icr) => m.(icr := icr)
    case SetInput(line, state) => InputOk(env, m, line, state); InputSet(m, line, state)
    case CheckImmediate => SlotOk(env, m); SlotTaken(env, m)
    case CheckPending => DeliveredOk(env, m); Delivered(env, m)
  }

  lemma EnteredOk(env: Env, p: Plain, v: nat)
    requires EnvOk(env) && CanTake(env, p) && SavedApart(env, p.stack) && 8 <= v < 256
    ensures PlainStack.Shaped(Entered(env, p, v)) && SavedApart(env, Entered(env, p, v).stack)
  {
  }

  lemma DeliveredOk(env: Env, m: Machine)
    requires Ok(env, m) && (Takes(m) ==> CanTake(env, m.p))
    ensures Ok(env, Delivered(env, m))
  {
    if Takes(m) {
      EnteredOk(env, m.p, TakenVector(m));
      RemoveCorrect(m.table, TakenVector(m));
    }
  }

  lemma SlotOk(env: Env, m: Machine)
    requires Ok(env, m) && (TakesSlot(m) ==> CanTake(env, m.p))
    ensures Ok(env, SlotTaken(env, m))
  {
    if TakesSlot(m) { EnteredOk(env, m.p, m.slot.vector); }
  }

  lemma InputOk(env: Env, m: Machine, line: nat, state: int)
    requires Ok(env, m) && line < 4
    ensures Ok(env, InputSet(m, line, state))
  {
    PostCorrect(m.table, LineVector(m.icr, line));
  }

  lemma ReturnOk(env: Env, m: Machine)
    requires Ok(env, m) && Behaves(env, m, Act.Return)
    ensures Ok(env, Returned(env, m))
  {
    if m.p.r[PFP] % 8 == 7 {
      LeftOk(env, m);
      DeliveredOk(env, Left(m));
    }
  }

  ghost predicate AllBehave(env: Env, m: Machine, acts: seq<Act>)
    requires Ok(env, m)
    decreases |acts|
  {
    acts == [] || (Behaves(env, m, acts[0]) && AllBehave(env, Step(env, m, acts[0]), acts[1..]))
  }

  ghost function AfterAll(env: Env, m: Machine, acts: seq<Act>): (n: Machine)
    requires Ok(env, m) && AllBehave(env, m, acts)
    ensures Ok(env, n)
    decreases |acts|
  {
    if acts == [] then m else AfterAll(env, Step(env, m, acts[0]), acts[1..])
  }

  lemma {:induction false} AfterConcat(env: Env, m: Machine, a: seq<Act>, b: seq<Act>)
    requires Ok(env, m) && AllBehave(env, m, a + b)
    ensures AllBehave(env, m, a) && AllBehave(env, AfterAll(env, m, a), b)
    ensures AfterAll(env, m, a + b) == AfterAll(env, AfterAll(env, m, a), b)
    decreases |a|
  {
    if a == [] {
      assert a + b == b;
    } else {
      assert (a + b)[0] == a[0] && (a + b)[1..] == a[1..] + b;
      AfterConcat(env, Step(env, m, a[0]), a[1..], b);
    }
  }

  // ---- Calls and interrupts are undone by their returns -------------------------

  /** The run never returns from the frame it starts in: it returns only while more than `floor` frames are saved. */
  ghost predicate Stays(env: Env, m: Machine, acts: seq<Act>, floor: nat)
    requires Ok(env, m) && AllBehave(env, m, acts)
    decreases |acts|
  {
    acts == [] ||
    ((acts[0].Return? ==> |m.p.stack| > floor) && Stays(env, Step(env, m, acts[0]), acts[1..], floor))
  }

  lemma StepKeepsFloor(env: Env, m: Machine, act: Act, floor: nat)
    requires Ok(env, m) && Behaves(env, m, act) && |m.p.stack| >= floor && (act.Return? ==> |m.p.stack| > floor)
    ensures var n := Step(env, m, act); |n.p.stack| >= floor && n.p.stack[..floor] == m.p.stack[..floor]
  {
  }

  /** Whatever is called, interrupted or returned from above it, the frames below the floor stay as they are. */
  lemma {:induction false} FloorStays(env: Env, m: Machine, acts: seq<Act>, floor: nat)
    requires Ok(env, m) && AllBehave(env, m, acts) && |m.p.stack| >= floor && Stays(env, m, acts, floor)
    ensures var n := AfterAll(env, m, acts); |n.p.stack| >= floor && n.p.stack[..floor] == m.p.stack[..floor]
    decreases |acts|
  {
    if acts != [] {
      StepKeepsFloor(env, m, acts[0], floor);
      FloorStays(env, Step(env, m, acts[0]), acts[1..], floor);
    }
  }

  /** An act that opens a frame: a call, or an interrupt let in. */
  ghost predicate Opens(env: Env, m: Machine, act: Act)
    requires Ok(env, m)
  {
    Behaves(env, m, act) && (act.Call? || (act.CheckImmediate? && TakesSlot(m)) || (act.CheckPending? && Takes(m)))
  }

  /** A run inside the frame that `act` opens, back in that frame at its end, its previous frame pointer kept. */
  ghost predicate Inside(env: Env, m: Machine, act: Act, body: seq<Act>)
    requires Ok(env, m)
  {
    && Opens(env, m, act)
    && var c := Step(env, m, act);
       && AllBehave(env, c, body) && Stays(env, c, body, |c.p.stack|)
       && var q := AfterAll(env, c, body);
          && |q.p.stack| == |c.p.stack|
          && Down64(q.p.r[PFP]) == Down64(c.p.r[PFP]) && q.p.r[PFP] % 8 == c.p.r[PFP] % 8
          && (!act.Call? ==> q.p.r[FP] == c.p.r[FP])
  }

  /** What a return gives back: the sixteen locals, r2 the resume address, the frame, and the frames below. */
  predicate GivesBack(p: Plain, back: Plain)
    requires |p.r| == 32
  {
    && |back.r| == 32
    && back.r[..16] == p.r[..16][RIP := p.ip] && back.ip == p.ip
    && back.r[FP] == Down64(p.r[FP]) && back.stack == p.stack
  }

  /** Where an opening act goes: the call's address, or the handler of the vector let in. */
  ghost function GoesTo(env: Env, m: Machine, act: Act): Word
    requires Ok(env, m) && Opens(env, m, act)
  {
    if act.Call? then act.adr
    else if act.CheckImmediate? then env.handlers[m.slot.vector - 8]
    else env.handlers[TakenVector(m) - 8]
  }

  /** Its level, for an interrupt. */
  ghost function LevelOf(env: Env, m: Machine, act: Act): nat
    requires Ok(env, m) && Opens(env, m, act) && !act.Call?
  {
    if act.CheckImmediate? then m.slot.vector / 8 else TakenVector(m) / 8
  }

  /** It goes there; a call keeps PC, and an interrupt brings its priority up to its level. */
  lemma OpenedAt(env: Env, m: Machine, act: Act)
    requires Ok(env, m) && Opens(env, m, act)
    ensures var c := Step(env, m, act).p;
            && c.ip == GoesTo(env, m, act)
            && (if act.Call? then c.pc == m.p.pc else RisesTo(m.p.pc, c.pc, LevelOf(env, m, act)))
            && c.r[16..31] == m.p.r[16..31] && c.r[3..16] == m.p.r[3..16]
  {
    if act.Call? {
      PushFacts(m.p, act.adr, 0, m.p.r[SP], NoRecord);
    } else if act.CheckImmediate? {
      EnterFacts(m.p, env.handlers[m.slot.vector - 8], env.intSp, m.slot.vector / 8);
    } else {
      EnterFacts(m.p, env.handlers[TakenVector(m) - 8], env.intSp, TakenVector(m) / 8);
    }
  }

  lemma OpenedBy(env: Env, m: Machine, act: Act)
    requires Ok(env, m) && Opens(env, m, act)
    ensures var c, kind := Step(env, m, act).p, if act.Call? then 0 else 7;
            && |c.stack| == |m.p.stack| + 1 && c.stack[..|m.p.stack|] == m.p.stack
            && Down64(c.r[PFP]) == Down64(m.p.r[FP]) && c.r[PFP] % 8 == kind
            && var top := c.stack[|m.p.stack|];
               && top.addr == Down64(m.p.r[FP]) && top.locals == m.p.r[..16][RIP := m.p.ip]
               && top.record == (if act.Call? then NoRecord else Record(c.r[FP], m.p.pc, m.p.ac))
  {
    PfpLine(m.p.r[FP], if act.Call? then 0 else 7);
  }

  /**
   A call, or an interrupt let in from either queue, then any run inside it (calls,
   stores, further interrupts nested to any depth), then its return: the return gives
   back the caller's locals, IP, frame and stack, and after an interrupt also PC and
   AC. What follows a type-7 return is its own look at the pending table, from there.
   */
  lemma ReturnUndoes(env: Env, m: Machine, act: Act, body: seq<Act>)
    requires Ok(env, m) && Inside(env, m, act, body)
    ensures var q := AfterAll(env, Step(env, m, act), body).p;
            && q.stack != [] && Down64(q.r[PFP]) == q.stack[|q.stack| - 1].addr
            && q.r[PFP] % 8 == (if act.Call? then 0 else 7)
            && GivesBack(m.p, Pop(q))
            && (!act.Call? ==> AtHandlerEnd(q) && GivesBack(m.p, Leave(q))
                               && Leave(q).pc == m.p.pc && Leave(q).ac == m.p.ac)
  {
    var c := Step(env, m, act);
    OpenedBy(env, m, act);
    FloorStays(env, c, body, |c.p.stack|);
    var q := AfterAll(env, c, body);
    assert q.p.stack == q.p.stack[..|c.p.stack|] == c.p.stack;
    assert m.p.stack == q.p.stack[..|q.p.stack| - 1];
  }

  // ---- Who may interrupt whom -----------------------------------------------------

  /** PC's priority field. */
  function Level(pc: Word): nat { pc / 0x1_0000 % 32 }

  /**
   All down the saved frames every interrupted code has a lower priority than what
   interrupted it, unless that has the highest of all, 31.
   */
  predicate Rising(stack: seq<Saved>, level: nat)
    decreases |stack|
  {
    stack == [] ||
    var rest, rec := stack[..|stack| - 1], stack[|stack| - 1].record;
    if rec.NoRecord? then Rising(rest, level)
    else (level > Level(rec.pc) || level == 31) && Rising(rest, Level(rec.pc))
  }

  lemma RisingHigher(stack: seq<Saved>, a: nat, b: nat)
    requires Rising(stack, a) && a <= b < 32
    ensures Rising(stack, b)
    decreases |stack|
  {
    if stack != [] && stack[|stack| - 1].record.NoRecord? {
      RisingHigher(stack[..|stack| - 1], a, b);
    }
  }

  /** The program does not lower its own priority. */
  predicate Steady(m: Machine, act: Act) {
    act.Exec? ==> Level(m.p.pc) <= Level(act.pc)
  }

  lemma EnteredRising(env: Env, p: Plain, v: nat)
    requires |env.handlers| == 248 && PlainStack.Shaped(p) && 8 <= v < 256
    requires Rising(p.stack, Level(p.pc)) && (v / 8 > Level(p.pc) || v / 8 == 31)
    ensures Rising(Entered(env, p, v).stack, Level(Entered(env, p, v).pc))
  {
    var q := Entered(env, p, v);
    HandlerLevel(p.pc, v / 8);
    assert q.stack[..|q.stack| - 1] == p.stack;
  }

  lemma DeliveredRising(env: Env, m: Machine)
    requires Ok(env, m) && Rising(m.p.stack, Level(m.p.pc))
    ensures Rising(Delivered(env, m).p.stack, Level(Delivered(env, m).p.pc))
  {
    if Takes(m) { EnteredRising(env, m.p, TakenVector(m)); }
  }

  lemma RisingStep(env: Env, m: Machine, act: Act)
    requires Ok(env, m) && Behaves(env, m, act) && Rising(m.p.stack, Level(m.p.pc)) && Steady(m, act)
    ensures var n := Step(env, m, act).p; Rising(n.stack, Level(n.pc))
  {
    match act
    case Exec(r, ip, pc, ac) => RisingHigher(m.p.stack, Level(m.p.pc), Level(pc));
    case Call(adr) =>
      var q := Step(env, m, act).p;
      assert q.stack[..|q.stack| - 1] == m.p.stack;
    case Return =>
      var rest, rec := m.p.stack[..|m.p.stack| - 1], m.p.stack[|m.p.stack| - 1].record;
      if rec.Record? { RisingHigher(rest, Level(rec.pc), Level(m.p.pc)); }
      if m.p.r[PFP] % 8 == 7 {
        LeftOk(env, m);
        DeliveredRising(env, Left(m));
      }
    case CheckImmediate => if TakesSlot(m) { EnteredRising(env, m.p, m.slot.vector); }
    case CheckPending => DeliveredRising(env, m);
    case _ =>
  }

  ghost predicate AllSteady(env: Env, m: Machine, acts: seq<Act>)
    requires Ok(env, m) && AllBehave(env, m, acts)
    decreases |acts|
  {
    acts == [] || (Steady(m, acts[0]) && AllSteady(env, Step(env, m, acts[0]), acts[1..]))
  }

  /**
   Over any run in which no code lowers its own priority: code at priority L is only
   ever interrupted by levels above L, or by 31, however deep the interrupts nest; so
   while the priority is below 31 there are at most that many of them.
   */
  lemma {:induction false} RisingRun(env: Env, m: Machine, acts: seq<Act>)
    requires Ok(env, m) && AllBehave(env, m, acts) && AllSteady(env, m, acts) && Rising(m.p.stack, Level(m.p.pc))
    ensures var n := AfterAll(env, m, acts).p;
            && Rising(n.stack, Level(n.pc))
            && (Level(n.pc) < 31 ==> Interrupts(n.stack) <= Level(n.pc))
    decreases |acts|
  {
    if acts == [] {
      NestingBounded(m.p.stack, Level(m.p.pc));
    } else {
      RisingStep(env, m, acts[0]);
      RisingRun(env, Step(env, m, acts[0]), acts[1..]);
    }
  }

  /** How many saved frames are an interrupted code's. */
  function Interrupts(stack: seq<Saved>): nat
    decreases |stack|
  {
    if stack == [] then 0
    else Interrupts(stack[..|stack| - 1]) + (if stack[|stack| - 1].record.Record? then 1 else 0)
  }

  lemma {:induction false} NestingBounded(stack: seq<Saved>, level: nat)
    requires Rising(stack, level)
    ensures level < 31 ==> Interrupts(stack) <= level
    decreases |stack|
  {
    if stack != [] {
      var rec := stack[|stack| - 1].record;
      NestingBounded(stack[..|stack| - 1], if rec.NoRecord? then level else Level(rec.pc));
    }
  }
}
