/**
 Whole runs of the i960 context with its interrupts: calls, returns, flushes, stores,
 interrupt lines and both interrupt queues, in any order and at any depth, on the
 class with the frame cache and the tables in memory (src/runtime/cpu.cpp).
 */
module I960Run {
  import opened Words
  import opened PlainStack
  import opened PendingTable
  import opened I960Cpu
  import opened I960Machine
  import opened I960Stacks

  /** The interrupt setup as it stands in memory. */
  ghost predicate SetupIn(m: imap<int, Word>, env: Env)
    requires Whole(m)
  {
    && m[Add32(env.prcb, 20)] == env.tab && m[Add32(env.prcb, 24)] == env.intSp
    && |env.handlers| == 248
    && forall v: nat {:trigger env.handlers[v - 8]} :: 8 <= v < 256 ==> m[HandlerAt(env.tab, v)] == env.handlers[v - 8]
  }

  function HandlerAt(tab: Word, v: nat): Word { Add32(tab, 36 + (v - 8) * 4) }

  /** The class stands for this machine. */
  ghost predicate Stands(cpu: Cpu, env: Env, m: Machine)
    reads cpu, cpu.r, cpu.rcache, cpu.frameAddr, cpu.bus, cpu.bus.workRam
  {
    && Holds(cpu, env, m.p, m.table)
    && cpu.lineState == m.lines && cpu.icr == m.icr
    && SlotStands(cpu, m.slot)
  }

  /** Its registers, saved frames and pending table are these, and the setup is in memory. */
  ghost predicate Holds(cpu: Cpu, env: Env, p: Plain, t: Table)
    reads cpu, cpu.r, cpu.rcache, cpu.frameAddr, cpu.bus, cpu.bus.workRam
  {
    && cpu.Valid()
    && cpu.prcb == env.prcb && SetupIn(cpu.bus.Words(), env)
    && cpu.View() == p && TableIn(cpu.bus.Words(), env.tab) == t
  }

  ghost predicate SlotStands(cpu: Cpu, slot: Slot)
    reads cpu
  {
    && cpu.immediateIrq == slot.Holds?
    && (slot.Holds? ==> cpu.immediateVector == slot.vector && cpu.immediatePri == slot.vector / 8)
  }

  // ---- What writes leave alone -----------------------------------------------

  /** From m to n, no word of the setup has changed, but for the table's own nine. */
  ghost predicate SetupSame(m: imap<int, Word>, n: imap<int, Word>, env: Env)
    requires Whole(m) && Whole(n)
  {
    forall x: int {:trigger n[x]} ::
      x % 4 == 0 && EnvWord(env, x) && !(env.tab <= x < env.tab + 36) ==> n[x] == m[x]
  }

  ghost predicate TableSame(m: imap<int, Word>, n: imap<int, Word>, env: Env)
    requires Whole(m) && Whole(n)
  {
    forall x: int {:trigger n[x]} :: x % 4 == 0 && env.tab <= x < env.tab + 36 ==> n[x] == m[x]
  }

  lemma SetupKept(m: imap<int, Word>, n: imap<int, Word>, env: Env)
    requires Whole(m) && Whole(n) && EnvOk(env) && SetupIn(m, env) && SetupSame(m, n, env)
    ensures SetupIn(n, env)
  {
    Add32Aligned(env.prcb, 20);
    Add32Aligned(env.prcb, 24);
    forall v: nat | 8 <= v < 256 ensures n[HandlerAt(env.tab, v)] == env.handlers[v - 8] {
      HandlerApart(env.tab, v);
    }
  }

  lemma TableSameIn(m: imap<int, Word>, n: imap<int, Word>, env: Env)
    requires Whole(m) && Whole(n) && EnvOk(env) && TableSame(m, n, env)
    ensures TableIn(n, env.tab) == TableIn(m, env.tab)
  {
    forall i: nat | i < 8 ensures n[env.tab + 4 + 4 * i] == m[env.tab + 4 + 4 * i] {
      TableLine(env.tab, i + 1);
    }
  }

  /** Writes into lines apart from the setup. */
  lemma LinesLeave(m: imap<int, Word>, n: imap<int, Word>, env: Env, a: Word, b: Word)
    requires Whole(m) && Whole(n) && EnvOk(env) && SetupIn(m, env)
    requires OnlyLines(m, n, a, b) && Apart(env, a) && Apart(env, b)
    ensures SetupIn(n, env) && TableIn(n, env.tab) == TableIn(m, env.tab)
  {
    SetupKept(m, n, env);
    TableSameIn(m, n, env);
  }

  /** Writes into the lines of saved frames. */
  lemma FramesLeave(m: imap<int, Word>, n: imap<int, Word>, env: Env, stack: seq<Saved>)
    requires Whole(m) && Whole(n) && EnvOk(env) && SetupIn(m, env)
    requires OnlyFrames(m, n, stack) && SavedApart(env, stack)
    ensures SetupIn(n, env) && TableIn(n, env.tab) == TableIn(m, env.tab)
  {
    forall x: int | x % 4 == 0 && EnvWord(env, x) ensures n[x] == m[x] {
      assert forall k :: 0 <= k < |stack| ==> !InLine(x, stack[k].addr);
    }
    SetupKept(m, n, env);
    TableSameIn(m, n, env);
  }

  /** What a look for interrupts writes. */
  lemma DeliveryLeaves(m: imap<int, Word>, n: imap<int, Word>, env: Env, o: Outcome, p: Plain)
    requires Whole(m) && Whole(n) && EnvOk(env) && SetupIn(m, env) && PlainStack.Shaped(p)
    requires OnlyDelivery(m, n, env.tab, o, p, env.intSp) && (o.Taken? ==> CanTake(env, p))
    ensures SetupIn(n, env)
  {
    SetupKept(m, n, env);
  }

  // ---- What a standing class may do --------------------------------------------

  lemma ApartLine(env: Env, line: Word)
    requires EnvOk(env) && Apart(env, line)
    ensures LineApart(line, env.prcb, env.tab)
  {
    NoWrap(env.tab, 32);
    Down64Line(env.tab);
    Down64Line(env.tab + 32);
    Down64Line(Add32(env.prcb, 20));
    Down64Line(Add32(env.prcb, 24));
  }

  lemma SetupPlaced(m: imap<int, Word>, env: Env, stack: seq<Saved>)
    requires Whole(m) && EnvOk(env) && SetupIn(m, env) && SavedApart(env, stack)
    ensures PlacedIn(m, env.prcb, stack)
  {
    NoWrap(env.tab, 32);
    forall k | 0 <= k < |stack|
      ensures stack[k].addr != Down64(env.tab) && stack[k].addr != Down64(env.tab + 32)
      ensures stack[k].record.Record? ==>
                RecordLine(stack[k].record) != Down64(env.tab) && RecordLine(stack[k].record) != Down64(env.tab + 32)
    {
      ApartLine(env, stack[k].addr);
      if stack[k].record.Record? { ApartLine(env, RecordLine(stack[k].record)); }
    }
  }

  /** What the scan of a well-formed table says is the machine's delivery. */
  lemma ScanIsDelivery(env: Env, m: Machine, o: Outcome, after: Table)
    requires Ok(env, m) && ScanResult(m.table, Priority(m.p.pc), o, after)
    ensures !o.Recovered?
    ensures o.Taken? <==> Takes(m)
    ensures o.Taken? ==> o.vector == TakenVector(m) && o.lvl == o.vector / 8 && 8 <= o.vector < 256
    ensures after == Delivered(env, m).table
  {
    ScanCorrect(m.table, Priority(m.p.pc), o, after);
    if Takes(m) {
      assert Best(m.table, Priority(m.p.pc), TakenVector(m));
      if o.Taken? { BestUnique(m.table, Priority(m.p.pc), o.vector, TakenVector(m)); }
    }
  }

  lemma MayTakeTakes(m: Machine)
    requires WellFormed(m.table) && MayTake(m.table, Priority(m.p.pc))
    ensures Takes(m)
  {
    var v: nat :| v < 256 && Pending(m.table, v) && HasBit(m.table.levels, v / 8) && Allowed(Priority(m.p.pc), v / 8);
    BestExists(m.table, Priority(m.p.pc), v);
  }

  // ---- The steps ------------------------------------------------------------------

  method DoExec(cpu: Cpu, ghost env: Env, ghost m: Machine, act: Act)
    requires Ok(env, m) && Stands(cpu, env, m) && act.Exec? && Behaves(env, m, act)
    modifies cpu, cpu.r, cpu.rcache, cpu.frameAddr, cpu.bus, cpu.bus.workRam
    ensures Stands(cpu, env, Step(env, m, act))
  {
    cpu.Exec(act.r, act.ip, act.pc, act.ac);
  }

  method DoPush(cpu: Cpu, ghost env: Env, ghost m: Machine, act: Act)
    requires Ok(env, m) && Stands(cpu, env, m) && act.Call? && Behaves(env, m, act)
    modifies cpu, cpu.r, cpu.rcache, cpu.frameAddr, cpu.bus, cpu.bus.workRam
    ensures Stands(cpu, env, Step(env, m, act))
  {
    ghost var line, words := Down64(cpu.r[FP]), cpu.bus.Words();
    cpu.DoCall(act.adr, 0, cpu.r[SP]);
    LinesLeave(words, cpu.bus.Words(), env, line, line);
  }

  method DoFlush(cpu: Cpu, ghost env: Env, ghost m: Machine)
    requires Ok(env, m) && Stands(cpu, env, m)
    modifies cpu, cpu.r, cpu.rcache, cpu.frameAddr, cpu.bus, cpu.bus.workRam
    ensures Stands(cpu, env, m)
  {
    ghost var words := cpu.bus.Words();
    cpu.FlushReg();
    FramesLeave(words, cpu.bus.Words(), env, cpu.stack);
  }

  method DoStore(cpu: Cpu, ghost env: Env, ghost m: Machine, act: Act)
    requires Ok(env, m) && Stands(cpu, env, m) && act.Store? && Behaves(env, m, act)
    modifies cpu, cpu.r, cpu.rcache, cpu.frameAddr, cpu.bus, cpu.bus.workRam
    ensures Stands(cpu, env, m)
  {
    ghost var words := cpu.bus.Words();
    cpu.Store(act.a, act.v);
    SetupKept(words, cpu.bus.Words(), env);
    TableSameIn(words, cpu.bus.Words(), env);
  }

  method DoInput(cpu: Cpu, ghost env: Env, ghost m: Machine, act: Act)
    requires Ok(env, m) && Stands(cpu, env, m) && act.SetInput? && Behaves(env, m, act)
    modifies cpu, cpu.r, cpu.rcache, cpu.frameAddr, cpu.bus, cpu.bus.workRam
    ensures Stands(cpu, env, Step(env, m, act))
  {
    ghost var words := cpu.bus.Words();
    SetupPlaced(words, env, cpu.stack);
    cpu.ExecuteSetInput(act.line, act.state);
    SetupKept(words, cpu.bus.Words(), env);
  }

  method DoImmediate(cpu: Cpu, ghost env: Env, ghost m: Machine)
    requires Ok(env, m) && Stands(cpu, env, m) && Behaves(env, m, CheckImmediate)
    modifies cpu, cpu.r, cpu.rcache, cpu.frameAddr, cpu.bus, cpu.bus.workRam
    ensures Stands(cpu, env, Step(env, m, CheckImmediate))
  {
    ghost var words := cpu.bus.Words();
    var taken := cpu.CheckImmediateIrqs();
    if taken {
      LinesLeave(words, cpu.bus.Words(), env, EntryLine(m.p), RecordLineOf(m.p, env.intSp));
      assert words[HandlerAt(env.tab, m.slot.vector)] == env.handlers[m.slot.vector - 8];
    }
  }

  /** check_pending_irqs is the machine's delivery. */
  method LookPending(cpu: Cpu, ghost env: Env, ghost m: Machine) returns (o: Outcome)
    requires Ok(env, m) && Holds(cpu, env, m.p, m.table) && Behaves(env, m, CheckPending)
    modifies cpu`pos, cpu`stack, cpu`ip, cpu`pc, cpu.r, cpu.rcache, cpu.frameAddr, cpu.bus, cpu.bus.workRam
    ensures Holds(cpu, env, Delivered(env, m).p, Delivered(env, m).table) && !o.Recovered?
  {
    ghost var words := cpu.bus.Words();
    SetupPlaced(words, env, cpu.stack);
    EntryIsReady(cpu, env, m, m.p);
    o := cpu.CheckPendingIrqs();
    AfterLook(words, cpu.bus.Words(), env, m, o);
  }

  method DoPending(cpu: Cpu, ghost env: Env, ghost m: Machine) returns (o: Outcome)
    requires Ok(env, m) && Stands(cpu, env, m) && Behaves(env, m, CheckPending)
    modifies cpu, cpu.r, cpu.rcache, cpu.frameAddr, cpu.bus, cpu.bus.workRam
    ensures Stands(cpu, env, Step(env, m, CheckPending)) && !o.Recovered?
  {
    o := LookPending(cpu, env, m);
  }

  /** Where the machine's own assumptions give room for an entry, the class has it. */
  lemma EntryIsReady(cpu: Cpu, env: Env, m: Machine, p: Plain)
    requires cpu.Shape() && cpu.prcb == env.prcb && SetupIn(cpu.bus.Words(), env) && EnvOk(env)
    requires WellFormed(m.table) && m.p == p && (Takes(m) ==> CanTake(env, p))
    ensures MayTake(m.table, Priority(p.pc)) ==> cpu.EntryReady(p)
  {
    if MayTake(m.table, Priority(p.pc)) {
      MayTakeTakes(m);
      ApartLine(env, EntryLine(p));
      ApartLine(env, RecordLineOf(p, env.intSp));
    }
  }

  /** The memory after a look for interrupts, and the vector taken. */
  lemma AfterLook(words: imap<int, Word>, now: imap<int, Word>, env: Env, m: Machine, o: Outcome)
    requires Whole(words) && Whole(now) && Ok(env, m) && SetupIn(words, env)
    requires TableIn(words, env.tab) == m.table && (Takes(m) ==> CanTake(env, m.p))
    requires ScanResult(m.table, Priority(m.p.pc), o, TableIn(now, env.tab))
    requires OnlyDelivery(words, now, env.tab, o, m.p, env.intSp)
    ensures SetupIn(now, env) && !o.Recovered? && (o.Taken? ==> 8 <= o.vector < 256 && o.lvl < 32)
    ensures Delivered(env, m) == m.(
              p := if o.Taken? then Enter(m.p, words[HandlerAt(env.tab, o.vector)], env.intSp, o.lvl) else m.p,
              table := TableIn(now, env.tab))
  {
    ScanIsDelivery(env, m, o, TableIn(now, env.tab));
    DeliveryLeaves(words, now, env, o, m.p);
  }

  /** A return of any type but 7. */
  method DoPlainReturn(cpu: Cpu, ghost env: Env, ghost m: Machine) returns (o: Outcome)
    requires Ok(env, m) && Stands(cpu, env, m) && Behaves(env, m, Act.Return) && cpu.r[PFP] % 8 != 7
    modifies cpu, cpu.r, cpu.rcache, cpu.frameAddr, cpu.bus, cpu.bus.workRam
    ensures Stands(cpu, env, Step(env, m, Act.Return)) && !o.Recovered?
  {
    var ok;
    ok, o := cpu.DoRet();
  }

  /** A return of type 7, with its look for another interrupt. */
  method LeaveAndLook(cpu: Cpu, ghost env: Env, ghost m: Machine) returns (o: Outcome)
    requires Ok(env, m) && Holds(cpu, env, m.p, m.table) && Behaves(env, m, Act.Return) && cpu.r[PFP] % 8 == 7
    modifies cpu`pos, cpu`stack, cpu`base, cpu`ip, cpu`pc, cpu`ac
    modifies cpu.r, cpu.rcache, cpu.frameAddr, cpu.bus, cpu.bus.workRam
    ensures Holds(cpu, env, Returned(env, m).p, Returned(env, m).table) && !o.Recovered?
  {
    ghost var words := cpu.bus.Words();
    SetupPlaced(words, env, cpu.stack);
    cpu.ResumedIsLeave();
    LeftOk(env, m);
    EntryIsReady(cpu, env, Left(m), Leave(m.p));
    var ok;
    ok, o := cpu.DoRet();
    AfterLook(words, cpu.bus.Words(), env, Left(m), o);
  }

  method DoLeave(cpu: Cpu, ghost env: Env, ghost m: Machine) returns (o: Outcome)
    requires Ok(env, m) && Stands(cpu, env, m) && Behaves(env, m, Act.Return) && cpu.r[PFP] % 8 == 7
    modifies cpu, cpu.r, cpu.rcache, cpu.frameAddr, cpu.bus, cpu.bus.workRam
    ensures Stands(cpu, env, Step(env, m, Act.Return)) && !o.Recovered?
  {
    o := LeaveAndLook(cpu, env, m);
  }

  method DoReturn(cpu: Cpu, ghost env: Env, ghost m: Machine) returns (o: Outcome)
    requires Ok(env, m) && Stands(cpu, env, m) && Behaves(env, m, Act.Return)
    modifies cpu, cpu.r, cpu.rcache, cpu.frameAddr, cpu.bus, cpu.bus.workRam
    ensures Stands(cpu, env, Step(env, m, Act.Return)) && !o.Recovered?
  {
    if cpu.r[PFP] % 8 == 7 {
      o := DoLeave(cpu, env, m);
    } else {
      o := DoPlainReturn(cpu, env, m);
    }
  }

  /** One step of the class is one step of the machine; a level marked without a vector is never met. */
  method DoStep(cpu: Cpu, ghost env: Env, ghost m: Machine, act: Act) returns (o: Outcome)
    requires Ok(env, m) && Stands(cpu, env, m) && Behaves(env, m, act)
    modifies cpu, cpu.r, cpu.rcache, cpu.frameAddr, cpu.bus, cpu.bus.workRam
    ensures Stands(cpu, env, Step(env, m, act)) && !o.Recovered?
  {
    o := Nothing;
    match act {
      case Exec(_, _, _, _) => DoExec(cpu, env, m, act);
      case Call(_) => DoPush(cpu, env, m, act);
      case Return => o := DoReturn(cpu, env, m);
      case Flush => DoFlush(cpu, env, m);
      case Store(_, _) => DoStore(cpu, env, m, act);
      case SetIcr(icr) => cpu.icr := icr;
      case SetInput(_, _) => DoInput(cpu, env, m, act);
      case CheckImmediate => DoImmediate(cpu, env, m);
      case CheckPending => o := DoPending(cpu, env, m);
    }
  }

  /**
   Any run: the class with its four-entry frame cache, spilled frames and tables in
   memory does what the machine does, the pending table stays well formed, and the
   repair of a level without a vector never happens.
   */
  method RunMachine(cpu: Cpu, ghost env: Env, ghost m: Machine, acts: seq<Act>) returns (outcomes: seq<Outcome>)
    requires Ok(env, m) && Stands(cpu, env, m) && AllBehave(env, m, acts)
    modifies cpu, cpu.r, cpu.rcache, cpu.frameAddr, cpu.bus, cpu.bus.workRam
    ensures Stands(cpu, env, AfterAll(env, m, acts))
    ensures WellFormed(cpu.TableNow())
    ensures |outcomes| == |acts| && forall o :: o in outcomes ==> !o.Recovered?
  {
    outcomes := [];
    ghost var n := m;
    var i := 0;
    while i < |acts|
      invariant 0 <= i <= |acts| == |outcomes| + |acts| - i
      invariant Ok(env, n) && Stands(cpu, env, n) && AllBehave(env, n, acts[i..])
      invariant AfterAll(env, n, acts[i..]) == AfterAll(env, m, acts)
      invariant forall o :: o in outcomes ==> !o.Recovered?
    {
      assert acts[i..][1..] == acts[i + 1..];
      var o := DoStep(cpu, env, n, acts[i]);
      n := Step(env, n, acts[i]);
      outcomes := outcomes + [o];
      i := i + 1;
    }
  }

  /** What the return from a frame entered at `before` leaves, q being the machine just before it. */
  ghost predicate CameBack(env: Env, act: Act, before: Plain, q: Machine, after: Plain)
    requires Ok(env, q) && |before.r| == 32
  {
    if act.Call? then GivesBack(before, after)
    else
      && CanDo(q.p, Op.EndInterrupt)
      && var back := Left(q);
         && GivesBack(before, back.p) && back.p.pc == before.pc && back.p.ac == before.ac
         && after == if Takes(back) then Entered(env, back.p, TakenVector(back)) else back.p
  }

  /** What the return does, on the machine. */
  lemma Undone(env: Env, m: Machine, act: Act, body: seq<Act>)
    requires Ok(env, m) && Inside(env, m, act, body)
    requires var q := AfterAll(env, Step(env, m, act), body);
             !act.Call? && CanDo(q.p, Op.EndInterrupt) && Takes(Left(q)) ==> CanTake(env, Left(q).p)
    ensures var q := AfterAll(env, Step(env, m, act), body);
            Behaves(env, q, Act.Return) && CameBack(env, act, m.p, q, Step(env, q, Act.Return).p)
  {
    ReturnUndoes(env, m, act, body);
  }

  /**
   A call, or an interrupt let in from either queue, then any run inside it (calls,
   stores, interrupts nested to any depth), then its return, on the class: the locals,
   IP, frame and stack of the code that was left are back; after an interrupt PC and
   AC, which the return reads from the record in memory, are back too, up to the next
   interrupt that the return itself may let in.
   */
  method RoundTrip(cpu: Cpu, ghost env: Env, ghost m: Machine, act: Act, body: seq<Act>)
    requires Ok(env, m) && Stands(cpu, env, m) && Inside(env, m, act, body)
    requires var q := AfterAll(env, Step(env, m, act), body);
             !act.Call? && CanDo(q.p, Op.EndInterrupt) && Takes(Left(q)) ==> CanTake(env, Left(q).p)
    modifies cpu, cpu.r, cpu.rcache, cpu.frameAddr, cpu.bus, cpu.bus.workRam
    ensures CameBack(env, act, old(cpu.View()), AfterAll(env, Step(env, m, act), body), cpu.View())
  {
    ghost var c := Step(env, m, act);
    ghost var q := AfterAll(env, c, body);
    Undone(env, m, act, body);
    var _ := DoStep(cpu, env, m, act);
    var _ := RunMachine(cpu, env, c, body);
    var _ := DoStep(cpu, env, q, Act.Return);
  }

  /** Any run of a disciplined program: nothing is assumed of the entries but that the stacks do not overflow. */
  method RunDisciplined(s: Stacks, cpu: Cpu, ghost env: Env, ghost m: Machine, acts: seq<Act>)
    returns (outcomes: seq<Outcome>)
    requires Ok(env, m) && Stands(cpu, env, m) && StacksOk(s, env) && Orderly(s, m.p) && AllDisciplined(s, env, m, acts)
    modifies cpu, cpu.r, cpu.rcache, cpu.frameAddr, cpu.bus, cpu.bus.workRam
    ensures AllBehave(env, m, acts) && Stands(cpu, env, AfterAll(env, m, acts))
    ensures Orderly(s, cpu.View()) && WellFormed(cpu.TableNow())
    ensures |outcomes| == |acts| && forall o :: o in outcomes ==> !o.Recovered?
  {
    DisciplinedRun(s, env, m, acts);
    outcomes := RunMachine(cpu, env, m, acts);
  }

  /** A disciplined call, or interrupt, and its return. */
  method RoundTripDisciplined(s: Stacks, cpu: Cpu, ghost env: Env, ghost m: Machine, act: Act, body: seq<Act>)
    requires Ok(env, m) && Stands(cpu, env, m) && StacksOk(s, env) && Orderly(s, m.p)
    requires Disciplined(s, env, m, act) && Opens(env, m, act) && UpToItsReturn(s, env, m, act, body)
    modifies cpu, cpu.r, cpu.rcache, cpu.frameAddr, cpu.bus, cpu.bus.workRam
    ensures Inside(env, m, act, body)
    ensures CameBack(env, act, old(cpu.View()), AfterAll(env, Step(env, m, act), body), cpu.View())
  {
    DisciplinedInside(s, env, m, act, body);
    RoundTrip(cpu, env, m, act, body);
  }
}
