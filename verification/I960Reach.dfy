/**
 Reachability over an i960 image (src/i960/reach.cpp): the worklist, and what its
 answer is worth at run time. An instruction that has been found and goes somewhere
 directly takes the reference executor to what has been found too, with two
 exceptions: a faultno that branches, and a branch whose low displacement bits carry
 out of those that an earlier branch has left in IP.
 */
module I960Reach {
  import opened Words
  import opened Decode
  import opened Executor
  import R = Reach

  type Read = Word -> Option<Word>

  /** read(pc + 4).value_or(0) */
  function SecondWord(read: Read, pc: Word): Word {
    var w := read(Add32(pc, 4));
    if w.Some? then w.value else 0
  }

  function DecodedAt(read: Read, regs: RegTable, pc: Word): Insn
    requires read(pc).Some?
  {
    Decode.Decode(pc, read(pc).value, SecondWord(read, pc), regs)
  }

  predicate EndsPath(flow: Flow) { flow.Branch? || flow.Ret? || flow.BranchInd? }

  predicate IndirectSite(flow: Flow) { Indirect(flow) || flow.CallSys? }

  /** A decoded instruction as control flow sees it. */
  function Outline(d: Insn): R.Insn<Word> {
    R.Insn(Following(d), if d.hasTarget then [d.target] else [], IndirectSite(d.FlowOf()), EndsPath(d.FlowOf()), false)
  }

  function SiteAt(read: Read, regs: RegTable, pc: Word): R.Site<Word> {
    if read(pc).None? then R.Unmapped
    else if !DecodedAt(read, regs, pc).Executable() then R.Stop
    else R.Code(Outline(DecodedAt(read, regs, pc)))
  }

  function Program(read: Read, regs: RegTable): R.Image<Word> {
    R.Image(pc => SiteAt(read, regs, pc), WordOf)
  }

  /** The opcodes after which nothing follows: b, ret and bx. */
  predicate Stops(major: nat) { major == 0x08 || major == 0x0a || major == 0x84 }

  /** The opcodes that have a target: b, call, bal, the bxx and the COBR branches. */
  predicate HasTarget(major: nat) {
    || major == 0x08 || major == 0x09 || major == 0x0b || 0x10 <= major <= 0x17
    || 0x30 <= major <= 0x37 || 0x39 <= major <= 0x3e
  }

  /** Two words: a MEM instruction whose mode has a displacement word. */
  predicate TwoWords(w: Word) {
    Major(w) >= 0x80 && Memb(w) && var mode := w / 0x400 % 16; mode == 5 || 12 <= mode <= 15
  }

  /** By opcode, what reachability makes of an instruction of the CTRL, COBR and MEM formats. */
  lemma ByOpcode(addr: Word, w: Word, w1: Word, regs: RegTable)
    requires var d := Decode.Decode(addr, w, w1, regs); d.Executable() && !d.fmt.Reg?
    ensures var d := Decode.Decode(addr, w, w1, regs);
            && (EndsPath(d.FlowOf()) <==> Stops(Major(w)))
            && (IndirectSite(d.FlowOf()) <==> 0x84 <= Major(w) <= 0x86)
            && (d.hasTarget <==> HasTarget(Major(w)))
            && (d.hasTarget ==> d.target == Add32(addr, if Major(w) < 0x20 then Sext24(w) else Sext13(w)))
            && d.addr == addr && d.length == if TwoWords(w) then 8 else 4
  {
  }

  /** And of the REG format, by the table's flow for it: calls goes on, and is an indirect site. */
  lemma ByFlow(addr: Word, w: Word, w1: Word, regs: RegTable)
    requires var d := Decode.Decode(addr, w, w1, regs); d.Executable() && d.fmt.Reg?
    ensures regs.op(w).Some?
    ensures var d, flow := Decode.Decode(addr, w, w1, regs), regs.op(w).value.flow;
            && (EndsPath(d.FlowOf()) <==> flow.Branch? || flow.Ret? || flow.BranchInd?)
            && (IndirectSite(d.FlowOf()) <==> flow.BranchInd? || flow.BalInd? || flow.CallInd? || flow.CallSys?)
            && !d.hasTarget && d.addr == addr && d.length == 4
  {
  }

  /** ReachResult; the sorted vectors of the source are the sets they are made from. */
  datatype Answer = Answer(insns: map<Word, Insn>, indirect: set<Word>, stops: set<Word>, unmapped: set<Word>) {
    /** The result it stands for. */
    ghost function Outlined(): R.Result<Word> {
      R.Result(map pc | pc in insns :: Outline(insns[pc]), indirect, stops, unmapped)
    }

    function With(pc: Word, d: Insn): Answer {
      Answer(insns[pc := d], if IndirectSite(d.FlowOf()) then indirect + {pc} else indirect, stops, unmapped)
    }
  }

  /** Every instruction found is the decoding of its address. */
  ghost predicate Decoded(read: Read, regs: RegTable, insns: map<Word, Insn>) {
    forall pc :: pc in insns ==> read(pc).Some? && insns[pc] == DecodedAt(read, regs, pc)
  }

  /** The worklist is on the way to the exact answer, with `todo` left to take up. */
  ghost predicate Going(read: Read, regs: RegTable, seeds: seq<Word>, a: Answer, todo: set<Word>) {
    R.Progress(Program(read, regs), seeds, a.Outlined(), todo) && Decoded(read, regs, a.insns)
  }

  /** The worklist's addresses, as they will be taken up. */
  ghost function Todo(work: seq<Word>): set<Word> {
    set t | t in work :: WordOf(t)
  }

  lemma TodoIs(read: Read, regs: RegTable, work: seq<Word>)
    ensures R.Todo(Program(read, regs), work) == Todo(work)
  {
  }

  lemma Start(read: Read, regs: RegTable, seeds: seq<Word>)
    ensures Going(read, regs, seeds, Answer(map[], {}, {}, {}), Todo(seeds))
  {
    R.Started(Program(read, regs), seeds);
    TodoIs(read, regs, seeds);
    assert Answer(map[], {}, {}, {}).Outlined() == R.Result(map[], {}, {}, {});
  }

  lemma TakeUp(work: seq<Word>)
    requires |work| > 0
    ensures Todo(work) == Todo(work[1..]) + {WordOf(work[0])}
  {
    assert forall t :: t in work <==> t == work[0] || t in work[1..];
  }

  function Pushed(work: seq<Word>, d: Insn): seq<Word> {
    if d.hasTarget then work + [d.target] else work
  }

  /** What is left to take up after pc's instruction. */
  ghost function Left(work: seq<Word>, d: Insn): set<Word> {
    if EndsPath(d.FlowOf()) then Todo(Pushed(work, d)) else Todo(Pushed(work, d)) + {Following(d)}
  }

  lemma AfterIs(p: R.Image<Word>, work: seq<Word>, pc: Word, d: Insn)
    requires forall w :: p.Align(w) == WordOf(w)
    ensures R.After(p, Todo(work), pc, Outline(d)) == Left(work, d)
  {
    assert R.Todo(p, Outline(d).targets) == Todo(Outline(d).targets);
    if d.hasTarget { assert forall t :: t in Pushed(work, d) <==> t in work || t == d.target; }
  }

  lemma OutlinedWith(a: Answer, pc: Word, d: Insn)
    ensures a.With(pc, d).Outlined() == R.Noted(a.Outlined(), pc, Outline(d))
  {
  }

  lemma DecodedWith(read: Read, regs: RegTable, a: Answer, pc: Word, d: Insn)
    requires Decoded(read, regs, a.insns) && read(pc).Some? && d == DecodedAt(read, regs, pc)
    ensures Decoded(read, regs, a.With(pc, d).insns)
  {
  }

  /**
   Where reachability goes on from an instruction, by opcode: to the one after it, but for
   b, ret and bx, and to the word of its target.
   */
  lemma GoesByOpcode(read: Read, regs: RegTable, pc: Word, b: Word)
    requires read(pc).Some?
    requires var d := DecodedAt(read, regs, pc); d.Executable() && !d.fmt.Reg?
    ensures var w := read(pc).value;
            R.Goes(Program(read, regs), pc, b) <==>
              || (!Stops(Major(w)) && b == Add32(pc, if TwoWords(w) then 8 else 4))
              || (HasTarget(Major(w)) && b == WordOf(Add32(pc, if Major(w) < 0x20 then Sext24(w) else Sext13(w))))
  {
    var d := DecodedAt(read, regs, pc);
    ByOpcode(pc, read(pc).value, SecondWord(read, pc), regs);
    CodeAt(read, regs, pc, d);
    OutlineGoes(Program(read, regs), pc, d, b);
  }

  lemma OutlineGoes(p: R.Image<Word>, pc: Word, d: Insn, b: Word)
    requires p.at(pc) == R.Code(Outline(d)) && forall w :: p.Align(w) == WordOf(w)
    ensures R.Goes(p, pc, b) <==> (!EndsPath(d.FlowOf()) && b == Following(d)) || (d.hasTarget && b == WordOf(d.target))
  {
    if d.hasTarget { assert d.target in Outline(d).targets; }
  }

  lemma NoteOutline(p: R.Image<Word>, seeds: seq<Word>, a: Answer, work: seq<Word>, pc: Word, d: Insn)
    requires p.at(pc) == R.Code(Outline(d)) && forall w :: p.Align(w) == WordOf(w)
    requires R.Progress(p, seeds, a.Outlined(), Todo(work) + {pc})
    ensures R.Progress(p, seeds, a.With(pc, d).Outlined(), Left(work, d))
  {
    R.NoteInsn(p, seeds, a.Outlined(), Todo(work), pc);
    AfterIs(p, work, pc, d);
    OutlinedWith(a, pc, d);
    R.SameProgress(p, seeds, R.Noted(a.Outlined(), pc, Outline(d)), a.With(pc, d).Outlined(),
                   R.After(p, Todo(work), pc, Outline(d)), Left(work, d));
  }

  lemma CodeAt(read: Read, regs: RegTable, pc: Word, d: Insn)
    requires read(pc).Some? && d == DecodedAt(read, regs, pc) && d.Executable()
    ensures Program(read, regs).at(pc) == R.Code(Outline(d))
  {
  }

  lemma AtInsn(read: Read, regs: RegTable, seeds: seq<Word>, a: Answer, work: seq<Word>, pc: Word, d: Insn)
    requires Going(read, regs, seeds, a, Todo(work) + {pc})
    requires read(pc).Some? && d == DecodedAt(read, regs, pc) && d.Executable()
    ensures Going(read, regs, seeds, a.With(pc, d), Left(work, d))
  {
    CodeAt(read, regs, pc, d);
    NoteOutline(Program(read, regs), seeds, a, work, pc, d);
    DecodedWith(read, regs, a, pc, d);
  }

  lemma AtUnmapped(read: Read, regs: RegTable, seeds: seq<Word>, a: Answer, todo: set<Word>, pc: Word)
    requires Going(read, regs, seeds, a, todo + {pc}) && read(pc).None?
    ensures Going(read, regs, seeds, a.(unmapped := a.unmapped + {pc}), todo)
  {
    R.NoteUnmapped(Program(read, regs), seeds, a.Outlined(), todo, pc);
  }

  lemma AtStop(read: Read, regs: RegTable, seeds: seq<Word>, a: Answer, todo: set<Word>, pc: Word)
    requires Going(read, regs, seeds, a, todo + {pc}) && read(pc).Some? && !DecodedAt(read, regs, pc).Executable()
    ensures Going(read, regs, seeds, a.(stops := a.stops + {pc}), todo)
  {
    R.NoteStop(Program(read, regs), seeds, a.Outlined(), todo, pc);
  }

  lemma AtKnown(read: Read, regs: RegTable, seeds: seq<Word>, a: Answer, todo: set<Word>, pc: Word)
    requires Going(read, regs, seeds, a, todo + {pc}) && pc in a.insns
    ensures Going(read, regs, seeds, a, todo)
  {
    R.FoundBefore(Program(read, regs), seeds, a.Outlined(), todo, pc);
  }

  lemma AddressKept(pc: Word, w: Word, w1: Word, regs: RegTable)
    ensures Decode.Decode(pc, w, w1, regs).addr == pc
  {
  }

  lemma KeysWith(a: Answer, pc: Word, d: Insn)
    ensures a.With(pc, d).insns.Keys == a.insns.Keys + {pc}
  {
  }

  /** One address of a straight line: noted, and what comes next on the line, if anything does. */
  method Visit(ghost seeds: seq<Word>, read: Read, regs: RegTable, a: Answer, work: seq<Word>, pc: Word)
      returns (b: Answer, more: seq<Word>, next: Option<Word>)
    requires Going(read, regs, seeds, a, Todo(work) + {pc})
    ensures next.None? ==> Going(read, regs, seeds, b, Todo(more))
    ensures next.Some? ==> Going(read, regs, seeds, b, Todo(more) + {next.value})
    ensures b.insns.Keys == a.insns.Keys + {pc} || (b.insns.Keys == a.insns.Keys && more == work && next.None?)
  {
    more, next := work, None;
    var w0 := read(pc);
    if w0.None? {
      AtUnmapped(read, regs, seeds, a, Todo(work), pc);
      return a.(unmapped := a.unmapped + {pc}), work, None;
    }
    var d := Decode.Decode(pc, w0.value, SecondWord(read, pc), regs);
    if !d.Executable() {
      AtStop(read, regs, seeds, a, Todo(work), pc);
      return a.(stops := a.stops + {pc}), work, None;
    }
    AtInsn(read, regs, seeds, a, work, pc, d);
    AddressKept(pc, w0.value, SecondWord(read, pc), regs);
    KeysWith(a, pc, d);
    var f := d.FlowOf();
    more := if d.hasTarget then work + [d.target] else work;
    assert more == Pushed(work, d);
    b := a.With(pc, d);
    if !EndsPath(f) {
      next := Some(Add32(pc, d.length));
      assert next.value == Following(d);
    }
  }

  /** A straight line, walked until control leaves it or it is known already. */
  method Walk(ghost seeds: seq<Word>, read: Read, regs: RegTable, a: Answer, work: seq<Word>, from: Word)
      returns (b: Answer, more: seq<Word>)
    requires Going(read, regs, seeds, a, Todo(work) + {from})
    ensures Going(read, regs, seeds, b, Todo(more))
    ensures a.insns.Keys <= b.insns.Keys && (b.insns.Keys == a.insns.Keys ==> more == work)
  {
    b, more := a, work;
    var pc := from;
    while pc !in b.insns
      invariant Going(read, regs, seeds, b, Todo(more) + {pc})
      invariant a.insns.Keys <= b.insns.Keys && (b.insns.Keys == a.insns.Keys ==> more == work)
      decreases AllWords() - b.insns.Keys
    {
      ghost var known := b.insns.Keys;
      var next;
      b, more, next := Visit(seeds, read, regs, b, more, pc);
      if next.None? { return; }
      Fewer(known, b.insns.Keys);
      pc := next.value;
    }
    AtKnown(read, regs, seeds, b, Todo(more), pc);
  }

  method Reach(seeds: seq<Word>, read: Read, regs: RegTable) returns (a: Answer)
    ensures R.Exact(Program(read, regs), seeds, a.Outlined())
    ensures Decoded(read, regs, a.insns)
  {
    a := Answer(map[], {}, {}, {});
    var work := seeds;
    Start(read, regs, seeds);
    while work != []
      invariant Going(read, regs, seeds, a, Todo(work))
      decreases AllWords() - a.insns.Keys, |work|
    {
      TakeUp(work);
      ghost var known := a.insns.Keys;
      a, work := Walk(seeds, read, regs, a, work[1..], WordOf(work[0]));
      if known != a.insns.Keys { Fewer(known, a.insns.Keys); }
    }
    assert Todo([]) == {};
    R.Finished(Program(read, regs), seeds, a.Outlined());
  }

  // ---- What the answer is worth when the program runs -------------------------

  lemma LengthIsFourOrEight(addr: Word, w: Word, w1: Word, regs: RegTable)
    ensures Decode.Decode(addr, w, w1, regs).length in {4, 8}
  {
  }

  lemma AlignedTwice(t: Word)
    ensures WordOf(WordOf(t)) == WordOf(t)
  {
  }

  /** The instruction after one at a word is at a word. */
  lemma NextAligned(read: Read, regs: RegTable, pc: Word)
    requires read(pc).Some? && WordOf(pc) == pc
    ensures WordOf(Following(DecodedAt(read, regs, pc))) == Following(DecodedAt(read, regs, pc))
  {
    LengthIsFourOrEight(pc, read(pc).value, SecondWord(read, pc), regs);
    AddressKept(pc, read(pc).value, SecondWord(read, pc), regs);
    WordsApart(pc, DecodedAt(read, regs, pc).length);
  }

  lemma InsideAligned(seeds: seq<Word>, read: Read, regs: RegTable, all: set<Word>, s: set<Word>, pc: Word)
    requires forall t :: t in s <==> t in all && WordOf(t) == t
    requires pc in s && Program(read, regs).at(pc).Code?
    requires R.Inside(Program(read, regs), Program(read, regs).at(pc).insn, all)
    ensures R.Inside(Program(read, regs), Program(read, regs).at(pc).insn, s)
  {
    var p := Program(read, regs);
    NextAligned(read, regs, pc);
    forall t | t in p.at(pc).insn.targets ensures p.Align(t) in s {
      AlignedTwice(t);
    }
  }

  /** Everything found is at a word. */
  lemma FoundAligned(seeds: seq<Word>, read: Read, regs: RegTable, a: Answer)
    requires R.Exact(Program(read, regs), seeds, a.Outlined())
    ensures forall pc :: pc in a.Outlined().All() ==> WordOf(pc) == pc
  {
    var p, all := Program(read, regs), a.Outlined().All();
    var s := Aligned(all);
    R.ReachableIsLeast(p, seeds, a.Outlined(), s);
    forall pc | pc in s && p.at(pc).Code? ensures R.Inside(p, p.at(pc).insn, s) {
      assert pc in all;
      InsideAligned(seeds, read, regs, all, s, pc);
    }
    forall t | t in seeds ensures p.Align(t) in s {
      AlignedTwice(t);
    }
  }

  ghost function Aligned(all: set<Word>): (s: set<Word>)
    ensures forall t :: t in s <==> t in all && WordOf(t) == t
  {
    set t | t in all && WordOf(t) == t
  }

  lemma WordsApart(pc: Word, length: nat)
    requires WordOf(pc) == pc && length in {4, 8}
    ensures WordOf(Add32(pc, length)) == Add32(pc, length)
  {
  }

  /** A transfer that is taken has its target noted, but for a faultno that branches. */
  lemma TakenHasTarget(addr: Word, w: Word, w1: Word, regs: RegTable, ac: Word, r: Registers)
    requires var d := Decode.Decode(addr, w, w1, regs); d.Executable() && !d.fmt.Reg? && !d.FlowOf().Ret?
    ensures var d := Decode.Decode(addr, w, w1, regs);
            (Taken(Major(w), ac, First(d, r), Second(d, r)) ==> d.hasTarget) <==> !FaultnoBranches(Major(w), ac)
  {
  }

  /** Only b always leaves the line, and b always goes to its target. */
  lemma EndsTaken(addr: Word, w: Word, w1: Word, regs: RegTable, ac: Word, r: Registers)
    requires var d := Decode.Decode(addr, w, w1, regs);
             d.Executable() && !d.fmt.Reg? && EndsPath(d.FlowOf()) && !d.FlowOf().Ret? && !Indirect(d.FlowOf())
    ensures var d := Decode.Decode(addr, w, w1, regs); Taken(Major(w), ac, First(d, r), Second(d, r))
  {
  }

  /** An instruction that goes somewhere directly, and not a faultno about to branch. */
  predicate Plain(d: Insn, major: nat, ac: Word) {
    !d.fmt.Reg? && !d.FlowOf().Ret? && !Indirect(d.FlowOf()) && !FaultnoBranches(major, ac)
  }

  /** From what has been found, an instruction that goes somewhere directly goes to what has been found. */
  lemma FoundExecutable(seeds: seq<Word>, read: Read, regs: RegTable, a: Answer, pc: Word)
    requires R.Exact(Program(read, regs), seeds, a.Outlined()) && Decoded(read, regs, a.insns) && pc in a.insns
    ensures a.insns[pc].Executable()
  {
    assert pc in a.Outlined().insns;
  }

  lemma FoundTarget(read: Read, regs: RegTable, a: Answer, pc: Word, ac: Word, r: Registers)
    requires Decoded(read, regs, a.insns) && pc in a.insns
    requires var d, w := a.insns[pc], read(pc).value; d.Executable() && Plain(d, Major(w), ac)
    ensures var d, w := a.insns[pc], read(pc).value; Taken(Major(w), ac, First(d, r), Second(d, r)) ==> d.hasTarget
  {
    TakenHasTarget(pc, read(pc).value, SecondWord(read, pc), regs, ac, r);
  }

  lemma FoundEnds(read: Read, regs: RegTable, a: Answer, pc: Word, ac: Word, r: Registers)
    requires Decoded(read, regs, a.insns) && pc in a.insns
    requires var d, w := a.insns[pc], read(pc).value; d.Executable() && Plain(d, Major(w), ac)
    ensures var d, w := a.insns[pc], read(pc).value;
            EndsPath(d.FlowOf()) ==> Taken(Major(w), ac, First(d, r), Second(d, r))
  {
    if EndsPath(a.insns[pc].FlowOf()) {
      EndsTaken(pc, read(pc).value, SecondWord(read, pc), regs, ac, r);
    }
  }

  /** What a found instruction leads to is found: its target, and the instruction after it unless it ends the path. */
  lemma FoundLeads(p: R.Image<Word>, seeds: seq<Word>, a: Answer, pc: Word)
    requires R.Exact(p, seeds, a.Outlined()) && pc in a.insns
    ensures var d := a.insns[pc];
            && (d.hasTarget ==> p.Align(d.target) in a.Outlined().All())
            && (!EndsPath(d.FlowOf()) ==> Following(d) in a.Outlined().All())
  {
    var all, d := a.Outlined().All(), a.insns[pc];
    assert pc in a.Outlined().insns && a.Outlined().insns[pc] == Outline(d) == p.at(pc).insn;
    R.ReachableIsLeast(p, seeds, a.Outlined(), all);
    assert R.Inside(p, Outline(d), all);
    if d.hasTarget { assert d.target in Outline(d).targets; }
  }

  lemma LeadsOn(all: set<Word>, d: Insn, w: Word, ac: Word, r: Registers)
    requires Plain(d, Major(w), ac)
    requires Taken(Major(w), ac, First(d, r), Second(d, r)) ==> d.hasTarget && WordOf(d.target) in all
    requires !Taken(Major(w), ac, First(d, r), Second(d, r)) ==> Following(d) in all
    requires forall x :: x in all ==> WordOf(x) == x
    ensures WordOf(Goto(d, Major(w), ac, r)) in all
  {
    AlignedTwice(d.target);
  }

  lemma GotoFound(seeds: seq<Word>, read: Read, regs: RegTable, a: Answer, pc: Word, ac: Word, r: Registers)
    requires R.Exact(Program(read, regs), seeds, a.Outlined()) && Decoded(read, regs, a.insns)
    requires pc in a.insns && Plain(a.insns[pc], Major(read(pc).value), ac)
    ensures WordOf(Goto(a.insns[pc], Major(read(pc).value), ac, r)) in a.Outlined().All()
  {
    FoundAligned(seeds, read, regs, a);
    FoundExecutable(seeds, read, regs, a, pc);
    FoundTarget(read, regs, a, pc, ac, r);
    FoundEnds(read, regs, a, pc, ac, r);
    FoundLeads(Program(read, regs), seeds, a, pc);
    LeadsOn(a.Outlined().All(), a.insns[pc], read(pc).value, ac, r);
  }

  // ---- IP with its low bits ---------------------------------------------------

  /** A displacement has the low two bits of its word. */
  lemma DispLowBits(w: Word)
    ensures Sext24(w) % 4 == w % 4 && Sext13(w) % 4 == w % 4
  {
    FieldLowBits(w, 0x100_0000, 0x80_0000);
    FieldLowBits(w, 0x2000, 0x1000);
    AddLowBits(FlipTop(w % 0x100_0000, 0x80_0000), -0x80_0000);
    AddLowBits(FlipTop(w % 0x2000, 0x1000), -0x1000);
  }

  lemma FieldLowBits(w: Word, size: nat, m: nat)
    requires (size == 0x100_0000 && m == 0x80_0000) || (size == 0x2000 && m == 0x1000)
    ensures FlipTop(w % size, m) % 4 == w % 4
  {
    var u := w % size;
    assert w == size * (w / size) + u;
    if size == 0x2000 {
      SameLowBits(w, u, 0x800 * (w / size));
    } else {
      SameLowBits(w, u, 0x40_0000 * (w / size));
    }
    if u < m {
      SameLowBits(u + m, u, m / 4);
    } else {
      SameLowBits(u, u - m, m / 4);
    }
  }

  lemma SameLowBits(a: nat, b: nat, k: nat)
    requires a == b + 4 * k
    ensures a % 4 == b % 4
  {
    assert b == 4 * (b / 4) + b % 4;
    DivUnique(a, 4, b / 4 + k, b % 4);
  }

  lemma AddLowBits(a: Word, b: int)
    requires b % 4 == 0
    ensures Add32(a, b) % 4 == a % 4
  {
    var q, r := (a + b) / WORDS, Add32(a, b);
    assert a + b == q * WORDS + r;
    var x, y, m := a / 4, b / 4, a % 4;
    assert a == 4 * x + m && b == 4 * y;
    assert r == 4 * (x + y - q * 0x4000_0000) + m;
    DivUnique(r, 4, x + y - q * 0x4000_0000, m);
  }

  /** Adding k < 4 to a word leaves its upper bits alone exactly when the low bits do not carry. */
  lemma CarryIff(t: Word, k: nat)
    requires k < 4
    ensures WordOf(Add32(t, k)) == WordOf(t) <==> k + t % 4 < 4
  {
    var q, m := t / 4, t % 4;
    assert t == 4 * q + m;
    if k + m < 4 {
      DivUnique(t + k, 4, q, k + m);
    } else if t + k < WORDS {
      DivUnique(t + k, 4, q + 1, k + m - 4);
    }
  }

  /** e is the instruction d, decoded k bytes into its word. */
  predicate Off(d: Insn, e: Insn, k: nat, w: Word) {
    && WordOf(d.addr) == d.addr && k < 4 && d.addr + k < WORDS && e.addr == d.addr + k
    && e.length == d.length && d.length in {4, 8}
    && e.fmt == d.fmt && e.op == d.op && e.src1 == d.src1 && e.src2 == d.src2 && e.m1 == d.m1
    && e.Executable() == d.Executable() && e.hasTarget == d.hasTarget
    && (d.hasTarget ==> e.target == Add32(d.target, k) && d.target % 4 == w % 4)
  }

  /** The displacement of a CTRL or COBR word. */
  function Displacement(w: Word): Word {
    if FormatOf(Major(w)).Ctrl? then Sext24(w) else Sext13(w)
  }

  /** The same word decoded at another address: only a target moves with it. */
  lemma Readdressed(addr: Word, other: Word, w: Word, w1: Word, w2: Word, regs: RegTable)
    ensures var d, e := Decode.Decode(addr, w, w1, regs), Decode.Decode(other, w, w2, regs);
            && d.addr == addr && e.addr == other && d.length == e.length && d.length in {4, 8}
            && e.fmt == d.fmt && e.op == d.op && e.src1 == d.src1 && e.src2 == d.src2 && e.m1 == d.m1
            && e.Executable() == d.Executable() && e.hasTarget == d.hasTarget
            && (d.hasTarget ==> d.target == Add32(addr, Displacement(w)) && e.target == Add32(other, Displacement(w)))
  {
  }

  lemma OffBy(d: Insn, e: Insn, k: nat, w: Word)
    requires WordOf(d.addr) == d.addr && k < 4 && d.addr + k < WORDS && d.length in {4, 8}
    requires e.addr == d.addr + k && d.length == e.length
    requires e.fmt == d.fmt && e.op == d.op && e.src1 == d.src1 && e.src2 == d.src2 && e.m1 == d.m1
    requires e.Executable() == d.Executable() && e.hasTarget == d.hasTarget
    requires d.hasTarget ==> d.target == Add32(d.addr, Displacement(w)) && e.target == Add32(e.addr, Displacement(w))
    ensures Off(d, e, k, w)
  {
    DispLowBits(w);
    OneOn(d.addr, Displacement(w), k);
  }

  lemma OneOn(pc: Word, s: Word, k: nat)
    requires WordOf(pc) == pc && pc + k < WORDS
    ensures Add32(pc + k, s) == Add32(Add32(pc, s), k)
    ensures Add32(pc, s) % 4 == s % 4
  {
    var t := if pc + s < WORDS then pc + s else pc + s - WORDS;
    assert Add32(pc, s) == t;
    assert t % 4 == s % 4;
    assert Add32(pc + k, s) == if t + k < WORDS then t + k else t + k - WORDS;
    assert Add32(t, k) == if t + k < WORDS then t + k else t + k - WORDS;
  }

  /** A direct instruction is not taken, or its displacement does not carry out of IP's low bits k. */
  predicate NoCarry(d: Insn, k: nat, w: Word, ac: Word, r: Registers) {
    Taken(Major(w), ac, First(d, r), Second(d, r)) ==> k + w % 4 < 4
  }

  /**
   Where the executor's IP has low bits, it goes to the word the found instruction goes
   to if and only if they do not carry. d is that instruction, decoded at its word, and
   e what the executor makes of it k bytes into the word.
   */
  lemma CarriesIff(d: Insn, e: Insn, k: nat, w: Word, ac: Word, r: Registers)
    requires Off(d, e, k, w) && Plain(d, Major(w), ac)
    requires Taken(Major(w), ac, First(d, r), Second(d, r)) ==> d.hasTarget
    ensures WordOf(Goto(e, Major(w), ac, r)) == WordOf(Goto(d, Major(w), ac, r)) <==> NoCarry(d, k, w, ac, r)
  {
    if Taken(Major(w), ac, First(d, r), Second(d, r)) {
      TargetOff(d.target, k, Masks(Major(w)));
    } else {
      FollowingOff(d.addr, d.length, k);
    }
  }

  lemma TargetOff(t: Word, k: nat, masked: bool)
    requires k < 4
    ensures var x := Add32(t, k);
            WordOf(if masked then WordOf(x) else x) == WordOf(if masked then WordOf(t) else t) <==> k + t % 4 < 4
  {
    CarryIff(t, k);
    AlignedTwice(t);
    AlignedTwice(Add32(t, k));
  }

  lemma FollowingOff(pc: Word, length: nat, k: nat)
    requires WordOf(pc) == pc && length in {4, 8} && k < 4 && pc + k < WORDS
    ensures WordOf(Add32(pc + k, length)) == WordOf(Add32(pc, length))
  {
    OneOn(pc, length, k);
    CarryIff(Add32(pc, length), k);
  }

  /** An IP at a word stays at a word if and only if the instruction is not an unmasked branch with low bits, taken. */
  lemma StaysAligned(d: Insn, w: Word, ac: Word, r: Registers)
    requires Off(d, d, 0, w) && Plain(d, Major(w), ac)
    requires Taken(Major(w), ac, First(d, r), Second(d, r)) ==> d.hasTarget
    ensures Goto(d, Major(w), ac, r) % 4 == 0 <==>
            (Taken(Major(w), ac, First(d, r), Second(d, r)) && !Masks(Major(w)) ==> w % 4 == 0)
  {
    if Taken(Major(w), ac, First(d, r), Second(d, r)) {
      AtWord(d.target);
    } else {
      WordsApart(d.addr, d.length);
      AtWord(Following(d));
    }
  }

  lemma AtWord(t: Word)
    ensures WordOf(t) % 4 == 0 && (WordOf(t) == t <==> t % 4 == 0)
  {
    assert t == 4 * (t / 4) + t % 4;
    DivUnique(WordOf(t), 4, t / 4, 0);
  }

  // ---- Runs -------------------------------------------------------------------

  /** Fetching drops the low two bits of the address, and gives what reachability read. */
  ghost predicate Fetches(e: Executor, read: Read)
    reads e
  {
    && (forall x :: e.fetch(x) == e.fetch(WordOf(x)))
    && (forall pc :: read(pc).Some? ==> e.fetch(pc) == read(pc).value)
  }

  /** One instruction, from what was found to what was found. */
  method StepFound(e: Executor, ghost seeds: seq<Word>, read: Read, regs: RegTable, a: Answer)
    requires R.Exact(Program(read, regs), seeds, a.Outlined()) && Decoded(read, regs, a.insns)
    requires Fetches(e, read) && GoesOn(e, a)
    modifies e
    ensures WordOf(e.ip) in a.Outlined().All()
    ensures old(e.ip) % 4 == 0 ==>
      (e.ip % 4 == 0 <==> (old(TakesUnmasked(e, a)) ==> e.fetch(old(e.ip)) % 4 == 0))
  {
    assert e.fetch(e.ip) == e.fetch(WordOf(e.ip)) == read(WordOf(e.ip)).value;
    AlignedTwice(e.ip);
    StepFrom(seeds, read, regs, a, WordOf(e.ip), e.ip % 4, e.ip, e.fetch(Add32(e.ip, 4)), e.ac, e.r);
    var ok, ea, link := e.ExecuteOne(regs);
  }

  /** Where the executor goes from an IP whose word pc holds an instruction that was found. */
  lemma StepFrom(seeds: seq<Word>, read: Read, regs: RegTable, a: Answer, pc: Word, k: nat, ip: Word, w2: Word,
                 ac: Word, r: Registers)
    requires R.Exact(Program(read, regs), seeds, a.Outlined()) && Decoded(read, regs, a.insns)
    requires pc in a.insns && WordOf(pc) == pc && k < 4 && ip == pc + k
    requires var d, w := a.insns[pc], read(pc).value; Plain(d, Major(w), ac) && NoCarry(d, k, w, ac, r)
    ensures var d, w := a.insns[pc], read(pc).value;
            var e := Decode.Decode(ip, w, w2, regs);
            && e.Executable() && !e.fmt.Reg? && !e.FlowOf().Ret?
            && WordOf(Goto(e, Major(w), ac, r)) in a.Outlined().All()
            && (k == 0 ==>
                  (Goto(e, Major(w), ac, r) % 4 == 0 <==>
                   (Taken(Major(w), ac, First(d, r), Second(d, r)) && !Masks(Major(w)) ==> w % 4 == 0)))
  {
    var w := read(pc).value;
    GotoFound(seeds, read, regs, a, pc, ac, r);
    FoundExecutable(seeds, read, regs, a, pc);
    FoundOff(read, regs, a, pc, k, ip, w2);
    FoundTarget(read, regs, a, pc, ac, r);
    FoundGoes(a.insns[pc], Decode.Decode(ip, w, w2, regs), k, w, ac, r);
  }

  /** What the executor makes of a found instruction at an IP in its word. */
  lemma FoundOff(read: Read, regs: RegTable, a: Answer, pc: Word, k: nat, ip: Word, w2: Word)
    requires Decoded(read, regs, a.insns) && pc in a.insns && WordOf(pc) == pc && k < 4 && ip == pc + k
    ensures Off(a.insns[pc], Decode.Decode(ip, read(pc).value, w2, regs), k, read(pc).value)
  {
    Readdressed(pc, ip, read(pc).value, SecondWord(read, pc), w2, regs);
    OffBy(a.insns[pc], Decode.Decode(ip, read(pc).value, w2, regs), k, read(pc).value);
  }

  lemma FoundGoes(d: Insn, e: Insn, k: nat, w: Word, ac: Word, r: Registers)
    requires Off(d, e, k, w) && Plain(d, Major(w), ac) && NoCarry(d, k, w, ac, r)
    requires Taken(Major(w), ac, First(d, r), Second(d, r)) ==> d.hasTarget
    ensures WordOf(Goto(e, Major(w), ac, r)) == WordOf(Goto(d, Major(w), ac, r))
    ensures k == 0 ==>
              (Goto(e, Major(w), ac, r) % 4 == 0 <==>
               (Taken(Major(w), ac, First(d, r), Second(d, r)) && !Masks(Major(w)) ==> w % 4 == 0))
  {
    CarriesIff(d, e, k, w, ac, r);
    if k == 0 {
      StaysAligned(e, w, ac, r);
    }
  }

  /** It is at an instruction that was found, that goes somewhere directly, and that is not a fault. */
  predicate AtPlain(e: Executor, a: Answer)
    reads e
  {
    && WordOf(e.ip) in a.insns
    && Plain(a.insns[WordOf(e.ip)], Major(e.fetch(e.ip)), e.ac)
    && !Faults(Major(e.fetch(e.ip)), e.ac)
  }

  /** The branch it is at is taken, and leaves its low bits in IP. */
  predicate TakesUnmasked(e: Executor, a: Answer)
    reads e
    requires AtPlain(e, a)
  {
    var d, major := a.insns[WordOf(e.ip)], Major(e.fetch(e.ip));
    Taken(major, e.ac, First(d, e.r), Second(d, e.r)) && !Masks(major)
  }

  predicate GoesOn(e: Executor, a: Answer)
    reads e
  {
    AtPlain(e, a) && NoCarry(a.insns[WordOf(e.ip)], e.ip % 4, e.fetch(e.ip), e.ac, e.r)
  }

  /**
   The executor, started in what was found and run for as long as it meets instructions
   that go somewhere directly without a carry out of IP's low bits, never leaves what
   was found. By CarriesIff and FaultnoEscapes it may as soon as one of these fails.
   */
  method Follow(e: Executor, ghost seeds: seq<Word>, read: Read, regs: RegTable, a: Answer, steps: nat) returns (n: nat)
    requires R.Exact(Program(read, regs), seeds, a.Outlined()) && Decoded(read, regs, a.insns)
    requires Fetches(e, read) && WordOf(e.ip) in a.Outlined().All()
    modifies e
    ensures WordOf(e.ip) in a.Outlined().All()
    ensures n <= steps && (n < steps ==> !GoesOn(e, a))
  {
    n := 0;
    while n < steps && GoesOn(e, a)
      invariant n <= steps && WordOf(e.ip) in a.Outlined().All() && Fetches(e, read)
    {
      StepFound(e, seeds, read, regs, a);
      n := n + 1;
    }
  }

  /** No branch that was found has the low bits that the executor would leave in IP. */
  predicate NoLowBits(read: Read, a: Answer) {
    forall pc :: pc in a.insns ==>
      read(pc).Some? && (a.insns[pc].hasTarget && !Masks(Major(read(pc).value)) ==> read(pc).value % 4 == 0)
  }

  /** In such a program IP stays at words, so nothing but the kind of instruction can end the run. */
  method FollowWords(e: Executor, ghost seeds: seq<Word>, read: Read, regs: RegTable, a: Answer, steps: nat) returns (n: nat)
    requires R.Exact(Program(read, regs), seeds, a.Outlined()) && Decoded(read, regs, a.insns) && NoLowBits(read, a)
    requires Fetches(e, read) && e.ip % 4 == 0 && e.ip in a.Outlined().All()
    modifies e
    ensures e.ip % 4 == 0 && e.ip in a.Outlined().All()
    ensures n <= steps && (n < steps ==> !AtPlain(e, a))
  {
    n := 0;
    while n < steps && AtPlain(e, a)
      invariant n <= steps && e.ip % 4 == 0 && e.ip in a.Outlined().All() && Fetches(e, read)
    {
      StepWords(e, seeds, read, regs, a);
      n := n + 1;
    }
  }

  method StepWords(e: Executor, ghost seeds: seq<Word>, read: Read, regs: RegTable, a: Answer)
    requires R.Exact(Program(read, regs), seeds, a.Outlined()) && Decoded(read, regs, a.insns) && NoLowBits(read, a)
    requires Fetches(e, read) && e.ip % 4 == 0 && AtPlain(e, a)
    modifies e
    ensures e.ip % 4 == 0 && e.ip in a.Outlined().All()
  {
    UnmaskedHasNoLowBits(e, seeds, read, regs, a);
    StepFound(e, seeds, read, regs, a);
    AtWord(e.ip);
  }

  lemma UnmaskedHasNoLowBits(e: Executor, seeds: seq<Word>, read: Read, regs: RegTable, a: Answer)
    requires R.Exact(Program(read, regs), seeds, a.Outlined()) && Decoded(read, regs, a.insns) && NoLowBits(read, a)
    requires Fetches(e, read) && e.ip % 4 == 0 && AtPlain(e, a)
    ensures GoesOn(e, a) && (TakesUnmasked(e, a) ==> e.fetch(e.ip) % 4 == 0)
  {
    var pc := e.ip;
    assert WordOf(pc) == pc;
    FoundExecutable(seeds, read, regs, a, pc);
    TakenHasTarget(pc, read(pc).value, SecondWord(read, pc), regs, e.ac, e.r);
  }

  // ---- The exceptions ---------------------------------------------------------

  /** One word: faultno with a displacement of 0x100. */
  function FaultnoImage(): Read {
    (pc: Word) => if pc == 0 then Some(0x1800_0100) else None
  }

  lemma FaultnoDecodes(regs: RegTable, r: Registers)
    ensures var d := DecodedAt(FaultnoImage(), regs, 0);
            && d.Executable() && Goto(d, 0x18, 0, r) == 0x100
            && Outline(d) == R.Insn(4, [], false, false, false)
  {
    assert Major(0x1800_0100) == 0x18 && Sext24(0x1800_0100) == 0x100;
  }

  /** With the condition code clear the executor leaves for 0x100, which nothing found leads to. */
  lemma FaultnoEscapes(regs: RegTable, a: Answer, r: Registers)
    requires R.Exact(Program(FaultnoImage(), regs), [0], a.Outlined()) && Decoded(FaultnoImage(), regs, a.insns)
    ensures 0 in a.insns && a.insns[0].Executable()
    ensures Goto(a.insns[0], 0x18, 0, r) == 0x100 && 0x100 !in a.Outlined().All()
  {
    var p, s: set<Word> := Program(FaultnoImage(), regs), {0, 4};
    FaultnoDecodes(regs, r);
    assert p.at(0).Code? && p.at(4).Unmapped?;
    R.ReachableIsLeast(p, [0], a.Outlined(), s);
    assert R.Inside(p, p.at(0).insn, s);
    assert R.Closed(p, s) && R.Seeded(p, [0], s);
    assert p.Align([0 as Word][0]) in a.Outlined().All();
  }

  /** Two branches with low displacement bits: one to 9, and one at 8 to what is 0x13 from there. */
  function LowBitsImage(): Read {
    (pc: Word) => if pc == 0 then Some(0x0800_0009) else if pc == 8 then Some(0x0800_000b) else None
  }

  lemma LowBitsDecode(regs: RegTable, ac: Word, r: Registers, w1: Word)
    ensures var d, e := DecodedAt(LowBitsImage(), regs, 0), DecodedAt(LowBitsImage(), regs, 8);
            && d.Executable() && e.Executable() && Plain(d, 0x08, ac) && Plain(e, 0x08, ac)
            && Outline(d) == R.Insn(4, [9], false, true, false) && Outline(e) == R.Insn(12, [0x13], false, true, false)
            && Goto(d, 0x08, ac, r) == 9
            && Goto(Decode.Decode(9, 0x0800_000b, w1, regs), 0x08, ac, r) == 0x14
  {
    assert Major(0x0800_0009) == 0x08 && Sext24(0x0800_0009) == 9;
    assert Major(0x0800_000b) == 0x08 && Sext24(0x0800_000b) == 0xb;
  }

  /**
   After the first branch IP is 9, whose word holds the second; from 9 that leads to
   0x14, which nothing found leads to: the low bits have carried.
   */
  lemma LowBitsEscape(regs: RegTable, a: Answer, ac: Word, r: Registers, w1: Word)
    requires R.Exact(Program(LowBitsImage(), regs), [0], a.Outlined()) && Decoded(LowBitsImage(), regs, a.insns)
    ensures 0 in a.insns && Goto(a.insns[0], 0x08, ac, r) == 9
    ensures WordOf(9) in a.insns && !NoCarry(a.insns[8], 9 % 4, 0x0800_000b, ac, r)
    ensures Goto(Decode.Decode(9, 0x0800_000b, w1, regs), 0x08, ac, r) == 0x14
    ensures WordOf(0x14) !in a.Outlined().All()
  {
    LowBitsDecode(regs, ac, r, w1);
    LowBitsFound(regs, a, r);
  }

  lemma LowBitsFound(regs: RegTable, a: Answer, r: Registers)
    requires R.Exact(Program(LowBitsImage(), regs), [0], a.Outlined())
    ensures 0 in a.insns && 8 in a.insns && WordOf(0x14) !in a.Outlined().All()
  {
    var p, s: set<Word> := Program(LowBitsImage(), regs), {0, 8, 0x10};
    LowBitsDecode(regs, 0, r, 0);
    LowBitsClosed(regs, r);
    R.ReachableIsLeast(p, [0], a.Outlined(), s);
    assert p.Align([0 as Word][0]) in a.Outlined().All();
    assert R.Inside(p, p.at(0).insn, a.Outlined().All());
    assert 9 in p.at(0).insn.targets;
    WordNotIn(a.Outlined().All());
  }

  lemma WordNotIn(all: set<Word>)
    requires all <= {0, 8, 0x10}
    ensures WordOf(0x14) !in all
  {
    assert WordOf(0x14) == 0x14;
  }

  lemma LowBitsClosed(regs: RegTable, r: Registers)
    ensures var p, s: set<Word> := Program(LowBitsImage(), regs), {0, 8, 0x10};
            && p.at(0).Code? && p.at(8).Code? && p.Align(9) == 8
            && R.Closed(p, s) && R.Seeded(p, [0], s)
  {
    var p := Program(LowBitsImage(), regs);
    LowBitsDecode(regs, 0, r, 0);
    assert p.at(0x10).Unmapped? && p.Align(9) == 8 && p.Align(0x13) == 0x10;
  }
}
