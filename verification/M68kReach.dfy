/**
 Reachability over the sound CPU's 68000 program (src/m68k/reach.cpp), for any
 decoder: the worklist is a stack, addresses are not masked, an odd address counts as
 unmapped, and an undefined opcode is both an instruction and a stop.
 */
module M68kReach {
  import opened Words
  import R = Reach

  /** The operations that direct control flow, and all others. */
  datatype Op = Illegal | LineA | LineF | Bra | Bsr | Bcc | Dbcc | Jmp | Jsr | Rts | Rte | Rtr | Other

  /** A source operand that is an address known when decoding (AbsW, AbsL, PcDisp), or is not. */
  datatype Source = Known(addr: Word) | Computed

  datatype Insn = Insn(op: Op, src: Source, target: Word, length: nat)

  /** decode(): None when a word of the instruction is unmapped. */
  type Decoder = Word -> Option<Insn>

  predicate Undefined(d: Insn) { d.op.Illegal? || d.op.LineA? || d.op.LineF? }

  predicate IsBranch(d: Insn) { d.op.Bra? || d.op.Bcc? || d.op.Dbcc? || d.op.Bsr? }

  predicate EndsBlock(d: Insn) {
    d.op.Bra? || d.op.Jmp? || d.op.Rts? || d.op.Rte? || d.op.Rtr? || Undefined(d)
  }

  predicate IsIndirect(d: Insn) { (d.op.Jmp? || d.op.Jsr?) && d.src.Computed? }

  function Targets(d: Insn): seq<Word> {
    if IsBranch(d) then [d.target]
    else if (d.op.Jmp? || d.op.Jsr?) && d.src.Known? then [d.src.addr]
    else []
  }

  /** A decoded instruction as control flow sees it. */
  function Outline(a: Word, d: Insn): R.Insn<Word> {
    R.Insn(Add32(a, d.length), Targets(d), IsIndirect(d), EndsBlock(d), Undefined(d))
  }

  function SiteAt(decode: Decoder, a: Word): R.Site<Word> {
    if a % 2 == 1 || decode(a).None? then R.Unmapped else R.Code(Outline(a, decode(a).value))
  }

  function Program(decode: Decoder): R.Image<Word> {
    R.Image(a => SiteAt(decode, a), a => a)
  }

  /** ReachResult; the sorted vectors of the source are the sets they are made from. */
  datatype Answer = Answer(insns: map<Word, Insn>, indirect: set<Word>, stops: set<Word>, unmapped: set<Word>) {
    /** The result it stands for. */
    ghost function Outlined(): R.Result<Word> {
      R.Result(map a | a in insns :: Outline(a, insns[a]), indirect, stops, unmapped)
    }

    function With(a: Word, d: Insn): Answer {
      Answer(insns[a := d], if IsIndirect(d) then indirect + {a} else indirect,
             if Undefined(d) then stops + {a} else stops, unmapped)
    }
  }

  ghost predicate Decoded(decode: Decoder, insns: map<Word, Insn>) {
    forall a :: a in insns ==> decode(a) == Some(insns[a])
  }

  /** The worklist is on the way to the exact answer, with `todo` left to take up. */
  ghost predicate Going(decode: Decoder, seeds: seq<Word>, r: Answer, todo: set<Word>) {
    R.Progress(Program(decode), seeds, r.Outlined(), todo) && Decoded(decode, r.insns)
  }

  ghost function Todo(work: seq<Word>): set<Word> {
    set t | t in work
  }

  lemma TodoIs(decode: Decoder, work: seq<Word>)
    ensures R.Todo(Program(decode), work) == Todo(work)
  {
    assert forall t: Word :: Program(decode).Align(t) == t;
    assert forall t :: t in work ==> Program(decode).Align(t) in R.Todo(Program(decode), work);
  }

  /** seeds(rbegin, rend): the first seed is on top. */
  function Reversed(seeds: seq<Word>): (work: seq<Word>)
    ensures forall a :: a in work <==> a in seeds
  {
    if seeds == [] then [] else Reversed(seeds[1..]) + [seeds[0]]
  }

  lemma Start(decode: Decoder, seeds: seq<Word>)
    ensures Going(decode, seeds, Answer(map[], {}, {}, {}), Todo(Reversed(seeds)))
  {
    R.Started(Program(decode), seeds);
    TodoIs(decode, seeds);
    assert Todo(Reversed(seeds)) == Todo(seeds);
    assert Answer(map[], {}, {}, {}).Outlined() == R.Result(map[], {}, {}, {});
  }

  lemma TakeUp(work: seq<Word>)
    requires |work| > 0
    ensures Todo(work) == Todo(work[..|work| - 1]) + {work[|work| - 1]}
  {
    var top := |work| - 1;
    assert work == work[..top] + [work[top]];
  }

  /**
   Where reachability goes on from an instruction, by its kind: to the one after it, but
   for bra, jmp, the returns and undefined words, and to the target of a branch, or of a
   jump or call to a known address.
   */
  lemma GoesByKind(decode: Decoder, a: Word, d: Insn, b: Word)
    requires a % 2 == 0 && decode(a) == Some(d)
    ensures R.Goes(Program(decode), a, b) <==>
            || (!(d.op.Bra? || d.op.Jmp? || d.op.Rts? || d.op.Rte? || d.op.Rtr?
                  || d.op.Illegal? || d.op.LineA? || d.op.LineF?) && b == Add32(a, d.length))
            || ((d.op.Bra? || d.op.Bcc? || d.op.Dbcc? || d.op.Bsr?) && b == d.target)
            || ((d.op.Jmp? || d.op.Jsr?) && d.src.Known? && b == d.src.addr)
  {
    var p := Program(decode);
    assert p.at(a) == R.Code(Outline(a, d));
    assert forall t: Word :: p.Align(t) == t;
    if Targets(d) != [] { assert Targets(d)[0] in Outline(a, d).targets; }
  }

  /** What is left to take up after a's instruction. */
  ghost function Left(work: seq<Word>, a: Word, d: Insn): set<Word> {
    var more := Todo(work + Targets(d));
    if EndsBlock(d) then more else more + {Add32(a, d.length)}
  }

  lemma AfterIs(p: R.Image<Word>, work: seq<Word>, a: Word, d: Insn)
    requires forall w :: p.Align(w) == w
    ensures R.After(p, Todo(work), a, Outline(a, d)) == Left(work, a, d)
  {
    assert R.Todo(p, Targets(d)) == Todo(Targets(d)) by {
      assert forall t :: t in Targets(d) ==> p.Align(t) in R.Todo(p, Targets(d));
    }
    assert Todo(work + Targets(d)) == Todo(work) + Todo(Targets(d));
  }

  lemma OutlinedWith(r: Answer, a: Word, d: Insn)
    ensures r.With(a, d).Outlined() == R.Noted(r.Outlined(), a, Outline(a, d))
    ensures r.With(a, d).insns.Keys == r.insns.Keys + {a}
  {
  }

  lemma DecodedWith(decode: Decoder, r: Answer, a: Word, d: Insn)
    requires Decoded(decode, r.insns) && decode(a) == Some(d)
    ensures Decoded(decode, r.With(a, d).insns)
  {
  }

  lemma NoteOutline(p: R.Image<Word>, seeds: seq<Word>, r: Answer, work: seq<Word>, a: Word, d: Insn)
    requires p.at(a) == R.Code(Outline(a, d)) && forall w :: p.Align(w) == w
    requires R.Progress(p, seeds, r.Outlined(), Todo(work) + {a})
    ensures R.Progress(p, seeds, r.With(a, d).Outlined(), Left(work, a, d))
  {
    R.NoteInsn(p, seeds, r.Outlined(), Todo(work), a);
    AfterIs(p, work, a, d);
    OutlinedWith(r, a, d);
    R.SameProgress(p, seeds, R.Noted(r.Outlined(), a, Outline(a, d)), r.With(a, d).Outlined(),
                   R.After(p, Todo(work), a, Outline(a, d)), Left(work, a, d));
  }

  lemma AtInsn(decode: Decoder, seeds: seq<Word>, r: Answer, work: seq<Word>, a: Word, d: Insn)
    requires Going(decode, seeds, r, Todo(work) + {a}) && a % 2 == 0 && decode(a) == Some(d)
    ensures Going(decode, seeds, r.With(a, d), Left(work, a, d))
  {
    var p := Program(decode);
    assert p.at(a) == R.Code(Outline(a, d));
    NoteOutline(p, seeds, r, work, a, d);
    DecodedWith(decode, r, a, d);
  }

  lemma AtUnmapped(decode: Decoder, seeds: seq<Word>, r: Answer, todo: set<Word>, a: Word)
    requires Going(decode, seeds, r, todo + {a}) && (a % 2 == 1 || decode(a).None?)
    ensures Going(decode, seeds, r.(unmapped := r.unmapped + {a}), todo)
  {
    R.NoteUnmapped(Program(decode), seeds, r.Outlined(), todo, a);
  }

  lemma AtKnown(decode: Decoder, seeds: seq<Word>, r: Answer, todo: set<Word>, a: Word)
    requires Going(decode, seeds, r, todo + {a}) && a in r.insns
    ensures Going(decode, seeds, r, todo)
  {
    R.FoundBefore(Program(decode), seeds, r.Outlined(), todo, a);
  }

  /** What the pushes of a turn add to the worklist. */
  lemma Pushes(work: seq<Word>, d: Insn)
    ensures IsBranch(d) ==> work + Targets(d) == work + [d.target]
    ensures (d.op.Jmp? || d.op.Jsr?) && !IsIndirect(d) ==> d.src.Known? && work + Targets(d) == work + [d.src.addr]
    ensures !IsBranch(d) && !((d.op.Jmp? || d.op.Jsr?) && !IsIndirect(d)) ==> work + Targets(d) == work
    ensures !(IsBranch(d) && (d.op.Jmp? || d.op.Jsr?))
  {
  }

  lemma AtEnd(decode: Decoder, seeds: seq<Word>, r: Answer, work: seq<Word>)
    requires Going(decode, seeds, r, Todo(work)) && work == []
    ensures R.Exact(Program(decode), seeds, r.Outlined())
  {
    R.SameProgress(Program(decode), seeds, r.Outlined(), r.Outlined(), Todo(work), {});
    R.Finished(Program(decode), seeds, r.Outlined());
  }

  /** One address of a straight line. */
  method Visit(ghost seeds: seq<Word>, decode: Decoder, r: Answer, work: seq<Word>, a: Word)
      returns (b: Answer, more: seq<Word>, next: Option<Word>)
    requires Going(decode, seeds, r, Todo(work) + {a})
    ensures next.None? ==> Going(decode, seeds, b, Todo(more))
    ensures next.Some? ==> Going(decode, seeds, b, Todo(more) + {next.value})
    ensures b.insns.Keys == r.insns.Keys + {a} || (b.insns.Keys == r.insns.Keys && more == work && next.None?)
  {
    if a % 2 == 1 || decode(a).None? {
      AtUnmapped(decode, seeds, r, Todo(work), a);
      return r.(unmapped := r.unmapped + {a}), work, None;
    }
    var d := decode(a).value;
    AtInsn(decode, seeds, r, work, a, d);
    OutlinedWith(r, a, d);
    b := r.With(a, d);
    Pushes(work, d);
    more := work;
    if IsBranch(d) { more := more + [d.target]; }
    if (d.op.Jmp? || d.op.Jsr?) && !IsIndirect(d) { more := more + [d.src.addr]; }
    next := if EndsBlock(d) then None else Some(Add32(a, d.length));
  }

  /** A straight line, walked until control leaves it or it is known already. */
  method Walk(ghost seeds: seq<Word>, decode: Decoder, r: Answer, work: seq<Word>, from: Word)
      returns (b: Answer, more: seq<Word>)
    requires Going(decode, seeds, r, Todo(work) + {from})
    ensures Going(decode, seeds, b, Todo(more))
    ensures r.insns.Keys <= b.insns.Keys && (b.insns.Keys == r.insns.Keys ==> more == work)
  {
    b, more := r, work;
    var a := from;
    while a !in b.insns
      invariant Going(decode, seeds, b, Todo(more) + {a})
      invariant r.insns.Keys <= b.insns.Keys && (b.insns.Keys == r.insns.Keys ==> more == work)
      decreases AllWords() - b.insns.Keys
    {
      ghost var known := b.insns.Keys;
      var next;
      b, more, next := Visit(seeds, decode, b, more, a);
      if next.None? { return; }
      Fewer(known, b.insns.Keys);
      a := next.value;
    }
    AtKnown(decode, seeds, b, Todo(more), a);
  }

  method Reach(seeds: seq<Word>, decode: Decoder) returns (r: Answer)
    ensures R.Exact(Program(decode), seeds, r.Outlined())
    ensures Decoded(decode, r.insns)
  {
    r := Answer(map[], {}, {}, {});
    var work := Reversed(seeds);
    Start(decode, seeds);
    while work != []
      invariant Going(decode, seeds, r, Todo(work))
      decreases AllWords() - r.insns.Keys, |work|
    {
      ghost var known := r.insns.Keys;
      var top := |work| - 1;
      var rest, a := work[..top], work[top];
      TakeUp(work);
      r, work := Walk(seeds, decode, r, rest, a);
      if known != r.insns.Keys { Fewer(known, r.insns.Keys); }
    }
    AtEnd(decode, seeds, r, work);
  }

  /** An undefined opcode is noted as an instruction and as a stop, and leads nowhere. */
  lemma UndefinedIsBoth(decode: Decoder, seeds: seq<Word>, r: Answer, a: Word)
    requires R.Exact(Program(decode), seeds, r.Outlined()) && Decoded(decode, r.insns)
    ensures a in r.stops <==> a in r.insns && Undefined(r.insns[a])
    ensures a in r.stops ==> forall b :: !R.Goes(Program(decode), a, b)
    ensures a in r.unmapped && a % 2 == 0 ==> decode(a).None?
  {
    var p := Program(decode);
    assert a in r.insns <==> a in r.Outlined().insns;
    if a in r.insns {
      assert p.at(a).Code?;
      assert p.at(a) == R.Code(Outline(a, r.insns[a]));
    }
  }
}
