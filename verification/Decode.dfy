/**
 The i960 decoder (src/i960/decode.cpp) against the reference executor
 (src/refcore/i960_ref.cpp): for every address, word pair and register file, the
 effective address, the length and the branch target that decoding fixes once and
 for all are those the executor works out while its IP moves on.

 CTRL, COBR and MEM instructions are written out. A REG instruction is four bytes
 long and has neither an effective address nor a target; its operation is looked up
 in a table given as a parameter. Words are numbers below 2^32, and each shift and
 mask of the source is the division and remainder it stands for.
 */
module Decode {
  import opened Words

  datatype Format = Invalid | Ctrl | Cobr | Reg | Mem

  datatype EaMode =
    | Offset | AbaseOffset | Abase | IpDisp | Reserved
    | AbaseIndex | Disp | AbaseDisp | IndexDisp | AbaseIndexDisp

  datatype Flow =
    | Through | Branch | CondBranch | Call | Bal | Ret
    | BranchInd | BalInd | CallInd | CallSys | CondFault

  datatype OpInfo = OpInfo(fmt: Format, pat: int, flow: Flow, exec: bool)

  type RegNumber = n: nat | n < 32

  datatype Insn = Insn(addr: Word, disp: Word, length: nat, fmt: Format, op: Option<OpInfo>,
                       src1: RegNumber, src2: RegNumber, index: RegNumber, scale: nat, m1: bool,
                       ea: EaMode, offset: Word, target: Word, hasTarget: bool, literalDst: bool)
  {
    predicate Executable() {
      op.Some? && op.value.exec && !ea.Reserved? && !literalDst
    }

    function FlowOf(): Flow {
      if op.Some? then op.value.flow else Through
    }
  }

  /** The REG half of the opcode table, and which REG words have a literal destination. */
  datatype RegTable = RegTable(op: Word -> Option<OpInfo>, literalDst: Word -> bool)

  /** m_r, by register number. */
  type Registers = r: seq<Word> | |r| == 32 witness seq(32, _ => 0)

  // ---- The decoder ----------------------------------------------------------

  /** w >> 24 */
  function Major(w: Word): nat { w / 0x100_0000 }

  function FormatOf(major: nat): Format {
    if major < 0x20 then Ctrl
    else if major < 0x40 then Cobr
    else if major < 0x58 then Invalid
    else if major < 0x80 then Reg
    else Mem
  }

  /** kMajor: the opcodes that have no REG format. */
  function LookupMajor(major: nat): Option<OpInfo> {
    if major == 0x08 then Some(OpInfo(Ctrl, 1, Branch, true))
    else if major == 0x09 then Some(OpInfo(Ctrl, 1, Call, true))
    else if major == 0x0a then Some(OpInfo(Ctrl, 0, Ret, true))
    else if major == 0x0b then Some(OpInfo(Ctrl, 1, Bal, true))
    else if 0x10 <= major <= 0x17 then Some(OpInfo(Ctrl, 1, CondBranch, true))
    else if 0x18 <= major <= 0x1f then Some(OpInfo(Ctrl, 0, CondFault, true))
    else if 0x20 <= major <= 0x27 then Some(OpInfo(Cobr, 1, Through, true))
    else if major == 0x38 || major == 0x3f then Some(OpInfo(Cobr, 3, CondBranch, false))
    else if 0x30 <= major <= 0x3e then Some(OpInfo(Cobr, 3, CondBranch, true))
    else if major == 0x84 then Some(OpInfo(Mem, 1, BranchInd, true))
    else if major == 0x85 then Some(OpInfo(Mem, 2, BalInd, true))
    else if major == 0x86 then Some(OpInfo(Mem, 1, CallInd, true))
    else if major == 0xad then Some(OpInfo(Mem, 1, Through, false))
    else if IsLoad(major) then Some(OpInfo(Mem, 2, Through, true))
    else if IsStore(major) then Some(OpInfo(Mem, -2, Through, true))
    else None
  }

  predicate IsLoad(major: nat) {
    || major == 0x80 || major == 0x88 || major == 0x8c || major == 0x90 || major == 0x98
    || major == 0xa0 || major == 0xb0 || major == 0xc0 || major == 0xc8
  }

  predicate IsStore(major: nat) {
    || major == 0x82 || major == 0x8a || major == 0x92 || major == 0x9a
    || major == 0xa2 || major == 0xb2 || major == 0xc2 || major == 0xca
  }

  // The bit fields of a word.

  /** (w >> 19) & 0x1f */
  function HighReg(w: Word): RegNumber { w / 0x8_0000 % 32 }

  /** (w >> 14) & 0x1f */
  function MidReg(w: Word): RegNumber { w / 0x4000 % 32 }

  /** w & 0x1f */
  function LowReg(w: Word): RegNumber { w % 32 }

  /** (w >> 13) & 1 */
  predicate Bit13(w: Word) { w / 0x2000 % 2 == 1 }

  /** w & 0x1000 */
  predicate Memb(w: Word) { w / 0x1000 % 2 == 1 }

  /** v ^ m, where m is the top bit of a field of 2m values. */
  function FlipTop(v: nat, m: nat): nat
    requires v < 2 * m
  {
    if v < m then v + m else v - m
  }

  /** The decoder's sign extension: (v ^ m) - m over the low 24 or 13 bits. */
  function Sext24(v: Word): Word { Add32(FlipTop(v % 0x100_0000, 0x80_0000), -0x80_0000) }

  function Sext13(v: Word): Word { Add32(FlipTop(v % 0x2000, 0x1000), -0x1000) }

  function MembMode(mode: nat): EaMode {
    if mode == 0x4 then Abase
    else if mode == 0x5 then IpDisp
    else if mode == 0x7 then AbaseIndex
    else if mode == 0xc then Disp
    else if mode == 0xd then AbaseDisp
    else if mode == 0xe then IndexDisp
    else if mode == 0xf then AbaseIndexDisp
    else Reserved
  }

  predicate EaHasDisp(ea: EaMode) {
    ea.IpDisp? || ea.Disp? || ea.AbaseDisp? || ea.IndexDisp? || ea.AbaseIndexDisp?
  }

  /** An instruction before its format is looked at. */
  function Blank(addr: Word, fmt: Format): Insn {
    Insn(addr, 0, 4, fmt, None, 0, 0, 0, 0, false, Offset, 0, 0, false, false)
  }

  /** The operation, dropped when the table has it under another format. */
  function OpFor(op: Option<OpInfo>, fmt: Format): Option<OpInfo> {
    if op.Some? && op.value.fmt != fmt then None else op
  }

  function DecodeMem(blank: Insn, w: Word, w1: Word): Insn {
    var d := blank.(op := OpFor(LookupMajor(Major(w)), Mem), src1 := HighReg(w), src2 := MidReg(w));
    if !Memb(w) then
      d.(ea := if Bit13(w) then AbaseOffset else Offset, offset := w % 0x1000)
    else
      var ea := MembMode(w / 0x400 % 16);
      var e := d.(ea := ea, scale := w / 0x80 % 8, index := LowReg(w));
      if EaHasDisp(ea) then e.(disp := w1, length := 8) else e
  }

  function Decode(addr: Word, w: Word, w1: Word, regs: RegTable): Insn {
    var fmt := FormatOf(Major(w));
    var blank := Blank(addr, fmt);
    match fmt
    case Invalid => blank
    case Ctrl =>
      var op := LookupMajor(Major(w));
      blank.(op := OpFor(op, fmt), target := Add32(addr, Sext24(w)), hasTarget := op.Some? && op.value.pat == 1)
    case Cobr =>
      var op := LookupMajor(Major(w));
      var d := blank.(op := OpFor(op, fmt), src1 := HighReg(w), src2 := MidReg(w), m1 := Bit13(w));
      if op.Some? && op.value.pat == 3 then d.(target := Add32(addr, Sext13(w)), hasTarget := true) else d
    case Mem => DecodeMem(blank, w, w1)
    case Reg => blank.(op := OpFor(regs.op(w), fmt), literalDst := regs.literalDst(w))
  }

  // ---- What a decoded instruction means ---------------------------------------

  /** r << scale, for the eight scales a word can hold. */
  function Scaled(r: Word, scale: nat): Word {
    if scale == 0 then r
    else if scale == 1 then r * 2 % WORDS
    else if scale == 2 then r * 4 % WORDS
    else if scale == 3 then r * 8 % WORDS
    else if scale == 4 then r * 16 % WORDS
    else if scale == 5 then r * 32 % WORDS
    else if scale == 6 then r * 64 % WORDS
    else r * 128 % WORDS
  }

  /** A scaled register is the register times two to the scale, in 32 bits. */
  lemma ScaledIs(r: Word, scale: nat)
    requires scale < 8
    ensures Scaled(r, scale) == r * Pow2(scale) % WORDS
  {
    assert Pow2(0) == 1 && Pow2(1) == 2 && Pow2(2) == 4 && Pow2(3) == 8;
    assert Pow2(4) == 16 && Pow2(5) == 32 && Pow2(6) == 64 && Pow2(7) == 128;
    if scale == 0 {
      assert r * 1 % WORDS == r;
    }
  }

  /** Where a word holds its register numbers, mode bits and scale. */
  lemma FieldsOf(w: Word, i: nat)
    requires i < 5
    ensures HasBit(LowReg(w), i) == HasBit(w, i)
    ensures HasBit(MidReg(w), i) == HasBit(w, i + 14)
    ensures HasBit(HighReg(w), i) == HasBit(w, i + 19)
  {
    assert Pow2(5) == 32;
    assert Pow2(14) == 0x4000 && Pow2(19) == 0x8_0000;
    FieldBits(w, 0, 5, i);
    FieldBits(w, 14, 5, i);
    FieldBits(w, 19, 5, i);
  }

  /** The decoder's extensions are the signed numbers that the fields hold. */
  lemma SextIs(v: Word)
    ensures -0x80_0000 <= Signed(Sext24(v)) < 0x80_0000 && (Signed(Sext24(v)) - v) % 0x100_0000 == 0
    ensures -0x1000 <= Signed(Sext13(v)) < 0x1000 && (Signed(Sext13(v)) - v) % 0x2000 == 0
  {
    Sext24Is(v);
    Sext13Is(v);
  }

  lemma Sext24Is(v: Word)
    ensures -0x80_0000 <= Signed(Sext24(v)) < 0x80_0000 && (Signed(Sext24(v)) - v) % 0x100_0000 == 0
  {
    var u := v % 0x100_0000;
    assert Signed(Sext24(v)) == if u < 0x80_0000 then u else u - 0x100_0000;
  }

  lemma Sext13Is(v: Word)
    ensures -0x1000 <= Signed(Sext13(v)) < 0x1000 && (Signed(Sext13(v)) - v) % 0x2000 == 0
  {
    var u := v % 0x2000;
    assert Signed(Sext13(v)) == if u < 0x1000 then u else u - 0x2000;
  }

  /** The compare-and-branch instructions by name: g, e, ge, l, ne, le, unsigned (cmpob) and signed (cmpib). */
  lemma BranchesByName(ac: Word, first: Word, second: Word)
    ensures Taken(0x31, ac, first, second) <==> first > second
    ensures Taken(0x32, ac, first, second) <==> first == second
    ensures Taken(0x33, ac, first, second) <==> first >= second
    ensures Taken(0x34, ac, first, second) <==> first < second
    ensures Taken(0x35, ac, first, second) <==> first != second
    ensures Taken(0x36, ac, first, second) <==> first <= second
    ensures Taken(0x39, ac, first, second) <==> Signed(first) > Signed(second)
    ensures Taken(0x3a, ac, first, second) <==> Signed(first) == Signed(second)
    ensures Taken(0x3b, ac, first, second) <==> Signed(first) >= Signed(second)
    ensures Taken(0x3c, ac, first, second) <==> Signed(first) < Signed(second)
    ensures Taken(0x3d, ac, first, second) <==> Signed(first) != Signed(second)
    ensures Taken(0x3e, ac, first, second) <==> Signed(first) <= Signed(second)
  {
    MaskBits(1);
    MaskBits(2);
    MaskBits(3);
    MaskBits(4);
    MaskBits(5);
    MaskBits(6);
  }

  /** The branches on the condition code by name, 4 less, 2 equal, 1 greater: no, g, e, ge, l, ne, le, o, and faultno. */
  lemma ConditionsByName(ac: Word, first: Word, second: Word)
    ensures var c := ac % 8;
            && (Taken(0x10, ac, first, second) <==> c == 0)
            && (Taken(0x11, ac, first, second) <==> c in {1, 3, 5, 7})
            && (Taken(0x12, ac, first, second) <==> c in {2, 3, 6, 7})
            && (Taken(0x13, ac, first, second) <==> c !in {0, 4})
            && (Taken(0x14, ac, first, second) <==> c in {4, 5, 6, 7})
            && (Taken(0x15, ac, first, second) <==> c !in {0, 2})
            && (Taken(0x16, ac, first, second) <==> c !in {0, 1})
            && (Taken(0x17, ac, first, second) <==> c != 0)
            && (Taken(0x18, ac, first, second) <==> c == 0)
  {
    CodeMeets(ac % 8);
  }

  ghost predicate CodeConditions(c: nat) {
    && (SomeBit(c, 1) <==> c in {1, 3, 5, 7}) && (SomeBit(c, 2) <==> c in {2, 3, 6, 7})
    && (SomeBit(c, 3) <==> c !in {0, 4}) && (SomeBit(c, 4) <==> c in {4, 5, 6, 7})
    && (SomeBit(c, 5) <==> c !in {0, 2}) && (SomeBit(c, 6) <==> c !in {0, 1}) && (SomeBit(c, 7) <==> c != 0)
  }

  lemma CodeMeets(c: nat)
    requires c < 8
    ensures CodeConditions(c)
  {
    MaskBits(c);
    MaskBits(1);
    MaskBits(2);
    MaskBits(3);
    MaskBits(4);
    MaskBits(5);
    MaskBits(6);
    MaskBits(7);
  }

  lemma MaskBits(m: nat)
    requires m < 8
    ensures HasBit(m, 0) == (m % 2 == 1) && HasBit(m, 1) == (m / 2 % 2 == 1) && HasBit(m, 2) == (m / 2 / 2 % 2 == 1)
  {
  }

  /** The effective address the recompiler emits for a decoded instruction. */
  function Ea(d: Insn, r: Registers): Word {
    match d.ea
    case Offset => d.offset
    case AbaseOffset => Add32(r[d.src2], d.offset)
    case Abase => r[d.src2]
    case IpDisp => Add32(Add32(d.addr, 8), d.disp)
    case AbaseIndex => Add32(r[d.src2], Scaled(r[d.index], d.scale))
    case Disp => d.disp
    case AbaseDisp => Add32(d.disp, r[d.src2])
    case IndexDisp => Add32(d.disp, Scaled(r[d.index], d.scale))
    case AbaseIndexDisp => Add32(Add32(d.disp, r[d.src2]), Scaled(r[d.index], d.scale))
    case Reserved => 0
  }

  /** The two operands of a COBR instruction. */
  function First(d: Insn, r: Registers): Word { if d.m1 then d.src1 else r[d.src1] }

  function Second(d: Insn, r: Registers): Word { r[d.src2] }

  /** int32_t(w) */
  function Signed(w: Word): int { if w < 0x8000_0000 then w else w - WORDS }

  /** Bit k of a condition mask of three bits: 0 greater, 1 equal, 2 less. */
  predicate Asks(mask: nat, k: nat) { HasBit(mask, k) }

  /** The comparison comes out as one of the bits of the mask asks. */
  predicate Compares(mask: nat, less: bool, equal: bool) {
    || (Asks(mask, 2) && less)
    || (Asks(mask, 1) && equal)
    || (Asks(mask, 0) && !less && !equal)
  }

  /** When an instruction of this major opcode goes to its target, in the words of its mnemonic. */
  predicate Taken(major: nat, ac: Word, first: Word, second: Word) {
    if major == 0x08 || major == 0x09 || major == 0x0b then true
    else if major == 0x10 || major == 0x18 then ac % 8 == 0
    else if 0x11 <= major <= 0x17 then SomeBit(ac % 8, major % 8)
    else if major == 0x30 then !HasBit(second, first % 32)
    else if major == 0x37 then HasBit(second, first % 32)
    else if 0x31 <= major <= 0x36 then Compares(major % 8, first < second, first == second)
    else if 0x39 <= major <= 0x3e then Compares(major % 8, Signed(first) < Signed(second), first == second)
    else false
  }

  /** a & b is not zero, for three bits. */
  predicate SomeBit(a: nat, b: nat) {
    || (HasBit(a, 0) && HasBit(b, 0))
    || (HasBit(a, 1) && HasBit(b, 1))
    || (HasBit(a, 2) && HasBit(b, 2))
  }

  // ---- The executor's sign extension is the decoder's -------------------------

  /** S(value << shift) >> shift, 2^shift being k: an arithmetic shift of a signed word. */
  function ShiftSext(v: Word, k: nat): Word
    requires k > 0
  {
    Signed(v * k % WORDS) / k % WORDS
  }

  lemma Sext24Agrees(v: Word)
    ensures ShiftSext(v, 0x100) == Sext24(v)
  {
    var u := v % 0x100_0000;
    assert v * 0x100 % WORDS == u * 0x100;
  }

  lemma Sext13Agrees(v: Word)
    ensures ShiftSext(v, 0x8_0000) == Sext13(v)
  {
    var u := v % 0x2000;
    assert v * 0x8_0000 % WORDS == u * 0x8_0000;
  }
}
