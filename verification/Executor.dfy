/**
 The reference executor's way through one instruction (src/refcore/i960_ref.cpp):
 IP is moved past the first word, get_ea moves it past a displacement word, and a
 branch adds a displacement to it. ExecuteOne is proved to end where the decoded
 instruction of module Decode says. What an instruction does to memory and to its
 destination register is not part of this model; the frames of a call are in I960Cpu.
 */
module Executor {
  import opened Words
  import opened Decode

  /** IP & ~3 */
  function WordOf(a: Word): Word { a - a % 4 }

  /** The condition code a comparison leaves: 4 less, 2 equal, 1 greater. */
  function Code(less: bool, equal: bool): nat {
    if less then 4 else if equal then 2 else 1
  }

  /** (AC & ~7) | code */
  function WithCode(ac: Word, code: nat): Word
    requires code < 8
  {
    ac - ac % 8 + code
  }

  /** The faults that the executor gives up on. */
  predicate Faults(major: nat, ac: Word) {
    0x19 <= major <= 0x1f && SomeBit(ac % 8, major % 8)
  }

  /** faultno with the condition code clear: the executor takes it as a branch. */
  predicate FaultnoBranches(major: nat, ac: Word) {
    major == 0x18 && ac % 8 == 0
  }

  predicate Indirect(flow: Flow) { flow.BranchInd? || flow.BalInd? || flow.CallInd? }

  predicate Links(flow: Flow) { flow.Call? || flow.Bal? || flow.BalInd? || flow.CallInd? }

  /** The address of the next instruction. */
  function Following(d: Insn): Word { Add32(d.addr, d.length) }

  /**
   bxx and bxx_s clear the low two bits of the IP they have moved; b, call, bal, bno,
   faultno, bbc and bbs leave them as they come.
   */
  predicate Masks(major: nat) {
    0x11 <= major <= 0x17 || 0x31 <= major <= 0x36 || 0x39 <= major <= 0x3e
  }

  /** Where an instruction leads, by its decoded fields alone: the executor's IP to the bit. */
  function Goto(d: Insn, major: nat, ac: Word, r: Registers): Word {
    if Indirect(d.FlowOf()) then Ea(d, r)
    else if Taken(major, ac, First(d, r), Second(d, r)) then (if Masks(major) then WordOf(d.target) else d.target)
    else Following(d)
  }

  /** AC after an instruction: only a COBR compare or bit test changes it. */
  function AcAfter(major: nat, ac: Word, first: Word, second: Word): Word {
    if major == 0x30 || major == 0x37 then WithCode(ac, if Taken(major, ac, first, second) then 2 else 0)
    else if 0x31 <= major <= 0x36 then WithCode(ac, Code(first < second, first == second))
    else if 0x39 <= major <= 0x3e then WithCode(ac, Code(Signed(first) < Signed(second), first == second))
    else ac
  }

  /** m_AC & mask, after a comparison. */
  lemma CodeTests(ac: Word, mask: nat, less: bool, equal: bool)
    requires mask < 8 && !(less && equal)
    ensures SomeBit(WithCode(ac, Code(less, equal)) % 8, mask) <==> Compares(mask, less, equal)
  {
    var code := Code(less, equal);
    assert WithCode(ac, code) % 8 == code;
    CodeBits(code);
  }

  /** AC after a compare or a bit test, by name: the low three bits hold the answer and the others stay. */
  lemma AcByName(major: nat, ac: Word, first: Word, second: Word)
    ensures var after := AcAfter(major, ac, first, second);
            && after / 8 == ac / 8
            && (0x31 <= major <= 0x36 ==> after % 8 == if first < second then 4 else if first == second then 2 else 1)
            && (0x39 <= major <= 0x3e ==>
                  after % 8 == if Signed(first) < Signed(second) then 4 else if first == second then 2 else 1)
            && (major == 0x30 ==> after % 8 == if HasBit(second, first % 32) then 0 else 2)
            && (major == 0x37 ==> after % 8 == if HasBit(second, first % 32) then 2 else 0)
  {
    var q, m := ac / 8, ac % 8;
    assert ac == 8 * q + m;
  }

  /** A conditional fault is due exactly when the branch of the same condition would be taken. */
  lemma FaultsByName(major: nat, ac: Word, first: Word, second: Word)
    ensures Faults(major, ac) <==> 0x19 <= major <= 0x1f && Taken(major - 8, ac, first, second)
  {
    if 0x19 <= major <= 0x1f {
      assert major % 8 == (major - 8) % 8;
    }
  }

  lemma CodeBits(code: nat)
    requires code in {1, 2, 4}
    ensures HasBit(code, 0) == (code == 1) && HasBit(code, 1) == (code == 2) && HasBit(code, 2) == (code == 4)
  {
    assert HasBit(1, 0) && !HasBit(0, 0) && !HasBit(0, 1) && HasBit(2 / 2, 0) && HasBit(4 / 2 / 2, 0);
  }

  /** Bit 12 is clear in a MEMA word, so thirteen bits of offset are twelve. */
  lemma MemaOffset(w: Word)
    requires !Decode.Memb(w)
    ensures w % 0x2000 == w % 0x1000
  {
  }

  lemma EightOn(addr: Word)
    ensures Add32(Add32(addr, 4), 4) == Add32(addr, 8)
  {
  }

  lemma AddEitherWay(a: Word, b: Word)
    ensures Add32(a, b) == Add32(b, a)
  {
  }

  /** IP, four past the instruction, moves by a displacement four short of the decoder's. */
  lemma FourAhead(addr: Word, s: Word)
    ensures Add32(Add32(addr, 4), Add32(s, -4)) == Add32(addr, s)
  {
    assert Add32(addr, 4) == if addr + 4 < WORDS then addr + 4 else addr + 4 - WORDS;
    assert Add32(s, -4) == if s >= 4 then s - 4 else s - 4 + WORDS;
    assert Add32(addr, s) == if addr + s < WORDS then addr + s else addr + s - WORDS;
  }

  class Executor {
    var ip: Word
    var ac: Word
    var r: Registers
    const fetch: Word -> Word

    constructor (fetch: Word -> Word, ip: Word, ac: Word, r: Registers)
      ensures this.fetch == fetch && this.ip == ip && this.ac == ac && this.r == r
    {
      this.fetch, this.ip, this.ac, this.r := fetch, ip, ac, r;
    }

    /** The effective address, with IP moved past what it read; None is the fatal error. */
    method GetEa(w: Word, ghost addr: Word) returns (ea: Option<Word>)
      requires ip == Add32(addr, 4)
      modifies `ip
      ensures var d := DecodeMem(Blank(addr, Mem), w, fetch(Add32(addr, 4)));
              && (ea == if d.ea.Reserved? then None else Some(Ea(d, r)))
              && (ea.Some? ==> ip == Following(d))
    {
      var abase := MidReg(w);
      if !Decode.Memb(w) {
        var offset := w % 0x2000;
        MemaOffset(w);
        ea := Some(if !Bit13(w) then offset else Add32(r[abase], offset));
      } else {
        ea := MembEa(abase, LowReg(w), w / 0x80 % 8, w / 0x400 % 16, addr);
      }
    }

    /** The MEMB modes. */
    method MembEa(abase: RegNumber, index: RegNumber, scale: nat, mode: nat, ghost addr: Word) returns (ea: Option<Word>)
      requires ip == Add32(addr, 4)
      modifies `ip
      ensures var e := MembMode(mode);
              var d := Blank(addr, Mem).(src2 := abase, index := index, scale := scale, ea := e,
                                         disp := if EaHasDisp(e) then fetch(Add32(addr, 4)) else 0);
              && (ea == if e.Reserved? then None else Some(Ea(d, r)))
              && (ea.Some? ==> ip == Add32(addr, if EaHasDisp(e) then 8 else 4))
    {
      EightOn(addr);
      if mode == 0x4 {
        ea := Some(r[abase]);
      } else if mode == 0x5 {
        var disp := fetch(ip);
        ip := Add32(ip, 4);
        AddEitherWay(disp, ip);
        ea := Some(Add32(disp, ip));
      } else if mode == 0x7 {
        ea := Some(Add32(r[abase], Scaled(r[index], scale)));
      } else if mode == 0xc {
        ea := Some(fetch(ip));
        ip := Add32(ip, 4);
      } else if mode == 0xd {
        ea := Some(Add32(fetch(ip), r[abase]));
        ip := Add32(ip, 4);
      } else if mode == 0xe {
        ea := Some(Add32(fetch(ip), Scaled(r[index], scale)));
        ip := Add32(ip, 4);
      } else if mode == 0xf {
        ea := Some(Add32(Add32(fetch(ip), r[abase]), Scaled(r[index], scale)));
        ip := Add32(ip, 4);
      } else {
        ea := None;
      }
    }

    /** m_IP += get_disp(opcode) */
    method Jump24(w: Word, ghost addr: Word)
      requires ip == Add32(addr, 4)
      modifies `ip
      ensures ip == Add32(addr, Sext24(w))
    {
      Sext24Agrees(w);
      FourAhead(addr, Sext24(w));
      ip := Add32(ip, Add32(ShiftSext(w, 0x100), -4));
    }

    /** m_IP += get_disp_s(opcode) */
    method Jump13(w: Word, ghost addr: Word)
      requires ip == Add32(addr, 4)
      modifies `ip
      ensures ip == Add32(addr, Sext13(w))
    {
      Sext13Agrees(w);
      FourAhead(addr, Sext13(w));
      ip := Add32(ip, Add32(ShiftSext(w, 0x8_0000), -4));
    }

    /** The CTRL instructions but ret: false is the fatal error of a fault. */
    method ExecuteCtrl(w: Word, ghost addr: Word) returns (ok: bool, link: Option<Word>)
      requires ip == Add32(addr, 4) && FormatOf(Major(w)).Ctrl? && Major(w) != 0x0a && LookupMajor(Major(w)).Some?
      modifies `ip
      ensures ok == !Faults(Major(w), ac)
      ensures ok ==>
        var target := Add32(addr, Sext24(w));
        ip == if Taken(Major(w), ac, 0, 0) then (if Masks(Major(w)) then WordOf(target) else target) else Add32(addr, 4)
      ensures link == if Major(w) == 0x09 || Major(w) == 0x0b then Some(Add32(addr, 4)) else None
    {
      var major := Major(w);
      ok, link := true, None;
      if major == 0x08 {
        Jump24(w, addr);
      } else if major == 0x09 || major == 0x0b {
        link := Some(ip);
        Jump24(w, addr);
      } else if major == 0x10 || major == 0x18 {
        if ac % 8 == 0 { Jump24(w, addr); }
      } else if major <= 0x17 {
        if SomeBit(ac % 8, major % 8) {
          Jump24(w, addr);
          ip := WordOf(ip);
        }
      } else {
        ok := !SomeBit(ac % 8, major % 8);
      }
    }

    /** get_1_ci */
    function GetFirst(w: Word): Word
      reads `r
    {
      if !Bit13(w) then r[HighReg(w)] else HighReg(w)
    }

    /** bxx_s */
    method BranchIf(w: Word, ghost addr: Word, mask: nat)
      requires ip == Add32(addr, 4)
      modifies `ip
      ensures ip == if SomeBit(ac % 8, mask) then WordOf(Add32(addr, Sext13(w))) else Add32(addr, 4)
    {
      if SomeBit(ac % 8, mask) {
        Jump13(w, addr);
        ip := WordOf(ip);
      }
    }

    /** The COBR instructions. */
    method ExecuteCobr(w: Word, ghost addr: Word)
      requires ip == Add32(addr, 4) && FormatOf(Major(w)).Cobr?
      requires LookupMajor(Major(w)).Some? && LookupMajor(Major(w)).value.exec
      modifies `ip, `ac
      ensures var first, second := GetFirst(w), r[MidReg(w)];
              var target := Add32(addr, Sext13(w));
              && ip == (if Taken(Major(w), old(ac), first, second) then (if Masks(Major(w)) then WordOf(target) else target)
                        else Add32(addr, 4))
              && ac == AcAfter(Major(w), old(ac), first, second)
    {
      var major := Major(w);
      var first, second := GetFirst(w), r[MidReg(w)];
      if major <= 0x27 {
        // test: a register is set
      } else if major == 0x30 || major == 0x37 {
        if HasBit(second, first % 32) == (major == 0x37) {
          ac := WithCode(ac, 2);
          Jump13(w, addr);
        } else {
          ac := WithCode(ac, 0);
        }
      } else {
        var less := if major <= 0x36 then first < second else Signed(first) < Signed(second);
        CodeTests(ac, major % 8, less, first == second);
        ac := WithCode(ac, Code(less, first == second));
        BranchIf(w, addr, major % 8);
      }
    }

    /** The MEM instructions: where control goes, and the effective address. */
    method ExecuteMem(w: Word, ghost addr: Word) returns (ea: Option<Word>, link: Option<Word>)
      requires ip == Add32(addr, 4) && FormatOf(Major(w)).Mem?
      modifies `ip
      ensures var d := DecodeMem(Blank(addr, Mem), w, fetch(Add32(addr, 4)));
              && (ea == if d.ea.Reserved? then None else Some(Ea(d, r)))
              && (ea.Some? ==> ip == if 0x84 <= Major(w) <= 0x86 then ea.value else Following(d))
              && (ea.Some? ==> link == if Major(w) == 0x85 || Major(w) == 0x86 then Some(Following(d)) else None)
    {
      link := None;
      ea := GetEa(w, addr);
      if ea.Some? {
        if Major(w) == 0x84 {
          ip := ea.value;
        } else if Major(w) == 0x85 || Major(w) == 0x86 {
          link := Some(ip);
          ip := ea.value;
        }
      }
    }

    /**
     One executable CTRL, COBR or MEM instruction other than ret. It ends where its
     decoded form says, its effective address is the decoded one, a link is the address
     after its decoded length, and it fails only on a fault that is due.
     */
    method ExecuteOne(ghost regs: RegTable) returns (ok: bool, ea: Option<Word>, link: Option<Word>)
      requires var d := Decode.Decode(ip, fetch(ip), fetch(Add32(ip, 4)), regs);
               d.Executable() && !d.fmt.Reg? && !d.FlowOf().Ret?
      modifies this
      ensures r == old(r)
      ensures var d := Decode.Decode(old(ip), fetch(old(ip)), fetch(Add32(old(ip), 4)), regs);
              var major := Major(fetch(old(ip)));
              && ok == !Faults(major, old(ac))
              && (ok ==> ip == Goto(d, major, old(ac), r))
              && ea == (if d.fmt.Mem? then Some(Ea(d, r)) else None)
              && link == (if Links(d.FlowOf()) then Some(Following(d)) else None)
              && ac == AcAfter(major, old(ac), First(d, r), Second(d, r))
    {
      ghost var addr := ip;
      var w := fetch(ip);
      ip := Add32(ip, 4);
      ok, ea, link := true, None, None;
      if Major(w) < 0x20 {
        ok, link := ExecuteCtrl(w, addr);
      } else if Major(w) < 0x40 {
        ExecuteCobr(w, addr);
      } else {
        ea, link := ExecuteMem(w, addr);
      }
    }
  }
}
