/**
 The i960 context (src/runtime/cpu.cpp): registers, the four-entry frame cache,
 frames spilled to memory, interrupt entry and return. Its abstract value is a
 PlainStack machine; every method is proved against that machine.
 */
module I960Cpu {
  import opened Words
  import opened PlainStack
  import opened PendingTable

  const CACHE := 4
  const WORK_RAM := 0x50_0000
  const WORK_RAM_END := 0x60_0000

  /** The 64-byte line the record of an interrupt entry lies in, just below its frame. */
  function RecordLine(record: Record): Word
    requires record.Record?
  {
    Add32(record.fp, -64)
  }

  /** Saved frames and records lie in 64-byte lines of memory, no two in one line. */
  ghost predicate Separate(stack: seq<Saved>) {
    && (forall k :: 0 <= k < |stack| ==>
          |stack[k].locals| == 16 && stack[k].addr % 64 == 0 && (stack[k].record.Record? ==> stack[k].record.fp % 64 == 0))
    && (forall k, m :: 0 <= k < m < |stack| ==> stack[k].addr != stack[m].addr)
    && (forall k, m :: 0 <= k < |stack| && 0 <= m < |stack| && stack[k].record.Record? ==>
          RecordLine(stack[k].record) != stack[m].addr)
    && (forall k, m :: 0 <= k < m < |stack| && stack[k].record.Record? && stack[m].record.Record? ==>
          RecordLine(stack[k].record) != RecordLine(stack[m].record))
  }

  /** No saved frame or record is in this line. */
  ghost predicate LineFree(stack: seq<Saved>, line: Word) {
    forall k :: 0 <= k < |stack| ==>
      stack[k].addr != line && (stack[k].record.Record? ==> RecordLine(stack[k].record) != line)
  }

  lemma SeparatePush(stack: seq<Saved>, s: Saved)
    requires Separate(stack) && LineFree(stack, s.addr)
    requires |s.locals| == 16 && s.addr % 64 == 0 && s.record == NoRecord
    ensures Separate(stack + [s])
  {
  }

  predicate InLine(a: int, line: Word) { line <= a < line + 64 }

  lemma LinesApart(a: Word, b: Word, x: int)
    requires a % 64 == 0 && b % 64 == 0 && InLine(x, a) && InLine(x, b)
    ensures a == b
  {
  }

  /** A line of work RAM is sixteen neighbouring words of the array. */
  lemma RamLine(fp: Word)
    requires fp % 64 == 0 && fp / 0x10_0000 == 5
    ensures var at := (fp - WORK_RAM) / 4; at >= 0 && fp == WORK_RAM + 4 * at && at + 16 <= 0x4_0000
  {
    var q := fp / 64;
    assert fp == 64 * q;
    DivUnique(fp - WORK_RAM, 4, 16 * (q - 0x1_4000), 0);
  }

  /** Words of other lines are elsewhere in the array. */
  lemma RamElsewhere(at: nat, x: int)
    requires WORK_RAM + 4 * at < WORDS && x % 4 == 0 && WORK_RAM <= x && !InLine(x, WORK_RAM + 4 * at)
    ensures (x - WORK_RAM) / 4 < at || at + 16 <= (x - WORK_RAM) / 4
  {
    var q := (x - WORK_RAM) / 4;
    assert x - WORK_RAM == 4 * q;
  }

  /** Where a word of work RAM lies in the array. */
  lemma RamIndex(at: nat, k: nat)
    ensures (WORK_RAM + 4 * (at + k) - WORK_RAM) / 4 == at + k
  {
    DivUnique(4 * (at + k), 4, at + k, 0);
  }

  lemma WordAligned(fp: Word, k: nat)
    requires fp % 64 == 0 && k < 16
    ensures (fp + 4 * k) % 4 == 0 && InLine(fp + 4 * k, fp) && fp + 4 * k < WORDS
  {
    DivUnique(fp + 4 * k, 4, fp / 64 * 16 + k, 0);
  }

  lemma TableLine(tab: Word, i: nat)
    requires tab % 4 == 0 && tab <= WORDS - 36 && i < 9
    ensures (tab + 4 * i) % 4 == 0
    ensures Down64(tab + 4 * i) == Down64(tab) || Down64(tab + 4 * i) == Down64(tab + 32)
  {
    var q := tab / 4;
    assert tab == 4 * q;
    DivUnique(tab + 4 * i, 4, q + i, 0);
    NextLine(tab, i);
  }

  lemma NextLine(tab: Word, i: nat)
    requires tab <= WORDS - 36 && i < 9
    ensures Down64(tab + 4 * i) == Down64(tab) || Down64(tab + 4 * i) == Down64(tab + 32)
  {
    var q, m := tab / 64, tab % 64;
    if m + 4 * i < 64 {
      DivUnique(tab + 4 * i, 64, q, m + 4 * i);
    } else {
      DivUnique(tab + 4 * i, 64, q + 1, m + 4 * i - 64);
      DivUnique(tab + 32, 64, q + 1, m + 32 - 64);
    }
  }

  lemma Down64Line(x: Word)
    ensures Down64(x) % 64 == 0 && InLine(x, Down64(x))
  {
  }

  // ---- Memory as a value ------------------------------------------------------

  ghost predicate Whole(m: imap<int, Word>) { forall x: int :: x in m }

  /** The sixteen words at a. */
  ghost function FrameIn(m: imap<int, Word>, a: int): seq<Word>
    requires Whole(m)
  {
    seq(16, i requires 0 <= i < 16 => m[a + 4 * i])
  }

  /** The eight vector words of a pending table. */
  ghost function VectorsIn(m: imap<int, Word>, tab: int): seq<Word>
    requires Whole(m)
  {
    seq(8, i requires 0 <= i < 8 => m[tab + 4 + 4 * i])
  }

  /** From m to n, words outside these two lines are unchanged. */
  ghost predicate OnlyLines(m: imap<int, Word>, n: imap<int, Word>, a: Word, b: Word)
    requires Whole(m) && Whole(n)
  {
    forall x: int {:trigger n[x]} :: x % 4 == 0 && !InLine(x, a) && !InLine(x, b) ==> n[x] == m[x]
  }

  /** The pending table at tab. */
  ghost function TableIn(m: imap<int, Word>, tab: int): Table
    requires Whole(m)
  {
    Table(m[tab], VectorsIn(m, tab))
  }

  /** From m to n, words outside the pending table are unchanged. */
  ghost predicate OnlyTable(m: imap<int, Word>, n: imap<int, Word>, tab: Word)
    requires Whole(m) && Whole(n)
  {
    forall x: int {:trigger n[x]} :: x % 4 == 0 && !(tab <= x < tab + 36) ==> n[x] == m[x]
  }

  /** From m to n, words outside the pending table and these two lines are unchanged. */
  ghost predicate OnlyTableAndLines(m: imap<int, Word>, n: imap<int, Word>, tab: Word, a: Word, b: Word)
    requires Whole(m) && Whole(n)
  {
    forall x: int {:trigger n[x]} ::
      x % 4 == 0 && !(tab <= x < tab + 36) && !InLine(x, a) && !InLine(x, b) ==> n[x] == m[x]
  }

  /** What a look for interrupts writes: the table, and the lines of the entry if one was taken from p. */
  ghost predicate OnlyDelivery(m: imap<int, Word>, n: imap<int, Word>, tab: Word, o: Outcome, p: Plain, intSp: Word)
    requires Whole(m) && Whole(n) && PlainStack.Shaped(p)
  {
    if o.Taken? then OnlyTableAndLines(m, n, tab, EntryLine(p), RecordLineOf(p, intSp)) else OnlyTable(m, n, tab)
  }

  lemma DeliveryTwice(m: imap<int, Word>, n: imap<int, Word>, k: imap<int, Word>, tab: Word, o: Outcome, p: Plain,
                      intSp: Word)
    requires Whole(m) && Whole(n) && Whole(k) && PlainStack.Shaped(p) && o.Taken?
    requires OnlyTable(m, n, tab) && OnlyLines(n, k, EntryLine(p), RecordLineOf(p, intSp))
    ensures OnlyDelivery(m, k, tab, o, p, intSp)
  {
    forall x: int {:trigger k[x]} |
      x % 4 == 0 && !(tab <= x < tab + 36) && !InLine(x, EntryLine(p)) && !InLine(x, RecordLineOf(p, intSp))
      ensures k[x] == m[x]
    {
      assert n[x] == m[x];
    }
  }

  /** This line holds neither the pending table nor the pointers to it and to the interrupt stack. */
  predicate LineApart(line: Word, prcb: Word, tab: Word) {
    && line != Down64(tab) && line != Down64(Add32(tab, 32))
    && line != Down64(Add32(prcb, 20)) && line != Down64(Add32(prcb, 24))
  }

  lemma Add32Aligned(a: Word, d: int)
    requires a % 4 == 0 && d % 4 == 0
    ensures Add32(a, d) % 4 == 0
  {
  }

  lemma NoWrap(a: Word, d: int)
    requires 0 <= a + d < WORDS
    ensures Add32(a, d) == a + d
  {
  }

  /** Writes into lines apart from it leave the table, and the pointers to it and to the interrupt stack. */
  lemma TableStays(m: imap<int, Word>, n: imap<int, Word>, prcb: Word, a: Word, b: Word)
    requires Whole(m) && Whole(n) && a % 64 == 0 && b % 64 == 0 && OnlyLines(m, n, a, b) && prcb % 4 == 0
    requires var tab := m[Add32(prcb, 20)];
             tab % 4 == 0 && tab <= WORDS - 1028 && LineApart(a, prcb, tab) && LineApart(b, prcb, tab)
    ensures var tab := m[Add32(prcb, 20)];
            && n[Add32(prcb, 20)] == tab && n[Add32(prcb, 24)] == m[Add32(prcb, 24)]
            && TableIn(n, tab) == TableIn(m, tab)
  {
    var tab := m[Add32(prcb, 20)];
    Add32Aligned(prcb, 20);
    Add32Aligned(prcb, 24);
    NoWrap(tab, 32);
    PlaceKept(m, n, Add32(prcb, 20), a, b);
    PlaceKept(m, n, Add32(prcb, 24), a, b);
    TableKept(m, n, tab, a, b);
  }

  /** The table is nine aligned words of memory, apart from the pointer to it and from saved frames. */
  ghost predicate PlacedIn(m: imap<int, Word>, prcb: Word, stack: seq<Saved>)
    requires Whole(m)
  {
    var tab := m[Add32(prcb, 20)];
    && prcb % 4 == 0 && tab % 4 == 0 && tab <= WORDS - 1028
    && !(tab <= Add32(prcb, 20) < tab + 36) && !(tab <= Add32(prcb, 24) < tab + 36)
    && LineFree(stack, Down64(tab)) && LineFree(stack, Down64(tab + 32))
  }

  lemma PlacedFewer(m: imap<int, Word>, prcb: Word, stack: seq<Saved>, fewer: seq<Saved>)
    requires Whole(m) && PlacedIn(m, prcb, stack) && fewer <= stack
    ensures PlacedIn(m, prcb, fewer)
  {
    forall k | 0 <= k < |fewer| ensures fewer[k] == stack[k] { }
  }

  /** The handlers' addresses lie above the table's own words. */
  lemma HandlerApart(tab: Word, vector: nat)
    requires tab % 4 == 0 && tab <= WORDS - 1028 && 8 <= vector < 256
    ensures var a := Add32(tab, 36 + (vector - 8) * 4); a % 4 == 0 && tab + 36 <= a < tab + 1028
    ensures Add32(tab, 36 + (vector - 8) * 4) == tab + 36 + (vector - 8) * 4
  {
    assert Add32(tab, 36 + (vector - 8) * 4) == tab + 36 + (vector - 8) * 4;
    DivUnique(tab + 36 + (vector - 8) * 4, 4, tab / 4 + 9 + (vector - 8), 0);
  }

  lemma WordKept(m: imap<int, Word>, n: imap<int, Word>, x: int, line: Word, a: Word, b: Word)
    requires Whole(m) && Whole(n) && line % 64 == 0 && a % 64 == 0 && b % 64 == 0
    requires OnlyLines(m, n, a, b) && line != a && line != b && x % 4 == 0 && InLine(x, line)
    ensures n[x] == m[x]
  {
    if InLine(x, a) { LinesApart(line, a, x); }
    if InLine(x, b) { LinesApart(line, b, x); }
  }

  /** A line that is not written still holds the same frame. */
  lemma FrameKept(m: imap<int, Word>, n: imap<int, Word>, line: Word, a: Word, b: Word)
    requires Whole(m) && Whole(n) && line % 64 == 0 && a % 64 == 0 && b % 64 == 0
    requires OnlyLines(m, n, a, b) && line != a && line != b
    ensures FrameIn(n, line) == FrameIn(m, line)
  {
    forall i: nat | i < 16 ensures n[line + 4 * i] == m[line + 4 * i] {
      WordAligned(line, i);
      WordKept(m, n, line + 4 * i, line, a, b);
    }
  }

  lemma PlaceKept(m: imap<int, Word>, n: imap<int, Word>, x: Word, a: Word, b: Word)
    requires Whole(m) && Whole(n) && a % 64 == 0 && b % 64 == 0 && x % 4 == 0
    requires OnlyLines(m, n, a, b) && Down64(x) != a && Down64(x) != b
    ensures n[x] == m[x]
  {
    Down64Line(x);
    WordKept(m, n, x, Down64(x), a, b);
  }

  /** A pending table away from the two written lines is unchanged. */
  lemma TableKept(m: imap<int, Word>, n: imap<int, Word>, tab: Word, a: Word, b: Word)
    requires Whole(m) && Whole(n) && a % 64 == 0 && b % 64 == 0 && tab % 4 == 0 && tab <= WORDS - 36
    requires OnlyLines(m, n, a, b)
    requires Down64(tab) != a && Down64(tab) != b && Down64(tab + 32) != a && Down64(tab + 32) != b
    ensures n[tab] == m[tab] && VectorsIn(n, tab) == VectorsIn(m, tab)
  {
    PlaceKept(m, n, tab, a, b);
    forall j: nat | j < 8 ensures n[tab + 4 + 4 * j] == m[tab + 4 + 4 * j] {
      TableLine(tab, j + 1);
      PlaceKept(m, n, tab + 4 * (j + 1), a, b);
      assert tab + 4 * (j + 1) == tab + 4 + 4 * j;
    }
  }

  lemma RecordInLine(record: Record)
    requires record.Record? && record.fp % 64 == 0
    ensures RecordLine(record) % 64 == 0
    ensures InLine(Add32(record.fp, -16), RecordLine(record)) && Add32(record.fp, -16) % 4 == 0
    ensures InLine(Add32(record.fp, -12), RecordLine(record)) && Add32(record.fp, -12) % 4 == 0
    ensures InLine(Add32(record.fp, -8), RecordLine(record)) && Add32(record.fp, -8) % 4 == 0
  {
    var fp, q := record.fp, record.fp / 64;
    assert fp == 64 * q;
    if q > 0 {
      DivUnique(fp - 64, 64, q - 1, 0);
      DivUnique(fp - 16, 4, 16 * q - 4, 0);
      DivUnique(fp - 12, 4, 16 * q - 3, 0);
      DivUnique(fp - 8, 4, 16 * q - 2, 0);
    }
  }

  /** The record's two words survive writes into other lines. */
  lemma RecordKept(m: imap<int, Word>, n: imap<int, Word>, rec: Record, a: Word, b: Word)
    requires Whole(m) && Whole(n) && a % 64 == 0 && b % 64 == 0 && OnlyLines(m, n, a, b)
    requires rec.Record? && rec.fp % 64 == 0 && RecordLine(rec) != a && RecordLine(rec) != b
    ensures n[Add32(rec.fp, -16)] == m[Add32(rec.fp, -16)] && n[Add32(rec.fp, -12)] == m[Add32(rec.fp, -12)]
  {
    RecordInLine(rec);
    WordKept(m, n, Add32(rec.fp, -16), RecordLine(rec), a, b);
    WordKept(m, n, Add32(rec.fp, -12), RecordLine(rec), a, b);
  }

  /** A saved frame and its record elsewhere survive writes into the lines a and b. */
  lemma OthersKept(m: imap<int, Word>, n: imap<int, Word>, stack: seq<Saved>, k: nat, a: Word, b: Word)
    requires Whole(m) && Whole(n) && a % 64 == 0 && b % 64 == 0 && OnlyLines(m, n, a, b)
    requires k < |stack| && Separate(stack) && stack[k].addr != a && stack[k].addr != b
    requires var rec := stack[k].record; rec.Record? ==> RecordLine(rec) != a && RecordLine(rec) != b
    ensures FrameIn(n, stack[k].addr) == FrameIn(m, stack[k].addr)
    ensures var rec := stack[k].record;
            rec.Record? ==>
              && n[Add32(rec.fp, -16)] == m[Add32(rec.fp, -16)]
              && n[Add32(rec.fp, -12)] == m[Add32(rec.fp, -12)]
  {
    FrameKept(m, n, stack[k].addr, a, b);
    if stack[k].record.Record? { RecordKept(m, n, stack[k].record, a, b); }
  }

  /** From m to n, words outside the lines of saved frames are unchanged. */
  ghost predicate OnlyFrames(m: imap<int, Word>, n: imap<int, Word>, stack: seq<Saved>)
    requires Whole(m) && Whole(n)
  {
    forall x: int {:trigger n[x]} ::
      x % 4 == 0 && (forall k :: 0 <= k < |stack| ==> !InLine(x, stack[k].addr)) ==> n[x] == m[x]
  }

  lemma OnlyFramesMore(m: imap<int, Word>, n: imap<int, Word>, o: imap<int, Word>, stack: seq<Saved>, k: nat)
    requires Whole(m) && Whole(n) && Whole(o) && OnlyFrames(m, n, stack)
    requires k < |stack| && OnlyLines(n, o, stack[k].addr, stack[k].addr)
    ensures OnlyFrames(m, o, stack)
  {
    forall x: int {:trigger o[x]} | x % 4 == 0 && forall j :: 0 <= j < |stack| ==> !InLine(x, stack[j].addr)
      ensures o[x] == m[x]
    {
      assert !InLine(x, stack[k].addr);
      assert o[x] == n[x];
    }
  }

  /**
   Memory: 32-bit words at multiples of 4. Work RAM (0x00500000 to 0x005fffff) is an
   array, which M2_FAST_CPU builds also reach directly.
   */
  class Bus {
    const workRam: array<Word>
    var mem: map<int, Word>

    ghost predicate Shape() { workRam.Length == 0x4_0000 }

    constructor (workRam: array<Word>)
      requires workRam.Length == 0x4_0000
      ensures Shape() && this.workRam == workRam && mem == map[]
    {
      this.workRam, mem := workRam, map[];
    }

    /** read_dword */
    function Read(a: int): Word
      requires Shape()
      reads this, workRam
    {
      if WORK_RAM <= a < WORK_RAM_END then workRam[(a - WORK_RAM) / 4]
      else if a in mem then mem[a] else 0
    }

    ghost function Words(): (m: imap<int, Word>)
      requires Shape()
      reads this, workRam
      ensures Whole(m) && forall x: int :: m[x] == Read(x)
    {
      imap x: int | true :: Read(x)
    }

    ghost function FrameAt(a: int): seq<Word>
      requires Shape()
      reads this, workRam
    {
      FrameIn(Words(), a)
    }

    ghost function VectorsAt(tab: int): seq<Word>
      requires Shape()
      reads this, workRam
    {
      VectorsIn(Words(), tab)
    }

    /** write_dword */
    method Write(a: Word, v: Word)
      requires Shape() && a % 4 == 0
      modifies this, workRam
      ensures Read(a) == v
      ensures forall x: int :: x % 4 == 0 && x != a ==> Read(x) == old(Read(x))
    {
      if WORK_RAM <= a < WORK_RAM_END {
        workRam[(a - WORK_RAM) / 4] := v;
      } else {
        mem := mem[a := v];
      }
    }
  }

  class Cpu {
    const r: array<Word>            // m_r
    const rcache: array2<Word>      // m_rcache
    const frameAddr: array<Word>    // m_rcache_frame_addr
    const bus: Bus
    const fast: bool                // M2_FAST_CPU with a work RAM
    var pos: int                    // m_rcache_pos
    var ip: Word
    var pc: Word
    var ac: Word
    var prcb: Word
    var icr: Word
    var immediateIrq: bool
    var immediateVector: nat
    var immediatePri: nat
    var lineState: seq<int>         // m_irq_line_state
    ghost var stack: seq<Saved>
    ghost var base: nat             // frames below this one are in memory

    ghost predicate Shape() {
      && r.Length == 32 && frameAddr.Length == CACHE && bus.Shape()
      && rcache.Length0 == CACHE && rcache.Length1 == 16
      && r != frameAddr && r != bus.workRam && frameAddr != bus.workRam
    }

    /** The sixteen words of a cache entry. */
    ghost function CacheAt(k: nat): seq<Word>
      requires Shape() && k < CACHE
      reads rcache
    {
      seq(16, i requires 0 <= i < 16 && Shape() reads rcache => rcache[k, i])
    }

    /** Frames base to base + 3 are in the cache, the others in memory. */
    ghost predicate Cached(k: int)
      reads `base
    {
      base <= k < base + CACHE
    }

    ghost predicate FrameSaved(k: nat)
      requires Shape() && k < |stack|
      reads `stack, `base, rcache, frameAddr, bus, bus.workRam
    {
      if Cached(k) then CacheAt(k - base) == stack[k].locals && frameAddr[k - base] == stack[k].addr
      else bus.FrameAt(stack[k].addr) == stack[k].locals
    }

    ghost predicate RecordSaved(k: nat)
      requires Shape() && k < |stack|
      reads `stack, bus, bus.workRam
    {
      var rec := stack[k].record;
      rec.Record? ==> bus.Read(Add32(rec.fp, -16)) == rec.pc && bus.Read(Add32(rec.fp, -12)) == rec.ac
    }

    ghost predicate Valid()
      reads `stack, `base, `pos, rcache, frameAddr, bus, bus.workRam
    {
      && Shape()
      && base <= |stack| && pos == |stack| - base
      && Separate(stack)
      && (forall k: nat :: k < |stack| ==> FrameSaved(k) && RecordSaved(k))
    }

    /** The machine without a cache that this one stands for. */
    ghost function View(): Plain
      requires Shape()
      reads this, r
    {
      Plain(r[..], ip, pc, ac, stack)
    }

    constructor (bus: Bus, fast: bool)
      requires bus.Shape()
      ensures Valid() && stack == [] && this.bus == bus && this.fast == fast
    {
      this.bus, this.fast := bus, fast;
      r := new Word[32](_ => 0);
      rcache := new Word[CACHE, 16]((_, _) => 0);
      frameAddr := new Word[CACHE](_ => 0);
      pos, ip, pc, ac, prcb, icr := 0, 0, 0x001f_2002, 0, 0, 0xff00_0000;
      immediateIrq, immediateVector, immediatePri, lineState := false, 0, 0, [0, 0, 0, 0];
      stack, base := [], 0;
    }

    // ---- Memory -------------------------------------------------------------

    /** The sixteen locals to the line at fp, as sixteen bus writes. */
    method StoreFrame(fp: Word)
      requires Shape() && fp % 64 == 0
      modifies bus, bus.workRam
      ensures bus.FrameAt(fp) == r[..16]
      ensures OnlyLines(old(bus.Words()), bus.Words(), fp, fp)
    {
      var i := 0;
      while i < 16
        invariant 0 <= i <= 16
        invariant forall k {:trigger r[k]} :: 0 <= k < i ==> bus.Read(fp + 4 * k) == r[k]
        invariant OnlyLines(old(bus.Words()), bus.Words(), fp, fp)
        modifies bus, bus.workRam
      {
        WordAligned(fp, i);
        bus.Write(fp + 4 * i, r[i]);
        forall k {:trigger r[k]} | 0 <= k < i ensures bus.Read(fp + 4 * k) == r[k] {
          WordAligned(fp, k);
        }
        i := i + 1;
      }
    }

    /** The same as one copy into work RAM. */
    method CopyFrame(fp: Word)
      requires Shape() && fp % 64 == 0 && fp / 0x10_0000 == 5
      modifies bus.workRam
      ensures bus.FrameAt(fp) == r[..16]
      ensures OnlyLines(old(bus.Words()), bus.Words(), fp, fp)
    {
      RamLine(fp);
      var at := (fp - WORK_RAM) / 4;
      forall k | 0 <= k < 16 {
        bus.workRam[at + k] := r[k];
      }
      forall k | 0 <= k < 16 ensures bus.FrameAt(fp)[k] == r[k] {
        assert bus.FrameAt(fp)[k] == bus.Read(WORK_RAM + 4 * (at + k));
        RamIndex(at, k);
      }
      forall x: int | x % 4 == 0 && !InLine(x, fp) ensures bus.Read(x) == old(bus.Read(x)) {
        if WORK_RAM <= x { RamElsewhere(at, x); }
      }
    }

    method WriteFrame(fp: Word)
      requires Shape() && fp % 64 == 0
      modifies bus, bus.workRam
      ensures bus.FrameAt(fp) == r[..16]
      ensures OnlyLines(old(bus.Words()), bus.Words(), fp, fp)
    {
      if fast && fp / 0x10_0000 == 5 {
        CopyFrame(fp);
      } else {
        StoreFrame(fp);
      }
    }

    method LoadWords(fp: Word)
      requires Shape() && fp % 64 == 0
      modifies r
      ensures r[..] == old(bus.FrameAt(fp)) + old(r[16..])
    {
      var i := 0;
      while i < 16
        invariant 0 <= i <= 16
        invariant r[..i] == bus.FrameAt(fp)[..i]
        invariant r[16..] == old(r[16..])
        modifies r
      {
        r[i] := bus.Read(fp + 4 * i);
        i := i + 1;
      }
      assert r[..] == r[..16] + r[16..];
    }

    method CopyIn(fp: Word)
      requires Shape() && fp % 64 == 0 && fp / 0x10_0000 == 5
      modifies r
      ensures r[..] == old(bus.FrameAt(fp)) + old(r[16..])
    {
      RamLine(fp);
      var at := (fp - WORK_RAM) / 4;
      forall k | 0 <= k < 16 {
        r[k] := bus.workRam[at + k];
      }
      forall k | 0 <= k < 16 ensures r[k] == bus.FrameAt(fp)[k] {
        assert bus.FrameAt(fp)[k] == bus.Read(WORK_RAM + 4 * (at + k));
        RamIndex(at, k);
      }
      assert r[..] == r[..16] + r[16..];
    }

    /** The line at fp into the sixteen locals. */
    method LoadFrame(fp: Word)
      requires Shape() && fp % 64 == 0
      modifies r
      ensures r[..] == old(bus.FrameAt(fp)) + old(r[16..])
    {
      if fast && fp / 0x10_0000 == 5 {
        CopyIn(fp);
      } else {
        LoadWords(fp);
      }
    }

    // ---- Calls and returns --------------------------------------------------

    method SpillFrame()
      requires Valid() && LineFree(stack, Down64(r[FP]))
      modifies bus, bus.workRam
      ensures Valid()
      ensures bus.FrameAt(Down64(r[FP])) == r[..16]
      ensures OnlyLines(old(bus.Words()), bus.Words(), Down64(r[FP]), Down64(r[FP]))
    {
      var fp := Down64(r[FP]);
      WriteFrame(fp);
      forall k: nat | k < |stack| ensures FrameSaved(k) && RecordSaved(k) {
        assert old(FrameSaved(k) && RecordSaved(k));
        OthersKept(old(bus.Words()), bus.Words(), old(stack), k, fp, fp);
      }
    }

    method CacheFrame()
      requires Valid() && pos < CACHE
      modifies rcache, frameAddr
      ensures Valid()
      ensures CacheAt(pos) == r[..16] && frameAddr[pos] == Down64(r[FP])
    {
      forall j | 0 <= j < 16 {
        rcache[pos, j] := r[j];
      }
      frameAddr[pos] := Down64(r[FP]);
      forall k: nat | k < |stack| ensures FrameSaved(k) && RecordSaved(k) {
        assert old(FrameSaved(k) && RecordSaved(k));
        if Cached(k) {
          assert CacheAt(k - base) == old(CacheAt(k - base));
        }
      }
    }

    /** One more saved frame, already in the cache or in memory. */
    ghost method AddSaved(f: Saved)
      requires Valid() && LineFree(stack, f.addr) && f.record == NoRecord && |f.locals| == 16 && f.addr % 64 == 0
      requires if pos < CACHE then CacheAt(pos) == f.locals && frameAddr[pos] == f.addr else bus.FrameAt(f.addr) == f.locals
      modifies this`stack
      ensures Shape() && Separate(stack) && stack == old(stack) + [f]
      ensures forall k: nat :: k < |stack| ==> FrameSaved(k) && RecordSaved(k)
    {
      SeparatePush(stack, f);
      stack := stack + [f];
      forall k: nat | k < |stack| ensures FrameSaved(k) && RecordSaved(k) {
        if k < |old(stack)| {
          assert old(FrameSaved(k) && RecordSaved(k));
        }
      }
    }

    /** The locals into the cache, or to memory when the cache is full. */
    method SaveFrame()
      requires Valid() && LineFree(stack, Down64(r[FP]))
      modifies this`pos, this`stack, rcache, frameAddr, bus, bus.workRam
      ensures Valid()
      ensures stack == old(stack) + [Saved(Down64(r[FP]), r[..16], NoRecord)]
      ensures OnlyLines(old(bus.Words()), bus.Words(), Down64(r[FP]), Down64(r[FP]))
    {
      if pos >= CACHE {
        SpillFrame();
      } else {
        CacheFrame();
      }
      AddSaved(Saved(Down64(r[FP]), r[..16], NoRecord));
      pos := pos + 1;
    }

    method DoCall(adr: Word, kind: nat, sp: Word)
      requires Valid() && kind < 8 && LineFree(stack, Down64(r[FP]))
      modifies this`pos, this`stack, this`ip, r, rcache, frameAddr, bus, bus.workRam
      ensures Valid()
      ensures View() == PushCall(old(View()), adr, kind, sp, NoRecord)
      ensures ip == adr && r[RIP] == old(ip) && r[3..16] == old(r[3..16]) && r[16..31] == old(r[16..31])
      ensures r[PFP] / 8 == old(r[FP]) / 8 && r[PFP] % 8 == kind && r[FP] % 64 == 0
      ensures OnlyLines(old(bus.Words()), bus.Words(), Down64(old(r[FP])), Down64(old(r[FP])))
    {
      PushFacts(View(), adr, kind, sp, NoRecord);
      r[RIP] := ip;
      SaveFrame();
      ip := adr;
      OpenFrame(kind, sp);
    }

    /** The registers of the new frame. */
    method OpenFrame(kind: nat, sp: Word)
      requires Shape() && kind < 8
      modifies r
      ensures var fp := Up64(if kind == 7 then sp else old(r[SP]));
              r[..] == old(r[..])[PFP := PfpWord(old(r[FP]), kind)][FP := fp][SP := Add32(fp, 64)]
    {
      r[PFP] := PfpWord(r[FP], kind);
      if kind == 7 {
        r[SP] := sp;
      }
      r[FP] := Up64(r[SP]);
      r[SP] := Add32(r[FP], 64);
    }

    method LoadCached()
      requires Shape() && 0 <= pos < CACHE
      modifies r
      ensures r[..] == CacheAt(pos) + old(r[16..])
    {
      forall j | 0 <= j < 16 {
        r[j] := rcache[pos, j];
      }
      assert r[..] == r[..16] + r[16..];
    }

    lemma SeparatePop(stack: seq<Saved>)
      requires Separate(stack) && stack != []
      ensures Separate(stack[..|stack| - 1])
    {
    }

    /** The newest frame back into the locals: from the cache, or from the line at fp. */
    method Restore(fp: Word)
      requires Valid() && fp % 64 == 0
      requires stack != [] ==> fp == stack[|stack| - 1].addr
      modifies this`pos, this`base, r
      ensures r[..] == (if stack != [] then stack[|stack| - 1].locals else old(bus.FrameAt(fp))) + old(r[16..])
      ensures stack == [] ==> pos == 0 && base == 0
      ensures stack != [] ==> pos == |stack| - 1 - base >= 0
      ensures base <= old(base)
      ensures forall k: nat :: k < |stack| - 1 ==> FrameSaved(k) && RecordSaved(k)
    {
      ghost var was := base;
      if stack != [] {
        assert FrameSaved(|stack| - 1);
      }
      pos := pos - 1;
      if pos >= CACHE || pos < 0 {
        LoadFrame(fp);
        if pos < 0 {
          pos := 0;
          base := if stack == [] then 0 else |stack| - 1;
        }
      } else {
        LoadCached();
      }
      assert base == was || base == |stack| - 1 == was - 1 || stack == [];
      forall k: nat | k < |stack| - 1 ensures FrameSaved(k) && RecordSaved(k) {
        assert old(FrameSaved(k) && RecordSaved(k));
      }
    }

    /** The newest saved frame is gone. */
    ghost method DropSaved()
      requires Shape() && Separate(stack) && stack != [] && pos == |stack| - 1 - base >= 0
      requires forall k: nat :: k < |stack| - 1 ==> FrameSaved(k) && RecordSaved(k)
      modifies this`stack
      ensures Valid() && stack == old(stack)[..|old(stack)| - 1]
    {
      SeparatePop(stack);
      stack := stack[..|stack| - 1];
      forall k: nat | k < |stack| ensures FrameSaved(k) && RecordSaved(k) {
        assert old(FrameSaved(k) && RecordSaved(k));
      }
    }

    /** The machine a return comes back to: from the saved frame, or from memory when none is saved. */
    ghost function Popped(): Plain
      requires Valid()
      reads this, r, rcache, frameAddr, bus, bus.workRam
    {
      if stack != [] then Pop(View())
      else
        var was := bus.FrameAt(Down64(r[PFP])) + r[16..][FP - 16 := Down64(r[PFP])];
        View().(r := was, ip := was[RIP])
    }

    /**
     do_ret_0. The program has kept the previous frame pointer. A return with no
     frame saved reads whatever is in memory at that frame pointer.
     */
    method DoRet0()
      requires Valid()
      requires stack != [] ==> Down64(r[PFP]) == stack[|stack| - 1].addr
      modifies this`pos, this`stack, this`base, this`ip, r
      ensures Valid()
      ensures View() == old(Popped())
    {
      r[FP] := Down64(r[PFP]);
      assert r[16..] == old(r[16..][FP - 16 := Down64(r[PFP])]);
      Restore(r[FP]);
      ip := r[RIP];
      if stack != [] {
        DropSaved();
      }
    }

    // ---- flushreg (src/refcore/i960_ref.cpp) --------------------------------

    method StoreCached(fp: Word, k: nat)
      requires Shape() && fp % 64 == 0 && k < CACHE
      modifies bus, bus.workRam
      ensures bus.FrameAt(fp) == CacheAt(k)
      ensures OnlyLines(old(bus.Words()), bus.Words(), fp, fp)
    {
      var i := 0;
      while i < 16
        invariant 0 <= i <= 16
        invariant forall j {:trigger rcache[k, j]} :: 0 <= j < i ==> bus.Read(fp + 4 * j) == rcache[k, j]
        invariant OnlyLines(old(bus.Words()), bus.Words(), fp, fp)
        modifies bus, bus.workRam
      {
        WordAligned(fp, i);
        bus.Write(fp + 4 * i, rcache[k, i]);
        forall j {:trigger rcache[k, j]} | 0 <= j < i ensures bus.Read(fp + 4 * j) == rcache[k, j] {
          WordAligned(fp, j);
        }
        i := i + 1;
      }
    }

    /** The first t cache entries have been written to memory. */
    ghost predicate Flushed(t: nat)
      reads `stack, `base, rcache, frameAddr, bus, bus.workRam
    {
      && Shape() && base <= |stack| && Separate(stack)
      && (forall k: nat :: k < |stack| ==> FlushedAt(k, t))
    }

    ghost predicate FlushedAt(k: nat, t: nat)
      requires Shape() && k < |stack|
      reads `stack, `base, rcache, frameAddr, bus, bus.workRam
    {
      && RecordSaved(k)
      && if base + t <= k < base + CACHE then FrameSaved(k) else bus.FrameAt(stack[k].addr) == stack[k].locals
    }

    method FlushOne(t: nat)
      requires Flushed(t) && t < CACHE && base + t < |stack|
      modifies bus, bus.workRam
      ensures Flushed(t + 1)
      ensures OnlyLines(old(bus.Words()), bus.Words(), stack[base + t].addr, stack[base + t].addr)
    {
      assert FlushedAt(base + t, t) && Cached(base + t);
      ghost var line := stack[base + t].addr;
      assert frameAddr[t] == line && CacheAt(t) == stack[base + t].locals;
      StoreCached(frameAddr[t], t);
      assert bus.FrameAt(line) == stack[base + t].locals;
      ghost var next := t + 1;
      forall k: nat | k < |stack| ensures FlushedAt(k, next) {
        assert old(FlushedAt(k, t));
        var rec := stack[k].record;
        if rec.Record? {
          RecordKept(old(bus.Words()), bus.Words(), rec, line, line);
        }
        if k != base + t && !(base + t < k < base + CACHE) {
          FrameKept(old(bus.Words()), bus.Words(), stack[k].addr, line, line);
        }
      }
    }

    /** The first n entries to their frames' lines. */
    method FlushEntries(n: nat)
      requires Flushed(0) && n <= CACHE && base + n <= |stack|
      modifies bus, bus.workRam
      ensures Flushed(n)
      ensures OnlyFrames(old(bus.Words()), bus.Words(), stack)
    {
      var t := 0;
      while t < n
        invariant 0 <= t <= n
        invariant Flushed(t)
        invariant OnlyFrames(old(bus.Words()), bus.Words(), stack)
        modifies bus, bus.workRam
      {
        ghost var words := bus.Words();
        FlushOne(t);
        OnlyFramesMore(old(bus.Words()), words, bus.Words(), stack, base + t);
        t := t + 1;
      }
    }

    /** flushreg changes nothing the program can see of its frames. */
    method FlushReg()
      requires Valid()
      modifies this`pos, this`base, bus, bus.workRam
      ensures Valid() && View() == old(View()) && pos == 0
      ensures OnlyFrames(old(bus.Words()), bus.Words(), stack)
    {
      forall k: nat | k < |stack| ensures FlushedAt(k, 0) {
        assert FrameSaved(k) && RecordSaved(k);
      }
      var n: nat := if pos > 4 then 4 else pos;
      FlushEntries(n);
      label L:
      pos := 0;
      base := |stack|;
      forall k: nat | k < |stack| ensures FrameSaved(k) && RecordSaved(k) {
        assert old@L(FlushedAt(k, n));
      }
    }

    // ---- Any run of calls, returns, flushes and other instructions ----------

    /** Instructions that only change the registers. */
    method Exec(nr: seq<Word>, nip: Word, npc: Word, nac: Word)
      requires Valid() && |nr| == 32
      modifies this`ip, this`pc, this`ac, r
      ensures Valid() && View() == old(View()).(r := nr, ip := nip, pc := npc, ac := nac)
    {
      forall j | 0 <= j < 32 {
        r[j] := nr[j];
      }
      assert r[..] == nr;
      ip, pc, ac := nip, npc, nac;
    }

    /** The program stores a word; it does not write into a saved frame or record. */
    method Store(a: Word, v: Word)
      requires Valid() && a % 4 == 0 && LineFree(stack, Down64(a))
      modifies bus, bus.workRam
      ensures Valid() && View() == old(View())
      ensures bus.Read(a) == v
      ensures forall x: int :: x % 4 == 0 && x != a ==> bus.Read(x) == old(bus.Read(x))
    {
      bus.Write(a, v);
      assert OnlyLines(old(bus.Words()), bus.Words(), Down64(a), Down64(a));
      forall k: nat | k < |stack| ensures FrameSaved(k) && RecordSaved(k) {
        assert old(FrameSaved(k) && RecordSaved(k));
        OthersKept(old(bus.Words()), bus.Words(), old(stack), k, Down64(a), Down64(a));
      }
    }

    // ---- Interrupt entry and return -----------------------------------------

    /** The handler's address from the interrupt table in memory. */
    function Handler(vector: nat): Word
      requires Shape() && vector < 256
      reads `prcb, bus, bus.workRam
    {
      bus.Read(Add32(bus.Read(Add32(prcb, 20)), 36 + (vector - 8) * 4))
    }

    function InterruptSp(): Word
      requires Shape()
      reads `prcb, bus, bus.workRam
    {
      bus.Read(Add32(prcb, 24))
    }

    /** The handler's frame, on the stack the entry starts from. */
    method OpenHandler(vector: nat)
      requires Valid() && vector < 256 && LineFree(stack, EntryLine(View()))
      modifies this`pos, this`stack, this`ip, r, rcache, frameAddr, bus, bus.workRam
      ensures Valid()
      ensures var sp := InterruptStack(old(View()), old(InterruptSp()));
              View() == PushCall(old(View()), old(Handler(vector)), 7, sp, NoRecord)
      ensures ip == old(bus.Read(Add32(bus.Read(Add32(prcb, 20)), 36 + 4 * (vector - 8))))
      ensures OnlyLines(old(bus.Words()), bus.Words(), EntryLine(old(View())), EntryLine(old(View())))
    {
      var intTab := bus.Read(Add32(prcb, 20));
      var intSp := bus.Read(Add32(prcb, 24));
      var irqv := bus.Read(Add32(intTab, 36 + (vector - 8) * 4));
      var sp := if HasBit(pc, 13) then r[SP] else intSp;
      sp := Up64(sp);
      sp := Add32(sp, 64);
      assert sp == InterruptStack(View(), InterruptSp()) && irqv == Handler(vector);
      assert 36 + (vector - 8) * 4 == 36 + 4 * (vector - 8);
      assert irqv == bus.Read(Add32(bus.Read(Add32(prcb, 20)), 36 + 4 * (vector - 8)));
      DoCall(irqv, 7, sp);
    }

    method TakeInterrupt(vector: nat, lvl: nat)
      requires Valid() && vector < 256 && lvl < 32 && CanEnter(View(), InterruptSp())
      modifies this`pos, this`stack, this`ip, this`pc, r, rcache, frameAddr, bus, bus.workRam
      ensures Valid()
      ensures View() == Enter(old(View()), old(Handler(vector)), old(InterruptSp()), lvl)
      ensures OnlyLines(old(bus.Words()), bus.Words(), EntryLine(old(View())), RecordLineOf(old(View()), old(InterruptSp())))
      // the handler is the table's word for the vector; its record is PC, AC and the vector's number in the table
      ensures ip == old(bus.Read(Add32(bus.Read(Add32(prcb, 20)), 36 + 4 * (vector - 8))))
      ensures bus.Read(Add32(r[FP], -16)) == old(pc) && bus.Read(Add32(r[FP], -12)) == old(ac)
      ensures bus.Read(Add32(r[FP], -8)) == Add32(vector, -8)
      // its frame lies above a padding line on the interrupted stack, if PC has bit 13, or the interrupt stack
      ensures var from := if HasBit(old(pc), 13) then old(r[SP]) else old(bus.Read(Add32(prcb, 24)));
              r[FP] % 64 == 0 && (from <= WORDS - 192 ==> from + 64 <= r[FP] < from + 128)
    {
      EnterFacts(View(), Handler(vector), InterruptSp(), lvl);
      Up64Facts(InterruptStack(View(), InterruptSp()));
      OpenHandler(vector);
      WriteRecord(Add32(vector, -8));
      pc := HandlerPc(pc, lvl);
    }

    /** The record's words: PC, AC and the vector. */
    method WriteThree(vector: Word, ghost rec: Record)
      requires Shape() && r[FP] % 64 == 0 && rec == Record(r[FP], pc, ac)
      modifies bus, bus.workRam
      ensures bus.Read(Add32(rec.fp, -16)) == pc && bus.Read(Add32(rec.fp, -12)) == ac && bus.Read(Add32(rec.fp, -8)) == vector
      ensures OnlyLines(old(bus.Words()), bus.Words(), RecordLine(rec), RecordLine(rec))
    {
      RecordInLine(rec);
      bus.Write(Add32(r[FP], -16), pc);
      bus.Write(Add32(r[FP], -12), ac);
      bus.Write(Add32(r[FP], -8), vector);
    }

    /** The processor state into the record of the frame just opened. */
    method WriteRecord(vector: Word)
      requires Valid() && stack != [] && stack[|stack| - 1].record == NoRecord
      requires r[FP] % 64 == 0 && LineFree(stack, Add32(r[FP], -64))
      modifies this`stack, bus, bus.workRam
      ensures Valid()
      ensures stack == old(stack)[|old(stack)| - 1 := old(stack)[|old(stack)| - 1].(record := Record(r[FP], pc, ac))]
      ensures OnlyLines(old(bus.Words()), bus.Words(), Add32(r[FP], -64), Add32(r[FP], -64))
      ensures bus.Read(Add32(r[FP], -16)) == pc && bus.Read(Add32(r[FP], -12)) == ac
      ensures bus.Read(Add32(r[FP], -8)) == vector
    {
      ghost var rec := Record(r[FP], pc, ac);
      ghost var line := RecordLine(rec);
      RecordInLine(rec);
      WriteThree(vector, rec);
      ghost var n := |stack| - 1;
      stack := stack[n := stack[n].(record := rec)];
      SeparateRecord(old(stack), rec);
      forall k: nat | k < |stack| ensures FrameSaved(k) && RecordSaved(k) {
        assert old(FrameSaved(k) && RecordSaved(k));
        OthersKept(old(bus.Words()), bus.Words(), old(stack), k, line, line);
      }
    }

    /** The machine do_ret of type 7 comes back to: PC and AC are read from the record in memory, below FP. */
    ghost function Resumed(): Plain
      requires Valid()
      reads this, r, rcache, frameAddr, bus, bus.workRam
    {
      Popped().(pc := bus.Read(Add32(r[FP], -16)), ac := bus.Read(Add32(r[FP], -12)))
    }

    /** At the handler's own frame the words read are the interrupted code's PC and AC. */
    lemma ResumedIsLeave()
      requires Valid() && stack != [] && stack[|stack| - 1].record.Record?
      requires r[FP] == stack[|stack| - 1].record.fp
      ensures Resumed() == Leave(View())
    {
      assert RecordSaved(|stack| - 1);
    }

    /** do_ret of type 7 up to its look for another interrupt. */
    method ReturnFromInterrupt()
      requires Valid() && (stack != [] ==> Down64(r[PFP]) == stack[|stack| - 1].addr)
      modifies this`pos, this`stack, this`base, this`ip, this`pc, this`ac, r
      ensures Valid() && View() == old(Resumed())
    {
      var x := bus.Read(Add32(r[FP], -16));
      var y := bus.Read(Add32(r[FP], -12));
      DoRet0();
      ac := y;
      pc := x;
    }

    // ---- The pending table --------------------------------------------------

    function TableBase(): Word
      requires Shape()
      reads `prcb, bus, bus.workRam
    {
      bus.Read(Add32(prcb, 20))
    }

    /** The pending table as it stands in memory. */
    ghost function TableNow(): Table
      requires Shape()
      reads `prcb, bus, bus.workRam
    {
      TableIn(bus.Words(), TableBase())
    }

    ghost predicate TablePlaced()
      requires Shape()
      reads `prcb, `stack, bus, bus.workRam
    {
      PlacedIn(bus.Words(), prcb, stack)
    }

    /** An interrupt entry leaves the table and the pointers to it alone. */
    ghost predicate EntryApart(p: Plain)
      requires Shape() && PlainStack.Shaped(p)
      reads `prcb, bus, bus.workRam
    {
      && LineApart(EntryLine(p), prcb, TableBase())
      && LineApart(RecordLineOf(p, InterruptSp()), prcb, TableBase())
    }

    /** An interrupt may be entered from here: its two lines are free, and apart from the table. */
    ghost predicate EntryReady(p: Plain)
      requires Shape()
      reads `prcb, bus, bus.workRam
    {
      CanEnter(p, InterruptSp()) && EntryApart(p)
    }

    /** One word of the table: word 0 the levels, words 1 to 8 the vectors. */
    method WriteTable(i: nat, v: Word)
      requires Valid() && TablePlaced() && i < 9
      modifies bus, bus.workRam
      ensures Valid() && TablePlaced() && View() == old(View())
      ensures TableBase() == old(TableBase()) && InterruptSp() == old(InterruptSp())
      ensures TableNow() == if i == 0 then old(TableNow()).(levels := v)
                            else old(TableNow()).(vectors := old(TableNow()).vectors[i - 1 := v])
      ensures OnlyTable(old(bus.Words()), bus.Words(), TableBase())
    {
      var tab := TableBase();
      TableLine(tab, i);
      Add32Aligned(prcb, 20);
      Add32Aligned(prcb, 24);
      ghost var was := bus.VectorsAt(tab);
      Store(tab + 4 * i, v);
      forall j: nat | j < 8
        ensures bus.VectorsAt(tab)[j] == if j + 1 == i then v else was[j]
      {
        TableLine(tab, j + 1);
      }
    }

    /** check_pending_irqs. Room for an entry is asked for only where a vector may be taken. */
    method CheckPendingIrqs() returns (o: Outcome)
      requires Valid() && TablePlaced()
      requires MayTake(TableNow(), Priority(pc)) ==> EntryReady(View())
      modifies this`pos, this`stack, this`ip, this`pc, r, rcache, frameAddr, bus, bus.workRam
      ensures Valid() && TablePlaced() && TableBase() == old(TableBase())
      ensures ScanResult(old(TableNow()), Priority(old(pc)), o, TableNow())
      ensures if o.Taken? then View() == Enter(old(View()), old(Handler(o.vector)), old(InterruptSp()), o.lvl)
              else View() == old(View())
      ensures OnlyDelivery(old(bus.Words()), bus.Words(), TableBase(), o, old(View()), old(InterruptSp()))
      ensures LetIn(old(pc), pc, old(TableNow()), o)
    {
      var intTab := TableBase();
      var cpuPri := Priority(pc);
      var pendingPri := bus.Read(intTab);
      ghost var t := TableNow();
      var lvl := 31;
      while lvl >= 0
        invariant -1 <= lvl <= 31
        invariant NoneAbove(t, cpuPri, lvl)
      {
        if HasBit(pendingPri, lvl) && Allowed(cpuPri, lvl) {
          o := Deliver(lvl);
          LookPriority(old(pc), pc, t, o, TableNow());
          return;
        }
        lvl := lvl - 1;
      }
      o := Nothing;
    }

    /** The vector's bit goes. */
    method ClearVector(vector: nat)
      requires Valid() && TablePlaced() && vector < 256
      modifies bus, bus.workRam
      ensures Valid() && TablePlaced() && View() == old(View())
      ensures TableNow() == Cleared(old(TableNow()), vector)
      ensures !HasBit(bus.Read(TableBase() + 4 + 4 * (vector / 32)), vector % 32)
      ensures TableBase() == old(TableBase()) && InterruptSp() == old(InterruptSp())
      ensures OnlyTable(old(bus.Words()), bus.Words(), TableBase())
    {
      var word := vector / 32;
      PostedBits(TableNow(), vector);
      assert bus.Read(TableBase() + 4 + 4 * word) == TableNow().vectors[word];
      WriteTable(word + 1, ClearBit32(bus.Read(TableBase() + 4 + 4 * word), vector % 32));
    }

    /** The vector's bit goes, and the level's with the last one. */
    method ClearPending(lvl: nat, vector: nat)
      requires Valid() && TablePlaced() && vector < 256 && lvl == vector / 8
      modifies bus, bus.workRam
      ensures Valid() && TablePlaced() && View() == old(View())
      ensures TableNow() == Remove(old(TableNow()), vector)
      ensures TableBase() == old(TableBase()) && InterruptSp() == old(InterruptSp())
      ensures OnlyTable(old(bus.Words()), bus.Words(), TableBase())
    {
      RemoveInWords(TableNow(), vector);
      ClearVector(vector);
      assert bus.Read(TableBase() + 4 + 4 * (vector / 32)) == TableNow().vectors[vector / 32];
      if !AnyInByte(bus.Read(TableBase() + 4 + 4 * (vector / 32)), lvl % 4 * 8) {
        WriteTable(0, ClearBit32(bus.Read(TableBase()), lvl));
      }
    }

    /** An interrupt entry; one that is apart from the pending table leaves it alone. */
    method TakeKeepingTable(vector: nat, lvl: nat)
      requires Valid() && vector < 256 && lvl < 32 && CanEnter(View(), InterruptSp())
      modifies this`pos, this`stack, this`ip, this`pc, r, rcache, frameAddr, bus, bus.workRam
      ensures Valid()
      ensures old(TablePlaced() && EntryApart(View())) ==>
                TablePlaced() && TableNow() == old(TableNow()) && TableBase() == old(TableBase())
      ensures View() == Enter(old(View()), old(Handler(vector)), old(InterruptSp()), lvl)
      ensures OnlyLines(old(bus.Words()), bus.Words(), EntryLine(old(View())), RecordLineOf(old(View()), old(InterruptSp())))
    {
      TakeInterrupt(vector, lvl);
      if old(TablePlaced() && EntryApart(View())) {
        EntryKeepsTable(old(bus.Words()), bus.Words(), prcb, old(View()), old(Handler(vector)), lvl);
      }
    }

    /** The vector leaves the table and is entered. */
    method TakeVector(vector: nat, lvl: nat)
      requires Valid() && TablePlaced() && EntryReady(View())
      requires 8 <= vector < 256 && lvl == vector / 8
      modifies this`pos, this`stack, this`ip, this`pc, r, rcache, frameAddr, bus, bus.workRam
      ensures Valid() && TablePlaced() && TableBase() == old(TableBase())
      ensures TableNow() == Remove(old(TableNow()), vector)
      ensures View() == Enter(old(View()), old(Handler(vector)), old(InterruptSp()), lvl)
      ensures OnlyDelivery(old(bus.Words()), bus.Words(), TableBase(), Taken(vector, lvl), old(View()), old(InterruptSp()))
    {
      HandlerApart(TableBase(), vector);
      ClearPending(lvl, vector);
      assert Handler(vector) == old(Handler(vector));
      ghost var words := bus.Words();
      TakeKeepingTable(vector, lvl);
      DeliveryTwice(old(bus.Words()), words, bus.Words(), TableBase(), Taken(vector, lvl), old(View()), old(InterruptSp()));
    }

    /** The repair of a level whose vectors are all clear. */
    method Recover(lvl: nat) returns (o: Outcome)
      requires Valid() && TablePlaced() && lvl < 32
      requires HasBit(TableNow().levels, lvl) && !LevelPending(TableNow(), lvl)
      modifies bus, bus.workRam
      ensures Valid() && TablePlaced() && View() == old(View()) && o == Recovered(lvl) && TableBase() == old(TableBase())
      ensures ScanResult(old(TableNow()), Priority(pc), o, TableNow())
      ensures OnlyTable(old(bus.Words()), bus.Words(), TableBase())
    {
      RecoveredIsResult(TableNow(), Priority(pc), lvl);
      WriteTable(0, ClearBit32(bus.Read(TableBase()), lvl));
      o := Recovered(lvl);
    }

    /** The highest vector of the level, at bit `take` of its word. */
    method DeliverHighest(lvl: nat, take: nat) returns (o: Outcome)
      requires Valid() && TablePlaced() && (MayTake(TableNow(), Priority(pc)) ==> EntryReady(View()))
      requires HighestAt(TableNow(), Priority(pc), lvl, take)
      modifies this`pos, this`stack, this`ip, this`pc, r, rcache, frameAddr, bus, bus.workRam
      ensures Valid() && TablePlaced() && o.Taken? && TableBase() == old(TableBase())
      ensures ScanResult(old(TableNow()), Priority(old(pc)), o, TableNow())
      ensures View() == Enter(old(View()), old(Handler(o.vector)), old(InterruptSp()), o.lvl)
      ensures OnlyDelivery(old(bus.Words()), bus.Words(), TableBase(), o, old(View()), old(InterruptSp()))
    {
      HighestIsResult(TableNow(), Priority(pc), lvl, take);
      var vector := take + lvl / 4 * 32;
      TakeVector(vector, lvl);
      o := Taken(vector, lvl);
    }

    /** The highest bit of the level's byte, or -1. */
    method FindInTable(lvl: nat) returns (take: int)
      requires Shape() && lvl < 32
      ensures take == -1 <==> !LevelPending(TableNow(), lvl)
      ensures take != -1 ==> take >= 0 && HighestBit(TableNow(), lvl, take)
    {
      ghost var t := TableNow();
      var vword := bus.Read(TableBase() + 4 + 4 * (lvl / 4));
      assert vword == t.vectors[lvl / 4];
      ByteIsLevel(t, lvl);
      take := FindVector(vword, lvl % 4 * 8);
    }

    /** The level found: take its highest vector, or repair a level with none. */
    method Deliver(lvl: nat) returns (o: Outcome)
      requires Valid() && TablePlaced() && (MayTake(TableNow(), Priority(pc)) ==> EntryReady(View()))
      requires lvl < 32 && HasBit(TableNow().levels, lvl) && Allowed(Priority(pc), lvl)
      requires NoneAbove(TableNow(), Priority(pc), lvl)
      modifies this`pos, this`stack, this`ip, this`pc, r, rcache, frameAddr, bus, bus.workRam
      ensures Valid() && TablePlaced() && TableBase() == old(TableBase())
      ensures ScanResult(old(TableNow()), Priority(old(pc)), o, TableNow())
      ensures if o.Taken? then View() == Enter(old(View()), old(Handler(o.vector)), old(InterruptSp()), o.lvl)
              else View() == old(View())
      ensures OnlyDelivery(old(bus.Words()), bus.Words(), TableBase(), o, old(View()), old(InterruptSp()))
    {
      var take := FindInTable(lvl);
      if take == -1 {
        o := Recover(lvl);
      } else {
        o := DeliverHighest(lvl, take);
      }
    }

    /** Where a type-7 return may look for another interrupt. */
    ghost predicate ReturnPlaced()
      requires Valid()
      reads this, r, rcache, frameAddr, bus, bus.workRam
    {
      TablePlaced() && (MayTake(TableNow(), Priority(Resumed().pc)) ==> EntryReady(Resumed()))
    }

    /** do_ret of type 7: the return, then a look for another interrupt from the code it came back to. */
    method ReturnAndLook() returns (o: Outcome)
      requires Valid() && (stack != [] ==> Down64(r[PFP]) == stack[|stack| - 1].addr) && ReturnPlaced()
      modifies this`pos, this`stack, this`base, this`ip, this`pc, this`ac, r, rcache, frameAddr, bus, bus.workRam
      ensures Valid() && TablePlaced() && TableBase() == old(TableBase())
      ensures var back := old(Resumed());
        && ScanResult(old(TableNow()), Priority(back.pc), o, TableNow())
        && View() == (if o.Taken? then Enter(back, old(Handler(o.vector)), old(InterruptSp()), o.lvl) else back)
        && OnlyDelivery(old(bus.Words()), bus.Words(), TableBase(), o, back, old(InterruptSp()))
        && LetIn(back.pc, pc, old(TableNow()), o)
    {
      ghost var back, words, saved := Resumed(), bus.Words(), stack;
      ReturnFromInterrupt();
      assert View() == back && bus.Words() == words;
      PlacedFewer(words, prcb, saved, stack);
      o := CheckPendingIrqs();
    }

    /** do_ret: by the type bits of the previous frame pointer; other types are fatal in the source. */
    method DoRet() returns (ok: bool, o: Outcome)
      requires Valid() && (stack != [] ==> Down64(r[PFP]) == stack[|stack| - 1].addr)
      requires r[PFP] % 8 == 7 ==> ReturnPlaced()
      modifies this`pos, this`stack, this`base, this`ip, this`pc, this`ac, r, rcache, frameAddr, bus, bus.workRam
      ensures Valid()
      ensures ok <==> old(r[PFP]) % 8 in {0, 7}
      ensures old(r[PFP]) % 8 != 7 ==>
        && View() == (if ok then old(Popped()) else old(View()))
        && o == Nothing && bus.Words() == old(bus.Words())
      ensures old(r[PFP]) % 8 == 7 ==>
        var back := old(Resumed());
        && TablePlaced() && TableBase() == old(TableBase())
        && ScanResult(old(TableNow()), Priority(back.pc), o, TableNow())
        && View() == (if o.Taken? then Enter(back, old(Handler(o.vector)), old(InterruptSp()), o.lvl) else back)
        && OnlyDelivery(old(bus.Words()), bus.Words(), TableBase(), o, back, old(InterruptSp()))
        && LetIn(back.pc, pc, old(TableNow()), o)
    {
      ok, o := true, Nothing;
      if r[PFP] % 8 == 0 {
        DoRet0();
      } else if r[PFP] % 8 == 7 {
        o := ReturnAndLook();
      } else {
        ok := false;
      }
    }

    /** check_immediate_irqs */
    method CheckImmediateIrqs() returns (taken: bool)
      requires Valid() && (immediateIrq ==> immediateVector < 256 && immediatePri < 32)
      requires immediateIrq && Allowed(Priority(pc), immediatePri) ==> CanEnter(View(), InterruptSp())
      modifies this`pos, this`stack, this`ip, this`pc, this`immediateIrq, r, rcache, frameAddr, bus, bus.workRam
      ensures Valid()
      ensures taken <==> old(immediateIrq) && Allowed(Priority(old(pc)), immediatePri)
      ensures immediateIrq == (old(immediateIrq) && !taken)
      ensures View() == if taken then Enter(old(View()), old(Handler(immediateVector)), old(InterruptSp()), immediatePri)
                        else old(View())
      ensures taken ==> RisesTo(old(pc), pc, immediatePri)
      ensures old(immediateIrq) && !taken ==> immediatePri <= old(pc) / 0x1_0000 % 32 && immediatePri != 31
      ensures !taken ==> bus.Words() == old(bus.Words())
      ensures taken ==>
        OnlyLines(old(bus.Words()), bus.Words(), EntryLine(old(View())), RecordLineOf(old(View()), old(InterruptSp())))
      ensures old(TablePlaced()) && (taken ==> old(EntryApart(View()))) ==> TablePlaced() && TableNow() == old(TableNow())
    {
      var cpuPri := Priority(pc);
      taken := false;
      if immediateIrq && (cpuPri < immediatePri || immediatePri == 31) {
        HandlerLevel(pc, immediatePri);
        TakeKeepingTable(immediateVector, immediatePri);
        immediateIrq := false;
        taken := true;
      }
    }

    /** The level's bit, then the vector's. */
    method PostPending(vector: nat)
      requires Valid() && TablePlaced() && 0 < vector < 256
      modifies bus, bus.workRam
      ensures Valid() && TablePlaced() && View() == old(View()) && TableBase() == old(TableBase())
      ensures TableNow() == Post(old(TableNow()), vector)
      ensures OnlyTable(old(bus.Words()), bus.Words(), TableBase())
      ensures HasBit(bus.Read(TableBase()), vector / 8)
      ensures HasBit(bus.Read(TableBase() + 4 + 4 * (vector / 32)), vector % 32)
    {
      PostedBits(TableNow(), vector);
      var pend := SetBit32(bus.Read(TableBase()), vector / 8);
      WriteTable(0, pend);
      var word := vector / 32;
      assert bus.Read(TableBase() + 4 + 4 * word) == TableNow().vectors[word];
      pend := SetBit32(bus.Read(TableBase() + 4 + 4 * word), vector % 32);
      WriteTable(word + 1, pend);
    }

    /** A requested interrupt: into the slot if it may be taken right now and the slot is free, else into the table. */
    method Request(vector: nat)
      requires Valid() && TablePlaced() && 0 < vector < 256
      modifies this`immediateIrq, this`immediateVector, this`immediatePri, bus, bus.workRam
      ensures Valid() && TablePlaced() && View() == old(View()) && TableBase() == old(TableBase())
      ensures OnlyTable(old(bus.Words()), bus.Words(), TableBase())
      ensures var now := Allowed(Priority(pc), vector / 8) && !old(immediateIrq);
              && (now ==> immediateIrq && immediateVector == vector && immediatePri == vector / 8)
              && (now ==> TableNow() == old(TableNow()))
              && (!now ==> TableNow() == Post(old(TableNow()), vector))
              && (!now ==> SlotSame(old(immediateIrq), old(immediateVector), old(immediatePri)))
    {
      var cpuPri := Priority(pc);
      var priority := vector / 8;
      if (cpuPri < priority || priority == 31) && !immediateIrq {
        immediateIrq := true;
        immediateVector := vector;
        immediatePri := priority;
      } else {
        PostPending(vector);
      }
    }

    predicate SlotSame(irq: bool, vector: nat, pri: nat)
      reads `immediateIrq, `immediateVector, `immediatePri
    {
      immediateIrq == irq && immediateVector == vector && immediatePri == pri
    }

    /**
     execute_set_input. A rising edge with a nonzero vector always ends in the
     immediate slot or in the table; nothing else ever changes either of them.
     */
    method ExecuteSetInput(line: nat, state: int)
      requires Valid() && TablePlaced() && line < 4 && |lineState| == 4
      modifies this`lineState, this`immediateIrq, this`immediateVector, this`immediatePri, bus, bus.workRam
      ensures Valid() && TablePlaced() && View() == old(View()) && TableBase() == old(TableBase())
      ensures lineState == old(lineState)[line := state]
      ensures OnlyTable(old(bus.Words()), bus.Words(), TableBase())
      ensures var v := LineVector(icr, line);
              var posts := state != 0 && state != old(lineState)[line] && v != 0;
              var now := (v / 8 > pc / 0x1_0000 % 32 || v / 8 == 31) && !old(immediateIrq);
              && (posts && now ==> immediateIrq && immediateVector == v && immediatePri == v / 8)
              && (!(posts && now) ==> SlotSame(old(immediateIrq), old(immediateVector), old(immediatePri)))
              && TableNow() == if posts && !now then Post(old(TableNow()), v) else old(TableNow())
    {
      if lineState[line] == state { return; }
      lineState := lineState[line := state];
      var vector := LineVector(icr, line);
      if vector == 0 { return; }
      if state != 0 {
        Request(vector);
      }
    }
  }

  /** The vector wired to an interrupt line. */
  function LineVector(icr: Word, line: nat): nat {
    match line
    case 0 => icr % 0x100
    case 1 => icr / 0x100 % 0x100
    case 2 => icr / 0x1_0000 % 0x100
    case _ => icr / 0x100_0000 % 0x100
  }

  lemma PostedBits(t: Table, v: nat)
    requires |t.vectors| == 8 && v < 256
    ensures HasBit(Post(t, v).levels, v / 8) && HasBit(Post(t, v).vectors[v / 32], v % 32)
    ensures !HasBit(Cleared(t, v).vectors[v / 32], v % 32)
  {
    SetBitBits(t.levels, v / 8, v / 8);
    SetBitBits(t.vectors[v / 32], v % 32, v % 32);
    ClearBitBits(t.vectors[v / 32], v % 32, v % 32);
  }

  /** The four lines' vectors are the four bytes of ICR, line 0's the lowest. */
  lemma IcrBytes(icr: Word)
    ensures forall line: nat :: line < 4 ==> LineVector(icr, line) < 0x100
    ensures LineVector(icr, 0) + 0x100 * LineVector(icr, 1) + 0x1_0000 * LineVector(icr, 2)
              + 0x100_0000 * LineVector(icr, 3) == icr
  {
    var a := icr / 0x100;
    var b := a / 0x100;
    var c := b / 0x100;
    DivUnique(icr, 0x1_0000, b, 0x100 * (a % 0x100) + icr % 0x100);
    DivUnique(icr, 0x100_0000, c, 0x1_0000 * (b % 0x100) + 0x100 * (a % 0x100) + icr % 0x100);
  }

  /** PC's priority was below the level, or the level is the highest; and it is the level now. */
  predicate RisesTo(before: Word, after: Word, lvl: nat) {
    after / 0x1_0000 % 32 == lvl && (lvl > before / 0x1_0000 % 32 || lvl == 31)
  }

  /** Which interrupts a look at the table lets in, by PC's priority field before and after it. */
  ghost predicate LetIn(before: Word, after: Word, t: Table, o: Outcome) {
    && (o.Taken? ==> RisesTo(before, after, o.vector / 8))
    && (o.Nothing? ==> forall l: nat :: l < 32 && HasBit(t.levels, l) ==> l <= before / 0x1_0000 % 32 && l != 31)
    && (!o.Taken? ==> after == before)
  }

  lemma LookPriority(before: Word, after: Word, t: Table, o: Outcome, left: Table)
    requires |t.vectors| == 8 && ScanResult(t, Priority(before), o, left) && (o.Taken? ==> o.lvl < 32)
    requires after == if o.Taken? then HandlerPc(before, o.lvl) else before
    ensures LetIn(before, after, t, o)
  {
    ScanPriority(t, Priority(before), o, left);
    if o.Taken? { HandlerLevel(before, o.lvl); }
  }

  /** The line a call spills the current frame to. */
  function EntryLine(p: Plain): Word
    requires PlainStack.Shaped(p)
  {
    Down64(p.r[FP])
  }

  /** The padding line below the handler's frame. */
  function RecordLineOf(p: Plain, intSp: Word): Word
    requires PlainStack.Shaped(p)
  {
    Add32(Up64(InterruptStack(p, intSp)), -64)
  }

  /** The assumption on stacks at an interrupt: the two lines the entry uses hold no saved frame or record. */
  ghost predicate CanEnter(p: Plain, intSp: Word) {
    && PlainStack.Shaped(p)
    && LineFree(p.stack, EntryLine(p))
    && LineFree(p.stack, RecordLineOf(p, intSp))
    && EntryLine(p) != RecordLineOf(p, intSp)
  }

  /** An entry's two lines are lines. */
  lemma EntryLines(p: Plain, intSp: Word)
    requires PlainStack.Shaped(p)
    ensures EntryLine(p) % 64 == 0 && RecordLineOf(p, intSp) % 64 == 0
  {
    Down64Line(p.r[FP]);
    LineAligned(InterruptStack(p, intSp));
  }

  lemma LineAligned(sp: Word)
    ensures Add32(Up64(sp), -64) % 64 == 0
  {
    Up64Facts(sp);
  }

  /** A free line that the entry does not use is still free in the handler. */
  lemma EntryFree(p: Plain, handler: Word, intSp: Word, lvl: nat, line: Word)
    requires PlainStack.Shaped(p) && lvl < 32 && LineFree(p.stack, line)
    requires line != EntryLine(p) && line != RecordLineOf(p, intSp)
    ensures LineFree(Enter(p, handler, intSp, lvl).stack, line)
  {
  }

  /** An interrupt entry apart from the pending table leaves it, and leaves it placed. */
  lemma EntryKeepsTable(m: imap<int, Word>, n: imap<int, Word>, prcb: Word, p: Plain, handler: Word, lvl: nat)
    requires Whole(m) && Whole(n) && PlainStack.Shaped(p) && lvl < 32 && PlacedIn(m, prcb, p.stack)
    requires var tab, sp := m[Add32(prcb, 20)], m[Add32(prcb, 24)];
             && OnlyLines(m, n, EntryLine(p), RecordLineOf(p, sp))
             && LineApart(EntryLine(p), prcb, tab) && LineApart(RecordLineOf(p, sp), prcb, tab)
    ensures var tab, sp := m[Add32(prcb, 20)], m[Add32(prcb, 24)];
            && PlacedIn(n, prcb, Enter(p, handler, sp, lvl).stack)
            && TableIn(n, tab) == TableIn(m, tab) && n[Add32(prcb, 20)] == tab
  {
    var tab, sp := m[Add32(prcb, 20)], m[Add32(prcb, 24)];
    EntryLines(p, sp);
    TableStays(m, n, prcb, EntryLine(p), RecordLineOf(p, sp));
    NoWrap(tab, 32);
    EntryFree(p, handler, sp, lvl, Down64(tab));
    EntryFree(p, handler, sp, lvl, Down64(tab + 32));
  }

  lemma SeparateRecord(stack: seq<Saved>, record: Record)
    requires Separate(stack) && stack != [] && stack[|stack| - 1].record == NoRecord
    requires record.Record? && record.fp % 64 == 0 && LineFree(stack, RecordLine(record))
    ensures Separate(stack[|stack| - 1 := stack[|stack| - 1].(record := record)])
  {
  }
}
