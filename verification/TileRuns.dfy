/**
 Pieces of the System 24 tile upload (platform/vita/system24_upload.h): the texel of
 a pen by conditions and by masks, and the cutting of a 64-bit mask of changed tiles
 into runs.
 */
module TileRuns {
  import opened Words

  // ---- Texels; pens and flags are widened to 32 bits, as in the source -------

  /** The pen number in palette texture units, opaque. */
  function Texel(pen: bv32): bv32 {
    var p := pen & 0x1fff;
    0xff00_0000 | ((p & 127) << 1) | ((p >> 7) << 10)
  }

  /**
   The texel's bytes, red lowest: twice the palette column, four times the palette row,
   0 and 255. What the shader reads back from them is the pen.
   */
  lemma TexelBytes(pen: bv32)
    ensures var t, p := Texel(pen), pen % 8192;
            && t % 0x100 == p % 128 * 2 && t / 0x100 % 0x100 == p / 128 * 4
            && t / 0x1_0000 % 0x100 == 0 && t / 0x100_0000 == 255
            && t / 0x100 % 0x100 / 4 * 128 + t % 0x100 / 2 == p
  {
  }

  /** system24_index_texel */
  function IndexTexel(pen: bv32, visible: bool): bv32 {
    if visible then Texel(pen) else 0
  }

  predicate Opaque(flag: bv32) { flag & 0x10 != 0 }
  predicate Category1(flag: bv32) { flag & 1 != 0 }

  predicate BackVisible(flag: bv32, opaqueBackground: bool, split: bool) {
    if opaqueBackground then !split || !Category1(flag) else Opaque(flag) && !Category1(flag)
  }

  predicate FrontVisible(flag: bv32) { Opaque(flag) && Category1(flag) }

  /** 0u - bit */
  function Mask(bit: bv32): bv32 { 0 - bit }

  /** texel & (opaque | a) & (~category1 | b) */
  function FastBack(texel: bv32, solid: bv32, category1: bv32, a: bv32, b: bv32): bv32 {
    texel & (solid | a) & (!category1 | b)
  }

  /** texel & opaque & category1 */
  function FastFront(texel: bv32, solid: bv32, category1: bv32): bv32 {
    texel & solid & category1
  }

  const ONES: bv32 := 0xffff_ffff

  predicate AllOrNothing(m: bv32) { m == 0 || m == ONES }

  lemma MaskBits(flag: bv32)
    ensures AllOrNothing(Mask((flag >> 4) & 1)) && (Mask((flag >> 4) & 1) != 0 <==> Opaque(flag))
    ensures AllOrNothing(Mask(flag & 1)) && (Mask(flag & 1) != 0 <==> Category1(flag))
  {
  }

  lemma BackMask(t: bv32, o: bv32, c: bv32, a: bv32, b: bv32)
    requires AllOrNothing(o) && AllOrNothing(c) && AllOrNothing(a) && AllOrNothing(b)
    ensures FastBack(t, o, c, a, b) == if (o != 0 || a != 0) && (c == 0 || b != 0) then t else 0
    ensures FastFront(t, o, c) == if o != 0 && c != 0 then t else 0
  {
  }

  /** The masks of the fast form select exactly what the reference's conditions do. */
  lemma FastTexels(t: bv32, flag: bv32, o: bv32, c: bv32, a: bv32, b: bv32, opaqueBackground: bool, split: bool)
    requires AllOrNothing(o) && (o != 0 <==> Opaque(flag))
    requires AllOrNothing(c) && (c != 0 <==> Category1(flag))
    requires a == (if opaqueBackground then ONES else 0) && b == (if opaqueBackground && !split then ONES else 0)
    requires split ==> opaqueBackground
    ensures FastBack(t, o, c, a, b) == if BackVisible(flag, opaqueBackground, split) then t else 0
    ensures FastFront(t, o, c) == if FrontVisible(flag) then t else 0
  {
    BackMask(t, o, c, a, b);
  }

  // ---- Bits of the mask -----------------------------------------------------

  const BITS := 64

  /** ~w in n bits */
  function Not(w: nat, n: nat): nat
    requires w < Pow2(n)
  {
    Pow2(n) - 1 - w
  }

  lemma {:induction false} NotBits(w: nat, n: nat, i: nat)
    requires w < Pow2(n) && i < n
    ensures HasBit(Not(w, n), i) == !HasBit(w, i)
    decreases n
  {
    var m := Not(w, n);
    assert m % 2 == 1 - w % 2 && m / 2 == Not(w / 2, n - 1);
    if i > 0 { NotBits(w / 2, n - 1, i - 1); }
  }

  lemma {:induction false} HighBits(w: nat, n: nat, i: nat)
    requires w < Pow2(n) && i >= n
    ensures !HasBit(w, i)
    decreases n
  {
    if n > 0 { HighBits(w / 2, n - 1, i - 1); } else { ZeroBits(i); }
  }

  /** std::countr_zero */
  function Ctz(w: nat): nat
    requires w > 0
  {
    if w % 2 == 1 then 0 else 1 + Ctz(w / 2)
  }

  lemma {:induction false} CtzFacts(w: nat)
    requires w > 0
    ensures HasBit(w, Ctz(w)) && forall i: nat :: i < Ctz(w) ==> !HasBit(w, i)
  {
    if w % 2 == 0 {
      CtzFacts(w / 2);
      forall i: nat | i < Ctz(w) ensures !HasBit(w, i) {
        if i > 0 { assert !HasBit(w / 2, i - 1); }
      }
    }
  }

  /** w & (~0 << m) */
  function ClearBelow(w: nat, m: nat): (r: nat)
    ensures r <= w
  {
    if m == 0 then w else 2 * ClearBelow(w / 2, m - 1)
  }

  lemma {:induction false} ClearBelowBits(w: nat, m: nat, i: nat)
    ensures HasBit(ClearBelow(w, m), i) == (i >= m && HasBit(w, i))
    decreases m
  {
    if m > 0 {
      DoubleBit(ClearBelow(w / 2, m - 1), i);
      if i > 0 { ClearBelowBits(w / 2, m - 1, i - 1); }
    }
  }

  lemma DoubleBit(r: nat, i: nat)
    ensures HasBit(2 * r, i) == (i > 0 && HasBit(r, i - 1))
  {
    assert 2 * r % 2 == 0 && 2 * r / 2 == r;
  }

  lemma {:induction false} ShrSmaller(w: nat, k: nat)
    ensures Shr(w, k) <= w
  {
    if k > 0 { ShrSmaller(w / 2, k - 1); }
  }

  /** std::popcount */
  function PopCount(w: nat): nat {
    if w == 0 then 0 else w % 2 + PopCount(w / 2)
  }

  /** Set bits below n. */
  function CountBelow(w: nat, n: nat): nat {
    if n == 0 then 0 else CountBelow(w, n - 1) + (if HasBit(w, n - 1) then 1 else 0)
  }

  lemma {:induction false} CountHalf(w: nat, n: nat)
    requires n > 0
    ensures CountBelow(w, n) == w % 2 + CountBelow(w / 2, n - 1)
  {
    if n > 1 { CountHalf(w, n - 1); }
  }

  lemma {:induction false} PopCountIs(w: nat, n: nat)
    requires w < Pow2(n)
    ensures PopCount(w) == CountBelow(w, n)
    decreases n
  {
    if n > 0 {
      CountHalf(w, n);
      PopCountIs(w / 2, n - 1);
    }
  }

  // ---- Runs -----------------------------------------------------------------

  /** A run of changed tiles: its bits are set, and it cannot be made longer at either end. */
  predicate IsRun(mask: nat, first: nat, length: nat) {
    && length > 0 && first + length <= BITS
    && (forall i :: first <= i < first + length ==> HasBit(mask, i))
    && (first > 0 ==> !HasBit(mask, first - 1))
    && (first + length < BITS ==> !HasBit(mask, first + length))
  }

  /** What is left of the mask once everything below `done` has been cut. */
  ghost predicate Left(mask: nat, rest: nat, done: nat) {
    && rest < Pow2(BITS) && done <= BITS
    && (forall i: nat :: HasBit(rest, i) == (i >= done && HasBit(mask, i)))
  }

  /** Where countr_zero finds the next run. */
  lemma NextFirst(mask: nat, rest: nat, done: nat)
    requires mask < Pow2(BITS) && 0 < rest && Left(mask, rest, done)
    ensures var first := Ctz(rest);
            && done <= first < BITS && HasBit(mask, first)
            && (forall i: nat :: done <= i < first ==> !HasBit(mask, i))
  {
    var first := Ctz(rest);
    CtzFacts(rest);
    if first >= BITS { HighBits(rest, BITS, first); }
    forall i: nat | done <= i < first ensures !HasBit(mask, i) {
      assert !HasBit(rest, i);
    }
  }

  /** What is left, shifted down to the run. */
  lemma ShiftedLeft(mask: nat, rest: nat, done: nat, first: nat)
    requires Left(mask, rest, done) && done <= first
    ensures Shr(rest, first) < Pow2(BITS)
    ensures forall i: nat :: HasBit(Shr(rest, first), i) == HasBit(mask, i + first)
  {
    ShrSmaller(rest, first);
    forall i: nat ensures HasBit(Shr(rest, first), i) == HasBit(mask, i + first) {
      ShrBits(rest, first, i);
      assert HasBit(rest, i + first) == HasBit(mask, i + first);
    }
  }

  /** The lowest clear bit of what is shifted down ends the run. */
  lemma RunEnds(mask: nat, first: nat, from: nat)
    requires mask < Pow2(BITS) && from < Pow2(BITS) && first < BITS && HasBit(mask, first)
    requires forall i: nat :: HasBit(from, i) == HasBit(mask, i + first)
    requires Not(from, BITS) != 0
    ensures var length := Ctz(Not(from, BITS));
            && 0 < length && first + length <= BITS && !HasBit(mask, first + length)
            && (forall i :: first <= i < first + length ==> HasBit(mask, i))
  {
    var no := Not(from, BITS);
    var length := Ctz(no);
    CtzFacts(no);
    if length >= BITS { HighBits(no, BITS, length); }
    NotBits(from, BITS, length);
    assert HasBit(from, 0);
    NotBits(from, BITS, 0);
    if first + length > BITS { RunTooLong(mask, first, from, length); }
    forall i: nat | first <= i < first + length ensures HasBit(mask, i) {
      NotBits(from, BITS, i - first);
      assert HasBit(from, i - first) == HasBit(mask, i - first + first);
    }
    assert HasBit(from, length) == HasBit(mask, length + first);
  }

  lemma RunTooLong(mask: nat, first: nat, from: nat, length: nat)
    requires mask < Pow2(BITS) && from < Pow2(BITS) && first < BITS && length < BITS
    requires HasBit(from, BITS - first) == HasBit(mask, BITS)
    requires first + length > BITS
    ensures HasBit(Not(from, BITS), BITS - first) || first == 0
  {
    HighBits(mask, BITS, BITS);
    if first > 0 { NotBits(from, BITS, BITS - first); }
  }

  /** With no clear bit the run goes on to the end of the mask. */
  lemma RunToTheEnd(mask: nat, first: nat, from: nat)
    requires mask < Pow2(BITS) && from < Pow2(BITS) && first < BITS
    requires forall i: nat :: HasBit(from, i) == HasBit(mask, i + first)
    requires Not(from, BITS) == 0
    ensures forall i :: first <= i < BITS ==> HasBit(mask, i)
  {
    forall i: nat | first <= i < BITS ensures HasBit(mask, i) {
      NotBits(from, BITS, i - first);
      ZeroBits(i - first);
      assert HasBit(from, i - first) == HasBit(mask, i - first + first);
    }
  }

  /** ~from_first ? countr_zero(~from_first) : 64 - first is the length of the run at first. */
  lemma RunLength(mask: nat, first: nat, from: nat)
    requires mask < Pow2(BITS) && from < Pow2(BITS) && first < BITS && HasBit(mask, first)
    requires forall i: nat :: HasBit(from, i) == HasBit(mask, i + first)
    ensures var no := Not(from, BITS);
            var length: nat := if no != 0 then Ctz(no) else BITS - first;
            && 0 < length && first + length <= BITS
            && (forall i :: first <= i < first + length ==> HasBit(mask, i))
            && (first + length < BITS ==> !HasBit(mask, first + length))
  {
    if Not(from, BITS) != 0 {
      RunEnds(mask, first, from);
    } else {
      RunToTheEnd(mask, first, from);
    }
  }

  /** The first n runs, in ascending order, cover exactly the set bits below `done`. */
  ghost predicate RunsCover(mask: nat, firsts: seq<nat>, lengths: seq<nat>, n: nat, done: nat)
    requires n <= |firsts| && n <= |lengths|
  {
    && (forall r :: 0 <= r < n ==> IsRun(mask, firsts[r], lengths[r]) && firsts[r] + lengths[r] <= done)
    && (forall r :: 0 < r < n ==> firsts[r - 1] + lengths[r - 1] < firsts[r])
    && (forall i: nat :: i < done && HasBit(mask, i) ==> InSomeRun(firsts, lengths, n, i))
  }

  ghost predicate InSomeRun(firsts: seq<nat>, lengths: seq<nat>, n: nat, i: nat)
    requires n <= |firsts| && n <= |lengths|
  {
    exists r :: 0 <= r < n && firsts[r] <= i < firsts[r] + lengths[r]
  }

  /** The next run, and what is left after it. */
  method CutOne(mask: nat, rest: nat, ghost done: nat) returns (first: nat, length: nat, r: nat)
    requires mask < Pow2(BITS) && rest > 0 && Left(mask, rest, done)
    requires done > 0 ==> !HasBit(mask, done)
    ensures done <= first && IsRun(mask, first, length) && (done > 0 ==> done < first)
    ensures forall i: nat :: done <= i < first ==> !HasBit(mask, i)
    ensures Left(mask, r, first + length) && !HasBit(mask, first + length)
  {
    NextFirst(mask, rest, done);
    first := Ctz(rest);
    ShiftedLeft(mask, rest, done, first);
    var from := Shr(rest, first);
    RunLength(mask, first, from);
    var no := Not(from, BITS);
    length := if no != 0 then Ctz(no) else BITS - first;
    if first > done {
      assert !HasBit(mask, first - 1);
    }
    HighBits(mask, BITS, BITS);
    r := StillToDo(mask, rest, done, first + length);
  }

  /** Between two turns: the runs so far, and what is left of the mask. */
  ghost predicate Cut(mask: nat, rest: nat, firsts: seq<nat>, lengths: seq<nat>, runs: nat, done: nat) {
    && runs <= BITS && |firsts| == |lengths| == BITS
    && Left(mask, rest, done) && 2 * runs <= done + 1
    && (done > 0 ==> !HasBit(mask, done))
    && (if runs == 0 then done == 0 else done == firsts[runs - 1] + lengths[runs - 1] && done > 0)
    && RunsCover(mask, firsts, lengths, runs, done)
  }

  lemma CutMore(mask: nat, rest: nat, firsts: seq<nat>, lengths: seq<nat>, runs: nat, done: nat,
                first: nat, length: nat, r: nat, newFirsts: seq<nat>, newLengths: seq<nat>)
    requires Cut(mask, rest, firsts, lengths, runs, done) && runs < BITS
    requires newFirsts == firsts[runs := first] && newLengths == lengths[runs := length]
    requires done <= first && IsRun(mask, first, length) && (done > 0 ==> done < first)
    requires forall i: nat :: done <= i < first ==> !HasBit(mask, i)
    requires Left(mask, r, first + length) && !HasBit(mask, first + length)
    ensures Cut(mask, r, newFirsts, newLengths, runs + 1, first + length)
  {
    CoverMore(mask, firsts, lengths, runs, done, first, length);
  }

  lemma CutNothing(mask: nat, firsts: seq<nat>, lengths: seq<nat>)
    requires mask < Pow2(BITS) && |firsts| == |lengths| == BITS
    ensures Cut(mask, mask, firsts, lengths, 0, 0)
  {
  }

  /** One turn of the loop: the next run is stored, and what is left comes back. */
  method StoreRun(mask: nat, rest: nat, firsts: array<nat>, lengths: array<nat>, runs: nat, ghost done: nat)
      returns (left: nat, ghost end: nat)
    requires mask < Pow2(BITS) && rest > 0 && firsts != lengths && firsts.Length == lengths.Length == BITS
    requires Cut(mask, rest, firsts[..], lengths[..], runs, done)
    modifies firsts, lengths
    ensures done < end <= BITS && Cut(mask, left, firsts[..], lengths[..], runs + 1, end)
  {
    ghost var f, l := firsts[..], lengths[..];
    var first, length;
    first, length, left := CutOne(mask, rest, done);
    end := first + length;
    assert done < BITS && runs < BITS;
    firsts[runs], lengths[runs] := first, length;
    assert firsts[..] == f[runs := first];
    assert lengths[..] == l[runs := length];
    CutMore(mask, rest, f, l, runs, done, first, length, left, firsts[..], lengths[..]);
  }

  /**
   The runs cut from a mask are disjoint, ascending, as long as they can be, and
   cover exactly the set bits.
   */
  method CutRuns(mask: nat) returns (firsts: array<nat>, lengths: array<nat>, runs: nat)
    requires mask < Pow2(BITS)
    ensures fresh(firsts) && fresh(lengths) && firsts != lengths
    ensures firsts.Length == lengths.Length == BITS && runs <= BITS
    ensures RunsCover(mask, firsts[..], lengths[..], runs, BITS)
  {
    firsts, lengths := new nat[BITS](_ => 0), new nat[BITS](_ => 0);
    runs := 0;
    var rest := mask;
    ghost var done: nat := 0;
    CutNothing(mask, firsts[..], lengths[..]);
    while rest > 0
      invariant Cut(mask, rest, firsts[..], lengths[..], runs, done)
      decreases BITS - done
    {
      rest, done := StoreRun(mask, rest, firsts, lengths, runs, done);
      runs := runs + 1;
    }
    CoverAll(mask, firsts[..], lengths[..], runs, done);
  }

  /** first + length >= 64 ? 0 : rest & (~0 << (first + length)) */
  method StillToDo(mask: nat, rest: nat, ghost done: nat, end: nat) returns (r: nat)
    requires mask < Pow2(BITS) && Left(mask, rest, done) && done <= end <= BITS
    ensures Left(mask, r, end)
  {
    if end >= BITS {
      r := 0;
      forall i: nat ensures HasBit(r, i) == (i >= end && HasBit(mask, i)) {
        ZeroBits(i);
        if i >= BITS { HighBits(mask, BITS, i); }
      }
    } else {
      r := ClearBelow(rest, end);
      forall i: nat ensures HasBit(r, i) == (i >= end && HasBit(mask, i)) {
        ClearBelowBits(rest, end, i);
      }
    }
  }

  lemma CoverMore(mask: nat, firsts: seq<nat>, lengths: seq<nat>, n: nat, done: nat, first: nat, length: nat)
    requires n < |firsts| && n < |lengths| && RunsCover(mask, firsts, lengths, n, done)
    requires done <= first && IsRun(mask, first, length) && (n > 0 ==> firsts[n - 1] + lengths[n - 1] < first)
    requires forall i: nat :: done <= i < first ==> !HasBit(mask, i)
    ensures RunsCover(mask, firsts[n := first], lengths[n := length], n + 1, first + length)
  {
    var f, l := firsts[n := first], lengths[n := length];
    forall i: nat | i < first + length && HasBit(mask, i) ensures InSomeRun(f, l, n + 1, i) {
      if i < done {
        var r :| 0 <= r < n && firsts[r] <= i < firsts[r] + lengths[r];
        assert f[r] <= i < f[r] + l[r];
      } else {
        assert f[n] <= i < f[n] + l[n];
      }
    }
  }

  lemma CoverAll(mask: nat, firsts: seq<nat>, lengths: seq<nat>, n: nat, done: nat)
    requires n <= |firsts| && n <= |lengths| && Left(mask, 0, done) && RunsCover(mask, firsts, lengths, n, done)
    ensures RunsCover(mask, firsts, lengths, n, BITS)
  {
    forall i: nat | i >= done ensures !HasBit(mask, i) {
      ZeroBits(i);
      assert HasBit(0, i) == HasBit(mask, i);
    }
  }

  /** A tile is in one of the runs exactly when its bit is set. */
  lemma RunsAre(mask: nat, firsts: seq<nat>, lengths: seq<nat>, n: nat, i: nat)
    requires n <= |firsts| && n <= |lengths| && i < BITS && RunsCover(mask, firsts, lengths, n, BITS)
    ensures InSomeRun(firsts, lengths, n, i) <==> HasBit(mask, i)
  {
  }

  /** One more run written. */
  lemma OneMoreRun(firsts: seq<nat>, lengths: seq<nat>, n: nat, i: nat)
    requires n < |firsts| && n < |lengths|
    ensures InSomeRun(firsts, lengths, n + 1, i) <==>
            InSomeRun(firsts, lengths, n, i) || firsts[n] <= i < firsts[n] + lengths[n]
  {
    if firsts[n] <= i < firsts[n] + lengths[n] {
    } else if InSomeRun(firsts, lengths, n, i) {
      var r :| 0 <= r < n && firsts[r] <= i < firsts[r] + lengths[r];
      assert r < n + 1;
    }
  }
}
