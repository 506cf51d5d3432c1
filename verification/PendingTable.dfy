/**
 The i960's table of pending interrupts in memory (src/runtime/cpu.cpp): a word with
 one bit per priority level and eight words with one bit per vector, eight vectors
 to a level.
 */
module PendingTable {
  import opened Words

  datatype Table = Table(levels: Word, vectors: seq<Word>)

  predicate Pending(t: Table, v: nat)
    requires |t.vectors| == 8 && v < 256
  {
    HasBit(t.vectors[v / 32], v % 32)
  }

  /** Some vector of this level is pending: its byte of the vector word is not zero. */
  predicate LevelPending(t: Table, lvl: nat)
    requires |t.vectors| == 8 && lvl < 32
  {
    exists v: nat :: v < 256 && v / 8 == lvl && Pending(t, v)
  }

  /** A level's bit is set exactly when one of its eight vector bits is. */
  ghost predicate WellFormed(t: Table) {
    |t.vectors| == 8 && forall lvl: nat :: lvl < 32 ==> HasBit(t.levels, lvl) == LevelPending(t, lvl)
  }

  /** The CPU lets this level in. */
  predicate Allowed(cpuPri: nat, lvl: nat) { cpuPri < lvl || lvl == 31 }

  function Post(t: Table, v: nat): Table
    requires |t.vectors| == 8 && v < 256
  {
    Table(SetBit32(t.levels, v / 8), t.vectors[v / 32 := SetBit32(t.vectors[v / 32], v % 32)])
  }

  /** The vector's bit goes. */
  function Cleared(t: Table, v: nat): Table
    requires |t.vectors| == 8 && v < 256
  {
    t.(vectors := t.vectors[v / 32 := ClearBit32(t.vectors[v / 32], v % 32)])
  }

  /** The vector's bit goes; the level's bit goes with the last vector of the level. */
  function Remove(t: Table, v: nat): Table
    requires |t.vectors| == 8 && v < 256
  {
    var u := Cleared(t, v);
    if LevelPending(u, v / 8) then u else u.(levels := ClearBit32(t.levels, v / 8))
  }

  lemma VectorBits(t: Table, v: nat, u: nat)
    requires |t.vectors| == 8 && v < 256 && u < 256
    ensures Pending(Post(t, v), u) == (u == v || Pending(t, u))
    ensures Pending(Remove(t, v), u) == (u != v && Pending(t, u))
  {
    SetBitBits(t.vectors[v / 32], v % 32, u % 32);
    ClearBitBits(t.vectors[v / 32], v % 32, u % 32);
  }

  /** Posting makes one vector pending and keeps the table well formed. */
  lemma PostCorrect(t: Table, v: nat)
    requires WellFormed(t) && v < 256
    ensures WellFormed(Post(t, v))
    ensures forall u: nat :: u < 256 ==> Pending(Post(t, v), u) == (u == v || Pending(t, u))
  {
    forall u: nat | u < 256 ensures Pending(Post(t, v), u) == (u == v || Pending(t, u)) {
      VectorBits(t, v, u);
    }
    forall lvl: nat | lvl < 32 ensures HasBit(Post(t, v).levels, lvl) == LevelPending(Post(t, v), lvl) {
      SetBitBits(t.levels, v / 8, lvl);
      LevelAfter(t, Post(t, v), v, lvl, true);
    }
  }

  /** Removing takes one vector away and keeps the table well formed. */
  lemma RemoveCorrect(t: Table, v: nat)
    requires WellFormed(t) && v < 256
    ensures WellFormed(Remove(t, v))
    ensures forall u: nat :: u < 256 ==> Pending(Remove(t, v), u) == (u != v && Pending(t, u))
  {
    var r := Remove(t, v);
    forall u: nat | u < 256 ensures Pending(r, u) == (u != v && Pending(t, u)) {
      VectorBits(t, v, u);
    }
    forall lvl: nat | lvl < 32 ensures HasBit(r.levels, lvl) == LevelPending(r, lvl) {
      ClearBitBits(t.levels, v / 8, lvl);
      if lvl != v / 8 {
        LevelAfter(t, r, v, lvl, false);
      } else {
        SameVectors(r, r.(levels := t.levels), lvl);
        LevelAfter(t, r, v, lvl, false);
      }
    }
  }

  lemma SameVectors(t: Table, r: Table, lvl: nat)
    requires |t.vectors| == 8 && t.vectors == r.vectors && lvl < 32
    ensures LevelPending(t, lvl) == LevelPending(r, lvl)
  {
    if LevelPending(t, lvl) {
      var v: nat :| v < 256 && v / 8 == lvl && Pending(t, v);
      assert Pending(r, v);
    }
    if LevelPending(r, lvl) {
      var v: nat :| v < 256 && v / 8 == lvl && Pending(r, v);
      assert Pending(t, v);
    }
  }

  /** How a change of one vector shows in the levels. */
  lemma LevelAfter(t: Table, r: Table, v: nat, lvl: nat, added: bool)
    requires |t.vectors| == 8 && |r.vectors| == 8 && v < 256 && lvl < 32
    requires forall u: nat :: u < 256 && u != v ==> Pending(r, u) == Pending(t, u)
    requires added ==> Pending(r, v)
    requires !added ==> !Pending(r, v)
    ensures lvl != v / 8 ==> LevelPending(r, lvl) == LevelPending(t, lvl)
    ensures lvl == v / 8 && added ==> LevelPending(r, lvl)
    ensures lvl == v / 8 && LevelPending(r, lvl) ==> LevelPending(t, lvl) || added
  {
    if LevelPending(r, lvl) {
      var u: nat :| u < 256 && u / 8 == lvl && Pending(r, u);
      assert u == v || Pending(t, u);
    }
    if LevelPending(t, lvl) && lvl != v / 8 {
      var u: nat :| u < 256 && u / 8 == lvl && Pending(t, u);
      assert Pending(r, u);
    }
  }

  /** The vector a delivery must take: the highest one pending that the CPU lets in. */
  ghost predicate Best(t: Table, cpuPri: nat, v: nat)
    requires |t.vectors| == 8
  {
    && v < 256 && Pending(t, v) && Allowed(cpuPri, v / 8)
    && (forall u: nat :: u < 256 && Pending(t, u) && Allowed(cpuPri, u / 8) ==> u <= v)
  }

  /** If any pending vector is let in, there is a best one. */
  lemma {:induction false} BestExists(t: Table, cpuPri: nat, v: nat)
    requires |t.vectors| == 8 && v < 256 && Pending(t, v) && Allowed(cpuPri, v / 8)
    ensures exists u: nat :: Best(t, cpuPri, u)
    decreases 256 - v
  {
    if u: nat :| v < u < 256 && Pending(t, u) && Allowed(cpuPri, u / 8) {
      BestExists(t, cpuPri, u);
    } else {
      assert Best(t, cpuPri, v);
    }
  }

  /** Some vector could be taken: it is pending, its level is marked, and the CPU lets it in. */
  ghost predicate MayTake(t: Table, cpuPri: nat)
    requires |t.vectors| == 8
  {
    exists v: nat :: v < 256 && Pending(t, v) && HasBit(t.levels, v / 8) && Allowed(cpuPri, v / 8)
  }

  /** The level scanned first that has its bit set, and within it the highest vector, is the best. */
  lemma ScanFindsBest(t: Table, cpuPri: nat, v: nat)
    requires WellFormed(t) && v < 256 && Pending(t, v) && Allowed(cpuPri, v / 8)
    requires forall l: nat :: v / 8 < l < 32 && HasBit(t.levels, l) ==> !Allowed(cpuPri, l)
    requires forall u: nat :: v < u < 256 && u / 8 == v / 8 ==> !Pending(t, u)
    ensures Best(t, cpuPri, v)
  {
    forall u: nat | u < 256 && Pending(t, u) && Allowed(cpuPri, u / 8) ensures u <= v {
      assert LevelPending(t, u / 8);
    }
  }

  // ---- The scan ---------------------------------------------------------------

  /** What check_pending_irqs did: nothing, repaired a level with no vector, or took a vector. */
  datatype Outcome = Nothing | Recovered(lvl: nat) | Taken(vector: nat, lvl: nat)

  /** No level above l, down from 31, is pending and allowed. */
  ghost predicate NoneAbove(t: Table, cpuPri: nat, l: int) {
    forall m: nat :: l < m < 32 && HasBit(t.levels, m) ==> !Allowed(cpuPri, m)
  }

  /** The outcome of a scan of table t, and the table it leaves. */
  ghost predicate ScanResult(t: Table, cpuPri: nat, o: Outcome, after: Table)
    requires |t.vectors| == 8
  {
    match o
    case Nothing => NoneAbove(t, cpuPri, -1) && after == t
    case Recovered(l) =>
      && l < 32 && HasBit(t.levels, l) && !LevelPending(t, l)
      && after == t.(levels := ClearBit32(t.levels, l))
    case Taken(v, l) =>
      && v < 256 && l == v / 8 && Pending(t, v) && Allowed(cpuPri, l)
      && NoneAbove(t, cpuPri, l)
      && (forall u: nat :: v < u < 256 && u / 8 == l ==> !Pending(t, u))
      && after == Remove(t, v)
  }

  /** The outcome and the priority, in numbers: what is taken is above it or the highest; else no marked level is. */
  lemma ScanPriority(t: Table, cpuPri: nat, o: Outcome, after: Table)
    requires |t.vectors| == 8 && ScanResult(t, cpuPri, o, after)
    ensures o.Taken? ==> o.lvl == o.vector / 8 < 32 && (o.lvl > cpuPri || o.lvl == 31)
    ensures o.Nothing? ==> forall l: nat :: l < 32 && HasBit(t.levels, l) ==> l <= cpuPri && l != 31
  {
  }

  lemma RecoveredIsResult(t: Table, cpuPri: nat, l: nat)
    requires |t.vectors| == 8 && l < 32 && HasBit(t.levels, l) && !LevelPending(t, l)
    ensures ScanResult(t, cpuPri, Recovered(l), t.(levels := ClearBit32(t.levels, l)))
  {
  }

  /**
   On a well-formed table the repair branch is never taken; a vector that is taken
   is the highest pending one the CPU lets in, and exactly that one leaves the
   table; if none is taken, none could be; and the table stays well formed.
   */
  lemma ScanCorrect(t: Table, cpuPri: nat, o: Outcome, after: Table)
    requires WellFormed(t) && ScanResult(t, cpuPri, o, after)
    ensures !o.Recovered? && WellFormed(after)
    ensures o.Taken? ==> Best(t, cpuPri, o.vector)
    ensures o.Taken? ==> o.lvl == o.vector / 8 && (o.lvl > cpuPri || o.lvl == 31)
    ensures o.Nothing? ==> forall v: nat :: v < 256 && Pending(t, v) ==> v / 8 <= cpuPri && v / 8 != 31
    ensures forall v: nat :: v < 256 ==> Pending(after, v) == (Pending(t, v) && !(o.Taken? && o.vector == v))
  {
    match o
    case Taken(v, l) =>
      ScanFindsBest(t, cpuPri, v);
      RemoveCorrect(t, v);
    case Nothing =>
      forall v: nat | v < 256 && Pending(t, v) ensures v / 8 <= cpuPri && v / 8 != 31 {
        assert LevelPending(t, v / 8);
      }
    case Recovered(l) =>
  }

  /** Where a vector's bit is. */
  lemma VectorPlace(lvl: nat, b: nat)
    requires lvl < 32 && b < 8
    ensures var v := 8 * lvl + b;
            v < 256 && v / 8 == lvl && v / 32 == lvl / 4 && v % 32 == lvl % 4 * 8 + b
  {
    var q, m := lvl / 4, lvl % 4;
    assert lvl == 4 * q + m;
    DivUnique(8 * lvl + b, 8, lvl, b);
    DivUnique(8 * lvl + b, 32, q, 8 * m + b);
  }

  /** vword & lvlmask[lvl % 4] */
  predicate AnyInByte(w: Word, lo: nat) {
    exists i :: lo <= i < lo + 8 && HasBit(w, i)
  }

  lemma ByteIsLevel(t: Table, lvl: nat)
    requires |t.vectors| == 8 && lvl < 32
    ensures AnyInByte(t.vectors[lvl / 4], lvl % 4 * 8) == LevelPending(t, lvl)
  {
    var w, lo := t.vectors[lvl / 4], lvl % 4 * 8;
    if AnyInByte(w, lo) {
      var i :| lo <= i < lo + 8 && HasBit(w, i);
      VectorPlace(lvl, i - lo);
      assert Pending(t, 8 * lvl + (i - lo));
    }
    if LevelPending(t, lvl) {
      var v: nat :| v < 256 && v / 8 == lvl && Pending(t, v);
      VectorPlace(lvl, v % 8);
      assert v == 8 * lvl + v % 8;
      assert HasBit(w, lo + v % 8);
    }
  }

  /** The highest bit of a level's byte is the level's highest vector. */
  lemma HighestInLevel(t: Table, lvl: nat, take: nat)
    requires |t.vectors| == 8 && lvl < 32 && lvl % 4 * 8 <= take < lvl % 4 * 8 + 8
    requires HasBit(t.vectors[lvl / 4], take)
    requires forall i: nat :: take < i < lvl % 4 * 8 + 8 ==> !HasBit(t.vectors[lvl / 4], i)
    ensures var v := take + lvl / 4 * 32;
            v < 256 && v / 8 == lvl && v / 32 == lvl / 4 && v % 32 == take && Pending(t, v)
            && (forall u: nat :: v < u < 256 && u / 8 == lvl ==> !Pending(t, u))
  {
    var v := take + lvl / 4 * 32;
    VectorPlace(lvl, take - lvl % 4 * 8);
    assert v == 8 * lvl + (take - lvl % 4 * 8);
    forall u: nat | v < u < 256 && u / 8 == lvl ensures !Pending(t, u) {
      VectorPlace(lvl, u % 8);
      assert u == 8 * lvl + u % 8;
    }
  }

  /** The scan has come to level lvl, and `take` is the highest bit of the level's byte. */
  ghost predicate HighestAt(t: Table, cpuPri: nat, lvl: nat, take: nat)
    requires |t.vectors| == 8
  {
    && lvl < 32 && HasBit(t.levels, lvl) && Allowed(cpuPri, lvl) && NoneAbove(t, cpuPri, lvl)
    && HighestBit(t, lvl, take)
  }

  ghost predicate HighestBit(t: Table, lvl: nat, take: nat)
    requires |t.vectors| == 8 && lvl < 32
  {
    && lvl % 4 * 8 <= take < lvl % 4 * 8 + 8 && HasBit(t.vectors[lvl / 4], take)
    && (forall i: nat :: take < i < lvl % 4 * 8 + 8 ==> !HasBit(t.vectors[lvl / 4], i))
  }

  /** That bit's vector is one that may be taken, and taking it is the scan's result. */
  lemma HighestIsResult(t: Table, cpuPri: nat, lvl: nat, take: nat)
    requires |t.vectors| == 8 && HighestAt(t, cpuPri, lvl, take)
    ensures var v := take + lvl / 4 * 32;
            && 8 <= v < 256 && v / 8 == lvl
            && MayTake(t, cpuPri)
            && ScanResult(t, cpuPri, Taken(v, lvl), Remove(t, v))
  {
    HighestInLevel(t, lvl, take);
    assert Pending(t, take + lvl / 4 * 32);
  }

  /** What is left of the level's byte tells whether the level's bit goes too. */
  lemma RemoveInWords(t: Table, v: nat)
    requires |t.vectors| == 8 && v < 256
    ensures Remove(t, v) ==
            if AnyInByte(Cleared(t, v).vectors[v / 32], v / 8 % 4 * 8) then Cleared(t, v)
            else Cleared(t, v).(levels := ClearBit32(t.levels, v / 8))
  {
    ByteIsLevel(Cleared(t, v), v / 8);
    LevelWord(v);
  }

  lemma LevelWord(v: nat)
    requires v < 256
    ensures v / 8 / 4 == v / 32
  {
  }

  /** The highest set bit of one byte of a word, or -1. */
  method FindVector(vword: Word, wordl: nat) returns (take: int)
    ensures take == -1 <==> !AnyInByte(vword, wordl)
    ensures take != -1 ==>
      && wordl <= take < wordl + 8 && HasBit(vword, take)
      && (forall i: nat :: take < i < wordl + 8 ==> !HasBit(vword, i))
  {
    take := -1;
    var irq := wordl + 7;
    while irq >= wordl
      invariant wordl - 1 <= irq <= wordl + 7
      invariant forall i: nat :: irq < i < wordl + 8 ==> !HasBit(vword, i)
      decreases irq - wordl
    {
      if HasBit(vword, irq) {
        take := irq;
        return;
      }
      irq := irq - 1;
    }
  }
}
