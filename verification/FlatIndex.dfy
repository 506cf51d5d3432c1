/**
 The renderer's lookup table (platform/vita/flat_index.h): open addressing with
 linear probing in one array, an O(1) clear by epoch, and a limit of three quarters.
 For any hash it is a map from keys to values.
 */
module FlatIndex {
  import opened Words

  datatype Entry<K, V> = Entry(key: K, value: V, epoch: nat)

  /** (i + 1) & (capacity - 1) */
  function Next(i: nat, cap: nat): nat { if i + 1 == cap then 0 else i + 1 }

  /** The slot d steps after slot h. */
  function At(h: nat, d: nat, cap: nat): (i: nat)
    requires h < cap && d < cap
    ensures i < cap
  {
    if h + d < cap then h + d else h + d - cap
  }

  /** Every slot is some number of steps after any other. */
  function Steps(h: nat, i: nat, cap: nat): (d: nat)
    requires h < cap && i < cap
    ensures d < cap && At(h, d, cap) == i
  {
    if i >= h then i - h else i + cap - h
  }

  /** A shift by b leaves what is above the low b bits. */
  lemma {:induction false} ShrBound(w: nat, a: nat, b: nat)
    requires w < Pow2(a + b)
    ensures Shr(w, b) < Pow2(a)
    decreases b
  {
    if b > 0 { ShrBound(w / 2, a, b - 1); }
  }

  /** The numbers below n. */
  ghost function Below(n: nat): set<nat> {
    if n == 0 then {} else Below(n - 1) + {n - 1}
  }

  lemma {:induction false} BelowFacts(n: nat)
    ensures |Below(n)| == n && forall i: nat :: i in Below(n) <==> i < n
  {
    if n > 0 { BelowFacts(n - 1); }
  }

  /** The key is d probes from slot h, and the way there has no gap. */
  ghost predicate FoundAt<K, V>(slots: seq<Entry<K, V>>, used: set<nat>, key: K, h: nat, d: nat) {
    && h < |slots| && d < |slots|
    && At(h, d, |slots|) in used && slots[At(h, d, |slots|)].key == key
    && forall e: nat :: e < d ==> At(h, e, |slots|) in used
  }

  ghost predicate Findable<K, V>(slots: seq<Entry<K, V>>, used: set<nat>, key: K, h: nat) {
    exists d: nat :: FoundAt(slots, used, key, h, d)
  }

  /** The used slots are those of the current epoch, and hold what the map says. */
  ghost predicate Holds<K, V>(slots: seq<Entry<K, V>>, used: set<nat>, epoch: nat, contents: map<K, V>) {
    && (forall i: nat :: i in used ==> i < |slots|)
    && (forall i: nat :: i < |slots| ==> slots[i].epoch <= epoch && (slots[i].epoch == epoch <==> i in used))
    && (forall i: nat :: i in used ==> slots[i].key in contents && contents[slots[i].key] == slots[i].value)
  }

  lemma HoldsOneMore<K, V>(slots: seq<Entry<K, V>>, used: set<nat>, epoch: nat, contents: map<K, V>, i: nat, key: K, value: V)
    requires Holds(slots, used, epoch, contents) && key !in contents && i < |slots| && i !in used
    ensures Holds(slots[i := Entry(key, value, epoch)], used + {i}, epoch, contents[key := value])
    ensures |used + {i}| == |used| + 1 && |contents[key := value]| == |contents| + 1
  {
    assert contents[key := value].Keys == contents.Keys + {key};
  }

  /** An entry into a free slot hides nothing that could be found. */
  lemma StillFindable<K, V>(slots: seq<Entry<K, V>>, used: set<nat>, i: nat, entry: Entry<K, V>, key: K, h: nat)
    requires i < |slots| && i !in used && Findable(slots, used, key, h)
    ensures Findable(slots[i := entry], used + {i}, key, h)
  {
    var d: nat :| FoundAt(slots, used, key, h, d);
    assert FoundAt(slots[i := entry], used + {i}, key, h, d);
  }

  /** The entry at the first free slot of its probe can be found. */
  lemma NewFindable<K, V>(slots: seq<Entry<K, V>>, used: set<nat>, i: nat, entry: Entry<K, V>, h: nat, d: nat)
    requires h < |slots| && d < |slots| && i == At(h, d, |slots|)
    requires forall e: nat :: e < d ==> At(h, e, |slots|) in used
    ensures Findable(slots[i := entry], used + {i}, entry.key, h)
  {
    assert FoundAt(slots[i := entry], used + {i}, entry.key, h, d);
  }

  /** A probe that has come to a free slot without meeting the key cannot meet it further on. */
  lemma NotFindable<K, V>(slots: seq<Entry<K, V>>, used: set<nat>, key: K, h: nat, d: nat)
    requires h < |slots| && d < |slots| && At(h, d, |slots|) !in used
    requires forall e: nat :: e < d ==> slots[At(h, e, |slots|)].key != key
    ensures !Findable(slots, used, key, h)
  {
  }

  lemma SubsetSmaller(a: set<nat>, b: set<nat>)
    requires a <= b
    ensures |a| <= |b|
  {
    assert b == a + (b - a);
  }

  class FlatIndex<K(==, 0), V(0)> {
    const bits: nat
    const hash: K -> Word
    const entries: array<Entry<K, V>>
    var epoch: nat
    var count: nat
    ghost var Contents: map<K, V>
    ghost var used: set<nat>

    ghost predicate Shape() {
      && 1 <= bits <= 31 && entries.Length == Pow2(bits)
    }

    function MaxCount(): nat { Pow2(bits) / 4 * 3 }

    function Slot(key: K): (i: nat)
      requires Shape()
      ensures i < entries.Length
    {
      Pow2Of32();
      ShrBound(hash(key), bits, 32 - bits);
      Shr(hash(key), 32 - bits)
    }

    /** The slot d probes after a key's first one. */
    ghost function Probe(key: K, d: nat): (i: nat)
      requires Shape() && d < entries.Length
      ensures i < entries.Length
    {
      At(Slot(key), d, entries.Length)
    }

    ghost predicate Valid()
      reads this, entries
    {
      && Shape()
      && 1 <= epoch < WORDS
      && count == |used| == |Contents| <= MaxCount()
      && Holds(entries[..], used, epoch, Contents)
      && (forall key :: key in Contents ==> Findable(entries[..], used, key, Slot(key)))
    }

    constructor (bits: nat, hash: K -> Word)
      requires 1 <= bits <= 31
      ensures Valid() && Contents == map[] && this.bits == bits
    {
      this.bits, this.hash := bits, hash;
      PowPositive(bits);
      var k: K := *;
      var v: V := *;
      entries := new Entry<K, V>[Pow2(bits)](_ => Entry(k, v, 0));
      epoch, count := 1, 0;
      Contents, used := map[], {};
    }

    /** The load limit leaves a free slot, so every probe loop stops. */
    lemma FreeSlot() returns (i: nat)
      requires Valid()
      ensures i < entries.Length && i !in used
    {
      var all := Below(entries.Length);
      BelowFacts(entries.Length);
      PowPositive(bits);
      assert |used| < |all|;
      if all <= used {
        SubsetSmaller(all, used);
        assert false;
      }
      i :| i in all && i !in used;
    }

    method Find(key: K) returns (r: Option<V>)
      requires Valid()
      ensures r == if key in Contents then Some(Contents[key]) else None
    {
      var i := Slot(key);
      ghost var free := FreeSlot();
      ghost var stop := Steps(i, free, entries.Length);
      ghost var d := 0;
      while true
        invariant d <= stop && i == Probe(key, d)
        invariant forall e: nat :: e < d ==> Probe(key, e) in used && entries[Probe(key, e)].key != key
        decreases stop - d
      {
        var e := entries[i];
        if e.epoch != epoch {
          forall e: nat | e < d ensures entries[..][At(Slot(key), e, entries.Length)].key != key {
            assert entries[Probe(key, e)].key != key;
          }
          NotFindable(entries[..], used, key, Slot(key), d);
          return None;
        }
        if e.key == key {
          return Some(e.value);
        }
        i := Next(i, entries.Length);
        d := d + 1;
      }
    }

    method Insert(key: K, value: V) returns (ok: bool)
      requires Valid() && key !in Contents
      modifies this, entries
      ensures Valid()
      ensures ok <==> |old(Contents)| < MaxCount()
      ensures Contents == if ok then old(Contents)[key := value] else old(Contents)
    {
      if count >= MaxCount() { return false; }
      var i := Slot(key);
      ghost var free := FreeSlot();
      ghost var stop := Steps(i, free, entries.Length);
      ghost var d := 0;
      while entries[i].epoch == epoch
        invariant d <= stop && i == Probe(key, d)
        invariant forall e: nat :: e < d ==> Probe(key, e) in used
        decreases stop - d
      {
        i := Next(i, entries.Length);
        d := d + 1;
      }
      Place(key, value, i, d);
      ok := true;
    }

    /** The entry into the free slot i that the probe has come to after d steps. */
    method Place(key: K, value: V, i: nat, ghost d: nat)
      requires Valid() && key !in Contents && count < MaxCount()
      requires d < entries.Length && i == Probe(key, d) && i !in used
      requires forall e: nat :: e < d ==> Probe(key, e) in used
      modifies this, entries
      ensures Valid()
      ensures Contents == old(Contents)[key := value]
    {
      ghost var slots, entry := entries[..], Entry(key, value, epoch);
      forall e: nat | e < d ensures At(Slot(key), e, |slots|) in used {
        assert Probe(key, e) in used;
      }
      NewFindable(slots, used, i, entry, Slot(key), d);
      forall k | k in Contents ensures Findable(slots[i := entry], used + {i}, k, Slot(k)) {
        StillFindable(slots, used, i, entry, k, Slot(k));
      }
      HoldsOneMore(slots, used, epoch, Contents, i, key, value);
      entries[i] := Entry(key, value, epoch);
      count := count + 1;
      used := used + {i};
      Contents := Contents[key := value];
      assert entries[..] == slots[i := entry];
    }

    method Clear()
      requires Valid()
      modifies this, entries
      ensures Valid() && Contents == map[]
    {
      count := 0;
      epoch := (epoch + 1) % WORDS;
      if epoch == 0 {
        var i := 0;
        while i < entries.Length
          invariant 0 <= i <= entries.Length
          invariant forall j :: 0 <= j < i ==> entries[j].epoch == 0
          modifies entries
        {
          entries[i] := entries[i].(epoch := 0);
          i := i + 1;
        }
        epoch := 1;
      }
      used, Contents := {}, map[];
    }

    method Size() returns (n: nat)
      requires Valid()
      ensures n == |Contents|
    {
      n := count;
    }
  }

  // ---- Any sequence of operations -------------------------------------------

  datatype Op<K, V> = Put(key: K, value: V) | Clear | Get(key: K)

  /** The plain map the operations stand for. */
  function Step<K, V>(m: map<K, V>, op: Op<K, V>, max: nat): map<K, V> {
    match op
    case Put(k, v) => if |m| < max then m[k := v] else m
    case Clear => map[]
    case Get(k) => m
  }

  /** Inserted keys are new, as the table's users promise. */
  ghost predicate Fresh<K, V>(m: map<K, V>, ops: seq<Op<K, V>>, max: nat)
    decreases |ops|
  {
    ops == [] || ((ops[0].Put? ==> ops[0].key !in m) && Fresh(Step(m, ops[0], max), ops[1..], max))
  }

  function Answers<K, V>(m: map<K, V>, ops: seq<Op<K, V>>, max: nat): seq<Option<V>>
    decreases |ops|
  {
    if ops == [] then []
    else if ops[0].Get? then
      [if ops[0].key in m then Some(m[ops[0].key]) else None] + Answers(Step(m, ops[0], max), ops[1..], max)
    else
      Answers(Step(m, ops[0], max), ops[1..], max)
  }

  /** Whatever the sequence of inserts, clears and lookups, every lookup answers as the map would. */
  method Replay<K(==, 0), V(0)>(table: FlatIndex<K, V>, ops: seq<Op<K, V>>) returns (answers: seq<Option<V>>)
    requires table.Valid() && Fresh(table.Contents, ops, table.MaxCount())
    modifies table, table.entries
    ensures table.Valid()
    ensures answers == Answers(old(table.Contents), ops, table.MaxCount())
  {
    answers := [];
    var i := 0;
    while i < |ops|
      invariant 0 <= i <= |ops|
      invariant table.Valid() && Fresh(table.Contents, ops[i..], table.MaxCount())
      invariant answers + Answers(table.Contents, ops[i..], table.MaxCount()) == Answers(old(table.Contents), ops, table.MaxCount())
    {
      assert ops[i..][1..] == ops[i + 1..];
      match ops[i] {
        case Put(k, v) => var _ := table.Insert(k, v);
        case Clear => table.Clear();
        case Get(k) =>
          var r := table.Find(k);
          answers := answers + [r];
      }
      i := i + 1;
    }
  }
}
