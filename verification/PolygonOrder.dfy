/**
 The renderer's polygon order (platform/vita/polygon_order.h): a three-digit
 least-significant-digit counting sort with skipped passes, and a comparison sort
 for short lists. Both give the one list in strict (key ascending, index
 descending) order.
 */
module PolygonOrder {
  import opened Words

  /** What the order reads of a polygon. */
  datatype GeoPoly = GeoPoly(window: int, z: int)

  predicate InRange(p: GeoPoly) { 0 <= p.window < 0x100 && 0 <= p.z < 0x1_0000 }

  datatype Entry = Entry(key: nat, index: nat)

  const KEYS := 0x100_0000

  function Key(p: GeoPoly): nat
    requires InRange(p)
  {
    (255 - p.window) * 0x1_0000 + p.z
  }

  /** a.key != b.key ? a.key < b.key : a.index > b.index */
  predicate Precedes(a: Entry, b: Entry) {
    a.key < b.key || (a.key == b.key && a.index > b.index)
  }

  ghost predicate StrictlyOrdered(s: seq<Entry>) {
    forall i, j :: 0 <= i < j < |s| ==> Precedes(s[i], s[j])
  }

  /** The entries before sorting: newest polygon first. */
  function Entries(polys: seq<GeoPoly>): (s: seq<Entry>)
    requires forall p :: p in polys ==> InRange(p)
    ensures |s| == |polys|
    ensures forall i :: 0 <= i < |s| ==> s[i] == Entry(Key(polys[|polys| - 1 - i]), |polys| - 1 - i)
  {
    seq(|polys|, i requires 0 <= i < |polys| => Entry(Key(polys[|polys| - 1 - i]), |polys| - 1 - i))
  }

  // ---- One list only --------------------------------------------------------

  lemma HeadIsFirst(s: seq<Entry>, t: seq<Entry>)
    requires s != [] && StrictlyOrdered(s) && StrictlyOrdered(t) && multiset(s) == multiset(t)
    ensures t != [] && s[0] == t[0]
  {
    assert s[0] in multiset(t);
    var j :| 0 <= j < |t| && t[j] == s[0];
    assert t[0] in multiset(s);
    var i :| 0 <= i < |s| && s[i] == t[0];
    if i > 0 && j > 0 {
      assert false; // each of s[0] and t[0] would precede the other
    }
  }

  /** Two strictly ordered lists of the same entries are the same list. */
  lemma {:induction false} OrderUnique(s: seq<Entry>, t: seq<Entry>)
    requires StrictlyOrdered(s) && StrictlyOrdered(t) && multiset(s) == multiset(t)
    ensures s == t
    decreases |s|
  {
    if s == [] {
      assert |multiset(t)| == 0;
    } else {
      HeadIsFirst(s, t);
      assert s == [s[0]] + s[1..] && t == [t[0]] + t[1..];
      assert multiset(s[1..]) == multiset(s) - multiset{s[0]};
      assert multiset(t[1..]) == multiset(t) - multiset{t[0]};
      OrderUnique(s[1..], t[1..]);
    }
  }

  // ---- Digits ---------------------------------------------------------------

  function Scale(d: nat): nat {
    if d == 0 then 1 else if d == 1 then 0x100 else if d == 2 then 0x1_0000 else 0x100_0000
  }

  /** (key >> (d * 8)) & 255 */
  function Digit(e: Entry, d: nat): (b: nat)
    ensures b < 256
  {
    e.key / Scale(d) % 256
  }

  function Low(e: Entry, d: nat): nat { e.key % Scale(d) }

  lemma LowStep(e: Entry, d: nat)
    requires d < 3
    ensures Low(e, d + 1) == Digit(e, d) * Scale(d) + Low(e, d) && Low(e, d) < Scale(d)
  {
    var k, s := e.key, Scale(d);
    var q, m := k / s, k % s;
    assert k == q * s + m;
    assert q == q / 256 * 256 + q % 256;
    assert Scale(d + 1) == 256 * s;
    assert k == q / 256 * (256 * s) + (q % 256 * s + m);
    DivUnique(k, 256 * s, q / 256, q % 256 * s + m);
  }

  /** Ordered by the d low digits, newest first among equals. */
  ghost predicate OrderedBy(s: seq<Entry>, d: nat) {
    forall i, j :: 0 <= i < j < |s| ==> Before(s[i], s[j], d)
  }

  predicate Before(a: Entry, b: Entry, d: nat) {
    Low(a, d) < Low(b, d) || (Low(a, d) == Low(b, d) && a.index > b.index)
  }

  lemma BeforeStep(a: Entry, b: Entry, d: nat)
    requires d < 3
    ensures Digit(a, d) < Digit(b, d) ==> Before(a, b, d + 1)
    ensures Digit(a, d) == Digit(b, d) && Before(a, b, d) ==> Before(a, b, d + 1)
  {
    LowStep(a, d);
    LowStep(b, d);
    if Digit(a, d) < Digit(b, d) {
      HigherDigit(Digit(a, d), Digit(b, d), Scale(d));
    }
  }

  lemma HigherDigit(x: nat, y: nat, scale: nat)
    requires x < y
    ensures x * scale + scale <= y * scale
  {
    assert (x + 1) * scale <= y * scale;
  }

  // ---- Buckets --------------------------------------------------------------

  /** The entries with digit b, in order. */
  function Bucket(s: seq<Entry>, d: nat, b: nat): (r: seq<Entry>)
    ensures |r| <= |s|
  {
    if s == [] then []
    else
      var front := Bucket(s[..|s| - 1], d, b);
      if Digit(s[|s| - 1], d) == b then front + [s[|s| - 1]] else front
  }

  /** Buckets 0 to n - 1 one after the other: what a stable pass must produce. */
  function Dealt(s: seq<Entry>, d: nat, n: nat): seq<Entry> {
    if n == 0 then [] else Dealt(s, d, n - 1) + Bucket(s, d, n - 1)
  }

  /** Where bucket b starts. */
  function Start(s: seq<Entry>, d: nat, b: nat): nat {
    |Dealt(s, d, b)|
  }

  lemma {:induction false} BucketFacts(s: seq<Entry>, d: nat, b: nat)
    ensures forall k :: 0 <= k < |Bucket(s, d, b)| ==> Digit(Bucket(s, d, b)[k], d) == b && Bucket(s, d, b)[k] in s
  {
    if s != [] {
      BucketFacts(s[..|s| - 1], d, b);
    }
  }

  lemma {:induction false} BucketOrdered(s: seq<Entry>, d: nat, b: nat)
    requires OrderedBy(s, d)
    ensures OrderedBy(Bucket(s, d, b), d)
  {
    if s != [] {
      var front, last := s[..|s| - 1], s[|s| - 1];
      BucketOrdered(front, d, b);
      BucketFacts(front, d, b);
      forall k | 0 <= k < |Bucket(front, d, b)| ensures Before(Bucket(front, d, b)[k], last, d) {
        var m :| 0 <= m < |front| && front[m] == Bucket(front, d, b)[k];
        assert s[m] == front[m];
      }
    }
  }

  lemma {:induction false} BucketGrows(s: seq<Entry>, d: nat, b: nat, i: nat)
    requires i <= |s|
    ensures |Bucket(s[..i], d, b)| <= |Bucket(s, d, b)|
    decreases |s|
  {
    if i < |s| {
      BucketGrows(s[..|s| - 1], d, b, i);
      assert s[..|s| - 1][..i] == s[..i];
    } else {
      assert s[..i] == s;
    }
  }

  lemma BucketStep(s: seq<Entry>, d: nat, b: nat, i: nat)
    requires i < |s|
    ensures Bucket(s[..i + 1], d, b) == if Digit(s[i], d) == b then Bucket(s[..i], d, b) + [s[i]] else Bucket(s[..i], d, b)
  {
    assert s[..i + 1][..i] == s[..i];
  }

  lemma {:induction false} StartMonotone(s: seq<Entry>, d: nat, a: nat, b: nat)
    requires a <= b
    ensures Start(s, d, a) <= Start(s, d, b)
  {
    if a < b { StartMonotone(s, d, a, b - 1); }
  }

  lemma StartStep(s: seq<Entry>, d: nat, b: nat)
    ensures Start(s, d, b + 1) == Start(s, d, b) + |Bucket(s, d, b)|
  {
  }

  /** A stable pass on digit d orders by one digit more. */
  lemma {:induction false} DealtOrdered(s: seq<Entry>, d: nat, n: nat)
    requires d < 3 && OrderedBy(s, d)
    ensures OrderedBy(Dealt(s, d, n), d + 1)
    ensures forall k :: 0 <= k < |Dealt(s, d, n)| ==> Digit(Dealt(s, d, n)[k], d) < n
  {
    if n > 0 {
      DealtOrdered(s, d, n - 1);
      BucketOrdered(s, d, n - 1);
      BucketFacts(s, d, n - 1);
      var a, b := Dealt(s, d, n - 1), Bucket(s, d, n - 1);
      forall i, j | 0 <= i < j < |a + b| ensures Before((a + b)[i], (a + b)[j], d + 1) {
        if j >= |a| {
          BeforeStep((a + b)[i], (a + b)[j], d);
          if i >= |a| { assert Before(b[i - |a|], b[j - |a|], d); }
        }
      }
    }
  }

  /** Buckets 0 to n - 1 hold exactly the entries with digits below n. */
  lemma {:induction false} DealtCounts(s: seq<Entry>, d: nat, n: nat, e: Entry)
    ensures multiset(Dealt(s, d, n))[e] == if Digit(e, d) < n then multiset(s)[e] else 0
  {
    if n > 0 {
      DealtCounts(s, d, n - 1, e);
      BucketCounts(s, d, n - 1, e);
    }
  }

  lemma {:induction false} BucketCounts(s: seq<Entry>, d: nat, b: nat, e: Entry)
    ensures multiset(Bucket(s, d, b))[e] == if Digit(e, d) == b then multiset(s)[e] else 0
  {
    if s != [] {
      BucketCounts(s[..|s| - 1], d, b, e);
      assert s == s[..|s| - 1] + [s[|s| - 1]];
    }
  }

  /** A pass loses nothing and adds nothing. */
  lemma DealtPermutes(s: seq<Entry>, d: nat)
    ensures multiset(Dealt(s, d, 256)) == multiset(s)
    ensures |Dealt(s, d, 256)| == |s|
  {
    forall e: Entry ensures multiset(Dealt(s, d, 256))[e] == multiset(s)[e] {
      DealtCounts(s, d, 256, e);
    }
    assert multiset(Dealt(s, d, 256)) == multiset(s);
    assert |multiset(Dealt(s, d, 256))| == |multiset(s)|;
  }

  /** Bucket sizes do not depend on the order: the histograms can be counted once. */
  lemma BucketSize(s: seq<Entry>, t: seq<Entry>, d: nat, b: nat)
    requires multiset(s) == multiset(t)
    ensures |Bucket(s, d, b)| == |Bucket(t, d, b)|
  {
    forall e: Entry ensures multiset(Bucket(s, d, b))[e] == multiset(Bucket(t, d, b))[e] {
      BucketCounts(s, d, b, e);
      BucketCounts(t, d, b, e);
    }
    assert multiset(Bucket(s, d, b)) == multiset(Bucket(t, d, b));
    assert |multiset(Bucket(s, d, b))| == |multiset(Bucket(t, d, b))|;
  }

  /** When one bucket holds everything the pass would change nothing, and the order is already good. */
  lemma {:induction false} SingleBucket(s: seq<Entry>, d: nat, b: nat)
    requires d < 3 && OrderedBy(s, d) && |Bucket(s, d, b)| == |s|
    ensures OrderedBy(s, d + 1)
  {
    AllInBucket(s, d, b);
    forall i, j | 0 <= i < j < |s| ensures Before(s[i], s[j], d + 1) {
      BeforeStep(s[i], s[j], d);
    }
  }

  lemma {:induction false} AllInBucket(s: seq<Entry>, d: nat, b: nat)
    requires |Bucket(s, d, b)| == |s|
    ensures forall k :: 0 <= k < |s| ==> Digit(s[k], d) == b
  {
    if s != [] {
      AllInBucket(s[..|s| - 1], d, b);
    }
  }

  /** Keys have three digits, so ordered by three digits is strictly ordered. */
  lemma ThreeDigits(s: seq<Entry>)
    requires OrderedBy(s, 3) && forall e :: e in s ==> e.key < KEYS
    ensures StrictlyOrdered(s)
  {
    forall i, j | 0 <= i < j < |s| ensures Precedes(s[i], s[j]) {
      assert Before(s[i], s[j], 3);
      assert s[i] in s && s[j] in s;
    }
  }

  // ---- The short list -------------------------------------------------------

  /** A comparison sort, standing for std::sort: OrderUnique says which one does not matter. */
  function Insert(e: Entry, s: seq<Entry>): seq<Entry> {
    if s == [] || Precedes(e, s[0]) then [e] + s else [s[0]] + Insert(e, s[1..])
  }

  function ComparisonSort(s: seq<Entry>): seq<Entry> {
    if s == [] then [] else Insert(s[0], ComparisonSort(s[1..]))
  }

  /** No two polygons share an index. */
  ghost predicate DistinctIndices(s: seq<Entry>) {
    forall i, j :: 0 <= i < j < |s| ==> s[i].index != s[j].index
  }

  lemma {:induction false} InsertKeeps(e: Entry, s: seq<Entry>)
    ensures multiset(Insert(e, s)) == multiset([e] + s)
    decreases |s|
  {
    if s != [] && !Precedes(e, s[0]) {
      InsertKeeps(e, s[1..]);
      assert s == [s[0]] + s[1..];
    }
  }

  lemma {:induction false} InsertSorted(e: Entry, s: seq<Entry>)
    requires StrictlyOrdered(s) && forall k :: 0 <= k < |s| ==> s[k].index != e.index
    ensures StrictlyOrdered(Insert(e, s)) && multiset(Insert(e, s)) == multiset([e] + s)
    decreases |s|
  {
    InsertKeeps(e, s);
    if s != [] && !Precedes(e, s[0]) {
      InsertSorted(e, s[1..]);
      var r := Insert(e, s[1..]);
      forall k | 0 <= k < |r| ensures Precedes(s[0], r[k]) {
        assert r[k] in multiset(r);
        assert r[k] in [e] + s[1..];
      }
    }
  }

  lemma {:induction false} ComparisonSorts(s: seq<Entry>)
    requires DistinctIndices(s)
    ensures StrictlyOrdered(ComparisonSort(s)) && multiset(ComparisonSort(s)) == multiset(s)
    decreases |s|
  {
    if s != [] {
      ComparisonSorts(s[1..]);
      var r := ComparisonSort(s[1..]);
      forall k | 0 <= k < |r| ensures r[k].index != s[0].index {
        assert r[k] in multiset(r);
        assert r[k] in s[1..];
      }
      InsertSorted(s[0], r);
      assert s == [s[0]] + s[1..];
    }
  }

  // ---- The passes, in place -------------------------------------------------

  ghost predicate ThreeRows(counts: seq<array<nat>>) {
    && |counts| == 3
    && (forall d :: 0 <= d < 3 ==> counts[d].Length == 256)
    && counts[0] != counts[1] && counts[0] != counts[2] && counts[1] != counts[2]
  }

  /** All three histograms in one walk. */
  method CountDigits(first: array<Entry>) returns (counts: seq<array<nat>>)
    ensures ThreeRows(counts) && forall d :: 0 <= d < 3 ==> fresh(counts[d])
    ensures forall d, b :: 0 <= d < 3 && 0 <= b < 256 ==> counts[d][b] == |Bucket(first[..], d, b)|
  {
    var c0, c1, c2 := new nat[256](_ => 0), new nat[256](_ => 0), new nat[256](_ => 0);
    counts := [c0, c1, c2];
    var i := 0;
    while i < first.Length
      invariant 0 <= i <= first.Length
      invariant forall d, b :: 0 <= d < 3 && 0 <= b < 256 ==> counts[d][b] == |Bucket(first[..i], d, b)|
    {
      var digit := 0;
      while digit < 3
        invariant 0 <= digit <= 3
        invariant forall d, b :: 0 <= d < digit && 0 <= b < 256 ==> counts[d][b] == |Bucket(first[..i + 1], d, b)|
        invariant forall d, b :: digit <= d < 3 && 0 <= b < 256 ==> counts[d][b] == |Bucket(first[..i], d, b)|
      {
        CountOne(counts[digit], first, i, digit);
        digit := digit + 1;
      }
      i := i + 1;
    }
    assert first[..first.Length] == first[..];
  }

  method CountOne(row: array<nat>, first: array<Entry>, i: nat, digit: nat)
    requires row.Length == 256 && i < first.Length
    requires forall b :: 0 <= b < 256 ==> row[b] == |Bucket(first[..i], digit, b)|
    modifies row
    ensures forall b :: 0 <= b < 256 ==> row[b] == |Bucket(first[..i + 1], digit, b)|
  {
    var c := Digit(first[i], digit);
    row[c] := row[c] + 1;
    forall b: nat | b < 256 ensures row[b] == |Bucket(first[..i + 1], digit, b)| {
      BucketStep(first[..], digit, b, i);
      assert first[..][..i] == first[..i] && first[..][..i + 1] == first[..i + 1];
    }
  }

  /** Below i the buckets' starts, from i on their sizes. */
  ghost predicate Summed(s: seq<Entry>, d: nat, i: nat, o: seq<nat>) {
    && |o| == 256 && i <= 256
    && (forall b :: 0 <= b < i ==> o[b] == Start(s, d, b))
    && (forall b :: i <= b < 256 ==> o[b] == |Bucket(s, d, b)|)
  }

  lemma SummedMore(s: seq<Entry>, d: nat, i: nat, o: seq<nat>)
    requires Summed(s, d, i, o) && i < 256
    ensures Summed(s, d, i + 1, o[i := Start(s, d, i)])
    ensures Start(s, d, i + 1) == Start(s, d, i) + o[i] && o[i] == |Bucket(s, d, i)|
  {
    StartStep(s, d, i);
  }

  /** Sizes to offsets; says whether one bucket holds everything. */
  method ToOffsets(offsets: array<nat>, d: nat, count: nat, ghost s: seq<Entry>) returns (single: bool)
    requires d < 3 && offsets.Length == 256 && count == |s|
    requires forall b :: 0 <= b < 256 ==> offsets[b] == |Bucket(s, d, b)|
    modifies offsets
    ensures forall b :: 0 <= b < 256 ==> offsets[b] == Start(s, d, b)
    ensures single ==> OneBucket(s, d)
  {
    var total, i := 0, 0;
    single := false;
    while i < 256
      invariant 0 <= i <= 256 && total == Start(s, d, i)
      invariant Summed(s, d, i, offsets[..])
      invariant single ==> OneBucket(s, d)
    {
      ghost var was := offsets[..];
      SummedMore(s, d, i, was);
      var size := offsets[i];
      single := single || size == count;
      offsets[i] := total;
      assert offsets[..] == was[i := Start(s, d, i)];
      total := total + size;
      i := i + 1;
    }
  }

  ghost predicate OneBucket(s: seq<Entry>, d: nat) {
    exists b: nat :: b < 256 && |Bucket(s, d, b)| == |s|
  }

  /** What the first i entries have filled of the destination. */
  ghost predicate Filled(s: seq<Entry>, d: nat, i: nat, dest: seq<Entry>, offsets: seq<nat>)
    requires i <= |s|
  {
    && |dest| == |s| && |offsets| == 256
    && (forall b: nat :: b < 256 ==> FilledAt(s, d, i, b, dest, offsets))
  }

  ghost predicate FilledAt(s: seq<Entry>, d: nat, i: nat, b: nat, dest: seq<Entry>, offsets: seq<nat>)
    requires i <= |s| && |offsets| == 256 && b < 256
  {
    && offsets[b] == Start(s, d, b) + |Bucket(s[..i], d, b)| <= Start(s, d, b + 1) <= |dest|
    && dest[Start(s, d, b)..offsets[b]] == Bucket(s[..i], d, b)
  }

  /** There is room in its bucket for the next entry. */
  lemma Room(s: seq<Entry>, d: nat, i: nat, c: nat)
    requires i < |s| && c == Digit(s[i], d)
    ensures Bucket(s[..i + 1], d, c) == Bucket(s[..i], d, c) + [s[i]]
    ensures Start(s, d, c) + |Bucket(s[..i], d, c)| + 1 <= Start(s, d, c + 1)
  {
    BucketStep(s, d, c, i);
    BucketGrows(s, d, c, i + 1);
    StartStep(s, d, c);
  }

  /** Writing the next entry at its bucket's offset: its own bucket. */
  lemma FillSame(s: seq<Entry>, d: nat, i: nat, dest: seq<Entry>, offsets: seq<nat>, c: nat)
    requires i < |s| && |offsets| == 256 && c == Digit(s[i], d)
    requires FilledAt(s, d, i, c, dest, offsets)
    ensures offsets[c] < Start(s, d, c + 1) <= |dest|
    ensures FilledAt(s, d, i + 1, c, dest[offsets[c] := s[i]], offsets[c := offsets[c] + 1])
  {
    Room(s, d, i, c);
    var lo, at := Start(s, d, c), offsets[c];
    assert dest[at := s[i]][lo..at + 1] == dest[lo..at] + [s[i]];
  }

  /** And every other bucket. */
  lemma FillOther(s: seq<Entry>, d: nat, i: nat, dest: seq<Entry>, offsets: seq<nat>, b: nat, c: nat)
    requires i < |s| && |offsets| == 256 && c < 256 && b < 256 && b != c
    requires Bucket(s[..i + 1], d, b) == Bucket(s[..i], d, b)
    requires FilledAt(s, d, i, b, dest, offsets) && FilledAt(s, d, i, c, dest, offsets)
    requires offsets[c] < Start(s, d, c + 1) <= |dest|
    ensures FilledAt(s, d, i + 1, b, dest[offsets[c] := s[i]], offsets[c := offsets[c] + 1])
  {
    if b < c {
      StartMonotone(s, d, b + 1, c);
    } else {
      StartMonotone(s, d, c + 1, b);
    }
    SliceKept(dest, offsets[c], s[i], Start(s, d, b), offsets[b]);
  }

  lemma SliceKept(dest: seq<Entry>, at: nat, e: Entry, lo: nat, hi: nat)
    requires at < |dest| && lo <= hi <= |dest| && (at < lo || hi <= at)
    ensures dest[at := e][lo..hi] == dest[lo..hi]
  {
  }

  lemma FillOne(s: seq<Entry>, d: nat, i: nat, dest: seq<Entry>, offsets: seq<nat>)
    requires i < |s| && Filled(s, d, i, dest, offsets)
    ensures var c := Digit(s[i], d);
            && offsets[c] < |dest|
            && Filled(s, d, i + 1, dest[offsets[c] := s[i]], offsets[c := offsets[c] + 1])
  {
    var c, n := Digit(s[i], d), i + 1;
    assert FilledAt(s, d, i, c, dest, offsets);
    FillSame(s, d, i, dest, offsets, c);
    var placed, moved := dest[offsets[c] := s[i]], offsets[c := offsets[c] + 1];
    forall b: nat | b < 256 ensures FilledAt(s, d, n, b, placed, moved) {
      if b != c {
        assert FilledAt(s, d, i, b, dest, offsets);
        BucketStep(s, d, b, i);
        FillOther(s, d, i, dest, offsets, b, c);
      }
    }
  }

  lemma FillNone(s: seq<Entry>, d: nat, dest: seq<Entry>, offsets: seq<nat>)
    requires |dest| == |s| && |offsets| == 256
    requires forall b :: 0 <= b < 256 ==> offsets[b] == Start(s, d, b)
    ensures Filled(s, d, 0, dest, offsets)
  {
    DealtPermutes(s, d);
    forall b: nat | b < 256 ensures FilledAt(s, d, 0, b, dest, offsets) {
      StartMonotone(s, d, b, b + 1);
      StartMonotone(s, d, b + 1, 256);
    }
  }

  /** Once every entry is placed the destination is the stable deal. */
  lemma {:induction false} FillAll(s: seq<Entry>, d: nat, dest: seq<Entry>, offsets: seq<nat>, n: nat)
    requires Filled(s, d, |s|, dest, offsets) && n <= 256
    ensures Start(s, d, n) <= |dest| && dest[..Start(s, d, n)] == Dealt(s, d, n)
  {
    if n > 0 {
      FillAll(s, d, dest, offsets, n - 1);
      assert s[..|s|] == s;
      assert FilledAt(s, d, |s|, n - 1, dest, offsets);
      var a, b := Start(s, d, n - 1), Start(s, d, n);
      assert dest[..b] == dest[..a] + dest[a..b];
    }
  }

  /** One stable counting pass from source to destination. */
  method Scatter(source: array<Entry>, destination: array<Entry>, offsets: array<nat>, d: nat)
    requires d < 3 && offsets.Length == 256
    requires source != destination && source.Length == destination.Length
    requires forall b :: 0 <= b < 256 ==> offsets[b] == Start(source[..], d, b)
    modifies destination, offsets
    ensures destination[..] == Dealt(source[..], d, 256)
  {
    ghost var s := source[..];
    FillNone(s, d, destination[..], offsets[..]);
    var i := 0;
    while i < source.Length
      invariant 0 <= i <= source.Length && source[..] == s
      invariant Filled(s, d, i, destination[..], offsets[..])
    {
      var c := Digit(source[i], d);
      ghost var dest, row := destination[..], offsets[..];
      FillOne(s, d, i, dest, row);
      destination[offsets[c]] := source[i];
      offsets[c] := offsets[c] + 1;
      assert destination[..] == dest[row[c] := s[i]];
      assert offsets[..] == row[c := row[c] + 1];
      i := i + 1;
    }
    FillAll(s, d, destination[..], offsets[..], 256);
    DealtPermutes(s, d);
  }

  // ---- The sort -------------------------------------------------------------

  class PolygonOrder {
    var first: array<Entry>
    var second: array<Entry>

    constructor ()
    {
      first, second := new Entry[0], new Entry[0];
    }

    /** One digit of the sort: the pass, or nothing when one bucket holds every entry. */
    method Pass(source: array<Entry>, destination: array<Entry>, offsets: array<nat>, d: nat, ghost all: multiset<Entry>)
      returns (sorted: array<Entry>, spare: array<Entry>)
      requires d < 3 && offsets.Length == 256
      requires source != destination && source.Length == destination.Length
      requires multiset(source[..]) == all && OrderedBy(source[..], d)
      requires forall b :: 0 <= b < 256 ==> offsets[b] == |Bucket(source[..], d, b)|
      modifies destination, offsets
      ensures {sorted, spare} == {source, destination} && sorted != spare
      ensures multiset(sorted[..]) == all && OrderedBy(sorted[..], d + 1)
    {
      ghost var s := source[..];
      var single := ToOffsets(offsets, d, source.Length, s);
      if single {
        ghost var b: nat :| b < 256 && |Bucket(s, d, b)| == |s|;
        SingleBucket(s, d, b);
        return source, destination;
      }
      Scatter(source, destination, offsets, d);
      DealtOrdered(s, d, 256);
      DealtPermutes(s, d);
      return destination, source;
    }

    /**
     The polygons' entries in strict order, none lost and none added, whatever the
     length: the one list that both the short and the long path can only give.
     */
    method Sort(polys: seq<GeoPoly>) returns (order: array<Entry>)
      requires forall p :: p in polys ==> InRange(p)
      modifies this
      ensures StrictlyOrdered(order[..])
      ensures multiset(order[..]) == multiset(Entries(polys))
      ensures order[..] == ComparisonSort(Entries(polys))
      ensures FrontFirst(polys, order[..])
    {
      var count := |polys|;
      first := new Entry[count](i requires 0 <= i < count => Entry(Key(polys[count - 1 - i]), count - 1 - i));
      ghost var all := Entries(polys);
      assert first[..] == all;
      ComparisonSorts(all);
      InPolygons(polys, ComparisonSort(all));
      if count <= 32 {
        SortShort(first);
        return first;
      }
      second := new Entry[count](_ => Entry(0, 0));
      order := SortLong(first, second, all);
      KeysBounded(polys, order[..]);
      ThreeDigits(order[..]);
      OrderUnique(order[..], ComparisonSort(all));
    }

    /** Three digits, least significant first. */
    method SortLong(first: array<Entry>, second: array<Entry>, ghost all: seq<Entry>) returns (order: array<Entry>)
      requires first != second && first.Length == second.Length
      requires first[..] == all && OrderedBy(all, 0)
      modifies first, second
      ensures order == first || order == second
      ensures multiset(order[..]) == multiset(all) && OrderedBy(order[..], 3)
    {
      var counts := CountDigits(first);
      var source, destination := first, second;
      var digit := 0;
      while digit < 3
        invariant 0 <= digit <= 3
        invariant source != destination && {source, destination} == {first, second}
        invariant source.Length == destination.Length
        invariant multiset(source[..]) == multiset(all) && OrderedBy(source[..], digit)
        invariant forall d, b :: digit <= d < 3 && 0 <= b < 256 ==> counts[d][b] == |Bucket(all, d, b)|
        modifies first, second, counts[0], counts[1], counts[2]
      {
        forall b: nat | b < 256 ensures counts[digit][b] == |Bucket(source[..], digit, b)| {
          BucketSize(all, source[..], digit, b);
        }
        source, destination := Pass(source, destination, counts[digit], digit, multiset(all));
        digit := digit + 1;
      }
      order := source;
    }
  }

  /** Polygon a is in the list. */
  ghost predicate Listed(s: seq<Entry>, a: nat) {
    exists k :: 0 <= k < |s| && s[k].index == a
  }

  /** Polygon a comes before polygon b: the front window first, in it the nearest, and of equals the newest. */
  predicate InFront(polys: seq<GeoPoly>, a: nat, b: nat)
    requires a < |polys| && b < |polys|
  {
    var p, q := polys[a], polys[b];
    || p.window > q.window
    || (p.window == q.window && p.z < q.z)
    || (p.window == q.window && p.z == q.z && a > b)
  }

  /** Every polygon once, in that order. */
  ghost predicate FrontFirst(polys: seq<GeoPoly>, s: seq<Entry>) {
    && |s| == |polys|
    && (forall i :: 0 <= i < |s| ==> s[i].index < |polys|)
    && (forall a: nat :: a < |polys| ==> Listed(s, a))
    && (forall i, j :: 0 <= i < j < |s| ==> InFront(polys, s[i].index, s[j].index))
  }

  /** The keys put polygons in that order. */
  lemma KeyOrder(polys: seq<GeoPoly>, a: nat, b: nat)
    requires a < |polys| && b < |polys| && InRange(polys[a]) && InRange(polys[b])
    ensures Precedes(Entry(Key(polys[a]), a), Entry(Key(polys[b]), b)) <==> InFront(polys, a, b)
  {
  }

  /** A list in strict order of the polygons' entries, said of the polygons. */
  lemma InPolygons(polys: seq<GeoPoly>, s: seq<Entry>)
    requires forall p :: p in polys ==> InRange(p)
    requires StrictlyOrdered(s) && multiset(s) == multiset(Entries(polys))
    ensures FrontFirst(polys, s)
  {
    var all, n := Entries(polys), |polys|;
    assert |multiset(s)| == |multiset(all)|;
    forall i | 0 <= i < |s| ensures s[i].index < n && s[i] == Entry(Key(polys[s[i].index]), s[i].index) {
      assert s[i] in multiset(all);
      var k :| 0 <= k < |all| && all[k] == s[i];
    }
    forall a: nat | a < n ensures Listed(s, a) {
      assert all[n - 1 - a] in multiset(s);
    }
    forall i, j | 0 <= i < j < |s| ensures InFront(polys, s[i].index, s[j].index) {
      KeyOrder(polys, s[i].index, s[j].index);
    }
  }

  lemma KeysBounded(polys: seq<GeoPoly>, s: seq<Entry>)
    requires forall p :: p in polys ==> InRange(p)
    requires multiset(s) == multiset(Entries(polys))
    ensures forall e :: e in s ==> e.key < KEYS
  {
    forall e | e in s ensures e.key < KEYS {
      assert e in multiset(s);
      assert e in Entries(polys);
      var i :| 0 <= i < |polys| && Entries(polys)[i] == e;
      assert polys[|polys| - 1 - i] in polys;
    }
  }

  method SortShort(first: array<Entry>)
    modifies first
    ensures first[..] == ComparisonSort(old(first[..]))
  {
    var sorted := ComparisonSort(first[..]);
    SameLength(first[..]);
    forall i | 0 <= i < first.Length {
      first[i] := sorted[i];
    }
  }

  lemma {:induction false} SameLength(s: seq<Entry>)
    ensures |ComparisonSort(s)| == |s|
    decreases |s|
  {
    if s != [] {
      SameLength(s[1..]);
      InsertLength(s[0], ComparisonSort(s[1..]));
    }
  }

  lemma {:induction false} InsertLength(e: Entry, s: seq<Entry>)
    ensures |Insert(e, s)| == |s| + 1
    decreases |s|
  {
    if s != [] && !Precedes(e, s[0]) {
      InsertLength(e, s[1..]);
    }
  }
}
