/**
 The System 24 tile upload (platform/vita/system24_upload.h): the reference, tile by
 tile, and the fast form, which takes a row of tiles at a time, groups the changed
 ones into runs and writes each line run by run. Both leave the same two textures,
 those of Painted, and return the same count.
 */
module TileUpload {
  import opened Words
  import opened TileRuns

  /** What Video shows of one layer: 512 x 512 pens and flags, 64 x 64 tile generations. */
  datatype Layer = Layer(pens: seq<bv32>, flags: seq<bv32>, generations: seq<nat>, number: nat, splitMode: bool) {
    predicate Valid() {
      |pens| == 0x40000 && |flags| == 0x40000 && |generations| == 4096
    }

    predicate OpaqueBackground() { number >= 2 }

    predicate Split() { OpaqueBackground() && splitMode }
  }

  const NEVER: nat := 0xffff_ffff_ffff_ffff

  predicate Full(previous: nat) { previous == NEVER }

  predicate Dirty(l: Layer, previous: nat, tile: nat)
    requires l.Valid() && tile < 4096
  {
    Full(previous) || l.generations[tile] > previous
  }

  function At(y: nat, x: nat): (i: nat)
    requires y < 512 && x < 512
    ensures i < 0x40000
  {
    y * 512 + x
  }

  function TileAt(y: nat, x: nat): (tile: nat)
    requires y < 512 && x < 512
    ensures tile < 4096
  {
    y / 8 * 64 + x / 8
  }

  function BackTexel(l: Layer, y: nat, x: nat): bv32
    requires l.Valid() && y < 512 && x < 512
  {
    IndexTexel(l.pens[At(y, x)], BackVisible(l.flags[At(y, x)], l.OpaqueBackground(), l.Split()))
  }

  function FrontTexel(l: Layer, y: nat, x: nat): bv32
    requires l.Valid() && y < 512 && x < 512
  {
    IndexTexel(l.pens[At(y, x)], FrontVisible(l.flags[At(y, x)]))
  }

  /**
   Which pen a texel shows, and when: the layer's pens lie in rows of 512, so the texel to
   the right shows the next pen and the one below the pen 512 on; the back texture shows
   opaque pens of category 0, or on an opaque background all but the split-off category 1;
   the front texture opaque pens of category 1.
   */
  lemma TexelsShow(l: Layer, y: nat, x: nat)
    requires l.Valid() && y < 512 && x < 512
    ensures var i := 512 * y + x;
            var flag := l.flags[i];
            && BackTexel(l, y, x) == (if (if l.number >= 2 then !(l.splitMode && flag % 2 == 1) else flag / 16 % 2 == 1 && flag % 2 == 0)
                                      then Texel(l.pens[i]) else 0)
            && FrontTexel(l, y, x) == (if flag / 16 % 2 == 1 && flag % 2 == 1 then Texel(l.pens[i]) else 0)
    ensures x + 1 < 512 ==> At(y, x + 1) == At(y, x) + 1
    ensures y + 1 < 512 ==> At(y + 1, x) == At(y, x) + 512
  {
    FlagBits(l.flags[512 * y + x]);
  }

  lemma FlagBits(flag: bv32)
    ensures Opaque(flag) <==> flag / 16 % 2 == 1
    ensures Category1(flag) <==> flag % 2 == 1
  {
  }

  predicate DirtyAt(l: Layer, previous: nat, y: int, x: int)
    requires l.Valid()
  {
    0 <= y < 512 && 0 <= x < 512 && Dirty(l, previous, TileAt(y, x))
  }

  /** Which texels are rewritten: those of the 8 by 8 tiles, 64 to a row, changed since, or all of them. */
  lemma WhichTexels(l: Layer, previous: nat, y: nat, x: nat)
    requires l.Valid() && y < 512 && x < 512
    ensures TileAt(y, x) == 64 * (y / 8) + x / 8
    ensures DirtyAt(l, previous, y, x) <==>
              previous == 0xffff_ffff_ffff_ffff || l.generations[64 * (y / 8) + x / 8] >= previous + 1
  {
  }

  /** Changed tiles below n. */
  function DirtyBelow(l: Layer, previous: nat, n: nat): nat
    requires l.Valid() && n <= 4096
  {
    if n == 0 then 0 else DirtyBelow(l, previous, n - 1) + (if Dirty(l, previous, n - 1) then 1 else 0)
  }

  /** Both textures are there, at least 512 texels wide, and apart. */
  predicate Usable(back: array2?<bv32>, front: array2?<bv32>) {
    && back != null && front != null && back != front
    && back.Length0 == front.Length0 == 512 && back.Length1 >= 512 && front.Length1 >= 512
  }

  /** The one call of the source that writes nothing: a missing or a narrow texture. */
  predicate Refused(back: array2?<bv32>, front: array2?<bv32>) {
    back == null || front == null || back.Length1 < 512 || front.Length1 < 512
  }

  /** The tile at (y, x) is the given one. */
  predicate InTile(tile: nat, y: int, x: int) {
    y / 8 == tile / 64 && x / 8 == tile % 64
  }

  // ---- The reference: upload_system24_layer_impl<true> ------------------------

  method UploadTile(l: Layer, back: array2<bv32>, front: array2<bv32>, tile: nat)
    requires l.Valid() && Usable(back, front) && tile < 4096
    modifies back, front
    ensures forall y, x :: 0 <= y < 512 && 0 <= x < back.Length1 ==>
      back[y, x] == if x < 512 && InTile(tile, y, x) then BackTexel(l, y, x) else old(back[y, x])
    ensures forall y, x :: 0 <= y < 512 && 0 <= x < front.Length1 ==>
      front[y, x] == if x < 512 && InTile(tile, y, x) then FrontTexel(l, y, x) else old(front[y, x])
  {
    var tx, ty := tile % 64 * 8, tile / 64 * 8;
    for y := ty to ty + 8
      invariant forall v, u :: 0 <= v < 512 && 0 <= u < back.Length1 ==>
        back[v, u] == if u < 512 && InTile(tile, v, u) && v < y then BackTexel(l, v, u) else old(back[v, u])
      invariant forall v, u :: 0 <= v < 512 && 0 <= u < front.Length1 ==>
        front[v, u] == if u < 512 && InTile(tile, v, u) && v < y then FrontTexel(l, v, u) else old(front[v, u])
    {
      for x := tx to tx + 8
        invariant forall v, u :: 0 <= v < 512 && 0 <= u < back.Length1 ==>
          back[v, u] == if u < 512 && InTile(tile, v, u) && (v < y || (v == y && u < x)) then BackTexel(l, v, u) else old(back[v, u])
        invariant forall v, u :: 0 <= v < 512 && 0 <= u < front.Length1 ==>
          front[v, u] == if u < 512 && InTile(tile, v, u) && (v < y || (v == y && u < x)) then FrontTexel(l, v, u) else old(front[v, u])
      {
        var i := At(y, x);
        var solid, category1 := Opaque(l.flags[i]), Category1(l.flags[i]);
        var backVisible := if l.OpaqueBackground() then !l.Split() || !category1 else solid && !category1;
        var frontVisible := solid && category1;
        back[y, x] := IndexTexel(l.pens[i], backVisible);
        front[y, x] := IndexTexel(l.pens[i], frontVisible);
      }
    }
  }

  method UploadTiles(l: Layer, previous: nat, back: array2?<bv32>, front: array2?<bv32>) returns (uploaded: nat)
    requires l.Valid() && (Refused(back, front) || Usable(back, front))
    modifies back, front
    ensures Refused(back, front) ==> uploaded == 0 && (back != null ==> unchanged(back)) && (front != null ==> unchanged(front))
    ensures !Refused(back, front) ==> uploaded == DirtyBelow(l, previous, 4096)
    ensures !Refused(back, front) ==> forall y, x :: 0 <= y < 512 && 0 <= x < back.Length1 ==>
      back[y, x] == if DirtyAt(l, previous, y, x) then BackTexel(l, y, x) else old(back[y, x])
    ensures !Refused(back, front) ==> forall y, x :: 0 <= y < 512 && 0 <= x < front.Length1 ==>
      front[y, x] == if DirtyAt(l, previous, y, x) then FrontTexel(l, y, x) else old(front[y, x])
  {
    uploaded := 0;
    if back == null || front == null || back.Length1 < 512 || front.Length1 < 512 { return; }
    var full := Full(previous);
    for tile := 0 to 4096
      invariant uploaded == DirtyBelow(l, previous, tile)
      invariant forall y, x :: 0 <= y < 512 && 0 <= x < back.Length1 ==>
        back[y, x] == if DirtyAt(l, previous, y, x) && TileAt(y, x) < tile then BackTexel(l, y, x) else old(back[y, x])
      invariant forall y, x :: 0 <= y < 512 && 0 <= x < front.Length1 ==>
        front[y, x] == if DirtyAt(l, previous, y, x) && TileAt(y, x) < tile then FrontTexel(l, y, x) else old(front[y, x])
    {
      if !full && l.generations[tile] <= previous { continue; }
      UploadTile(l, back, front, tile);
      uploaded := uploaded + 1;
    }
  }

  // ---- The fast form: upload_system24_layer_indices ---------------------------

  /** The two masks system24_index_run takes. */
  predicate MasksOf(l: Layer, a: bv32, b: bv32) {
    && a == (if l.OpaqueBackground() then ONES else 0)
    && b == (if l.OpaqueBackground() && !l.Split() then ONES else 0)
  }

  /** The body of the run's loop: texels selected by masks. */
  method Masked(l: Layer, y: nat, x: nat, a: bv32, b: bv32) returns (backTexel: bv32, frontTexel: bv32)
    requires l.Valid() && y < 512 && x < 512 && MasksOf(l, a, b)
    ensures backTexel == BackTexel(l, y, x) && frontTexel == FrontTexel(l, y, x)
  {
    var pen, flag := l.pens[At(y, x)], l.flags[At(y, x)];
    var texel := Texel(pen);
    var solid, category1 := Mask((flag >> 4) & 1), Mask(flag & 1);
    MaskBits(flag);
    FastTexels(texel, flag, solid, category1, a, b, l.OpaqueBackground(), l.Split());
    backTexel := FastBack(texel, solid, category1, a, b);
    frontTexel := FastFront(texel, solid, category1);
  }

  /** system24_index_run: `count` texels of line y from column x0, without a branch. */
  method IndexRun(l: Layer, back: array2<bv32>, front: array2<bv32>, y: nat, x0: nat, count: nat, a: bv32, b: bv32)
    requires l.Valid() && Usable(back, front) && y < 512 && x0 + count <= 512
    requires MasksOf(l, a, b)
    modifies back, front
    ensures forall v, u :: 0 <= v < 512 && 0 <= u < back.Length1 ==>
      back[v, u] == if v == y && x0 <= u < x0 + count then BackTexel(l, v, u) else old(back[v, u])
    ensures forall v, u :: 0 <= v < 512 && 0 <= u < front.Length1 ==>
      front[v, u] == if v == y && x0 <= u < x0 + count then FrontTexel(l, v, u) else old(front[v, u])
  {
    for x := 0 to count
      invariant forall v, u :: 0 <= v < 512 && 0 <= u < back.Length1 ==>
        back[v, u] == if v == y && x0 <= u < x0 + x then BackTexel(l, v, u) else old(back[v, u])
      invariant forall v, u :: 0 <= v < 512 && 0 <= u < front.Length1 ==>
        front[v, u] == if v == y && x0 <= u < x0 + x then FrontTexel(l, v, u) else old(front[v, u])
    {
      var u: nat := x0 + x;
      var backTexel, frontTexel := Masked(l, y, u, a, b);
      back[y, u] := backTexel;
      front[y, u] := frontTexel;
    }
  }

  /** One line of texels, run by run. */
  method WriteLine(l: Layer, back: array2<bv32>, front: array2<bv32>, y: nat, firsts: array<nat>, lengths: array<nat>,
                   runs: nat, ghost mask: nat, a: bv32, b: bv32)
    requires l.Valid() && Usable(back, front) && y < 512
    requires firsts.Length == lengths.Length == BITS && runs <= BITS && RunsCover(mask, firsts[..], lengths[..], runs, BITS)
    requires MasksOf(l, a, b)
    modifies back, front
    ensures forall v, u :: 0 <= v < 512 && 0 <= u < back.Length1 ==>
      back[v, u] == if v == y && u < 512 && HasBit(mask, u / 8) then BackTexel(l, v, u) else old(back[v, u])
    ensures forall v, u :: 0 <= v < 512 && 0 <= u < front.Length1 ==>
      front[v, u] == if v == y && u < 512 && HasBit(mask, u / 8) then FrontTexel(l, v, u) else old(front[v, u])
  {
    ghost var fs, ls := firsts[..], lengths[..];
    for r := 0 to runs
      invariant forall v, u :: 0 <= v < 512 && 0 <= u < back.Length1 ==>
        back[v, u] == if v == y && u < 512 && InSomeRun(fs, ls, r, u / 8) then BackTexel(l, v, u) else old(back[v, u])
      invariant forall v, u :: 0 <= v < 512 && 0 <= u < front.Length1 ==>
        front[v, u] == if v == y && u < 512 && InSomeRun(fs, ls, r, u / 8) then FrontTexel(l, v, u) else old(front[v, u])
    {
      assert IsRun(mask, fs[r], ls[r]);
      forall u: nat | u < 512
        ensures InSomeRun(fs, ls, r + 1, u / 8) <==> InSomeRun(fs, ls, r, u / 8) || fs[r] * 8 <= u < fs[r] * 8 + ls[r] * 8
      {
        OneMoreRun(fs, ls, r, u / 8);
      }
      IndexRun(l, back, front, y, firsts[r] * 8, lengths[r] * 8, a, b);
    }
    forall u: nat | u < 512 ensures InSomeRun(fs, ls, runs, u / 8) <==> HasBit(mask, u / 8) {
      RunsAre(mask, fs, ls, runs, u / 8);
    }
  }

  /** One row of tiles: the eight lines of its changed tiles. */
  method WriteTileRow(l: Layer, back: array2<bv32>, front: array2<bv32>, ty: nat, mask: nat, a: bv32, b: bv32)
    requires l.Valid() && Usable(back, front) && ty < 64 && mask < Pow2(BITS)
    requires MasksOf(l, a, b)
    modifies back, front
    ensures forall v, u :: 0 <= v < 512 && 0 <= u < back.Length1 ==>
      back[v, u] == if v / 8 == ty && u < 512 && HasBit(mask, u / 8) then BackTexel(l, v, u) else old(back[v, u])
    ensures forall v, u :: 0 <= v < 512 && 0 <= u < front.Length1 ==>
      front[v, u] == if v / 8 == ty && u < 512 && HasBit(mask, u / 8) then FrontTexel(l, v, u) else old(front[v, u])
  {
    var firsts, lengths, runs := CutRuns(mask);
    for y := ty * 8 to ty * 8 + 8
      invariant RunsCover(mask, firsts[..], lengths[..], runs, BITS)
      invariant forall v, u :: 0 <= v < 512 && 0 <= u < back.Length1 ==>
        back[v, u] == if v / 8 == ty && v < y && u < 512 && HasBit(mask, u / 8) then BackTexel(l, v, u) else old(back[v, u])
      invariant forall v, u :: 0 <= v < 512 && 0 <= u < front.Length1 ==>
        front[v, u] == if v / 8 == ty && v < y && u < 512 && HasBit(mask, u / 8) then FrontTexel(l, v, u) else old(front[v, u])
    {
      WriteLine(l, back, front, y, firsts, lengths, runs, mask, a, b);
    }
  }

  /** The mask of changed tiles of a row: all ones when everything is to be rewritten. */
  method DirtyMask(l: Layer, previous: nat, ty: nat) returns (mask: nat)
    requires l.Valid() && ty < 64
    ensures mask < Pow2(BITS)
    ensures forall tx: nat :: tx < BITS ==> HasBit(mask, tx) == Dirty(l, previous, ty * 64 + tx)
  {
    PowPositive(BITS);
    if Full(previous) {
      mask := Pow2(BITS) - 1;
      forall tx: nat | tx < BITS ensures HasBit(mask, tx) {
        NotBits(0, BITS, tx);
        ZeroBits(tx);
      }
    } else {
      mask := 0;
      forall tx: nat | tx < BITS ensures !HasBit(mask, tx) {
        ZeroBits(tx);
      }
      for tx := 0 to BITS
        invariant mask < Pow2(BITS)
        invariant forall i: nat :: i < BITS ==> HasBit(mask, i) == (i < tx && Dirty(l, previous, ty * 64 + i))
      {
        if l.generations[ty * 64 + tx] > previous {
          ghost var was := mask;
          mask := SetBit(mask, tx);
          BitOpsBounded(was, tx, BITS);
          forall i: nat | i < BITS ensures HasBit(mask, i) == (i == tx || HasBit(was, i)) {
            SetBitBits(was, tx, i);
          }
        }
      }
    }
  }

  lemma {:induction false} CountRow(l: Layer, previous: nat, ty: nat, mask: nat, n: nat)
    requires l.Valid() && ty < 64 && n <= BITS
    requires forall tx: nat :: tx < BITS ==> HasBit(mask, tx) == Dirty(l, previous, ty * 64 + tx)
    ensures DirtyBelow(l, previous, ty * 64 + n) == DirtyBelow(l, previous, ty * 64) + CountBelow(mask, n)
    decreases n
  {
    if n > 0 { CountRow(l, previous, ty, mask, n - 1); }
  }

  /** One row of tiles: its changed ones are uploaded and counted. */
  method UploadRow(l: Layer, previous: nat, back: array2<bv32>, front: array2<bv32>, ty: nat, a: bv32, b: bv32)
    returns (changed: nat)
    requires l.Valid() && Usable(back, front) && ty < 64 && MasksOf(l, a, b)
    modifies back, front
    ensures DirtyBelow(l, previous, (ty + 1) * 64) == DirtyBelow(l, previous, ty * 64) + changed
    ensures forall y, x :: 0 <= y < 512 && 0 <= x < back.Length1 ==>
      back[y, x] == if DirtyAt(l, previous, y, x) && y / 8 == ty then BackTexel(l, y, x) else old(back[y, x])
    ensures forall y, x :: 0 <= y < 512 && 0 <= x < front.Length1 ==>
      front[y, x] == if DirtyAt(l, previous, y, x) && y / 8 == ty then FrontTexel(l, y, x) else old(front[y, x])
  {
    var mask := DirtyMask(l, previous, ty);
    CountRow(l, previous, ty, mask, BITS);
    PopCountIs(mask, BITS);
    forall y: nat, x: nat | y < 512 && x < 512 && y / 8 == ty
      ensures HasBit(mask, x / 8) == DirtyAt(l, previous, y, x)
    {
      assert HasBit(mask, x / 8) == Dirty(l, previous, ty * 64 + x / 8);
    }
    changed := PopCount(mask);
    if mask == 0 {
      forall tx: nat | tx < BITS ensures !HasBit(mask, tx) { ZeroBits(tx); }
    } else {
      WriteTileRow(l, back, front, ty, mask, a, b);
    }
  }

  method UploadRuns(l: Layer, previous: nat, back: array2?<bv32>, front: array2?<bv32>) returns (uploaded: nat)
    requires l.Valid() && (Refused(back, front) || Usable(back, front))
    modifies back, front
    ensures Refused(back, front) ==> uploaded == 0 && (back != null ==> unchanged(back)) && (front != null ==> unchanged(front))
    ensures !Refused(back, front) ==> uploaded == DirtyBelow(l, previous, 4096)
    ensures !Refused(back, front) ==> forall y, x :: 0 <= y < 512 && 0 <= x < back.Length1 ==>
      back[y, x] == if DirtyAt(l, previous, y, x) then BackTexel(l, y, x) else old(back[y, x])
    ensures !Refused(back, front) ==> forall y, x :: 0 <= y < 512 && 0 <= x < front.Length1 ==>
      front[y, x] == if DirtyAt(l, previous, y, x) then FrontTexel(l, y, x) else old(front[y, x])
  {
    uploaded := 0;
    if back == null || front == null || back.Length1 < 512 || front.Length1 < 512 { return; }
    var a: bv32 := if l.OpaqueBackground() then ONES else 0;
    var b: bv32 := if l.OpaqueBackground() && !l.Split() then ONES else 0;
    for ty := 0 to 64
      invariant uploaded == DirtyBelow(l, previous, ty * 64)
      invariant forall y, x :: 0 <= y < 512 && 0 <= x < back.Length1 ==>
        back[y, x] == if DirtyAt(l, previous, y, x) && y / 8 < ty then BackTexel(l, y, x) else old(back[y, x])
      invariant forall y, x :: 0 <= y < 512 && 0 <= x < front.Length1 ==>
        front[y, x] == if DirtyAt(l, previous, y, x) && y / 8 < ty then FrontTexel(l, y, x) else old(front[y, x])
    {
      var changed := UploadRow(l, previous, back, front, ty, a, b);
      uploaded := uploaded + changed;
    }
  }

  /** From equal textures the two forms leave equal textures and return one count. */
  method BothForms(l: Layer, previous: nat, back: array2<bv32>, front: array2<bv32>, fastBack: array2<bv32>, fastFront: array2<bv32>)
      returns (uploaded: nat, fastUploaded: nat)
    requires l.Valid() && Usable(back, front) && Usable(fastBack, fastFront)
    requires {back, front} !! {fastBack, fastFront}
    requires back.Length1 == fastBack.Length1 && front.Length1 == fastFront.Length1
    requires forall y, x :: 0 <= y < 512 && 0 <= x < back.Length1 ==> back[y, x] == fastBack[y, x]
    requires forall y, x :: 0 <= y < 512 && 0 <= x < front.Length1 ==> front[y, x] == fastFront[y, x]
    modifies back, front, fastBack, fastFront
    ensures uploaded == fastUploaded
    ensures forall y, x :: 0 <= y < 512 && 0 <= x < back.Length1 ==> back[y, x] == fastBack[y, x]
    ensures forall y, x :: 0 <= y < 512 && 0 <= x < front.Length1 ==> front[y, x] == fastFront[y, x]
  {
    uploaded := UploadTiles(l, previous, back, front);
    fastUploaded := UploadRuns(l, previous, fastBack, fastFront);
  }
}
