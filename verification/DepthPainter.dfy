/**
 Why the renderer may draw in batches (platform/vita/gpu_gl.cpp): foreground layers
 first, then the polygons in whatever order the batches give, then the background,
 with a depth test. At every pixel the result is what painting background,
 polygons in priority order and foreground would give.

 One pixel is enough: pixels do not touch each other. A fragment is a colour, or
 nothing when the alpha test or the checker pattern discards it. Depths are reals.
 */
module DepthPainter {
  import opened Words

  type Color = nat

  datatype Fragment = Discarded | Visible(color: Color)

  /** A polygon's place in the priority order (0 is in front), and its fragments at the pixel. */
  datatype Poly = Poly(rank: nat, fragments: seq<Fragment>)

  datatype Pixel = Pixel(depth: real, color: Color)

  const FOREGROUND := 1.0 - 1.0 / 16777216.0 // 0.99999994f, the largest float below 1
  const BACKGROUND := 0.0

  /** g.depth: one depth per polygon, from its rank among `count` polygons. */
  function DepthOf(rank: nat, count: nat): real {
    1.0 - (rank + 1) as real / (count + 1) as real
  }

  // ---- Painting -------------------------------------------------------------

  /** Each visible fragment over what is there. */
  function Paint(c: Color, fragments: seq<Fragment>): Color {
    if fragments == [] then c
    else
      var below := Paint(c, fragments[..|fragments| - 1]);
      match fragments[|fragments| - 1]
      case Discarded => below
      case Visible(x) => x
  }

  /** The polygons from the last to the first: the first ends in front. */
  function PaintPolys(c: Color, ordered: seq<Poly>): Color {
    if ordered == [] then c
    else Paint(PaintPolys(c, ordered[1..]), ordered[0].fragments)
  }

  function Painted(clear: Color, background: seq<Fragment>, ordered: seq<Poly>, foreground: seq<Fragment>): Color {
    Paint(PaintPolys(Paint(clear, background), ordered), foreground)
  }

  // ---- Drawing with depth ---------------------------------------------------

  /** One fragment under GL_GEQUAL; a discarded one neither draws nor writes depth. */
  function Draw(p: Pixel, f: Fragment, depth: real, write: bool): Pixel {
    match f
    case Discarded => p
    case Visible(c) =>
      if depth >= p.depth then Pixel(if write then depth else p.depth, c) else p
  }

  function DrawAll(p: Pixel, fragments: seq<Fragment>, depth: real, write: bool): Pixel {
    if fragments == [] then p
    else Draw(DrawAll(p, fragments[..|fragments| - 1], depth, write), fragments[|fragments| - 1], depth, write)
  }

  /** The polygons in the order the batches give. */
  function DrawPolys(p: Pixel, drawn: seq<Poly>, count: nat): Pixel {
    if drawn == [] then p
    else
      var q := drawn[|drawn| - 1];
      DrawAll(DrawPolys(p, drawn[..|drawn| - 1], count), q.fragments, DepthOf(q.rank, count), true)
  }

  function Drawn(clear: Color, background: seq<Fragment>, drawn: seq<Poly>, count: nat, foreground: seq<Fragment>): Color {
    var afterFront := DrawAll(Pixel(BACKGROUND, clear), foreground, FOREGROUND, true);
    var afterPolys := DrawPolys(afterFront, drawn, count);
    DrawAll(afterPolys, background, BACKGROUND, false).color
  }

  // ---- Depths ---------------------------------------------------------------

  /** Depths keep the priority order and lie strictly between background and foreground. */
  lemma DepthFacts(a: nat, b: nat, count: nat)
    requires a < b < count < 0xff_ffff
    ensures BACKGROUND < DepthOf(b, count) < DepthOf(a, count) < FOREGROUND
  {
    DepthBounds(a, count);
    DepthBounds(b, count);
    var n, x, y := (count + 1) as real, (a + 1) as real, (b + 1) as real;
    assert x / n < y / n;
  }

  lemma DepthBounds(a: nat, count: nat)
    requires a < count < 0xff_ffff
    ensures BACKGROUND < DepthOf(a, count) < FOREGROUND
  {
    var n, x := (count + 1) as real, (a + 1) as real;
    assert x / n < 1.0;
    assert 1.0 / 16777216.0 < 1.0 / n;
    assert 1.0 / n <= x / n;
  }

  // ---- One polygon ----------------------------------------------------------

  predicate Seen(fragments: seq<Fragment>) {
    exists i :: 0 <= i < |fragments| && fragments[i].Visible?
  }

  lemma {:induction false} PaintSeen(c: Color, e: Color, fragments: seq<Fragment>)
    ensures !Seen(fragments) ==> Paint(c, fragments) == c
    ensures Seen(fragments) ==> Paint(c, fragments) == Paint(e, fragments)
  {
    if fragments != [] {
      var front := fragments[..|fragments| - 1];
      PaintSeen(c, e, front);
      if Seen(fragments) && !fragments[|fragments| - 1].Visible? {
        var i :| 0 <= i < |fragments| && fragments[i].Visible?;
        assert front[i].Visible?;
      }
      assert Seen(front) ==> Seen(fragments) by {
        if Seen(front) {
          var i :| 0 <= i < |front| && front[i].Visible?;
          assert fragments[i].Visible?;
        }
      }
    }
  }

  /** A polygon's own fragments never hide each other: all pass or none does. */
  lemma {:induction false} DrawAllFacts(p: Pixel, fragments: seq<Fragment>, depth: real, write: bool)
    ensures depth >= p.depth ==>
      DrawAll(p, fragments, depth, write)
        == Pixel(if write && Seen(fragments) then depth else p.depth, Paint(p.color, fragments))
    ensures depth < p.depth ==> DrawAll(p, fragments, depth, write) == p
  {
    if fragments != [] {
      var front, last := fragments[..|fragments| - 1], fragments[|fragments| - 1];
      DrawAllFacts(p, front, depth, write);
      if Seen(front) {
        var i :| 0 <= i < |front| && front[i].Visible?;
        assert fragments[i].Visible?;
      }
      if Seen(fragments) && !last.Visible? {
        var i :| 0 <= i < |fragments| && fragments[i].Visible?;
        assert front[i].Visible?;
      }
    }
  }

  /** Fragment i is the last visible one. */
  predicate LastVisible(fragments: seq<Fragment>, i: nat) {
    i < |fragments| && fragments[i].Visible? && forall j :: i < j < |fragments| ==> fragments[j].Discarded?
  }

  lemma {:induction false} PaintIs(c: Color, fragments: seq<Fragment>, i: nat)
    requires LastVisible(fragments, i)
    ensures Paint(c, fragments) == fragments[i].color
    decreases |fragments|
  {
    if i + 1 < |fragments| {
      PaintIs(c, fragments[..|fragments| - 1], i);
    }
  }

  /** Polygons in front that show nothing here let what is behind them through. */
  lemma {:induction false} ShowsThrough(c: Color, ordered: seq<Poly>, k: nat)
    requires k <= |ordered| && forall j :: 0 <= j < k ==> !Seen(ordered[j].fragments)
    ensures PaintPolys(c, ordered) == PaintPolys(c, ordered[k..])
    decreases k
  {
    if k == 0 {
      assert ordered[0..] == ordered;
    } else {
      ShowsThrough(c, ordered[1..], k - 1);
      assert ordered[1..][k - 1..] == ordered[k..];
      PaintSeen(PaintPolys(c, ordered[1..]), 0, ordered[0].fragments);
    }
  }

  /**
   What a pixel shows: the foreground's last visible fragment; where it has none, the last
   visible fragment of the first polygon that has one; else the background's; else the
   colour it was cleared to.
   */
  lemma PixelShows(clear: Color, background: seq<Fragment>, ordered: seq<Poly>, foreground: seq<Fragment>, k: nat, i: nat)
    requires k <= |ordered| && forall j :: 0 <= j < k ==> !Seen(ordered[j].fragments)
    ensures var c := Painted(clear, background, ordered, foreground);
            && (LastVisible(foreground, i) ==> c == foreground[i].color)
            && (!Seen(foreground) && k < |ordered| && LastVisible(ordered[k].fragments, i) ==> c == ordered[k].fragments[i].color)
            && (!Seen(foreground) && k == |ordered| && LastVisible(background, i) ==> c == background[i].color)
            && (!Seen(foreground) && k == |ordered| && !Seen(background) ==> c == clear)
  {
    var under := Paint(clear, background);
    var polys := PaintPolys(under, ordered);
    ShowsThrough(under, ordered, k);
    PaintSeen(polys, 0, foreground);
    PaintSeen(clear, 0, background);
    if LastVisible(foreground, i) { PaintIs(polys, foreground, i); }
    if LastVisible(background, i) { PaintIs(clear, background, i); }
    if k < |ordered| && LastVisible(ordered[k].fragments, i) {
      PaintIs(PaintPolys(under, ordered[k..][1..]), ordered[k].fragments, i);
    }
  }

  // ---- All polygons ---------------------------------------------------------

  /** w is the frontmost visible polygon of a list. */
  predicate Frontmost(polys: seq<Poly>, w: Poly) {
    && w in polys && Seen(w.fragments)
    && forall q :: q in polys && Seen(q.fragments) ==> w.rank <= q.rank
  }

  predicate NoneSeen(polys: seq<Poly>) {
    forall q :: q in polys ==> !Seen(q.fragments)
  }

  ghost predicate Ascending(polys: seq<Poly>) {
    forall i, j :: 0 <= i < j < |polys| ==> polys[i].rank < polys[j].rank
  }

  /** Painting from the back leaves the colour of the frontmost visible polygon. */
  lemma {:induction false} PaintPolysFacts(c: Color, ordered: seq<Poly>)
    requires Ascending(ordered)
    ensures NoneSeen(ordered) ==> PaintPolys(c, ordered) == c
    ensures forall w :: Frontmost(ordered, w) ==> PaintPolys(c, ordered) == Paint(0, w.fragments)
    decreases |ordered|
  {
    if ordered != [] {
      var head, rest := ordered[0], ordered[1..];
      PaintPolysFacts(c, rest);
      PaintSeen(PaintPolys(c, rest), 0, head.fragments);
      forall w | Frontmost(ordered, w) ensures PaintPolys(c, ordered) == Paint(0, w.fragments) {
        var i :| 0 <= i < |ordered| && ordered[i] == w;
        if i > 0 {
          assert rest[i - 1] == w;
          assert Frontmost(rest, w);
        }
      }
    }
  }

  /** A list with a visible polygon has a frontmost one. */
  lemma {:induction false} FrontmostExists(polys: seq<Poly>) returns (w: Poly)
    requires !NoneSeen(polys)
    ensures Frontmost(polys, w)
    decreases |polys|
  {
    var front, last := polys[..|polys| - 1], polys[|polys| - 1];
    if NoneSeen(front) {
      w := last;
    } else {
      var v := FrontmostExists(front);
      w := if Seen(last.fragments) && last.rank < v.rank then last else v;
    }
  }

  /** Drawing in any order leaves the depth and colour of the frontmost visible polygon. */
  lemma {:induction false} DrawPolysFacts(p: Pixel, drawn: seq<Poly>, count: nat)
    requires p.depth == BACKGROUND && count < 0xff_ffff
    requires forall q :: q in drawn ==> q.rank < count
    requires forall q, r :: q in drawn && r in drawn && q.rank == r.rank ==> q == r
    ensures NoneSeen(drawn) ==> DrawPolys(p, drawn, count) == p
    ensures forall w :: Frontmost(drawn, w) ==>
              DrawPolys(p, drawn, count) == Pixel(DepthOf(w.rank, count), Paint(0, w.fragments))
    decreases |drawn|
  {
    if drawn != [] {
      var front, last := drawn[..|drawn| - 1], drawn[|drawn| - 1];
      DrawPolysFacts(p, front, count);
      var before := DrawPolys(p, front, count);
      DepthBounds(last.rank, count);
      DrawAllFacts(before, last.fragments, DepthOf(last.rank, count), true);
      PaintSeen(before.color, 0, last.fragments);
      forall w | Frontmost(drawn, w)
        ensures DrawPolys(p, drawn, count) == Pixel(DepthOf(w.rank, count), Paint(0, w.fragments))
      {
        LastOrBefore(p, drawn, count, w);
      }
    }
  }

  lemma LastOrBefore(p: Pixel, drawn: seq<Poly>, count: nat, w: Poly)
    requires p.depth == BACKGROUND && count < 0xff_ffff && drawn != [] && Frontmost(drawn, w)
    requires forall q :: q in drawn ==> q.rank < count
    requires forall q, r :: q in drawn && r in drawn && q.rank == r.rank ==> q == r
    requires var front := drawn[..|drawn| - 1];
             && (NoneSeen(front) ==> DrawPolys(p, front, count) == p)
             && (forall v :: Frontmost(front, v) ==>
                   DrawPolys(p, front, count) == Pixel(DepthOf(v.rank, count), Paint(0, v.fragments)))
    ensures DrawPolys(p, drawn, count) == Pixel(DepthOf(w.rank, count), Paint(0, w.fragments))
  {
    var front, last := drawn[..|drawn| - 1], drawn[|drawn| - 1];
    var before := DrawPolys(p, front, count);
    DrawAllFacts(before, last.fragments, DepthOf(last.rank, count), true);
    PaintSeen(before.color, 0, last.fragments);
    DepthBounds(last.rank, count);
    if !NoneSeen(front) {
      var v := FrontmostExists(front);
      assert v in drawn;
      if w == last {
        if v.rank != last.rank {
          DepthFacts(last.rank, v.rank, count);
        }
      } else {
        assert w in front;
        assert Frontmost(front, w);
        if Seen(last.fragments) {
          DepthFacts(w.rank, last.rank, count);
        }
      }
    }
  }

  /**
   The image is the same: for any fragments, any discards and any drawing order of
   the polygons, drawing foreground, polygons, background with the depth test gives
   the colour that painting background, polygons by priority, foreground gives.
   */
  lemma SamePicture(clear: Color, background: seq<Fragment>, ordered: seq<Poly>, drawn: seq<Poly>,
                    count: nat, foreground: seq<Fragment>)
    requires Ascending(ordered) && multiset(drawn) == multiset(ordered)
    requires forall q :: q in ordered ==> q.rank < count
    requires count < 0xff_ffff
    ensures Drawn(clear, background, drawn, count, foreground) == Painted(clear, background, ordered, foreground)
  {
    var start := Pixel(BACKGROUND, clear);
    var front := DrawAll(start, foreground, FOREGROUND, true);
    DrawAllFacts(start, foreground, FOREGROUND, true);
    SameMembers(ordered, drawn);
    if Seen(foreground) {
      BehindForeground(front, drawn, count);
      DrawAllFacts(front, background, BACKGROUND, false);
      PaintSeen(clear, PaintPolys(Paint(clear, background), ordered), foreground);
    } else {
      PaintSeen(clear, clear, foreground);
      PaintSeen(PaintPolys(Paint(clear, background), ordered), 0, foreground);
      DrawPolysFacts(start, drawn, count);
      PaintPolysFacts(Paint(clear, background), ordered);
      var polys := DrawPolys(start, drawn, count);
      DrawAllFacts(polys, background, BACKGROUND, false);
      if !NoneSeen(drawn) {
        var w := FrontmostExists(drawn);
        assert Frontmost(ordered, w);
        DepthBounds(w.rank, count);
      }
    }
  }

  lemma SameMembers(ordered: seq<Poly>, drawn: seq<Poly>)
    requires Ascending(ordered) && multiset(drawn) == multiset(ordered)
    ensures forall q :: q in drawn <==> q in ordered
    ensures forall q, r :: q in drawn && r in drawn && q.rank == r.rank ==> q == r
  {
    forall q ensures q in drawn <==> q in ordered {
      assert q in drawn <==> q in multiset(drawn);
      assert q in ordered <==> q in multiset(ordered);
    }
  }

  /** Where the foreground is visible every polygon is rejected. */
  lemma {:induction false} BehindForeground(p: Pixel, drawn: seq<Poly>, count: nat)
    requires p.depth == FOREGROUND && count < 0xff_ffff
    requires forall q :: q in drawn ==> q.rank < count
    ensures DrawPolys(p, drawn, count) == p
    decreases |drawn|
  {
    if drawn != [] {
      var last := drawn[|drawn| - 1];
      BehindForeground(p, drawn[..|drawn| - 1], count);
      DepthBounds(last.rank, count);
      DrawAllFacts(p, last.fragments, DepthOf(last.rank, count), true);
    }
  }

  // ---- Batches --------------------------------------------------------------

  /** The polygon list of every batch, one after the other: the order they are drawn in. */
  function Flush(batches: seq<seq<Poly>>): seq<Poly> {
    if batches == [] then [] else Flush(batches[..|batches| - 1]) + batches[|batches| - 1]
  }

  /** A polygon goes to an existing batch of its state, or to a new one. */
  function PutInBatch(batches: seq<seq<Poly>>, b: nat, p: Poly): seq<seq<Poly>>
    requires b <= |batches|
  {
    if b == |batches| then batches + [[p]] else batches[b := batches[b] + [p]]
  }

  lemma {:induction false} PutKeepsAll(batches: seq<seq<Poly>>, b: nat, p: Poly)
    requires b <= |batches|
    ensures multiset(Flush(PutInBatch(batches, b, p))) == multiset(Flush(batches)) + multiset{p}
    decreases |batches|
  {
    var after := PutInBatch(batches, b, p);
    if b == |batches| {
      assert after[..|after| - 1] == batches;
    } else if b == |batches| - 1 {
      assert after[..|after| - 1] == batches[..|batches| - 1];
    } else {
      PutKeepsAll(batches[..|batches| - 1], b, p);
      assert after[..|after| - 1] == PutInBatch(batches[..|batches| - 1], b, p);
    }
  }

  /** The batches after every polygon has been put in one; `choice` is the batch each one goes to. */
  function InBatches(polys: seq<Poly>, choice: seq<nat>): seq<seq<Poly>>
    requires |choice| == |polys|
  {
    if polys == [] then []
    else
      var n := |polys| - 1;
      var before := InBatches(polys[..n], choice[..n]);
      PutInBatch(before, if choice[n] <= |before| then choice[n] else |before|, polys[n])
  }

  lemma LastOne<T>(s: seq<T>)
    requires s != []
    ensures multiset(s) == multiset(s[..|s| - 1]) + multiset{s[|s| - 1]}
  {
    assert s == s[..|s| - 1] + [s[|s| - 1]];
  }

  lemma {:induction false} BatchesHoldAll(polys: seq<Poly>, choice: seq<nat>)
    requires |choice| == |polys|
    ensures multiset(Flush(InBatches(polys, choice))) == multiset(polys)
    decreases |polys|
  {
    if polys != [] {
      var n := |polys| - 1;
      var before := InBatches(polys[..n], choice[..n]);
      var b := if choice[n] <= |before| then choice[n] else |before|;
      BatchesHoldAll(polys[..n], choice[..n]);
      PutKeepsAll(before, b, polys[n]);
      LastOne(polys);
    }
  }

  /**
   Whatever batches the polygons are put in (by state, in a second batch of the same
   state when the index is full, arriving in any order), drawing batch after batch
   gives the painter's picture.
   */
  lemma BatchedPicture(clear: Color, background: seq<Fragment>, ordered: seq<Poly>, arrival: seq<Poly>,
                       choice: seq<nat>, count: nat, foreground: seq<Fragment>)
    requires |choice| == |arrival|
    requires Ascending(ordered) && multiset(arrival) == multiset(ordered)
    requires forall q :: q in ordered ==> q.rank < count
    requires count < 0xff_ffff
    ensures Drawn(clear, background, Flush(InBatches(arrival, choice)), count, foreground)
         == Painted(clear, background, ordered, foreground)
  {
    BatchesHoldAll(arrival, choice);
    SamePicture(clear, background, ordered, Flush(InBatches(arrival, choice)), count, foreground);
  }

  // ---- How many polygons a frame can have ------------------------------------

  const MAX_POLYGONS := 32768

  /**
   poly_list_index after n polygons of a frame (src/runtime/geo.cpp); None once one of
   them has been the polygon too many.
   */
  function ListIndex(n: nat): Option<nat> {
    if n == 0 then Some(0)
    else
      match ListIndex(n - 1)
      case None => None
      case Some(index) => if index + 1 >= MAX_POLYGONS then None else Some(index + 1)
  }

  /** The geometrizer lets through exactly the lists of fewer than MAX_POLYGONS. */
  lemma {:induction false} ListLimit(n: nat)
    ensures ListIndex(n) == if n < MAX_POLYGONS then Some(n) else None
  {
    if n > 0 { ListLimit(n - 1); }
  }

  /**
   Every frame there can be: whatever list the geometrizer has let through, in
   whatever batches its polygons are drawn, the picture is the painter's.
   */
  lemma FramePicture(clear: Color, background: seq<Fragment>, ordered: seq<Poly>, arrival: seq<Poly>,
                     choice: seq<nat>, count: nat, foreground: seq<Fragment>)
    requires |choice| == |arrival|
    requires Ascending(ordered) && multiset(arrival) == multiset(ordered)
    requires forall q :: q in ordered ==> q.rank < count
    requires ListIndex(count).Some?
    ensures Drawn(clear, background, Flush(InBatches(arrival, choice)), count, foreground)
         == Painted(clear, background, ordered, foreground)
  {
    ListLimit(count);
    BatchedPicture(clear, background, ordered, arrival, choice, count, foreground);
  }

  /**
   How far the depths themselves would reach: from 2^24 - 1 polygons on, far more than
   a list can hold, the front polygon's depth would reach the foreground's.
   */
  lemma TooManyPolygons(clear: Color, over: Color, under: Color, count: nat)
    requires over != under && count > 0
    ensures var p := Poly(0, [Visible(under)]);
            (Drawn(clear, [], [p], count, [Visible(over)]) == Painted(clear, [], [p], [Visible(over)]))
            <==> count < 0xff_ffff
  {
    var p := Poly(0, [Visible(under)]);
    var start := Pixel(BACKGROUND, clear);
    DrawAllFacts(start, [Visible(over)], FOREGROUND, true);
    assert [Visible(over)][0].Visible? && [Visible(under)][0].Visible?;
    var front := DrawAll(start, [Visible(over)], FOREGROUND, true);
    assert front == Pixel(FOREGROUND, over);
    assert DrawPolys(front, [], count) == front;
    DrawAllFacts(front, [Visible(under)], DepthOf(0, count), true);
    assert [p][..0] == [];
    if count < 0xff_ffff {
      DepthBounds(0, count);
    } else {
      assert 1.0 / (count + 1) as real <= 1.0 / 16777216.0;
    }
  }
}
