/**
 The vertices of a batch of polygons (platform/vita/gpu_gl.cpp): a fan of triangles
 per polygon, or quads of four vertices that a static index buffer turns into the
 same triangles. Vertices are opaque.
 */
module QuadBatches {
  datatype Vertex = Vertex(id: int)

  datatype Triangle = Triangle(a: Vertex, b: Vertex, c: Vertex)

  /** A polygon waiting in its batch: invalid ones are found only when the batch is written. */
  datatype Poly = Poly(v: seq<Vertex>, valid: bool)

  const INDEXED_LIMIT := 65536
  const QUAD_INDICES := INDEXED_LIMIT / 4 * 6

  predicate Drawable(p: Poly) { 3 <= |p.v| <= 8 }

  function Min(a: int, b: int): int { if a <= b then a else b }

  // ---- Triangles ------------------------------------------------------------

  /** The fan of a convex polygon from its i-th vertex on: (v0, vi, vi+1) and so on. */
  function Fan(v: seq<Vertex>, i: nat): seq<Triangle>
    decreases |v| - i
  {
    if i + 1 < |v| then [Triangle(v[0], v[i], v[i + 1])] + Fan(v, i + 1) else []
  }

  /** A triangle with two corners in one place draws nothing. */
  predicate Degenerate(t: Triangle) { t.a == t.b || t.b == t.c || t.a == t.c }

  /** What quads of four vertices {a, b, c, d} draw: (a, b, c) and (a, c, d). */
  function Expand(s: seq<Vertex>): seq<Triangle> {
    if |s| < 4 then []
    else [Triangle(s[0], s[1], s[2]), Triangle(s[0], s[2], s[3])] + Expand(s[4..])
  }

  /** The vertices write_fan_quads leaves, from fan vertex a on. */
  function FanQuads(v: seq<Vertex>, a: nat): seq<Vertex>
    decreases |v| - a
  {
    if a + 1 < |v| then [v[0], v[a], v[a + 1], v[Min(a + 2, |v| - 1)]] + FanQuads(v, a + 2) else []
  }

  /** An odd fan ends with one triangle that draws nothing. */
  function Tail(v: seq<Vertex>): seq<Triangle> {
    if |v| % 2 == 0 then [] else [Triangle(v[0], v[|v| - 1], v[|v| - 1])]
  }

  /** The quads of a polygon draw its fan, in order, and at most one degenerate triangle after it. */
  lemma {:induction false} QuadsDrawFan(v: seq<Vertex>, a: nat)
    requires a < |v| && a % 2 == 1
    ensures Expand(FanQuads(v, a)) == Fan(v, a) + Tail(v)
    decreases |v| - a
  {
    if a + 2 < |v| {
      QuadsDrawFan(v, a + 2);
      OneQuad(v[0], v[a], v[a + 1], v[a + 2], FanQuads(v, a + 2));
      assert Fan(v, a + 1) == [Triangle(v[0], v[a + 1], v[a + 2])] + Fan(v, a + 2);
    } else if a + 1 < |v| {
      assert FanQuads(v, a + 2) == [];
      OneQuad(v[0], v[a], v[a + 1], v[a + 1], []);
      assert Fan(v, a + 1) == [];
    }
  }

  lemma OneQuad(a: Vertex, b: Vertex, c: Vertex, d: Vertex, rest: seq<Vertex>)
    ensures Expand([a, b, c, d] + rest) == [Triangle(a, b, c), Triangle(a, c, d)] + Expand(rest)
  {
    assert ([a, b, c, d] + rest)[4..] == rest;
  }

  /** The vertices of the valid polygons' quads, one polygon after the other. */
  function QuadVertices(polys: seq<Poly>): seq<Vertex> {
    if polys == [] then []
    else QuadVertices(polys[..|polys| - 1]) + (if polys[|polys| - 1].valid then FanQuads(polys[|polys| - 1].v, 1) else [])
  }

  /** The vertices of a fan as plain triangles, from fan vertex i on. */
  function FanTriples(v: seq<Vertex>, i: nat): seq<Vertex>
    decreases |v| - i
  {
    if i + 1 < |v| then [v[0], v[i], v[i + 1]] + FanTriples(v, i + 1) else []
  }

  function TripleVertices(polys: seq<Poly>): seq<Vertex> {
    if polys == [] then []
    else TripleVertices(polys[..|polys| - 1]) + (if polys[|polys| - 1].valid then FanTriples(polys[|polys| - 1].v, 1) else [])
  }

  /** As many vertices as were reserved for the polygon. */
  lemma {:induction false} QuadCount(v: seq<Vertex>, a: nat)
    requires a <= |v|
    ensures |FanQuads(v, a)| == (|v| - a) / 2 * 4
    decreases |v| - a
  {
    if a + 2 <= |v| {
      QuadCount(v, a + 2);
      HalfLess(|v| - a);
    }
  }

  lemma HalfLess(n: nat)
    requires n >= 2
    ensures n / 2 == (n - 2) / 2 + 1
  {
  }

  lemma {:induction false} ExpandConcat(s: seq<Vertex>, t: seq<Vertex>)
    requires |s| % 4 == 0
    ensures Expand(s + t) == Expand(s) + Expand(t)
    decreases |s|
  {
    if s == [] {
      assert s + t == t;
    } else {
      assert |s| >= 4 && |s[4..]| % 4 == 0;
      ExpandConcat(s[4..], t);
      assert (s + t)[4..] == s[4..] + t;
      assert Expand(s + t) == [Triangle(s[0], s[1], s[2]), Triangle(s[0], s[2], s[3])] + Expand(s[4..] + t);
    }
  }

  /** The fan of n vertices is n - 2 triangles, each of vertex 0 and two neighbours. */
  lemma {:induction false} FanAt(v: seq<Vertex>, i: nat, k: nat)
    requires 1 <= i && i + 1 < |v| && k < |v| - 1 - i
    ensures |Fan(v, i)| == |v| - 1 - i && Fan(v, i)[k] == Triangle(v[0], v[i + k], v[i + k + 1])
    decreases |v| - i
  {
    if i + 2 < |v| {
      FanAt(v, i + 1, if k > 0 then k - 1 else 0);
    }
  }

  /** What the fallback draws: the fans of the valid polygons. */
  function Fans(polys: seq<Poly>): seq<Triangle> {
    if polys == [] then []
    else Fans(polys[..|polys| - 1]) + (if polys[|polys| - 1].valid then Fan(polys[|polys| - 1].v, 1) else [])
  }

  /** What the indexed quads draw. */
  function QuadTriangles(polys: seq<Poly>): seq<Triangle>
    requires forall p :: p in polys ==> Drawable(p)
  {
    if polys == [] then []
    else
      var p := polys[|polys| - 1];
      assert p in polys;
      QuadTriangles(polys[..|polys| - 1]) + (if p.valid then Fan(p.v, 1) + Tail(p.v) else [])
  }

  function Solid(ts: seq<Triangle>): seq<Triangle> {
    if ts == [] then []
    else Solid(ts[..|ts| - 1]) + (if Degenerate(ts[|ts| - 1]) then [] else [ts[|ts| - 1]])
  }

  lemma {:induction false} SolidConcat(a: seq<Triangle>, b: seq<Triangle>)
    ensures Solid(a + b) == Solid(a) + Solid(b)
    decreases |b|
  {
    if b == [] {
      assert a + b == a;
    } else {
      assert (a + b)[..|a + b| - 1] == a + b[..|b| - 1];
      SolidConcat(a, b[..|b| - 1]);
    }
  }

  /** Apart from degenerate triangles the quads draw exactly the fans, in the same order. */
  lemma {:induction false} QuadsAreFans(polys: seq<Poly>)
    requires forall p :: p in polys ==> Drawable(p)
    ensures Solid(QuadTriangles(polys)) == Solid(Fans(polys))
    decreases |polys|
  {
    if polys != [] {
      var front, p := polys[..|polys| - 1], polys[|polys| - 1];
      assert p in polys;
      QuadsAreFans(front);
      SolidConcat(Fans(front), if p.valid then Fan(p.v, 1) else []);
      SolidConcat(QuadTriangles(front), if p.valid then Fan(p.v, 1) + Tail(p.v) else []);
      if p.valid {
        SolidConcat(Fan(p.v, 1), Tail(p.v));
        assert Tail(p.v) != [] ==> Tail(p.v)[..0] == [] && Degenerate(Tail(p.v)[0]);
        assert Solid(Tail(p.v)) == [];
      }
    }
  }

  // ---- The static index buffer ----------------------------------------------

  /** The six entries of quad q: {4q, 4q+1, 4q+2, 4q, 4q+2, 4q+3}. */
  ghost predicate QuadEntries(indices: seq<nat>, q: nat) {
    && 6 * q + 6 <= |indices|
    && indices[6 * q] == 4 * q && indices[6 * q + 1] == 4 * q + 1 && indices[6 * q + 2] == 4 * q + 2
    && indices[6 * q + 3] == 4 * q && indices[6 * q + 4] == 4 * q + 2 && indices[6 * q + 5] == 4 * q + 3
  }

  ghost predicate QuadIndices(indices: seq<nat>) {
    && |indices| == QUAD_INDICES
    && (forall q: nat :: q < INDEXED_LIMIT / 4 ==> QuadEntries(indices, q))
    && (forall k :: 0 <= k < |indices| ==> indices[k] < 0x1_0000)
  }

  /** The buffer gl_init fills; every entry fits in 16 bits. */
  method BuildIndices() returns (indices: array<nat>)
    ensures QuadIndices(indices[..])
  {
    indices := new nat[QUAD_INDICES](_ => 0);
    var q := 0;
    while q < INDEXED_LIMIT / 4
      invariant 0 <= q <= INDEXED_LIMIT / 4
      invariant forall p: nat :: p < q ==> QuadEntries(indices[..], p)
      invariant forall k :: 0 <= k < indices.Length ==> indices[k] < 0x1_0000
    {
      FillQuad(indices, q);
      q := q + 1;
    }
  }

  method FillQuad(indices: array<nat>, q: nat)
    requires indices.Length == QUAD_INDICES && q < INDEXED_LIMIT / 4
    requires forall k :: 0 <= k < indices.Length ==> indices[k] < 0x1_0000
    modifies indices
    ensures QuadEntries(indices[..], q)
    ensures forall p: nat :: p < q && old(QuadEntries(indices[..], p)) ==> QuadEntries(indices[..], p)
    ensures forall k :: 0 <= k < indices.Length ==> indices[k] < 0x1_0000
  {
    var v := q * 4;
    indices[q * 6], indices[q * 6 + 1], indices[q * 6 + 2] := v, v + 1, v + 2;
    indices[q * 6 + 3], indices[q * 6 + 4], indices[q * 6 + 5] := v, v + 2, v + 3;
  }

  /** glDrawElements over the entries of n quads from quad q0: three vertices a triangle, through the indices. */
  function DrawElements(indices: seq<nat>, data: seq<Vertex>, q0: nat, n: nat): seq<Triangle>
    requires 6 * (q0 + n) <= |indices|
    requires forall k :: 6 * q0 <= k < 6 * (q0 + n) ==> indices[k] < |data|
    decreases n
  {
    if n == 0 then []
    else
      var k := 6 * (q0 + n - 1);
      DrawElements(indices, data, q0, n - 1) + DrawSix(indices, data, k)
  }

  /** The two triangles of six entries. */
  function DrawSix(indices: seq<nat>, data: seq<Vertex>, k: nat): seq<Triangle>
    requires k + 6 <= |indices| && forall j :: k <= j < k + 6 ==> indices[j] < |data|
  {
    [Triangle(data[indices[k]], data[indices[k + 1]], data[indices[k + 2]]),
     Triangle(data[indices[k + 3]], data[indices[k + 4]], data[indices[k + 5]])]
  }

  lemma ExpandLast(s: seq<Vertex>)
    requires |s| % 4 == 0 && s != []
    ensures var n := |s| - 4;
            Expand(s) == Expand(s[..n]) + [Triangle(s[n], s[n + 1], s[n + 2]), Triangle(s[n], s[n + 2], s[n + 3])]
  {
    var n := |s| - 4;
    assert s == s[..n] + s[n..];
    ExpandConcat(s[..n], s[n..]);
    assert s[n..][4..] == [];
  }

  /** The indices of n quads from quad q0 lie inside their own vertices. */
  lemma {:induction false} IndicesInside(indices: seq<nat>, q0: nat, n: nat)
    requires QuadIndices(indices) && q0 + n <= INDEXED_LIMIT / 4
    ensures forall k :: 6 * q0 <= k < 6 * (q0 + n) ==> 4 * q0 <= indices[k] < 4 * (q0 + n)
    decreases n
  {
    if n > 0 {
      IndicesInside(indices, q0, n - 1);
      assert QuadEntries(indices, q0 + n - 1);
    }
  }

  function QuadAt(data: seq<Vertex>, b: nat): seq<Triangle>
    requires b + 4 <= |data|
  {
    [Triangle(data[b], data[b + 1], data[b + 2]), Triangle(data[b], data[b + 2], data[b + 3])]
  }

  /** The six entries of quad q draw the quad's two triangles. */
  lemma EntriesOfQuad(indices: seq<nat>, data: seq<Vertex>, q: nat)
    requires QuadIndices(indices) && q < INDEXED_LIMIT / 4 && 4 * q + 4 <= |data|
    requires forall j :: 6 * q <= j < 6 * q + 6 ==> indices[j] < |data|
    ensures DrawSix(indices, data, 6 * q) == QuadAt(data, 4 * q)
  {
    assert QuadEntries(indices, q);
  }

  lemma LastDrawn(indices: seq<nat>, data: seq<Vertex>, q0: nat, n: nat)
    requires QuadIndices(indices) && 0 < n && q0 + n <= INDEXED_LIMIT / 4 && 4 * (q0 + n) <= |data|
    requires forall k :: 6 * q0 <= k < 6 * (q0 + n) ==> indices[k] < |data|
    ensures DrawElements(indices, data, q0, n) ==
            DrawElements(indices, data, q0, n - 1) + QuadAt(data, 4 * (q0 + n - 1))
  {
    EntriesOfQuad(indices, data, q0 + n - 1);
  }

  lemma LastQuad(data: seq<Vertex>, q0: nat, n: nat)
    requires 0 < n && 4 * (q0 + n) <= |data|
    ensures Expand(data[4 * q0..4 * (q0 + n)]) ==
            Expand(data[4 * q0..4 * (q0 + n - 1)]) + QuadAt(data, 4 * (q0 + n - 1))
  {
    var a, b := 4 * q0, 4 * (q0 + n - 1);
    var s := data[a..b + 4];
    assert |s| == 4 * n;
    assert s[..|s| - 4] == data[a..b];
    ExpandLast(s);
  }

  /** draw_quads: the index buffer turns the vertices of quads q0 to q0 + n - 1 into their triangles. */
  lemma {:induction false} DrawQuads(indices: seq<nat>, data: seq<Vertex>, q0: nat, n: nat)
    requires QuadIndices(indices) && q0 + n <= INDEXED_LIMIT / 4 && 4 * (q0 + n) <= |data|
    ensures forall k :: 6 * q0 <= k < 6 * (q0 + n) ==> indices[k] < |data|
    ensures DrawElements(indices, data, q0, n) == Expand(data[4 * q0..4 * (q0 + n)])
    decreases n
  {
    IndicesInside(indices, q0, n);
    if n == 0 {
      assert data[4 * q0..4 * (q0 + n)] == [];
    } else {
      DrawQuads(indices, data, q0, n - 1);
      LastDrawn(indices, data, q0, n);
      LastQuad(data, q0, n);
    }
  }

  // ---- The frame's vertices and commands ------------------------------------

  /** A draw command: quads through the index buffer, or plain triangles. */
  datatype Cmd = Cmd(first: nat, count: nat, quads: bool)

  /** Plain triangles: three vertices each. */
  function Triples(s: seq<Vertex>): seq<Triangle> {
    if |s| < 3 then []
    else Triples(s[..|s| - 3]) + [Triangle(s[|s| - 3], s[|s| - 2], s[|s| - 1])]
  }

  ghost predicate InFrame(c: Cmd, verts: seq<Vertex>) {
    && c.first + c.count <= |verts|
    && (c.quads ==> c.first % 4 == 0 && c.count % 4 == 0 && c.first + c.count <= INDEXED_LIMIT)
  }

  /** What a command draws from the frame's vertices. */
  ghost function CmdTriangles(c: Cmd, verts: seq<Vertex>): seq<Triangle>
    requires InFrame(c, verts)
  {
    var s := verts[c.first..c.first + c.count];
    if c.quads then Expand(s) else Triples(s)
  }

  /** At most one command was added, and it lies in the frame from a vertex on. */
  ghost predicate OneMore(was: seq<Cmd>, cmds: seq<Cmd>, verts: seq<Vertex>, from: nat) {
    cmds == was || (|cmds| == |was| + 1 && cmds[..|was|] == was && InFrame(cmds[|was|], verts) && cmds[|was|].first >= from)
  }

  /** What the added command draws. */
  ghost function Added(was: seq<Cmd>, cmds: seq<Cmd>, verts: seq<Vertex>, from: nat): seq<Triangle>
    requires OneMore(was, cmds, verts, from)
  {
    if cmds == was then [] else CmdTriangles(cmds[|was|], verts)
  }

  /** Vertices a batch reserves for its quads. */
  function Reserved(polys: seq<Poly>): nat {
    if polys == [] then 0
    else Reserved(polys[..|polys| - 1]) + (if |polys[|polys| - 1].v| > 0 then (|polys[|polys| - 1].v| - 1) / 2 else 0)
  }

  lemma {:induction false} ReservedMonotone(polys: seq<Poly>, i: nat)
    requires i <= |polys|
    ensures Reserved(polys[..i]) <= Reserved(polys)
    decreases |polys|
  {
    if i < |polys| {
      ReservedMonotone(polys[..|polys| - 1], i);
      assert polys[..|polys| - 1][..i] == polys[..i];
    } else {
      assert polys[..i] == polys;
    }
  }

  lemma ReservedStep(polys: seq<Poly>, i: nat)
    requires i < |polys| && |polys[i].v| >= 3
    ensures Reserved(polys[..i + 1]) == Reserved(polys[..i]) + (|polys[i].v| - 1) / 2
    ensures QuadVertices(polys[..i + 1]) == QuadVertices(polys[..i]) + (if polys[i].valid then FanQuads(polys[i].v, 1) else [])
  {
    assert polys[..i + 1][..i] == polys[..i];
  }

  /** What the commands from the k-th on draw, one after the other. */
  ghost function FrameTriangles(cmds: seq<Cmd>, verts: seq<Vertex>, k: nat): seq<Triangle>
    requires forall j :: 0 <= j < |cmds| ==> InFrame(cmds[j], verts)
  {
    if |cmds| <= k then []
    else FrameTriangles(cmds[..|cmds| - 1], verts, k) + CmdTriangles(cmds[|cmds| - 1], verts)
  }

  /** Later vertices and one more command change nothing that was already to be drawn. */
  lemma {:induction false} FrameKept(cmds: seq<Cmd>, verts: seq<Vertex>, more: seq<Vertex>, k: nat)
    requires verts <= more && forall j :: 0 <= j < |cmds| ==> InFrame(cmds[j], verts)
    ensures forall j :: 0 <= j < |cmds| ==> InFrame(cmds[j], more)
    ensures FrameTriangles(cmds, more, k) == FrameTriangles(cmds, verts, k)
    decreases |cmds|
  {
    if |cmds| > k {
      var c := cmds[|cmds| - 1];
      FrameKept(cmds[..|cmds| - 1], verts, more, k);
      assert more[c.first..c.first + c.count] == verts[c.first..c.first + c.count];
    }
  }

  lemma FrameGrows(was: seq<Cmd>, verts: seq<Vertex>, cmds: seq<Cmd>, more: seq<Vertex>, k: nat, from: nat)
    requires verts <= more && k <= |was|
    requires forall j :: 0 <= j < |was| ==> InFrame(was[j], verts)
    requires OneMore(was, cmds, more, from)
    ensures forall j :: 0 <= j < |cmds| ==> InFrame(cmds[j], more)
    ensures FrameTriangles(cmds, more, k) == FrameTriangles(was, verts, k) + Added(was, cmds, more, from)
  {
    FrameKept(was, verts, more, k);
  }

  /** Batch after batch, the fans of the valid polygons. */
  function AllFans(batches: seq<seq<Poly>>): seq<Triangle> {
    if batches == [] then [] else AllFans(batches[..|batches| - 1]) + Fans(batches[|batches| - 1])
  }

  lemma CmdQuads(indices: seq<nat>, c: Cmd, verts: seq<Vertex>, q0: nat, n: nat)
    requires QuadIndices(indices) && InFrame(c, verts) && c.quads && c.first == 4 * q0 && c.count == 4 * n
    ensures forall k :: 6 * q0 <= k < 6 * (q0 + n) ==> indices[k] < |verts|
    ensures DrawElements(indices, verts, q0, n) == CmdTriangles(c, verts)
  {
    DrawQuads(indices, verts, q0, n);
  }

  /** An indexed command goes through the static index buffer: draw_quads gives its triangles. */
  lemma CmdThroughIndices(indices: seq<nat>, c: Cmd, verts: seq<Vertex>)
    requires QuadIndices(indices) && InFrame(c, verts) && c.quads
    ensures forall k :: 6 * (c.first / 4) <= k < 6 * (c.first / 4 + c.count / 4) ==> indices[k] < |verts|
    ensures DrawElements(indices, verts, c.first / 4, c.count / 4) == CmdTriangles(c, verts)
  {
    CmdQuads(indices, c, verts, c.first / 4, c.count / 4);
  }

  lemma FanQuadsStep(v: seq<Vertex>, a: nat, done: seq<Vertex>)
    requires 1 <= a && a + 1 < |v|
    ensures var quad := [v[0], v[a], v[a + 1], v[Min(a + 2, |v| - 1)]];
            done + quad + FanQuads(v, a + 2) == done + FanQuads(v, a)
  {
  }

  lemma TripleStep(polys: seq<Poly>, i: nat, front: seq<Vertex>)
    requires i < |polys|
    ensures front + TripleVertices(polys[..i + 1])
         == front + TripleVertices(polys[..i]) + (if polys[i].valid then FanTriples(polys[i].v, 1) else [])
  {
    assert polys[..i + 1][..i] == polys[..i];
  }

  /** A command over the quads of a batch draws its fans. */
  lemma QuadCmd(was: seq<Cmd>, verts: seq<Vertex>, first: nat, written: nat, polys: seq<Poly>)
    requires forall p :: p in polys ==> Drawable(p)
    requires first + written == |verts| <= INDEXED_LIMIT && verts[first..] == QuadVertices(polys) && first % 4 == 0
    ensures var cmds := if written > 0 then was + [Cmd(first, written, true)] else was;
            OneMore(was, cmds, verts, first) && Solid(Added(was, cmds, verts, first)) == Solid(Fans(polys))
  {
    QuadsDraw(polys);
    assert verts[first..first + written] == verts[first..];
    if written > 0 {
      var cmds := was + [Cmd(first, written, true)];
      assert cmds[..|was|] == was && cmds[|was|] == Cmd(first, written, true);
      assert CmdTriangles(cmds[|was|], verts) == Expand(QuadVertices(polys));
    }
  }

  lemma Regrouped<T>(a: seq<T>, b: seq<T>, c: seq<T>)
    ensures a + b + c == a + (b + c)
  {
  }

  class Recorder {
    var data: array<Vertex>      // VertexArena::data
    var size: nat                // VertexArena::size
    var cmds: seq<Cmd>
    const ibo: bool              // the index buffer exists
    var dropped: nat             // stats.dropped_vertices

    ghost predicate Valid()
      reads this, data
    {
      size <= data.Length
    }

    ghost function Verts(): seq<Vertex>
      reads this, data
      requires Valid()
    {
      data[..size]
    }

    constructor (ibo: bool)
      ensures Valid() && fresh(data) && size == 0 && cmds == [] && this.ibo == ibo && dropped == 0
    {
      data := new Vertex[0];
      size, cmds, dropped, this.ibo := 0, [], 0, ibo;
    }

    /** Slots at the end of the arena, moving it to a larger block when it is full; false without memory. */
    method Append(n: nat) returns (ok: bool)
      requires Valid()
      modifies this`data, this`size
      ensures Valid() && size == if ok then old(size) + n else old(size)
      ensures data[..old(size)] == old(Verts())
      ensures data == old(data) || fresh(data)
    {
      if size + n > data.Length {
        var memory: bool :| true;
        if !memory { return false; }
        var was, kept := data, size;
        var doubled := if data.Length == 0 then 0x1_0000 else data.Length * 2;
        var capacity := if doubled < size + n then size + n else doubled;
        var bigger := new Vertex[capacity](i requires 0 <= i reads this, data, was =>
          if i < kept && i < was.Length then was[i] else Vertex(0));
        data := bigger;
      }
      size := size + n;
      ok := true;
    }

    /** Slots for indexed quads, starting on a multiple of 4, under the 16-bit limit. */
    method AppendQuads(quads: nat) returns (ok: bool, first: nat)
      requires Valid()
      modifies this`data, this`size
      ensures Valid() && old(size) <= size && data[..old(size)] == old(Verts())
      ensures data == old(data) || fresh(data)
      ensures ok ==> ibo && quads > 0 && first % 4 == 0 && old(size) <= first && size == first + quads * 4 <= INDEXED_LIMIT
      ensures !ok ==> size == old(size)
    {
      first := 0;
      if !ibo || quads == 0 { return false, 0; }
      var pad := (4 - size % 4) % 4;
      if size + pad + quads * 4 > INDEXED_LIMIT { return false, 0; }
      ok := Append(pad + quads * 4);
      if ok { first := size - quads * 4; }
    }

    /** write_fan_quads, at slot `at`. */
    method WriteFanQuads(at: nat, v: seq<Vertex>) returns (written: nat)
      requires Valid() && |v| >= 3 && at + (|v| - 1) / 2 * 4 <= size
      modifies data
      ensures written == (|v| - 1) / 2 * 4
      ensures data[..at] == old(data[..at])
      ensures data[at..at + written] == FanQuads(v, 1)
    {
      QuadCount(v, 1);
      written := 0;
      var a := 1;
      ghost var done := [];
      while a + 1 < |v|
        invariant 1 <= a <= |v| + 1 && written == |done|
        invariant done + FanQuads(v, a) == FanQuads(v, 1)
        invariant data[..at] == old(data[..at])
        invariant data[at..at + written] == done
        decreases |v| - a
        modifies data
      {
        ghost var quad := [v[0], v[a], v[a + 1], v[Min(a + 2, |v| - 1)]];
        FanQuadsStep(v, a, done);
        WriteQuad(at, at + written, [v[0], v[a], v[a + 1], v[Min(a + 2, |v| - 1)]]);
        done := done + quad;
        written := written + 4;
        a := a + 2;
      }
      assert FanQuads(v, a) == [];
    }

    /** One quad at slot d, behind what was written from slot `at` on. */
    method WriteQuad(ghost at: nat, d: nat, quad: seq<Vertex>)
      requires at <= d && d + 4 <= data.Length && |quad| == 4
      modifies data
      ensures data[..at] == old(data[..at]) && data[at..d + 4] == old(data[at..d]) + quad
    {
      data[d], data[d + 1], data[d + 2], data[d + 3] := quad[0], quad[1], quad[2], quad[3];
    }

    method CountQuads(polys: seq<Poly>) returns (quads: nat)
      requires forall p :: p in polys ==> Drawable(p)
      ensures quads == Reserved(polys)
    {
      quads := 0;
      var i := 0;
      while i < |polys|
        invariant 0 <= i <= |polys| && quads == Reserved(polys[..i])
      {
        assert polys[..i + 1][..i] == polys[..i];
        assert polys[i] in polys;
        quads := quads + (|polys[i].v| - 1) / 2;
        i := i + 1;
      }
      assert polys[..|polys|] == polys;
    }

    /** One more polygon's quads behind those from `first` to `to`. */
    method AddQuads(first: nat, to: nat, v: seq<Vertex>) returns (end: nat)
      requires Valid() && |v| >= 3 && first <= to && to + (|v| - 1) / 2 * 4 <= size
      modifies data
      ensures end == to + (|v| - 1) / 2 * 4
      ensures data[..first] == old(data[..first])
      ensures data[first..end] == old(data[first..to]) + FanQuads(v, 1)
    {
      ghost var front := data[..to];
      var n := WriteFanQuads(to, v);
      end := to + n;
      Joined(data[..], first, to, end, front);
      assert data[..first] == front[..first];
    }

    /** The quads of the valid polygons into the slots from `first` on. */
    method WriteQuads(polys: seq<Poly>, first: nat) returns (to: nat)
      requires Valid() && forall p :: p in polys ==> Drawable(p)
      requires first + 4 * Reserved(polys) <= size
      modifies data
      ensures first <= to <= first + 4 * Reserved(polys)
      ensures data[..first] == old(data[..first])
      ensures data[first..to] == QuadVertices(polys)
    {
      to := first;
      var i := 0;
      while i < |polys|
        invariant 0 <= i <= |polys|
        invariant first <= to <= first + 4 * Reserved(polys[..i])
        invariant Reserved(polys[..i]) <= Reserved(polys)
        invariant data[..first] == old(data[..first])
        invariant data[first..to] == QuadVertices(polys[..i])
        modifies data
      {
        assert polys[..i + 1][..i] == polys[..i] && polys[i] in polys;
        ReservedMonotone(polys, i + 1);
        ReservedStep(polys, i);
        if polys[i].valid {
          to := AddQuads(first, to, polys[i].v);
        }
        i := i + 1;
      }
      assert polys[..|polys|] == polys;
    }

    method AddTriple(at: nat, d: nat, a: Vertex, b: Vertex, c: Vertex)
      requires at <= d && d + 3 <= data.Length
      modifies data
      ensures data[..at] == old(data[..at])
      ensures data[at..d + 3] == old(data[at..d]) + [a, b, c]
    {
      data[d], data[d + 1], data[d + 2] := a, b, c;
    }

    /** The fan of one polygon as plain triangles, from slot `at` on. */
    method WriteTriangles(at: nat, v: seq<Vertex>)
      requires Valid() && |v| >= 3 && at + (|v| - 2) * 3 <= size
      modifies data
      ensures data[..at] == old(data[..at])
      ensures data[at..at + (|v| - 2) * 3] == FanTriples(v, 1)
    {
      var i, d := 1, at;
      ghost var done := [];
      while i + 1 < |v|
        invariant 1 <= i <= |v| - 1 && d == at + 3 * (i - 1) && |done| == 3 * (i - 1)
        invariant data[..at] == old(data[..at])
        invariant data[at..d] == done && done + FanTriples(v, i) == FanTriples(v, 1)
        modifies data
      {
        ghost var three := [v[0], v[i], v[i + 1]];
        AddTriple(at, d, v[0], v[i], v[i + 1]);
        Regrouped(done, three, FanTriples(v, i + 1));
        done := done + three;
        i, d := i + 1, d + 3;
      }
      assert FanTriples(v, i) == [];
    }

    /** One polygon of the fallback: appended, or dropped without memory. */
    method WriteFan(v: seq<Vertex>) returns (ok: bool)
      requires Valid() && |v| >= 3
      modifies this`data, this`size, this`dropped, data
      ensures Valid() && size >= old(size)
      ensures data[..old(size)] == old(Verts()) && (data == old(data) || fresh(data))
      ensures ok ==> dropped == old(dropped) && Verts() == old(Verts()) + FanTriples(v, 1)
      ensures !ok ==> dropped > old(dropped) && size == old(size)
    {
      var at := size;
      var count := (|v| - 2) * 3;
      ok := Append(count);
      if !ok {
        dropped := dropped + count;
        return;
      }
      WriteTriangles(at, v);
      assert data[..size] == data[..at] + data[at..size];
    }

    /** The fallback: every valid polygon's fan, as long as there is memory. */
    method WriteFans(polys: seq<Poly>)
      requires Valid() && forall p :: p in polys ==> Drawable(p)
      modifies this`data, this`size, this`dropped, data
      ensures Valid() && size >= old(size)
      ensures data[..old(size)] == old(Verts()) && (data == old(data) || fresh(data))
      ensures dropped >= old(dropped)
      ensures dropped == old(dropped) ==> Verts() == old(Verts()) + TripleVertices(polys)
    {
      var i := 0;
      while i < |polys|
        invariant 0 <= i <= |polys|
        invariant Valid() && size >= old(size)
        invariant data[..old(size)] == old(Verts()) && (data == old(data) || fresh(data))
        invariant dropped >= old(dropped)
        invariant dropped == old(dropped) ==> Verts() == old(Verts()) + TripleVertices(polys[..i])
      {
        assert polys[i] in polys;
        TripleStep(polys, i, old(Verts()));
        if polys[i].valid {
          ghost var verts := Verts();
          var ok := WriteFan(polys[i].v);
          assert data[..old(size)] == verts[..old(size)];
        }
        i := i + 1;
      }
      assert polys[..|polys|] == polys;
    }

    /**
     flush_batches for one batch: indexed quads when they fit, plain triangles when
     not. What its command draws is the fans of its valid polygons in order, apart
     from degenerate triangles, unless memory ran out; and nothing earlier in the
     frame changes.
     */
    method FlushBatch(polys: seq<Poly>)
      requires Valid() && forall p :: p in polys ==> Drawable(p)
      modifies this`data, this`size, this`cmds, this`dropped, data
      ensures Valid() && size >= old(size) && dropped >= old(dropped)
      ensures data[..old(size)] == old(Verts()) && (data == old(data) || fresh(data))
      ensures OneMore(old(cmds), cmds, Verts(), old(size))
      ensures dropped == old(dropped) ==> Solid(Added(old(cmds), cmds, Verts(), old(size))) == Solid(Fans(polys))
    {
      if polys == [] { return; }
      var quads := CountQuads(polys);
      var indexed, first := AppendQuads(quads);
      if indexed {
        ghost var kept := data[..first];
        FlushQuads(polys, first);
        assert data[..old(size)] == kept[..old(size)];
      } else {
        FlushPlain(polys);
      }
    }

    /** Every command so far lies inside the frame's vertices. */
    ghost predicate CmdsOk()
      reads this, data
      requires Valid()
    {
      forall k :: 0 <= k < |cmds| ==> InFrame(cmds[k], Verts())
    }

    /** One more batch: what the frame draws from command k on grows by the batch's fans. */
    method AddBatch(polys: seq<Poly>, ghost k: nat, ghost dropped0: nat, ghost fans: seq<Triangle>)
      requires Valid() && CmdsOk() && k <= |cmds| && dropped >= dropped0
      requires forall p :: p in polys ==> Drawable(p)
      requires dropped == dropped0 ==> Solid(FrameTriangles(cmds, Verts(), k)) == Solid(fans)
      modifies this`data, this`size, this`cmds, this`dropped, data
      ensures Valid() && CmdsOk() && dropped >= old(dropped) && (data == old(data) || fresh(data))
      ensures old(cmds) <= cmds && old(Verts()) <= Verts()
      ensures dropped == dropped0 ==> Solid(FrameTriangles(cmds, Verts(), k)) == Solid(fans + Fans(polys))
    {
      ghost var verts, was := Verts(), cmds;
      FlushBatch(polys);
      assert verts <= Verts();
      FrameGrows(was, verts, cmds, Verts(), k, old(size));
      ghost var more := Added(was, cmds, Verts(), old(size));
      SolidConcat(fans, Fans(polys));
      SolidConcat(FrameTriangles(was, verts, k), more);
    }

    /**
     flush_batches: unless memory runs out, the commands it adds draw the fans of the
     valid polygons of every batch, batch after batch, apart from degenerate triangles.
     */
    method FlushBatches(batches: seq<seq<Poly>>)
      requires Valid() && CmdsOk()
      requires forall b, p :: b in batches && p in b ==> Drawable(p)
      modifies this`data, this`size, this`cmds, this`dropped, data
      ensures Valid() && CmdsOk() && old(cmds) <= cmds
      ensures old(Verts()) <= Verts()
      ensures dropped == old(dropped) ==>
        Solid(FrameTriangles(cmds, Verts(), |old(cmds)|)) == Solid(AllFans(batches))
    {
      var bi := 0;
      while bi < |batches|
        invariant 0 <= bi <= |batches|
        invariant Valid() && CmdsOk() && old(cmds) <= cmds && old(Verts()) <= Verts()
        invariant data == old(data) || fresh(data)
        invariant dropped >= old(dropped)
        invariant dropped == old(dropped) ==>
          Solid(FrameTriangles(cmds, Verts(), |old(cmds)|)) == Solid(AllFans(batches[..bi]))
      {
        assert batches[bi] in batches;
        assert batches[..bi + 1][..bi] == batches[..bi];
        AddBatch(batches[bi], |old(cmds)|, old(dropped), AllFans(batches[..bi]));
        bi := bi + 1;
      }
      assert batches[..|batches|] == batches;
    }

    /** The batch as indexed quads in the slots reserved from `first` on; slots of invalid polygons are given back. */
    method FlushQuads(polys: seq<Poly>, first: nat)
      requires Valid() && forall p :: p in polys ==> Drawable(p)
      requires first % 4 == 0 && first + 4 * Reserved(polys) <= size <= INDEXED_LIMIT
      modifies this`size, this`cmds, data
      ensures Valid() && size >= first
      ensures data[..first] == old(data[..first]) && data == old(data)
      ensures OneMore(old(cmds), cmds, Verts(), first)
      ensures Solid(Added(old(cmds), cmds, Verts(), first)) == Solid(Fans(polys))
    {
      var to := WriteQuads(polys, first);
      var written := to - first;
      size := to;
      QuadCmd(cmds, Verts(), first, written, polys);
      if written > 0 {
        cmds := cmds + [Cmd(first, written, true)];
      }
    }

    /** The batch as plain triangles at the end of the arena. */
    method FlushPlain(polys: seq<Poly>)
      requires Valid() && forall p :: p in polys ==> Drawable(p)
      modifies this`data, this`size, this`cmds, this`dropped, data
      ensures Valid() && size >= old(size) && dropped >= old(dropped)
      ensures data[..old(size)] == old(Verts()) && (data == old(data) || fresh(data))
      ensures OneMore(old(cmds), cmds, Verts(), old(size))
      ensures dropped == old(dropped) ==> Solid(Added(old(cmds), cmds, Verts(), old(size))) == Solid(Fans(polys))
    {
      var first := size;
      WriteFans(polys);
      TriplesDraw(polys);
      if size > first {
        cmds := cmds + [Cmd(first, size - first, false)];
        assert dropped == old(dropped) ==> Verts()[first..size] == TripleVertices(polys);
      }
    }
  }

  /** Two neighbouring pieces of an array are one piece. */
  lemma Joined(data: seq<Vertex>, a: nat, b: nat, c: nat, front: seq<Vertex>)
    requires a <= b <= c <= |data| && data[..b] == front
    ensures data[a..c] == front[a..] + data[b..c]
  {
  }

  function ValidQuads(polys: seq<Poly>): nat {
    if polys == [] then 0
    else
      var p := polys[|polys| - 1];
      ValidQuads(polys[..|polys| - 1]) + (if p.valid && |p.v| > 0 then (|p.v| - 1) / 2 else 0)
  }

  lemma {:induction false} QuadVerticesLength(polys: seq<Poly>)
    requires forall p :: p in polys ==> Drawable(p)
    ensures |QuadVertices(polys)| == 4 * ValidQuads(polys)
    decreases |polys|
  {
    if polys != [] {
      assert polys[|polys| - 1] in polys;
      QuadVerticesLength(polys[..|polys| - 1]);
      QuadCount(polys[|polys| - 1].v, 1);
    }
  }

  /** The written quads draw the valid polygons' fans, apart from degenerate triangles. */
  lemma {:induction false} QuadVerticesDraw(polys: seq<Poly>)
    requires forall p :: p in polys ==> Drawable(p)
    ensures Expand(QuadVertices(polys)) == QuadTriangles(polys)
    decreases |polys|
  {
    if polys != [] {
      var front, p := polys[..|polys| - 1], polys[|polys| - 1];
      assert p in polys;
      QuadVerticesDraw(front);
      QuadVerticesLength(front);
      FourFold(|QuadVertices(front)|, ValidQuads(front));
      if p.valid {
        ExpandConcat(QuadVertices(front), FanQuads(p.v, 1));
        QuadsDrawFan(p.v, 1);
      } else {
        assert QuadVertices(polys) == QuadVertices(front);
      }
    }
  }

  lemma QuadsDraw(polys: seq<Poly>)
    requires forall p :: p in polys ==> Drawable(p)
    ensures |QuadVertices(polys)| % 4 == 0
    ensures Solid(Expand(QuadVertices(polys))) == Solid(Fans(polys))
    ensures QuadVertices(polys) == [] ==> Solid(Fans(polys)) == []
  {
    QuadVerticesDraw(polys);
    QuadVerticesLength(polys);
    FourFold(|QuadVertices(polys)|, ValidQuads(polys));
    QuadsAreFans(polys);
    if QuadVertices(polys) == [] { assert Expand([]) == []; }
  }

  lemma FourFold(n: nat, k: nat)
    requires n == 4 * k
    ensures n % 4 == 0
  {
  }

  lemma {:induction false} FanTriplesDraw(v: seq<Vertex>, i: nat)
    ensures |FanTriples(v, i)| % 3 == 0
    ensures Triples(FanTriples(v, i)) == Fan(v, i)
    decreases |v| - i
  {
    if i + 1 < |v| {
      FanTriplesDraw(v, i + 1);
      TriplesConcat([v[0], v[i], v[i + 1]], FanTriples(v, i + 1));
      assert [v[0], v[i], v[i + 1]][..0] == [];
    }
  }

  lemma {:induction false} TriplesDraw(polys: seq<Poly>)
    ensures |TripleVertices(polys)| % 3 == 0
    ensures Triples(TripleVertices(polys)) == Fans(polys)
    decreases |polys|
  {
    if polys != [] {
      var front, p := polys[..|polys| - 1], polys[|polys| - 1];
      TriplesDraw(front);
      if p.valid {
        FanTriplesDraw(p.v, 1);
        SumOfThrees(|TripleVertices(front)|, |FanTriples(p.v, 1)|);
        TriplesConcat(TripleVertices(front), FanTriples(p.v, 1));
      } else {
        assert TripleVertices(polys) == TripleVertices(front) && Fans(polys) == Fans(front);
      }
    }
  }

  lemma SumOfThrees(a: nat, b: nat)
    requires a % 3 == 0 && b % 3 == 0
    ensures (a + b) % 3 == 0
  {
  }

  lemma {:induction false} TriplesConcat(s: seq<Vertex>, t: seq<Vertex>)
    requires |s| % 3 == 0 && |t| % 3 == 0
    ensures Triples(s + t) == Triples(s) + Triples(t)
    decreases |t|
  {
    if t == [] {
      assert s + t == s;
    } else {
      var n := |t| - 3;
      TriplesConcat(s, t[..n]);
      assert (s + t)[..|s + t| - 3] == s + t[..n];
    }
  }
}
