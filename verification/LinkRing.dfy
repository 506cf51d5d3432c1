/**
 The ring: cabinet i sends to cabinet Next(i) over a FIFO wire. Cabinet 0 is the
 master, the others are slaves and relays. A step is one small step of one
 cabinet, so a run is any interleaving of the cabinets' ticks, cut as finely as
 between two messages; a cabinet may lose the link at any moment once it is up.

 `passed` and `taken` record what happened; no step reads them.
 */
module LinkRing {
  import opened LinkNode

  datatype Ring = Ring(
    roles: seq<Role>,
    nodes: seq<Node>,
    wires: seq<seq<Frame>>,   // wires[i]: from cabinet i to cabinet Next(i)
    passed: seq<nat>,         // vsync messages cabinet i has sent
    taken: seq<nat>)          // vsync messages cabinet i has received
  {
    function Next(i: nat): nat { if i + 1 == |roles| then 0 else i + 1 }
    function Prev(i: nat): nat requires 0 < |roles| { if i == 0 then |roles| - 1 else i - 1 }
  }

  ghost predicate Shaped(r: Ring) {
    && 0 < |r.roles|
    && |r.nodes| == |r.roles| && |r.wires| == |r.roles|
    && |r.passed| == |r.roles| && |r.taken| == |r.roles|
    && r.roles[0].Master?
    && (forall i :: 0 < i < |r.roles| ==> !r.roles[i].Master?)
  }

  datatype Step =
    | Begin(i: nat)
    | Receive(i: nat)
    | Idle(i: nat)
    | Tick(i: nat)
    | Lose(i: nat)
    | Game(i: nat, block: Block)

  function Vsyncs(w: seq<Frame>): nat {
    if w == [] then 0 else (if Tag(w[0]) == VSYNC then 1 else 0) + Vsyncs(w[1..])
  }

  ghost predicate Enabled(r: Ring, s: Step)
    requires Shaped(r)
  {
    && s.i < |r.nodes|
    && var n := r.nodes[s.i];
       match s
       case Begin(i) => true
       case Receive(i) => n.alive in {0, 1} && r.wires[r.Prev(i)] != []
       case Idle(i) => n.alive == 0
       case Tick(i) => n.alive == 1 && n.timer != 1
       case Lose(i) => n.alive == 1
       case Game(i, block) => true
  }

  /** The new node and the messages of a step. */
  ghost function Effect(r: Ring, s: Step): Act
    requires Shaped(r) && s.i < |r.nodes|
    requires s.Receive? ==> r.wires[r.Prev(s.i)] != []
  {
    var n, role := r.nodes[s.i], r.roles[s.i];
    match s
    case Begin(i) => Act(LinkNode.Begin(n), [])
    case Receive(i) => LinkNode.Receive(role, n, r.wires[r.Prev(i)][0])
    case Idle(i) => LinkNode.Idle(role, n)
    case Tick(i) => LinkNode.Tick(role, n)
    case Lose(i) => Act(LinkNode.Lose(n), [])
    case Game(i, block) => Act(GameWrite(n, block), [])
  }

  /** The wires after cabinet i has taken its message, before it sends. */
  ghost function Drained(r: Ring, s: Step): seq<seq<Frame>>
    requires Shaped(r) && s.i < |r.nodes|
    requires s.Receive? ==> r.wires[r.Prev(s.i)] != []
  {
    if s.Receive? then var p := r.Prev(s.i); r.wires[p := r.wires[p][1..]] else r.wires
  }

  ghost function Apply(r: Ring, s: Step): (r': Ring)
    requires Shaped(r) && s.i < |r.nodes|
    requires s.Receive? ==> r.wires[r.Prev(s.i)] != []
    ensures Shaped(r') && r'.roles == r.roles
  {
    var a, i, w := Effect(r, s), s.i, Drained(r, s);
    var got := if s.Receive? then Vsyncs(r.wires[r.Prev(i)][..1]) else 0;
    r.(nodes := r.nodes[i := a.node],
       wires := w[i := w[i] + a.sent],
       passed := r.passed[i := r.passed[i] + Vsyncs(a.sent)],
       taken := r.taken[i := r.taken[i] + got])
  }

  function ZeroBlock(): Block { seq(FRAME_OFFSET, _ => 0) }

  /** Every cabinet has had its init command and no message has been sent yet. */
  ghost predicate Init(r: Ring) {
    Shaped(r) && forall i: nat :: i < |r.nodes| ==> InitAt(r, i)
  }

  ghost predicate InitAt(r: Ring, i: nat)
    requires Shaped(r) && i < |r.nodes|
  {
    && Fresh(r.nodes[i])
    && r.wires[i] == []
    && r.passed[i] == 0 && r.taken[i] == 0
  }

  /** r' is reached from r by the steps, each enabled when it is taken. */
  ghost predicate Reaches(r: Ring, steps: seq<Step>, r': Ring)
    decreases |steps|
  {
    if steps == [] then r == r'
    else Shaped(r) && Enabled(r, steps[0]) && Reaches(Apply(r, steps[0]), steps[1..], r')
  }

  /** A state of some run. */
  ghost predicate Reachable(r: Ring) {
    exists r0, steps :: Init(r0) && Reaches(r0, steps, r)
  }

  // ---- Sequences of steps ---------------------------------------------------

  lemma HeadAndTail<T>(a: seq<T>, b: seq<T>)
    requires a != []
    ensures (a + b)[0] == a[0] && (a + b)[1..] == a[1..] + b
  {
  }

  lemma {:induction false} ReachesConcat(r: Ring, s1: seq<Step>, m: Ring, s2: seq<Step>, r': Ring)
    requires Reaches(r, s1, m) && Reaches(m, s2, r')
    ensures Reaches(r, s1 + s2, r')
    decreases |s1|
  {
    if s1 == [] {
      assert s1 + s2 == s2;
    } else {
      var n := Apply(r, s1[0]);
      ReachesConcat(n, s1[1..], m, s2, r');
      HeadAndTail(s1, s2);
      assert Reaches(n, (s1 + s2)[1..], r');
    }
  }

  lemma {:induction false} VsyncsConcat(a: seq<Frame>, b: seq<Frame>)
    ensures Vsyncs(a + b) == Vsyncs(a) + Vsyncs(b)
  {
    if a == [] {
      assert a + b == b;
    } else {
      VsyncsConcat(a[1..], b);
      assert (a + b)[1..] == a[1..] + b;
    }
  }
}
