/**
 Frame sync: with framesync_ set on the master there is never more than one vsync
 token in the ring, and the master sends the next one only after the last has
 passed every other cabinet and come back.
 */
module RingVsync {
  import opened LinkNode
  import opened LinkRing
  import opened RingNumbering

  /** Vsync messages on the first n wires. */
  function TotalVsyncs(wires: seq<seq<Frame>>, n: nat): nat
    requires n <= |wires|
  {
    if n == 0 then 0 else TotalVsyncs(wires, n - 1) + Vsyncs(wires[n - 1])
  }

  /** Nothing is lost on a wire, and nothing stays inside a slave or relay. */
  ghost predicate FlowAt(r: Ring, i: nat)
    requires Shaped(r) && i < |r.roles|
  {
    && r.passed[i] == r.taken[r.Next(i)] + Vsyncs(r.wires[i])
    && (i > 0 ==> r.taken[i] == r.passed[i])
  }

  /** The master owes the ring nothing exactly when its timer lets it send. */
  ghost predicate MasterPaced(r: Ring)
    requires Shaped(r)
  {
    var n := r.nodes[0];
    && n.framesync == 1
    && r.passed[0] <= r.taken[0] + 1
    && (n.alive == 0 || (n.alive == 1 && n.timer != 1) ==> r.passed[0] == r.taken[0])
  }

  ghost predicate Flow(r: Ring) {
    Inv(r) && forall i: nat :: i < |r.roles| ==> FlowAt(r, i)
  }

  /** A master that waits has a token out. */
  ghost predicate TokenOut(r: Ring)
    requires Shaped(r)
  {
    r.nodes[0].alive == 1 && r.nodes[0].timer == 1 ==> r.passed[0] > r.taken[0]
  }

  ghost predicate VInv(r: Ring) {
    Flow(r) && MasterPaced(r)
  }

  lemma InitVInv(r: Ring)
    requires Init(r) && Numbered(r.roles) <= 0xfb && r.nodes[0].framesync == 1
    ensures VInv(r)
  {
    InitFlow(r);
    assert InitAt(r, 0);
  }

  lemma OneVsync(f: Frame)
    ensures Vsyncs([f]) == if Tag(f) == VSYNC then 1 else 0
  {
    assert [f][1..] == [];
  }

  lemma TwoVsyncs(f: Frame, g: Frame)
    ensures Vsyncs([f, g]) == (if Tag(f) == VSYNC then 1 else 0) + (if Tag(g) == VSYNC then 1 else 0)
  {
    assert [f, g][1..] == [g];
    OneVsync(g);
  }

  /** A cabinet takes vsync messages only to pass them on; the master takes them and starts them. */
  lemma VsyncEffect(r: Ring, s: Step)
    requires Inv(r) && Enabled(r, s)
    ensures var out := Vsyncs(Effect(r, s).sent);
            var got := if s.Receive? then Vsyncs(r.wires[r.Prev(s.i)][..1]) else 0;
            if s.i > 0 then out == got
            else out == (if s.Tick? then 1 else 0)
  {
    var i := s.i;
    assert NodeOk(r, i);
    match s
    case Receive(i) =>
      HeadFacts(r, i);
      var f := r.wires[r.Prev(i)][0];
      assert r.wires[r.Prev(i)][..1] == [f];
      OneVsync(f);
      if i > 0 {
        SlavesMonotone(r.roles, i, |r.roles|);
        var g := Effect(r, s).sent[0];
        assert Effect(r, s).sent == [g];
        OneVsync(g);
      }
    case Tick(i) =>
      if i == 0 {
        var d, v := Effect(r, s).sent[0], Effect(r, s).sent[1];
        assert Effect(r, s).sent == [d, v];
        TwoVsyncs(d, v);
        assert Tag(d) != VSYNC && Tag(v) == VSYNC;
      }
    case Idle(i) =>
      if Effect(r, s).sent != [] {
        var g := Effect(r, s).sent[0];
        assert Effect(r, s).sent == [g];
        OneVsync(g);
      }
    case _ =>
  }

  /** The wires' share of the books after a step. */
  lemma WireCount(r: Ring, s: Step, j: nat)
    requires Inv(r) && Enabled(r, s) && j < |r.roles|
    ensures var r' := Apply(r, s);
            var out := Vsyncs(Effect(r, s).sent);
            var got := if s.Receive? then Vsyncs(r.wires[r.Prev(s.i)][..1]) else 0;
            Vsyncs(r'.wires[j]) == Vsyncs(r.wires[j])
              + (if j == s.i then out else 0) - (if j == r.Prev(s.i) then got else 0)
  {
    var i, p, w := s.i, r.Prev(s.i), Drained(r, s);
    if s.Receive? && j == p {
      VsyncsConcat(r.wires[p][..1], r.wires[p][1..]);
      assert r.wires[p] == r.wires[p][..1] + r.wires[p][1..];
    }
    VsyncsConcat(w[i], Effect(r, s).sent);
  }

  /** If a vsync message is on the wire into the master, the master is one behind. */
  lemma {:induction false} FlowChain(r: Ring, i: nat)
    requires Shaped(r) && i < |r.roles|
    requires forall j: nat :: j < |r.roles| ==> FlowAt(r, j)
    ensures TotalVsyncs(r.wires, i + 1) + r.taken[r.Next(i)] == r.passed[0]
    ensures r.passed[i] <= r.passed[0]
    decreases i
  {
    assert FlowAt(r, i);
    if i > 0 {
      FlowChain(r, i - 1);
    }
  }

  lemma FlowStep(r: Ring, s: Step)
    requires Flow(r) && Enabled(r, s)
    ensures Flow(Apply(r, s))
  {
    InvStep(r, s);
    VsyncEffect(r, s);
    forall j: nat | j < |r.roles| ensures FlowAt(Apply(r, s), j) {
      assert FlowAt(r, j);
      WireCount(r, s, j);
    }
  }

  lemma TokenOutStep(r: Ring, s: Step)
    requires Flow(r) && TokenOut(r) && Enabled(r, s)
    ensures TokenOut(Apply(r, s))
  {
    if s.i == 0 {
      assert NodeOk(r, 0);
      VsyncEffect(r, s);
      FlowChain(r, |r.roles| - 1);
      if s.Receive? {
        HeadFacts(r, 0);
        assert r.wires[r.Prev(0)][..1] == [r.wires[r.Prev(0)][0]];
        OneVsync(r.wires[r.Prev(0)][0]);
      }
    }
  }

  /** In every state of every run, whatever framesync is. */
  lemma {:induction false} FlowRun(r: Ring, steps: seq<Step>, r': Ring)
    requires Flow(r) && TokenOut(r) && Reaches(r, steps, r')
    ensures Flow(r') && TokenOut(r')
    decreases |steps|
  {
    if steps != [] {
      FlowStep(r, steps[0]);
      TokenOutStep(r, steps[0]);
      FlowRun(Apply(r, steps[0]), steps[1..], r');
    }
  }

  lemma InitFlow(r: Ring)
    requires Init(r) && Numbered(r.roles) <= 0xfb
    ensures Flow(r) && TokenOut(r)
  {
    InitInv(r);
    assert InitAt(r, 0);
    forall i: nat | i < |r.roles| ensures FlowAt(r, i) {
      assert InitAt(r, i) && InitAt(r, r.Next(i));
    }
  }

  /** A master with nothing out may tick. */
  lemma MayTick(r: Ring)
    requires Flow(r) && TokenOut(r) && r.nodes[0].alive == 1
    requires forall i :: 0 <= i < |r.roles| ==> r.wires[i] == []
    ensures Enabled(r, Tick(0))
  {
    FlowChain(r, |r.roles| - 1);
    NoVsyncs(r.wires, |r.wires|);
  }

  lemma {:induction false} NoVsyncs(wires: seq<seq<Frame>>, n: nat)
    requires n <= |wires| && forall i :: 0 <= i < n ==> wires[i] == []
    ensures TotalVsyncs(wires, n) == 0
  {
    if n > 0 { NoVsyncs(wires, n - 1); }
  }

  lemma VInvStep(r: Ring, s: Step)
    requires VInv(r) && Enabled(r, s)
    ensures VInv(Apply(r, s))
  {
    var r' := Apply(r, s);
    FlowStep(r, s);
    VsyncEffect(r, s);
    if s.i == 0 {
      assert NodeOk(r, 0);
      if s.Receive? {
        var p := r.Prev(0);
        HeadFacts(r, 0);
        var f := r.wires[p][0];
        assert r.wires[p][..1] == [f] && [f][1..] == [];
        assert FlowAt(r, p);
        FlowChain(r, p);
        VsyncsConcat([f], r.wires[p][1..]);
        assert r.wires[p] == [f] + r.wires[p][1..];
      }
    }
  }

  lemma {:induction false} VInvRun(r: Ring, steps: seq<Step>, r': Ring)
    requires VInv(r) && Reaches(r, steps, r')
    ensures VInv(r')
    decreases |steps|
  {
    if steps != [] {
      VInvStep(r, steps[0]);
      VInvRun(Apply(r, steps[0]), steps[1..], r');
    }
  }

  /** In every state of every run there is at most one vsync token in the whole ring. */
  lemma AtMostOneVsync(r0: Ring, steps: seq<Step>, r: Ring)
    requires Init(r0) && Numbered(r0.roles) <= 0xfb && r0.nodes[0].framesync == 1
    requires Reaches(r0, steps, r)
    ensures Shaped(r) && TotalVsyncs(r.wires, |r.wires|) <= 1
  {
    InitVInv(r0);
    VInvRun(r0, steps, r);
    FlowChain(r, |r.roles| - 1);
  }

  /**
   Whenever the master may send its next vsync token, every cabinet has passed on
   exactly as many as the master has sent, all of them have come back, and none is on a wire.
   */
  lemma NextVsyncAfterLastCameBack(r0: Ring, steps: seq<Step>, r: Ring, i: nat)
    requires Init(r0) && Numbered(r0.roles) <= 0xfb && r0.nodes[0].framesync == 1
    requires Reaches(r0, steps, r)
    requires Shaped(r) && Enabled(r, Tick(0)) && i < |r.roles|
    ensures r.passed[i] == r.passed[0] == r.taken[0]
    ensures Vsyncs(r.wires[i]) == 0
  {
    InitVInv(r0);
    VInvRun(r0, steps, r);
    FlowChain(r, |r.roles| - 1);
    FlowChain(r, i);
    WiresEmpty(r.wires, |r.wires|, i);
    assert FlowAt(r, i);
    if i > 0 {
      FlowChain(r, i - 1);
      WiresPart(r.wires, i, |r.wires|);
    }
  }

  lemma {:induction false} WiresPart(wires: seq<seq<Frame>>, m: nat, n: nat)
    requires m <= n <= |wires|
    ensures TotalVsyncs(wires, m) <= TotalVsyncs(wires, n)
  {
    if m < n {
      WiresPart(wires, m, n - 1);
    }
  }

  lemma WiresEmpty(wires: seq<seq<Frame>>, n: nat, i: nat)
    requires i < n <= |wires|
    ensures Vsyncs(wires[i]) <= TotalVsyncs(wires, n)
  {
    WiresPart(wires, i + 1, n);
  }

  // ---- In step with each other -----------------------------------------------------

  /** How many ticks cabinet i has made in a run while the link was up. */
  ghost function TicksOf(r: Ring, steps: seq<Step>, i: nat): nat
    requires Shaped(r)
    decreases |steps|
  {
    if steps != [] && Enabled(r, steps[0]) then
      (if steps[0] == Tick(i) then 1 else 0) + TicksOf(Apply(r, steps[0]), steps[1..], i)
    else 0
  }

  /** After `ticks` ticks cabinet i has had a vsync for each but the last, and for that one too when it may tick again. */
  ghost predicate InStep(r: Ring, i: nat, ticks: nat)
    requires Shaped(r) && i < |r.roles|
  {
    var n := r.nodes[i];
    && n.framesync == 1
    && ticks <= r.taken[i] + 1
    && ((n.alive == 0 || (n.alive == 1 && n.timer != 1)) ==> ticks <= r.taken[i])
    && (i == 0 ==> ticks == r.passed[0])
  }

  lemma InStepStep(r: Ring, s: Step, i: nat, ticks: nat)
    requires Flow(r) && Enabled(r, s) && i < |r.roles| && InStep(r, i, ticks)
    ensures InStep(Apply(r, s), i, ticks + (if s == Tick(i) then 1 else 0))
  {
    VsyncEffect(r, s);
    if s.i == i {
      assert NodeOk(r, i);
      if s.Receive? {
        HeadFacts(r, i);
        assert r.wires[r.Prev(i)][..1] == [r.wires[r.Prev(i)][0]];
        OneVsync(r.wires[r.Prev(i)][0]);
      }
    }
  }

  lemma {:induction false} InStepRun(r: Ring, steps: seq<Step>, r': Ring, i: nat, ticks: nat)
    requires Flow(r) && Reaches(r, steps, r') && i < |r.roles| && InStep(r, i, ticks)
    ensures r'.roles == r.roles && Flow(r') && InStep(r', i, ticks + TicksOf(r, steps, i))
    decreases |steps|
  {
    if steps != [] {
      FlowStep(r, steps[0]);
      InStepStep(r, steps[0], i, ticks);
      InStepRun(Apply(r, steps[0]), steps[1..], r', i, ticks + (if steps[0] == Tick(i) then 1 else 0));
    }
  }

  /**
   Frame sync keeps the cabinets in step: with it on, in every state of every run, no
   cabinet has ticked more than once oftener than the master, and the master not more
   than once oftener than any cabinet has passed a vsync on.
   */
  lemma CabinetsInStep(r0: Ring, steps: seq<Step>, r: Ring, i: nat)
    requires Init(r0) && Numbered(r0.roles) <= 0xfb && Reaches(r0, steps, r) && i < |r0.roles|
    requires forall k :: 0 <= k < |r0.roles| ==> r0.nodes[k].framesync == 1
    ensures TicksOf(r0, steps, i) <= TicksOf(r0, steps, 0) + 1
    ensures i < |r.passed| && TicksOf(r0, steps, 0) <= r.passed[i] + 1
  {
    InitFlow(r0);
    assert InitAt(r0, i) && InitAt(r0, 0);
    InStepRun(r0, steps, r, i, 0);
    InStepRun(r0, steps, r, 0, 0);
    TakenAtMost(r, i);
  }

  /** No cabinet has had more vsyncs than the master has sent, and none has passed on fewer than have come back. */
  lemma TakenAtMost(r: Ring, i: nat)
    requires Flow(r) && i < |r.roles|
    ensures r.taken[i] <= r.passed[0] && r.taken[0] <= r.passed[i]
  {
    FlowChain(r, i);
    FlowChain(r, |r.roles| - 1);
    assert FlowAt(r, i) && FlowAt(r, |r.roles| - 1);
    PassedDown(r, i, |r.roles| - 1);
    if i > 0 { FlowChain(r, i - 1); }
  }

  lemma {:induction false} PassedDown(r: Ring, i: nat, j: nat)
    requires Flow(r) && i <= j < |r.roles|
    ensures r.passed[j] <= r.passed[i]
    decreases j
  {
    if i < j {
      assert FlowAt(r, j - 1) && FlowAt(r, j);
      PassedDown(r, i, j - 1);
    }
  }
}
