/**
 The numbering phase of the ring: however the ticks interleave and however many
 0xFF tokens are in flight, the master ends with number 1, the slaves with 2 to
 the count, each once, and the relays with 0.
 */
module RingNumbering {
  import opened LinkNode
  import opened LinkRing

  /** Slaves among cabinets 0 to n - 1. */
  function SlavesBefore(roles: seq<Role>, n: nat): nat
    requires n <= |roles|
  {
    if n == 0 then 0 else SlavesBefore(roles, n - 1) + (if roles[n - 1].Slave? then 1 else 0)
  }

  /** How many cabinets carry a number: the master and the slaves. */
  function Numbered(roles: seq<Role>): nat {
    SlavesBefore(roles, |roles|) + 1
  }

  /** The number a cabinet must end with. */
  function FinalId(roles: seq<Role>, i: nat): int
    requires i < |roles|
  {
    match roles[i]
    case Master => 1
    case Slave => Numbered(roles) - SlavesBefore(roles, i)
    case Relay => 0
  }

  // ---- The invariant --------------------------------------------------------

  /** Numbering tokens come first on a wire, then the size token, then the race. */
  function Rank(f: Frame): int {
    if Tag(f) == LINK_ID then 0 else if Tag(f) == LINK_SIZE then 1 else 2
  }

  ghost predicate AllRank(w: seq<Frame>, k: int) {
    forall p :: 0 <= p < |w| ==> Rank(w[p]) == k
  }

  ghost predicate HasSize(w: seq<Frame>) {
    exists p :: 0 <= p < |w| && Rank(w[p]) == 1
  }

  /** Ranks never go down along a wire, and there is at most one size token. */
  ghost predicate Ordered(w: seq<Frame>) {
    forall p, q :: 0 <= p < q < |w| ==> Rank(w[p]) <= Rank(w[q]) && (Rank(w[p]) == 1 ==> Rank(w[q]) == 2)
  }

  /** A message that cabinet i may have sent. */
  ghost predicate MessageOk(roles: seq<Role>, i: nat, f: Frame)
    requires i < |roles|
  {
    var n, s := Numbered(roles), SlavesBefore(roles, i + 1);
    if Tag(f) == LINK_ID then f[1] == s + 1
    else if Tag(f) == LINK_SIZE then f[1] == n - s && f[2] == n
    else Tag(f) == VSYNC || 1 <= Tag(f) <= n
  }

  ghost predicate WireOk(r: Ring, i: nat)
    requires Shaped(r) && i < |r.roles|
  {
    var w, up := r.wires[i], r.nodes[i].Up();
    && (forall p :: 0 <= p < |w| ==> MessageOk(r.roles, i, w[p]))
    && Ordered(w)
    && (!up ==> AllRank(w, 0))
    && (i + 1 < |r.roles| ==>
          && (r.nodes[i + 1].Up() ==> up && AllRank(w, 2))
          && (up && !r.nodes[i + 1].Up() ==> HasSize(w)))
  }

  ghost predicate NodeOk(r: Ring, i: nat)
    requires Shaped(r) && i < |r.roles|
  {
    var n := r.nodes[i];
    && n.alive <= 2
    && (n.Up() || (i == 0 && n.timer == 0) ==> n.count == Numbered(r.roles) && n.id == FinalId(r.roles, i))
  }

  ghost predicate Inv(r: Ring) {
    && Shaped(r)
    && Numbered(r.roles) <= 0xfb
    && (forall i: nat :: i < |r.roles| ==> NodeOk(r, i))
    && (forall i: nat :: i < |r.roles| ==> WireOk(r, i))
  }

  // ---- Counting slaves ------------------------------------------------------

  lemma {:induction false} SlavesMonotone(roles: seq<Role>, a: nat, b: nat)
    requires a <= b <= |roles|
    ensures SlavesBefore(roles, a) <= SlavesBefore(roles, b)
    ensures a < b && roles[a].Slave? ==> SlavesBefore(roles, a) < SlavesBefore(roles, b)
    decreases b
  {
    if a < b {
      SlavesMonotone(roles, a, b - 1);
    }
  }

  /** An up cabinet has only up cabinets between the master and itself. */
  lemma {:induction false} UpChain(r: Ring, i: nat, j: nat)
    requires Inv(r) && i <= j < |r.roles| && r.nodes[j].Up()
    ensures r.nodes[i].Up()
    decreases j
  {
    if i < j {
      assert WireOk(r, j - 1);
      UpChain(r, i, j - 1);
    }
  }

  // ---- Every step keeps the invariant ---------------------------------------

  lemma InitInv(r: Ring)
    requires Init(r) && Numbered(r.roles) <= 0xfb
    ensures Inv(r)
  {
    forall i: nat | i < |r.roles| ensures NodeOk(r, i) && WireOk(r, i) {
      assert InitAt(r, i);
      assert i + 1 < |r.roles| ==> InitAt(r, i + 1);
    }
  }

  /** The message at the head of a wire, seen by the cabinet that takes it. */
  lemma HeadFacts(r: Ring, i: nat)
    requires Inv(r) && i < |r.roles| && r.wires[r.Prev(i)] != []
    ensures var f := r.wires[r.Prev(i)][0];
            && MessageOk(r.roles, r.Prev(i), f)
            && (!r.nodes[i].Up() ==> Rank(f) <= 1 && (i == 0 ==> Rank(f) == 0))
            && (Rank(f) == 1 ==> r.nodes[r.Prev(i)].Up())
            && (r.nodes[i].Up() && i != 0 ==> Rank(f) == 2)
  {
    var p := r.Prev(i);
    assert WireOk(r, p);
    if i == 0 {
      if r.nodes[p].Up() {
        UpChain(r, 0, p);
      }
    }
  }

  /** Taking the head of a wire keeps the wire's invariant, unless it is the size token. */
  lemma DrainOk(r: Ring, i: nat, r': Ring)
    requires Inv(r) && i < |r.roles| && r.wires[i] != [] && Shaped(r')
    requires r'.roles == r.roles && r'.wires[i] == r.wires[i][1..]
    requires r'.nodes[i].Up() == r.nodes[i].Up()
    requires i + 1 < |r.roles| && r.nodes[i + 1].Up() ==> r'.nodes[i + 1].Up()
    requires i + 1 < |r.roles| && !r.nodes[i + 1].Up() && r'.nodes[i + 1].Up() ==> Rank(r.wires[i][0]) == 1
    requires i + 1 < |r.roles| && !r'.nodes[i + 1].Up() ==> Rank(r.wires[i][0]) != 1
    ensures WireOk(r', i)
  {
    var w, w' := r.wires[i], r'.wires[i];
    assert WireOk(r, i);
    assert forall p :: 0 <= p < |w'| ==> w'[p] == w[p + 1];
    if i + 1 < |r.roles| && r.nodes[i].Up() && !r'.nodes[i + 1].Up() {
      var p :| 0 <= p < |w| && Rank(w[p]) == 1;
      assert w'[p - 1] == w[p];
    }
  }

  /** Sending keeps the wire's invariant when the message may follow what is there. */
  lemma SendOk(r: Ring, i: nat, r': Ring, f: Frame)
    requires Inv(r) && i < |r.roles| && Shaped(r')
    requires r'.roles == r.roles && r'.wires[i] == r.wires[i] + [f]
    requires r.nodes[i].Up() ==> r'.nodes[i].Up()
    requires i + 1 < |r.roles| ==> r'.nodes[i + 1].Up() == r.nodes[i + 1].Up()
    requires MessageOk(r.roles, i, f)
    requires match Rank(f)
             case 0 => !r'.nodes[i].Up()
             case 1 => !r.nodes[i].Up() && r'.nodes[i].Up()
             case _ => r.nodes[i].Up()
    ensures WireOk(r', i)
  {
    var w, w' := r.wires[i], r'.wires[i];
    assert WireOk(r, i);
    assert forall p :: 0 <= p < |w| ==> w'[p] == w[p];
    assert w'[|w|] == f;
    if i + 1 < |r.roles| && r'.nodes[i].Up() && !r'.nodes[i + 1].Up() {
      if Rank(f) == 1 {
        assert Rank(w'[|w|]) == 1;
      } else {
        var p :| 0 <= p < |w| && Rank(w[p]) == 1;
        assert w'[p] == w[p];
      }
    }
  }

  /** A step of cabinet i leaves every other cabinet and every other wire alone. */
  lemma Frame(r: Ring, s: Step)
    requires Inv(r) && Enabled(r, s)
    requires NodeOk(Apply(r, s), s.i)
    requires WireOk(Apply(r, s), s.i)
    requires WireOk(Apply(r, s), r.Prev(s.i))
    ensures Inv(Apply(r, s))
  {
    var r', p := Apply(r, s), r.Prev(s.i);
    forall j: nat | j < |r.roles| ensures NodeOk(r', j) && WireOk(r', j) {
      assert NodeOk(r, j) && WireOk(r, j);
      if j != s.i && j != p {
        assert r'.wires[j] == r.wires[j];
      }
    }
  }

  lemma WaitingMasterStep(r: Ring, s: Step)
    requires Inv(r) && Enabled(r, s) && s.Receive? && r.nodes[s.i].alive == 0 && s.i == 0
    ensures Inv(Apply(r, s))
  {
    var p, r' := r.Prev(0), Apply(r, s);
    assert NodeOk(r, 0) && WireOk(r, 0) && WireOk(r, p);
    HeadFacts(r, 0);
    assert r'.wires[p] == r.wires[p][1..];
    DrainOk(r, p, r');
    Frame(r, s);
  }

  /** What a slave or relay that is not up does with a numbering token. */
  lemma WaitingEffect(roles: seq<Role>, i: nat, n: Node, f: Frame)
    requires 0 < i < |roles| && !roles[i].Master? && n.alive == 0
    requires Numbered(roles) <= 0xfb && Rank(f) <= 1 && MessageOk(roles, i - 1, f)
    ensures var a := LinkNode.Receive(roles[i], n, f);
            && |a.sent| == 1 && MessageOk(roles, i, a.sent[0]) && Rank(a.sent[0]) == Rank(f)
            && a.node.alive == Rank(f)
            && (Rank(f) == 1 ==> a.node.count == Numbered(roles) && a.node.id == FinalId(roles, i))
  {
    SlavesMonotone(roles, i, |roles|);
    SlavesMonotone(roles, i + 1, |roles|);
  }

  lemma WaitingOtherStep(r: Ring, s: Step)
    requires Inv(r) && Enabled(r, s) && s.Receive? && r.nodes[s.i].alive == 0 && s.i > 0
    ensures Inv(Apply(r, s))
  {
    var i, p, r' := s.i, r.Prev(s.i), Apply(r, s);
    HeadFacts(r, i);
    WaitingEffect(r.roles, i, r.nodes[i], r.wires[p][0]);
    assert WireOk(r, i);
    var g := Effect(r, s).sent[0];
    assert r'.wires[i] == r.wires[i] + [g];
    DrainOk(r, p, r');
    SendOk(r, i, r', g);
    Frame(r, s);
  }

  lemma UpStep(r: Ring, s: Step)
    requires Inv(r) && Enabled(r, s) && s.Receive? && r.nodes[s.i].alive == 1
    ensures Inv(Apply(r, s))
  {
    var i, p, r' := s.i, r.Prev(s.i), Apply(r, s);
    assert NodeOk(r, i) && WireOk(r, i) && WireOk(r, p);
    HeadFacts(r, i);
    if i == 0 {
      assert r'.wires[p] == r.wires[p][1..];
      DrainOk(r, p, r');
    } else {
      DrainOk(r, p, r');
      SlavesMonotone(r.roles, i, |r.roles|);
      assert r.roles[i].Slave? ==> FinalId(r.roles, i) >= 1;
      SendOk(r, i, r', Effect(r, s).sent[0]);
    }
    if p != i && i == 0 {
      assert r'.wires[i] == r.wires[i];
    }
    Frame(r, s);
  }

  lemma QuietStep(r: Ring, s: Step)
    requires Inv(r) && Enabled(r, s) && !s.Receive? && Effect(r, s).sent == []
    requires NodeOk(Apply(r, s), s.i)
    requires Effect(r, s).node.Up() == r.nodes[s.i].Up()
    ensures Inv(Apply(r, s))
  {
    var i, p, r' := s.i, r.Prev(s.i), Apply(r, s);
    assert WireOk(r, i) && WireOk(r, p);
    assert r'.wires[i] == r.wires[i];
    Frame(r, s);
  }

  /** The master's tail before the link is up: one more token, or the size token, or the countdown. */
  lemma IdleStep(r: Ring, s: Step)
    requires Inv(r) && Enabled(r, s) && s.Idle?
    ensures Inv(Apply(r, s))
  {
    var i, p, r' := s.i, r.Prev(s.i), Apply(r, s);
    assert NodeOk(r, i) && WireOk(r, i) && WireOk(r, p);
    if Effect(r, s).sent == [] {
      QuietStep(r, s);
    } else {
      assert i == 0 && SlavesBefore(r.roles, 1) == 0;
      SendOk(r, 0, r', Effect(r, s).sent[0]);
      Frame(r, s);
    }
  }

  /** The master's tail while the link is up: its data, then the vsync token. */
  lemma TickStep(r: Ring, s: Step)
    requires Inv(r) && Enabled(r, s) && s.Tick?
    ensures Inv(Apply(r, s))
  {
    var i, p, r' := s.i, r.Prev(s.i), Apply(r, s);
    assert NodeOk(r, i) && WireOk(r, i) && WireOk(r, p);
    if r.roles[i].Master? {
      var d, v := Effect(r, s).sent[0], Effect(r, s).sent[1];
      var m := r.(nodes := r'.nodes, wires := r.wires[0 := r.wires[0] + [d]]);
      SendOk(r, 0, m, d);
      forall j: nat | j < |r.roles| ensures NodeOk(m, j) && WireOk(m, j) {
        assert NodeOk(r, j) && WireOk(r, j);
      }
      assert r.wires[0] + [d, v] == m.wires[0] + [v];
      SendOk(m, 0, r', v);
      Frame(r, s);
    } else {
      QuietStep(r, s);
    }
  }

  lemma InvStep(r: Ring, s: Step)
    requires Inv(r) && Enabled(r, s)
    ensures Inv(Apply(r, s))
  {
    assert NodeOk(r, s.i);
    match s
    case Receive(i) =>
      if r.nodes[i].alive == 1 {
        UpStep(r, s);
      } else if i == 0 {
        WaitingMasterStep(r, s);
      } else {
        WaitingOtherStep(r, s);
      }
    case Idle(i) => IdleStep(r, s);
    case Tick(i) => TickStep(r, s);
    case _ => QuietStep(r, s);
  }

  lemma {:induction false} InvRun(r: Ring, steps: seq<Step>, r': Ring)
    requires Inv(r) && Reaches(r, steps, r')
    ensures Inv(r') && r'.roles == r.roles
    decreases |steps|
  {
    if steps != [] {
      InvStep(r, steps[0]);
      InvRun(Apply(r, steps[0]), steps[1..], r');
    }
  }

  /** The invariant holds in every state of every run of a ring that is not too long. */
  lemma ReachableInv(r: Ring)
    requires Reachable(r) && Numbered(r.roles) <= 0xfb
    ensures Inv(r)
  {
    var r0, steps :| Init(r0) && Reaches(r0, steps, r);
    RolesKept(r0, steps, r);
    InitInv(r0);
    InvRun(r0, steps, r);
  }

  lemma {:induction false} RolesKept(r: Ring, steps: seq<Step>, r': Ring)
    requires Reaches(r, steps, r')
    ensures r'.roles == r.roles
    decreases |steps|
  {
    if steps != [] {
      RolesKept(Apply(r, steps[0]), steps[1..], r');
    }
  }

  // ---- What the numbering promises ------------------------------------------

  /** Every cabinet that is up has its final number and the final count. */
  lemma NumbersAreRight(r: Ring, i: nat)
    requires Reachable(r) && Shaped(r) && Numbered(r.roles) <= 0xfb
    requires i < |r.nodes| && r.nodes[i].Up()
    ensures r.nodes[i].count == Numbered(r.roles)
    ensures r.nodes[i].id == FinalId(r.roles, i)
  {
    ReachableInv(r);
    assert NodeOk(r, i);
  }

  /** The final numbers: no two slaves share one, and each is between 2 and the count. */
  lemma FinalIdsDistinct(roles: seq<Role>, i: nat, j: nat)
    requires i < j < |roles| && roles[i].Slave? && roles[j].Slave?
    ensures FinalId(roles, i) > FinalId(roles, j) >= 2
    ensures FinalId(roles, i) <= Numbered(roles)
  {
    SlavesMonotone(roles, i, j);
    SlavesMonotone(roles, j, |roles|);
  }

  /** Every number from 2 to the count is some slave's. */
  lemma {:induction false} SlaveWith(roles: seq<Role>, n: nat, v: int) returns (i: nat)
    requires n <= |roles|
    requires Numbered(roles) - SlavesBefore(roles, n) < v <= Numbered(roles)
    ensures i < n && roles[i].Slave? && FinalId(roles, i) == v
    decreases n
  {
    if roles[n - 1].Slave? && Numbered(roles) - SlavesBefore(roles, n - 1) == v {
      i := n - 1;
    } else {
      i := SlaveWith(roles, n - 1, v);
    }
  }

  ghost predicate SlaveHolds(r: Ring, v: int)
    requires Shaped(r)
  {
    exists i :: 0 <= i < |r.nodes| && r.roles[i].Slave? && r.nodes[i].id == v
  }

  /**
   Once every cabinet is up, the master holds 1, the k slaves hold exactly 2 to
   k + 1 with none repeated, relays hold 0 and all agree on the count k + 1.
   */
  lemma NumberingCorrect(r: Ring)
    requires Reachable(r) && Shaped(r) && Numbered(r.roles) <= 0xfb
    requires forall i :: 0 <= i < |r.nodes| ==> r.nodes[i].Up()
    ensures r.nodes[0].id == 1
    ensures forall i :: 0 <= i < |r.nodes| ==> r.nodes[i].count == Numbered(r.roles)
    ensures forall i :: 0 <= i < |r.nodes| && r.roles[i].Relay? ==> r.nodes[i].id == 0
    ensures forall i :: 0 <= i < |r.nodes| && r.roles[i].Slave? ==> 2 <= r.nodes[i].id <= Numbered(r.roles)
    ensures forall i, j :: 0 <= i < j < |r.nodes| && r.roles[i].Slave? && r.roles[j].Slave? ==> r.nodes[i].id != r.nodes[j].id
    ensures forall v :: 2 <= v <= Numbered(r.roles) ==> SlaveHolds(r, v)
  {
    forall i | 0 <= i < |r.nodes|
      ensures r.nodes[i].count == Numbered(r.roles) && r.nodes[i].id == FinalId(r.roles, i)
      ensures r.roles[i].Slave? ==> 2 <= r.nodes[i].id <= Numbered(r.roles)
    {
      NumbersAreRight(r, i);
      SlavesMonotone(r.roles, i, |r.roles|);
    }
    forall i, j | 0 <= i < j < |r.nodes| && r.roles[i].Slave? && r.roles[j].Slave? ensures r.nodes[i].id != r.nodes[j].id {
      FinalIdsDistinct(r.roles, i, j);
    }
    forall v | 2 <= v <= Numbered(r.roles) ensures SlaveHolds(r, v) {
      var i := SlaveWith(r.roles, |r.roles|, v);
      assert r.nodes[i].id == FinalId(r.roles, i);
    }
  }

  /**
   A cabinet that is not up only ever takes numbering tokens: no data and no
   vsync message reaches it. A slave or relay that is up takes no numbering token.
   */
  lemma NoRaceBeforeUp(r: Ring, i: nat)
    requires Reachable(r) && Numbered(r.roles) <= 0xfb
    requires Shaped(r) && i < |r.nodes| && Enabled(r, Receive(i))
    ensures var t := Tag(r.wires[r.Prev(i)][0]);
            && (r.nodes[i].alive == 0 ==> t == LINK_ID || t == LINK_SIZE)
            && (r.nodes[i].alive == 1 && i != 0 ==> t == VSYNC || 1 <= t <= r.nodes[i].count)
  {
    ReachableInv(r);
    HeadFacts(r, i);
    assert NodeOk(r, i);
  }
}
