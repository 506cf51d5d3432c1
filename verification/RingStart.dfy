/**
 The ring comes up: from any initial ring there is a run after which every cabinet is
 up, the wires empty. The master counts down and sends a numbering token, which goes
 round; then it comes up and sends the size token, which goes round.
 */
module RingStart {
  import opened LinkNode
  import opened LinkRing
  import opened RingNumbering

  /** One message, with this tag, on wire k, and nothing on the others. */
  ghost predicate OnlyOn(r: Ring, k: nat, tag: byte)
    requires Shaped(r) && k < |r.roles|
  {
    && |r.wires[k]| == 1 && Tag(r.wires[k][0]) == tag
    && forall i :: 0 <= i < |r.roles| && i != k ==> r.wires[i] == []
  }

  ghost predicate WiresEmpty(r: Ring)
    requires Shaped(r)
  {
    forall i :: 0 <= i < |r.roles| ==> r.wires[i] == []
  }

  /** Cabinets below k are up and have not lost the link, the others wait. */
  ghost predicate UpBelow(r: Ring, k: nat)
    requires Shaped(r)
  {
    forall i :: 0 <= i < |r.roles| ==> r.nodes[i].alive == if i < k then 1 else 0
  }

  /** Every cabinet is up and no message is under way. */
  ghost predicate UpAndQuiet(r: Ring) {
    Shaped(r) && UpBelow(r, |r.roles|) && WiresEmpty(r)
  }

  /** One more step of a run. */
  lemma OneMore(r: Ring, steps: seq<Step>, m: Ring, s: Step)
    requires Reaches(r, steps, m) && Shaped(m) && Enabled(m, s)
    ensures Reaches(r, steps + [s], Apply(m, s))
  {
    assert [s][1..] == [];
    assert Reaches(Apply(m, s), [], Apply(m, s));
    assert Reaches(m, [s], Apply(m, s));
    ReachesConcat(r, steps, m, [s], Apply(m, s));
  }

  /** A waiting master whose countdown has come to 1 puts one message on its wire: a token with tag 0xFF and number 1. */
  lemma TokenStarts(r: Ring)
    requires Shaped(r) && r.nodes[0].alive == 0 && r.nodes[0].timer == 1
    ensures Enabled(r, Idle(0))
    ensures var r' := Apply(r, Idle(0));
            && |r'.wires[0]| == |r.wires[0]| + 1 && r'.wires[0][..|r.wires[0]|] == r.wires[0]
            && var f := r'.wires[0][|r.wires[0]|];
               f[0] == 0xff && f[1] == 1 && f[2] == 0
  {
  }

  /** The countdown: the master's timer falls to 1 and nothing else happens. */
  lemma {:induction false} Countdown(r: Ring) returns (steps: seq<Step>, r': Ring)
    requires Shaped(r) && UpBelow(r, 0) && WiresEmpty(r) && r.nodes[0].timer > 0
    ensures Reaches(r, steps, r') && Shaped(r') && r'.roles == r.roles
    ensures UpBelow(r', 0) && WiresEmpty(r') && r'.nodes[0].timer == 1
    decreases r.nodes[0].timer
  {
    if r.nodes[0].timer == 1 {
      steps, r' := [], r;
    } else {
      var m := Apply(r, Idle(0));
      assert m.wires[0] == r.wires[0] + [];
      var more;
      more, r' := Countdown(m);
      steps := [Idle(0)] + more;
      assert steps[1..] == more;
    }
  }

  /** A token goes from the wire before cabinet k to the wire after it; the size token brings it up. */
  lemma TokenPasses(r: Ring, k: nat, tag: byte)
    requires Shaped(r) && 0 < k < |r.roles| && OnlyOn(r, k - 1, tag) && tag in {LINK_ID, LINK_SIZE}
    requires UpBelow(r, if tag == LINK_SIZE then k else 0)
    ensures Enabled(r, Receive(k))
    ensures var r' := Apply(r, Receive(k));
            && OnlyOn(r', k, tag) && UpBelow(r', if tag == LINK_SIZE then k + 1 else 0)
            && r'.nodes[0] == r.nodes[0]
  {
    assert r.Prev(k) == k - 1;
  }

  /** A token goes round the ring, up to the wire into the master. */
  lemma {:induction false} GoesRound(r: Ring, k: nat, tag: byte) returns (steps: seq<Step>, r': Ring)
    requires Shaped(r) && 0 < k <= |r.roles| && OnlyOn(r, k - 1, tag) && tag in {LINK_ID, LINK_SIZE}
    requires UpBelow(r, if tag == LINK_SIZE then k else 0)
    ensures Reaches(r, steps, r') && Shaped(r') && r'.roles == r.roles && r'.nodes[0] == r.nodes[0]
    ensures OnlyOn(r', |r.roles| - 1, tag) && UpBelow(r', if tag == LINK_SIZE then |r.roles| else 0)
    decreases |r.roles| - k
  {
    if k == |r.roles| {
      steps, r' := [], r;
    } else {
      TokenPasses(r, k, tag);
      var more;
      more, r' := GoesRound(Apply(r, Receive(k)), k + 1, tag);
      steps := [Receive(k)] + more;
      assert steps[1..] == more;
    }
  }

  /** The numbering token comes back: the master may come up. */
  lemma TokenBack(r: Ring)
    requires Shaped(r) && OnlyOn(r, |r.roles| - 1, LINK_ID) && UpBelow(r, 0)
    ensures Enabled(r, Receive(0))
    ensures var r' := Apply(r, Receive(0));
            WiresEmpty(r') && UpBelow(r', 0) && r'.nodes[0].timer == 0
  {
    var p := r.Prev(0);
    assert p == |r.roles| - 1;
    assert Drained(r, Receive(0))[0] + [] == Drained(r, Receive(0))[0];
  }

  /** The master comes up, and sends the size token. */
  lemma MasterUp(r: Ring)
    requires Shaped(r) && WiresEmpty(r) && UpBelow(r, 0) && r.nodes[0].timer == 0
    ensures Enabled(r, Idle(0))
    ensures OnlyOn(Apply(r, Idle(0)), 0, LINK_SIZE) && UpBelow(Apply(r, Idle(0)), 1)
  {
  }

  /** The size token comes back and goes no further. */
  lemma SizeBack(r: Ring)
    requires Inv(r) && OnlyOn(r, |r.roles| - 1, LINK_SIZE) && UpBelow(r, |r.roles|)
    ensures Enabled(r, Receive(0)) && UpAndQuiet(Apply(r, Receive(0)))
  {
    var p := r.Prev(0);
    assert p == |r.roles| - 1 && NodeOk(r, 0);
    assert Drained(r, Receive(0))[0] + [] == Drained(r, Receive(0))[0];
  }

  lemma InitWaits(r: Ring)
    requires Init(r)
    ensures UpBelow(r, 0) && WiresEmpty(r) && r.nodes[0].timer > 0
  {
    assert InitAt(r, 0);
    forall i: nat | i < |r.roles| ensures r.nodes[i].alive == 0 && r.wires[i] == [] {
      assert InitAt(r, i);
    }
  }

  /** The master's second turn: up with the size token, which goes round. */
  lemma SecondTurn(r: Ring) returns (steps: seq<Step>, r': Ring)
    requires Inv(r) && WiresEmpty(r) && UpBelow(r, 0) && r.nodes[0].timer == 0
    ensures Reaches(r, steps, r') && r'.roles == r.roles && UpAndQuiet(r')
  {
    MasterUp(r);
    var m := Apply(r, Idle(0));
    var round, q := GoesRound(m, 1, LINK_SIZE);
    assert Reaches(r, [], r);
    steps := Joined(r, [], r, Idle(0), round, q);
    InvRun(r, steps, q);
    SizeBack(q);
    OneMore(r, steps, q, Receive(0));
    steps, r' := steps + [Receive(0)], Apply(q, Receive(0));
  }

  /** The master's first turn: a token, which goes round, and then the second turn. */
  lemma FirstTurn(r: Ring) returns (steps: seq<Step>, r': Ring)
    requires Inv(r) && UpBelow(r, 0) && WiresEmpty(r) && r.nodes[0].timer > 0
    ensures Reaches(r, steps, r') && r'.roles == r.roles && UpAndQuiet(r')
  {
    var a, s0 := Countdown(r);
    TokenStarts(s0);
    var b, s1 := GoesRound(Apply(s0, Idle(0)), 1, LINK_ID);
    TokenBack(s1);
    var s2 := Apply(s1, Receive(0));
    steps := Joined(r, a, s0, Idle(0), b, s1);
    OneMore(r, steps, s1, Receive(0));
    steps := steps + [Receive(0)];
    InvRun(r, steps, s2);
    var c;
    c, r' := SecondTurn(s2);
    ReachesConcat(r, steps, s2, c, r');
    steps := steps + c;
  }

  /**
   However many cabinets there are and whatever their roles, the ring comes up: a run
   from the initial ring leads to one in which every cabinet is up and no message is
   under way.
   */
  lemma ComesUp(r0: Ring) returns (steps: seq<Step>, r: Ring)
    requires Init(r0) && Numbered(r0.roles) <= 0xfb
    ensures Reaches(r0, steps, r) && r.roles == r0.roles && UpAndQuiet(r)
  {
    InitWaits(r0);
    InitInv(r0);
    steps, r := FirstTurn(r0);
  }

  /** A run, one step, and a run. */
  lemma Joined(r: Ring, a: seq<Step>, m: Ring, s: Step, b: seq<Step>, r': Ring) returns (steps: seq<Step>)
    requires Reaches(r, a, m) && Shaped(m) && Enabled(m, s) && Reaches(Apply(m, s), b, r')
    ensures Reaches(r, steps, r')
  {
    OneMore(r, a, m, s);
    ReachesConcat(r, a + [s], Apply(m, s), b, r');
    steps := a + [s] + b;
  }

  // ---- From anywhere ---------------------------------------------------------------

  /** No cabinet has lost the link. */
  ghost predicate NoneLost(r: Ring) {
    Shaped(r) && forall i :: 0 <= i < |r.roles| ==> r.nodes[i].alive <= 1
  }

  /** A cabinet that has a message before it may take it, and has not lost the link then. */
  lemma TakesOne(r: Ring, i: nat)
    requires Inv(r) && NoneLost(r) && i < |r.roles| && r.wires[r.Prev(i)] != []
    ensures Enabled(r, Receive(i))
    ensures var r', p := Apply(r, Receive(i)), r.Prev(i);
            && Inv(r') && NoneLost(r')
            && |r'.wires[p]| == |r.wires[p]| - (if i == 0 || i != p then 1 else 0)
            && (forall j :: 0 <= j < |r.roles| && j != p && (j != i || i == 0) ==> r'.wires[j] == r.wires[j])
  {
    InvStep(r, Receive(i));
    HeadFacts(r, i);
    var w := Drained(r, Receive(i));
    assert w[i] + [] == w[i];
  }

  /** Cabinet i takes all that is on the wire into it. */
  lemma {:induction false} TakesAll(r: Ring, i: nat) returns (steps: seq<Step>, r': Ring)
    requires Inv(r) && NoneLost(r) && i < |r.roles|
    ensures Reaches(r, steps, r') && Inv(r') && NoneLost(r') && r'.roles == r.roles
    ensures r'.wires[r.Prev(i)] == []
    ensures forall j :: 0 <= j < |r.roles| && j != r.Prev(i) && (j != i || i == 0) ==> r'.wires[j] == r.wires[j]
    decreases |r.wires[r.Prev(i)]|
  {
    if r.wires[r.Prev(i)] == [] {
      steps, r' := [], r;
    } else {
      PrevOther(r, i);
      TakesOne(r, i);
      var more;
      more, r' := TakesAll(Apply(r, Receive(i)), i);
      steps := [Receive(i)] + more;
      assert steps[1..] == more;
    }
  }

  lemma PrevOther(r: Ring, i: nat)
    requires Shaped(r) && i < |r.roles|
    ensures i > 0 ==> r.Prev(i) != i
  {
  }

  /** Cabinets k to the last take all that comes to them, one after the other. */
  lemma {:induction false} Sweep(r: Ring, k: nat) returns (steps: seq<Step>, r': Ring)
    requires Inv(r) && NoneLost(r) && 0 < k <= |r.roles|
    requires forall j :: 0 <= j < k - 1 ==> r.wires[j] == []
    ensures Reaches(r, steps, r') && Inv(r') && NoneLost(r') && r'.roles == r.roles
    ensures forall j :: 0 <= j < |r.roles| - 1 ==> r'.wires[j] == []
    decreases |r.roles| - k
  {
    if k == |r.roles| {
      steps, r' := [], r;
    } else {
      var m, more;
      steps, m := TakesAll(r, k);
      more, r' := Sweep(m, k + 1);
      ReachesConcat(r, steps, m, more, r');
      steps := steps + more;
    }
  }

  /** All messages are taken: the wires are empty. */
  lemma AllTaken(r: Ring) returns (steps: seq<Step>, r': Ring)
    requires Inv(r) && NoneLost(r)
    ensures Reaches(r, steps, r') && Inv(r') && NoneLost(r') && r'.roles == r.roles && WiresEmpty(r')
  {
    var a, m := Sweep(r, 1);
    var b;
    b, r' := TakesAll(m, 0);
    ReachesConcat(r, a, m, b, r');
    steps := a + b;
  }

  /** With the wires empty either every cabinet is up, or none is. */
  lemma {:induction false} AllOrNone(r: Ring, k: nat)
    requires Inv(r) && NoneLost(r) && WiresEmpty(r) && k < |r.roles|
    ensures r.nodes[k].alive == r.nodes[0].alive
    decreases k
  {
    if k > 0 {
      AllOrNone(r, k - 1);
      assert WireOk(r, k - 1);
    }
  }

  /** From a ring that waits, with nothing under way. */
  lemma FromWaiting(r: Ring) returns (steps: seq<Step>, r': Ring)
    requires Inv(r) && UpBelow(r, 0) && WiresEmpty(r)
    ensures Reaches(r, steps, r') && r'.roles == r.roles && UpAndQuiet(r')
  {
    if r.nodes[0].timer == 0 {
      steps, r' := SecondTurn(r);
    } else {
      steps, r' := FirstTurn(r);
    }
  }

  /**
   Whatever has happened, while no cabinet has lost the link the ring can still come up:
   from every reachable ring without a lost cabinet a run leads to one in which every
   cabinet is up and no message is under way.
   */
  lemma CanComeUp(r: Ring) returns (steps: seq<Step>, r': Ring)
    requires Reachable(r) && Numbered(r.roles) <= 0xfb && NoneLost(r)
    ensures Reaches(r, steps, r') && r'.roles == r.roles && UpAndQuiet(r')
  {
    ReachableInv(r);
    var m;
    steps, m := AllTaken(r);
    forall k: nat | k < |m.roles| ensures m.nodes[k].alive == m.nodes[0].alive { AllOrNone(m, k); }
    if m.nodes[0].alive == 1 {
      r' := m;
    } else {
      var more;
      more, r' := FromWaiting(m);
      ReachesConcat(r, steps, m, more, r');
      steps := steps + more;
    }
  }
}
