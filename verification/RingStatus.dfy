/**
 What the game reads of the link in shared RAM: byte 0 the state, byte 2 the cabinet's
 number, byte 3 the count.
 */
module RingStatus {
  import opened LinkNode
  import opened LinkRing
  import opened RingNumbering

  /** A cabinet that is up shows it, with its number and the count. */
  predicate Shows(n: Node) {
    n.alive == 1 ==> n.shared[0] == 0x01 && n.shared[2] == n.id && n.shared[3] == n.count
  }

  ghost predicate AllShow(r: Ring)
    requires Shaped(r)
  {
    forall i :: 0 <= i < |r.nodes| ==> Shows(r.nodes[i])
  }

  lemma ShowsStep(r: Ring, s: Step)
    requires Shaped(r) && Enabled(r, s) && AllShow(r)
    ensures AllShow(Apply(r, s))
  {
    assert Shows(r.nodes[s.i]);
  }

  lemma {:induction false} ShowsRun(r: Ring, steps: seq<Step>, r': Ring)
    requires Shaped(r) && AllShow(r) && Reaches(r, steps, r')
    ensures Shaped(r') && AllShow(r')
    decreases |steps|
  {
    if steps != [] {
      ShowsStep(r, steps[0]);
      ShowsRun(Apply(r, steps[0]), steps[1..], r');
    }
  }

  /** In every state of every run a cabinet that is up shows state 1, its final number and the final count. */
  lemma ShowsItsNumber(r: Ring, i: nat)
    requires Reachable(r) && Shaped(r) && Numbered(r.roles) <= 0xfb
    requires i < |r.nodes| && r.nodes[i].alive == 1
    ensures r.nodes[i].shared[0] == 0x01
    ensures r.nodes[i].shared[2] == FinalId(r.roles, i)
    ensures r.nodes[i].shared[3] == Numbered(r.roles)
  {
    var r0, steps :| Init(r0) && Reaches(r0, steps, r);
    forall k: nat | k < |r0.nodes| ensures Shows(r0.nodes[k]) { assert InitAt(r0, k); }
    ShowsRun(r0, steps, r);
    assert Shows(r.nodes[i]);
    NumbersAreRight(r, i);
  }

  /** A tick shows that a cabinet waits, with no number and no count yet, or that it has lost the link. */
  lemma TickShows(r: Ring, i: nat)
    requires Shaped(r) && i < |r.nodes|
    ensures Enabled(r, Begin(i))
    ensures var n, s := r.nodes[i], Apply(r, Begin(i)).nodes[i].shared;
            && (n.alive == 0 ==> s[0] == 0x00 && s[2] == 0xff && s[3] == 0xff)
            && (n.alive == 2 ==> s[0] == 0xff && s[1..] == n.shared[1..])
            && (n.alive == 1 ==> s == n.shared)
  {
  }
}
