/**
 The data exchange of the ring is a distributed shift register: block j of a numbered
 cabinet's window is what block 0 of the numbered cabinet j hops before was at an
 earlier moment of the run, relays not counted as hops, and as the run goes on that
 moment never moves back. A moment is the number of steps of the run so far.
 */
module RingData {
  import opened LinkNode
  import opened LinkRing
  import opened RingNumbering

  /** The nearest cabinet at or before i that has a number. */
  function Source(roles: seq<Role>, i: nat): (s: nat)
    requires i < |roles| && roles[0].Master?
    ensures s <= i && !roles[s].Relay?
    decreases i
  {
    if roles[i].Relay? then Source(roles, i - 1) else i
  }

  /** The numbered cabinet one hop before i. */
  function Before(roles: seq<Role>, i: nat): (s: nat)
    requires i < |roles| && roles[0].Master?
    ensures s < |roles| && !roles[s].Relay?
  {
    Source(roles, if i == 0 then |roles| - 1 else i - 1)
  }

  /** The numbered cabinet `hops` hops before i. */
  function Back(roles: seq<Role>, i: nat, hops: nat): (s: nat)
    requires i < |roles| && roles[0].Master?
    ensures s < |roles|
    decreases hops
  {
    if hops == 0 then i else Back(roles, Before(roles, i), hops - 1)
  }

  // ---- The moments blocks come from -------------------------------------------

  /** For the nine blocks of every window and the eight of every message, the moment they come from. */
  datatype Times = Times(windows: seq<seq<nat>>, wires: seq<seq<seq<nat>>>)

  ghost predicate TimesShaped(r: Ring, t: Times)
    requires Shaped(r)
  {
    && |t.windows| == |r.roles| && |t.wires| == |r.roles|
    && forall i :: 0 <= i < |r.roles| ==>
         |t.windows[i]| == 9 && |t.wires[i]| == |r.wires[i]| && forall p :: 0 <= p < |t.wires[i]| ==> |t.wires[i][p]| == 8
  }

  /** What a cabinet sends: a relay passes on what it has taken, the others their first eight blocks. */
  function Sends(role: Role, w: seq<nat>): seq<nat>
    requires |w| == 9
  {
    if role.Relay? then w[1..] else w[..8]
  }

  /** The step stores a message's payload. */
  ghost predicate Stores(r: Ring, s: Step)
    requires Shaped(r) && Enabled(r, s)
  {
    s.Receive? && r.nodes[s.i].alive == 1 && Tag(r.wires[r.Prev(s.i)][0]) <= r.nodes[s.i].count
  }

  /** Cabinet k's window after the step that makes moment `now`: block 0 is now, a stored message's blocks are its own. */
  ghost function NewWindow(r: Ring, s: Step, t: Times, now: nat, k: nat): (w: seq<nat>)
    requires Shaped(r) && Enabled(r, s) && TimesShaped(r, t) && k < |r.roles|
    ensures |w| == 9 && w[0] == now
    ensures w[1..] == if k == s.i && Stores(r, s) then t.wires[r.Prev(s.i)][0] else t.windows[k][1..]
  {
    [now] + if k == s.i && Stores(r, s) then t.wires[r.Prev(s.i)][0] else t.windows[k][1..]
  }

  /** The moments of the messages still under way, once the step has taken its own. */
  ghost function Left(r: Ring, s: Step, t: Times): seq<seq<seq<nat>>>
    requires Shaped(r) && Enabled(r, s) && TimesShaped(r, t)
  {
    if s.Receive? then var p := r.Prev(s.i); t.wires[p := t.wires[p][1..]] else t.wires
  }

  function Copies(n: nat, w: seq<nat>): (c: seq<seq<nat>>)
    ensures |c| == n && forall k :: 0 <= k < n ==> c[k] == w
  {
    seq(n, _ => w)
  }

  ghost function Moved(r: Ring, s: Step, t: Times, now: nat): (t': Times)
    requires Shaped(r) && Enabled(r, s) && TimesShaped(r, t)
    ensures TimesShaped(Apply(r, s), t')
    ensures forall k :: 0 <= k < |r.roles| ==> t'.windows[k] == NewWindow(r, s, t, now, k)
  {
    var i, w := s.i, Left(r, s, t);
    var out := Sends(r.roles[i], NewWindow(r, s, t, now, i));
    Times(seq(|r.roles|, k requires 0 <= k < |r.roles| => NewWindow(r, s, t, now, k)),
          w[i := w[i] + Copies(|Effect(r, s).sent|, out)])
  }

  // ---- The invariant ------------------------------------------------------------

  /** Block 0 of cabinet c was b at that moment of the run. */
  ghost predicate Was(past: seq<Ring>, c: nat, time: nat, b: Block) {
    && time < |past| && Shaped(past[time]) && c < |past[time].nodes|
    && WindowBlock(past[time].nodes[c].shared, 0) == b
  }

  ghost predicate WindowOk(past: seq<Ring>, r: Ring, t: Times, i: nat)
    requires Shaped(r) && TimesShaped(r, t) && i < |r.roles|
  {
    forall j: nat :: j < 9 ==> Was(past, Back(r.roles, i, j), t.windows[i][j], WindowBlock(r.nodes[i].shared, j))
  }

  ghost predicate MessageOk(past: seq<Ring>, r: Ring, i: nat, f: Frame, times: seq<nat>)
    requires Shaped(r) && i < |r.roles|
  {
    && |times| == 8
    && (Tag(f) < VSYNC ==>
          forall j: nat :: j < 8 ==> Was(past, Back(r.roles, Source(r.roles, i), j), times[j], FrameBlock(f, j)))
  }

  predicate NotAfter(a: seq<nat>, b: seq<nat>) {
    |a| == |b| == 8 && forall j :: 0 <= j < 8 ==> a[j] <= b[j]
  }

  /** What one cabinet has, then the messages on their way to it, oldest first, then what the sender would send. */
  ghost predicate Ordered(has: seq<nat>, w: seq<seq<nat>>, out: seq<nat>) {
    && NotAfter(has, out)
    && (forall p :: 0 <= p < |w| ==> NotAfter(has, w[p]) && NotAfter(w[p], out))
    && (forall p, q :: 0 <= p < q < |w| ==> NotAfter(w[p], w[q]))
  }

  ghost predicate InOrder(r: Ring, t: Times, i: nat)
    requires Shaped(r) && TimesShaped(r, t) && i < |r.roles|
  {
    Ordered(t.windows[r.Next(i)][1..], t.wires[i], Sends(r.roles[i], t.windows[i]))
  }

  predicate NoneBack(w: seq<nat>, w': seq<nat>) {
    |w| == |w'| == 9 && forall j :: 0 <= j < 9 ==> w[j] <= w'[j]
  }

  /** No block of any window comes from an earlier moment in t' than in t. */
  ghost predicate Later(t: Times, t': Times) {
    |t.windows| == |t'.windows| && forall i :: 0 <= i < |t.windows| ==> NoneBack(t.windows[i], t'.windows[i])
  }

  ghost predicate WindowsOk(past: seq<Ring>, r: Ring, t: Times)
    requires Shaped(r) && TimesShaped(r, t)
  {
    forall i: nat :: i < |r.roles| && !r.roles[i].Relay? ==> WindowOk(past, r, t, i)
  }

  ghost predicate MessagesOk(past: seq<Ring>, r: Ring, t: Times)
    requires Shaped(r) && TimesShaped(r, t)
  {
    forall i: nat, p: nat :: i < |r.roles| && p < |r.wires[i]| ==> MessageOk(past, r, i, r.wires[i][p], t.wires[i][p])
  }

  ghost predicate AllInOrder(r: Ring, t: Times)
    requires Shaped(r) && TimesShaped(r, t)
  {
    forall i: nat :: i < |r.roles| ==> InOrder(r, t, i)
  }

  ghost predicate DataInv(past: seq<Ring>, r: Ring, t: Times) {
    && Inv(r) && past != [] && past[|past| - 1] == r && TimesShaped(r, t)
    && (forall i: nat :: i < |r.roles| ==> t.windows[i][0] == |past| - 1)
    && WindowsOk(past, r, t) && MessagesOk(past, r, t) && AllInOrder(r, t)
  }

  function ZeroTimes(n: nat): Times {
    Times(seq(n, _ => seq(9, _ => 0)), seq(n, _ => []))
  }

  lemma {:induction false} InitWindow(s: Shared, j: nat)
    requires j < 9 && forall x :: FRAME_START <= x < |s| ==> s[x] == 0
    ensures WindowBlock(s, j) == ZeroBlock()
  {
  }

  lemma InitDataInv(r: Ring)
    requires Init(r) && Numbered(r.roles) <= 0xfb
    ensures DataInv([r], r, ZeroTimes(|r.roles|))
  {
    InitInv(r);
    var t := ZeroTimes(|r.roles|);
    assert TimesShaped(r, t) by {
      forall i: nat | i < |r.roles| ensures r.wires[i] == [] { assert InitAt(r, i); }
    }
    forall i: nat | i < |r.roles| ensures r.wires[i] == [] && WindowOk([r], r, t, i) && InOrder(r, t, i) {
      assert InitAt(r, i);
      forall j: nat | j < 9 ensures Was([r], Back(r.roles, i, j), t.windows[i][j], WindowBlock(r.nodes[i].shared, j)) {
        InitWindow(r.nodes[i].shared, j);
        assert InitAt(r, Back(r.roles, i, j));
        InitWindow(r.nodes[Back(r.roles, i, j)].shared, 0);
      }
    }
  }

  // ---- A step keeps what the blocks are ----------------------------------------------

  /** What was, was. */
  lemma StillWas(past: seq<Ring>, more: seq<Ring>, c: nat, time: nat, b: Block)
    requires Was(past, c, time, b)
    ensures Was(past + more, c, time, b)
  {
  }

  /** The message a numbered cabinet sends carries its own window. */
  lemma SentWindow(past: seq<Ring>, r: Ring, t: Times, i: nat)
    requires Shaped(r) && TimesShaped(r, t) && i < |r.roles| && !r.roles[i].Relay? && WindowOk(past, r, t, i)
    ensures MessageOk(past, r, i, DataFrame(r.nodes[i].id, r.nodes[i].shared), Sends(r.roles[i], t.windows[i]))
  {
    var f := DataFrame(r.nodes[i].id, r.nodes[i].shared);
    forall j: nat | j < 8
      ensures Was(past, Back(r.roles, i, j), Sends(r.roles[i], t.windows[i])[j], FrameBlock(f, j))
    {
      SendCopies(r.nodes[i].id, r.nodes[i].shared, j);
    }
  }

  /** A stored block is what was: block j of the window comes from block j - 1 of the message. */
  lemma StoredBlock(past: seq<Ring>, r: Ring, t: Times, s: Step, j: nat)
    requires Shaped(r) && TimesShaped(r, t) && Enabled(r, s) && 0 < j < 9 && Stores(r, s) && !r.roles[s.i].Relay?
    requires var p := r.Prev(s.i);
             Tag(r.wires[p][0]) < VSYNC && MessageOk(past, r, p, r.wires[p][0], t.wires[p][0])
    ensures Was(past, Back(r.roles, s.i, j), t.wires[r.Prev(s.i)][0][j - 1],
                WindowBlock(Apply(r, s).nodes[s.i].shared, j))
  {
    var i, p := s.i, r.Prev(s.i);
    var n, f := r.nodes[i], r.wires[p][0];
    StoreShifts(n.shared, f);
    assert WindowBlock(StoreFrame(n.shared, f), (j - 1) + 1) == FrameBlock(f, j - 1);
    assert Source(r.roles, p) == Before(r.roles, i);
    assert Apply(r, s).nodes[i].shared == StoreFrame(n.shared, f);
  }

  /** What the step does to cabinet i's own window, block by block. */
  lemma WindowAfter(past: seq<Ring>, r: Ring, t: Times, s: Step, j: nat)
    requires DataInv(past, r, t) && Enabled(r, s) && j < 9 && !r.roles[s.i].Relay?
    ensures var r', w := Apply(r, s), NewWindow(r, s, t, |past|, s.i);
            Was(past + [r'], Back(r.roles, s.i, j), w[j], WindowBlock(r'.nodes[s.i].shared, j))
  {
    var i, r', p := s.i, Apply(r, s), r.Prev(s.i);
    var w, c := NewWindow(r, s, t, |past|, i), Back(r.roles, i, j);
    if j > 0 {
      assert w[j] == w[1..][j - 1];
      if Stores(r, s) {
        assert NodeOk(r, i) && MessageOk(past, r, p, r.wires[p][0], t.wires[p][0]);
        StoredBlock(past, r, t, s, j);
        StillWas(past, [r'], c, w[j], WindowBlock(r'.nodes[i].shared, j));
      } else {
        assert WindowOk(past, r, t, i);
        if s.Game? { GameWritesBlockZero(r.nodes[i], s.block, j); } else { StatusOnly(r, s, j); }
        StillWas(past, [r'], c, w[j], WindowBlock(r'.nodes[i].shared, j));
      }
    }
  }

  /** Every other step leaves the window as it is. */
  lemma StatusOnly(r: Ring, s: Step, j: nat)
    requires Shaped(r) && Enabled(r, s) && j < 9 && !s.Game? && !Stores(r, s)
    ensures WindowBlock(Apply(r, s).nodes[s.i].shared, j) == WindowBlock(r.nodes[s.i].shared, j)
  {
    var n, m := r.nodes[s.i], Effect(r, s).node;
    StatusKeepsWindow(n.shared, m.shared[0], m.shared[2], m.shared[3], j);
    assert m.shared == n.shared || m.shared == n.shared[0 := m.shared[0]]
        || m.shared == SetStatus(n.shared, m.shared[0], m.shared[2], m.shared[3]);
  }

  /** Every window is made of what was. */
  lemma WindowStep(past: seq<Ring>, r: Ring, t: Times, s: Step, i: nat)
    requires DataInv(past, r, t) && Enabled(r, s) && i < |r.roles| && !r.roles[i].Relay?
    ensures WindowOk(past + [Apply(r, s)], Apply(r, s), Moved(r, s, t, |past|), i)
  {
    var r', t' := Apply(r, s), Moved(r, s, t, |past|);
    forall j: nat | j < 9
      ensures Was(past + [r'], Back(r.roles, i, j), t'.windows[i][j], WindowBlock(r'.nodes[i].shared, j))
    {
      if i == s.i {
        WindowAfter(past, r, t, s, j);
      } else if j > 0 {
        assert WindowOk(past, r, t, i);
        StillWas(past, [r'], Back(r.roles, i, j), t.windows[i][j], WindowBlock(r.nodes[i].shared, j));
      }
    }
  }

  lemma MessageKept(past: seq<Ring>, r: Ring, s: Step, i: nat, f: Frame, times: seq<nat>)
    requires Shaped(r) && Enabled(r, s) && i < |r.roles| && MessageOk(past, r, i, f, times)
    ensures MessageOk(past + [Apply(r, s)], Apply(r, s), i, f, times)
  {
    if Tag(f) < VSYNC {
      var c := Source(r.roles, i);
      forall j: nat | j < 8 ensures Was(past + [Apply(r, s)], Back(r.roles, c, j), times[j], FrameBlock(f, j)) {
        StillWas(past, [Apply(r, s)], Back(r.roles, c, j), times[j], FrameBlock(f, j));
      }
    }
  }

  /** Race data that a relay passes on is made of what was. */
  lemma PassedOk(past: seq<Ring>, r: Ring, t: Times, s: Step)
    requires DataInv(past, r, t) && Enabled(r, s) && s.Receive? && r.roles[s.i].Relay?
    requires Stores(r, s)
    ensures var f := r.wires[r.Prev(s.i)][0];
            MessageOk(past + [Apply(r, s)], Apply(r, s), s.i, f, t.wires[r.Prev(s.i)][0])
  {
    var i, p := s.i, r.Prev(s.i);
    assert MessageOk(past, r, p, r.wires[p][0], t.wires[p][0]);
    assert Source(r.roles, i) == Source(r.roles, p);
    MessageKept(past, r, s, i, r.wires[p][0], t.wires[p][0]);
  }

  /** Every message a step sends is made of what was. */
  lemma SentOk(past: seq<Ring>, r: Ring, t: Times, s: Step, k: nat)
    requires DataInv(past, r, t) && Enabled(r, s) && k < |Effect(r, s).sent|
    ensures var w := NewWindow(r, s, t, |past|, s.i);
            MessageOk(past + [Apply(r, s)], Apply(r, s), s.i, Effect(r, s).sent[k], Sends(r.roles[s.i], w))
  {
    var i, r', t' := s.i, Apply(r, s), Moved(r, s, t, |past|);
    var g := Effect(r, s).sent[k];
    if Tag(g) < VSYNC {
      SentKinds(r, s, k);
      if r.roles[i].Relay? {
        PassedOk(past, r, t, s);
      } else {
        WindowStep(past, r, t, s, i);
        SentWindow(past + [r'], r', t', i);
      }
    }
  }

  /** Race data is sent by a relay that has stored it, or is the sender's own window. */
  lemma SentKinds(r: Ring, s: Step, k: nat)
    requires Inv(r) && Enabled(r, s) && k < |Effect(r, s).sent| && Tag(Effect(r, s).sent[k]) < VSYNC
    ensures var g, n := Effect(r, s).sent[k], Apply(r, s).nodes[s.i];
            if r.roles[s.i].Relay? then s.Receive? && Stores(r, s) && g == r.wires[r.Prev(s.i)][0]
            else g == DataFrame(n.id, n.shared)
  {
    assert NodeOk(r, s.i);
    if s.Receive? { HeadFacts(r, s.i); }
  }

  /** Message k of wire i after the step: one that was there before, or one just sent. */
  lemma WireItem(r: Ring, s: Step, t: Times, now: nat, i: nat, k: nat)
    requires Shaped(r) && TimesShaped(r, t) && Enabled(r, s) && i < |r.roles| && k < |Apply(r, s).wires[i]|
    ensures var kept, was := |Drained(r, s)[i]|, if s.Receive? && i == r.Prev(s.i) then k + 1 else k;
            if k < kept then
              && was < |r.wires[i]| && Apply(r, s).wires[i][k] == r.wires[i][was]
              && Moved(r, s, t, now).wires[i][k] == t.wires[i][was]
            else
              && i == s.i && k - kept < |Effect(r, s).sent|
              && Apply(r, s).wires[i][k] == Effect(r, s).sent[k - kept]
              && Moved(r, s, t, now).wires[i][k] == Sends(r.roles[i], NewWindow(r, s, t, now, i))
  {
  }

  /** Every message on a wire is made of what was. */
  lemma MessageStep(past: seq<Ring>, r: Ring, t: Times, s: Step, i: nat, k: nat)
    requires DataInv(past, r, t) && Enabled(r, s) && i < |r.roles| && k < |Apply(r, s).wires[i]|
    ensures MessageOk(past + [Apply(r, s)], Apply(r, s), i, Apply(r, s).wires[i][k], Moved(r, s, t, |past|).wires[i][k])
  {
    var kept := |Drained(r, s)[i]|;
    WireItem(r, s, t, |past|, i, k);
    if k < kept {
      var was := if s.Receive? && i == r.Prev(s.i) then k + 1 else k;
      assert MessageOk(past, r, i, r.wires[i][was], t.wires[i][was]);
      MessageKept(past, r, s, i, r.wires[i][was], t.wires[i][was]);
    } else {
      SentOk(past, r, t, s, k - kept);
    }
  }

  // ---- A step keeps the order -----------------------------------------------------------

  lemma SendsMore(role: Role, w: seq<nat>, w': seq<nat>)
    requires |w| == |w'| == 9 && w[0] <= w'[0] && NotAfter(w[1..], w'[1..])
    ensures NotAfter(Sends(role, w), Sends(role, w')) && NoneBack(w, w')
  {
    forall j | 0 < j < 9 ensures w[j] <= w'[j] {
      assert w[1..][j - 1] <= w'[1..][j - 1];
    }
  }

  /** No window moves back: what is stored is not older than what it replaces. */
  lemma Forward(r: Ring, t: Times, s: Step, now: nat, i: nat)
    requires Shaped(r) && TimesShaped(r, t) && Enabled(r, s) && i < |r.roles| && t.windows[i][0] <= now
    requires InOrder(r, t, r.Prev(i))
    ensures var w, w' := t.windows[i], NewWindow(r, s, t, now, i);
            NotAfter(w[1..], w'[1..]) && NotAfter(Sends(r.roles[i], w), Sends(r.roles[i], w')) && NoneBack(w, w')
  {
    assert r.Next(r.Prev(i)) == i;
    SendsMore(r.roles[i], t.windows[i], NewWindow(r, s, t, now, i));
  }

  /** What is on wire i after the step. */
  lemma WireAfter(r: Ring, s: Step, t: Times, now: nat, i: nat)
    requires Shaped(r) && Enabled(r, s) && TimesShaped(r, t) && i < |r.roles|
    ensures var sent := if i == s.i then Copies(|Effect(r, s).sent|, Sends(r.roles[i], NewWindow(r, s, t, now, i))) else [];
            Moved(r, s, t, now).wires[i] == Left(r, s, t)[i] + sent
    ensures Left(r, s, t)[i] == if s.Receive? && r.Next(i) == s.i then t.wires[i][1..] else t.wires[i]
    ensures s.Receive? && r.Next(i) == s.i ==> t.wires[i] != [] && r.Prev(s.i) == i
  {
    assert r.Next(i) == s.i <==> r.Prev(s.i) == i;
  }

  lemma OrderStep(past: seq<Ring>, r: Ring, t: Times, s: Step, i: nat)
    requires DataInv(past, r, t) && Enabled(r, s) && i < |r.roles|
    ensures InOrder(Apply(r, s), Moved(r, s, t, |past|), i)
  {
    var n, now := r.Next(i), |past|;
    var out, out' := Sends(r.roles[i], t.windows[i]), Sends(r.roles[i], NewWindow(r, s, t, now, i));
    var has, has' := t.windows[n][1..], NewWindow(r, s, t, now, n)[1..];
    assert InOrder(r, t, i) && InOrder(r, t, r.Prev(i));
    Forward(r, t, s, now, i);
    WireAfter(r, s, t, now, i);
    Queue(t.wires[i], Left(r, s, t)[i], has, has', out, out');
    QueueMore(Left(r, s, t)[i], if i == s.i then Copies(|Effect(r, s).sent|, out') else [], has', out');
  }

  /** Messages leave the front of a wire, and the next cabinet then has what the last of them held, or what it had. */
  lemma Queue(w: seq<seq<nat>>, kept: seq<seq<nat>>, has: seq<nat>, has': seq<nat>, out: seq<nat>, out': seq<nat>)
    requires Ordered(has, w, out) && NotAfter(out, out')
    requires (kept == w && has' == has) || (w != [] && kept == w[1..] && (has' == has || has' == w[0]))
    ensures Ordered(has', kept, out')
  {
  }

  lemma QueueMore(kept: seq<seq<nat>>, sent: seq<seq<nat>>, has: seq<nat>, out: seq<nat>)
    requires Ordered(has, kept, out) && forall p :: 0 <= p < |sent| ==> sent[p] == out
    ensures Ordered(has, kept + sent, out)
  {
  }

  lemma WindowsStep(past: seq<Ring>, r: Ring, t: Times, s: Step)
    requires DataInv(past, r, t) && Enabled(r, s)
    ensures WindowsOk(past + [Apply(r, s)], Apply(r, s), Moved(r, s, t, |past|))
  {
    var r', t' := Apply(r, s), Moved(r, s, t, |past|);
    forall i: nat | i < |r.roles| && !r.roles[i].Relay? ensures WindowOk(past + [r'], r', t', i) {
      WindowStep(past, r, t, s, i);
    }
  }

  lemma MessagesStep(past: seq<Ring>, r: Ring, t: Times, s: Step)
    requires DataInv(past, r, t) && Enabled(r, s)
    ensures MessagesOk(past + [Apply(r, s)], Apply(r, s), Moved(r, s, t, |past|))
  {
    var r', t' := Apply(r, s), Moved(r, s, t, |past|);
    forall i: nat, k: nat | i < |r.roles| && k < |r'.wires[i]|
      ensures MessageOk(past + [r'], r', i, r'.wires[i][k], t'.wires[i][k])
    {
      MessageStep(past, r, t, s, i, k);
    }
  }

  lemma AllOrderStep(past: seq<Ring>, r: Ring, t: Times, s: Step)
    requires DataInv(past, r, t) && Enabled(r, s)
    ensures AllInOrder(Apply(r, s), Moved(r, s, t, |past|)) && Later(t, Moved(r, s, t, |past|))
  {
    var t' := Moved(r, s, t, |past|);
    forall i: nat | i < |r.roles| ensures InOrder(Apply(r, s), t', i) {
      OrderStep(past, r, t, s, i);
    }
    forall i: nat | i < |r.roles| ensures NoneBack(t.windows[i], t'.windows[i]) {
      assert InOrder(r, t, r.Prev(i)) && t.windows[i][0] == |past| - 1;
      Forward(r, t, s, |past|, i);
    }
  }

  lemma DataInvStep(past: seq<Ring>, r: Ring, t: Times, s: Step)
    requires DataInv(past, r, t) && Enabled(r, s)
    ensures DataInv(past + [Apply(r, s)], Apply(r, s), Moved(r, s, t, |past|))
    ensures Later(t, Moved(r, s, t, |past|))
  {
    InvStep(r, s);
    WindowsStep(past, r, t, s);
    MessagesStep(past, r, t, s);
    AllOrderStep(past, r, t, s);
  }

  // ---- Runs ------------------------------------------------------------------------------

  /** The states of a run, the first one included. */
  ghost function States(r: Ring, steps: seq<Step>): (states: seq<Ring>)
    requires Shaped(r)
    ensures states != [] && states[0] == r
    decreases |steps|
  {
    if steps != [] && Enabled(r, steps[0]) then [r] + States(Apply(r, steps[0]), steps[1..]) else [r]
  }

  /** The moments at the end of a run whose first state is moment now - 1. */
  ghost function TimesAfter(r: Ring, t: Times, steps: seq<Step>, now: nat): (t': Times)
    requires Shaped(r) && TimesShaped(r, t)
    ensures |t'.windows| == |r.roles| && forall i :: 0 <= i < |r.roles| ==> |t'.windows[i]| == 9
    decreases |steps|
  {
    if steps != [] && Enabled(r, steps[0]) then
      TimesAfter(Apply(r, steps[0]), Moved(r, steps[0], t, now), steps[1..], now + 1)
    else t
  }

  lemma LaterTwice(a: Times, b: Times, c: Times)
    requires Later(a, b) && Later(b, c)
    ensures Later(a, c)
  {
    forall i | 0 <= i < |a.windows| ensures NoneBack(a.windows[i], c.windows[i]) {
      assert NoneBack(a.windows[i], b.windows[i]) && NoneBack(b.windows[i], c.windows[i]);
    }
  }

  lemma {:induction false} DataInvRun(past: seq<Ring>, r: Ring, t: Times, steps: seq<Step>, r': Ring)
    requires DataInv(past, r, t) && Reaches(r, steps, r')
    ensures DataInv(past + States(r, steps)[1..], r', TimesAfter(r, t, steps, |past|))
    ensures Later(t, TimesAfter(r, t, steps, |past|))
    ensures |States(r, steps)| == |steps| + 1
    decreases |steps|
  {
    if steps == [] {
      assert past + States(r, steps)[1..] == past;
    } else {
      var m, t' := Apply(r, steps[0]), Moved(r, steps[0], t, |past|);
      DataInvStep(past, r, t, steps[0]);
      DataInvRun(past + [m], m, t', steps[1..], r');
      StatesStep(past, r, steps);
      LaterTwice(t, t', TimesAfter(m, t', steps[1..], |past| + 1));
    }
  }

  lemma StatesStep(past: seq<Ring>, r: Ring, steps: seq<Step>)
    requires Shaped(r) && steps != [] && Enabled(r, steps[0])
    ensures var m := Apply(r, steps[0]);
            && |States(r, steps)| == |States(m, steps[1..])| + 1
            && past + States(r, steps)[1..] == past + [m] + States(m, steps[1..])[1..]
  {
  }

  /** t' are the moments halfway, and `later` the number of the first moment after. */
  lemma {:induction false} TimesConcat(r: Ring, t: Times, steps: seq<Step>, m: Ring, t': Times, more: seq<Step>,
                                       now: nat, later: nat)
    requires Shaped(r) && TimesShaped(r, t) && Reaches(r, steps, m)
    requires later == now + |steps| && t' == TimesAfter(r, t, steps, now)
    ensures Shaped(m) && TimesShaped(m, t')
    ensures TimesAfter(r, t, steps + more, now) == TimesAfter(m, t', more, later)
    decreases |steps|
  {
    if steps == [] {
      assert steps + more == more;
    } else {
      HeadAndTail(steps, more);
      TimesStep(r, t, steps, now);
      TimesStep(r, t, steps + more, now);
      TimesConcat(Apply(r, steps[0]), Moved(r, steps[0], t, now), steps[1..], m, t', more, now + 1, later);
    }
  }

  lemma TimesStep(r: Ring, t: Times, steps: seq<Step>, now: nat)
    requires Shaped(r) && TimesShaped(r, t) && steps != [] && Enabled(r, steps[0])
    ensures TimesAfter(r, t, steps, now)
         == TimesAfter(Apply(r, steps[0]), Moved(r, steps[0], t, now), steps[1..], now + 1)
  {
  }

  lemma InitTimes(r: Ring)
    requires Init(r)
    ensures TimesShaped(r, ZeroTimes(|r.roles|))
  {
    forall i: nat | i < |r.roles| ensures r.wires[i] == [] { assert InitAt(r, i); }
  }

  /** The moment that block j of cabinet i's window comes from, after these steps. */
  ghost function Origin(r0: Ring, steps: seq<Step>, i: nat, j: nat): nat
    requires Init(r0) && i < |r0.roles| && j < 9
  {
    InitTimes(r0);
    TimesAfter(r0, ZeroTimes(|r0.roles|), steps, 1).windows[i][j]
  }

  /**
   The shift register, in every state of every run: block j of a numbered cabinet's
   window is what block 0 of the numbered cabinet j hops before was at the moment
   `Origin`; block 0 is the cabinet's own as it is now.
   */
  lemma ShiftRegister(r0: Ring, steps: seq<Step>, r: Ring, i: nat, j: nat)
    requires Init(r0) && Reaches(r0, steps, r) && Numbered(r0.roles) <= 0xfb
    requires i < |r0.roles| && !r0.roles[i].Relay? && j < 9
    ensures i < |r.nodes| && |States(r0, steps)| == |steps| + 1
    ensures Was(States(r0, steps), Back(r0.roles, i, j), Origin(r0, steps, i, j), WindowBlock(r.nodes[i].shared, j))
    ensures Origin(r0, steps, i, 0) == |steps|
  {
    var t := ZeroTimes(|r0.roles|);
    RolesKept(r0, steps, r);
    InitTimes(r0);
    InitDataInv(r0);
    DataInvRun([r0], r0, t, steps, r);
    assert [r0] + States(r0, steps)[1..] == States(r0, steps);
    assert WindowOk(States(r0, steps), r, TimesAfter(r0, t, steps, 1), i);
  }

  /** As the run goes on, no block of any window ever comes from an earlier moment than before. */
  lemma NeverBack(r0: Ring, steps: seq<Step>, m: Ring, more: seq<Step>, r: Ring, i: nat, j: nat)
    requires Init(r0) && Numbered(r0.roles) <= 0xfb && Reaches(r0, steps, m) && Reaches(m, more, r)
    requires i < |r0.roles| && j < 9
    ensures Origin(r0, steps, i, j) <= Origin(r0, steps + more, i, j)
  {
    var t := ZeroTimes(|r0.roles|);
    InitTimes(r0);
    InitDataInv(r0);
    DataInvRun([r0], r0, t, steps, m);
    var t' := TimesAfter(r0, t, steps, 1);
    TimesConcat(r0, t, steps, m, t', more, 1, 1 + |steps|);
    DataInvRun([r0] + States(r0, steps)[1..], m, t', more, r);
    assert NoneBack(t'.windows[i], TimesAfter(m, t', more, 1 + |steps|).windows[i]);
  }
}
