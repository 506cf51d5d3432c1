/**
 The race data goes round: every data message a cabinet takes it answers with one, and
 from any ring that has not broken there is a run after which every block of every
 numbered cabinet's window comes from after its start.
 */
module RingRace {
  import opened LinkNode
  import opened LinkRing
  import opened RingNumbering
  import V = RingVsync
  import opened RingData
  import opened RingStart

  // ---- What is sent and taken ---------------------------------------------------

  /** The messages the step's cabinet takes. */
  ghost function Took(r: Ring, s: Step): seq<Frame>
    requires Shaped(r) && Enabled(r, s)
  {
    if s.Receive? then r.wires[r.Prev(s.i)][..1] else []
  }

  /** All that cabinet i sends, and takes, in a run. */
  ghost function SentBy(r: Ring, steps: seq<Step>, i: nat): seq<Frame>
    requires Shaped(r)
    decreases |steps|
  {
    if steps != [] && Enabled(r, steps[0]) then
      (if steps[0].i == i then Effect(r, steps[0]).sent else []) + SentBy(Apply(r, steps[0]), steps[1..], i)
    else []
  }

  ghost function TakenBy(r: Ring, steps: seq<Step>, i: nat): seq<Frame>
    requires Shaped(r)
    decreases |steps|
  {
    if steps != [] && Enabled(r, steps[0]) then
      (if steps[0].i == i then Took(r, steps[0]) else []) + TakenBy(Apply(r, steps[0]), steps[1..], i)
    else []
  }

  /** The data messages among these. */
  function Races(w: seq<Frame>): seq<Frame> {
    if w == [] then [] else (if Tag(w[0]) < VSYNC then [w[0]] else []) + Races(w[1..])
  }

  lemma {:induction false} RacesConcat(a: seq<Frame>, b: seq<Frame>)
    ensures Races(a + b) == Races(a) + Races(b)
  {
    if a == [] {
      assert a + b == b;
    } else {
      HeadAndTail(a, b);
      RacesConcat(a[1..], b);
    }
  }

  lemma OneRace(f: Frame)
    ensures Races([f]) == if Tag(f) < VSYNC then [f] else []
  {
    assert [f][1..] == [];
  }

  /**
   What a cabinet that is up does with data, in numbers: the payload is blocks 1 to 8
   of its window, block 0 stays; a slave sends on one message, its number and its first
   eight blocks as they are then; a relay sends on the message as it came; the master
   sends nothing.
   */
  lemma PassesOn(r: Ring, i: nat)
    requires Inv(r) && i < |r.roles| && r.nodes[i].alive == 1 && r.wires[r.Prev(i)] != []
    requires 1 <= Tag(r.wires[r.Prev(i)][0]) <= Numbered(r.roles)
    ensures Enabled(r, Receive(i))
    ensures var f, n, sent := r.wires[r.Prev(i)][0], Apply(r, Receive(i)).nodes[i], Effect(r, Receive(i)).sent;
            && (forall j: nat :: j < 8 ==> WindowBlock(n.shared, j + 1) == FrameBlock(f, j))
            && WindowBlock(n.shared, 0) == WindowBlock(r.nodes[i].shared, 0)
            && (r.roles[i].Master? ==> sent == [])
            && (r.roles[i].Relay? ==> sent == [f])
            && (r.roles[i].Slave? ==>
                  |sent| == 1 && sent[0][0] == r.nodes[i].id
                  && forall j: nat :: j < 8 ==> FrameBlock(sent[0], j) == WindowBlock(n.shared, j))
  {
    assert NodeOk(r, i);
    var f, n, m := r.wires[r.Prev(i)][0], r.nodes[i], Apply(r, Receive(i)).nodes[i];
    StoreShifts(n.shared, f);
    assert m.shared == StoreFrame(n.shared, f);
    forall j: nat | j < 8 ensures WindowBlock(m.shared, j + 1) == FrameBlock(f, j) {
      StoreShiftsAt(n.shared, f, j);
    }
    if r.roles[i].Slave? {
      forall j: nat | j < 8 ensures FrameBlock(DataFrame(m.id, m.shared), j) == WindowBlock(m.shared, j) {
        SendCopies(m.id, m.shared, j);
      }
    }
  }

  /** A slave or relay answers each data message with one, a relay with the same; the master starts one each tick. */
  lemma RaceEffect(r: Ring, s: Step)
    requires Inv(r) && Enabled(r, s)
    ensures s.i > 0 ==> |Races(Effect(r, s).sent)| == |Races(Took(r, s))|
    ensures r.roles[s.i].Relay? ==> Races(Effect(r, s).sent) == Races(Took(r, s))
    ensures s.i == 0 ==> |Races(Effect(r, s).sent)| == if s.Tick? then 1 else 0
  {
    var i := s.i;
    assert NodeOk(r, i);
    if s.Receive? {
      TakeEffect(r, i);
    } else if s.Tick? && i == 0 {
      var d, v := Effect(r, s).sent[0], Effect(r, s).sent[1];
      assert Effect(r, s).sent == [d] + [v];
      RacesConcat([d], [v]);
      OneRace(d);
      OneRace(v);
    } else if Effect(r, s).sent != [] {
      var g := Effect(r, s).sent[0];
      assert Effect(r, s).sent == [g];
      OneRace(g);
    }
  }

  lemma TakeEffect(r: Ring, i: nat)
    requires Inv(r) && i < |r.roles| && Enabled(r, Receive(i))
    ensures var sent, took := Effect(r, Receive(i)).sent, Took(r, Receive(i));
            && (i > 0 ==> |Races(sent)| == |Races(took)|)
            && (r.roles[i].Relay? ==> Races(sent) == Races(took))
            && (i == 0 ==> Races(sent) == [])
  {
    HeadFacts(r, i);
    assert NodeOk(r, i);
    var f := r.wires[r.Prev(i)][0];
    assert Took(r, Receive(i)) == [f];
    OneRace(f);
    if i > 0 {
      SlavesMonotone(r.roles, i, |r.roles|);
      var g := Effect(r, Receive(i)).sent[0];
      assert Effect(r, Receive(i)).sent == [g];
      OneRace(g);
    }
  }

  /** What one step does to wire i. */
  lemma WireStep(r: Ring, s: Step, i: nat)
    requires Shaped(r) && Enabled(r, s) && i < |r.roles|
    ensures (if s.i == r.Next(i) then Took(r, s) else []) + Apply(r, s).wires[i]
         == r.wires[i] + (if s.i == i then Effect(r, s).sent else [])
  {
    assert s.i == r.Next(i) <==> i == r.Prev(s.i);
    var w := r.wires[i];
    if s.Receive? && s.i == r.Next(i) {
      assert w == w[..1] + w[1..];
    }
  }

  /**
   Over any run: what has been taken from a wire, and is on it, is what was on it and has
   been sent; and a slave or a relay has sent as many data messages as it has taken, a
   relay the very same ones.
   */
  lemma {:induction false} RaceBooks(r: Ring, steps: seq<Step>, r': Ring, i: nat)
    requires Inv(r) && Reaches(r, steps, r') && i < |r.roles|
    ensures r'.roles == r.roles && i < |r'.wires|
    ensures TakenBy(r, steps, r.Next(i)) + r'.wires[i] == r.wires[i] + SentBy(r, steps, i)
    ensures i > 0 ==> |Races(SentBy(r, steps, i))| == |Races(TakenBy(r, steps, i))|
    ensures r.roles[i].Relay? ==> Races(SentBy(r, steps, i)) == Races(TakenBy(r, steps, i))
    decreases |steps|
  {
    if steps == [] {
      assert r.wires[i] + [] == [] + r.wires[i];
    } else {
      var s, m, rest := steps[0], Apply(r, steps[0]), steps[1..];
      InvStep(r, s);
      RaceBooks(m, rest, r', i);
      WireStep(r, s, i);
      var took := if s.i == r.Next(i) then Took(r, s) else [];
      var sent := if s.i == i then Effect(r, s).sent else [];
      BooksAdd(took, TakenBy(m, rest, r.Next(i)), r'.wires[i], r.wires[i], sent, SentBy(m, rest, i), m.wires[i]);
      RaceEffect(r, s);
      RacesConcat(sent, SentBy(m, rest, i));
      RacesConcat(if s.i == i then Took(r, s) else [], TakenBy(m, rest, i));
    }
  }

  lemma BooksAdd(took: seq<Frame>, takenLater: seq<Frame>, at: seq<Frame>, was: seq<Frame>, sent: seq<Frame>,
                 sentLater: seq<Frame>, between: seq<Frame>)
    requires took + between == was + sent && takenLater + at == between + sentLater
    ensures (took + takenLater) + at == was + (sent + sentLater)
  {
    assert (took + takenLater) + at == took + (takenLater + at);
    assert took + (between + sentLater) == (took + between) + sentLater;
    assert (was + sent) + sentLater == was + (sent + sentLater);
  }

  // ---- One round of the race data --------------------------------------------------

  /** Blocks 0 to m come from moment `start` or later. */
  predicate Since(w: seq<nat>, m: nat, start: nat) {
    forall j :: 0 <= j <= m && j < |w| ==> w[j] >= start
  }

  /** A data message and a vsync token are on wire k, and nothing on the others. */
  ghost predicate RaceOn(r: Ring, k: nat)
    requires Shaped(r) && k < |r.roles|
  {
    && |r.wires[k]| == 2
    && 1 <= Tag(r.wires[k][0]) <= Numbered(r.roles) && Tag(r.wires[k][1]) == VSYNC
    && forall i :: 0 <= i < |r.roles| && i != k ==> r.wires[i] == []
  }

  /** Cabinet i takes both: what it sends is on its own wire, the master sends nothing. */
  lemma Hop(r: Ring, i: nat)
    requires Inv(r) && UpBelow(r, |r.roles|) && i < |r.roles| && RaceOn(r, r.Prev(i))
    ensures Enabled(r, Receive(i)) && Stores(r, Receive(i))
    ensures var m := Apply(r, Receive(i));
            && Inv(m) && Enabled(m, Receive(i)) && !Stores(m, Receive(i))
            && |Effect(r, Receive(i)).sent| == (if i == 0 then 0 else 1)
            && var q := Apply(m, Receive(i));
               && Inv(q) && UpBelow(q, |r.roles|) && q.nodes[i].timer == 0
               && (forall k :: 0 <= k < |r.roles| && k != i ==> q.nodes[k] == r.nodes[k])
               && if i == 0 then WiresEmpty(q) else RaceOn(q, i)
  {
    var p, m := r.Prev(i), Apply(r, Receive(i));
    assert NodeOk(r, i);
    InvStep(r, Receive(i));
    PrevOther(r, i);
    FirstTaken(r, i);
    SecondTaken(m, i);
    InvStep(m, Receive(i));
  }

  /** The wires halfway: the token before cabinet i, its answer to the data after it. */
  ghost predicate Halfway(r: Ring, i: nat)
    requires Shaped(r) && i < |r.roles|
  {
    var p := r.Prev(i);
    && |r.wires[p]| == 1 && Tag(r.wires[p][0]) == VSYNC
    && (i > 0 ==> p != i && |r.wires[i]| == 1 && 1 <= Tag(r.wires[i][0]) <= Numbered(r.roles))
    && forall k :: 0 <= k < |r.roles| && k != p && (k != i || i == 0) ==> r.wires[k] == []
  }

  lemma FirstTaken(r: Ring, i: nat)
    requires Inv(r) && UpBelow(r, |r.roles|) && i < |r.roles| && RaceOn(r, r.Prev(i))
    ensures Enabled(r, Receive(i)) && Stores(r, Receive(i))
    ensures |Effect(r, Receive(i)).sent| == (if i == 0 then 0 else 1)
    ensures var m := Apply(r, Receive(i));
            && UpBelow(m, |r.roles|) && Halfway(m, i)
            && forall k :: 0 <= k < |r.roles| && k != i ==> m.nodes[k] == r.nodes[k]
  {
    assert NodeOk(r, i);
    PrevOther(r, i);
    SlavesMonotone(r.roles, i, |r.roles|);
    var w := Drained(r, Receive(i));
    assert w[i] + [] == w[i];
  }

  lemma SecondTaken(r: Ring, i: nat)
    requires Inv(r) && UpBelow(r, |r.roles|) && i < |r.roles| && Halfway(r, i)
    ensures Enabled(r, Receive(i)) && !Stores(r, Receive(i))
    ensures var q := Apply(r, Receive(i));
            && UpBelow(q, |r.roles|) && q.nodes[i].timer == 0
            && (forall k :: 0 <= k < |r.roles| && k != i ==> q.nodes[k] == r.nodes[k])
            && if i == 0 then WiresEmpty(q) else RaceOn(q, i)
  {
    assert NodeOk(r, i);
    var w := Drained(r, Receive(i));
    assert w[i] + [] == w[i];
  }

  /** The moments after both: cabinet i has the message's, and sends its own on. */
  lemma HopTimes(r: Ring, t: Times, i: nat, now: nat)
    requires Inv(r) && UpBelow(r, |r.roles|) && i < |r.roles| && RaceOn(r, r.Prev(i)) && TimesShaped(r, t)
    ensures Enabled(r, Receive(i)) && Enabled(Apply(r, Receive(i)), Receive(i))
    ensures var m, t1 := Apply(r, Receive(i)), Moved(r, Receive(i), t, now);
            var t2 := Moved(m, Receive(i), t1, now + 1);
            && t2.windows[i] == [now + 1] + t.wires[r.Prev(i)][0]
            && (forall k :: 0 <= k < |r.roles| && k != i ==> t2.windows[k] == [now + 1] + t.windows[k][1..])
            && (i > 0 ==> |t2.wires[i]| == 2 && t2.wires[i][0] == Sends(r.roles[i], [now] + t.wires[r.Prev(i)][0]))
  {
    Hop(r, i);
    PrevOther(r, i);
    var m, t1, now1, s := Apply(r, Receive(i)), Moved(r, Receive(i), t, now), now + 1, Receive(i);
    forall k: nat | k < |r.roles|
      ensures Moved(m, s, t1, now1).windows[k] == [now1] + NewWindow(r, s, t, now, k)[1..]
    {
      assert Moved(m, s, t1, now1).windows[k] == NewWindow(m, s, t1, now1, k);
      assert t1.windows[k] == NewWindow(r, s, t, now, k);
    }
    assert NewWindow(r, s, t, now, i) == [now] + t.wires[r.Prev(i)][0];
    if i > 0 {
      WireAfter(r, s, t, now, i);
      WireAfter(m, s, t1, now1, i);
    }
  }

  /** Every numbered cabinet's window is from `start` or later in blocks 0 to m, below cabinet k (the master apart) in one more. */
  ghost predicate WindowsSince(roles: seq<Role>, windows: seq<seq<nat>>, k: nat, m: nat, start: nat) {
    && |windows| == |roles|
    && forall i :: 0 <= i < |roles| && !roles[i].Relay? ==> Since(windows[i], if 0 < i < k then m + 1 else m, start)
  }

  ghost predicate ServedBelow(r: Ring, k: nat)
    requires Shaped(r)
  {
    forall i :: 0 < i < k && i < |r.roles| ==> r.nodes[i].timer == 0
  }

  /** The round has come to the wire before cabinet k. */
  ghost predicate UnderWay(r: Ring, t: Times, k: nat, m: nat, start: nat) {
    && Inv(r) && TimesShaped(r, t) && UpBelow(r, |r.roles|)
    && 0 < k <= |r.roles| && RaceOn(r, k - 1)
    && Since(t.wires[k - 1][0], m, start) && WindowsSince(r.roles, t.windows, k, m, start) && ServedBelow(r, k)
  }

  lemma SinceMore(now: nat, w: seq<nat>, m: nat, start: nat)
    requires |w| == 8 && Since(w, m, start) && start <= now && m < 8
    ensures Since([now] + w, m + 1, start) && Since(([now] + w)[..8], m, start)
  {
  }

  lemma SinceStill(now: nat, w: seq<nat>, m: nat, start: nat)
    requires |w| == 9 && Since(w, m, start) && start <= now
    ensures Since([now] + w[1..], m, start)
  {
  }

  /** The round goes from the wire before cabinet k, a slave or relay, to the wire after it. */
  lemma HopOn(r: Ring, t: Times, k: nat, m: nat, start: nat, now: nat)
    requires UnderWay(r, t, k, m, start) && k < |r.roles| && m < 8 && start <= now
    ensures Enabled(r, Receive(k)) && Enabled(Apply(r, Receive(k)), Receive(k))
    ensures var a, t1 := Apply(r, Receive(k)), Moved(r, Receive(k), t, now);
            UnderWay(Apply(a, Receive(k)), Moved(a, Receive(k), t1, now + 1), k + 1, m, start)
  {
    assert r.Prev(k) == k - 1;
    Hop(r, k);
    HopTimes(r, t, k, now);
    HopWindows(r, t, k, m, start, now);
    SinceMore(now, t.wires[k - 1][0], m, start);
  }

  /** The windows when cabinet i has stored a message and block 0 is now everywhere. */
  lemma WindowsMore(roles: seq<Role>, w: seq<seq<nat>>, w': seq<seq<nat>>, i: nat, f: seq<nat>, m: nat, start: nat, now: nat)
    requires |w| == |w'| == |roles| && i < |roles| && |f| == 8 && m < 8 && start <= now
    requires forall k :: 0 <= k < |w| ==> |w[k]| == 9
    requires w'[i] == [now] + f && forall k :: 0 <= k < |w| && k != i ==> w'[k] == [now] + w[k][1..]
    requires Since(f, m, start) && WindowsSince(roles, w, if i == 0 then |roles| else i, m, start)
    ensures if i == 0 then WindowsSince(roles, w', 0, m + 1, start) else WindowsSince(roles, w', i + 1, m, start)
  {
    SinceMore(now, f, m, start);
    forall k | 0 <= k < |roles| && !roles[k].Relay? && k != i
      ensures Since(w'[k], if 0 < k < (if i == 0 then |roles| else i) then m + 1 else m, start)
    {
      SinceStill(now, w[k], if 0 < k < (if i == 0 then |roles| else i) then m + 1 else m, start);
    }
  }

  /** The windows after a hop, the master's own included. */
  lemma HopWindows(r: Ring, t: Times, i: nat, m: nat, start: nat, now: nat)
    requires Inv(r) && UpBelow(r, |r.roles|) && i < |r.roles| && RaceOn(r, r.Prev(i)) && TimesShaped(r, t)
    requires m < 8 && start <= now && Since(t.wires[r.Prev(i)][0], m, start)
    requires WindowsSince(r.roles, t.windows, if i == 0 then |r.roles| else i, m, start)
    ensures Enabled(r, Receive(i)) && Enabled(Apply(r, Receive(i)), Receive(i))
    ensures var w := Moved(Apply(r, Receive(i)), Receive(i), Moved(r, Receive(i), t, now), now + 1).windows;
            if i == 0 then WindowsSince(r.roles, w, 0, m + 1, start) else WindowsSince(r.roles, w, i + 1, m, start)
  {
    HopTimes(r, t, i, now);
    var w := Moved(Apply(r, Receive(i)), Receive(i), Moved(r, Receive(i), t, now), now + 1).windows;
    WindowsMore(r.roles, t.windows, w, i, t.wires[r.Prev(i)][0], m, start, now + 1);
  }

  /** The master takes the data back. */
  lemma LastHop(r: Ring, t: Times, m: nat, start: nat, now: nat)
    requires UnderWay(r, t, |r.roles|, m, start) && m < 8 && start <= now
    ensures Enabled(r, Receive(0)) && Enabled(Apply(r, Receive(0)), Receive(0))
    ensures var a, t1 := Apply(r, Receive(0)), Moved(r, Receive(0), t, now);
            var q, t2 := Apply(a, Receive(0)), Moved(a, Receive(0), t1, now + 1);
            UpAndQuiet(q) && Inv(q) && WindowsSince(q.roles, t2.windows, 0, m + 1, start) && Served(q)
  {
    assert r.Prev(0) == |r.roles| - 1;
    Hop(r, 0);
    HopWindows(r, t, 0, m, start, now);
  }

  /** No cabinet waits for a vsync. */
  ghost predicate Served(r: Ring)
    requires Shaped(r)
  {
    forall i :: 0 <= i < |r.roles| ==> r.nodes[i].timer == 0
  }

  /** The two steps of a hop, and what follows them. */
  lemma TwoMore(r: Ring, t: Times, s: Step, now: nat, steps: seq<Step>, r': Ring)
    requires Shaped(r) && TimesShaped(r, t) && Enabled(r, s) && Enabled(Apply(r, s), s)
    requires Reaches(Apply(Apply(r, s), s), steps, r')
    ensures Reaches(r, [s, s] + steps, r')
    ensures var a, t1 := Apply(r, s), Moved(r, s, t, now);
            TimesAfter(r, t, [s, s] + steps, now) == TimesAfter(Apply(a, s), Moved(a, s, t1, now + 1), steps, now + 2)
  {
    var a, t1 := Apply(r, s), Moved(r, s, t, now);
    assert [s, s] + steps == [s] + ([s] + steps);
    assert ([s] + steps)[1..] == steps;
    assert ([s] + ([s] + steps))[1..] == [s] + steps;
    TimesStep(r, t, [s] + ([s] + steps), now);
    TimesStep(a, t1, [s] + steps, now + 1);
  }

  /** The rest of the round. */
  lemma {:induction false} RoundFrom(r: Ring, t: Times, k: nat, m: nat, start: nat, now: nat)
      returns (steps: seq<Step>, r': Ring, t': Times)
    requires UnderWay(r, t, k, m, start) && m < 8 && start <= now
    ensures Reaches(r, steps, r') && t' == TimesAfter(r, t, steps, now) && r'.roles == r.roles
    ensures UpAndQuiet(r') && Inv(r') && TimesShaped(r', t') && WindowsSince(r'.roles, t'.windows, 0, m + 1, start) && Served(r')
    decreases |r.roles| - k
  {
    var s := if k < |r.roles| then Receive(k) else Receive(0);
    var rest;
    if k < |r.roles| {
      HopOn(r, t, k, m, start, now);
      var a, t1 := Apply(r, s), Moved(r, s, t, now);
      rest, r', t' := RoundFrom(Apply(a, s), Moved(a, s, t1, now + 1), k + 1, m, start, now + 2);
    } else {
      LastHop(r, t, m, start, now);
      var a, t1 := Apply(r, s), Moved(r, s, t, now);
      rest, r', t' := [], Apply(a, s), Moved(a, s, t1, now + 1);
    }
    TwoMore(r, t, s, now, rest, r');
    steps := [s, s] + rest;
  }

  /** The master's tick starts a round. */
  lemma TickStarts(r: Ring, t: Times, m: nat, start: nat, now: nat)
    requires UpAndQuiet(r) && Inv(r) && Enabled(r, Tick(0)) && TimesShaped(r, t) && start <= now && m < 8
    requires WindowsSince(r.roles, t.windows, 0, m, start)
    ensures UnderWay(Apply(r, Tick(0)), Moved(r, Tick(0), t, now), 1, m, start)
  {
    var s, r', t' := Tick(0), Apply(r, Tick(0)), Moved(r, Tick(0), t, now);
    InvStep(r, s);
    assert NodeOk(r, 0);
    WireAfter(r, s, t, now, 0);
    assert t.wires[0] == [];
    SinceStill(now, t.windows[0], m, start);
    assert NewWindow(r, s, t, now, 0) == [now] + t.windows[0][1..];
    forall i: nat | i < |r.roles| && !r.roles[i].Relay? ensures Since(t'.windows[i], m, start) {
      SinceStill(now, t.windows[i], m, start);
      assert t'.windows[i] == NewWindow(r, s, t, now, i);
    }
  }

  /** One whole round brings every window one block further. */
  lemma OneRound(r: Ring, t: Times, m: nat, start: nat, now: nat) returns (steps: seq<Step>, r': Ring, t': Times)
    requires UpAndQuiet(r) && V.Flow(r) && V.TokenOut(r) && TimesShaped(r, t) && start <= now && m < 8
    requires WindowsSince(r.roles, t.windows, 0, m, start)
    ensures Reaches(r, steps, r') && t' == TimesAfter(r, t, steps, now) && r'.roles == r.roles
    ensures UpAndQuiet(r') && TimesShaped(r', t') && WindowsSince(r'.roles, t'.windows, 0, m + 1, start) && Served(r')
  {
    V.MayTick(r);
    TickStarts(r, t, m, start, now);
    var rest;
    rest, r', t' := RoundFrom(Apply(r, Tick(0)), Moved(r, Tick(0), t, now), 1, m, start, now + 1);
    steps := [Tick(0)] + rest;
    assert steps[1..] == rest;
    TimesStep(r, t, steps, now);
  }

  /** Two runs, one after the other. */
  lemma RunsOn(r: Ring, t: Times, a: seq<Step>, q: Ring, u: Times, b: seq<Step>, r': Ring, t': Times,
               now: nat, later: nat)
    requires Shaped(r) && TimesShaped(r, t) && Reaches(r, a, q) && u == TimesAfter(r, t, a, now) && later == now + |a|
    requires Reaches(q, b, r') && Shaped(q) && TimesShaped(q, u) && t' == TimesAfter(q, u, b, later)
    ensures Reaches(r, a + b, r') && t' == TimesAfter(r, t, a + b, now)
  {
    TimesConcat(r, t, a, q, u, b, now, later);
    ReachesConcat(r, a, q, b, r');
  }

  /** Rounds until all nine blocks have been brought on. */
  lemma {:induction false} Rounds(r: Ring, t: Times, m: nat, start: nat, now: nat)
      returns (steps: seq<Step>, r': Ring, t': Times)
    requires UpAndQuiet(r) && V.Flow(r) && V.TokenOut(r) && TimesShaped(r, t) && start <= now && m < 8
    requires WindowsSince(r.roles, t.windows, 0, m, start)
    ensures Reaches(r, steps, r') && t' == TimesAfter(r, t, steps, now) && r'.roles == r.roles
    ensures UpAndQuiet(r') && TimesShaped(r', t') && WindowsSince(r'.roles, t'.windows, 0, 8, start) && Served(r')
    decreases 8 - m
  {
    steps, r', t' := OneRound(r, t, m, start, now);
    if m < 7 {
      V.FlowRun(r, steps, r');
      var q, u, first, later := r', t', steps, now + |steps|;
      var more;
      more, r', t' := Rounds(q, u, m + 1, start, later);
      RunsOn(r, t, first, q, u, more, r', t', now, later);
      steps := first + more;
    }
  }

  /** Every block of every numbered cabinet's window comes from that moment of the run or from after it. */
  ghost predicate AllFrom(r0: Ring, steps: seq<Step>, start: nat)
    requires Init(r0)
  {
    forall i: nat, j: nat :: i < |r0.roles| && !r0.roles[i].Relay? && j < 9 ==> Origin(r0, steps, i, j) >= start
  }

  /**
   The race data goes round: while no cabinet has lost the link, every run can be gone on
   with so that every block of every numbered cabinet's window comes from after its end,
   no message is under way, and no cabinet waits for a vsync.
   */
  lemma GoesRoundAgain(r0: Ring, steps: seq<Step>, r: Ring) returns (more: seq<Step>, r': Ring)
    requires Init(r0) && Numbered(r0.roles) <= 0xfb && Reaches(r0, steps, r) && NoneLost(r)
    ensures Reaches(r, more, r') && UpAndQuiet(r') && Served(r') && r'.roles == r0.roles
    ensures AllFrom(r0, steps + more, |steps|)
  {
    RolesKept(r0, steps, r);
    var a, q := CanComeUp(r);
    ReachesConcat(r0, steps, r, a, q);
    var b;
    b, r' := RoundsFrom(r0, steps + a, q, |steps|);
    more := a + b;
    ReachesConcat(r, a, q, b, r');
    Grouped(steps, a, b);
  }

  lemma Grouped(a: seq<Step>, b: seq<Step>, c: seq<Step>)
    ensures (a + b) + c == a + (b + c)
  {
  }

  /** The rounds, from a state in which nothing is under way. */
  lemma RoundsFrom(r0: Ring, steps: seq<Step>, r: Ring, start: nat) returns (more: seq<Step>, r': Ring)
    requires Init(r0) && Numbered(r0.roles) <= 0xfb && Reaches(r0, steps, r) && UpAndQuiet(r) && start <= |steps|
    ensures Reaches(r, more, r') && UpAndQuiet(r') && Served(r') && r'.roles == r.roles == r0.roles
    ensures AllFrom(r0, steps + more, start)
  {
    FlowAtEnd(r0, steps, r);
    var t := TimesAt(r0, steps, r, start);
    var t';
    more, r', t' := Rounds(r, t, 0, start, 1 + |steps|);
    SinceAtEnd(r0, steps, r, t, more, r', t', start);
  }

  lemma FlowAtEnd(r0: Ring, steps: seq<Step>, r: Ring)
    requires Init(r0) && Numbered(r0.roles) <= 0xfb && Reaches(r0, steps, r)
    ensures r.roles == r0.roles && V.Flow(r) && V.TokenOut(r)
  {
    RolesKept(r0, steps, r);
    V.InitFlow(r0);
    V.FlowRun(r0, steps, r);
  }

  lemma SinceAtEnd(r0: Ring, steps: seq<Step>, r: Ring, t: Times, more: seq<Step>, r': Ring, t': Times, start: nat)
    requires Init(r0) && TimesShaped(r0, ZeroTimes(|r0.roles|)) && Reaches(r0, steps, r)
    requires t == TimesAfter(r0, ZeroTimes(|r0.roles|), steps, 1)
    requires Shaped(r) && TimesShaped(r, t) && Reaches(r, more, r') && t' == TimesAfter(r, t, more, 1 + |steps|)
    requires Shaped(r') && r'.roles == r0.roles && TimesShaped(r', t') && WindowsSince(r'.roles, t'.windows, 0, 8, start)
    ensures AllFrom(r0, steps + more, start)
  {
    RunsOn(r0, ZeroTimes(|r0.roles|), steps, r, t, more, r', t', 1, 1 + |steps|);
    AllSince(r0, steps + more, r', t', start);
  }

  /** The moments at the end of a run: block 0 is the end's own. */
  lemma TimesAt(r0: Ring, steps: seq<Step>, r: Ring, start: nat) returns (t: Times)
    requires Init(r0) && Numbered(r0.roles) <= 0xfb && Reaches(r0, steps, r) && start <= |steps|
    ensures TimesShaped(r0, ZeroTimes(|r0.roles|)) && t == TimesAfter(r0, ZeroTimes(|r0.roles|), steps, 1)
    ensures Shaped(r) && TimesShaped(r, t) && WindowsSince(r.roles, t.windows, 0, 0, start)
  {
    InitTimes(r0);
    InitDataInv(r0);
    DataInvRun([r0], r0, ZeroTimes(|r0.roles|), steps, r);
    t := TimesAfter(r0, ZeroTimes(|r0.roles|), steps, 1);
    forall i: nat | i < |r.roles| ensures Since(t.windows[i], 0, start) { }
  }

  lemma AllSince(r0: Ring, steps: seq<Step>, r: Ring, t: Times, start: nat)
    requires Init(r0) && TimesShaped(r0, ZeroTimes(|r0.roles|)) && t == TimesAfter(r0, ZeroTimes(|r0.roles|), steps, 1)
    requires Shaped(r) && r.roles == r0.roles && TimesShaped(r, t) && WindowsSince(r.roles, t.windows, 0, 8, start)
    ensures AllFrom(r0, steps, start)
  {
    forall i: nat, j: nat | i < |r0.roles| && !r0.roles[i].Relay? && j < 9 ensures Origin(r0, steps, i, j) >= start {
      assert Since(t.windows[i], 8, start);
    }
  }
}
