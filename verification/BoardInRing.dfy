/**
 What the boards do is a run of the ring. LogIsRun: the log of one board is a sequence
 of ring steps of that cabinet. LogsAreRun: the logs of all boards, their steps taken
 in any order in which a message is sent before it is taken, are a run of the ring;
 a board may be anywhere in a tick, waiting for a vsync too, while others go on. Boards
 that have been initialised start such a run, so what holds of every reachable ring
 holds of them.
 */
module BoardInRing {
  import opened LinkNode
  import LinkRing
  import RingNumbering
  import B = CommBoard

  function AsRingStep(i: nat, s: B.NodeStep): LinkRing.Step {
    match s
    case Begin => LinkRing.Begin(i)
    case Receive(f) => LinkRing.Receive(i)
    case Idle => LinkRing.Idle(i)
    case Tick => LinkRing.Tick(i)
    case Lose => LinkRing.Lose(i)
    case Game(b) => LinkRing.Game(i, b)
  }

  function AsRingSteps(i: nat, log: seq<B.NodeStep>): seq<LinkRing.Step> {
    if log == [] then [] else AsRingSteps(i, log[..|log| - 1]) + [AsRingStep(i, log[|log| - 1])]
  }

  /** Wire i has got `sent` added at its end, wire p has lost its first n messages. */
  ghost function Moved(w: seq<seq<Frame>>, i: nat, p: nat, n: nat, sent: seq<Frame>): seq<seq<Frame>>
    requires i < |w| && p < |w| && n <= |w[p]|
  {
    var a := w[i := w[i] + sent];
    a[p := a[p][n..]]
  }

  lemma MovedMore(w: seq<seq<Frame>>, i: nat, p: nat, n: nat, sent: seq<Frame>, more: seq<Frame>)
    requires i < |w| && p < |w| && n <= |w[p]|
    ensures var m := Moved(w, i, p, n, sent); m[i := m[i] + more] == Moved(w, i, p, n, sent + more)
  {
    var m := Moved(w, i, p, n, sent);
    assert w[i] + sent + more == w[i] + (sent + more);
    if i == p {
      assert (w[i] + sent)[n..] + more == (w[i] + sent + more)[n..];
    }
  }

  lemma MovedOne(w: seq<seq<Frame>>, i: nat, p: nat, n: nat, sent: seq<Frame>)
    requires i < |w| && p < |w| && n < |w[p]|
    ensures var m := Moved(w, i, p, n, sent); m[p] != [] && m[p][0] == w[p][n] && m[p := m[p][1..]] == Moved(w, i, p, n + 1, sent)
  {
    var a := w[i := w[i] + sent];
    assert a[p][n..][1..] == a[p][n + 1..];
  }

  /** r' is r after cabinet i has run the log. */
  ghost predicate AfterLog(r: LinkRing.Ring, i: nat, log: seq<B.NodeStep>, r': LinkRing.Ring)
    requires LinkRing.Shaped(r) && i < |r.roles|
  {
    var p, role, t := r.Prev(i), r.roles[i], B.Taken(log);
    var s := B.Sent(role, r.nodes[i], log);
    && LinkRing.Shaped(r') && r'.roles == r.roles
    && r'.nodes == r.nodes[i := B.RunTo(role, r.nodes[i], log)]
    && |t| <= |r.wires[p]|
    && r'.wires == Moved(r.wires, i, p, |t|, s)
  }

  /** A board's step and the ring step it stands for do the same. */
  lemma SameEffect(m: LinkRing.Ring, i: nat, s: B.NodeStep)
    requires LinkRing.Shaped(m) && i < |m.roles| && B.CanStep(m.nodes[i], s)
    requires s.Receive? ==> m.wires[m.Prev(i)] != [] && m.wires[m.Prev(i)][0] == s.f
    ensures LinkRing.Enabled(m, AsRingStep(i, s))
    ensures LinkRing.Effect(m, AsRingStep(i, s)) == B.StepAct(m.roles[i], m.nodes[i], s)
  {
  }

  /** The last step of a log. */
  lemma LastStep(r: LinkRing.Ring, i: nat, front: seq<B.NodeStep>, s: B.NodeStep, m: LinkRing.Ring) returns (r': LinkRing.Ring)
    requires LinkRing.Shaped(r) && i < |r.roles| && AfterLog(r, i, front, m)
    requires B.CanStep(m.nodes[i], s)
    requires B.Taken(front + [s]) <= r.wires[r.Prev(i)]
    ensures LinkRing.Reaches(m, [AsRingStep(i, s)], r')
    ensures AfterLog(r, i, front + [s], r')
  {
    var p, role := r.Prev(i), r.roles[i];
    var t, out := B.Taken(front), B.Sent(role, r.nodes[i], front);
    var more := B.StepAct(role, m.nodes[i], s).sent;
    B.LogStep(role, r.nodes[i], front, s);
    if s.Receive? {
      assert r.wires[p][|t|] == s.f;
      MovedOne(r.wires, i, p, |t|, out);
      MovedMore(r.wires, i, p, |t| + 1, out, more);
    } else {
      assert t + [] == t;
      MovedMore(r.wires, i, p, |t|, out, more);
    }
    SameEffect(m, i, s);
    r' := LinkRing.Apply(m, AsRingStep(i, s));
    OneStep(m, AsRingStep(i, s), r');
  }

  /** A legal log whose messages are at the head of the incoming wire is a run of the ring. */
  lemma {:induction false} LogIsRun(r: LinkRing.Ring, i: nat, log: seq<B.NodeStep>) returns (r': LinkRing.Ring)
    requires LinkRing.Shaped(r) && i < |r.roles|
    requires B.Legal(r.roles[i], r.nodes[i], log)
    requires B.Taken(log) <= r.wires[r.Prev(i)]
    ensures LinkRing.Reaches(r, AsRingSteps(i, log), r')
    ensures AfterLog(r, i, log, r')
    decreases |log|
  {
    if log == [] {
      r' := r;
      assert r.wires[i] + [] == r.wires[i];
      assert Moved(r.wires, i, r.Prev(i), 0, []) == r.wires;
    } else {
      var front, s := log[..|log| - 1], log[|log| - 1];
      assert log == front + [s];
      var m := LogIsRun(r, i, front);
      r' := LastStep(r, i, front, s, m);
      LinkRing.ReachesConcat(r, AsRingSteps(i, front), m, [AsRingStep(i, s)], r');
    }
  }

  lemma OneStep(m: LinkRing.Ring, step: LinkRing.Step, r': LinkRing.Ring)
    requires LinkRing.Shaped(m) && LinkRing.Enabled(m, step) && r' == LinkRing.Apply(m, step)
    ensures LinkRing.Reaches(m, [step], r')
  {
    assert [step][1..] == [];
    assert LinkRing.Reaches(r', [], r');
  }

  // ---- All the boards at once -------------------------------------------------

  /** Board i takes a step of its log. */
  datatype Move = Move(i: nat, s: B.NodeStep)

  /** The log of board i in a schedule of all of them. */
  function LogOf(schedule: seq<Move>, i: nat): seq<B.NodeStep> {
    if schedule == [] then []
    else
      var last := schedule[|schedule| - 1];
      LogOf(schedule[..|schedule| - 1], i) + (if last.i == i then [last.s] else [])
  }

  /** Board i after its part of the schedule. */
  function NodeAfter(r: LinkRing.Ring, schedule: seq<Move>, i: nat): Node
    requires i < |r.roles| && |r.nodes| == |r.roles|
  {
    B.RunTo(r.roles[i], r.nodes[i], LogOf(schedule, i))
  }

  /** Everything board i has put on its wire, what was there at the start included. */
  function Given(r: LinkRing.Ring, schedule: seq<Move>, i: nat): seq<Frame>
    requires i < |r.roles| && |r.nodes| == |r.roles| && |r.wires| == |r.roles|
  {
    r.wires[i] + B.Sent(r.roles[i], r.nodes[i], LogOf(schedule, i))
  }

  /** After `front` this move is one the board's log can take, and its message has been sent. */
  ghost predicate Possible(r: LinkRing.Ring, front: seq<Move>, move: Move)
    requires LinkRing.Shaped(r)
  {
    && move.i < |r.roles|
    && B.CanStep(NodeAfter(r, front, move.i), move.s)
    && (move.s.Receive? ==> B.Taken(LogOf(front, move.i)) + [move.s.f] <= Given(r, front, r.Prev(move.i)))
  }

  ghost predicate Schedule(r: LinkRing.Ring, schedule: seq<Move>)
    requires LinkRing.Shaped(r)
  {
    forall k :: 0 <= k < |schedule| ==> Possible(r, schedule[..k], schedule[k])
  }

  /** Each board's part of a schedule is a legal log. */
  lemma {:induction false} LogsLegal(r: LinkRing.Ring, schedule: seq<Move>, i: nat)
    requires LinkRing.Shaped(r) && Schedule(r, schedule) && i < |r.roles|
    ensures B.Legal(r.roles[i], r.nodes[i], LogOf(schedule, i))
    decreases |schedule|
  {
    if schedule != [] {
      var n := |schedule| - 1;
      ShorterSchedule(r, schedule);
      LogsLegal(r, schedule[..n], i);
      assert Possible(r, schedule[..n], schedule[n]);
      if schedule[n].i == i {
        B.LogStep(r.roles[i], r.nodes[i], LogOf(schedule[..n], i), schedule[n].s);
      } else {
        assert LogOf(schedule[..n], i) + [] == LogOf(schedule[..n], i);
      }
    }
  }

  lemma ShorterSchedule(r: LinkRing.Ring, schedule: seq<Move>)
    requires LinkRing.Shaped(r) && Schedule(r, schedule) && schedule != []
    ensures Schedule(r, schedule[..|schedule| - 1])
  {
    var front := schedule[..|schedule| - 1];
    forall k | 0 <= k < |front| ensures Possible(r, front[..k], front[k]) {
      assert front[..k] == schedule[..k];
      assert Possible(r, schedule[..k], schedule[k]);
    }
  }

  function Steps(schedule: seq<Move>): seq<LinkRing.Step> {
    if schedule == [] then []
    else
      var last := schedule[|schedule| - 1];
      Steps(schedule[..|schedule| - 1]) + [AsRingStep(last.i, last.s)]
  }

  /** On wire i lies what board i has put on it and its next board has not taken. */
  ghost predicate WireAfter(r: LinkRing.Ring, schedule: seq<Move>, m: LinkRing.Ring, i: nat)
    requires LinkRing.Shaped(r) && LinkRing.Shaped(m) && m.roles == r.roles && i < |r.roles|
  {
    var t := B.Taken(LogOf(schedule, r.Next(i)));
    && t <= Given(r, schedule, i)
    && m.wires[i] == Given(r, schedule, i)[|t|..]
  }

  /** m is the ring after the schedule: every board where its log has brought it. */
  ghost predicate AllAfter(r: LinkRing.Ring, schedule: seq<Move>, m: LinkRing.Ring)
    requires LinkRing.Shaped(r)
  {
    && LinkRing.Shaped(m) && m.roles == r.roles
    && (forall i: nat :: i < |r.roles| ==> m.nodes[i] == NodeAfter(r, schedule, i))
    && (forall i: nat :: i < |r.roles| ==> WireAfter(r, schedule, m, i))
  }

  lemma NextOfPrev(r: LinkRing.Ring, i: nat)
    requires LinkRing.Shaped(r) && i < |r.roles|
    ensures r.Prev(i) < |r.roles| && r.Next(r.Prev(i)) == i
    ensures forall j: nat :: j < |r.roles| && r.Next(j) == i ==> j == r.Prev(i)
  {
  }

  /** The next message on a wire is the next one its reader's log takes. */
  lemma HeadIsNext(given: seq<Frame>, taken: seq<Frame>, f: Frame, wire: seq<Frame>)
    requires taken + [f] <= given && wire == given[|taken|..]
    ensures wire != [] && wire[0] == f && wire[1..] == given[|taken| + 1..]
  {
    assert given[|taken|] == (taken + [f])[|taken|];
  }

  lemma LogOfMore(schedule: seq<Move>, move: Move, i: nat)
    ensures LogOf(schedule + [move], i) == LogOf(schedule, i) + (if move.i == i then [move.s] else [])
  {
    assert (schedule + [move])[..|schedule + [move]| - 1] == schedule;
  }

  /** What a move adds to its own board's books. */
  lemma OwnBooks(r: LinkRing.Ring, front: seq<Move>, move: Move)
    requires LinkRing.Shaped(r) && move.i < |r.roles|
    ensures var i := move.i;
            var act := B.StepAct(r.roles[i], NodeAfter(r, front, i), move.s);
            && NodeAfter(r, front + [move], i) == act.node
            && Given(r, front + [move], i) == Given(r, front, i) + act.sent
            && B.Taken(LogOf(front + [move], i)) == B.Taken(LogOf(front, i)) + (if move.s.Receive? then [move.s.f] else [])
  {
    var i := move.i;
    LogOfMore(front, move, i);
    B.LogStep(r.roles[i], r.nodes[i], LogOf(front, i), move.s);
    Grouped(r.wires[i], B.Sent(r.roles[i], r.nodes[i], LogOf(front, i)),
            B.StepAct(r.roles[i], NodeAfter(r, front, i), move.s).sent);
  }

  lemma Grouped(a: seq<Frame>, b: seq<Frame>, c: seq<Frame>)
    ensures a + b + c == a + (b + c)
  {
  }

  /** And to nobody else's. */
  lemma OtherBooks(r: LinkRing.Ring, front: seq<Move>, move: Move, i: nat)
    requires LinkRing.Shaped(r) && i < |r.roles| && move.i != i
    ensures NodeAfter(r, front + [move], i) == NodeAfter(r, front, i)
    ensures Given(r, front + [move], i) == Given(r, front, i)
    ensures B.Taken(LogOf(front + [move], i)) == B.Taken(LogOf(front, i))
  {
    LogOfMore(front, move, i);
    assert LogOf(front, i) + [] == LogOf(front, i);
  }

  /** What a ring step does to one board and its wire. */
  lemma StepAtBoard(m: LinkRing.Ring, step: LinkRing.Step, i: nat)
    requires LinkRing.Shaped(m) && LinkRing.Enabled(m, step) && i < |m.roles|
    ensures var m' := LinkRing.Apply(m, step);
            var w := if step.Receive? && m.Next(i) == step.i then m.wires[i][1..] else m.wires[i];
            && m'.nodes[i] == (if step.i == i then LinkRing.Effect(m, step).node else m.nodes[i])
            && m'.wires[i] == (if step.i == i then w + LinkRing.Effect(m, step).sent else w)
  {
    NextOfPrev(m, step.i);
  }

  /** The books of one wire, from before a move to after it. */
  lemma WireBooks(given: seq<Frame>, taken: seq<Frame>, took: seq<Frame>, sent: seq<Frame>, wire: seq<Frame>, wire': seq<Frame>)
    requires taken + took <= given && wire == given[|taken|..] && |took| <= 1
    requires wire' == wire[|took|..] + sent
    ensures taken + took <= given + sent && wire' == (given + sent)[|taken + took|..]
  {
    assert wire[|took|..] == given[|taken + took|..];
  }

  /** A wire after a move: its own board may have added to it, and its next board taken from it. */
  lemma WireMore(r: LinkRing.Ring, front: seq<Move>, move: Move, m: LinkRing.Ring, m': LinkRing.Ring, i: nat, sent: seq<Frame>)
    requires LinkRing.Shaped(r) && LinkRing.Shaped(m) && LinkRing.Shaped(m') && m.roles == r.roles == m'.roles
    requires i < |r.roles| && WireAfter(r, front, m, i)
    requires move.i == r.Next(i) && move.s.Receive? ==>
      B.Taken(LogOf(front, r.Next(i))) + [move.s.f] <= Given(r, front, i)
    requires move.s.Receive? && r.Next(i) == move.i ==> m.wires[i] != []
    requires m'.wires[i] == (if move.s.Receive? && r.Next(i) == move.i then m.wires[i][1..] else m.wires[i]) + sent
    requires Given(r, front + [move], i) == Given(r, front, i) + sent
    requires B.Taken(LogOf(front + [move], r.Next(i))) ==
             B.Taken(LogOf(front, r.Next(i))) + (if move.i == r.Next(i) && move.s.Receive? then [move.s.f] else [])
    ensures WireAfter(r, front + [move], m', i)
  {
    var given, taken := Given(r, front, i), B.Taken(LogOf(front, r.Next(i)));
    var took := if move.i == r.Next(i) && move.s.Receive? then [move.s.f] else [];
    assert taken + [] == taken;
    WireBooks(given, taken, took, sent, m.wires[i], m'.wires[i]);
  }

  /** What one move does to a board and its wire's books, in terms of what the board sends. */
  lemma MoveBooks(r: LinkRing.Ring, front: seq<Move>, move: Move, m: LinkRing.Ring, m': LinkRing.Ring, i: nat, act: Act)
      returns (sent: seq<Frame>)
    requires LinkRing.Shaped(r) && LinkRing.Shaped(m) && LinkRing.Shaped(m') && m.roles == r.roles == m'.roles
    requires i < |r.roles| && move.i < |r.roles| && m.nodes[i] == NodeAfter(r, front, i)
    requires move.i == i ==> act == B.StepAct(r.roles[i], NodeAfter(r, front, i), move.s)
    requires m'.nodes[i] == (if move.i == i then act.node else m.nodes[i])
    requires move.s.Receive? && r.Next(i) == move.i ==> m.wires[i] != []
    requires var w := if move.s.Receive? && r.Next(i) == move.i then m.wires[i][1..] else m.wires[i];
             m'.wires[i] == if move.i == i then w + act.sent else w
    ensures m'.nodes[i] == NodeAfter(r, front + [move], i)
    ensures Given(r, front + [move], i) == Given(r, front, i) + sent
    ensures m'.wires[i] == (if move.s.Receive? && r.Next(i) == move.i then m.wires[i][1..] else m.wires[i]) + sent
  {
    if move.i == i {
      OwnBooks(r, front, move);
      sent := act.sent;
    } else {
      OtherBooks(r, front, move, i);
      sent := [];
      assert Given(r, front, i) + [] == Given(r, front, i);
      assert m'.wires[i] + [] == m'.wires[i];
    }
  }

  lemma TakenBooks(r: LinkRing.Ring, front: seq<Move>, move: Move, i: nat)
    requires LinkRing.Shaped(r) && move.i < |r.roles| && i < |r.roles|
    ensures B.Taken(LogOf(front + [move], i)) ==
            B.Taken(LogOf(front, i)) + (if move.i == i && move.s.Receive? then [move.s.f] else [])
  {
    if move.i == i {
      OwnBooks(r, front, move);
    } else {
      OtherBooks(r, front, move, i);
      assert B.Taken(LogOf(front, i)) + [] == B.Taken(LogOf(front, i));
    }
  }

  /** One move of one board is one enabled step of the ring. */
  lemma MoveIsStep(r: LinkRing.Ring, front: seq<Move>, move: Move, m: LinkRing.Ring) returns (m': LinkRing.Ring)
    requires LinkRing.Shaped(r) && AllAfter(r, front, m) && Possible(r, front, move)
    ensures LinkRing.Reaches(m, [AsRingStep(move.i, move.s)], m')
    ensures AllAfter(r, front + [move], m')
  {
    var i := move.i;
    NextOfPrev(r, i);
    if move.s.Receive? {
      assert WireAfter(r, front, m, r.Prev(i));
      HeadIsNext(Given(r, front, r.Prev(i)), B.Taken(LogOf(front, i)), move.s.f, m.wires[r.Prev(i)]);
    }
    SameEffect(m, i, move.s);
    m' := LinkRing.Apply(m, AsRingStep(i, move.s));
    OneStep(m, AsRingStep(i, move.s), m');
    forall k: nat | k < |r.roles|
      ensures m'.nodes[k] == NodeAfter(r, front + [move], k) && WireAfter(r, front + [move], m', k)
    {
      StepAtBoard(m, AsRingStep(i, move.s), k);
      var sent := MoveBooks(r, front, move, m, m', k, LinkRing.Effect(m, AsRingStep(i, move.s)));
      TakenBooks(r, front, move, r.Next(k));
      assert WireAfter(r, front, m, k);
      WireMore(r, front, move, m, m', k, sent);
    }
  }

  /**
   Any schedule of the boards' logs, each message sent before it is taken, is a run of
   the ring, and leaves every board and every wire as the logs say.
   */
  lemma {:induction false} LogsAreRun(r: LinkRing.Ring, schedule: seq<Move>) returns (m: LinkRing.Ring)
    requires LinkRing.Shaped(r) && Schedule(r, schedule)
    ensures LinkRing.Reaches(r, Steps(schedule), m)
    ensures AllAfter(r, schedule, m)
    decreases |schedule|
  {
    if schedule == [] {
      m := r;
      forall i: nat | i < |r.roles| ensures WireAfter(r, schedule, m, i) {
        assert r.wires[i] + [] == r.wires[i];
      }
    } else {
      var n := |schedule| - 1;
      var front, move := schedule[..n], schedule[n];
      assert schedule == front + [move];
      ShorterSchedule(r, schedule);
      assert Possible(r, schedule[..n], schedule[n]);
      var before := LogsAreRun(r, front);
      m := MoveIsStep(r, front, move, before);
      LinkRing.ReachesConcat(r, Steps(front), before, [AsRingStep(move.i, move.s)], m);
    }
  }

  // ---- From initialisation on ---------------------------------------------------

  /** The ring of boards that have just been initialised. */
  ghost function Started(roles: seq<Role>, starts: seq<Node>): LinkRing.Ring {
    var n := |roles|;
    LinkRing.Ring(roles, starts, seq(n, _ => []), seq(n, _ => 0), seq(n, _ => 0))
  }

  ghost predicate Initialised(roles: seq<Role>, starts: seq<Node>) {
    && 0 < |roles| == |starts| && roles[0].Master?
    && (forall i :: 0 < i < |roles| ==> !roles[i].Master?)
    && (forall i: nat :: i < |starts| ==> WasInitialised(starts[i]))
  }

  ghost predicate WasInitialised(n: Node) {
    exists framesync: nat, buffer: Frame :: n == InitNode(framesync, buffer)
  }

  /** Boards that start where their init command leaves them are a ring in which nothing has happened. */
  lemma StartedIsInit(roles: seq<Role>, starts: seq<Node>)
    requires Initialised(roles, starts)
    ensures LinkRing.Init(Started(roles, starts))
  {
    var r := Started(roles, starts);
    forall i: nat | i < |r.nodes| ensures LinkRing.InitAt(r, i) {
      assert WasInitialised(starts[i]);
      var framesync: nat, buffer: Frame :| starts[i] == InitNode(framesync, buffer);
      InitNodeFresh(framesync, buffer);
    }
  }

  /** Whatever the boards do from there is a reachable ring, so everything proved of those holds of the boards. */
  lemma BoardsAreReachable(roles: seq<Role>, starts: seq<Node>, schedule: seq<Move>) returns (m: LinkRing.Ring)
    requires Initialised(roles, starts)
    requires LinkRing.Shaped(Started(roles, starts)) && Schedule(Started(roles, starts), schedule)
    ensures LinkRing.Reachable(m) && AllAfter(Started(roles, starts), schedule, m)
  {
    StartedIsInit(roles, starts);
    m := LogsAreRun(Started(roles, starts), schedule);
  }

  /** The numbering, said of the boards: once all are up the ids are the master's 1 and the slaves' 2 to k + 1. */
  lemma BoardsNumbered(roles: seq<Role>, starts: seq<Node>, schedule: seq<Move>)
    requires Initialised(roles, starts) && RingNumbering.Numbered(roles) <= 0xfb
    requires LinkRing.Shaped(Started(roles, starts)) && Schedule(Started(roles, starts), schedule)
    requires forall i: nat :: i < |roles| ==> NodeAfter(Started(roles, starts), schedule, i).Up()
    ensures NodeAfter(Started(roles, starts), schedule, 0).id == 1
    ensures forall i: nat :: i < |roles| ==>
              var n := NodeAfter(Started(roles, starts), schedule, i);
              && n.count == RingNumbering.Numbered(roles)
              && (roles[i].Relay? ==> n.id == 0) && (roles[i].Slave? ==> 2 <= n.id <= RingNumbering.Numbered(roles))
    ensures forall i: nat, j: nat :: i < j < |roles| && roles[i].Slave? && roles[j].Slave? ==>
              NodeAfter(Started(roles, starts), schedule, i).id != NodeAfter(Started(roles, starts), schedule, j).id
  {
    var m := BoardsAreReachable(roles, starts, schedule);
    forall i: nat | i < |roles| ensures m.nodes[i] == NodeAfter(Started(roles, starts), schedule, i) {
    }
    RingNumbering.NumberingCorrect(m);
  }

  // ---- The tick inside the init command -------------------------------------------

  /** While a cabinet waits, a slave and a relay do the same with a message if and only if it carries no number or count. */
  lemma SlaveOrRelay(n: Node, f: Frame)
    requires n.alive == 0
    ensures LinkNode.Receive(Slave, n, f) == LinkNode.Receive(Relay, n, f) <==> Tag(f) !in {LINK_ID, LINK_SIZE}
  {
    if Tag(f) == LINK_ID {
      assert f[1 := Add8(f[1], 1)][1] != f[1];
    } else if Tag(f) == LINK_SIZE {
      assert f[1 := Add8(f[1], -1)][1] != f[1];
    }
  }

  /** A log of a tick that reads no number and no count. */
  predicate Quiet(log: seq<B.NodeStep>) {
    forall k :: 0 <= k < |log| ==>
      match log[k]
      case Begin => true
      case Idle => true
      case Receive(f) => Tag(f) !in {LINK_ID, LINK_SIZE}
      case _ => false
  }

  /**
   The init command runs a tick before the game has said which role the cabinet has, so
   that tick runs as a slave's. If it reads no number and no count, its log is one of a
   relay too, with the same node at the end and nothing sent: the ring's runs hold it.
   */
  lemma {:induction false} FirstTick(n: Node, log: seq<B.NodeStep>)
    requires n.alive == 0 && Quiet(log) && B.Legal(Slave, n, log)
    ensures B.Legal(Relay, n, log)
    ensures B.RunTo(Relay, n, log) == B.RunTo(Slave, n, log) && B.RunTo(Slave, n, log).alive == 0
    ensures B.Sent(Relay, n, log) == B.Sent(Slave, n, log) == []
    decreases |log|
  {
    if log != [] {
      var front, s := log[..|log| - 1], log[|log| - 1];
      assert log == front + [s] && Quiet(front);
      assert match s case Begin => true case Idle => true case Receive(f) => Tag(f) !in {LINK_ID, LINK_SIZE} case _ => false;
      B.LogStep(Slave, n, front, s);
      B.LogStep(Relay, n, front, s);
      FirstTick(n, front);
    }
  }
}
