/**
 The communication board as the program has it (src/runtime/comm_board.cpp): an
 object whose tick reads frames from a byte stream, updates its fields and its
 shared RAM in place and writes frames. Every method is tied to the small steps of
 LinkNode: `log` is the list of steps taken since `start`, and the invariant says
 that running the log from `start` gives the object's state and the bytes it has
 sent, and that the bytes that have arrived are the messages of the log, then the
 bytes kept for the next message, then the bytes not yet read.
 */
module CommBoard {
  import opened LinkNode

  // ---- Traces of one cabinet ------------------------------------------------

  datatype NodeStep = Begin | Receive(f: Frame) | Idle | Tick | Lose | Game(b: Block)

  function StepAct(role: Role, n: Node, s: NodeStep): Act {
    match s
    case Begin => Act(LinkNode.Begin(n), [])
    case Receive(f) => LinkNode.Receive(role, n, f)
    case Idle => LinkNode.Idle(role, n)
    case Tick => LinkNode.Tick(role, n)
    case Lose => Act(LinkNode.Lose(n), [])
    case Game(b) => Act(GameWrite(n, b), [])
  }

  predicate CanStep(n: Node, s: NodeStep) {
    match s
    case Receive(f) => n.alive in {0, 1}
    case Idle => n.alive == 0
    case Tick => n.alive == 1 && n.timer != 1
    case Lose => n.alive == 1
    case _ => true
  }

  function RunTo(role: Role, start: Node, log: seq<NodeStep>): Node {
    if log == [] then start
    else StepAct(role, RunTo(role, start, log[..|log| - 1]), log[|log| - 1]).node
  }

  function Sent(role: Role, start: Node, log: seq<NodeStep>): seq<Frame> {
    if log == [] then []
    else
      var n := RunTo(role, start, log[..|log| - 1]);
      Sent(role, start, log[..|log| - 1]) + StepAct(role, n, log[|log| - 1]).sent
  }

  predicate Legal(role: Role, start: Node, log: seq<NodeStep>) {
    log == [] ||
    (Legal(role, start, log[..|log| - 1]) && CanStep(RunTo(role, start, log[..|log| - 1]), log[|log| - 1]))
  }

  /** The messages a log takes from the wire. */
  function Taken(log: seq<NodeStep>): seq<Frame> {
    if log == [] then []
    else Taken(log[..|log| - 1]) + match log[|log| - 1] case Receive(f) => [f] case _ => []
  }

  function Bytes(frames: seq<Frame>): seq<byte> {
    if frames == [] then [] else Bytes(frames[..|frames| - 1]) + frames[|frames| - 1]
  }

  lemma {:induction false} BytesConcat(a: seq<Frame>, b: seq<Frame>)
    ensures Bytes(a + b) == Bytes(a) + Bytes(b)
    decreases |b|
  {
    if b == [] {
      assert a + b == a;
    } else {
      assert (a + b)[..|a + b| - 1] == a + b[..|b| - 1];
      BytesConcat(a, b[..|b| - 1]);
    }
  }

  /** Adding one step to a log. */
  lemma LogStep(role: Role, start: Node, log: seq<NodeStep>, s: NodeStep)
    ensures var n := RunTo(role, start, log);
            && RunTo(role, start, log + [s]) == StepAct(role, n, s).node
            && Sent(role, start, log + [s]) == Sent(role, start, log) + StepAct(role, n, s).sent
            && Legal(role, start, log + [s]) == (Legal(role, start, log) && CanStep(n, s))
            && Taken(log + [s]) == Taken(log) + match s case Receive(f) => [f] case _ => []
  {
    assert (log + [s])[..|log + [s]| - 1] == log;
  }

  /** A log accounts for the state now, the bytes sent, and the bytes read: its messages, then rx. */
  ghost predicate Account(role: Role, start: Node, log: seq<NodeStep>, now: Node,
                          sent: seq<byte>, taken: seq<byte>, rx: seq<byte>)
  {
    && Legal(role, start, log)
    && RunTo(role, start, log) == now
    && sent == Bytes(Sent(role, start, log))
    && taken == Bytes(Taken(log)) + rx
  }

  function Payload(s: NodeStep): seq<byte> {
    match s case Receive(f) => f case _ => []
  }

  lemma AccountStep(role: Role, start: Node, log: seq<NodeStep>, was: Node, sentBefore: seq<byte>, s: NodeStep,
                    now: Node, sent: seq<byte>, taken: seq<byte>, rx: seq<byte>)
    requires Legal(role, start, log) && RunTo(role, start, log) == was
    requires sentBefore == Bytes(Sent(role, start, log))
    requires CanStep(was, s) && now == StepAct(role, was, s).node
    requires sent == sentBefore + Bytes(StepAct(role, was, s).sent)
    requires taken == Bytes(Taken(log)) + Payload(s) + rx
    ensures Account(role, start, log + [s], now, sent, taken, rx)
  {
    LogStep(role, start, log, s);
    BytesConcat(Sent(role, start, log), StepAct(role, was, s).sent);
    TakenStep(log, s);
  }

  lemma TakenStep(log: seq<NodeStep>, s: NodeStep)
    ensures Bytes(Taken(log + [s])) == Bytes(Taken(log)) + Payload(s)
  {
    assert (log + [s])[..|log + [s]| - 1] == log;
    if s.Receive? {
      BytesConcat(Taken(log), [s.f]);
      OneFrame(s.f);
    } else {
      assert Taken(log) + [] == Taken(log);
      assert Bytes(Taken(log)) + [] == Bytes(Taken(log));
    }
  }

  /** What a received message does depends on it, not on what buffer0 held before. */
  lemma ReceiveFacts(role: Role, n: Node, f: Frame)
    requires n.alive in {0, 1}
    ensures LinkNode.Receive(role, n.(buffer := f), f) == LinkNode.Receive(role, n, f)
    ensures n.alive == 1 ==> LinkNode.Receive(role, n, f).node.alive == 1
  {
  }

  lemma NothingSent(sent: seq<byte>)
    ensures sent + Bytes([]) == sent
  {
  }

  lemma OneFrame(f: Frame)
    ensures Bytes([f]) == f
  {
    assert [f][..0] == [];
  }

  lemma TwoFrames(d: Frame, v: Frame)
    ensures Bytes([d, v]) == d + v
  {
    assert [d, v][..1] == [d];
    OneFrame(d);
  }

  /** What a data frame is answered with; f is the frame, g the cabinet's own. */
  function Passed(role: Role, f: Frame, g: Frame): seq<Frame> {
    match role case Master => [] case Slave => [g] case Relay => [f]
  }

  /** The vsync frame is written over the first two bytes of the frame before it. */
  function VsyncAfter(d: Frame): Frame { d[0 := VSYNC][1 := 0x01] }

  // ---- What a tick adds to the log ------------------------------------------

  /** Messages only. */
  predicate MoreReceives(was: seq<NodeStep>, now: seq<NodeStep>) {
    was <= now && forall k :: |was| <= k < |now| ==> now[k].Receive?
  }

  /** Messages, then one step. */
  predicate MoreThen(was: seq<NodeStep>, now: seq<NodeStep>, last: NodeStep) {
    |was| < |now| && now[|now| - 1] == last && MoreReceives(was, now[..|now| - 1])
  }

  /** The link not yet established: messages, and the master's turn if none of them brought it up. */
  predicate MoreWaiting(role: Role, was: seq<NodeStep>, now: seq<NodeStep>, alive: nat) {
    || (MoreReceives(was, now) && (role.Master? ==> alive == 1))
    || (MoreThen(was, now, Idle) && role.Master?)
  }

  /** The link up: messages, then the cabinet's turn, or the loss of the link. */
  predicate MoreUp(was: seq<NodeStep>, now: seq<NodeStep>, alive: nat) {
    MoreThen(was, now, if alive == 1 then Tick else Lose)
  }

  /** A whole tick of an enabled board, from a link that was `before` to one that is `alive`. */
  ghost predicate WholeTick(role: Role, was: seq<NodeStep>, now: seq<NodeStep>, before: nat, alive: nat, open: bool) {
    if before == 1 then MoreUp(was, now, alive)
    else if before == 2 || !open then now == was + [Begin]
    else exists mid :: UpAfter(role, was + [Begin], mid, now, alive)
  }

  /** Not yet established until `mid`; then up, if that is how it came out. */
  predicate UpAfter(role: Role, was: seq<NodeStep>, mid: seq<NodeStep>, now: seq<NodeStep>, alive: nat) {
    || (now == mid && alive == 0 && MoreWaiting(role, was, mid, 0))
    || (MoreWaiting(role, was, mid, 1) && MoreUp(mid, now, alive))
  }

  lemma ReceivesOn(a: seq<NodeStep>, b: seq<NodeStep>, c: seq<NodeStep>)
    requires MoreReceives(a, b) && MoreReceives(b, c)
    ensures MoreReceives(a, c)
  {
  }

  // ---- The two cables -------------------------------------------------------

  /**
   LinkTransport: how many of the arrived bytes one read returns, what arrives,
   and when a line opens or breaks are not the board's to choose. `cut` records
   that a line that was open has broken.
   */
  class Transport {
    var inbox: seq<byte>
    var outbox: seq<byte>
    var rxOpen: bool
    var txOpen: bool
    ghost var sent: seq<byte>   // bytes written since the board's log was started
    ghost var taken: seq<byte>  // bytes read since then
    var cut: bool               // a line that was open has broken
    ghost var dry: bool         // the last read found nothing

    predicate Open() reads this { rxOpen && txOpen }

    constructor ()
      ensures inbox == [] && outbox == [] && sent == [] && taken == [] && !cut && !Open()
    {
      inbox, outbox, sent, taken := [], [], [], [];
      rxOpen, txOpen, cut, dry := false, false, false, false;
    }

    method Poll()
      modifies this
      ensures old(inbox) <= inbox
      ensures taken == old(taken) && sent == old(sent) && outbox == old(outbox)
      ensures !cut ==> !old(cut) && (old(Open()) ==> Open())
    {
      var more: seq<byte> :| true;
      var r: bool :| true;
      var t: bool :| true;
      cut := cut || (Open() && !(r && t));
      dry := false;
      inbox := inbox + more;
      rxOpen, txOpen := r, t;
    }

    method Read(max: nat) returns (n: int, chunk: seq<byte>)
      modifies this
      ensures outbox == old(outbox) && sent == old(sent)
      ensures chunk + inbox == old(inbox) && taken == old(taken) + chunk
      ensures n < 0 ==> cut && chunk == []
      ensures n >= 0 ==> n == |chunk| <= max
      ensures n >= 0 ==> cut == old(cut) && rxOpen == old(rxOpen) && txOpen == old(txOpen)
      ensures n == 0 ==> dry
    {
      var broken: bool :| true;
      if broken {
        rxOpen, cut := false, true;
        n, chunk := -1, [];
      } else {
        var k: nat :| k <= max && k <= |inbox|;
        n, chunk, inbox := k, inbox[..k], inbox[k..];
        taken := taken + chunk;
        dry := k == 0;
      }
    }

    method Write(data: seq<byte>) returns (ok: bool)
      modifies this
      ensures taken == old(taken) && inbox == old(inbox) && dry == old(dry)
      ensures ok ==> outbox == old(outbox) + data && sent == old(sent) + data
      ensures ok ==> cut == old(cut) && rxOpen == old(rxOpen) && txOpen == old(txOpen)
      ensures !ok ==> cut
    {
      var broken: bool :| true;
      if broken {
        txOpen, cut := false, true;
        ok := false;
      } else {
        outbox, sent := outbox + data, sent + data;
        ok := true;
      }
    }
  }

  // ---- The board ------------------------------------------------------------

  class CommBoard {
    const shared: array<byte>
    const buffer0: array<byte>
    const transport: Transport
    var linkenable: byte
    var linkalive: nat
    var linkid: byte
    var linkcount: byte
    var linktimer: nat
    var framesync: nat
    var fg: byte
    var zfgDelay: nat
    var rx: seq<byte>
    ghost var start: Node
    ghost var log: seq<NodeStep>

    ghost function State(): Node
      reads this, shared, buffer0
      requires shared.Length == 0x4000 && buffer0.Length == 0x1000
    {
      Node(linkalive, linkid, linkcount, linktimer, framesync, shared[..], buffer0[..DATA_SIZE])
    }

    ghost predicate Sizes()
      reads this, shared, transport
    {
      && shared != buffer0
      && shared.Length == 0x4000 && buffer0.Length == 0x1000
      // one of the three roles, and the geometry the init command writes
      && fg < 2 && (fg == 0 ==> shared[1] < 3) && linkalive <= 2
      && shared[0x12] == 0x00 && shared[0x13] == 0x0e
      && shared[0x14] == 0xc0 && shared[0x15] == 0x01
      && |rx| < DATA_SIZE
    }

    ghost function RoleNow(): Role
      reads this, shared
      requires shared.Length == 0x4000
    {
      if fg == 1 || shared[1] == 1 then Master else if shared[1] == 2 then Slave else Relay
    }

    /** The log accounts for the state, the bytes sent and the bytes read. */
    ghost predicate Accounted()
      reads this, shared, buffer0, transport
      requires Sizes()
    {
      Account(RoleNow(), start, log, State(), transport.sent, transport.taken, rx)
    }

    ghost predicate Valid()
      reads this, shared, buffer0, transport
    {
      && Sizes()
      && (!transport.cut ==> Accounted() && (linkalive == 1 ==> transport.Open()))
    }

    /** A broken line stays broken, the role stays, and until a line breaks the log only grows. */
    twostate predicate Grows()
      requires old(Sizes()) && Sizes()
      reads this, shared, transport
    {
      && RoleNow() == old(RoleNow())
      && (!transport.cut ==> !old(transport.cut) && old(log) <= log)
    }

    constructor (shared: array<byte>, transport: Transport, framesync: nat)
      requires shared.Length == 0x4000
      ensures this.shared == shared && this.transport == transport
      ensures linkenable == 0 && this.framesync == framesync && fg == 0
      ensures fresh(buffer0) && buffer0.Length == 0x1000 && rx == []
    {
      this.shared, this.transport, this.framesync := shared, transport, framesync;
      buffer0 := new byte[0x1000](_ => 0);
      linkenable, linkalive, linkid, linkcount, linktimer, fg, zfgDelay := 0, 0, 0, 0, 0, 0, 0;
      rx := [];
      start := Node(0, 0, 0, 0, framesync, seq(0x4000, _ => 0), seq(DATA_SIZE, _ => 0));
      log := [];
    }

    /** Starts the account of the run here. */
    ghost method StartLog()
      requires Sizes() && rx == [] && linkalive == 0
      modifies this`start, this`log, transport`sent, transport`taken
      ensures Valid() && start == State() && log == []
    {
      start, log := State(), [];
      transport.sent, transport.taken := [], [];
    }

    // ---- Messages -----------------------------------------------------------

    /** Reads toward the next message: true once all its bytes are in rx. */
    method FillRx(ghost before: seq<byte>) returns (whole: bool)
      requires |rx| < DATA_SIZE
      requires !transport.cut ==> transport.taken == before + rx
      modifies this`rx, this`linkalive, this`linktimer, transport
      ensures |rx| <= DATA_SIZE && (whole <==> |rx| == DATA_SIZE)
      ensures !whole && !transport.cut ==> transport.dry
      ensures transport.sent == old(transport.sent)
      ensures !transport.cut ==> transport.taken == before + rx
      ensures |rx| + |transport.inbox| == old(|rx| + |transport.inbox|)
      ensures transport.taken + transport.inbox == old(transport.taken + transport.inbox)
      ensures old(linkalive) == 0 ==> linkalive == 0
      ensures linkalive == old(linkalive) || linkalive == 2
      ensures !transport.cut ==>
        && !old(transport.cut) && old(transport.Open()) == transport.Open()
        && linkalive == old(linkalive) && linktimer == old(linktimer)
    {
      while |rx| < DATA_SIZE
        invariant |rx| <= DATA_SIZE
        invariant linkalive == old(linkalive) && linktimer == old(linktimer)
        invariant transport.sent == old(transport.sent)
        invariant !transport.cut ==> transport.taken == before + rx
        invariant transport.cut == old(transport.cut) && transport.Open() == old(transport.Open())
        invariant |rx| + |transport.inbox| == old(|rx| + |transport.inbox|)
        invariant transport.taken + transport.inbox == old(transport.taken + transport.inbox)
        decreases DATA_SIZE - |rx|
      {
        var max := if DATA_SIZE - |rx| < 4096 then DATA_SIZE - |rx| else 4096;
        var n, chunk := transport.Read(max);
        if n < 0 {
          if linkalive == 1 { Lost(); }
          return false;
        }
        if n == 0 { return false; }
        rx := rx + chunk;
      }
      whole := true;
    }

    /** One whole message into buffer0, or 0 while it is not all here. */
    method ReadFrame(ghost before: seq<byte>) returns (got: int)
      requires Sizes() && (!transport.cut ==> transport.Open())
      requires !transport.cut ==> transport.taken == before + rx
      modifies this`rx, this`linkalive, this`linktimer, buffer0, transport
      ensures |rx| < DATA_SIZE
      ensures got == 0 && !transport.cut ==> transport.dry
      ensures got == 0 || got == DATA_SIZE
      ensures got == 0 ==> buffer0[..] == old(buffer0[..])
      ensures transport.sent == old(transport.sent)
      ensures !transport.cut && got == 0 ==> transport.taken == before + rx
      ensures !transport.cut && got > 0 ==> transport.taken == before + buffer0[..DATA_SIZE] + rx
      ensures |rx| + |transport.inbox| + got == old(|rx| + |transport.inbox|)
      ensures transport.taken + transport.inbox == old(transport.taken + transport.inbox)
      ensures old(linkalive) == 0 ==> linkalive == 0
      ensures linkalive == old(linkalive) || linkalive == 2
      ensures !transport.cut ==>
        && !old(transport.cut) && old(transport.Open()) == transport.Open()
        && linkalive == old(linkalive) && linktimer == old(linktimer)
    {
      if !transport.rxOpen {
        if linkalive == 1 { Lost(); }
        return 0;
      }
      var whole := FillRx(before);
      if !whole { return 0; }
      var j := 0;
      while j < DATA_SIZE
        invariant 0 <= j <= DATA_SIZE
        invariant buffer0[..j] == rx[..j]
        modifies buffer0
      {
        buffer0[j] := rx[j];
        j := j + 1;
      }
      assert buffer0[..DATA_SIZE] == rx;
      rx := [];
      got := DATA_SIZE;
    }

    method Lost()
      modifies this`linkalive, this`linktimer
      ensures linkalive == 2 && linktimer == 0
    {
      linkalive, linktimer := 2, 0;
    }

    /** Writes data_size bytes of buffer0; a broken line loses the link. */
    method SendFrame()
      requires Sizes() && (!transport.cut ==> transport.Open())
      modifies this`linkalive, this`linktimer, transport
      ensures transport.inbox == old(transport.inbox) && transport.taken == old(transport.taken) && transport.dry == old(transport.dry)
      ensures linkalive == old(linkalive) || linkalive == 2
      ensures !transport.cut ==>
        && !old(transport.cut) && transport.Open()
        && linkalive == old(linkalive) && linktimer == old(linktimer)
        && transport.sent == old(transport.sent) + buffer0[..DATA_SIZE]
    {
      if !transport.txOpen {
        if linkalive == 1 { Lost(); }
        return;
      }
      var ok := transport.Write(buffer0[..DATA_SIZE]);
      if !ok && linkalive == 1 { Lost(); }
    }

    /** Saves the payload in buffer0 to the window. */
    method StoreWindow()
      requires Sizes()
      modifies shared
      ensures shared[..] == StoreFrame(old(shared[..]), buffer0[..DATA_SIZE])
      ensures Sizes() && RoleNow() == old(RoleNow())
    {
      ghost var was := shared[..];
      var j := 0;
      while j < FRAME_SIZE
        invariant 0 <= j <= FRAME_SIZE
        invariant forall m :: 0 <= m < 0x21c0 || 0x21c0 + j <= m < 0x4000 ==> shared[m] == was[m]
        invariant forall m :: 0x21c0 <= m < 0x21c0 + j ==> shared[m] == buffer0[m - 0x21bf]
        modifies shared
      {
        assert (0x21c0 + j) % 0x4000 == 0x21c0 + j;
        shared[(0x21c0 + j) % 0x4000] := buffer0[1 + j];
        j := j + 1;
      }
      assert shared[..] == StoreFrame(was, buffer0[..DATA_SIZE]);
    }

    /** The cabinet's number and its first eight blocks, into buffer0 and out. */
    method SendData()
      requires Sizes() && (!transport.cut ==> transport.Open())
      modifies this`linkalive, this`linktimer, buffer0, transport
      ensures buffer0[..DATA_SIZE] == DataFrame(old(linkid), shared[..])
      ensures transport.inbox == old(transport.inbox) && transport.taken == old(transport.taken) && transport.dry == old(transport.dry)
      ensures linkalive == old(linkalive) || linkalive == 2
      ensures !transport.cut ==>
        && !old(transport.cut) && transport.Open()
        && linkalive == old(linkalive) && linktimer == old(linktimer)
        && transport.sent == old(transport.sent) + buffer0[..DATA_SIZE]
    {
      buffer0[0] := linkid;
      var i := 0;
      while i < FRAME_SIZE
        invariant 0 <= i <= FRAME_SIZE
        invariant buffer0[..1 + i] == [linkid] + shared[FRAME_START..FRAME_START + i]
        modifies buffer0
      {
        buffer0[1 + i] := shared[(FRAME_START + i) % 0x4000];
        i := i + 1;
      }
      SendFrame();
    }

    /** The board does what LinkNode says of the message in buffer0, and sends it. */
    twostate predicate Does(role: Role, a: Act)
      requires old(Sizes()) && Sizes()
      reads this, shared, buffer0, transport
    {
      && RoleNow() == role
      && transport.inbox == old(transport.inbox) && transport.taken == old(transport.taken)
      && transport.dry == old(transport.dry) && rx == old(rx)
      && (!transport.cut ==>
            && !old(transport.cut) && transport.Open()
            && State() == a.node
            && transport.sent == old(transport.sent) + Bytes(a.sent))
    }

    /** "consider it done", and the status bytes. */
    method ConsiderDone()
      requires Sizes()
      modifies this`linkalive, shared
      ensures Sizes() && RoleNow() == old(RoleNow())
      ensures linkalive == 1
      ensures shared[..] == SetStatus(old(shared[..]), 0x01, linkid, linkcount)
    {
      linkalive := 1;
      shared[0] := 1;
      shared[2] := linkid;
      shared[3] := linkcount;
    }

    /** 0xFF: the master takes its number and the count, the others pass the token on. */
    method TakeLinkId()
      requires Sizes() && linkalive == 0 && (!transport.cut ==> transport.Open())
      requires buffer0[0] == LINK_ID
      modifies this`linkid, this`linkcount, this`linkalive, this`linktimer, buffer0, transport
      ensures Sizes()
      ensures Does(old(RoleNow()), LinkNode.Receive(old(RoleNow()), old(State()), old(buffer0[..DATA_SIZE])))
    {
      ghost var f: Frame := buffer0[..DATA_SIZE];
      if fg == 1 || shared[1] == 1 {
        linkid := 1;
        linkcount := buffer0[1];
        linktimer := 0;
      } else {
        if fg == 0 && shared[1] == 2 {
          buffer0[1] := Add8(buffer0[1], 1);
          assert buffer0[..DATA_SIZE] == f[1 := Add8(f[1], 1)];
        }
        OneFrame(buffer0[..DATA_SIZE]);
        SendFrame();
      }
    }

    method SlaveTakesSize()
      requires Sizes() && (!transport.cut ==> transport.Open())
      modifies this`linkid, this`linkcount, this`linkalive, this`linktimer, buffer0, transport
      ensures Sizes() && linkid == old(buffer0[1]) && linkcount == old(buffer0[2])
      ensures var f: Frame := old(buffer0[..DATA_SIZE]);
              var g := f[1 := Add8(f[1], -1)];
              Does(old(RoleNow()), Act(old(State()).(id := f[1], count := f[2], buffer := g), [g]))
    {
      ghost var f: Frame := buffer0[..DATA_SIZE];
      linkid := buffer0[1];
      linkcount := buffer0[2];
      buffer0[1] := Add8(buffer0[1], -1);
      assert buffer0[..DATA_SIZE] == f[1 := Add8(f[1], -1)];
      OneFrame(buffer0[..DATA_SIZE]);
      SendFrame();
    }

    /** 0xFE: a slave takes its number, a relay only the count; then the link is up. */
    method TakeLinkSize()
      requires Sizes() && linkalive == 0 && (!transport.cut ==> transport.Open())
      requires buffer0[0] == LINK_SIZE
      modifies this`linkid, this`linkcount, this`linkalive, this`linktimer, shared, buffer0, transport
      ensures Sizes()
      ensures Does(old(RoleNow()), LinkNode.Receive(old(RoleNow()), old(State()), old(buffer0[..DATA_SIZE])))
    {
      if fg == 0 && shared[1] == 2 {
        SlaveTakesSize();
      } else if fg == 0 && shared[1] == 0 {
        RelayTakesSize();
      }
      ConsiderDone();
    }

    method RelayTakesSize()
      requires Sizes() && (!transport.cut ==> transport.Open())
      modifies this`linkid, this`linkcount, this`linkalive, this`linktimer, transport
      ensures Sizes() && linkid == 0 && linkcount == buffer0[2]
      ensures var f: Frame := buffer0[..DATA_SIZE];
              Does(old(RoleNow()), Act(old(State()).(id := 0, count := f[2]), [f]))
    {
      ghost var f: Frame := buffer0[..DATA_SIZE];
      linkid := 0;
      linkcount := buffer0[2];
      OneFrame(f);
      SendFrame();
    }

    /** The message in buffer0 while the link is not yet established. */
    method TakeWaiting()
      requires Sizes() && linkalive == 0 && (!transport.cut ==> transport.Open())
      modifies this`linkid, this`linkcount, this`linkalive, this`linktimer, shared, buffer0, transport
      ensures Sizes()
      ensures Does(old(RoleNow()), LinkNode.Receive(old(RoleNow()), old(State()), old(buffer0[..DATA_SIZE])))
    {
      var idx := buffer0[0];
      if idx == 0xff {
        TakeLinkId();
      } else if idx == 0xfe {
        TakeLinkSize();
      }
    }

    /** The message in buffer0 while the link is up. */
    method TakeUp()
      requires Sizes() && (!transport.cut ==> linkalive == 1 && transport.Open())
      modifies this`linkalive, this`linktimer, shared, buffer0, transport
      ensures Sizes()
      ensures !old(transport.cut) ==>
        Does(old(RoleNow()), LinkNode.Receive(old(RoleNow()), old(State()), old(buffer0[..DATA_SIZE])))
      ensures RoleNow() == old(RoleNow()) && (old(transport.cut) ==> transport.cut)
      ensures transport.inbox == old(transport.inbox)
    {
      var idx := buffer0[0];
      if idx <= linkcount {
        TakeData();
      } else if idx == 0xfc {
        TakeVsync();
      }
    }

    /** The window goes on: a slave sends its own, a relay the frame it has read. */
    method PassWindow()
      requires Sizes() && (!transport.cut ==> transport.Open())
      modifies this`linkalive, this`linktimer, buffer0, transport
      ensures transport.inbox == old(transport.inbox) && transport.taken == old(transport.taken) && transport.dry == old(transport.dry)
      ensures linkalive == old(linkalive) || linkalive == 2
      ensures var f, g := old(buffer0[..DATA_SIZE]), DataFrame(old(linkid), shared[..]);
              && buffer0[..DATA_SIZE] == (if RoleNow().Slave? then g else f)
              && (!transport.cut ==>
                    && !old(transport.cut) && transport.Open()
                    && linkalive == old(linkalive) && linktimer == old(linktimer)
                    && transport.sent == old(transport.sent) + Bytes(Passed(RoleNow(), f, g)))
    {
      var isSlave := fg == 0 && shared[1] == 2;
      var isRelay := fg == 0 && shared[1] == 0;
      if isSlave {
        OneFrame(DataFrame(linkid, shared[..]));
        SendData();
      } else if isRelay {
        OneFrame(buffer0[..DATA_SIZE]);
        SendFrame();
      }
    }

    /** Race data: stored, and passed on with the cabinet's own in front, or as it is by a relay. */
    method TakeData()
      requires Sizes() && (!transport.cut ==> linkalive == 1 && transport.Open()) && buffer0[0] <= linkcount
      modifies this`linkalive, this`linktimer, shared, buffer0, transport
      ensures Sizes() && (old(transport.cut) ==> transport.cut)
      ensures Does(old(RoleNow()), LinkNode.ReceiveUp(old(RoleNow()), old(State()), old(buffer0[..DATA_SIZE])))
    {
      StoreWindow();
      PassWindow();
    }

    /** The vsync token: noted, and passed on by all but the master. */
    method TakeVsync()
      requires Sizes() && (!transport.cut ==> linkalive == 1 && transport.Open())
      requires buffer0[0] == VSYNC && linkcount < VSYNC
      modifies this`linkalive, this`linktimer, transport
      ensures Sizes() && (old(transport.cut) ==> transport.cut)
      ensures Does(old(RoleNow()), LinkNode.ReceiveUp(old(RoleNow()), old(State()), old(buffer0[..DATA_SIZE])))
    {
      OneFrame(buffer0[..DATA_SIZE]);
      linktimer := 0;
      if !(fg == 1 || shared[1] == 1) { SendFrame(); }
    }

    /** The master's tail of a tick before the link is up. */
    method MasterTail()
      requires Sizes() && RoleNow().Master? && linkalive == 0 && (!transport.cut ==> transport.Open())
      modifies this`linkalive, this`linktimer, shared, buffer0, transport
      ensures Sizes()
      ensures Does(Master, LinkNode.Idle(Master, old(State())))
    {
      ghost var f: Frame := buffer0[..DATA_SIZE];
      if linktimer == 1 {
        buffer0[0] := 0xff;
        buffer0[1] := 0x01;
        buffer0[2] := 0x00;
        assert buffer0[..DATA_SIZE] == f[0 := LINK_ID][1 := 0x01][2 := 0x00];
        OneFrame(buffer0[..DATA_SIZE]);
        SendFrame();
      } else if linktimer == 0 {
        buffer0[0] := 0xfe;
        buffer0[1] := linkcount;
        buffer0[2] := linkcount;
        assert buffer0[..DATA_SIZE] == f[0 := LINK_SIZE][1 := linkcount][2 := linkcount];
        OneFrame(buffer0[..DATA_SIZE]);
        SendFrame();
        ConsiderDone();
      } else {
        linktimer := linktimer - 1;
      }
    }

    /** The window, and then the vsync frame in the same buffer. */
    method SendUp()
      requires Sizes() && (!transport.cut ==> transport.Open())
      modifies this`linkalive, this`linktimer, buffer0, transport
      ensures buffer0[..DATA_SIZE] == VsyncAfter(DataFrame(old(linkid), shared[..]))
      ensures transport.inbox == old(transport.inbox) && transport.taken == old(transport.taken) && transport.dry == old(transport.dry)
      ensures linkalive == old(linkalive) || linkalive == 2
      ensures !transport.cut ==>
        var d := DataFrame(old(linkid), shared[..]);
        && !old(transport.cut) && transport.Open()
        && linkalive == old(linkalive) && linktimer == old(linktimer)
        && transport.sent == old(transport.sent) + Bytes([d, VsyncAfter(d)])
    {
      SendData();
      ghost var d: Frame := buffer0[..DATA_SIZE];
      buffer0[0] := 0xfc;
      buffer0[1] := 0x01;
      assert buffer0[..DATA_SIZE] == VsyncAfter(d);
      TwoFrames(d, buffer0[..DATA_SIZE]);
      SendFrame();
    }

    /** The tail of a tick while the link is up. */
    method UpTail()
      requires Sizes() && linkalive == 1 && (!transport.cut ==> transport.Open())
      modifies this`linkalive, this`linktimer, buffer0, transport
      ensures Sizes()
      ensures Does(old(RoleNow()), LinkNode.Tick(old(RoleNow()), old(State())))
    {
      linktimer := framesync;
      if fg == 1 || shared[1] == 1 {
        SendUp();
      }
    }

    // ---- Whole ticks --------------------------------------------------------

    /** One more step in the log, which took the board from `was` with `out` sent to what it is now. */
    ghost method Note(s: NodeStep, was: Node, out: seq<byte>)
      requires Sizes()
      requires !transport.cut ==>
        && Legal(RoleNow(), start, log) && RunTo(RoleNow(), start, log) == was && out == Bytes(Sent(RoleNow(), start, log))
        && CanStep(was, s) && State() == StepAct(RoleNow(), was, s).node
        && transport.sent == out + Bytes(StepAct(RoleNow(), was, s).sent)
        && transport.taken == Bytes(Taken(log)) + Payload(s) + rx
        && (linkalive == 1 ==> transport.Open())
      modifies this`log
      ensures Valid() && log == old(log) + [s]
    {
      ghost var role, now := RoleNow(), State();
      if !transport.cut {
        AccountStep(role, start, log, was, out, s, now, transport.sent, transport.taken, rx);
      }
      log := log + [s];
      assert RoleNow() == role && State() == now;
    }

    /** Reads one message and acts on it while the link is not yet established. */
    method StepWaiting() returns (got: int)
      requires Valid() && linkalive == 0 && (!transport.cut ==> transport.Open())
      modifies this`linkid, this`linkcount, this`linkalive, this`linktimer, this`rx, this`log, shared, buffer0, transport
      ensures Valid() && Grows() && (!transport.cut ==> transport.Open())
      ensures got >= 0 && (got == 0 ==> linkalive == 0)
      ensures |rx| + |transport.inbox| + got == old(|rx| + |transport.inbox|)
      ensures MoreReceives(old(log), log) && (got > 0 <==> |log| > |old(log)|)
      ensures got == 0 && !transport.cut ==> transport.dry
    {
      ghost var was := State();
      got := ReadFrame(Bytes(Taken(log)));
      if got > 0 {
        ghost var f: Frame, out := buffer0[..DATA_SIZE], transport.sent;
        ReceiveFacts(RoleNow(), was, f);
        TakeWaiting();
        Note(Receive(f), was, out);
      }
    }

    /** Reads one message and acts on it while the link is up. */
    method StepUp() returns (got: int)
      requires Valid() && (!transport.cut ==> linkalive == 1)
      modifies this`linkalive, this`linktimer, this`rx, this`log, shared, buffer0, transport
      ensures Valid() && Grows() && (!transport.cut ==> linkalive == 1)
      ensures got >= 0
      ensures |rx| + |transport.inbox| + got == old(|rx| + |transport.inbox|)
      ensures MoreReceives(old(log), log) && (got > 0 <==> |log| > |old(log)|)
      ensures got == 0 && !transport.cut ==> transport.dry
    {
      ghost var was := State();
      got := ReadFrame(Bytes(Taken(log)));
      if got > 0 {
        ghost var f: Frame, out := buffer0[..DATA_SIZE], transport.sent;
        if !transport.cut { ReceiveFacts(RoleNow(), was, f); }
        TakeUp();
        Note(Receive(f), was, out);
      }
    }

    /** The link not yet established: read what is there, then the master's tail. */
    method Establish()
      requires Valid() && linkalive == 0 && (!transport.cut ==> transport.Open())
      modifies this`linkid, this`linkcount, this`linkalive, this`linktimer, this`rx, this`log, shared, buffer0, transport
      ensures Valid() && Grows() && (!transport.cut ==> transport.Open())
      ensures !transport.cut ==> linkalive in {0, 1} && MoreWaiting(RoleNow(), old(log), log, linkalive)
      ensures !transport.cut && linkalive == 0 ==> transport.dry
    {
      ReadWaiting();
      if (fg == 1 || shared[1] == 1) && linkalive == 0 {
        MasterIdles();
      }
    }

    /** Reads and acts until nothing more is there or the link is up. */
    method ReadWaiting()
      requires Valid() && linkalive == 0 && (!transport.cut ==> transport.Open())
      modifies this`linkid, this`linkcount, this`linkalive, this`linktimer, this`rx, this`log, shared, buffer0, transport
      ensures Valid() && Grows() && (!transport.cut ==> transport.Open())
      ensures MoreReceives(old(log), log)
      ensures !transport.cut ==> linkalive in {0, 1} && (linkalive == 0 ==> transport.dry)
    {
      var recv := StepWaiting();
      while recv > 0
        invariant Valid() && Grows() && (!transport.cut ==> transport.Open())
        invariant recv >= 0 && MoreReceives(old(log), log)
        invariant !transport.cut ==> linkalive in {0, 1} && (recv == 0 && linkalive == 0 ==> transport.dry)
        decreases |rx| + |transport.inbox|, recv
      {
        ghost var was := log;
        recv := NextWaiting(recv);
        ReceivesOn(old(log), was, log);
      }
    }

    /** The next message, unless the link has come up. */
    method NextWaiting(before: int) returns (recv: int)
      requires Valid() && before > 0 && (!transport.cut ==> transport.Open() && linkalive in {0, 1})
      modifies this`linkid, this`linkcount, this`linkalive, this`linktimer, this`rx, this`log, shared, buffer0, transport
      ensures Valid() && Grows() && (!transport.cut ==> transport.Open())
      ensures recv >= 0 && MoreReceives(old(log), log)
      ensures !transport.cut ==> linkalive in {0, 1} && (recv == 0 && linkalive == 0 ==> transport.dry)
      ensures |rx| + |transport.inbox| + recv <= old(|rx| + |transport.inbox|)
    {
      if linkalive == 0 {
        recv := StepWaiting();
      } else {
        recv := 0;
      }
    }

    method MasterIdles()
      requires Valid() && RoleNow().Master? && linkalive == 0 && (!transport.cut ==> transport.Open())
      modifies this`linkalive, this`linktimer, this`log, shared, buffer0, transport
      ensures Valid() && Grows() && (!transport.cut ==> transport.Open())
      ensures log == old(log) + [Idle] && transport.dry == old(transport.dry)
      ensures !transport.cut ==> linkalive in {0, 1}
    {
      ghost var was, out := State(), transport.sent;
      MasterTail();
      Note(Idle, was, out);
    }

    /**
     The receive loop of a tick and of a poll: read what is there, wait while a vsync
     is due. With the link still up, the loop ends with nothing left to read.
     */
    method Exchange(patience: nat)
      requires Valid() && linkalive == 1
      modifies this`linkalive, this`linktimer, this`rx, this`log, shared, buffer0, transport
      ensures Valid() && Grows() && (!transport.cut ==> transport.Open())
      ensures !transport.cut && linkalive == 1 ==> linktimer != 1 && transport.dry && MoreReceives(old(log), log)
      ensures !transport.cut && linkalive != 1 ==> linkalive == 2 && MoreThen(old(log), log, Lose)
    {
      var deadline := patience;
      while true
        invariant Valid() && Grows() && (!transport.cut ==> linkalive == 1)
        invariant MoreReceives(old(log), log)
        decreases deadline
      {
        ReadUp();
        if linktimer != 1 { return; }
        if deadline == 0 {
          GiveUp();
          return;
        }
        deadline := deadline - 1;
        transport.Poll();
      }
    }

    /** Reads and acts until nothing more is there. */
    method ReadUp()
      requires Valid() && (!transport.cut ==> linkalive == 1)
      modifies this`linkalive, this`linktimer, this`rx, this`log, shared, buffer0, transport
      ensures Valid() && Grows() && (!transport.cut ==> linkalive == 1 && transport.dry)
      ensures forall was :: MoreReceives(was, old(log)) ==> MoreReceives(was, log)
    {
      var recv := StepUp();
      while recv > 0
        invariant Valid() && Grows() && (!transport.cut ==> linkalive == 1)
        invariant recv >= 0 && MoreReceives(old(log), log)
        invariant recv == 0 && !transport.cut ==> transport.dry
        decreases |rx| + |transport.inbox|, recv
      {
        ghost var was := log;
        recv := StepUp();
        ReceivesOn(old(log), was, log);
      }
      forall was | MoreReceives(was, old(log)) ensures MoreReceives(was, log) {
        ReceivesOn(was, old(log), log);
      }
    }

    /** The wait for the vsync has lasted too long. */
    method GiveUp()
      requires Valid() && (!transport.cut ==> linkalive == 1)
      modifies this`linkalive, this`linktimer, this`log
      ensures Valid() && Grows() && linkalive == 2 && log == old(log) + [Lose]
    {
      ghost var was := State();
      Lost();
      NothingSent(transport.sent);
      Note(Lose, was, transport.sent);
    }

    /** What a tick writes before it reads: the status of a link that is waiting or lost. */
    method PutStatus()
      requires Sizes() && linkalive in {0, 2}
      modifies shared
      ensures Sizes() && RoleNow() == old(RoleNow()) && State() == LinkNode.Begin(old(State()))
    {
      if linkalive == 2 {
        shared[0] := 0xff;
      } else {
        shared[0] := 0x00;
        shared[2] := 0xff;
        shared[3] := 0xff;
      }
    }

    method WriteStatus()
      requires Valid() && linkalive in {0, 2}
      modifies this`log, shared
      ensures Valid() && Grows() && log == old(log) + [Begin]
    {
      ghost var was := State();
      PutStatus();
      NothingSent(transport.sent);
      Note(Begin, was, transport.sent);
    }

    /** The tick of a cabinet that is up. */
    method TickUp(patience: nat)
      requires Valid() && linkalive == 1
      modifies this`linkalive, this`linktimer, this`zfgDelay, this`rx, this`log, shared, buffer0, transport
      ensures Valid() && Grows() && (!transport.cut ==> transport.Open())
      ensures !transport.cut ==> linkalive in {1, 2} && MoreUp(old(log), log, linkalive)
      ensures !transport.cut && linkalive == 1 ==> transport.dry && zfgDelay == 2
    {
      Exchange(patience);
      if linkalive != 1 { return; }
      EndTick();
      zfgDelay := 2;
    }

    method EndTick()
      requires Valid() && linkalive == 1 && (!transport.cut ==> linktimer != 1)
      modifies this`linkalive, this`linktimer, this`log, buffer0, transport
      ensures Valid() && Grows() && log == old(log) + [Tick] && transport.dry == old(transport.dry)
      ensures !transport.cut ==> linkalive == 1
    {
      ghost var was, out := State(), transport.sent;
      UpTail();
      Note(Tick, was, out);
    }

    /**
     comm_tick: once per frame. Until a line breaks, a tick of an enabled board is the
     steps of WholeTick, and it leaves nothing unread on a link that is up or waiting.
     */
    method CommTick(patience: nat)
      requires Valid()
      modifies this`linkid, this`linkcount, this`linkalive, this`linktimer, this`zfgDelay, this`rx, this`log,
        shared, buffer0, transport
      ensures Valid() && Grows()
      ensures linkenable != 1 ==> log == old(log)
      ensures linkenable == 1 && !transport.cut ==>
        && WholeTick(RoleNow(), old(log), log, old(linkalive), linkalive, transport.Open())
        && (linkalive == 1 || (linkalive == 0 && transport.Open()) ==> transport.dry)
    {
      if linkenable != 1 { return; }
      transport.Poll();
      if linkalive == 2 {
        WriteStatus();
      } else if linkalive == 0 {
        TickWaiting(patience);
      } else {
        TickUp(patience);
      }
    }

    /** The tick of a cabinet whose link is not yet established. */
    method TickWaiting(patience: nat)
      requires Valid() && linkalive == 0
      modifies this`linkid, this`linkcount, this`linkalive, this`linktimer, this`zfgDelay, this`rx, this`log,
        shared, buffer0, transport
      ensures Valid() && Grows()
      ensures !transport.cut ==>
        && WholeTick(RoleNow(), old(log), log, 0, linkalive, transport.Open())
        && (linkalive == 1 || (linkalive == 0 && transport.Open()) ==> transport.dry)
    {
      WriteStatus();
      if transport.rxOpen && transport.txOpen {
        Establish();
        ghost var mid := log;
        if linkalive == 1 {
          TickUp(patience);
        }
        assert !transport.cut ==> UpAfter(RoleNow(), old(log) + [Begin], mid, log, linkalive);
      }
    }

    /** read_fg: the game polls the frame flag; only a board that is up and past its delay reads. */
    method ReadFg(patience: nat)
      requires Valid()
      modifies this`linkalive, this`linktimer, this`zfgDelay, this`rx, this`log, shared, buffer0, transport
      ensures Valid() && Grows()
      ensures zfgDelay == (if old(zfgDelay) > 0 then old(zfgDelay) - 1 else 0)
      ensures old(zfgDelay) > 0 || old(linkalive) != 1 ==> log == old(log)
      ensures old(zfgDelay) == 0 && old(linkalive) == 1 && !transport.cut ==>
        if linkalive == 1 then linktimer != 1 && transport.dry && MoreReceives(old(log), log)
        else MoreThen(old(log), log, Lose)
    {
      if zfgDelay > 0 {
        zfgDelay := zfgDelay - 1;
        return;
      }
      if linkalive != 1 { return; }
      Exchange(patience);
    }

    method PutBlock(b: Block)
      requires Sizes()
      modifies shared
      ensures Sizes() && RoleNow() == old(RoleNow())
      ensures shared[..] == old(shared[..FRAME_START]) + b + old(shared[0x21c0..])
    {
      ghost var was := shared[..];
      var j := 0;
      while j < FRAME_OFFSET
        invariant 0 <= j <= FRAME_OFFSET
        invariant shared[..FRAME_START] == was[..FRAME_START]
        invariant shared[FRAME_START..FRAME_START + j] == b[..j]
        invariant shared[FRAME_START + j..] == was[FRAME_START + j..]
        modifies shared
      {
        ghost var before := shared[..];
        shared[FRAME_START + j] := b[j];
        assert shared[..] == before[FRAME_START + j := b[j]];
        j := j + 1;
      }
      assert shared[..] == shared[..FRAME_START] + shared[FRAME_START..0x21c0] + shared[0x21c0..];
      assert forall k :: 0 <= k < FRAME_START ==> shared[k] == was[k];
    }

    /** The game writes its block of race data. */
    method WriteRace(b: Block)
      requires Valid()
      modifies this`log, shared
      ensures Valid() && Grows() && log == old(log) + [Game(b)]
      ensures shared[FRAME_START..FRAME_START + FRAME_OFFSET] == b
    {
      ghost var was := State();
      PutBlock(b);
      NothingSent(transport.sent);
      Note(Game(b), was, transport.sent);
    }

    /** cn_w(1): the init command. The window is zeroed and the geometry written, then one tick. */
    method InitCommand(patience: nat)
      requires shared.Length == 0x4000 && buffer0.Length == 0x1000 && shared != buffer0 && fg < 2
      modifies this, shared, buffer0, transport
      ensures Valid() && linkenable == 1
      ensures start == InitNode(old(framesync), old(buffer0[..DATA_SIZE]))
      ensures !transport.cut ==> WholeTick(RoleNow(), [], log, 0, linkalive, transport.Open())
    {
      ClearShared();
      linkenable, linkid, linkalive, linkcount, linktimer := 1, 0, 0, 0, 0xe8;
      rx := [];
      StartLog();
      CommTick(patience);
    }

    method ClearShared()
      requires shared.Length == 0x4000
      modifies shared
      ensures shared[..] == InitNode(framesync, seq(DATA_SIZE, _ => 0)).shared
    {
      var j := 0;
      while j < 0x4000
        invariant 0 <= j <= 0x4000
        invariant forall k :: 0 <= k < j ==> shared[k] == 0
        modifies shared
      {
        shared[j] := 0;
        j := j + 1;
      }
      shared[0x01] := 0x02;
      shared[0x12], shared[0x13] := 0x00, 0x0e;
      shared[0x14], shared[0x15] := 0xc0, 0x01;
    }
  }
}
