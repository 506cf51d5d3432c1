/**
 One cabinet of the link ring (src/runtime/comm_board.cpp): the link fields of
 CommBoard and the small steps a tick or a poll of the frame flag is made of.
 Each step is the body of one loop iteration or one tail of the source.

 Frame geometry is the one the init command writes: 0xe00 bytes of payload per
 frame, sent from 0x2000, received at 0x2000 | 0x1c0.
 */
module LinkNode {
  import Words

  type byte = Words.byte

  const FRAME_START := 0x2000
  const FRAME_SIZE := 0x0e00
  const FRAME_OFFSET := 0x01c0
  const DATA_SIZE := 0x0e01

  const LINK_ID: byte := 0xff
  const LINK_SIZE: byte := 0xfe
  const VSYNC: byte := 0xfc

  /** The data_size bytes of buffer0_ that one message carries. */
  type Frame = f: seq<byte> | |f| == DATA_SIZE witness seq(DATA_SIZE, _ => 0)

  /** The 16 KB of shared RAM. */
  type Shared = s: seq<byte> | |s| == 0x4000 witness seq(0x4000, _ => 0)

  type Block = b: seq<byte> | |b| == FRAME_OFFSET witness seq(FRAME_OFFSET, _ => 0)

  /** is_master, is_slave, is_relay. */
  datatype Role = Master | Slave | Relay

  datatype Node = Node(
    alive: nat,      // linkalive_: 0 waiting, 1 up, 2 lost
    id: byte,        // linkid_
    count: byte,     // linkcount_
    timer: nat,      // linktimer_
    framesync: nat,  // framesync_
    shared: Shared,  // shared_
    buffer: Frame)   // buffer0_
  {
    predicate Up() { alive != 0 }
  }

  /** What one step does: the new node and the messages it sends. */
  datatype Act = Act(node: Node, sent: seq<Frame>)

  function Tag(f: Frame): byte { f[0] }

  /** The fields and the shared RAM that the init command leaves behind. */
  function InitNode(framesync: nat, buffer: Frame): Node {
    var zero: Shared := seq(0x4000, _ => 0);
    Node(0, 0, 0, 0xe8, framesync, zero[0x01 := 0x02][0x13 := 0x0e][0x14 := 0xc0][0x15 := 0x01], buffer)
  }

  /** The eight blocks after block 0 take a message's payload. */
  function StoreFrame(s: Shared, f: Frame): Shared {
    s[..FRAME_START + FRAME_OFFSET] + f[1..] + s[FRAME_START + FRAME_OFFSET + FRAME_SIZE..]
  }

  /** send_data: a cabinet's number and its first eight blocks. */
  function DataFrame(id: byte, s: Shared): Frame {
    [id] + s[FRAME_START..FRAME_START + FRAME_SIZE]
  }

  function SetStatus(s: Shared, state: byte, id: byte, count: byte): Shared {
    s[0 := state][2 := id][3 := count]
  }

  /** A cabinet that has been initialised and has heard nothing yet: the window is still zero. */
  ghost predicate Fresh(n: Node) {
    && n.alive == 0
    && n.timer != 0
    && (forall x :: FRAME_START <= x < |n.shared| ==> n.shared[x] == 0)
  }

  /** The state the init command leaves is one that has heard nothing yet. */
  lemma InitNodeFresh(framesync: nat, buffer: Frame)
    ensures Fresh(InitNode(framesync, buffer))
  {
  }

  /** A uint8_t field stepped up or down. */
  function Add8(b: byte, d: int): byte { (b as int + d) % 0x100 }

  /** What a tick writes before it reads anything. */
  function Begin(n: Node): Node {
    if n.alive == 0 then n.(shared := SetStatus(n.shared, 0x00, 0xff, 0xff))
    else if n.alive == 2 then n.(shared := n.shared[0 := 0xff])
    else n
  }

  /** lost() */
  function Lose(n: Node): Node {
    n.(alive := 2, timer := 0)
  }

  /** One message while the link is not yet established. */
  function ReceiveWaiting(role: Role, n: Node, f: Frame): Act {
    var n := n.(buffer := f);
    if Tag(f) == LINK_ID then
      match role
      case Master => Act(n.(id := 1, count := f[1], timer := 0), [])
      case Slave => var g := f[1 := Add8(f[1], 1)]; Act(n.(buffer := g), [g])
      case Relay => Act(n, [f])
    else if Tag(f) == LINK_SIZE then
      match role
      case Master => Act(ComeUp(n), [])
      case Slave => var g := f[1 := Add8(f[1], -1)]; Act(ComeUp(n.(id := f[1], count := f[2], buffer := g)), [g])
      case Relay => Act(ComeUp(n.(id := 0, count := f[2])), [f])
    else
      Act(n, [])
  }

  /** "consider it done" */
  function ComeUp(n: Node): Node {
    n.(alive := 1, shared := SetStatus(n.shared, 0x01, n.id, n.count))
  }

  /** One message while the link is up. */
  function ReceiveUp(role: Role, n: Node, f: Frame): Act {
    var n := n.(buffer := f);
    if Tag(f) <= n.count then
      var m := n.(shared := StoreFrame(n.shared, f));
      match role
      case Master => Act(m, [])
      case Slave => var g := DataFrame(m.id, m.shared); Act(m.(buffer := g), [g])
      case Relay => Act(m, [f])
    else if Tag(f) == VSYNC then
      Act(n.(timer := 0), if role.Master? then [] else [f])
    else
      Act(n, [])
  }

  function Receive(role: Role, n: Node, f: Frame): Act {
    if n.alive == 0 then ReceiveWaiting(role, n, f) else ReceiveUp(role, n, f)
  }

  /** The tail of a tick while the link is not yet established: only the master acts. */
  function Idle(role: Role, n: Node): Act {
    if !role.Master? then
      Act(n, [])
    else if n.timer == 1 then
      var g := n.buffer[0 := LINK_ID][1 := 0x01][2 := 0x00];
      Act(n.(buffer := g), [g])
    else if n.timer == 0 then
      var g := n.buffer[0 := LINK_SIZE][1 := n.count][2 := n.count];
      Act(ComeUp(n.(buffer := g)), [g])
    else
      Act(n.(timer := n.timer - 1), [])
  }

  /** The tail of a tick while the link is up; a tick gets here only with the timer not 1. */
  function Tick(role: Role, n: Node): Act {
    var n := n.(timer := n.framesync);
    if role.Master? then
      var d := DataFrame(n.id, n.shared);
      var v := d[0 := VSYNC][1 := 0x01];
      Act(n.(buffer := v), [d, v])
    else
      Act(n, [])
  }

  /** The game writes its own block of race data. */
  function GameWrite(n: Node, b: Block): Node {
    n.(shared := n.shared[..FRAME_START] + b + n.shared[FRAME_START + FRAME_OFFSET..])
  }

  // ---- Blocks of the window ------------------------------------------------

  /** Block i of the window at 0x2000; the window holds nine blocks. */
  function WindowBlock(s: Shared, i: nat): Block
    requires i < 9
  {
    s[FRAME_START + FRAME_OFFSET * i..FRAME_START + FRAME_OFFSET * (i + 1)]
  }

  /** Block j of a message; a message carries eight blocks. */
  function FrameBlock(f: Frame, j: nat): Block
    requires j < 8
  {
    f[1 + FRAME_OFFSET * j..1 + FRAME_OFFSET * (j + 1)]
  }

  /** Receiving shifts the window by one block: block j of the message becomes block j + 1. */
  lemma StoreShifts(s: Shared, f: Frame)
    ensures WindowBlock(StoreFrame(s, f), 0) == WindowBlock(s, 0)
    ensures forall j: nat {:trigger FrameBlock(f, j)} | j < 8 :: WindowBlock(StoreFrame(s, f), j + 1) == FrameBlock(f, j)
  {
    forall j: nat | j < 8 ensures WindowBlock(StoreFrame(s, f), j + 1) == FrameBlock(f, j) {
      StoreShiftsAt(s, f, j);
    }
  }

  lemma StoreShiftsAt(s: Shared, f: Frame, j: nat)
    requires j < 8
    ensures WindowBlock(StoreFrame(s, f), j + 1) == FrameBlock(f, j)
  {
    var t := StoreFrame(s, f);
    var a, b := WindowBlock(t, j + 1), FrameBlock(f, j);
    assert t[0x21c0..0x2fc0] == f[1..];
    forall x | 0 <= x < FRAME_OFFSET ensures a[x] == b[x] {
      assert a[x] == t[0x21c0 + (FRAME_OFFSET * j + x)] == t[0x21c0..0x2fc0][FRAME_OFFSET * j + x];
    }
  }

  /** Sending copies blocks 0 to 7. */
  lemma SendCopies(id: byte, s: Shared, j: nat)
    requires j < 8
    ensures FrameBlock(DataFrame(id, s), j) == WindowBlock(s, j)
  {
    var f := DataFrame(id, s);
    var a, b := FrameBlock(f, j), WindowBlock(s, j);
    assert f[1..] == s[0x2000..0x2e00];
    forall x | 0 <= x < FRAME_OFFSET ensures a[x] == b[x] {
      assert a[x] == f[1 + (FRAME_OFFSET * j + x)] == f[1..][FRAME_OFFSET * j + x];
    }
  }

  /** Writing the status bytes leaves the window alone. */
  lemma StatusKeepsWindow(s: Shared, state: byte, id: byte, count: byte, i: nat)
    requires i < 9
    ensures WindowBlock(SetStatus(s, state, id, count), i) == WindowBlock(s, i)
    ensures WindowBlock(s[0 := state], i) == WindowBlock(s, i)
  {
  }

  /** The game's write changes block 0 and no other block. */
  lemma GameWritesBlockZero(n: Node, b: Block, i: nat)
    requires i < 9
    ensures WindowBlock(GameWrite(n, b).shared, i) == if i == 0 then b else WindowBlock(n.shared, i)
  {
    var s, t := n.shared, GameWrite(n, b).shared;
    var a := WindowBlock(t, i);
    if i == 0 {
      assert a == b;
    } else {
      var c := WindowBlock(s, i);
      forall x | 0 <= x < FRAME_OFFSET ensures a[x] == c[x] {
        assert a[x] == t[FRAME_START + FRAME_OFFSET * i + x];
      }
    }
  }
}
