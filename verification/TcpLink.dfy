/**
 The sending half of the Vita's cable (platform/vita/link.h): a compacting buffer in
 front of a socket that takes what it likes, and what that means for whole frames
 read at the other end by the board's ReadFrame.
 */
module TcpLink {
  import opened LinkNode
  import opened CommBoard

  const OUTGOING := 65536

  /** sceNetSend: some of the bytes, none for now, or a broken line. */
  datatype SendResult = Took(n: nat) | Pending | Broken

  class TcpLink {
    const outgoing: array<byte>
    var begin: nat
    var end: nat
    var txOpen: bool            // tx_ >= 0 && connected_
    ghost var accepted: seq<byte>  // bytes accepted since the line opened
    var wire: seq<byte>            // bytes the socket has taken since then
    ghost var last: SendResult     // the socket's last answer

    ghost predicate Valid()
      reads this, outgoing
    {
      && outgoing.Length == OUTGOING
      && begin <= end <= OUTGOING
      && wire <= accepted
      && (txOpen ==> accepted == wire + outgoing[begin..end])
      && (!txOpen ==> begin == 0 && end == 0)
    }

    constructor ()
      ensures Valid() && !txOpen && accepted == []
    {
      outgoing := new byte[OUTGOING](_ => 0);
      begin, end, txOpen := 0, 0, false;
      accepted, wire, last := [], [], Pending;
    }

    /** The connection to the next cabinet is made. */
    method Connected()
      requires Valid() && !txOpen
      modifies this
      ensures Valid() && txOpen && accepted == [] && wire == []
    {
      txOpen := true;
      accepted, wire := [], [];
    }

    method Disconnect()
      requires Valid()
      modifies this`begin, this`end, this`txOpen
      ensures Valid() && !txOpen
    {
      txOpen := false;
      begin, end := 0, 0;
    }

    /** One send; what the socket does is not the program's to choose. */
    method Send(max: nat) returns (r: SendResult)
      modifies this`last
      ensures (r.Took? ==> r.n <= max) && last == r
    {
      var k: nat :| k <= max;
      var broken: bool :| true;
      var pending: bool :| true;
      r := if broken then Broken else if pending then Pending else Took(k);
      last := r;
    }

    /**
     Hands the socket what it will take now: it stops with bytes left only when the
     socket has said to wait, and closes the line only when the socket gave cause.
     */
    method Flush()
      requires Valid()
      modifies this`begin, this`end, this`txOpen, this`wire, this`last
      ensures txOpen && begin < end ==> last.Pending?
      ensures old(txOpen) && !txOpen ==> !(last.Took? && last.n > 0)
      ensures Valid() && accepted == old(accepted)
      ensures old(wire) <= wire
      ensures !old(txOpen) ==> !txOpen
      ensures end - begin <= old(end - begin)
    {
      if !txOpen { return; }
      while begin < end
        invariant Valid() && txOpen && accepted == old(accepted) && old(wire) <= wire
        invariant end == old(end) && old(begin) <= begin
      {
        var r := Send(end - begin);
        match r {
          case Took(n) =>
            if n == 0 {
              Disconnect();
              return;
            }
            wire := wire + outgoing[begin..begin + n];
            begin := begin + n;
          case Pending =>
            var tooLong: bool :| true; // no progress for two seconds
            if tooLong { Disconnect(); }
            return;
          case Broken =>
            Disconnect();
            return;
        }
      }
      begin, end := 0, 0;
    }

    /** memmove of what is still to be sent to the front of the buffer. */
    method Compact()
      requires Valid()
      modifies this`begin, this`end, outgoing
      ensures Valid() && begin == 0 && end == old(end) - old(begin)
      ensures outgoing[begin..end] == old(outgoing[begin..end])
    {
      var n := end - begin;
      var j := 0;
      while j < n
        invariant 0 <= j <= n
        invariant forall k :: 0 <= k < j ==> outgoing[k] == old(outgoing[begin..end])[k]
        invariant forall k :: begin + j <= k < end ==> outgoing[k] == old(outgoing[k])
        modifies outgoing
      {
        outgoing[j] := outgoing[begin + j];
        j := j + 1;
      }
      assert outgoing[..n] == old(outgoing[begin..end]);
      end := n;
      begin := 0;
    }

    /**
     All of the bytes, or the line is closed; it fails only on a closed line, for want
     of room, or because of the socket.
     */
    method Write(buf: seq<byte>) returns (ok: bool)
      requires Valid()
      modifies this, outgoing
      ensures Valid() && ok == txOpen
      ensures !ok ==> !old(txOpen) || |buf| + old(end - begin) > OUTGOING || !(last.Took? && last.n > 0)
      ensures ok && begin < end ==> last.Pending?
      ensures ok ==> old(txOpen) && accepted == old(accepted) + buf
      ensures old(wire) <= wire
      ensures accepted == old(accepted) || accepted == old(accepted) + buf
    {
      if !txOpen { return false; }
      Flush();
      if !txOpen { return false; }
      if |buf| > OUTGOING - (end - begin) {
        Disconnect();
        return false;
      }
      if end + |buf| > OUTGOING {
        Compact();
      }
      Append(buf);
      Flush();
      ok := txOpen;
    }

    /** memcpy behind what is still to be sent. */
    method Append(buf: seq<byte>)
      requires Valid() && txOpen && end + |buf| <= OUTGOING
      modifies this`end, this`accepted, outgoing
      ensures Valid() && txOpen && accepted == old(accepted) + buf
    {
      ghost var held := outgoing[begin..end];
      var j := 0;
      while j < |buf|
        invariant 0 <= j <= |buf|
        invariant outgoing[begin..end] == held
        invariant outgoing[end..end + j] == buf[..j]
        modifies outgoing
      {
        outgoing[end + j] := buf[j];
        j := j + 1;
      }
      assert outgoing[begin..end + |buf|] == outgoing[begin..end] + outgoing[end..end + |buf|];
      assert outgoing[end..end + |buf|] == buf;
      accepted := accepted + buf;
      end := end + |buf|;
    }
  }

  // ---- From one board to the next -------------------------------------------

  lemma {:induction false} BytesLength(frames: seq<Frame>)
    ensures |Bytes(frames)| == DATA_SIZE * |frames|
  {
    if frames != [] { BytesLength(frames[..|frames| - 1]); }
  }

  lemma HeadFrame(frames: seq<Frame>)
    requires frames != []
    ensures Bytes(frames) == frames[0] + Bytes(frames[1..])
  {
    assert frames == [frames[0]] + frames[1..];
    BytesConcat([frames[0]], frames[1..]);
    OneFrame(frames[0]);
  }

  /** A byte stream cut into frames gives back the frames that were laid end to end. */
  lemma {:induction false} CutAtFrames(sent: seq<Frame>, got: seq<Frame>, rest: seq<byte>)
    requires Bytes(got) + rest <= Bytes(sent)
    ensures got <= sent
    decreases |got|
  {
    if got != [] {
      BytesLength(got);
      BytesLength(sent);
      HeadFrame(got);
      HeadFrame(sent);
      assert (Bytes(got) + rest)[..DATA_SIZE] == got[0];
      assert Bytes(sent)[..DATA_SIZE] == sent[0];
      assert (Bytes(got) + rest)[DATA_SIZE..] == Bytes(got[1..]) + rest;
      assert Bytes(sent)[DATA_SIZE..] == Bytes(sent[1..]);
      CutAtFrames(sent[1..], got[1..], rest);
      assert got[0] == sent[0];
      assert sent[..|got|] == [sent[0]] + sent[1..][..|got| - 1];
      assert got == [got[0]] + got[1..];
    }
  }

  /**
   Frames cross the link whole and in order, whatever was sent and read in pieces and
   however the buffer was compacted: the frames the receiver has taken, the bytes it
   holds toward the next, the bytes on the wire and the bytes still in the sender's
   buffer are the sender's frames laid end to end.

   `wire` is what the sender's socket has taken and `held` what its buffer holds
   (TcpLink.Valid); `taken` is what the receiver has read, its log's messages and rx
   (CommBoard.Valid); the network delivers a prefix of what it took.
   */
  lemma FramesCross(sent: seq<Frame>, wire: seq<byte>, held: seq<byte>, taken: seq<byte>, got: seq<Frame>, rx: seq<byte>)
    requires wire + held == Bytes(sent)
    requires taken <= wire
    requires taken == Bytes(got) + rx && |rx| < DATA_SIZE
    ensures got <= sent
    ensures Bytes(sent) == Bytes(got) + rx + wire[|taken|..] + held
    ensures held == [] && taken == wire ==> got == sent && rx == []
  {
    assert wire == taken + wire[|taken|..];
    assert Bytes(sent) == Bytes(got) + rx + wire[|taken|..] + held;
    assert Bytes(got) + rx <= Bytes(sent);
    CutAtFrames(sent, got, rx);
    if held == [] && taken == wire {
      assert Bytes(sent) == Bytes(got) + rx;
      BytesLength(sent);
      BytesLength(got);
    }
  }

  /** After a broken line nothing wrong has been delivered either: only whole accepted frames. */
  lemma CutLineDeliversPrefix(sent: seq<Frame>, wire: seq<byte>, taken: seq<byte>, got: seq<Frame>, rx: seq<byte>)
    requires wire <= Bytes(sent) && taken <= wire && taken == Bytes(got) + rx
    ensures got <= sent
  {
    assert Bytes(got) + rx <= Bytes(sent);
    CutAtFrames(sent, got, rx);
  }

  // ---- A whole run of one cable -----------------------------------------------

  /** What happens at the two ends of a cable, and between them. */
  datatype LinkOp =
    | Send(f: Frame)   // the sender's board writes a frame
    | Flush            // its poll
    | Deliver(n: nat)  // the network brings at most n of the bytes it has
    | Receive          // the receiver's board looks for a frame

  /** The two ends and the network: every accepted byte is in one place, in order. */
  ghost predicate Carries(link: TcpLink, board: CommBoard, sent: seq<Frame>, got: seq<Frame>, delivered: nat)
    reads link, link.outgoing, board, board.transport
  {
    && link.Valid() && link.accepted == Bytes(sent)
    && delivered <= |link.wire|
    && board.transport.taken + board.transport.inbox == link.wire[..delivered]
    && board.transport.taken == Bytes(got) + board.rx && |board.rx| < DATA_SIZE
  }

  /** The receiver's side is apart from the sender's. */
  predicate Apart(link: TcpLink, board: CommBoard)
    reads link, board
  {
    link.outgoing != board.buffer0 && link.outgoing != board.shared
  }

  /** The network brings some of the bytes the socket has taken. */
  method Bring(link: TcpLink, board: CommBoard, n: nat, ghost sent: seq<Frame>, ghost got: seq<Frame>, delivered: nat)
      returns (more: nat)
    requires Carries(link, board, sent, got, delivered)
    modifies board.transport`inbox
    ensures Carries(link, board, sent, got, more) && more >= delivered
  {
    var wire := link.wire;
    more := if delivered + n <= |wire| then delivered + n else |wire|;
    assert wire[..more] == wire[..delivered] + wire[delivered..more];
    board.transport.inbox := board.transport.inbox + wire[delivered..more];
  }

  /** A frame into the sender's end. */
  method WriteFrame(link: TcpLink, board: CommBoard, f: Frame, ghost sent: seq<Frame>, ghost got: seq<Frame>, ghost delivered: nat)
      returns (ok: bool, ghost more: seq<Frame>)
    requires Carries(link, board, sent, got, delivered) && Apart(link, board)
    modifies link, link.outgoing
    ensures Carries(link, board, more, got, delivered) && ok == link.txOpen
    ensures more == sent || more == sent + [f]
    ensures ok ==> more == sent + [f]
  {
    ghost var wire := link.wire;
    ok := link.Write(f);
    more := if link.accepted == old(link.accepted) then sent else sent + [f];
    OneFrame(f);
    BytesConcat(sent, [f]);
    assert link.wire[..delivered] == wire[..delivered];
    NoEmptyFrame(sent, f);
  }

  lemma NoEmptyFrame(sent: seq<Frame>, f: Frame)
    ensures Bytes(sent) + f != Bytes(sent)
  {
    assert |Bytes(sent) + f| > |Bytes(sent)|;
  }

  /** A frame out of the receiver's end, if a whole one is there. */
  method TakeFrame(link: TcpLink, board: CommBoard, ghost sent: seq<Frame>, got: seq<Frame>, ghost delivered: nat)
      returns (more: seq<Frame>)
    requires Carries(link, board, sent, got, delivered) && Apart(link, board)
    requires board.Sizes() && !board.transport.cut && board.transport.Open()
    modifies board, board.buffer0, board.transport
    ensures !board.transport.cut ==>
      && Carries(link, board, sent, more, delivered) && board.Sizes() && board.transport.Open()
      && (more == got || more == got + [board.buffer0[..DATA_SIZE]])
    ensures board.transport.cut ==> more == got
  {
    ghost var before := Bytes(got);
    var n := board.ReadFrame(before);
    more := got;
    if n > 0 && !board.transport.cut {
      var f: Frame := board.buffer0[..DATA_SIZE];
      OneFrame(f);
      BytesConcat(got, [f]);
      more := got + [f];
    }
  }

  /**
   Frames cross the cable whole and in order, whatever happens at its ends: over any
   sequence of frames written, polls, deliveries of any size and looks for a frame, what
   the receiver has got is a prefix of what was accepted; and while the line holds, the
   frames got, the bytes kept for the next, the bytes that have arrived, are under way
   and are held by the sender are all that was accepted, in that order. When nothing is
   left in between, everything has been got.
   */
  method Across(link: TcpLink, board: CommBoard, ops: seq<LinkOp>)
      returns (ghost sent: seq<Frame>, got: seq<Frame>, delivered: nat)
    requires link.Valid() && link.txOpen && link.accepted == [] && Apart(link, board)
    requires board.Sizes() && !board.transport.cut && board.transport.Open() && board.rx == []
    requires board.transport.inbox == [] && board.transport.taken == []
    modifies link, link.outgoing, board, board.buffer0, board.transport
    ensures got <= sent
    ensures !board.transport.cut ==> link.Valid() && delivered <= |link.wire|
    ensures link.txOpen && !board.transport.cut ==>
      var between := board.transport.inbox + link.wire[delivered..] + link.outgoing[link.begin..link.end];
      && Bytes(sent) == Bytes(got) + board.rx + between
      && (between == [] ==> got == sent && board.rx == [])
  {
    sent, got, delivered := [], [], 0;
    var i := 0;
    while i < |ops| && link.txOpen
      invariant 0 <= i <= |ops|
      invariant Carries(link, board, sent, got, delivered) && Apart(link, board)
      invariant board.Sizes() && !board.transport.cut && board.transport.Open()
    {
      match ops[i] {
        case Send(f) =>
          var ok;
          ok, sent := WriteFrame(link, board, f, sent, got, delivered);
        case Flush =>
          ghost var wire := link.wire;
          link.Flush();
          assert link.wire[..delivered] == wire[..delivered];
        case Deliver(n) =>
          delivered := Bring(link, board, n, sent, got, delivered);
        case Receive =>
          GotPrefix(link, board, sent, got, delivered);
          got := TakeFrame(link, board, sent, got, delivered);
          if board.transport.cut { return; }
      }
      i := i + 1;
    }
    GotPrefix(link, board, sent, got, delivered);
  }

  lemma GotPrefix(link: TcpLink, board: CommBoard, sent: seq<Frame>, got: seq<Frame>, delivered: nat)
    requires Carries(link, board, sent, got, delivered)
    ensures got <= sent
    ensures link.txOpen ==>
      var left := board.transport.inbox + link.wire[delivered..] + link.outgoing[link.begin..link.end];
      && Bytes(sent) == Bytes(got) + board.rx + left
      && (left == [] ==> got == sent && board.rx == [])
  {
    var wire, taken, inbox := link.wire, board.transport.taken, board.transport.inbox;
    CutLineDeliversPrefix(sent, wire, taken, got, board.rx);
    if link.txOpen {
      var held := link.outgoing[link.begin..link.end];
      assert wire == wire[..delivered] + wire[delivered..];
      assert taken + inbox + wire[delivered..] == wire;
      var left := inbox + wire[delivered..] + held;
      assert Bytes(sent) == Bytes(got) + board.rx + left;
      if left == [] {
        assert held == [] && inbox == [] && wire[delivered..] == [];
        FramesCross(sent, wire, held, taken, got, board.rx);
      }
    }
  }
}
