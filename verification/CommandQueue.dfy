/**
 The audio command queue (src/app/native_audio.h): one producer, one consumer, a
 byte ring and two free-running 32-bit indices. A step is one load, one byte or one
 store of one side; a run is any interleaving of the steps of both sides.

 `packets`, `sent`, `released` and the counts inside the two sides record what
 happened without wrapping; no step's effect on the queue or the indices reads them.
 An acquire load is taken to see everything the matching release store published.
 */
module CommandQueue {
  import opened Words

  const QUEUE := 16384

  /** send() or stats(), by how far it has got. `seen` is the read count the loaded index stands for. */
  datatype Producer =
    | Ready
    | Called(bytes: seq<byte>, w: Word)
    | Loaded(bytes: seq<byte>, w: Word, r: Word, seen: nat)
    | Copying(bytes: seq<byte>, w: Word, i: nat)
    | Counting(r: Word, seen: nat) // stats(), between its two loads

  /** receive(), by how far it has got: `from` and `to` are the counts of r and w. */
  datatype Consumer =
    | Asleep
    | Started(r: Word)
    | Draining(r: Word, w: Word, from: nat, to: nat)
    | Feeding(r: Word, w: Word, from: nat, to: nat, count: nat, j: nat)

  datatype State = State(
    queue: seq<byte>, write: Word, read: Word, failed: bool, overflows: nat,
    producer: Producer, consumer: Consumer,
    packets: seq<seq<byte>>, sent: seq<byte>, delivered: seq<byte>, released: nat,
    queued: Word) // what the last stats() gave

  datatype Step =
    | Send(bytes: seq<byte>)  // entry, and the producer's own index
    | LoadRead                // acquire
    | Check                   // room for the whole packet?
    | CopyByte
    | PublishWrite            // release
    | StatsLoadRead           // stats(): acquire
    | StatsLoadWrite
    | Receive                 // entry, and the consumer's own index
    | LoadWrite               // acquire
    | NextChunk               // the next run of bytes up to the end of the array
    | FeedByte                // the engine takes one byte
    | EndChunk
    | PublishRead             // release
    | Fail                    // the engine throws, or the stream is gone

  function Start(): State {
    State(seq(QUEUE, _ => 0), 0, 0, false, 0, Ready, Asleep, [], [], [], 0, 0)
  }

  /** uint32_t difference */
  function Sub32(a: Word, b: Word): Word { (a - b) % WORDS }

  function Min(a: int, b: int): int { if a <= b then a else b }

  predicate Enabled(s: State, step: Step) {
    match step
    case Send(bytes) => s.producer.Ready? && bytes != [] && !s.failed
    case LoadRead => s.producer.Called?
    case Check => s.producer.Loaded?
    case CopyByte => s.producer.Copying? && s.producer.i < |s.producer.bytes|
    case PublishWrite => s.producer.Copying? && s.producer.i == |s.producer.bytes|
    case StatsLoadRead => s.producer.Ready?
    case StatsLoadWrite => s.producer.Counting?
    case Receive => s.consumer.Asleep? && !s.failed
    case LoadWrite => s.consumer.Started?
    case NextChunk => s.consumer.Draining? && s.consumer.r != s.consumer.w
    case FeedByte => s.consumer.Feeding? && s.consumer.j < s.consumer.count
    case EndChunk => s.consumer.Feeding? && s.consumer.j == s.consumer.count
    case PublishRead => s.consumer.Draining? && s.consumer.r == s.consumer.w
    case Fail => !s.failed
  }

  function Apply(s: State, step: Step): State
    requires Enabled(s, step) && |s.queue| == QUEUE
    requires step.FeedByte? ==> s.consumer.r % QUEUE + s.consumer.j < QUEUE
  {
    var p, c := s.producer, s.consumer;
    match step
    case Send(bytes) => s.(producer := Called(bytes, s.write))
    case LoadRead => s.(producer := Loaded(p.bytes, p.w, s.read, s.released))
    case Check =>
      if |p.bytes| > QUEUE || |p.bytes| > QUEUE - Sub32(p.w, p.r) then
        s.(producer := Ready, overflows := s.overflows + 1)
      else
        s.(producer := Copying(p.bytes, p.w, 0))
    case CopyByte =>
      s.(queue := s.queue[Add32(p.w, p.i) % QUEUE := p.bytes[p.i]], producer := p.(i := p.i + 1))
    case PublishWrite =>
      s.(write := Add32(p.w, |p.bytes|), producer := Ready, packets := s.packets + [p.bytes], sent := s.sent + p.bytes)
    case StatsLoadRead => s.(producer := Counting(s.read, s.released))
    case StatsLoadWrite => s.(producer := Ready, queued := Sub32(s.write, p.r))
    case Receive => s.(consumer := Started(s.read))
    case LoadWrite => s.(consumer := Draining(c.r, s.write, s.released, |s.sent|))
    case NextChunk =>
      s.(consumer := Feeding(c.r, c.w, c.from, c.to, Min(Sub32(c.w, c.r), QUEUE - c.r % QUEUE), 0))
    case FeedByte =>
      s.(delivered := s.delivered + [s.queue[c.r % QUEUE + c.j]], consumer := c.(j := c.j + 1))
    case EndChunk =>
      s.(consumer := Draining(Add32(c.r, c.count), c.w, c.from + c.count, c.to))
    case PublishRead => s.(read := c.r, consumer := Asleep, released := c.from)
    case Fail => s.(failed := true, consumer := Asleep)
  }

  // ---- The invariant --------------------------------------------------------

  /** The bytes published and not yet released are in their slots. */
  ghost predicate Held(s: State) {
    && |s.queue| == QUEUE
    && s.released <= |s.sent| <= s.released + QUEUE
    && s.write == |s.sent| % WORDS && s.read == s.released % WORDS
    && (forall k: nat :: s.released <= k < |s.sent| ==> s.queue[k % QUEUE] == s.sent[k])
  }

  /** The first i bytes are in the slots of the counts from n on. */
  ghost predicate InSlots(queue: seq<byte>, bytes: seq<byte>, i: nat, n: nat) {
    |queue| == QUEUE && i <= |bytes| && forall k: nat :: k < i ==> queue[(n + k) % QUEUE] == bytes[k]
  }

  ghost predicate ProducerOk(s: State)
    requires Held(s)
  {
    match s.producer
    case Ready => true
    case Called(bytes, w) => w == s.write && bytes != []
    case Loaded(bytes, w, r, seen) =>
      w == s.write && r == seen % WORDS && seen <= s.released && |s.sent| <= seen + QUEUE && bytes != []
    case Copying(bytes, w, i) =>
      && w == s.write && i <= |bytes| && |s.sent| + |bytes| <= s.released + QUEUE
      && InSlots(s.queue, bytes, i, |s.sent|)
    case Counting(r, seen) => r == seen % WORDS && seen <= s.released && |s.sent| <= seen + QUEUE
  }

  ghost predicate ConsumerOk(s: State)
    requires Held(s)
  {
    match s.consumer
    case Asleep => !s.failed ==> s.delivered == s.sent[..s.released]
    case Started(r) => r == s.read && s.delivered == s.sent[..s.released]
    case Draining(r, w, from, to) =>
      && s.released <= from <= to <= |s.sent| && r == from % WORDS && w == to % WORDS
      && s.delivered == s.sent[..from]
    case Feeding(r, w, from, to, count, j) =>
      && s.released <= from && from + count <= to <= |s.sent| && r == from % WORDS && w == to % WORDS
      && 0 < count && from % QUEUE + count <= QUEUE && j <= count
      && s.delivered == s.sent[..from + j]
  }

  function Flatten(packets: seq<seq<byte>>): seq<byte> {
    if packets == [] then [] else Flatten(packets[..|packets| - 1]) + packets[|packets| - 1]
  }

  ghost predicate Inv(s: State) {
    && Held(s) && ProducerOk(s) && ConsumerOk(s)
    && s.delivered <= s.sent
    && s.sent == Flatten(s.packets)
    && (s.failed ==> s.consumer.Asleep?)
  }

  // ---- Wrapping -------------------------------------------------------------

  /** The ring's size divides 2^32, so an index that wraps stays on its slot. */
  lemma WrapSlot(n: nat)
    ensures n % WORDS % QUEUE == n % QUEUE
  {
    var q, m := n / WORDS, n % WORDS;
    assert n == q * WORDS + m;
    assert m == m / QUEUE * QUEUE + m % QUEUE;
    DivUnique(n, QUEUE, q * 0x4_0000 + m / QUEUE, m % QUEUE);
  }

  lemma WrapAdd(n: nat, k: nat)
    ensures Add32(n % WORDS, k) == (n + k) % WORDS
  {
    var q := n / WORDS;
    assert n == q * WORDS + n % WORDS;
    var x := n % WORDS + k;
    assert x == x / WORDS * WORDS + x % WORDS;
    DivUnique(n + k, WORDS, q + x / WORDS, x % WORDS);
  }

  lemma WrapSub(a: nat, b: nat)
    requires b <= a < b + WORDS
    ensures Sub32(a % WORDS, b % WORDS) == a - b
  {
    var d := a - b;
    WrapAdd(b, d);
    var x := b % WORDS + d;
    assert a % WORDS == x % WORDS;
    assert x == x / WORDS * WORDS + x % WORDS;
    assert x / WORDS == 0 || x / WORDS == 1;
  }

  /** Two counts less than a ring apart are on different slots. */
  lemma SlotsApart(a: nat, b: nat)
    requires a < b < a + QUEUE
    ensures a % QUEUE != b % QUEUE
  {
  }

  /** Inside one chunk the slots follow each other. */
  lemma ChunkSlot(from: nat, j: nat)
    requires from % QUEUE + j < QUEUE
    ensures (from + j) % QUEUE == from % QUEUE + j
  {
    DivUnique(from + j, QUEUE, from / QUEUE, from % QUEUE + j);
  }

  // ---- Every step keeps the invariant ---------------------------------------

  /** Every enabled step is safe: the consumer never reads past the array. */
  lemma StepSafe(s: State, step: Step)
    requires Inv(s) && Enabled(s, step)
    ensures step.FeedByte? ==> s.consumer.r % QUEUE + s.consumer.j < QUEUE
  {
    if step.FeedByte? {
      WrapSlot(s.consumer.from);
    }
  }

  lemma ProducerStep(s: State, step: Step)
    requires Inv(s) && Enabled(s, step)
    requires step.Send? || step.LoadRead? || step.Check? || step.StatsLoadRead? || step.StatsLoadWrite?
    ensures Inv(Apply(s, step))
  {
    if step.Check? {
      WrapSub(|s.sent|, s.producer.seen);
    }
  }

  /** Where the next byte goes. */
  lemma CopySlot(s: State)
    requires Inv(s) && Enabled(s, CopyByte)
    ensures Add32(s.producer.w, s.producer.i) % QUEUE == (|s.sent| + s.producer.i) % QUEUE
  {
    WrapAdd(|s.sent|, s.producer.i);
    WrapSlot(|s.sent| + s.producer.i);
  }

  /** The bytes copied so far, and this one, are in their slots. */
  lemma CopiedMore(queue: seq<byte>, from: nat, bytes: seq<byte>, i: nat, n: nat)
    requires InSlots(queue, bytes, i, n) && i < |bytes| && from <= n && n + i < from + QUEUE
    ensures InSlots(queue[(n + i) % QUEUE := bytes[i]], bytes, i + 1, n)
  {
    OtherSlots(queue, from, n + i, bytes[i]);
    forall k: nat | k < i + 1 ensures queue[(n + i) % QUEUE := bytes[i]][(n + k) % QUEUE] == bytes[k] {
      if k < i {
        assert queue[(n + k) % QUEUE] == bytes[k];
        SlotsApart(n + k, n + i);
      }
    }
  }

  /** The producer's state after it has copied one byte to the slot of count n. */
  function Copied(s: State, n: nat): State
    requires |s.queue| == QUEUE && s.producer.Copying? && s.producer.i < |s.producer.bytes|
  {
    var p := s.producer;
    s.(queue := s.queue[n % QUEUE := p.bytes[p.i]], producer := p.(i := p.i + 1))
  }

  /** The byte written lies in no slot that is still to be read. */
  lemma CopyStep(s: State)
    requires Inv(s) && Enabled(s, CopyByte)
    ensures Inv(Apply(s, CopyByte))
  {
    CopySlot(s);
    CopiedOk(s);
  }

  lemma CopiedOk(s: State)
    requires Inv(s) && Enabled(s, CopyByte)
    ensures Inv(Copied(s, |s.sent| + s.producer.i))
  {
    var p, n := s.producer, |s.sent|;
    var s' := Copied(s, n + p.i);
    HeldCopy(s, n + p.i, p.bytes[p.i]);
    CopiedMore(s.queue, s.released, p.bytes, p.i, n);
    SameHeld(s.(queue := s'.queue), s');
    CopyingOk(s', p.bytes, p.w, p.i + 1);
    SameConsumer(s, s');
  }

  lemma CopyingOk(s: State, bytes: seq<byte>, w: Word, i: nat)
    requires Held(s) && s.producer == Copying(bytes, w, i)
    requires w == s.write && i <= |bytes| && |s.sent| + |bytes| <= s.released + QUEUE
    requires InSlots(s.queue, bytes, i, |s.sent|)
    ensures ProducerOk(s)
  {
  }

  /** A byte written past what has been sent changes nothing that is to be read. */
  lemma HeldCopy(s: State, n: nat, b: byte)
    requires Held(s) && |s.sent| <= n < s.released + QUEUE
    ensures Held(s.(queue := s.queue[n % QUEUE := b]))
  {
    OtherSlots(s.queue, s.released, n, b);
  }

  /** The slots' books read neither side. */
  lemma SameHeld(s: State, s': State)
    requires Held(s)
    requires s'.queue == s.queue && s'.released == s.released && s'.sent == s.sent && s'.write == s.write && s'.read == s.read
    ensures Held(s')
  {
  }

  /** The consumer's side of the books does not read the slots or the producer. */
  lemma SameConsumer(s: State, s': State)
    requires Held(s) && Held(s') && ConsumerOk(s)
    requires s'.consumer == s.consumer && s'.failed == s.failed && s'.read == s.read && s'.released == s.released
    requires s'.sent == s.sent && s'.delivered == s.delivered
    ensures ConsumerOk(s')
  {
  }

  /** Writing the slot of count n changes no slot of a count less than a ring before it. */
  lemma OtherSlots(queue: seq<byte>, from: nat, n: nat, b: byte)
    requires |queue| == QUEUE && n < from + QUEUE
    ensures forall k: nat :: from <= k < n ==> queue[n % QUEUE := b][k % QUEUE] == queue[k % QUEUE]
  {
    forall k: nat | from <= k < n ensures k % QUEUE != n % QUEUE {
      SlotsApart(k, n);
    }
  }

  /** The packet's bytes are where the queue will look for them. */
  lemma HeldPublish(s: State, bytes: seq<byte>)
    requires Held(s) && |s.sent| + |bytes| <= s.released + QUEUE
    requires InSlots(s.queue, bytes, |bytes|, |s.sent|)
    ensures Held(s.(sent := s.sent + bytes, write := Add32(s.write, |bytes|)))
  {
    WrapAdd(|s.sent|, |bytes|);
    var sent := s.sent + bytes;
    forall k: nat | s.released <= k < |sent| ensures s.queue[k % QUEUE] == sent[k] {
      if k >= |s.sent| {
        assert s.queue[(|s.sent| + (k - |s.sent|)) % QUEUE] == bytes[k - |s.sent|];
      }
    }
  }

  lemma PublishStep(s: State)
    requires Inv(s) && Enabled(s, PublishWrite)
    ensures Inv(Apply(s, PublishWrite))
  {
    var p, s' := s.producer, Apply(s, PublishWrite);
    HeldPublish(s, p.bytes);
    SameHeld(s.(sent := s.sent + p.bytes, write := Add32(s.write, |p.bytes|)), s');
    assert s'.packets[..|s'.packets| - 1] == s.packets;
    PrefixKept(s.sent, p.bytes);
  }

  lemma PrefixKept(a: seq<byte>, b: seq<byte>)
    ensures forall n: nat :: n <= |a| ==> (a + b)[..n] == a[..n]
  {
  }

  /** The byte the engine takes is the next one sent. */
  lemma FedByte(s: State)
    requires Inv(s) && Enabled(s, FeedByte)
    ensures s.consumer.r % QUEUE + s.consumer.j < QUEUE
    ensures var at := s.consumer.from + s.consumer.j;
            at < |s.sent| && s.queue[s.consumer.r % QUEUE + s.consumer.j] == s.sent[at] && s.sent[..at + 1] == s.sent[..at] + [s.sent[at]]
  {
    var c := s.consumer;
    WrapSlot(c.from);
    ChunkSlot(c.from, c.j);
    assert s.queue[(c.from + c.j) % QUEUE] == s.sent[c.from + c.j];
  }

  /** The producer's side of the books does not read the consumer or what is delivered. */
  lemma SameProducer(s: State, s': State)
    requires Held(s) && Held(s') && ProducerOk(s)
    requires s'.producer == s.producer && s'.queue == s.queue && s'.write == s.write && s'.read == s.read
    requires s'.released == s.released && s'.sent == s.sent
    ensures ProducerOk(s')
  {
  }

  lemma FeedStep(s: State)
    requires Inv(s) && Enabled(s, FeedByte)
    requires s.consumer.r % QUEUE + s.consumer.j < QUEUE
    ensures Inv(Apply(s, FeedByte))
  {
    FedByte(s);
    var c := s.consumer;
    var s' := Apply(s, FeedByte);
    SameHeld(s, s');
    SameProducer(s, s');
    assert s'.delivered == s.sent[..c.from + c.j + 1];
  }

  lemma ChunkStep(s: State, step: Step)
    requires Inv(s) && Enabled(s, step) && (step.NextChunk? || step.EndChunk?)
    ensures Inv(Apply(s, step))
  {
    var c := s.consumer;
    if step.NextChunk? {
      WrapSub(c.to, c.from);
      WrapSlot(c.from);
    } else {
      WrapAdd(c.from, c.count);
    }
  }

  lemma OtherStep(s: State, step: Step)
    requires Inv(s) && Enabled(s, step)
    requires step.Receive? || step.LoadWrite? || step.PublishRead? || step.Fail?
    ensures Inv(Apply(s, step))
  {
    if step.PublishRead? {
      var c := s.consumer;
      if c.from < c.to {
        WrapSub(c.to, c.from);
      }
    }
  }

  lemma InvStep(s: State, step: Step)
    requires Inv(s) && Enabled(s, step)
    ensures step.FeedByte? ==> s.consumer.r % QUEUE + s.consumer.j < QUEUE
    ensures Inv(Apply(s, step))
  {
    StepSafe(s, step);
    match step
    case CopyByte => CopyStep(s);
    case PublishWrite => PublishStep(s);
    case FeedByte => FeedStep(s);
    case NextChunk => ChunkStep(s, step);
    case EndChunk => ChunkStep(s, step);
    case Send(_) => ProducerStep(s, step);
    case LoadRead => ProducerStep(s, step);
    case Check => ProducerStep(s, step);
    case StatsLoadRead => ProducerStep(s, step);
    case StatsLoadWrite => ProducerStep(s, step);
    case _ => OtherStep(s, step);
  }

  /** s' is reached from s by the steps, each enabled when it is taken. */
  ghost predicate Reaches(s: State, steps: seq<Step>, s': State)
    decreases |steps|
  {
    if steps == [] then s == s'
    else
      && Enabled(s, steps[0]) && |s.queue| == QUEUE
      && (steps[0].FeedByte? ==> s.consumer.r % QUEUE + s.consumer.j < QUEUE)
      && Reaches(Apply(s, steps[0]), steps[1..], s')
  }

  lemma {:induction false} InvRun(s: State, steps: seq<Step>, s': State)
    requires Inv(s) && Reaches(s, steps, s')
    ensures Inv(s')
    decreases |steps|
  {
    if steps != [] {
      InvStep(s, steps[0]);
      InvRun(Apply(s, steps[0]), steps[1..], s');
    }
  }

  /**
   In every state of every run: the bytes delivered are a prefix of the accepted
   packets laid end to end, at most a ring's worth is outstanding, and every byte
   accepted and not released is still in its slot.
   */
  lemma QueueIsFifo(steps: seq<Step>, s: State)
    requires Reaches(Start(), steps, s)
    ensures |s.queue| == QUEUE && s.sent == Flatten(s.packets)
    ensures s.delivered <= Flatten(s.packets)
    ensures |Flatten(s.packets)| - s.released <= QUEUE
    ensures forall k: nat :: s.released <= k < |s.sent| ==> s.queue[k % QUEUE] == Flatten(s.packets)[k]
  {
    assert Inv(Start());
    InvRun(Start(), steps, s);
  }

  /** A drain that ends without a fault has delivered everything that was accepted when it looked. */
  lemma DrainIsComplete(steps: seq<Step>, s: State)
    requires Reaches(Start(), steps, s) && Enabled(s, PublishRead)
    ensures |s.queue| == QUEUE && s.consumer.to <= |Flatten(s.packets)|
    ensures s.delivered == Flatten(s.packets)[..s.consumer.to]
    ensures Apply(s, PublishRead).released == s.consumer.to
  {
    assert Inv(Start());
    InvRun(Start(), steps, s);
    var c := s.consumer;
    if c.from < c.to {
      WrapSub(c.to, c.from);
    }
  }

  /** A packet is refused exactly when it does not fit in what the producer knows to be free. */
  lemma RefusedIffNoRoom(steps: seq<Step>, s: State)
    requires Reaches(Start(), steps, s) && Enabled(s, Check)
    ensures |s.queue| == QUEUE
    ensures var p := s.producer;
            var fits := |s.sent| - p.seen + |p.bytes| <= QUEUE;
            && Apply(s, Check).producer == (if fits then Copying(p.bytes, p.w, 0) else Ready)
            && (fits ==> |s.sent| - s.released + |p.bytes| <= QUEUE)
            && Apply(s, Check).packets == s.packets
  {
    assert Inv(Start());
    InvRun(Start(), steps, s);
    WrapSub(|s.sent|, s.producer.seen);
  }

  /**
   stats() on the producer's thread: whatever the consumer has released between the
   two loads, the count is what was queued at the first of them. It is never less
   than what is queued now nor more than the ring.
   */
  lemma QueuedCount(steps: seq<Step>, s: State)
    requires Reaches(Start(), steps, s) && Enabled(s, StatsLoadWrite)
    ensures |s.queue| == QUEUE
    ensures var count := Apply(s, StatsLoadWrite).queued;
            && s.producer.seen <= s.released <= |s.sent|
            && |s.sent| - s.released <= count == |s.sent| - s.producer.seen <= QUEUE
  {
    assert Inv(Start());
    InvRun(Start(), steps, s);
    WrapSub(|s.sent|, s.producer.seen);
  }

  /** The read count that stats() started from is the one of its first load: no step in between changes it. */
  lemma {:induction false} CountedFrom(s: State, steps: seq<Step>, s': State)
    requires Inv(s) && Enabled(s, StatsLoadRead) && Reaches(Apply(s, StatsLoadRead), steps, s')
    requires forall k :: 0 <= k < |steps| ==> !steps[k].StatsLoadWrite?
    ensures s'.producer == Counting(s.read, s.released) && s'.sent == s.sent
  {
    InvStep(s, StatsLoadRead);
    CountingKept(Apply(s, StatsLoadRead), steps, s');
  }

  lemma {:induction false} CountingKept(s: State, steps: seq<Step>, s': State)
    requires Inv(s) && s.producer.Counting? && Reaches(s, steps, s')
    requires forall k :: 0 <= k < |steps| ==> !steps[k].StatsLoadWrite?
    ensures s'.producer == s.producer && s'.sent == s.sent
    decreases |steps|
  {
    if steps != [] {
      assert !steps[0].StatsLoadWrite?;
      InvStep(s, steps[0]);
      CountingKept(Apply(s, steps[0]), steps[1..], s');
    }
  }

  // ---- A whole drain --------------------------------------------------------------

  /** A step of the consumer's, in the middle of a drain. */
  predicate InDrain(step: Step) {
    step.LoadWrite? || step.NextChunk? || step.FeedByte? || step.EndChunk? || step.PublishRead?
  }

  ghost predicate OnlyDrain(steps: seq<Step>) {
    forall k :: 0 <= k < |steps| ==> InDrain(steps[k])
  }

  /** The consumer will deliver, or has delivered, all that has been sent. */
  ghost predicate WillDeliverAll(s: State) {
    match s.consumer
    case Asleep => s.delivered == s.sent && s.released == |s.sent|
    case Started(r) => true
    case Draining(r, w, from, to) => to == |s.sent|
    case Feeding(r, w, from, to, count, j) => to == |s.sent|
  }

  lemma DrainStep(s: State, step: Step)
    requires Inv(s) && Enabled(s, step) && InDrain(step) && WillDeliverAll(s)
    ensures step.FeedByte? ==> s.consumer.r % QUEUE + s.consumer.j < QUEUE
    ensures WillDeliverAll(Apply(s, step)) && Apply(s, step).sent == s.sent && Apply(s, step).producer == s.producer
  {
    StepSafe(s, step);
    if step.PublishRead? {
      var c := s.consumer;
      if c.from < c.to {
        WrapSub(c.to, c.from);
      }
      assert s.sent[..|s.sent|] == s.sent;
    }
  }

  /** Any drain, from the wake-up to its end, with no packet published in between: all that was accepted is delivered. */
  lemma {:induction false} DrainDeliversAll(s: State, drain: seq<Step>, s': State)
    requires Inv(s) && WillDeliverAll(s) && !s.failed && Reaches(s, drain, s')
    requires OnlyDrain(drain)
    ensures Inv(s') && s'.sent == s.sent && s'.producer == s.producer && WillDeliverAll(s')
    ensures s'.consumer.Asleep? ==> s'.delivered == Flatten(s'.packets) && s'.released == |s'.sent|
    decreases |drain|
  {
    if drain != [] {
      assert InDrain(drain[0]);
      DrainStep(s, drain[0]);
      InvStep(s, drain[0]);
      DrainDeliversAll(Apply(s, drain[0]), drain[1..], s');
    }
  }

  /** How far a drain is from its end. */
  ghost function ToDo(s: State): nat
    requires Inv(s)
  {
    match s.consumer
    case Asleep => 0
    case Started(r) => 3 * |s.sent| + 3
    case Draining(r, w, from, to) => 3 * (to - from) + 1
    case Feeding(r, w, from, to, count, j) => 3 * (to - from - count) + 2 + (count - j)
  }

  function NextOfDrain(s: State): Step
    requires !s.consumer.Asleep?
  {
    match s.consumer
    case Started(r) => LoadWrite
    case Draining(r, w, from, to) => if r == w then PublishRead else NextChunk
    case Feeding(r, w, from, to, count, j) => if j < count then FeedByte else EndChunk
  }

  lemma DrainFalls(s: State)
    requires Inv(s) && !s.consumer.Asleep?
    ensures Enabled(s, NextOfDrain(s)) && InDrain(NextOfDrain(s))
    ensures NextOfDrain(s).FeedByte? ==> s.consumer.r % QUEUE + s.consumer.j < QUEUE
    ensures Inv(Apply(s, NextOfDrain(s))) && ToDo(Apply(s, NextOfDrain(s))) < ToDo(s)
  {
    InvStep(s, NextOfDrain(s));
    var c := s.consumer;
    if c.Draining? && c.r != c.w {
      WrapSub(c.to, c.from);
    }
  }

  /** And it ends: from anywhere in a drain there is a run to its end. */
  lemma {:induction false} DrainEnds(s: State) returns (drain: seq<Step>, s': State)
    requires Inv(s) && !s.failed
    ensures Reaches(s, drain, s') && s'.consumer.Asleep? && OnlyDrain(drain)
    decreases ToDo(s)
  {
    if s.consumer.Asleep? {
      drain, s' := [], s;
    } else {
      DrainFalls(s);
      var step, rest := NextOfDrain(s), [];
      rest, s' := DrainEnds(Apply(s, step));
      drain := [step] + rest;
      assert drain[1..] == rest;
    }
  }

  /** From every state of every run the consumer can go on to deliver every byte accepted so far. */
  lemma AllIsDelivered(steps: seq<Step>, s: State) returns (more: seq<Step>, s': State)
    requires Reaches(Start(), steps, s) && !s.failed
    ensures Reaches(s, more, s') && s'.packets == s.packets && s'.delivered == Flatten(s.packets)
  {
    assert Inv(Start());
    InvRun(Start(), steps, s);
    var a, m := DrainEnds(s);
    DrainKeeps(s, a, m);
    InvRun(s, a, m);
    InvStep(m, Receive);
    var q := Apply(m, Receive);
    var b;
    b, s' := DrainEnds(q);
    DrainDeliversAll(q, b, s');
    DrainKeeps(q, b, s');
    assert ([Receive] + b)[1..] == b;
    ReachesOn(s, a, m, [Receive] + b, s');
    more := a + ([Receive] + b);
  }

  /** A drain accepts nothing and breaks nothing. */
  lemma {:induction false} DrainKeeps(s: State, drain: seq<Step>, s': State)
    requires Reaches(s, drain, s') && OnlyDrain(drain)
    ensures s'.packets == s.packets && s'.failed == s.failed
    decreases |drain|
  {
    if drain != [] {
      assert InDrain(drain[0]);
      DrainKeeps(Apply(s, drain[0]), drain[1..], s');
    }
  }

  lemma {:induction false} ReachesOn(s: State, a: seq<Step>, m: State, b: seq<Step>, s': State)
    requires Reaches(s, a, m) && Reaches(m, b, s')
    ensures Reaches(s, a + b, s')
    decreases |a|
  {
    if a == [] {
      assert a + b == b;
    } else {
      assert (a + b)[0] == a[0] && (a + b)[1..] == a[1..] + b;
      ReachesOn(Apply(s, a[0]), a[1..], m, b, s');
    }
  }
}
