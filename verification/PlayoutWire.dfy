/** What the peer reads: alignment of the playout bytes over every run. */
module PlayoutWire {
  import opened Bytes
  import opened Pcm
  import opened PipeBuffers
  import opened Device

  /** Bytes dropped before wire byte `p` of the connection was written. */
  function DroppedBefore(drops: seq<Drop>, p: nat): nat
  {
    if drops == [] then 0
    else
      var last := drops[|drops| - 1];
      DroppedBefore(drops[..|drops| - 1], p) + if last.at <= p then last.amount else 0
  }

  /** Bytes dropped so far. */
  function Dropped(drops: seq<Drop>): nat
  {
    if drops == [] then 0
    else Dropped(drops[..|drops| - 1]) + drops[|drops| - 1].amount
  }

  ghost predicate WholeSampleDrops(drops: seq<Drop>)
  {
    forall d :: 0 <= d < |drops| ==> drops[d].amount > 0 && drops[d].amount % 2 == 0
  }

  /** Wire byte `p` is byte `p + D` of the queued PCM stream, `D` being what was dropped before it. */
  ghost predicate WireIsQueuedStream(p: Playout)
  {
    forall q :: 0 <= q < |p.wire| ==>
      && q + DroppedBefore(p.drops, q) < 2 * |p.queued|
      && p.wire[q] == Encode(p.queued)[q + DroppedBefore(p.drops, q)]
  }

  /** The buffer is the end of the queued stream; what precedes it was written or dropped. */
  ghost predicate BufferIsQueuedTail(p: Playout)
  {
    && |p.wire| + Dropped(p.drops) + |p.buf| == 2 * |p.queued|
    && p.buf == Encode(p.queued)[|p.wire| + Dropped(p.drops)..]
  }

  ghost predicate Aligned(p: Playout)
  {
    && WholeSampleDrops(p.drops)
    && (forall d :: 0 <= d < |p.drops| ==> p.drops[d].at <= |p.wire|)
    && |p.buf| <= MAX_BUFFERED + 1
    && BufferIsQueuedTail(p)
    && WireIsQueuedStream(p)
  }

  // ----- sums of drops -----

  lemma {:induction false} DroppedBeforeBounds(drops: seq<Drop>, p: nat, q: nat)
    requires WholeSampleDrops(drops) && p <= q
    ensures DroppedBefore(drops, p) % 2 == 0
    ensures DroppedBefore(drops, p) <= DroppedBefore(drops, q) <= Dropped(drops)
    ensures (DroppedBefore(drops, p) == DroppedBefore(drops, q)
             <==> forall d :: 0 <= d < |drops| ==> !(p < drops[d].at <= q))
  {
    if drops != [] {
      var rest := drops[..|drops| - 1];
      DroppedBeforeBounds(rest, p, q);
      assert forall d :: 0 <= d < |rest| ==> rest[d] == drops[d];
    }
  }

  /** Once every drop lies at or before `p`, all of them count. */
  lemma {:induction false} DroppedBeforeAll(drops: seq<Drop>, p: nat)
    requires forall d :: 0 <= d < |drops| ==> drops[d].at <= p
    ensures DroppedBefore(drops, p) == Dropped(drops)
  {
    if drops != [] {
      DroppedBeforeAll(drops[..|drops| - 1], p);
    }
  }

  // ----- every step keeps the alignment -----

  lemma QueueKeeps(p: Playout, pulled: seq<Sample>)
    requires Aligned(p)
    ensures Aligned(Queue(p, pulled))
  {
    QueueKeepsTail(p, pulled);
    QueueKeepsWire(p, pulled);
    hide BufferIsQueuedTail, WireIsQueuedStream, Encode, Cap, Overflow;
    var buf := p.buf + Encode(pulled);
    CapShape(buf, MAX_BUFFERED);
    OverflowWithin(|buf|);
  }

  lemma QueueKeepsTail(p: Playout, pulled: seq<Sample>)
    requires BufferIsQueuedTail(p)
    ensures BufferIsQueuedTail(Queue(p, pulled))
  {
    hide Encode, Dropped, Overflow;
    EncodeLength(p.queued);
    EncodeLength(p.queued + pulled);
    var k := |p.wire| + Dropped(p.drops);
    var grown := p.buf + Encode(pulled);
    var amount := Overflow(|grown|, MAX_BUFFERED);
    EncodeConcat(p.queued, pulled);
    QueueDrops(p, pulled);
    OverflowWithin(|grown|);
    TailGrows(Encode(p.queued), p.buf, k, Encode(pulled), amount);
  }

  lemma EncodeLength(samples: seq<Sample>)
    ensures |Encode(samples)| == 2 * |samples|
  {
  }

  lemma QueueDrops(p: Playout, pulled: seq<Sample>)
    ensures Dropped(Queue(p, pulled).drops) == Dropped(p.drops) + Overflow(|p.buf + Encode(pulled)|, MAX_BUFFERED)
  {
    hide Encode, Cap, Overflow;
    var more := Queue(p, pulled).drops;
    assert more == p.drops || more[..|more| - 1] == p.drops;
  }

  lemma OverflowWithin(n: nat)
    ensures Overflow(n, MAX_BUFFERED) <= n && Overflow(n, MAX_BUFFERED) % 2 == 0
  {
  }

  lemma TailGrows(stream: seq<Byte>, buf: seq<Byte>, k: nat, more: seq<Byte>, amount: nat)
    requires k <= |stream| && buf == stream[k..] && amount <= |buf + more|
    ensures k + amount <= |stream + more| && (buf + more)[amount..] == (stream + more)[k + amount..]
  {
    assert buf + more == (stream + more)[k..];
  }

  /** Queuing, with or without a drop, moves no byte that is already on the wire. */
  lemma QueueKeepsWire(p: Playout, pulled: seq<Sample>)
    requires Aligned(p)
    ensures WireIsQueuedStream(Queue(p, pulled))
  {
    var p' := Queue(p, pulled);
    EncodeConcat(p.queued, pulled);
    forall q | 0 <= q < |p.wire|
      ensures DroppedBefore(p'.drops, q) == DroppedBefore(p.drops, q)
    {
      assert p'.drops == p.drops || p'.drops[..|p'.drops| - 1] == p.drops;
    }
  }

  lemma SendKeeps(p: Playout, n: nat)
    requires Aligned(p) && n <= |p.buf|
    ensures Aligned(Send(p, n))
  {
    forall q | |p.wire| <= q < |p.wire| + n
      ensures DroppedBefore(p.drops, q) == Dropped(p.drops)
    {
      DroppedBeforeAll(p.drops, q);
    }
  }

  lemma TickKeeps(s: State, i: Input)
    requires s.capture.streams != [] && Aligned(s.playout)
    ensures Aligned(Tick(s, i).playout)
  {
    hide Aligned, Queue, Send, Receive, Take, WriteFails;
    var s1 := Accept(s, i);
    NewPeerAligned();
    var s2 := Pull(s1, i);
    QueueKeeps(s1.playout, i.pulled);
    if s2.connected && s2.playout.buf != [] {
      SendKeeps(s2.playout, Written(|s2.playout.buf|, i.writes));
    }
  }

  lemma NewPeerAligned()
    ensures Aligned(Playout([], [], [], []))
  {
  }

  lemma {:induction false} RunKeeps(inputs: seq<Input>)
    ensures Aligned(Run(inputs).playout)
  {
    if inputs != [] {
      RunKeeps(inputs[..|inputs| - 1]);
      TickKeeps(Run(inputs[..|inputs| - 1]), inputs[|inputs| - 1]);
    }
  }

  // ----- the results -----

  /** The queued sample that wire byte `q` belongs to. */
  function SampleOf(p: Playout, q: nat): nat
  {
    (q + DroppedBefore(p.drops, q)) / 2
  }

  /**
   * Wire alignment over every run, whatever the socket and WebRTC do. Even wire offsets carry
   * low bytes and odd ones high bytes of queued samples, in queue order; every queued byte was
   * written, dropped or is still buffered; at most `MAX_BUFFERED + 1` bytes wait.
   */
  lemma PlayoutAlignment(inputs: seq<Input>)
    ensures var p := Run(inputs).playout;
            && (forall q :: 0 <= q < |p.wire| ==>
                  && SampleOf(p, q) < |p.queued|
                  && p.wire[q] == if q % 2 == 0 then Lo(p.queued[SampleOf(p, q)]) else Hi(p.queued[SampleOf(p, q)]))
            && (forall q, r :: 0 <= q <= r < |p.wire| ==>
                  && DroppedBefore(p.drops, q) % 2 == 0
                  && DroppedBefore(p.drops, q) <= DroppedBefore(p.drops, r))
            && |p.wire| + Dropped(p.drops) + |p.buf| == 2 * |p.queued|
            && Dropped(p.drops) % 2 == 0
            && |p.buf| <= MAX_BUFFERED + 1
  {
    hide *;
    var p := Run(inputs).playout;
    RunKeeps(inputs);
    AlignedParts(p);
    forall q, r | 0 <= q <= r < |p.wire|
      ensures DroppedBefore(p.drops, q) % 2 == 0
      ensures DroppedBefore(p.drops, q) <= DroppedBefore(p.drops, r)
    {
      DroppedBeforeBounds(p.drops, q, r);
    }
    forall q | 0 <= q < |p.wire|
      ensures SampleOf(p, q) < |p.queued|
      ensures p.wire[q] == if q % 2 == 0 then Lo(p.queued[SampleOf(p, q)]) else Hi(p.queued[SampleOf(p, q)])
    {
      WireByte(p, q);
    }
  }

  lemma AlignedParts(p: Playout)
    requires Aligned(p)
    ensures WholeSampleDrops(p.drops) && |p.buf| <= MAX_BUFFERED + 1
    ensures |p.wire| + Dropped(p.drops) + |p.buf| == 2 * |p.queued| && Dropped(p.drops) % 2 == 0
  {
    DroppedBeforeAll(p.drops, |p.wire|);
    DroppedBeforeBounds(p.drops, |p.wire|, |p.wire|);
  }

  /** Wire byte `q` is the low or the high byte of its sample, by the parity of `q`. */
  lemma WireByte(p: Playout, q: nat)
    requires Aligned(p) && q < |p.wire|
    ensures SampleOf(p, q) < |p.queued|
    ensures p.wire[q] == if q % 2 == 0 then Lo(p.queued[SampleOf(p, q)]) else Hi(p.queued[SampleOf(p, q)])
  {
    hide BufferIsQueuedTail;
    DroppedBeforeBounds(p.drops, q, q);
    assert p.wire[q] == ByteAt(p.queued, q + DroppedBefore(p.drops, q));
  }

  /**
   * The two bytes the peer reads as one sample come from one queued sample exactly when no
   * cap drop happened between them, that is, after an odd number of bytes had been written.
   */
  lemma PairIntactIffNoOddDrop(inputs: seq<Input>, k: nat)
    requires 2 * k + 1 < |Run(inputs).playout.wire|
    ensures var p := Run(inputs).playout;
            SampleOf(p, 2 * k) == SampleOf(p, 2 * k + 1)
            <==> forall d :: 0 <= d < |p.drops| ==> p.drops[d].at != 2 * k + 1
  {
    RunKeeps(inputs);
    PairIntact(Run(inputs).playout, k);
  }

  lemma PairIntact(p: Playout, k: nat)
    requires WholeSampleDrops(p.drops)
    ensures SampleOf(p, 2 * k) == SampleOf(p, 2 * k + 1)
            <==> forall d :: 0 <= d < |p.drops| ==> p.drops[d].at != 2 * k + 1
  {
    DroppedBeforeBounds(p.drops, 2 * k, 2 * k);
    DroppedBeforeBounds(p.drops, 2 * k, 2 * k + 1);
    DroppedBeforeBounds(p.drops, 2 * k + 1, 2 * k + 1);
    assert (forall d :: 0 <= d < |p.drops| ==> p.drops[d].at != 2 * k + 1)
      <==> (forall d :: 0 <= d < |p.drops| ==> !(2 * k < p.drops[d].at <= 2 * k + 1));
    assert SampleOf(p, 2 * k) == k + DroppedBefore(p.drops, 2 * k) / 2;
    assert SampleOf(p, 2 * k + 1) == k + DroppedBefore(p.drops, 2 * k + 1) / 2;
  }

  /** An intact pair decodes to the queued sample. */
  lemma IntactPairDecodes(inputs: seq<Input>, k: nat)
    requires 2 * k + 1 < |Run(inputs).playout.wire|
    requires var p := Run(inputs).playout; forall d :: 0 <= d < |p.drops| ==> p.drops[d].at != 2 * k + 1
    ensures var p := Run(inputs).playout;
            && SampleOf(p, 2 * k) < |p.queued|
            && FromLe(p.wire[2 * k], p.wire[2 * k + 1]) == p.queued[SampleOf(p, 2 * k)]
  {
    hide *;
    var p := Run(inputs).playout;
    RunKeeps(inputs);
    PairIntactIffNoOddDrop(inputs, k);
    WireByte(p, 2 * k);
    WireByte(p, 2 * k + 1);
    LittleEndianRoundTrip(p.queued[SampleOf(p, 2 * k)], 0, 0);
  }

  // ----- a run that tears a sample -----

  /** The first window of the run below: samples 1, then one sample 256. */
  const FIRST_WINDOW: seq<Sample> := seq(479, _ => 1) + [256]

  /** A peer connects and takes a single byte. */
  const ONE_BYTE := Input(NewPeer, true, FIRST_WINDOW, [Accepted(1)], [], false, false)
  /** It stalls while silence keeps coming. */
  const STALLED := Input(AcceptWouldBlock, true, Silence(480), [], [], false, false)
  /** It takes one more byte. */
  const ANOTHER_BYTE := Input(AcceptWouldBlock, false, [], [Accepted(1)], [], false, false)

  function Stall(k: nat): seq<Input>
  {
    [ONE_BYTE] + seq(k, _ => STALLED)
  }

  /** One stalled iteration: a window is queued, nothing is written, the cap may drop. */
  lemma StalledTick(s: State)
    requires s.capture.streams != [] && s.connected && s.playout.buf != []
    ensures Tick(s, STALLED) == s.(playout := Queue(s.playout, Silence(480)),
                                   capture := Receive(s.capture, []))
  {
    assert Room([]) == 0 && Received([]) == [] && Ending([]) == Drained;
    var p := Queue(s.playout, Silence(480));
    assert Send(p, 0) == p;
  }

  /** The playout side after `k` stalled iterations; the eighth one drops 958 bytes. */
  ghost predicate StalledFor(p: Playout, k: nat)
  {
    && |p.wire| == 1
    && |p.buf| == (if k <= 7 then 959 + 960 * k else 7681)
    && p.drops == (if k <= 7 then [] else [Drop(1, 958)])
    && |p.queued| >= 480 && p.queued[0] == 1 && p.queued[479] == 256 && 257 !in p.queued
  }

  lemma StallGoesOn(p: Playout, k: nat)
    requires StalledFor(p, k) && k < 8
    ensures StalledFor(Queue(p, Silence(480)), k + 1)
  {
    var grown := p.buf + Encode(Silence(480));
    assert |grown| == 959 + 960 * (k + 1);
    assert Overflow(|grown|, MAX_BUFFERED) == if k < 7 then 0 else 958;
  }

  lemma OneByteTaken()
    ensures Run([ONE_BYTE]).connected && StalledFor(Run([ONE_BYTE]).playout, 0)
  {
    RunOneMore([], ONE_BYTE);
    assert [] + [ONE_BYTE] == [ONE_BYTE];
    assert Room([Accepted(1)]) == 1 + Room([Accepted(1)][1..]);
    var s := Pull(Accept(INITIAL, ONE_BYTE), ONE_BYTE);
    assert s.playout.queued == FIRST_WINDOW && |s.playout.buf| == 960;
    assert FIRST_WINDOW[0] == 1 && FIRST_WINDOW[479] == 256;
  }

  lemma {:induction false} AfterStall(k: nat)
    requires k <= 8
    ensures Run(Stall(k)).connected && StalledFor(Run(Stall(k)).playout, k)
  {
    if k == 0 {
      OneByteTaken();
      assert Stall(0) == [ONE_BYTE];
    } else {
      AfterStall(k - 1);
      assert Stall(k) == Stall(k - 1) + [STALLED];
      RunOneMore(Stall(k - 1), STALLED);
      StallStep(Run(Stall(k - 1)), k - 1);
    }
  }

  lemma StallStep(s: State, k: nat)
    requires s.capture.streams != [] && s.connected && StalledFor(s.playout, k) && k < 8
    ensures var r := Tick(s, STALLED); r.connected && StalledFor(r.playout, k + 1)
  {
    StalledTick(s);
    StallGoesOn(s.playout, k);
  }

  /** Taking one more byte sends the first byte of the buffer and changes nothing else. */
  lemma AnotherByteTaken(s: State)
    requires s.capture.streams != [] && s.connected && s.playout.buf != []
    ensures Tick(s, ANOTHER_BYTE).playout == Send(s.playout, 1)
  {
    assert Room([Accepted(1)]) == 1 + Room([Accepted(1)][1..]);
  }

  /**
   * Alignment is kept, but a sample can be torn: here the peer reads bytes 1 and 1, the
   * sample 257, which was never queued.
   */
  lemma TornSample()
    ensures var p := Run(Stall(8) + [ANOTHER_BYTE]).playout;
            && |p.wire| == 2
            && FromLe(p.wire[0], p.wire[1]) == 257 && 257 !in p.queued
            && SampleOf(p, 0) == 0 && SampleOf(p, 1) == 479
  {
    var inputs := Stall(8) + [ANOTHER_BYTE];
    AfterStall(8);
    RunOneMore(Stall(8), ANOTHER_BYTE);
    AnotherByteTaken(Run(Stall(8)));
    var p := Run(inputs).playout;
    RunKeeps(inputs);
    TornWire(p);
  }

  lemma TornWire(p: Playout)
    requires Aligned(p) && |p.wire| == 2 && p.drops == [Drop(1, 958)]
    requires |p.queued| >= 480 && p.queued[0] == 1 && p.queued[479] == 256
    ensures FromLe(p.wire[0], p.wire[1]) == 257 && SampleOf(p, 0) == 0 && SampleOf(p, 1) == 479
  {
    assert p.drops[..0] == [];
    assert DroppedBefore(p.drops, 0) == 0 && DroppedBefore(p.drops, 1) == 958;
    assert p.wire[0] == ByteAt(p.queued, 0) && p.wire[1] == ByteAt(p.queued, 959);
  }
}
