/** The byte buffers of the pipe audio device and the four procedures that change them. */
module PipeBuffers {
  import opened Bytes
  import opened Pcm

  /** Samples in one 10 ms window at 48 kHz. */
  const WEBRTC_WINDOW: nat := 480
  /** Bytes in one window. */
  const BYTES_PER_WINDOW: nat := 960
  /** Cap on buffered audio each way: eight windows. */
  const MAX_BUFFERED: nat := 7680

  /** What one non-blocking write may answer: room for some bytes, or an error. */
  datatype WriteResult = Accepted(room: nat) | WriteWouldBlock | WriteError

  /** The read buffer of the device holds 4096 bytes. */
  type Chunk = c: seq<Byte> | |c| <= 4096

  /** What one non-blocking read may answer; an empty chunk means the peer has closed. */
  datatype ReadResult = ReadOk(chunk: Chunk) | ReadWouldBlock | ReadError

  datatype FillResult = Drained | UnexpectedEof | ReadFailed

  function Min(a: nat, b: nat): nat { if a <= b then a else b }

  // ----- cap_buffer -----

  /** Bytes dropped from a buffer of length `n`: the overflow rounded down to whole samples. */
  function Overflow(n: nat, max: nat): nat
  {
    if n > max then (n - max) - (n - max) % 2 else 0
  }

  /** The newest bytes of `b`, after dropping whole samples from the front. */
  function Cap(b: seq<Byte>, max: nat): seq<Byte>
  {
    b[Overflow(|b|, max)..]
  }

  /**
   * The cap keeps a suffix and the parity of the length, and bounds the length by `max + 1`.
   * The source comment promises at most `max`; that holds exactly when the overflow is even.
   */
  lemma CapShape(b: seq<Byte>, max: nat)
    ensures |b| <= max ==> Cap(b, max) == b
    ensures |b| > max ==> max <= |Cap(b, max)| <= max + 1
    ensures exists d: nat :: d <= |b| && d % 2 == 0 && Cap(b, max) == b[d..]
    ensures |Cap(b, max)| <= max <==> (|b| <= max || (|b| - max) % 2 == 0)
  {
    var d := Overflow(|b|, max);
    assert d <= |b| && d % 2 == 0 && Cap(b, max) == b[d..];
  }

  /** One odd byte over the limit stays: the buffer can hold `max + 1` bytes. */
  lemma CapCanExceedMax(b: seq<Byte>)
    requires |b| == MAX_BUFFERED + 1
    ensures Cap(b, MAX_BUFFERED) == b && |Cap(b, MAX_BUFFERED)| > MAX_BUFFERED
  {
    assert Overflow(|b|, MAX_BUFFERED) == 0;
  }

  /** Capping early changes nothing: only the whole input matters. */
  lemma CapAbsorbs(x: seq<Byte>, c: seq<Byte>, max: nat)
    ensures Cap(Cap(x, max) + c, max) == Cap(x + c, max)
  {
    var o := Overflow(|x|, max);
    OverflowAdds(|x|, |c|, max);
    assert x[o..] + c == (x + c)[o..];
  }

  lemma OverflowAdds(n: nat, m: nat, max: nat)
    ensures Overflow(n, max) <= n
    ensures Overflow(n, max) + Overflow(n - Overflow(n, max) + m, max) == Overflow(n + m, max)
  {
  }

  // ----- the buffers -----

  /** A growable byte buffer, changed in place. */
  class ByteVec {
    var bytes: seq<Byte>

    constructor ()
      ensures bytes == []
    {
      bytes := [];
    }

    method Clear()
      modifies this
      ensures bytes == []
    {
      bytes := [];
    }

    method ExtendFromSlice(more: seq<Byte>)
      modifies this
      ensures bytes == old(bytes) + more
    {
      bytes := bytes + more;
    }

    method DrainFront(n: nat)
      requires n <= |bytes|
      modifies this
      ensures bytes == old(bytes)[n..]
    {
      bytes := bytes[n..];
    }
  }

  /** Drops whole samples from the front until at most `max` bytes, or `max + 1`, are left. */
  method CapBuffer(buf: ByteVec, max: nat)
    modifies buf
    ensures buf.bytes == Cap(old(buf.bytes), max)
  {
    if |buf.bytes| > max {
      var overflow := |buf.bytes| - max;
      overflow := overflow - overflow % 2;
      buf.DrainFront(overflow);
    }
  }

  /** Queues pulled samples for the peer, one after the other. */
  method QueueSamples(buf: ByteVec, play: seq<Sample>)
    modifies buf
    ensures buf.bytes == old(buf.bytes) + Encode(play)
  {
    for i := 0 to |play|
      invariant buf.bytes == old(buf.bytes) + Encode(play[..i])
    {
      EncodeConcat(play[..i], [play[i]]);
      assert play[..i + 1] == play[..i] + [play[i]];
      assert Encode([play[i]]) == [Lo(play[i]), Hi(play[i])];
      buf.ExtendFromSlice([Lo(play[i]), Hi(play[i])]);
    }
    assert play[..|play|] == play;
  }

  // ----- drain_playout -----

  /** Room the socket offers before its first refusal, if the script of its answers is `writes`. */
  function Room(writes: seq<WriteResult>): nat
  {
    if writes == [] || !writes[0].Accepted? || writes[0].room == 0 then 0
    else writes[0].room + Room(writes[1..])
  }

  /** Whether the first refusal is an error other than "would block". */
  predicate RefusesWithError(writes: seq<WriteResult>)
  {
    writes != [] &&
    if writes[0].Accepted? && writes[0].room > 0 then RefusesWithError(writes[1..])
    else writes[0].WriteError?
  }

  /** Bytes of an `n`-byte buffer that reach the wire. */
  function Written(n: nat, writes: seq<WriteResult>): nat
  {
    Min(n, Room(writes))
  }

  /** The error is met only if bytes are left once the room is used up. */
  predicate WriteFails(n: nat, writes: seq<WriteResult>)
  {
    Room(writes) < n && RefusesWithError(writes)
  }

  /** Answers that each take at least one byte. */
  predicate AllTaken(writes: seq<WriteResult>)
  {
    forall j :: 0 <= j < |writes| ==> writes[j].Accepted? && writes[j].room > 0
  }

  function Rooms(writes: seq<WriteResult>): nat
    requires AllTaken(writes)
  {
    if writes == [] then 0 else Rooms(writes[..|writes| - 1]) + writes[|writes| - 1].room
  }

  /** Only the answers up to the first refusal matter; a script that runs out stands for "would block". */
  lemma {:induction false} UpToFirstRefusal(taken: seq<WriteResult>, rest: seq<WriteResult>)
    requires AllTaken(taken) && (rest == [] || !AllTaken(rest[..1]))
    ensures Room(taken + rest) == Rooms(taken)
    ensures RefusesWithError(taken + rest) <==> rest != [] && rest[0] == WriteError
  {
    hide Rooms;
    RoomsFront(taken);
    if taken == [] {
      assert taken + rest == rest;
    } else {
      assert (taken + rest)[1..] == taken[1..] + rest;
      UpToFirstRefusal(taken[1..], rest);
    }
  }

  lemma {:induction false} RoomsFront(taken: seq<WriteResult>)
    requires AllTaken(taken)
    ensures Rooms(taken) == if taken == [] then 0 else taken[0].room + Rooms(taken[1..])
  {
    if |taken| > 1 {
      var init := taken[..|taken| - 1];
      RoomsFront(init);
      assert taken[1..][..|taken| - 2] == init[1..];
    }
  }

  /**
   * Writes as much as the socket takes. Whatever the result, the bytes sent and the
   * bytes kept are together exactly the old buffer.
   */
  method DrainPlayout(writes: seq<WriteResult>, buf: ByteVec) returns (ok: bool, sent: seq<Byte>)
    modifies buf
    ensures sent + buf.bytes == old(buf.bytes)
    ensures |sent| == Written(|old(buf.bytes)|, writes)
    ensures ok == !WriteFails(|old(buf.bytes)|, writes)
  {
    var written, calls := 0, 0;
    ghost var n := |buf.bytes|;
    while written < |buf.bytes|
      invariant buf.bytes == old(buf.bytes)
      invariant written <= n && calls <= |writes|
      invariant Written(n, writes) == written + Written(n - written, writes[calls..])
      invariant WriteFails(n, writes) == WriteFails(n - written, writes[calls..])
      decreases |writes| - calls
    {
      if calls == |writes| { break; }
      match writes[calls]
      case Accepted(room) =>
        var accepted := Min(room, |buf.bytes| - written);
        if accepted == 0 { break; }
        written, calls := written + accepted, calls + 1;
      case WriteWouldBlock => break;
      case WriteError =>
        sent := buf.bytes[..written];
        buf.DrainFront(written);
        return false, sent;
    }
    sent := buf.bytes[..written];
    buf.DrainFront(written);
    ok := true;
  }

  // ----- fill_capture -----

  /** All bytes the reads yield before the first answer that ends the poll. */
  function Received(answers: seq<ReadResult>): seq<Byte>
  {
    if answers == [] || !answers[0].ReadOk? || answers[0].chunk == [] then []
    else answers[0].chunk + Received(answers[1..])
  }

  /** How the poll ends; a script that runs out stands for a socket with nothing more to read. */
  function Ending(answers: seq<ReadResult>): FillResult
  {
    if answers == [] || answers[0].ReadWouldBlock? then Drained
    else if answers[0].ReadError? then ReadFailed
    else if answers[0].chunk == [] then UnexpectedEof
    else Ending(answers[1..])
  }

  /** Reads that each bring at least one byte. */
  predicate AllBring(answers: seq<ReadResult>)
  {
    forall j :: 0 <= j < |answers| ==> answers[j].ReadOk? && answers[j].chunk != []
  }

  function Chunks(answers: seq<ReadResult>): seq<Byte>
    requires AllBring(answers)
  {
    if answers == [] then [] else Chunks(answers[..|answers| - 1]) + answers[|answers| - 1].chunk
  }

  /** Only the answers up to the first that brings nothing matter; it decides how the poll ends. */
  lemma {:induction false} UpToFirstEnd(brought: seq<ReadResult>, rest: seq<ReadResult>)
    requires AllBring(brought) && (rest == [] || !AllBring(rest[..1]))
    ensures Received(brought + rest) == Chunks(brought)
    ensures Ending(brought + rest) == if rest == [] then Drained
                                      else match rest[0]
                                           case ReadWouldBlock => Drained
                                           case ReadError => ReadFailed
                                           case ReadOk(_) => UnexpectedEof
  {
    hide Chunks;
    ChunksFront(brought);
    if brought == [] {
      assert brought + rest == rest;
    } else {
      assert (brought + rest)[1..] == brought[1..] + rest;
      UpToFirstEnd(brought[1..], rest);
    }
  }

  lemma {:induction false} ChunksFront(brought: seq<ReadResult>)
    requires AllBring(brought)
    ensures Chunks(brought) == if brought == [] then [] else brought[0].chunk + Chunks(brought[1..])
  {
    if |brought| == 1 {
      assert brought[..0] == [] && brought[1..] == [];
    } else if |brought| > 1 {
      var init, last := brought[..|brought| - 1], brought[|brought| - 1].chunk;
      ChunksFront(init);
      assert brought[1..][..|brought| - 2] == init[1..];
      Reassociate(brought[0].chunk, Chunks(init[1..]), last);
    }
  }

  lemma Reassociate(a: seq<Byte>, b: seq<Byte>, c: seq<Byte>)
    ensures (a + b) + c == a + (b + c)
  {
  }

  /** The capture buffer after a poll that received `got`. */
  function AfterFill(buf: seq<Byte>, got: seq<Byte>, max: nat): seq<Byte>
  {
    if got == [] then buf else Cap(buf + got, max)
  }

  /**
   * Reads until the socket has nothing more. The buffer afterwards depends only on all the
   * bytes received, not on how the socket split them.
   */
  method FillCapture(answers: seq<ReadResult>, buf: ByteVec, max: nat) returns (r: FillResult)
    modifies buf
    ensures buf.bytes == AfterFill(old(buf.bytes), Received(answers), max)
    ensures r == Ending(answers)
  {
    hide AfterFill, Cap, Received, Ending;
    var calls := 0;
    ghost var got: seq<Byte> := [];
    NothingReceived(answers, buf.bytes, max);
    while true
      invariant calls <= |answers|
      invariant Received(answers) == got + Received(answers[calls..])
      invariant Ending(answers) == Ending(answers[calls..])
      invariant buf.bytes == AfterFill(old(buf.bytes), got, max)
      decreases |answers| - calls
    {
      if calls == |answers| { return Drained; }
      NextAnswer(answers, calls, got);
      match answers[calls]
      case ReadOk(chunk) =>
        if |chunk| == 0 { return UnexpectedEof; }
        FillAbsorbs(old(buf.bytes), got, chunk, max);
        got := got + chunk;
        buf.ExtendFromSlice(chunk);
        CapBuffer(buf, max);
        calls := calls + 1;
      case ReadWouldBlock => return Drained;
      case ReadError => return ReadFailed;
    }
  }

  lemma NothingReceived(answers: seq<ReadResult>, buf: seq<Byte>, max: nat)
    ensures forall got: seq<Byte> :: got + Received(answers[|answers|..]) == got
    ensures Ending(answers[|answers|..]) == Drained
    ensures answers[0..] == answers && [] + Received(answers) == Received(answers)
    ensures AfterFill(buf, [], max) == buf
  {
  }

  lemma NextAnswer(answers: seq<ReadResult>, calls: nat, got: seq<Byte>)
    requires calls < |answers|
    ensures var more := answers[calls].ReadOk? && answers[calls].chunk != [];
            && (more ==> got + Received(answers[calls..])
                         == got + answers[calls].chunk + Received(answers[calls + 1..])
                         && Ending(answers[calls..]) == Ending(answers[calls + 1..]))
            && (!more ==> got + Received(answers[calls..]) == got)
            && (!more ==> Ending(answers[calls..]) == if answers[calls].ReadOk? then UnexpectedEof
                                                     else if answers[calls].ReadError? then ReadFailed else Drained)
  {
    assert answers[calls..][0] == answers[calls] && answers[calls..][1..] == answers[calls + 1..];
  }

  lemma FillAbsorbs(buf: seq<Byte>, got: seq<Byte>, chunk: seq<Byte>, max: nat)
    requires chunk != []
    ensures Cap(AfterFill(buf, got, max) + chunk, max) == AfterFill(buf, got + chunk, max)
  {
    if got == [] {
      assert got + chunk == chunk;
    } else {
      CapAbsorbs(buf + got, chunk, max);
      assert buf + got + chunk == buf + (got + chunk);
    }
  }

  /**
   * Chunk independence: two polls that receive the same bytes and end the same way leave the
   * same buffer, and that buffer is the cap of everything exactly when something arrived or
   * the buffer was within the cap's own bound before.
   */
  lemma FillIsChunkIndependent(buf: seq<Byte>, answers: seq<ReadResult>, max: nat)
    ensures AfterFill(buf, Received(answers), max) == Cap(buf + Received(answers), max)
            <==> (Received(answers) != [] || Overflow(|buf|, max) == 0)
  {
    if Received(answers) == [] {
      assert buf + Received(answers) == buf;
      assert Overflow(|buf|, max) > 0 ==> |Cap(buf, max)| < |buf|;
    }
  }

  // ----- take_window -----

  /** Whole samples in `buf` that fit one window. */
  function Available(buf: seq<Byte>): nat
  {
    Min(|buf| / 2, WEBRTC_WINDOW)
  }

  function Silence(n: nat): (s: seq<Sample>)
    ensures |s| == n
  {
    seq(n, _ => 0)
  }

  /** The window a buffer yields: its oldest whole samples, padded with silence. */
  function Window(buf: seq<Byte>): (w: seq<Sample>)
    ensures |w| == WEBRTC_WINDOW
  {
    var k := Available(buf);
    Decode(buf[..2 * k]) + Silence(WEBRTC_WINDOW - k)
  }

  function AfterWindow(buf: seq<Byte>): seq<Byte>
  {
    buf[2 * Available(buf)..]
  }

  /** Removes one window from the front of the buffer. */
  method TakeWindow(buf: ByteVec) returns (samples: seq<Sample>)
    modifies buf
    ensures samples == Window(old(buf.bytes))
    ensures buf.bytes == AfterWindow(old(buf.bytes))
  {
    samples := seq(WEBRTC_WINDOW, _ => 0);
    var available := Min(|buf.bytes| / 2, WEBRTC_WINDOW);
    for i := 0 to available
      invariant |samples| == WEBRTC_WINDOW
      invariant forall j :: 0 <= j < i ==> samples[j] == FromLe(buf.bytes[2 * j], buf.bytes[2 * j + 1])
      invariant forall j :: i <= j < WEBRTC_WINDOW ==> samples[j] == 0
      invariant buf.bytes == old(buf.bytes)
    {
      var lo, hi := buf.bytes[i * 2], buf.bytes[i * 2 + 1];
      samples := samples[i := FromLe(lo, hi)];
    }
    assert samples == Window(buf.bytes);
    buf.DrainFront(available * 2);
  }

  /** What `k` successive windows deliver. */
  function Windows(buf: seq<Byte>, k: nat): seq<Sample>
  {
    if k == 0 then [] else Window(buf) + Windows(AfterWindow(buf), k - 1)
  }

  /** What is left after `k` successive windows. */
  function AfterWindows(buf: seq<Byte>, k: nat): seq<Byte>
  {
    if k == 0 then buf else AfterWindows(AfterWindow(buf), k - 1)
  }

  /**
   * Codec round trip across windows: the samples queued come back in order, followed by
   * silence; exactly the delivered samples are removed and a trailing odd byte stays.
   */
  lemma {:induction false} WindowsRoundTrip(samples: seq<Sample>, tail: seq<Byte>, k: nat)
    requires |tail| <= 1
    ensures var n := Min(|samples|, WEBRTC_WINDOW * k);
            && Windows(Encode(samples) + tail, k) == samples[..n] + Silence(WEBRTC_WINDOW * k - n)
            && AfterWindows(Encode(samples) + tail, k) == Encode(samples[n..]) + tail
  {
    hide Window, AfterWindow, Available, Encode, Silence;
    if k == 0 {
      NoSilence(samples);
      assert samples[0..] == samples;
    } else {
      var buf := Encode(samples) + tail;
      var m := Available(buf);
      var n := Min(|samples|, WEBRTC_WINDOW * k);
      WindowOfEncoded(samples, tail);
      WindowsRoundTrip(samples[m..], tail, k - 1);
      var n' := Min(|samples[m..]|, WEBRTC_WINDOW * (k - 1));
      Splice(samples, m, n', WEBRTC_WINDOW * (k - 1));
    }
  }

  lemma NoSilence(samples: seq<Sample>)
    ensures samples[..0] + Silence(0) == []
  {
  }

  lemma Splice(samples: seq<Sample>, m: nat, n: nat, rest: nat)
    requires m == Min(|samples|, WEBRTC_WINDOW) && n == Min(|samples| - m, rest)
    ensures samples[m..][n..] == samples[m + n..]
    ensures samples[..m] + Silence(WEBRTC_WINDOW - m) + (samples[m..][..n] + Silence(rest - n))
            == samples[..m + n] + Silence(WEBRTC_WINDOW + rest - (m + n))
  {
  }

  lemma WindowOfEncoded(samples: seq<Sample>, tail: seq<Byte>)
    requires |tail| <= 1
    ensures var m := Min(|samples|, WEBRTC_WINDOW);
            && Available(Encode(samples) + tail) == m
            && Window(Encode(samples) + tail) == samples[..m] + Silence(WEBRTC_WINDOW - m)
            && AfterWindow(Encode(samples) + tail) == Encode(samples[m..]) + tail
  {
    var m := Min(|samples|, WEBRTC_WINDOW);
    var buf := Encode(samples) + tail;
    EncodeConcat(samples[..m], samples[m..]);
    assert samples == samples[..m] + samples[m..];
    assert buf[..2 * m] == Encode(samples[..m]) + [];
    DecodeEncode(samples[..m], []);
    assert buf[2 * m..] == Encode(samples[m..]) + tail;
  }
}
