/** What WebRTC records: fidelity, conservation and latency of captured audio over every run. */
module CaptureStream {
  import opened Bytes
  import opened Pcm
  import opened PipeBuffers
  import opened Device

  // ----- the invariant -----

  /** A pushed window holds the decoded bytes `from..to` of its connection, then silence. */
  ghost predicate Faithful(f: Fate, stream: seq<Byte>)
  {
    f.reason.Pushed? ==>
      && f.from <= f.to <= |stream| && f.to - f.from <= BYTES_PER_WINDOW
      && f.reason.window == Decode(stream[f.from..f.to]) + Silence(WEBRTC_WINDOW - (f.to - f.from) / 2)
  }

  /**
   * The fates, in order, cover everything received up to byte `off` of connection `conn`
   * without gap or overlap: whole samples are pushed or dropped, and whatever is left of a
   * connection is cleared when the next one begins.
   */
  ghost predicate Tiles(fates: seq<Fate>, streams: seq<seq<Byte>>, conn: nat, off: nat)
    requires conn < |streams|
  {
    && off <= |streams[conn]|
    && if fates == [] then conn == 0 && off == 0
       else
         var f := fates[|fates| - 1];
         var rest := fates[..|fates| - 1];
         if f.reason.Cleared? then
           && 0 < conn && off == 0
           && f.conn == conn - 1 && f.from <= f.to == |streams[conn - 1]| && f.from % 2 == 0
           && Tiles(rest, streams, conn - 1, f.from)
         else
           && f.conn == conn && f.from <= f.to == off && f.from % 2 == 0 && f.to % 2 == 0
           && Faithful(f, streams[conn])
           && Tiles(rest, streams, conn, f.from)
  }

  ghost predicate Consistent(c: Capture)
  {
    && c.streams != []
    && c.taken <= |Current(c)| && c.taken % 2 == 0
    && c.buf == Current(c)[c.taken..]
    && |c.buf| <= MAX_BUFFERED + 1
    && Tiles(c.fates, c.streams, Conn(c), c.taken)
  }

  /** More bytes on the last connection, or more connections, disturb no earlier fate. */
  lemma {:induction false} TilesGrow(fates: seq<Fate>, streams: seq<seq<Byte>>, more: seq<seq<Byte>>,
                                     conn: nat, off: nat)
    requires conn < |streams| && conn < |more|
    requires forall j :: 0 <= j < conn ==> more[j] == streams[j]
    requires streams[conn] <= more[conn]
    requires Tiles(fates, streams, conn, off)
    ensures Tiles(fates, more, conn, off)
  {
    if fates != [] {
      var f := fates[|fates| - 1];
      if f.reason.Cleared? {
        TilesGrow(fates[..|fates| - 1], streams, more, conn - 1, f.from);
      } else {
        TilesGrow(fates[..|fates| - 1], streams, more, conn, f.from);
        assert streams[conn][f.from..f.to] == more[conn][f.from..f.to];
      }
    }
  }

  // ----- every step keeps it -----

  /** One more fate that begins where the tiling ends. */
  lemma TilesSnoc(fates: seq<Fate>, f: Fate, streams: seq<seq<Byte>>, conn: nat)
    requires conn < |streams| && f.conn == conn && f.from <= f.to <= |streams[conn]| && f.from % 2 == 0
    requires Tiles(fates, streams, conn, f.from)
    ensures !f.reason.Cleared? && f.to % 2 == 0 && Faithful(f, streams[conn])
            ==> Tiles(fates + [f], streams, conn, f.to)
    ensures f.reason.Cleared? && f.to == |streams[conn]| && conn + 1 < |streams|
            ==> Tiles(fates + [f], streams, conn + 1, 0)
  {
    hide Faithful;
    assert (fates + [f])[..|fates|] == fates;
  }

  lemma AcceptKeeps(s: State, i: Input)
    requires Consistent(s.capture)
    ensures Consistent(Accept(s, i).capture)
  {
    hide Tiles;
    if !s.connected && i.accept.NewPeer? {
      var c, more := s.capture, s.capture.streams + [[]];
      TilesGrow(c.fates, c.streams, more, Conn(c), c.taken);
      TilesSnoc(c.fates, Fate(Conn(c), c.taken, |Current(c)|, Cleared), more, Conn(c));
    }
  }

  lemma ReceiveKeeps(c: Capture, got: seq<Byte>)
    requires Consistent(c)
    ensures Consistent(Receive(c, got))
  {
    hide Tiles, AfterFill;
    var c' := Receive(c, got);
    ReceiveKeepsBuffer(c, got);
    TilesGrow(c.fates, c.streams, c'.streams, Conn(c), c.taken);
    TilesSnoc(c.fates, Fate(Conn(c), c.taken, c'.taken, CapDropped), c'.streams, Conn(c));
  }

  /** What filling leaves: everything after an even number of bytes, within the cap and one more. */
  lemma FillShape(buf: seq<Byte>, got: seq<Byte>)
    requires |buf| <= MAX_BUFFERED + 1
    ensures var after := AfterFill(buf, got, MAX_BUFFERED);
            && |after| <= |buf| + |got| && |after| <= MAX_BUFFERED + 1
            && (|buf| + |got| - |after|) % 2 == 0
            && after == (buf + got)[|buf| + |got| - |after|..]
  {
    OverflowShape(|buf| + |got|);
    hide Overflow;
    if got == [] {
      assert buf + got == buf;
    }
  }

  lemma OverflowShape(n: nat)
    ensures var o := Overflow(n, MAX_BUFFERED); o <= n && o % 2 == 0 && n - o <= MAX_BUFFERED + 1
  {
  }

  /** The end of a stream, extended and cut from the front, is the end of the extended stream. */
  lemma EndOfStream(stream: seq<Byte>, taken: nat, buf: seq<Byte>, got: seq<Byte>, o: nat)
    requires taken <= |stream| && buf == stream[taken..] && o <= |buf| + |got|
    ensures taken + o <= |stream + got| && (buf + got)[o..] == (stream + got)[taken + o..]
  {
    assert buf + got == (stream + got)[taken..];
  }

  lemma ReceiveKeepsBuffer(c: Capture, got: seq<Byte>)
    requires c.streams != [] && c.taken <= |Current(c)| && c.taken % 2 == 0
    requires c.buf == Current(c)[c.taken..] && |c.buf| <= MAX_BUFFERED + 1
    ensures var c' := Receive(c, got);
            && c.taken <= c'.taken <= |Current(c')| && c'.taken % 2 == 0
            && c'.buf == Current(c')[c'.taken..] && |c'.buf| <= MAX_BUFFERED + 1
            && |c'.streams| == |c.streams| && Current(c') == Current(c) + got
  {
    hide AfterFill;
    FillShape(c.buf, got);
    EndOfStream(Current(c), c.taken, c.buf, got, |c.buf| + |got| - |AfterFill(c.buf, got, MAX_BUFFERED)|);
  }

  lemma TakeKeeps(c: Capture)
    requires Consistent(c)
    ensures Consistent(Take(c))
  {
    hide Tiles;
    var n := 2 * Available(c.buf);
    assert c.buf[..n] == Current(c)[c.taken..c.taken + n];
    assert c.buf[n..] == Current(c)[c.taken + n..];
    TilesSnoc(c.fates, Fate(Conn(c), c.taken, c.taken + n, Pushed(Window(c.buf))), c.streams, Conn(c));
  }

  lemma UpToFillKeeps(s: State, i: Input)
    requires Consistent(s.capture)
    ensures Consistent(UpToFill(s, i).capture)
  {
    AcceptKeeps(s, i);
    var s3 := Drain(Pull(Accept(s, i), i), i);
    if s3.connected {
      ReceiveKeeps(s3.capture, Received(i.answers));
    }
  }

  lemma TickKeeps(s: State, i: Input)
    requires Consistent(s.capture)
    ensures Consistent(Tick(s, i).capture)
  {
    UpToFillKeeps(s, i);
    TakeKeeps(UpToFill(s, i).capture);
  }

  lemma {:induction false} RunKeeps(inputs: seq<Input>)
    ensures Consistent(Run(inputs).capture)
  {
    if inputs == [] {
      assert Current(INITIAL.capture)[0..] == [];
    } else {
      RunKeeps(inputs[..|inputs| - 1]);
      TickKeeps(Run(inputs[..|inputs| - 1]), inputs[|inputs| - 1]);
    }
  }

  /** In a run the buffer is never over the cap, so filling it always leaves the cap of everything. */
  lemma FillIsCap(inputs: seq<Input>, i: Input)
    ensures var s := Drain(Pull(Accept(Run(inputs), i), i), i);
            s.connected ==>
              UpToFill(Run(inputs), i).capture.buf == Cap(s.capture.buf + Received(i.answers), MAX_BUFFERED)
  {
    hide Run, Tiles, Received, Cap, Queue, Send;
    RunKeeps(inputs);
    AcceptKeeps(Run(inputs), i);
    var s := Drain(Pull(Accept(Run(inputs), i), i), i);
    assert Overflow(|s.capture.buf|, MAX_BUFFERED) == 0;
    FillIsChunkIndependent(s.capture.buf, i.answers, MAX_BUFFERED);
  }

  // ----- conservation -----

  function Total(streams: seq<seq<Byte>>): nat
  {
    if streams == [] then 0 else Total(streams[..|streams| - 1]) + |streams[|streams| - 1]|
  }

  function Length(f: Fate): nat { if f.from <= f.to then f.to - f.from else 0 }

  function BytesDropped(fates: seq<Fate>): nat
  {
    if fates == [] then 0
    else
      var f := fates[|fates| - 1];
      BytesDropped(fates[..|fates| - 1]) + if f.reason.CapDropped? then Length(f) else 0
  }

  function BytesCleared(fates: seq<Fate>): nat
  {
    if fates == [] then 0
    else
      var f := fates[|fates| - 1];
      BytesCleared(fates[..|fates| - 1]) + if f.reason.Cleared? then Length(f) else 0
  }

  /** Samples pushed to WebRTC that are not padding. */
  function RealSamples(fates: seq<Fate>): nat
  {
    if fates == [] then 0
    else
      var f := fates[|fates| - 1];
      RealSamples(fates[..|fates| - 1]) + if f.reason.Pushed? then Length(f) / 2 else 0
  }

  lemma {:induction false} TilesConserve(fates: seq<Fate>, streams: seq<seq<Byte>>, conn: nat, off: nat)
    requires conn < |streams| && Tiles(fates, streams, conn, off)
    ensures Total(streams[..conn]) + off
            == 2 * RealSamples(fates) + BytesDropped(fates) + BytesCleared(fates)
  {
    hide Total, RealSamples, BytesDropped, BytesCleared, Faithful;
    if fates == [] {
      NothingCounted(streams);
    } else {
      var f := fates[|fates| - 1];
      LastCounted(fates);
      if f.reason.Cleared? {
        TilesConserve(fates[..|fates| - 1], streams, conn - 1, f.from);
        LastTotal(streams, conn);
      } else {
        TilesConserve(fates[..|fates| - 1], streams, conn, f.from);
      }
    }
  }

  lemma NothingCounted(streams: seq<seq<Byte>>)
    ensures Total(streams[..0]) == 0 && RealSamples([]) == 0 && BytesDropped([]) == 0 && BytesCleared([]) == 0
  {
  }

  lemma LastCounted(fates: seq<Fate>)
    requires fates != []
    ensures var rest, f := fates[..|fates| - 1], fates[|fates| - 1];
            && RealSamples(fates) == RealSamples(rest) + (if f.reason.Pushed? then Length(f) / 2 else 0)
            && BytesDropped(fates) == BytesDropped(rest) + (if f.reason.CapDropped? then Length(f) else 0)
            && BytesCleared(fates) == BytesCleared(rest) + (if f.reason.Cleared? then Length(f) else 0)
  {
  }

  lemma LastTotal(streams: seq<seq<Byte>>, conn: nat)
    requires 0 < conn <= |streams|
    ensures Total(streams[..conn]) == Total(streams[..conn - 1]) + |streams[conn - 1]|
  {
    assert streams[..conn][..conn - 1] == streams[..conn - 1];
  }

  /**
   * Over every run, each byte received was pushed as half of a real sample, dropped by the
   * cap, cleared by a reconnect, or is still buffered.
   */
  lemma CaptureConservation(inputs: seq<Input>)
    ensures var c := Run(inputs).capture;
            Total(c.streams) == 2 * RealSamples(c.fates) + BytesDropped(c.fates) + BytesCleared(c.fates) + |c.buf|
  {
    var c := Run(inputs).capture;
    RunKeeps(inputs);
    TilesConserve(c.fates, c.streams, Conn(c), c.taken);
  }

  // ----- fidelity -----

  /** Byte `p` of connection `conn` is in the range of fate `f`. */
  predicate Covers(f: Fate, conn: nat, p: nat)
  {
    f.conn == conn && f.from <= p < f.to
  }

  /** Stream positions in order: an earlier connection, or no further on the same one. */
  predicate NotAfter(conn: nat, p: nat, conn': nat, p': nat)
  {
    conn < conn' || (conn == conn' && p <= p')
  }

  lemma {:induction false} TilesCover(fates: seq<Fate>, streams: seq<seq<Byte>>, conn: nat, off: nat, c: nat, p: nat)
    requires conn < |streams| && Tiles(fates, streams, conn, off)
    requires (c < conn && p < |streams[c]|) || (c == conn && p < off)
    ensures exists k :: 0 <= k < |fates| && Covers(fates[k], c, p)
  {
    if fates != [] {
      var f := fates[|fates| - 1];
      var rest := fates[..|fates| - 1];
      if Covers(f, c, p) {
        assert Covers(fates[|fates| - 1], c, p);
      } else {
        TilesCover(rest, streams, if f.reason.Cleared? then conn - 1 else conn, f.from, c, p);
        var k :| 0 <= k < |rest| && Covers(rest[k], c, p);
        assert Covers(fates[k], c, p);
      }
    }
  }

  /** Fates are in stream order, so ranges of different fates never meet. */
  lemma {:induction false} TilesOrdered(fates: seq<Fate>, streams: seq<seq<Byte>>, conn: nat, off: nat, a: nat)
    requires conn < |streams| && Tiles(fates, streams, conn, off) && a < |fates|
    ensures NotAfter(fates[a].conn, fates[a].to, conn, off)
    ensures fates[a].from % 2 == 0 && (fates[a].reason.Cleared? || fates[a].to % 2 == 0)
    ensures fates[a].from <= fates[a].to <= |streams[fates[a].conn]|
    ensures Faithful(fates[a], streams[fates[a].conn])
    ensures fates[a].reason.Cleared? ==> fates[a].to == |streams[fates[a].conn]|
    ensures forall b :: a < b < |fates| ==>
              NotAfter(fates[a].conn, fates[a].to, fates[b].conn, fates[b].from)
  {
    var f := fates[|fates| - 1];
    var rest := fates[..|fates| - 1];
    if a < |rest| {
      TilesOrdered(rest, streams, if f.reason.Cleared? then conn - 1 else conn, f.from, a);
      assert forall b :: a < b < |rest| ==> rest[b] == fates[b];
      assert rest[a] == fates[a];
    }
  }

  /**
   * Capture fidelity over every run. Every window handed to WebRTC is the little-endian decode
   * of a sample-aligned range of one connection's bytes, padded with silence.
   */
  lemma CaptureFidelity(inputs: seq<Input>, k: nat)
    requires k < |Run(inputs).capture.fates| && Run(inputs).capture.fates[k].reason.Pushed?
    ensures var c := Run(inputs).capture;
            var f := c.fates[k];
            && f.conn < |c.streams| && f.from % 2 == 0 && f.from <= f.to <= |c.streams[f.conn]|
            && f.to - f.from <= BYTES_PER_WINDOW
            && f.reason.window == Decode(c.streams[f.conn][f.from..f.to])
                                  + Silence(WEBRTC_WINDOW - (f.to - f.from) / 2)
  {
    hide Run;
    var c := Run(inputs).capture;
    RunKeeps(inputs);
    TilesOrdered(c.fates, c.streams, Conn(c), c.taken, k);
  }

  /** Ranges follow each other in stream order, so no sample is pushed twice or out of order. */
  lemma FatesInOrder(inputs: seq<Input>, a: nat, b: nat)
    requires a < b < |Run(inputs).capture.fates|
    ensures var f, g := Run(inputs).capture.fates[a], Run(inputs).capture.fates[b];
            NotAfter(f.conn, f.to, g.conn, g.from)
  {
    hide Run;
    var c := Run(inputs).capture;
    RunKeeps(inputs);
    TilesOrdered(c.fates, c.streams, Conn(c), c.taken, a);
  }

  /** Every byte received met exactly one fate, unless it is still buffered. */
  lemma ExactlyOneFate(inputs: seq<Input>, conn: nat, p: nat)
    requires conn < |Run(inputs).capture.streams| && p < |Run(inputs).capture.streams[conn]|
    ensures var c := Run(inputs).capture;
            var buffered := conn == Conn(c) && c.taken <= p;
            && (buffered ==> p - c.taken < |c.buf| && c.buf[p - c.taken] == c.streams[conn][p])
            && (buffered <==> forall k :: 0 <= k < |c.fates| ==> !Covers(c.fates[k], conn, p))
            && (forall k, l :: 0 <= k < l < |c.fates| ==> !(Covers(c.fates[k], conn, p) && Covers(c.fates[l], conn, p)))
  {
    var c := Run(inputs).capture;
    RunKeeps(inputs);
    if !(conn == Conn(c) && c.taken <= p) {
      TilesCover(c.fates, c.streams, Conn(c), c.taken, conn, p);
    }
    forall k | 0 <= k < |c.fates|
      ensures NotAfter(c.fates[k].conn, c.fates[k].to, Conn(c), c.taken)
      ensures forall l :: k < l < |c.fates| ==> !(Covers(c.fates[k], conn, p) && Covers(c.fates[l], conn, p))
    {
      TilesOrdered(c.fates, c.streams, Conn(c), c.taken, k);
    }
  }

  // ----- latency -----

  /** Iterations that hand a window to WebRTC. */
  function Deliveries(inputs: seq<Input>): nat
  {
    if inputs == [] then 0
    else Deliveries(inputs[..|inputs| - 1]) + if Delivers(inputs[|inputs| - 1]) then 1 else 0
  }

  /** On one connection the stream grows and the buffer's start only moves forward. */
  ghost predicate Advanced(c: Capture, c': Capture)
  {
    && c.streams != [] && c'.streams != []
    && (|c'.streams| > |c.streams|
        || (|c'.streams| == |c.streams| && Current(c) <= Current(c') && c.taken <= c'.taken))
  }

  lemma UpToFillAdvances(s: State, i: Input)
    requires Consistent(s.capture)
    ensures Advanced(s.capture, UpToFill(s, i).capture)
  {
    AcceptKeeps(s, i);
    var s3 := Drain(Pull(Accept(s, i), i), i);
    if s3.connected {
      ReceiveKeepsBuffer(s3.capture, Received(i.answers));
    }
  }

  /** A delivering iteration moves the buffer's start by a window, or past sample `x`. */
  lemma DeliverAdvances(s: State, i: Input, x: nat)
    requires Consistent(s.capture) && 2 * x + 1 < |Current(s.capture)|
    ensures var c, c' := s.capture, Deliver(s, i).capture;
            && c'.streams == c.streams
            && c'.taken >= Min(2 * x + 2, c.taken + if Delivers(i) then BYTES_PER_WINDOW else 0)
            && c'.taken >= c.taken
  {
  }

  /**
   * After `n` deliveries the buffer's start is past sample `x` or has moved `n` windows,
   * unless the connection has changed.
   */
  ghost predicate Progress(c: Capture, c': Capture, n: nat, x: nat)
  {
    && Advanced(c, c')
    && (|c'.streams| == |c.streams| ==> c'.taken >= Min(2 * x + 2, c.taken + BYTES_PER_WINDOW * n))
  }

  lemma TickProgress(s: State, i: Input, x: nat)
    requires Consistent(s.capture)
    requires 2 * x + 1 < |Current(s.capture)|
    ensures Progress(s.capture, Tick(s, i).capture, if Delivers(i) then 1 else 0, x)
  {
    UpToFillAdvances(s, i);
    UpToFillKeeps(s, i);
    if |Tick(s, i).capture.streams| == |s.capture.streams| {
      DeliverAdvances(UpToFill(s, i), i, x);
    }
  }

  lemma TickAdvances(s: State, i: Input)
    requires Consistent(s.capture)
    ensures Advanced(s.capture, Tick(s, i).capture)
  {
    UpToFillAdvances(s, i);
  }

  lemma ProgressAdds(a: Capture, b: Capture, c: Capture, m: nat, n: nat, x: nat)
    requires Progress(a, b, m, x) && Advanced(b, c)
    requires |a.streams| == |b.streams| ==> Progress(b, c, n, x)
    ensures Progress(a, c, m + n, x)
  {
  }

  lemma {:induction false} RunFromKeeps(s: State, inputs: seq<Input>)
    requires Consistent(s.capture)
    ensures Consistent(RunFrom(s, inputs).capture)
  {
    if inputs != [] {
      RunFromKeeps(s, inputs[..|inputs| - 1]);
      TickKeeps(RunFrom(s, inputs[..|inputs| - 1]), inputs[|inputs| - 1]);
    }
  }

  lemma {:induction false} RunProgress(s: State, inputs: seq<Input>, x: nat)
    requires Consistent(s.capture) && 2 * x + 1 < |Current(s.capture)|
    ensures Progress(s.capture, RunFrom(s, inputs).capture, Deliveries(inputs), x)
  {
    if inputs != [] {
      var init, i := inputs[..|inputs| - 1], inputs[|inputs| - 1];
      var r := RunFrom(s, init);
      RunProgress(s, init, x);
      RunFromKeeps(s, init);
      TickAdvances(r, i);
      if |r.capture.streams| == |s.capture.streams| {
        TickProgress(r, i, x);
      }
      ProgressAdds(s.capture, r.capture, Tick(r, i).capture, Deliveries(init), if Delivers(i) then 1 else 0, x);
    }
  }

  /** The fate of a sample: one range holds both its bytes. */
  ghost predicate Decided(c: Capture, conn: nat, x: nat)
  {
    exists k :: 0 <= k < |c.fates| && Covers(c.fates[k], conn, 2 * x) && Covers(c.fates[k], conn, 2 * x + 1)
  }

  lemma PassedIsDecided(c: Capture, conn: nat, x: nat)
    requires Consistent(c) && conn < |c.streams| && 2 * x + 1 < |c.streams[conn]|
    requires conn < Conn(c) || 2 * x + 2 <= c.taken
    ensures Decided(c, conn, x)
  {
    TilesCover(c.fates, c.streams, Conn(c), c.taken, conn, 2 * x);
    var k :| 0 <= k < |c.fates| && Covers(c.fates[k], conn, 2 * x);
    TilesOrdered(c.fates, c.streams, Conn(c), c.taken, k);
    assert Covers(c.fates[k], conn, 2 * x + 1);
  }

  /** Whatever is received later, earlier connections' bytes stay. */
  lemma {:induction false} StreamsGrow(s: State, inputs: seq<Input>, conn: nat)
    requires conn < |s.capture.streams|
    ensures Longer(s.capture.streams, RunFrom(s, inputs).capture.streams, conn)
  {
    hide Tick, Longer;
    if inputs == [] {
      NoLonger(s.capture.streams, conn);
    } else {
      var r := RunFrom(s, inputs[..|inputs| - 1]);
      StreamsGrow(s, inputs[..|inputs| - 1], conn);
      StillThere(s.capture.streams, r.capture.streams, conn);
      TickGrows(r, inputs[|inputs| - 1], conn);
      LongerAdds(s.capture.streams, r.capture.streams, Tick(r, inputs[|inputs| - 1]).capture.streams, conn);
    }
  }

  /** Connection `conn` is still there, and has received what it had and perhaps more. */
  predicate Longer(a: seq<seq<Byte>>, b: seq<seq<Byte>>, conn: nat)
    requires conn < |a|
  {
    |a| <= |b| && a[conn] <= b[conn]
  }

  lemma NoLonger(a: seq<seq<Byte>>, conn: nat)
    requires conn < |a|
    ensures Longer(a, a, conn)
  {
  }

  lemma StillThere(a: seq<seq<Byte>>, b: seq<seq<Byte>>, conn: nat)
    requires conn < |a| && Longer(a, b, conn)
    ensures conn < |b|
  {
  }

  lemma LongerAdds(a: seq<seq<Byte>>, b: seq<seq<Byte>>, c: seq<seq<Byte>>, conn: nat)
    requires conn < |a| && Longer(a, b, conn) && conn < |b| && Longer(b, c, conn)
    ensures Longer(a, c, conn)
  {
  }

  lemma TickGrows(s: State, i: Input, conn: nat)
    requires conn < |s.capture.streams|
    ensures Longer(s.capture.streams, Tick(s, i).capture.streams, conn)
  {
    hide AfterFill, Received, Queue, Send, WriteFails, Written, Ending, Window;
    var streams := Accept(s, i).capture.streams;
    assert Longer(s.capture.streams, streams, conn);
    assert Longer(streams, UpToFill(s, i).capture.streams, conn);
  }

  /** From any consistent state: enough deliveries decide every buffered sample. */
  lemma EnoughDeliveries(s: State, inputs: seq<Input>, x: nat)
    requires Consistent(s.capture) && 2 * x + 1 < |Current(s.capture)|
    requires 2 * x + 2 <= s.capture.taken + BYTES_PER_WINDOW * Deliveries(inputs)
    ensures Decided(RunFrom(s, inputs).capture, Conn(s.capture), x)
  {
    RunProgress(s, inputs, x);
    RunFromKeeps(s, inputs);
    StreamsGrow(s, inputs, Conn(s.capture));
    StillThere(s.capture.streams, RunFrom(s, inputs).capture.streams, Conn(s.capture));
    PassedIsDecided(RunFrom(s, inputs).capture, Conn(s.capture), x);
  }

  /**
   * Bounded capture latency. A whole sample left in the buffer by `fill_capture` is pushed,
   * dropped or cleared within eight iterations that deliver a window, the current one
   * included, whatever the peer and WebRTC do meanwhile.
   */
  lemma CaptureLatency(before: seq<Input>, i: Input, after: seq<Input>, x: nat)
    requires var c := UpToFill(Run(before), i).capture; c.taken <= 2 * x && 2 * x + 1 < |Current(c)|
    requires Deliveries([i] + after) >= 8
    ensures Decided(Run(before + [i] + after).capture, Conn(UpToFill(Run(before), i).capture), x)
  {
    RunKeeps(before);
    UpToFillKeeps(Run(before), i);
    var m := UpToFill(Run(before), i);
    RunOneMore(before, i);
    RunFromConcat(INITIAL, before + [i], after);
    DeliveriesCons(i, after);
    DeliveryCounts(m, i, after, x);
  }

  lemma DeliveryCounts(m: State, i: Input, after: seq<Input>, x: nat)
    requires Consistent(m.capture) && m.capture.taken <= 2 * x && 2 * x + 1 < |Current(m.capture)|
    requires Deliveries(after) + (if Delivers(i) then 1 else 0) >= 8
    ensures Decided(RunFrom(Deliver(m, i), after).capture, Conn(m.capture), x)
  {
    hide Take, RunFrom, Deliveries, Decided, Tiles;
    TakeKeeps(m.capture);
    DeliverAdvances(m, i, x);
    EnoughDeliveries(Deliver(m, i), after, x);
  }

  lemma {:induction false} DeliveriesCons(i: Input, after: seq<Input>)
    ensures Deliveries([i] + after) == Deliveries(after) + if Delivers(i) then 1 else 0
  {
    if after == [] {
      assert [i] + after == [i] && [i][..0] == [];
    } else {
      assert ([i] + after)[..|after|] == [i] + after[..|after| - 1];
      DeliveriesCons(i, after[..|after| - 1]);
    }
  }

  // ----- the bound of eight is exact -----

  const BURST: seq<Byte> := seq(3840, _ => 0)
  /** A peer connects and sends eight windows at once. */
  const FULL := Input(NewPeer, false, [], [], [ReadOk(BURST), ReadOk(BURST)], true, true)
  const QUIET := Input(AcceptWouldBlock, false, [], [], [], true, true)

  lemma AfterFull()
    ensures var s := Run([FULL]);
            s.connected && Conn(s.capture) == 1 && |s.capture.buf| == 6720 && s.capture.taken == 960
  {
    RunOneMore([], FULL);
    assert [] + [FULL] == [FULL];
    assert FULL.answers[1..] == [ReadOk(BURST)] && FULL.answers[1..][1..] == [];
    assert Received(FULL.answers) == BURST + (BURST + Received([]));
    assert Ending(FULL.answers) == Ending([]);
    assert |Cap([] + Received(FULL.answers), MAX_BUFFERED)| == 7680;
  }

  lemma QuietTick(s: State)
    requires s.capture.streams != [] && s.connected
    ensures var r := Tick(s, QUIET); r.connected == !WriteFails(|s.playout.buf|, []) && r.capture == Take(s.capture)
  {
    var c := s.capture;
    assert Received([]) == [] && Current(c) + [] == Current(c);
    assert c.streams[Conn(c) := Current(c)] == c.streams;
    assert Receive(c, []) == c;
  }

  lemma {:induction false} AfterQuiet(k: nat)
    requires k <= 6
    ensures var s := Run([FULL] + seq(k, _ => QUIET));
            s.connected && Conn(s.capture) == 1
            && |s.capture.buf| == 6720 - 960 * k && s.capture.taken == 960 + 960 * k
  {
    if k == 0 {
      AfterFull();
      assert [FULL] + seq(0, _ => QUIET) == [FULL];
    } else {
      var inputs := [FULL] + seq(k - 1, _ => QUIET);
      AfterQuiet(k - 1);
      assert [FULL] + seq(k, _ => QUIET) == inputs + [QUIET];
      RunOneMore(inputs, QUIET);
      QuietTick(Run(inputs));
    }
  }

  /** Seven deliveries are not enough: the last sample of a full buffer is still waiting. */
  lemma SevenDeliveriesAreNotEnough()
    ensures var inputs := [FULL] + seq(6, _ => QUIET);
            && Deliveries(inputs) == 7
            && UpToFill(INITIAL, FULL).capture.taken <= 2 * 3839
            && 2 * 3839 + 1 < |Current(UpToFill(INITIAL, FULL).capture)|
            && !Decided(Run(inputs).capture, 1, 3839)
  {
    var inputs := [FULL] + seq(6, _ => QUIET);
    AfterQuiet(6);
    QuietDeliveries(6);
    assert FULL.answers[1..] == [ReadOk(BURST)] && FULL.answers[1..][1..] == [];
    assert Received(FULL.answers) == BURST + (BURST + Received([]));
    RunKeeps(inputs);
    var c := Run(inputs).capture;
    forall k | 0 <= k < |c.fates|
      ensures !Covers(c.fates[k], 1, 2 * 3839)
    {
      TilesOrdered(c.fates, c.streams, Conn(c), c.taken, k);
    }
  }

  lemma {:induction false} QuietDeliveries(k: nat)
    ensures Deliveries([FULL] + seq(k, _ => QUIET)) == k + 1
  {
    var inputs := [FULL] + seq(k, _ => QUIET);
    if k == 0 {
      assert inputs[..0] == [];
    } else {
      assert inputs[..|inputs| - 1] == [FULL] + seq(k - 1, _ => QUIET);
      QuietDeliveries(k - 1);
    }
  }
}
