/** The realtime loop itself, changing its buffers in place, proved against the model of a run. */
module Clock {
  import opened Bytes
  import opened Pcm
  import opened PipeBuffers
  import opened Device
  import opened Pacing

  /** The windows handed to WebRTC, in order. */
  function PushedWindows(fates: seq<Fate>): seq<seq<Sample>>
  {
    if fates == [] then []
    else
      var f := fates[|fates| - 1];
      PushedWindows(fates[..|fates| - 1]) + if f.reason.Pushed? then [f.reason.window] else []
  }

  lemma PushedSnoc(fates: seq<Fate>, f: Fate)
    ensures PushedWindows(fates + [f]) == PushedWindows(fates) + if f.reason.Pushed? then [f.reason.window] else []
  {
    assert (fates + [f])[..|fates|] == fates;
  }

  lemma ReceivePushesNothing(c: Capture, got: seq<Byte>)
    requires c.streams != []
    ensures PushedWindows(Receive(c, got).fates) == PushedWindows(c.fates)
  {
    var dropped := |c.buf| + |got| - |AfterFill(c.buf, got, MAX_BUFFERED)|;
    PushedSnoc(c.fates, Fate(Conn(c), c.taken, c.taken + dropped, CapDropped));
  }

  lemma TakePushesOne(c: Capture)
    requires c.streams != []
    ensures PushedWindows(Take(c).fates) == PushedWindows(c.fates) + [Window(c.buf)]
  {
    PushedSnoc(c.fates, Fate(Conn(c), c.taken, c.taken + 2 * Available(c.buf), Pushed(Window(c.buf))));
  }

  lemma OthersPushNothing(s: State, i: Input)
    requires s.capture.streams != []
    ensures PushedWindows(UpToFill(s, i).capture.fates) == PushedWindows(s.capture.fates)
  {
    hide PushedWindows, Receive;
    PushedSnoc(s.capture.fates, Fate(Conn(s.capture), s.capture.taken, |Current(s.capture)|, Cleared));
    ReceivePushesNothing(Accept(s, i).capture, Received(i.answers));
  }

  lemma TickPushes(s: State, i: Input)
    requires s.capture.streams != []
    ensures |PushedWindows(Tick(s, i).capture.fates)|
            == |PushedWindows(s.capture.fates)| + if i.recording && i.send then 1 else 0
  {
    hide PushedWindows, UpToFill, Take;
    OthersPushNothing(s, i);
    TakePushesOne(UpToFill(s, i).capture);
  }

  /** Over every run, as many windows reach WebRTC as iterations saw both recording flags set. */
  lemma {:induction false} WindowPerSendingIteration(inputs: seq<Input>)
    ensures |PushedWindows(Run(inputs).capture.fates)|
            == |set k | 0 <= k < |inputs| && inputs[k].recording && inputs[k].send|
  {
    hide Tick;
    var sending := set k | 0 <= k < |inputs| && inputs[k].recording && inputs[k].send;
    if inputs == [] {
      assert sending == {};
    } else {
      var last := |inputs| - 1;
      var init := inputs[..last];
      WindowPerSendingIteration(init);
      TickPushes(Run(init), inputs[last]);
      var before := set k | 0 <= k < |init| && init[k].recording && init[k].send;
      assert sending == before + if inputs[last].recording && inputs[last].send then {last} else {};
    }
  }

  ghost predicate Holds(s: State, stream: bool, playout: seq<Byte>, capture: seq<Byte>,
                        wire: seq<Byte>, pushed: seq<seq<Sample>>)
  {
    && s.connected == stream
    && s.playout.buf == playout && s.playout.wire == wire
    && s.capture.buf == capture && PushedWindows(s.capture.fates) == pushed
  }

  /** Accept: while no peer is connected, take the next one and start with empty buffers. */
  method AcceptStep(i: Input, connected: bool, playoutBuf: ByteVec, captureBuf: ByteVec,
                    written: seq<Byte>, ghost s: State)
    returns (stream: bool, wire: seq<Byte>)
    requires playoutBuf != captureBuf && s.capture.streams != []
    requires Holds(s, connected, playoutBuf.bytes, captureBuf.bytes, written, PushedWindows(s.capture.fates))
    modifies playoutBuf, captureBuf
    ensures Holds(Accept(s, i), stream, playoutBuf.bytes, captureBuf.bytes, wire, PushedWindows(s.capture.fates))
  {
    stream, wire := connected, written;
    if !stream && i.accept.NewPeer? {
      PushedSnoc(s.capture.fates, Fate(Conn(s.capture), s.capture.taken, |Current(s.capture)|, Cleared));
      playoutBuf.Clear();
      captureBuf.Clear();
      stream, wire := true, [];
    }
  }

  /** Playout: pull one window, queue it, cap the buffer, write what the socket takes. */
  method PlayoutStep(i: Input, connected: bool, buf: ByteVec, ghost s: State)
    returns (stream: bool, sent: seq<Byte>)
    requires s.capture.streams != []
    requires s.connected == connected && s.playout.buf == buf.bytes
    modifies buf
    ensures var r := Drain(Pull(s, i), i);
            && r.connected == stream && r.playout.buf == buf.bytes
            && r.playout.wire == s.playout.wire + sent && r.capture == s.capture
  {
    stream, sent := connected, [];
    if i.playing {
      var play := i.pulled;
      if stream {
        QueueSamples(buf, play);
        CapBuffer(buf, MAX_BUFFERED);
      }
    }
    if stream && buf.bytes != [] {
      var ok;
      ghost var full := buf.bytes;
      ok, sent := DrainPlayout(i.writes, buf);
      assert sent == full[..|sent|] && buf.bytes == full[|sent|..];
      if !ok {
        stream := false;
      }
    }
  }

  /** Recording: read what the peer sent, then hand one window to WebRTC. */
  method CaptureStep(i: Input, connected: bool, buf: ByteVec, ghost s: State)
    returns (stream: bool, delivered: seq<seq<Sample>>)
    requires s.capture.streams != []
    requires s.connected == connected && s.capture.buf == buf.bytes
    modifies buf
    ensures var r := Deliver(Fill(s, i), i);
            && r.connected == stream && r.capture.buf == buf.bytes && r.playout == s.playout
            && PushedWindows(r.capture.fates) == PushedWindows(s.capture.fates) + delivered
    ensures |delivered| == if i.recording && i.send then 1 else 0
  {
    stream, delivered := connected, [];
    if stream {
      var r := FillCapture(i.answers, buf, MAX_BUFFERED);
      if r != Drained {
        stream := false;
      }
    }
    ReceivePushesNothing(s.capture, Received(i.answers));
    if i.recording && i.send {
      TakePushesOne(Fill(s, i).capture);
      var samples := TakeWindow(buf);
      delivered := [samples];
    }
  }

  /** One iteration, apart from its timing. */
  method Iterate(i: Input, connected: bool, playoutBuf: ByteVec, captureBuf: ByteVec,
                 written: seq<Byte>, ghost s: State)
    returns (stream: bool, wire: seq<Byte>, delivered: seq<seq<Sample>>)
    requires playoutBuf != captureBuf && s.capture.streams != []
    requires Holds(s, connected, playoutBuf.bytes, captureBuf.bytes, written, PushedWindows(s.capture.fates))
    modifies playoutBuf, captureBuf
    ensures Holds(Tick(s, i), stream, playoutBuf.bytes, captureBuf.bytes, wire,
                  PushedWindows(s.capture.fates) + delivered)
    ensures |delivered| == if i.recording && i.send then 1 else 0
  {
    stream, wire := AcceptStep(i, connected, playoutBuf, captureBuf, written, s);
    ghost var s1 := Accept(s, i);
    var sent;
    stream, sent := PlayoutStep(i, stream, playoutBuf, s1);
    wire := wire + sent;
    ghost var s3 := Drain(Pull(s1, i), i);
    assert s3.capture == s1.capture && s3.playout.wire == wire;
    stream, delivered := CaptureStep(i, stream, captureBuf, s3);
    assert Tick(s, i) == Deliver(Fill(s3, i), i);
  }

  /**
   * The loop over one run: `inputs` are the answers and flags each iteration meets until
   * `terminate` is seen, `beats` the instants it reads. It returns what it pushed to WebRTC,
   * what the latest peer could read, and how long it asked to sleep after each iteration.
   */
  method ClockLoop(inputs: seq<Input>, t0: int, beats: seq<Beat>)
    returns (pushed: seq<seq<Sample>>, wire: seq<Byte>, sleeps: seq<nat>)
    requires |beats| == |inputs|
    ensures pushed == PushedWindows(Run(inputs).capture.fates)
    ensures |pushed| == |set k | 0 <= k < |inputs| && inputs[k].recording && inputs[k].send|
    ensures wire == Run(inputs).playout.wire
    ensures |sleeps| == |beats| && forall j :: 0 <= j < |beats| ==> sleeps[j] == SleepOf(t0, beats, j)
  {
    HoldsAtFirst();
    hide Run, Tick, PushedWindows;
    var stream := false;
    var playoutBuf := new ByteVec();
    var captureBuf := new ByteVec();
    var nextTick := t0;
    pushed, wire, sleeps := [], [], [];
    for n := 0 to |inputs|
      invariant playoutBuf != captureBuf && fresh(playoutBuf) && fresh(captureBuf)
      invariant Holds(Run(inputs[..n]), stream, playoutBuf.bytes, captureBuf.bytes, wire, pushed)
      invariant nextTick == NextTick(t0, beats[..n])
      invariant |sleeps| == n && forall j :: 0 <= j < n ==> sleeps[j] == SleepOf(t0, beats, j)
    {
      assert inputs[..n + 1] == inputs[..n] + [inputs[n]];
      assert beats[..n + 1][..n] == beats[..n];
      RunOneMore(inputs[..n], inputs[n]);

      nextTick := nextTick + TICK;
      var delivered;
      stream, wire, delivered := Iterate(inputs[n], stream, playoutBuf, captureBuf, wire, Run(inputs[..n]));
      pushed := pushed + delivered;

      var now := beats[n].now;
      if nextTick > now {
        sleeps := sleeps + [nextTick - now];
      } else {
        sleeps := sleeps + [0];
        nextTick := now;
      }
    }
    assert inputs[..|inputs|] == inputs;
    HoldsMeans(Run(inputs), stream, playoutBuf.bytes, captureBuf.bytes, wire, pushed);
    WindowPerSendingIteration(inputs);
  }

  lemma HoldsAtFirst()
    ensures Holds(Run([]), false, [], [], [], [])
  {
  }

  lemma HoldsMeans(s: State, stream: bool, playout: seq<Byte>, capture: seq<Byte>,
                   wire: seq<Byte>, pushed: seq<seq<Sample>>)
    requires Holds(s, stream, playout, capture, wire, pushed)
    ensures s.playout.wire == wire && PushedWindows(s.capture.fates) == pushed
  {
  }
}
