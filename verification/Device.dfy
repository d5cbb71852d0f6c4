/**
 * One iteration of the device's clock loop as a function of what the outside answers, with
 * the histories that the whole-run properties speak about.
 */
module Device {
  import opened Bytes
  import opened Pcm
  import opened PipeBuffers

  // ----- state -----

  /** A cap drop of `amount` bytes made when `at` bytes of the connection had been written. */
  datatype Drop = Drop(at: nat, amount: nat)

  /**
   * Playout side of the current connection: the buffer, and the histories of samples queued,
   * of bytes written to the peer and of cap drops.
   */
  datatype Playout = Playout(buf: seq<Byte>, queued: seq<Sample>, wire: seq<Byte>, drops: seq<Drop>)

  /** Why a range of received bytes left the capture buffer. */
  datatype Reason =
    | Pushed(window: seq<Sample>)  // handed to WebRTC as the real part of this window
    | CapDropped
    | Cleared                      // thrown away when the next peer connected

  /** Bytes `from..to` of what connection `conn` sent left the buffer for this reason. */
  datatype Fate = Fate(conn: nat, from: nat, to: nat, reason: Reason)

  /**
   * Capture side: the buffer, and the histories of bytes received on each connection (entry 0
   * stands for the time before the first one) and of everything that left the buffer.
   */
  datatype Capture = Capture(buf: seq<Byte>, streams: seq<seq<Byte>>, taken: nat, fates: seq<Fate>)

  datatype State = State(connected: bool, playout: Playout, capture: Capture)

  const INITIAL := State(false, Playout([], [], [], []), Capture([], [[]], 0, []))

  // ----- one iteration -----

  datatype AcceptResult = NewPeer | AcceptWouldBlock | AcceptError

  /**
   * Everything one iteration observes: the answers of the listener and of the socket, what
   * WebRTC hands over when pulled, and the flags as loaded.
   */
  datatype Input = Input(accept: AcceptResult, playing: bool, pulled: seq<Sample>,
                         writes: seq<WriteResult>, answers: seq<ReadResult>,
                         recording: bool, send: bool)

  /** Whether the iteration hands a window to WebRTC. */
  predicate Delivers(i: Input) { i.recording && i.send }

  function Current(c: Capture): seq<Byte>
    requires c.streams != []
  {
    c.streams[|c.streams| - 1]
  }

  function Conn(c: Capture): nat
    requires c.streams != []
  {
    |c.streams| - 1
  }

  function Accept(s: State, i: Input): State
    requires s.capture.streams != []
  {
    if !s.connected && i.accept.NewPeer? then
      var c := s.capture;
      State(true, Playout([], [], [], []),
            Capture([], c.streams + [[]], 0,
                    c.fates + [Fate(Conn(c), c.taken, |Current(c)|, Cleared)]))
    else s
  }

  function Queue(p: Playout, pulled: seq<Sample>): Playout
  {
    var buf := p.buf + Encode(pulled);
    var amount := Overflow(|buf|, MAX_BUFFERED);
    Playout(Cap(buf, MAX_BUFFERED), p.queued + pulled, p.wire,
            if amount == 0 then p.drops else p.drops + [Drop(|p.wire|, amount)])
  }

  function Pull(s: State, i: Input): State
  {
    if i.playing && s.connected then s.(playout := Queue(s.playout, i.pulled)) else s
  }

  function Send(p: Playout, n: nat): Playout
    requires n <= |p.buf|
  {
    p.(buf := p.buf[n..], wire := p.wire + p.buf[..n])
  }

  function Drain(s: State, i: Input): State
  {
    if s.connected && s.playout.buf != [] then
      var n := |s.playout.buf|;
      State(!WriteFails(n, i.writes), Send(s.playout, Written(n, i.writes)), s.capture)
    else s
  }

  function Receive(c: Capture, got: seq<Byte>): Capture
    requires c.streams != []
  {
    var buf := AfterFill(c.buf, got, MAX_BUFFERED);
    var dropped := |c.buf| + |got| - |buf|;
    Capture(buf, c.streams[Conn(c) := Current(c) + got], c.taken + dropped,
            if dropped == 0 then c.fates
            else c.fates + [Fate(Conn(c), c.taken, c.taken + dropped, CapDropped)])
  }

  function Fill(s: State, i: Input): State
    requires s.capture.streams != []
  {
    if s.connected then
      State(Ending(i.answers).Drained?, s.playout, Receive(s.capture, Received(i.answers)))
    else s
  }

  function Take(c: Capture): Capture
    requires c.streams != []
  {
    var n := 2 * Available(c.buf);
    Capture(AfterWindow(c.buf), c.streams, c.taken + n,
            c.fates + [Fate(Conn(c), c.taken, c.taken + n, Pushed(Window(c.buf)))])
  }

  function Deliver(s: State, i: Input): State
    requires s.capture.streams != []
  {
    if Delivers(i) then s.(capture := Take(s.capture)) else s
  }

  /** The part of an iteration up to and including `fill_capture`. */
  function UpToFill(s: State, i: Input): (r: State)
    requires s.capture.streams != []
    ensures r.capture.streams != []
  {
    Fill(Drain(Pull(Accept(s, i), i), i), i)
  }

  function Tick(s: State, i: Input): (r: State)
    requires s.capture.streams != []
    ensures r.capture.streams != []
  {
    Deliver(UpToFill(s, i), i)
  }

  function RunFrom(s: State, inputs: seq<Input>): (r: State)
    requires s.capture.streams != []
    ensures r.capture.streams != []
  {
    if inputs == [] then s else Tick(RunFrom(s, inputs[..|inputs| - 1]), inputs[|inputs| - 1])
  }

  /** The device after a whole run: any inputs, any number of iterations. */
  function Run(inputs: seq<Input>): (r: State)
    ensures r.capture.streams != []
  {
    RunFrom(INITIAL, inputs)
  }

  lemma RunOneMore(inputs: seq<Input>, i: Input)
    ensures Run(inputs + [i]) == Tick(Run(inputs), i)
  {
    assert (inputs + [i])[..|inputs + [i]| - 1] == inputs;
  }

  lemma {:induction false} RunFromConcat(s: State, a: seq<Input>, b: seq<Input>)
    requires s.capture.streams != []
    ensures RunFrom(s, a + b) == RunFrom(RunFrom(s, a), b)
  {
    if b == [] {
      assert a + b == a;
    } else {
      assert (a + b)[..|a + b| - 1] == a + b[..|b| - 1];
      RunFromConcat(s, a, b[..|b| - 1]);
    }
  }
}
