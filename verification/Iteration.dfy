/** What one iteration of the clock loop does, said in terms of what it observes. */
module Iteration {
  import opened Bytes
  import opened Pcm
  import opened PipeBuffers
  import opened Device

  /** A peer is there for the audio part of the iteration: it was before, or one has just come. */
  predicate PeerPresent(s: State, i: Input) { s.connected || i.accept == NewPeer }

  /**
   * A connection begins exactly when no peer was there and one has come. Pulled samples are
   * queued exactly if `playing` was seen and a peer is there, behind what its connection was
   * sent before. A new connection begins with no buffered byte and nothing queued or written.
   */
  lemma PeerAndQueue(s: State, i: Input)
    requires s.capture.streams != []
    ensures var r := Tick(s, i);
            var begins := !s.connected && i.accept == NewPeer;
            && |r.capture.streams| == |s.capture.streams| + (if begins then 1 else 0)
            && r.playout.queued == (if begins then [] else s.playout.queued)
                                   + (if i.playing && PeerPresent(s, i) then i.pulled else [])
            && (begins ==> Accept(s, i).playout == Playout([], [], [], []) && Accept(s, i).capture.buf == [])
            && (!begins ==> s.playout.wire <= r.playout.wire)
            && (!PeerPresent(s, i) ==> r.playout == s.playout && r.capture.streams == s.capture.streams)
  {
    hide Cap, AfterFill, Window, AfterWindow, Encode;
  }

  /** What of the playout buffer is offered to the peer in this iteration. */
  function Offered(s: State, i: Input): seq<Byte>
    requires s.capture.streams != []
  {
    Pull(Accept(s, i), i).playout.buf
  }

  /**
   * Where the socket's answers are `taken` up to its first refusal and its reads `brought` up
   * to the first that brings nothing: the peer is sent the oldest bytes as far as they were
   * taken, and the connection is given up exactly if the refusal is an error met with bytes
   * still to send, or the reads end in anything but "would block".
   */
  lemma PeerStays(s: State, i: Input, taken: seq<WriteResult>, refusal: seq<WriteResult>,
                  brought: seq<ReadResult>, end: seq<ReadResult>)
    requires s.capture.streams != [] && PeerPresent(s, i)
    requires AllTaken(taken) && (refusal == [] || !AllTaken(refusal[..1])) && i.writes == taken + refusal
    requires AllBring(brought) && (end == [] || !AllBring(end[..1])) && i.answers == brought + end
    ensures var r := Tick(s, i);
            var start, n := Accept(s, i), |Offered(s, i)|;
            var lost := refusal != [] && refusal[0] == WriteError && Rooms(taken) < n;
            && r.playout.wire == start.playout.wire + Offered(s, i)[..Min(n, Rooms(taken))]
            && r.playout.buf == Offered(s, i)[Min(n, Rooms(taken))..]
            && Current(r.capture) == Current(start.capture) + (if lost then [] else Chunks(brought))
            && (r.connected <==> !lost && (end == [] || end[0] == ReadWouldBlock))
  {
    hide Accept, Pull, Queue, Drain, Fill, Receive, Take, Rooms, Chunks, AllTaken, AllBring;
    PullKeepsPeer(s, i);
    Sends(Pull(Accept(s, i), i), i, taken, refusal);
    Reads(Drain(Pull(Accept(s, i), i), i), i, brought, end);
    DeliveryKeepsRest(UpToFill(s, i), i);
  }

  lemma PullKeepsPeer(s: State, i: Input)
    requires s.capture.streams != [] && PeerPresent(s, i)
    ensures var start, r := Accept(s, i), Pull(Accept(s, i), i);
            && r.connected && r.capture == start.capture && r.playout.wire == start.playout.wire
            && r.capture.streams != []
  {
    hide Cap, Encode;
  }

  lemma DeliveryKeepsRest(s: State, i: Input)
    requires s.capture.streams != []
    ensures var r := Deliver(s, i);
            r.connected == s.connected && r.playout == s.playout && r.capture.streams == s.capture.streams
  {
    hide Window, AfterWindow;
  }

  lemma Sends(s: State, i: Input, taken: seq<WriteResult>, refusal: seq<WriteResult>)
    requires s.connected
    requires AllTaken(taken) && (refusal == [] || !AllTaken(refusal[..1])) && i.writes == taken + refusal
    ensures var r := Drain(s, i);
            var n, got := |s.playout.buf|, Rooms(taken);
            && r.playout.wire == s.playout.wire + s.playout.buf[..Min(n, got)]
            && r.playout.buf == s.playout.buf[Min(n, got)..] && r.capture == s.capture
            && (r.connected <==> !(refusal != [] && refusal[0] == WriteError && got < n))
  {
    hide Room, RefusesWithError, Rooms;
    UpToFirstRefusal(taken, refusal);
  }

  lemma Reads(s: State, i: Input, brought: seq<ReadResult>, end: seq<ReadResult>)
    requires s.capture.streams != []
    requires AllBring(brought) && (end == [] || !AllBring(end[..1])) && i.answers == brought + end
    ensures var r := Fill(s, i);
            && r.playout == s.playout
            && Current(r.capture) == Current(s.capture) + (if s.connected then Chunks(brought) else [])
            && (r.connected <==> s.connected && (end == [] || end[0] == ReadWouldBlock))
  {
    hide AfterFill, Received, Ending, Chunks;
    UpToFirstEnd(brought, end);
  }

  /**
   * What is offered is what was left over and then the pulled samples; if that is more than
   * the cap, whole samples are missing at the front and 7680 bytes, or 7681, are left.
   */
  lemma OfferedIsNewest(s: State, i: Input)
    requires s.capture.streams != []
    ensures var left := if s.connected then s.playout.buf else [];
            var all := left + Encode(i.pulled);
            PeerPresent(s, i) && i.playing ==>
              exists d: nat ::
                && d <= |all| && d % 2 == 0 && Offered(s, i) == all[d..]
                && (|all| <= 7680 ==> d == 0) && (|all| > 7680 ==> 7680 <= |all| - d <= 7681)
    ensures var left := if s.connected then s.playout.buf else [];
            PeerPresent(s, i) && !i.playing ==> Offered(s, i) == left
  {
    hide Encode;
    var left := if s.connected then s.playout.buf else [];
    var all := left + Encode(i.pulled);
    var d := Overflow(|all|, MAX_BUFFERED);
    assert d <= |all| && d % 2 == 0 && Cap(all, MAX_BUFFERED) == all[d..];
  }

  /** Over every run neither buffer ever holds more than one byte over the cap. */
  lemma {:induction false} BuffersBounded(inputs: seq<Input>)
    ensures |Run(inputs).playout.buf| <= 7681 && |Run(inputs).capture.buf| <= 7681
  {
    hide Tick;
    if inputs != [] {
      BuffersBounded(inputs[..|inputs| - 1]);
      TickBounded(Run(inputs[..|inputs| - 1]), inputs[|inputs| - 1]);
    }
  }

  lemma TickBounded(s: State, i: Input)
    requires s.capture.streams != [] && |s.playout.buf| <= 7681 && |s.capture.buf| <= 7681
    ensures |Tick(s, i).playout.buf| <= 7681 && |Tick(s, i).capture.buf| <= 7681
  {
    hide Encode, Window, Room, RefusesWithError, Received, Ending;
  }

  /**
   * What is pushed is the oldest audio, that read in this very iteration included: if all of
   * it fits the cap, the window holds its first samples and silence behind them, and just
   * these samples leave the buffer; with either flag unset nothing leaves it.
   */
  lemma WindowIsOldest(s: State, i: Input, taken: seq<WriteResult>, refusal: seq<WriteResult>,
                       brought: seq<ReadResult>, end: seq<ReadResult>, all: seq<Byte>)
    requires s.capture.streams != [] && PeerPresent(s, i)
    requires AllTaken(taken) && (refusal == [] || !AllTaken(refusal[..1])) && i.writes == taken + refusal
    requires AllBring(brought) && (end == [] || !AllBring(end[..1])) && i.answers == brought + end
    requires var lost := refusal != [] && refusal[0] == WriteError && Rooms(taken) < |Offered(s, i)|;
             all == Accept(s, i).capture.buf + (if lost then [] else Chunks(brought)) && |all| <= 7680
    ensures var r := Tick(s, i).capture;
            var n := if |all| < 960 then |all| / 2 else 480;
            if i.recording && i.send then
              && r.buf == all[2 * n..] && r.fates != [] && r.fates[|r.fates| - 1].reason.Pushed?
              && var w := r.fates[|r.fates| - 1].reason.window;
                 && |w| == 480 && (forall k :: n <= k < 480 ==> w[k] == 0)
                 && forall k :: 0 <= k < n ==> w[k] == FromLe(all[2 * k], all[2 * k + 1])
            else r.buf == all
  {
    UpToFirstRefusal(taken, refusal);
    UpToFirstEnd(brought, end);
    BufferIsAll(s, i, all);
    hide UpToFill, Room, RefusesWithError, Received, Ending, Rooms, Chunks;
    WindowHolds(all);
  }

  lemma BufferIsAll(s: State, i: Input, all: seq<Byte>)
    requires s.capture.streams != [] && PeerPresent(s, i) && |all| <= 7680
    requires var lost := RefusesWithError(i.writes) && Room(i.writes) < |Offered(s, i)|;
             all == Accept(s, i).capture.buf + if lost then [] else Received(i.answers)
    ensures UpToFill(s, i).capture.buf == all
  {
    hide Encode, Room, RefusesWithError, Received, Ending;
  }

  lemma WindowHolds(all: seq<Byte>)
    ensures var n := if |all| < 960 then |all| / 2 else 480;
            var w := Window(all);
            && AfterWindow(all) == all[2 * n..] && (forall k :: n <= k < 480 ==> w[k] == 0)
            && forall k :: 0 <= k < n ==> w[k] == FromLe(all[2 * k], all[2 * k + 1])
  {
  }
}
