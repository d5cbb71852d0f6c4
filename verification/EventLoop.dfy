/** The main loop: it turns control messages into calls on the call manager. */
module EventLoop {
  import opened Bytes
  import opened Commands
  import Stdout
  import opened Options

  datatype Config = Config(callId: U64, localDevice: U32)

  /** What the library answers while one message is handled; `failure` is the manager's error. */
  datatype Outcome =
    Outcome(audioTrack: bool, videoSource: bool, videoTrack: bool, signal: bool, failure: Option<string>)

  const ALL_WELL := Outcome(true, true, true, true, None)

  datatype Call =
    | CreateOutgoingCall(peer: string, callId: U64, localDevice: U32)
    | Proceed(callId: U64, servers: seq<IceServer>, hideIp: bool)
    | ReceivedOffer(peer: string, callId: U64, offer: seq<Byte>, age: U64, senderDevice: U32, receiverDevice: U32,
                    senderKey: seq<Byte>, receiverKey: seq<Byte>)
    | ReceivedAnswer(peer: string, callId: U64, answer: seq<Byte>, senderDevice: U32,
                     senderKey: seq<Byte>, receiverKey: seq<Byte>)
    | ReceivedIce(peer: string, callId: U64, candidates: seq<seq<Byte>>, senderDevice: U32)
    | AcceptCall(callId: U64)
    | Hangup

  /** One call, with the number of the message that caused it. */
  datatype Entry = Entry(index: nat, call: Call)

  datatype Loop = Loop(peer: string, handled: nat, calls: seq<Entry>, lines: seq<Stdout.Line>)

  const START := Loop("remote", 0, [], [])

  // ----- one message -----

  /** Does handling get as far as the call manager? */
  predicate Reaches(m: ControlMessage, o: Outcome)
  {
    match m
    case Proceed(_, _, _) => o.audioTrack && o.videoSource && o.videoTrack
    case ReceivedOffer(_, _, _, _, _, _, _) => o.signal
    case ReceivedAnswer(_, _, _, _) => o.signal
    case _ => true
  }

  /** The call a message asks for while `peer` is the active one. */
  function CallOf(c: Config, peer: string, m: ControlMessage): Call
  {
    match m
    case CreateOutgoingCall(id, p) => Call.CreateOutgoingCall(p, id, c.localDevice)
    case Proceed(id, servers, hideIp) => Call.Proceed(id, servers, hideIp)
    case ReceivedOffer(id, p, device, offer, age, senderKey, receiverKey) =>
      Call.ReceivedOffer(p, id, offer, age, device, c.localDevice, senderKey, receiverKey)
    case ReceivedAnswer(answer, device, senderKey, receiverKey) =>
      Call.ReceivedAnswer(peer, c.callId, answer, device, senderKey, receiverKey)
    case ReceivedIce(candidates, device) => Call.ReceivedIce(peer, c.callId, candidates, device)
    case Accept => AcceptCall(c.callId)
    case Hangup => Call.Hangup
  }

  /** Only a failed creation and a failed proceed are reported to the parent. */
  function Reported(m: ControlMessage, o: Outcome): seq<Stdout.Line>
  {
    if !Reaches(m, o) || o.failure.None? then []
    else
      match m
      case CreateOutgoingCall(_, _) => [Stdout.CreateFailed(o.failure.value)]
      case Proceed(_, _, _) => [Stdout.ProceedFailed(o.failure.value)]
      case _ => []
  }

  predicate NamesPeer(m: ControlMessage) { m.CreateOutgoingCall? || m.ReceivedOffer? }

  function Step(c: Config, s: Loop, m: ControlMessage, o: Outcome): Loop
  {
    Loop(if NamesPeer(m) then m.peer else s.peer,
         s.handled + 1,
         s.calls + (if Reaches(m, o) then [Entry(s.handled, CallOf(c, s.peer, m))] else []),
         s.lines + Reported(m, o))
  }

  function At(outcomes: seq<Outcome>, i: nat): Outcome { if i < |outcomes| then outcomes[i] else ALL_WELL }

  /** The loop after these messages; `outcomes` is what the library answers, message by message. */
  function Fold(c: Config, ms: seq<ControlMessage>, outcomes: seq<Outcome>): (r: Loop)
    ensures r.handled == |ms|
  {
    if ms == [] then START
    else Step(c, Fold(c, ms[..|ms| - 1], outcomes), ms[|ms| - 1], At(outcomes, |ms| - 1))
  }

  lemma FoldSnoc(c: Config, ms: seq<ControlMessage>, m: ControlMessage, outcomes: seq<Outcome>)
    ensures Fold(c, ms + [m], outcomes) == Step(c, Fold(c, ms, outcomes), m, At(outcomes, |ms|))
  {
    assert (ms + [m])[..|ms|] == ms;
  }

  // ----- the loop, changing its variables in place -----

  /** What one turn of the loop finds: the termination flag, or the result of a timed receive. */
  datatype Poll = Sigterm | Message(m: ControlMessage) | TimedOut | Disconnected

  /** The messages handled: up to termination, disconnection or the first hangup. */
  function Got(polls: seq<Poll>): seq<ControlMessage>
  {
    if polls == [] then []
    else
      match polls[0]
      case Sigterm => []
      case Disconnected => []
      case TimedOut => Got(polls[1..])
      case Message(m) => if m.Hangup? then [m] else [m] + Got(polls[1..])
  }

  /** What one turn adds to the messages handled before it. */
  lemma GotTurn(polls: seq<Poll>, i: nat, done: seq<ControlMessage>)
    requires i < |polls|
    ensures var all, rest := done + Got(polls[i..]), Got(polls[i + 1..]);
            match polls[i]
            case Sigterm => all == done
            case Disconnected => all == done
            case TimedOut => all == done + rest
            case Message(m) => all == if m.Hangup? then done + [m] else done + [m] + rest
  {
    assert polls[i..][1..] == polls[i + 1..];
    var all, rest := Got(polls[i..]), Got(polls[i + 1..]);
    match polls[i]
    case Message(m) => assert !m.Hangup? ==> done + ([m] + rest) == done + [m] + rest;
    case _ =>
  }

  lemma NothingMoreGot(polls: seq<Poll>, done: seq<ControlMessage>)
    ensures done + Got(polls[|polls|..]) == done
  {
  }

  class Tunnel {
    const config: Config
    var activePeer: string
    var handled: nat
    var calls: seq<Entry>
    var lines: seq<Stdout.Line>

    constructor (config: Config)
      ensures this.config == config && Contents() == START
    {
      this.config := config;
      activePeer, handled, calls, lines := "remote", 0, [], [];
    }

    ghost function Contents(): Loop
      reads this
    {
      Loop(activePeer, handled, calls, lines)
    }

    method Make(call: Call)
      modifies this`calls
      ensures calls == old(calls) + [Entry(handled, call)]
    {
      calls := calls + [Entry(handled, call)];
    }

    method SendLine(line: Stdout.Line)
      modifies this`lines
      ensures lines == old(lines) + [line]
    {
      lines := lines + [line];
    }

    /** One message, with every early `continue` of the source. */
    method Dispatch(m: ControlMessage, o: Outcome)
      modifies this
      ensures Contents() == Step(config, old(Contents()), m, o).(handled := old(handled))
    {
      match m
      case CreateOutgoingCall(id, p) =>
        activePeer := p;
        Make(Call.CreateOutgoingCall(p, id, config.localDevice));
        if o.failure.Some? {
          SendLine(Stdout.CreateFailed(o.failure.value));
        }
      case Proceed(id, servers, hideIp) =>
        if !o.audioTrack {
          return;
        }
        if !o.videoSource {
          return;
        }
        if !o.videoTrack {
          return;
        }
        Make(Call.Proceed(id, servers, hideIp));
        if o.failure.Some? {
          SendLine(Stdout.ProceedFailed(o.failure.value));
        }
      case ReceivedOffer(id, p, device, offer, age, senderKey, receiverKey) =>
        activePeer := p;
        if !o.signal {
          return;
        }
        Make(Call.ReceivedOffer(p, id, offer, age, device, config.localDevice, senderKey, receiverKey));
      case ReceivedAnswer(answer, device, senderKey, receiverKey) =>
        if !o.signal {
          return;
        }
        Make(Call.ReceivedAnswer(activePeer, config.callId, answer, device, senderKey, receiverKey));
      case ReceivedIce(candidates, device) => Make(Call.ReceivedIce(activePeer, config.callId, candidates, device));
      case Accept => Make(AcceptCall(config.callId));
      case Hangup => Make(Call.Hangup);
    }

    /** The event loop over what each turn finds; it ends early at the end of `polls`. */
    method Serve(polls: seq<Poll>, outcomes: seq<Outcome>)
      requires Contents() == START
      modifies this
      ensures Contents() == Fold(config, Got(polls), outcomes)
    {
      hide Step, Reaches, CallOf, Reported, Got;
      ghost var done: seq<ControlMessage> := [];
      var i := 0;
      while i < |polls|
        invariant 0 <= i <= |polls|
        invariant Contents() == Fold(config, done, outcomes)
        invariant done + Got(polls[i..]) == Got(polls)
      {
        GotTurn(polls, i, done);
        match polls[i] {
          case Sigterm => break;
          case Disconnected => break;
          case TimedOut =>
          case Message(m) =>
            FoldSnoc(config, done, m, outcomes);
            DispatchCounts(config, Fold(config, done, outcomes), m, At(outcomes, |done|));
            Dispatch(m, At(outcomes, handled));
            handled := handled + 1;
            done := done + [m];
            if m.Hangup? {
              break;
            }
        }
        i := i + 1;
      }
      NothingMoreGot(polls, done);
    }
  }

  lemma DispatchCounts(c: Config, s: Loop, m: ControlMessage, o: Outcome)
    ensures Step(c, s, m, o).handled == s.handled + 1
  {
  }

  // ----- the reader -----

  /** One line of standard input; an unreadable one ends the reading. */
  datatype StdinLine = Blank | Malformed | Parsed(v: Value) | Unreadable

  function MessageOf(line: StdinLine): seq<ControlMessage>
  {
    if !line.Parsed? then []
    else match ParseMessage(line.v) case None => [] case Some(m) => [m]
  }

  function CommandsOf(input: seq<StdinLine>): seq<ControlMessage>
  {
    if input == [] || input[0].Unreadable? then []
    else MessageOf(input[0]) + CommandsOf(input[1..])
  }

  /**
   * The reader's loop. `room` is how many sends succeed before the main loop has returned and
   * dropped its end of the channel; the first send that fails ends the reading.
   */
  method ReadCommands(input: seq<StdinLine>, room: nat) returns (sent: seq<ControlMessage>)
    ensures sent <= CommandsOf(input)
    ensures |sent| == if room < |CommandsOf(input)| then room else |CommandsOf(input)|
  {
    hide ParseMessage, CommandsOf;
    sent := [];
    var i := 0;
    while i < |input|
      invariant 0 <= i <= |input| && |sent| <= room
      invariant sent + CommandsOf(input[i..]) == CommandsOf(input)
    {
      var line := input[i];
      LineAdds(input, i, sent);
      if line.Unreadable? { return; }
      i := i + 1;
      if line.Parsed? {
        match ParseMessage(line.v)
        case None =>
        case Some(m) =>
          if |sent| == room { return; }
          sent := sent + [m];
      }
    }
    NothingMoreSent(input, sent);
  }

  /** What one line adds to the commands passed on before it. */
  lemma LineAdds(input: seq<StdinLine>, i: nat, sent: seq<ControlMessage>)
    requires i < |input|
    ensures sent + CommandsOf(input[i..])
            == if input[i].Unreadable? then sent else sent + MessageOf(input[i]) + CommandsOf(input[i + 1..])
    ensures sent + [] == sent
  {
    hide MessageOf;
    assert input[i..][1..] == input[i + 1..];
  }

  lemma NothingMoreSent(input: seq<StdinLine>, sent: seq<ControlMessage>)
    ensures sent + CommandsOf(input[|input|..]) == sent
  {
  }

  /**
   * Up to the first unreadable line each line counts in its place: a command is passed on,
   * blank, malformed and unknown lines are passed over.
   */
  lemma {:induction false} LineCounts(a: seq<StdinLine>, line: StdinLine, b: seq<StdinLine>)
    requires Unreadable !in a
    ensures CommandsOf(a + [line] + b)
            == CommandsOf(a) + match line
                               case Unreadable => []
                               case Blank => CommandsOf(b)
                               case Malformed => CommandsOf(b)
                               case Parsed(v) =>
                                 (match ParseMessage(v) case Some(m) => [m] case None => []) + CommandsOf(b)
  {
    hide *;
    var all := a + [line] + b;
    if a == [] {
      assert all == [line] + b;
      FirstLineCounts(line, b);
    } else {
      assert all[0] == a[0] && all[1..] == a[1..] + [line] + b;
      LineCounts(a[1..], line, b);
      CommandsFront(a);
      CommandsFront(all);
      var m, front := MessageOf(a[0]), CommandsOf(a[1..]);
      assert forall rest: seq<ControlMessage> :: m + (front + rest) == (m + front) + rest;
    }
  }

  lemma FirstLineCounts(line: StdinLine, b: seq<StdinLine>)
    ensures CommandsOf([line] + b)
            == match line
               case Unreadable => []
               case Blank => CommandsOf(b)
               case Malformed => CommandsOf(b)
               case Parsed(v) => (match ParseMessage(v) case Some(m) => [m] case None => []) + CommandsOf(b)
    ensures CommandsOf([]) == []
  {
    hide ParseMessage;
    assert ([line] + b)[1..] == b && [] + CommandsOf(b) == CommandsOf(b);
  }

  lemma CommandsFront(input: seq<StdinLine>)
    requires input != [] && !input[0].Unreadable?
    ensures CommandsOf(input) == MessageOf(input[0]) + CommandsOf(input[1..])
  {
  }

  // ----- what the calls are, read off the messages -----

  /** `k` is the last message before `n` that names a peer. */
  predicate Latest(ms: seq<ControlMessage>, n: nat, k: nat)
    requires n <= |ms|
  {
    && k < n && (ms[k].CreateOutgoingCall? || ms[k].ReceivedOffer?)
    && forall j :: k < j < n ==> !ms[j].CreateOutgoingCall? && !ms[j].ReceivedOffer?
  }

  /** The peer of the latest createOutgoingCall or receivedOffer before message `n`, else "remote". */
  predicate ActivePeer(ms: seq<ControlMessage>, n: nat, peer: string)
    requires n <= |ms|
  {
    if exists k: nat | k < n :: Latest(ms, n, k)
    then exists k: nat | k < n :: Latest(ms, n, k) && ms[k].peer == peer
    else peer == "remote"
  }

  lemma {:induction false} PeerIsLatest(c: Config, ms: seq<ControlMessage>, outcomes: seq<Outcome>)
    ensures ActivePeer(ms, |ms|, Fold(c, ms, outcomes).peer)
  {
    if ms != [] {
      var init, m := ms[..|ms| - 1], ms[|ms| - 1];
      PeerIsLatest(c, init, outcomes);
      if NamesPeer(m) {
        assert Latest(ms, |ms|, |ms| - 1);
      } else {
        forall k: nat | k < |init|
          ensures Latest(ms, |ms|, k) <==> Latest(init, |init|, k)
        {
        }
      }
    }
  }

  /** An entry belongs to these messages: its call is what its message asks for. */
  predicate Justified(c: Config, ms: seq<ControlMessage>, outcomes: seq<Outcome>, e: Entry)
  {
    && e.index < |ms| && Reaches(ms[e.index], At(outcomes, e.index))
    && e.call == CallOf(c, Fold(c, ms[..e.index], outcomes).peer, ms[e.index])
  }

  predicate AllJustified(c: Config, ms: seq<ControlMessage>, outcomes: seq<Outcome>, calls: seq<Entry>)
  {
    forall i :: 0 <= i < |calls| ==> Justified(c, ms, outcomes, calls[i])
  }

  predicate InMessageOrder(calls: seq<Entry>)
  {
    forall i, j :: 0 <= i < j < |calls| ==> calls[i].index < calls[j].index
  }

  /** Every message that reaches the call manager has its call. */
  predicate NoneMissing(ms: seq<ControlMessage>, outcomes: seq<Outcome>, calls: seq<Entry>)
  {
    forall k :: 0 <= k < |ms| && Reaches(ms[k], At(outcomes, k)) ==> HasCall(calls, k)
  }

  predicate HasCall(calls: seq<Entry>, k: nat) { exists i :: 0 <= i < |calls| && calls[i].index == k }

  lemma JustifiedLonger(c: Config, ms: seq<ControlMessage>, m: ControlMessage, outcomes: seq<Outcome>, e: Entry)
    requires Justified(c, ms, outcomes, e)
    ensures Justified(c, ms + [m], outcomes, e)
  {
    assert (ms + [m])[..e.index] == ms[..e.index];
  }

  lemma OneMoreCall(ms: seq<ControlMessage>, m: ControlMessage, outcomes: seq<Outcome>,
                    calls: seq<Entry>, more: seq<Entry>)
    requires NoneMissing(ms, outcomes, calls)
    requires Reaches(m, At(outcomes, |ms|)) ==> HasCall(more, |ms|)
    ensures NoneMissing(ms + [m], outcomes, calls + more)
  {
    hide Reaches, At;
    forall k | 0 <= k <= |ms| && Reaches((ms + [m])[k], At(outcomes, k))
      ensures HasCall(calls + more, k)
    {
      if k < |ms| {
        var i :| 0 <= i < |calls| && calls[i].index == k;
        assert (calls + more)[i].index == k;
      } else {
        var i :| 0 <= i < |more| && more[i].index == k;
        assert (calls + more)[|calls| + i].index == k;
      }
    }
  }

  /** Each message that gets that far makes one call, calls are in message order, and no other is made. */
  lemma {:induction false} CallsFollowMessages(c: Config, ms: seq<ControlMessage>, outcomes: seq<Outcome>)
    ensures AllJustified(c, ms, outcomes, Fold(c, ms, outcomes).calls)
    ensures InMessageOrder(Fold(c, ms, outcomes).calls)
    ensures NoneMissing(ms, outcomes, Fold(c, ms, outcomes).calls)
  {
    hide Reaches, CallOf, Reported, At, NoneMissing, Justified, HasCall;
    if ms == [] {
      NothingMissing(outcomes);
    } else {
      var init, m := ms[..|ms| - 1], ms[|ms| - 1];
      assert init + [m] == ms;
      CallsFollowMessages(c, init, outcomes);
      LastCall(c, init, m, outcomes);
    }
  }

  lemma NothingMissing(outcomes: seq<Outcome>)
    ensures NoneMissing([], outcomes, [])
  {
  }

  lemma LastCall(c: Config, ms: seq<ControlMessage>, m: ControlMessage, outcomes: seq<Outcome>)
    requires var calls := Fold(c, ms, outcomes).calls;
             AllJustified(c, ms, outcomes, calls) && InMessageOrder(calls) && NoneMissing(ms, outcomes, calls)
    ensures var calls := Fold(c, ms + [m], outcomes).calls;
            && AllJustified(c, ms + [m], outcomes, calls) && InMessageOrder(calls)
            && NoneMissing(ms + [m], outcomes, calls)
  {
    hide Reported, At, NoneMissing, HasCall, Fold, CallOf, Reaches;
    var calls, o := Fold(c, ms, outcomes).calls, At(outcomes, |ms|);
    FoldSnoc(c, ms, m, outcomes);
    var e := Entry(|ms|, CallOf(c, Fold(c, ms, outcomes).peer, m));
    var more := if Reaches(m, o) then [e] else [];
    if Reaches(m, o) {
      assert (ms + [m])[..|ms|] == ms;
      HasIts(e);
    }
    forall i | 0 <= i < |calls|
      ensures Justified(c, ms + [m], outcomes, calls[i])
    {
      JustifiedLonger(c, ms, m, outcomes, calls[i]);
    }
    OneMoreCall(ms, m, outcomes, calls, more);
  }

  lemma HasIts(e: Entry)
    ensures HasCall([e], e.index)
  {
    assert [e][0].index == e.index;
  }

  /**
   * Every answer and ICE call carries the peer of the latest createOutgoingCall or
   * receivedOffer before it, successful or not, or "remote"; and the configured call id.
   */
  lemma AnswerAndIcePeer(c: Config, ms: seq<ControlMessage>, outcomes: seq<Outcome>, i: nat)
    requires i < |Fold(c, ms, outcomes).calls|
    requires var call := Fold(c, ms, outcomes).calls[i].call; call.ReceivedAnswer? || call.ReceivedIce?
    ensures var e := Fold(c, ms, outcomes).calls[i];
            && e.index < |ms| && ActivePeer(ms, e.index, e.call.peer) && e.call.callId == c.callId
  {
    CallsFollowMessages(c, ms, outcomes);
    var e := Fold(c, ms, outcomes).calls[i];
    assert Justified(c, ms, outcomes, e);
    PeerIsLatest(c, ms[..e.index], outcomes);
    PrefixPeer(ms, e.index, e.call.peer);
  }

  /**
   * The messages can be read back off the calls: each call is of its message's kind and
   * carries that message's own fields; the configured call id and device fill in the rest,
   * and answers and ICE go to the active peer.
   */
  lemma CallsCarryMessages(c: Config, ms: seq<ControlMessage>, outcomes: seq<Outcome>, i: nat)
    requires i < |Fold(c, ms, outcomes).calls|
    ensures var e := Fold(c, ms, outcomes).calls[i];
            && e.index < |ms|
            && match e.call
               case CreateOutgoingCall(peer, id, device) =>
                 ms[e.index] == ControlMessage.CreateOutgoingCall(id, peer) && device == c.localDevice
               case Proceed(id, servers, hideIp) => ms[e.index] == ControlMessage.Proceed(id, servers, hideIp)
               case ReceivedOffer(peer, id, offer, age, sender, receiver, senderKey, receiverKey) =>
                 && ms[e.index] == ControlMessage.ReceivedOffer(id, peer, sender, offer, age, senderKey, receiverKey)
                 && receiver == c.localDevice
               case ReceivedAnswer(peer, id, answer, sender, senderKey, receiverKey) =>
                 && ms[e.index] == ControlMessage.ReceivedAnswer(answer, sender, senderKey, receiverKey)
                 && ActivePeer(ms, e.index, peer) && id == c.callId
               case ReceivedIce(peer, id, candidates, sender) =>
                 && ms[e.index] == ControlMessage.ReceivedIce(candidates, sender)
                 && ActivePeer(ms, e.index, peer) && id == c.callId
               case AcceptCall(id) => ms[e.index] == Accept && id == c.callId
               case Hangup => ms[e.index] == ControlMessage.Hangup
  {
    hide Fold, ActivePeer, Reaches;
    CallsFollowMessages(c, ms, outcomes);
    var e := Fold(c, ms, outcomes).calls[i];
    assert Justified(c, ms, outcomes, e);
    if e.call.ReceivedAnswer? || e.call.ReceivedIce? {
      AnswerAndIcePeer(c, ms, outcomes, i);
    }
  }

  /**
   * Which messages make a call: a proceed whose tracks and source could all be made, an offer
   * or answer whose signaling message could be built, and every message of the other kinds.
   */
  lemma CallMadeIff(c: Config, ms: seq<ControlMessage>, outcomes: seq<Outcome>, k: nat)
    requires k < |ms|
    ensures var calls := Fold(c, ms, outcomes).calls;
            var o := if k < |outcomes| then outcomes[k] else ALL_WELL;
            (exists i :: 0 <= i < |calls| && calls[i].index == k)
            <==> (ms[k].Proceed? ==> o.audioTrack && o.videoSource && o.videoTrack)
                 && (ms[k].ReceivedOffer? || ms[k].ReceivedAnswer? ==> o.signal)
  {
    hide Fold, CallOf;
    CallsFollowMessages(c, ms, outcomes);
    var calls := Fold(c, ms, outcomes).calls;
    assert HasCall(calls, k) <==> exists i :: 0 <= i < |calls| && calls[i].index == k;
    if i :| 0 <= i < |calls| && calls[i].index == k {
      assert Justified(c, ms, outcomes, calls[i]);
    }
  }

  /**
   * Only a creation, or a proceed that got as far as the call manager, is reported when the
   * manager refuses it, as its own kind of line and with the manager's reason.
   */
  lemma FailureReported(c: Config, ms: seq<ControlMessage>, m: ControlMessage, outcomes: seq<Outcome>)
    ensures var o := if |ms| < |outcomes| then outcomes[|ms|] else ALL_WELL;
            var before, after := Fold(c, ms, outcomes).lines, Fold(c, ms + [m], outcomes).lines;
            && (m.CreateOutgoingCall? && o.failure.Some? ==> after == before + [Stdout.CreateFailed(o.failure.value)])
            && (m.Proceed? && o.audioTrack && o.videoSource && o.videoTrack && o.failure.Some? ==>
                  after == before + [Stdout.ProceedFailed(o.failure.value)])
            && (after == before <==> o.failure.None? || !(m.CreateOutgoingCall? || m.Proceed?)
                                     || (m.Proceed? && !(o.audioTrack && o.videoSource && o.videoTrack)))
  {
    hide CallOf, Fold;
    FoldSnoc(c, ms, m, outcomes);
  }

  // ----- which messages are handled -----

  /** A turn after which the loop goes on. */
  predicate GoesOn(p: Poll) { p == TimedOut || (p.Message? && !p.m.Hangup?) }

  /** How many messages these turns receive. */
  function MessagesIn(polls: seq<Poll>): nat
  {
    if polls == [] then 0 else MessagesIn(polls[..|polls| - 1]) + if polls[|polls| - 1].Message? then 1 else 0
  }

  lemma {:induction false} MessagesInFront(polls: seq<Poll>)
    requires polls != []
    ensures MessagesIn(polls) == (if polls[0].Message? then 1 else 0) + MessagesIn(polls[1..])
  {
    if |polls| > 1 {
      var init := polls[..|polls| - 1];
      MessagesInFront(init);
      assert polls[1..][..|polls| - 2] == init[1..];
    }
  }

  /**
   * The loop handles message `k` of the polls exactly if no turn before it ended the loop; it
   * is then handled in its place, after the messages before it and no others.
   */
  lemma {:induction false} HandledUntilEnd(polls: seq<Poll>, k: nat)
    requires k < |polls| && polls[k].Message?
    ensures (forall j :: 0 <= j < k ==> GoesOn(polls[j])) ==>
              MessagesIn(polls[..k]) < |Got(polls)| && Got(polls)[MessagesIn(polls[..k])] == polls[k].m
    ensures !(forall j :: 0 <= j < k ==> GoesOn(polls[j])) ==> |Got(polls)| <= MessagesIn(polls[..k])
    decreases k
  {
    if k > 0 {
      HandledUntilEnd(polls[1..], k - 1);
      MessagesInFront(polls[..k]);
      assert polls[..k][1..] == polls[1..][..k - 1];
      assert forall j :: 0 <= j < k - 1 ==> polls[1..][j] == polls[j + 1];
    }
  }

  lemma {:induction false} NothingElseHandled(polls: seq<Poll>)
    ensures |Got(polls)| <= MessagesIn(polls)
  {
    if polls != [] {
      NothingElseHandled(polls[1..]);
      MessagesInFront(polls);
    }
  }

  lemma PrefixPeer(ms: seq<ControlMessage>, n: nat, peer: string)
    requires n <= |ms| && ActivePeer(ms[..n], n, peer)
    ensures ActivePeer(ms, n, peer)
  {
    hide Latest;
    forall k: nat | k < n
      ensures Latest(ms, n, k) <==> Latest(ms[..n], n, k)
    {
      PrefixLatest(ms, n, k);
    }
  }

  lemma PrefixLatest(ms: seq<ControlMessage>, n: nat, k: nat)
    requires n <= |ms|
    ensures Latest(ms, n, k) <==> Latest(ms[..n], n, k)
  {
    assert forall j :: 0 <= j < n ==> ms[..n][j] == ms[j];
  }
}
