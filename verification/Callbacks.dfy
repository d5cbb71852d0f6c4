/** The library's callbacks: each signaling message and call state becomes one event. */
module Callbacks {
  import opened Bytes
  import opened Json
  import opened Platform
  import opened Options

  /** `{:?}` of the reasons and hangup types is library text; it stands here as given. */
  datatype CallState =
    | Incoming(media: MediaType) | Outgoing(media: MediaType)
    | Ringing | Connected | Connecting
    | Ended(reason: string) | Rejected(reason: string)
    | Concluded

  datatype Signal =
    | Offer(opaqueData: seq<Byte>, media: MediaType)
    | Answer(opaqueData: seq<Byte>)
    | Ice(candidates: seq<seq<Byte>>)
    | HangupSignal(typeName: string)
    | Busy

  function LowerChar(c: char): char { if 'A' <= c <= 'Z' then (c as int + 32) as char else c }

  /** `to_lowercase` on the ASCII names the library prints. */
  function Lower(s: string): (r: string)
    ensures |r| == |s|
  {
    seq(|s|, i requires 0 <= i < |s| => LowerChar(s[i]))
  }

  function DebugMedia(m: MediaType): string { if m.Audio? then "Audio" else "Video" }

  /** What `send_signaling` posts. */
  function SignalEvent(id: CallId, m: Signal): PlatformEvent
  {
    SendSignaling(id,
      match m
      case Offer(data, media) => SendOffer(data, media)
      case Answer(data) => SendAnswer(data)
      case Ice(candidates) => SendIce(candidates)
      case HangupSignal(typeName) => SendHangup(Lower(typeName))
      case Busy => SendBusy)
  }

  /** What `handle_call_state` posts. */
  function StateEvent(s: CallState): PlatformEvent
  {
    match s
    case Incoming(media) => StateChange("Incoming(" + DebugMedia(media) + ")", None)
    case Outgoing(media) => StateChange("Outgoing(" + DebugMedia(media) + ")", None)
    case Ringing => StateChange("Ringing", None)
    case Connected => StateChange("Connected", None)
    case Connecting => StateChange("Connecting", None)
    case Ended(reason) => StateChange("Ended", Some(reason))
    case Rejected(reason) => StateChange("Rejected", Some(reason))
    case Concluded => StateChange("Concluded", None)
  }

  /** The call state a parent reads off a line. */
  function ReadState(line: string): Option<CallState>
  {
    match ReadEvent(line)
    case Some(StateChange(state, None)) =>
      if state == "Incoming(Audio)" then Some(Incoming(Audio))
      else if state == "Incoming(Video)" then Some(Incoming(Video))
      else if state == "Outgoing(Audio)" then Some(Outgoing(Audio))
      else if state == "Outgoing(Video)" then Some(Outgoing(Video))
      else if state == "Ringing" then Some(Ringing)
      else if state == "Connected" then Some(Connected)
      else if state == "Connecting" then Some(Connecting)
      else if state == "Concluded" then Some(Concluded)
      else None
    case Some(StateChange(state, Some(reason))) =>
      if state == "Ended" then Some(Ended(reason)) else if state == "Rejected" then Some(Rejected(reason)) else None
    case _ => None
  }

  predicate PlainReason(s: CallState)
  {
    match s
    case Ended(reason) => Plain(reason)
    case Rejected(reason) => Plain(reason)
    case _ => true
  }

  lemma MediaTexts()
    ensures "Incoming(" + DebugMedia(Audio) + ")" == "Incoming(Audio)"
    ensures "Incoming(" + DebugMedia(Video) + ")" == "Incoming(Video)"
    ensures "Outgoing(" + DebugMedia(Audio) + ")" == "Outgoing(Audio)"
    ensures "Outgoing(" + DebugMedia(Video) + ")" == "Outgoing(Video)"
  {
  }

  lemma StateEventIsPlain(s: CallState)
    ensures PlainEvent(StateEvent(s)) <==> PlainReason(s)
  {
    MediaTexts();
    assert Plain("Ended") && Plain("Rejected") && Plain("Ringing") && Plain("Connected") && Plain("Connecting");
    assert Plain("Concluded") && Plain("Incoming(Audio)") && Plain("Incoming(Video)");
    assert Plain("Outgoing(Audio)") && Plain("Outgoing(Video)");
    hide Plain;
  }

  /** A call state is known again from its line if and only if its reason needs no escaping. */
  lemma StateReadBackIffPlain(s: CallState)
    ensures ReadState(ToJson(StateEvent(s))) == Some(s) <==> PlainReason(s)
  {
    hide ReadEvent, ToJson, Plain, PlainEvent;
    MediaTexts();
    StateEventIsPlain(s);
    ReadBackIffPlain(StateEvent(s));
  }

  lemma LowerIsPlain(s: string)
    ensures Plain(Lower(s)) <==> Plain(s)
  {
    assert forall i :: 0 <= i < |s| ==> (Unescaped(Lower(s)[i]) <==> Unescaped(s[i]));
  }

  predicate SameSignal(a: Signal, b: Signal)
  {
    if a.HangupSignal? && b.HangupSignal? then Lower(a.typeName) == Lower(b.typeName) else a == b
  }

  /** Two plain messages print alike only if they are the same, up to the case of a hangup's type. */
  lemma SignalLinesDistinct(i: CallId, a: Signal, j: CallId, b: Signal)
    requires a.HangupSignal? ==> Plain(a.typeName)
    requires b.HangupSignal? ==> Plain(b.typeName)
    ensures ToJson(SignalEvent(i, a)) == ToJson(SignalEvent(j, b)) <==> i == j && SameSignal(a, b)
  {
    hide ToJson, Plain, Lower;
    if a.HangupSignal? {
      LowerIsPlain(a.typeName);
    }
    if b.HangupSignal? {
      LowerIsPlain(b.typeName);
    }
    if ToJson(SignalEvent(i, a)) == ToJson(SignalEvent(j, b)) {
      ToJsonInjective(SignalEvent(i, a), SignalEvent(j, b));
    }
  }

  /** The signaling message a parent reads off a line, and the call it belongs to. */
  function ReadSignal(line: string): Option<(CallId, Signal)>
  {
    match ReadEvent(line)
    case Some(SendSignaling(id, message)) =>
      Some((id, match message
                case SendOffer(data, media) => Offer(data, media)
                case SendAnswer(data) => Answer(data)
                case SendIce(candidates) => Ice(candidates)
                case SendHangup(typeName) => HangupSignal(typeName)
                case SendBusy => Busy))
    case _ => None
  }

  /** A plain message is read back from its line: call, kind and contents; a hangup's type in lower case. */
  lemma SignalReadBack(id: CallId, m: Signal)
    requires m.HangupSignal? ==> Plain(m.typeName)
    ensures ReadSignal(ToJson(SignalEvent(id, m)))
            == Some((id, if m.HangupSignal? then HangupSignal(Lower(m.typeName)) else m))
  {
    hide ReadEvent, ToJson, Plain, Lower;
    if m.HangupSignal? {
      LowerIsPlain(m.typeName);
    }
    ReadBackIffPlain(SignalEvent(id, m));
  }

  const CAPITALS := "ABCDEFGHIJKLMNOPQRSTUVWXYZ"
  const SMALLS := "abcdefghijklmnopqrstuvwxyz"

  lemma LetterAt(k: nat)
    requires k < 26
    ensures CAPITALS[k] == 'A' + k as char && SMALLS[k] == 'a' + k as char
  {
  }

  /** Each capital letter becomes its small one, and nothing else changes. */
  lemma LowersCapitals(s: string, i: nat, k: nat)
    requires i < |s| && k < 26
    ensures s[i] == CAPITALS[k] ==> Lower(s)[i] == SMALLS[k]
    ensures s[i] !in CAPITALS ==> Lower(s)[i] == s[i]
  {
    LetterAt(k);
    if 'A' <= s[i] <= 'Z' {
      LetterAt(s[i] as int - 'A' as int);
    }
  }
}
