/** The events the tunnel reports to its parent, printed as one JSON object each. */
module Platform {
  import opened Bytes
  import opened Json
  import Base64
  import opened Options

  datatype MediaType = Audio | Video

  type CallId = n: nat | n < 0x1_0000_0000_0000_0000

  datatype SignalingEvent =
    | SendOffer(opaqueData: seq<Byte>, media: MediaType)
    | SendAnswer(opaqueData: seq<Byte>)
    | SendIce(candidates: seq<seq<Byte>>)
    | SendHangup(hangupType: string)
    | SendBusy

  datatype PlatformEvent =
    | SendSignaling(callId: CallId, message: SignalingEvent)
    | StateChange(state: string, reason: Option<string>)

  // ----- printing, with the literal texts of the source -----

  function MediaName(m: MediaType): string { if m.Audio? then "audio" else "video" }

  function CandidateText(c: seq<Byte>): string { "{\"opaque\":\"" + Base64.Encode(c) + "\"}" }

  /** `candidates_json.join(",")`. */
  function Joined(candidates: seq<seq<Byte>>): string
  {
    if candidates == [] then ""
    else if |candidates| == 1 then CandidateText(candidates[0])
    else CandidateText(candidates[0]) + "," + Joined(candidates[1..])
  }

  function ToJson(e: PlatformEvent): string
  {
    match e
    case SendSignaling(id, SendOffer(data, media)) =>
      "{\"type\":\"sendOffer\",\"callId\":" + Decimal(id) + ",\"opaque\":\"" + Base64.Encode(data)
      + "\",\"callMediaType\":\"" + MediaName(media) + "\"}"
    case SendSignaling(id, SendAnswer(data)) =>
      "{\"type\":\"sendAnswer\",\"callId\":" + Decimal(id) + ",\"opaque\":\"" + Base64.Encode(data) + "\"}"
    case SendSignaling(id, SendIce(candidates)) =>
      "{\"type\":\"sendIce\",\"callId\":" + Decimal(id) + ",\"candidates\":[" + Joined(candidates) + "]}"
    case SendSignaling(id, SendHangup(hangupType)) =>
      "{\"type\":\"sendHangup\",\"callId\":" + Decimal(id) + ",\"hangupType\":\"" + hangupType + "\"}"
    case SendSignaling(id, SendBusy) =>
      "{\"type\":\"sendBusy\",\"callId\":" + Decimal(id) + "}"
    case StateChange(state, Some(reason)) =>
      "{\"type\":\"stateChange\",\"state\":\"" + state + "\",\"reason\":\"" + reason + "\"}"
    case StateChange(state, None) =>
      "{\"type\":\"stateChange\",\"state\":\"" + state + "\"}"
  }

  // ----- the object meant -----

  function CandidateValue(c: seq<Byte>): Json { Obj([Field("opaque", Str(Base64.Encode(c)))]) }

  function Candidates(cs: seq<seq<Byte>>): (r: seq<Json>)
    ensures |r| == |cs|
  {
    seq(|cs|, i requires 0 <= i < |cs| => CandidateValue(cs[i]))
  }

  function Signal(kind: string, id: nat, more: seq<Field>): Json
  {
    Obj([Field("type", Str(kind)), Field("callId", Num(id))] + more)
  }

  function Describe(e: PlatformEvent): Json
  {
    match e
    case SendSignaling(id, SendOffer(data, media)) =>
      Signal("sendOffer", id,
             [Field("opaque", Str(Base64.Encode(data))), Field("callMediaType", Str(MediaName(media)))])
    case SendSignaling(id, SendAnswer(data)) => Signal("sendAnswer", id, [Field("opaque", Str(Base64.Encode(data)))])
    case SendSignaling(id, SendIce(cs)) => Signal("sendIce", id, [Field("candidates", Arr(Candidates(cs)))])
    case SendSignaling(id, SendHangup(kind)) => Signal("sendHangup", id, [Field("hangupType", Str(kind))])
    case SendSignaling(id, SendBusy) => Signal("sendBusy", id, [])
    case StateChange(state, Some(reason)) =>
      Obj([Field("type", Str("stateChange")), Field("state", Str(state)), Field("reason", Str(reason))])
    case StateChange(state, None) => Obj([Field("type", Str("stateChange")), Field("state", Str(state))])
  }

  // ----- the text is that object, printed -----

  lemma StrField(name: string, text: string)
    ensures PrintField(Field(name, Str(text))) == "\"" + name + "\":\"" + text + "\""
  {
    Regroup("\"", name, ":", text);
    assert "\"" + ":" + "\"" == "\":\"";
  }

  lemma Regroup(q: string, name: string, colon: string, text: string)
    ensures (q + name + q) + colon + (q + text + q) == q + name + (q + colon + q) + text + q
  {
  }

  lemma IdField(id: nat)
    ensures PrintField(Field("callId", Num(id))) == "\"callId\":" + Decimal(id)
  {
    assert Quoted("callId") + ":" == "\"callId\":";
  }

  lemma PrintCons(f: Field, rest: seq<Field>)
    requires rest != []
    ensures PrintFields([f] + rest) == PrintField(f) + "," + PrintFields(rest)
  {
    assert ([f] + rest)[1..] == rest;
  }

  /** A signaling event begins with its type and call id. */
  lemma SignalText(kind: string, id: nat, more: seq<Field>)
    requires more != []
    ensures Print(Signal(kind, id, more))
            == "{\"type\":\"" + kind + "\",\"callId\":" + Decimal(id) + "," + PrintFields(more) + "}"
  {
    hide Print, PrintFields, PrintField, Decimal;
    var a, b := Field("type", Str(kind)), Field("callId", Num(id));
    StrField("type", kind);
    IdField(id);
    SignalFields(a, b, more);
    hide *;
    assert "\"" + "type" + "\":\"" == "\"type\":\"" && "{" + "\"type\":\"" == "{\"type\":\"";
    assert "\"" + "," + "\"callId\":" == "\",\"callId\":";
    SignalRegroup("{", "\"type\":\"", kind, "\"", ",", "\"callId\":", Decimal(id), PrintFields(more), "}");
  }

  lemma SignalFields(a: Field, b: Field, more: seq<Field>)
    requires more != []
    ensures Print(Obj([a, b] + more)) == "{" + (PrintField(a) + "," + (PrintField(b) + "," + PrintFields(more))) + "}"
  {
    hide PrintField;
    assert [a, b] + more == [a] + ([b] + more);
    PrintCons(a, [b] + more);
    PrintCons(b, more);
  }

  lemma SignalRegroup(o: string, t: string, kind: string, q: string, comma: string,
                      i: string, d: string, f: string, c: string)
    ensures o + ((t + kind + q) + comma + ((i + d) + comma + f)) + c
            == (o + t) + kind + (q + comma + i) + d + comma + f + c
  {
  }

  lemma {:induction false} JoinedIsPrinted(cs: seq<seq<Byte>>)
    ensures Joined(cs) == PrintItems(Candidates(cs))
  {
    if cs != [] {
      CandidateIsPrinted(cs[0]);
      if |cs| > 1 {
        assert Candidates(cs)[1..] == Candidates(cs[1..]);
        JoinedIsPrinted(cs[1..]);
      }
    }
  }

  lemma CandidateIsPrinted(c: seq<Byte>)
    ensures CandidateText(c) == Print(CandidateValue(c))
  {
    StrField("opaque", Base64.Encode(c));
    var t := Base64.Encode(c);
    assert "{" + ("\"" + "opaque" + "\":\"") == "{\"opaque\":\"" && "\"" + "}" == "\"}";
    assert "{" + (("\"" + "opaque" + "\":\"") + t + "\"") + "}"
           == ("{" + ("\"" + "opaque" + "\":\"")) + t + ("\"" + "}");
  }

  lemma OfferText(id: CallId, data: seq<Byte>, media: MediaType)
    ensures ToJson(SendSignaling(id, SendOffer(data, media)))
            == Print(Describe(SendSignaling(id, SendOffer(data, media))))
  {
    var b, m, d := Base64.Encode(data), MediaName(media), Decimal(id);
    var more := [Field("opaque", Str(b)), Field("callMediaType", Str(m))];
    assert more == [Field("opaque", Str(b))] + [Field("callMediaType", Str(m))];
    PrintCons(Field("opaque", Str(b)), [Field("callMediaType", Str(m))]);
    assert PrintFields([Field("callMediaType", Str(m))]) == PrintField(Field("callMediaType", Str(m)));
    StrField("opaque", b);
    StrField("callMediaType", m);
    SignalText("sendOffer", id, more);
    OfferLiterals(d, b, m);
  }

  lemma OfferLiterals(d: string, b: string, m: string)
    ensures "{\"type\":\"" + "sendOffer" + "\",\"callId\":" + d + ","
            + (("\"" + "opaque" + "\":\"" + b + "\"") + "," + ("\"" + "callMediaType" + "\":\"" + m + "\"")) + "}"
            == "{\"type\":\"sendOffer\",\"callId\":" + d + ",\"opaque\":\"" + b + "\",\"callMediaType\":\"" + m + "\"}"
  {
    assert "{\"type\":\"" + "sendOffer" + "\",\"callId\":" == "{\"type\":\"sendOffer\",\"callId\":";
    assert "," + ("\"" + "opaque" + "\":\"") == ",\"opaque\":\"";
    assert "\"" + "," + ("\"" + "callMediaType" + "\":\"") == "\",\"callMediaType\":\"";
    assert "\"" + "}" == "\"}";
    OfferRegroup("{\"type\":\"" + "sendOffer" + "\",\"callId\":", d, ",", "\"" + "opaque" + "\":\"", b, "\"",
                 "\"" + "callMediaType" + "\":\"", m, "}");
  }

  lemma OfferRegroup(h: string, d: string, comma: string, o: string, b: string,
                     q: string, t: string, m: string, c: string)
    ensures h + d + comma + ((o + b + q) + comma + (t + m + q)) + c
            == h + d + (comma + o) + b + (q + comma + t) + m + (q + c)
  {
  }

  /** An event whose only further field is a string. */
  lemma OneStringText(kind: string, id: nat, name: string, text: string)
    ensures Print(Signal(kind, id, [Field(name, Str(text))]))
            == ("{\"type\":\"" + kind + "\",\"callId\":") + Decimal(id) + ("," + ("\"" + name + "\":\"")) + text + "\"}"
  {
    SignalText(kind, id, [Field(name, Str(text))]);
    assert PrintFields([Field(name, Str(text))]) == PrintField(Field(name, Str(text)));
    StrField(name, text);
    assert "\"" + "}" == "\"}";
    OneStringRegroup("{\"type\":\"" + kind + "\",\"callId\":", Decimal(id), ",",
                     "\"" + name + "\":\"", text, "\"", "}");
  }

  lemma OneStringRegroup(h: string, d: string, comma: string, o: string, b: string, q: string, c: string)
    ensures h + d + comma + (o + b + q) + c == h + d + (comma + o) + b + (q + c)
  {
  }

  lemma AnswerText(id: CallId, data: seq<Byte>)
    ensures ToJson(SendSignaling(id, SendAnswer(data))) == Print(Describe(SendSignaling(id, SendAnswer(data))))
  {
    hide Print, Decimal, Base64.Encode;
    OneStringText("sendAnswer", id, "opaque", Base64.Encode(data));
    assert "{\"type\":\"" + "sendAnswer" + "\",\"callId\":" == "{\"type\":\"sendAnswer\",\"callId\":";
    assert "," + ("\"" + "opaque" + "\":\"") == ",\"opaque\":\"";
  }

  lemma HangupText(id: CallId, kind: string)
    ensures ToJson(SendSignaling(id, SendHangup(kind))) == Print(Describe(SendSignaling(id, SendHangup(kind))))
  {
    hide Print, Decimal;
    OneStringText("sendHangup", id, "hangupType", kind);
    assert "{\"type\":\"" + "sendHangup" + "\",\"callId\":" == "{\"type\":\"sendHangup\",\"callId\":";
    assert "," + ("\"" + "hangupType" + "\":\"") == ",\"hangupType\":\"";
  }

  lemma IceText(id: CallId, cs: seq<seq<Byte>>)
    ensures ToJson(SendSignaling(id, SendIce(cs))) == Print(Describe(SendSignaling(id, SendIce(cs))))
  {
    var f := Field("candidates", Arr(Candidates(cs)));
    SignalText("sendIce", id, [f]);
    JoinedIsPrinted(cs);
    assert PrintFields([f]) == PrintField(f);
    assert PrintField(f) == Quoted("candidates") + ":" + ("[" + Joined(cs) + "]");
    IceLiterals(Decimal(id), Joined(cs));
  }

  lemma IceLiterals(d: string, j: string)
    ensures "{\"type\":\"" + "sendIce" + "\",\"callId\":" + d + ","
            + (Quoted("candidates") + ":" + ("[" + j + "]")) + "}"
            == "{\"type\":\"sendIce\",\"callId\":" + d + ",\"candidates\":[" + j + "]}"
  {
    var h, n := "{\"type\":\"sendIce\",\"callId\":", Quoted("candidates") + ":";
    assert "{\"type\":\"" + "sendIce" + "\",\"callId\":" == h;
    assert "," + (n + "[") == ",\"candidates\":[";
    assert "]" + "}" == "]}";
    IceRegroup(h, d, ",", n, "[", j, "]", "}");
  }

  lemma IceRegroup(h: string, d: string, comma: string, n: string, o: string, j: string, e: string, c: string)
    ensures h + d + comma + (n + (o + j + e)) + c == h + d + (comma + (n + o)) + j + (e + c)
  {
  }

  lemma BusyText(id: CallId)
    ensures ToJson(SendSignaling(id, SendBusy)) == Print(Describe(SendSignaling(id, SendBusy)))
  {
    var a, b := Field("type", Str("sendBusy")), Field("callId", Num(id));
    assert [a, b] + [] == [a] + [b];
    PrintCons(a, [b]);
    assert PrintFields([b]) == PrintField(b);
    StrField("type", "sendBusy");
    IdField(id);
    BusyLiterals(Decimal(id));
  }

  lemma BusyLiterals(d: string)
    ensures "{" + (("\"" + "type" + "\":\"" + "sendBusy" + "\"") + "," + ("\"callId\":" + d)) + "}"
            == "{\"type\":\"sendBusy\",\"callId\":" + d + "}"
  {
    var t := "\"" + "type" + "\":\"" + "sendBusy" + "\"";
    assert "{" + t + "," + "\"callId\":" == "{\"type\":\"sendBusy\",\"callId\":";
    BusyRegroup("{", t, ",", "\"callId\":", d, "}");
  }

  lemma BusyRegroup(o: string, t: string, comma: string, i: string, d: string, c: string)
    ensures o + (t + comma + (i + d)) + c == (o + t + comma + i) + d + c
  {
  }

  lemma StateText(state: string)
    ensures ToJson(StateChange(state, None)) == Print(Describe(StateChange(state, None)))
  {
    var a, b := Field("type", Str("stateChange")), Field("state", Str(state));
    assert [a, b] == [a] + [b];
    PrintCons(a, [b]);
    assert PrintFields([b]) == PrintField(b);
    StrField("type", "stateChange");
    StrField("state", state);
    StateLiterals(state);
  }

  lemma ReasonText(state: string, reason: string)
    ensures ToJson(StateChange(state, Some(reason))) == Print(Describe(StateChange(state, Some(reason))))
  {
    var a, b, c := Field("type", Str("stateChange")), Field("state", Str(state)), Field("reason", Str(reason));
    assert [a, b, c] == [a] + ([b] + [c]);
    PrintCons(a, [b] + [c]);
    PrintCons(b, [c]);
    assert PrintFields([c]) == PrintField(c);
    StrField("type", "stateChange");
    StrField("state", state);
    StrField("reason", reason);
    ReasonLiterals(state, reason);
  }

  lemma StateLiterals(state: string)
    ensures "{" + (("\"" + "type" + "\":\"" + "stateChange" + "\"") + ","
                   + ("\"" + "state" + "\":\"" + state + "\"")) + "}"
            == "{\"type\":\"stateChange\",\"state\":\"" + state + "\"}"
  {
    var t, u := "\"" + "type" + "\":\"" + "stateChange" + "\"", "\"" + "state" + "\":\"";
    assert "{" + t + "," + u == "{\"type\":\"stateChange\",\"state\":\"";
    assert "\"" + "}" == "\"}";
    StateRegroup("{", t, ",", u, state, "\"", "}");
  }

  lemma ReasonLiterals(state: string, reason: string)
    ensures "{" + (("\"" + "type" + "\":\"" + "stateChange" + "\"") + ","
                   + (("\"" + "state" + "\":\"" + state + "\"") + ","
                      + ("\"" + "reason" + "\":\"" + reason + "\""))) + "}"
            == "{\"type\":\"stateChange\",\"state\":\"" + state + "\",\"reason\":\"" + reason + "\"}"
  {
    var t, u := "\"" + "type" + "\":\"" + "stateChange" + "\"", "\"" + "state" + "\":\"";
    var v := "\"" + "reason" + "\":\"";
    assert "{" + t + "," + u == "{\"type\":\"stateChange\",\"state\":\"";
    assert "\"" + "," + v == "\",\"reason\":\"" && "\"" + "}" == "\"}";
    ReasonRegroup("{", t, ",", u, state, "\"", v, reason, "}");
  }

  lemma StateRegroup(o: string, t: string, comma: string, u: string, s: string, q: string, c: string)
    ensures o + (t + comma + (u + s + q)) + c == (o + t + comma + u) + s + (q + c)
  {
  }

  lemma ReasonRegroup(o: string, t: string, comma: string, u: string, s: string,
                      q: string, v: string, r: string, c: string)
    ensures o + (t + comma + ((u + s + q) + comma + (v + r + q))) + c
            == (o + t + comma + u) + s + (q + comma + v) + r + (q + c)
  {
  }

  /** What `to_json` prints is the text of one JSON object. */
  lemma TextIsPrinted(e: PlatformEvent)
    ensures ToJson(e) == Print(Describe(e))
  {
    match e
    case SendSignaling(id, SendOffer(data, media)) => OfferText(id, data, media);
    case SendSignaling(id, SendAnswer(data)) => AnswerText(id, data);
    case SendSignaling(id, SendIce(cs)) => IceText(id, cs);
    case SendSignaling(id, SendHangup(kind)) => HangupText(id, kind);
    case SendSignaling(id, SendBusy) => BusyText(id);
    case StateChange(state, None) => StateText(state);
    case StateChange(state, Some(reason)) => ReasonText(state, reason);
  }

  // ----- reading an event back -----

  function Lookup(fields: seq<Field>, name: string): Option<Json>
  {
    if fields == [] then None
    else if fields[|fields| - 1].name == name then Some(fields[|fields| - 1].value)
    else Lookup(fields[..|fields| - 1], name)
  }

  function BlobOf(v: Option<Json>): Option<seq<Byte>>
  {
    if v.Some? && v.value.Str? then
      match Base64.Decode(v.value.s) { case None => None case Some(b) => Some(b) }
    else None
  }

  function CandidatesOf(items: seq<Json>): Option<seq<seq<Byte>>>
  {
    if items == [] then Some([])
    else if !items[0].Obj? then None
    else
      match (BlobOf(Lookup(items[0].fields, "opaque")), CandidatesOf(items[1..]))
      case (Some(b), Some(more)) => Some([b] + more)
      case _ => None
  }

  /** What a parent makes of a parsed object: fields by name, blobs decoded. */
  function Interpret(v: Json): Option<PlatformEvent>
  {
    if !v.Obj? then None
    else
      var f := v.fields;
      match Lookup(f, "type")
      case Some(Str(kind)) =>
        if kind == "stateChange" then
          match (Lookup(f, "state"), Lookup(f, "reason"))
          case (Some(Str(state)), None) => Some(StateChange(state, None))
          case (Some(Str(state)), Some(Str(reason))) => Some(StateChange(state, Some(reason)))
          case _ => None
        else
          (match Lookup(f, "callId")
           case Some(Num(id)) => if id < 0x1_0000_0000_0000_0000 then InterpretSignal(kind, id, f) else None
           case _ => None)
      case _ => None
  }

  function InterpretSignal(kind: string, id: CallId, f: seq<Field>): Option<PlatformEvent>
  {
    if kind == "sendBusy" then Some(SendSignaling(id, SendBusy))
    else if kind == "sendAnswer" then
      match BlobOf(Lookup(f, "opaque")) { case Some(b) => Some(SendSignaling(id, SendAnswer(b))) case None => None }
    else if kind == "sendOffer" then
      match (BlobOf(Lookup(f, "opaque")), Lookup(f, "callMediaType"))
      case (Some(b), Some(Str(media))) =>
        if media == "audio" then Some(SendSignaling(id, SendOffer(b, Audio)))
        else if media == "video" then Some(SendSignaling(id, SendOffer(b, Video)))
        else None
      case _ => None
    else if kind == "sendIce" then
      match Lookup(f, "candidates")
      case Some(Arr(items)) =>
        (match CandidatesOf(items) case Some(cs) => Some(SendSignaling(id, SendIce(cs))) case None => None)
      case _ => None
    else if kind == "sendHangup" then
      match Lookup(f, "hangupType") { case Some(Str(h)) => Some(SendSignaling(id, SendHangup(h))) case _ => None }
    else None
  }

  function ReadEvent(line: string): Option<PlatformEvent>
  {
    match ParseText(line) case None => None case Some(v) => Interpret(v)
  }

  lemma LookupSnoc(fields: seq<Field>, f: Field, name: string)
    ensures Lookup(fields + [f], name) == if f.name == name then Some(f.value) else Lookup(fields, name)
  {
    assert (fields + [f])[..|fields|] == fields;
  }

  lemma {:induction false} CandidatesRoundTrip(cs: seq<seq<Byte>>)
    ensures CandidatesOf(Candidates(cs)) == Some(cs)
  {
    hide Base64.Encode, Base64.Decode, Lookup;
    if cs != [] {
      assert Candidates(cs)[1..] == Candidates(cs[1..]);
      CandidatesRoundTrip(cs[1..]);
      Base64.RoundTrip(cs[0]);
      LookupSnoc([], Field("opaque", Str(Base64.Encode(cs[0]))), "opaque");
      assert [] + [Field("opaque", Str(Base64.Encode(cs[0])))] == Candidates(cs)[0].fields;
      assert [cs[0]] + cs[1..] == cs;
    }
  }

  lemma LookupTwo(a: Field, b: Field, name: string)
    ensures Lookup([a, b], name)
            == if b.name == name then Some(b.value) else if a.name == name then Some(a.value) else None
  {
    LookupSnoc([], a, name);
    LookupSnoc([a], b, name);
    assert [] + [a] == [a] && [a] + [b] == [a, b];
  }

  lemma InterpretDescribe(e: PlatformEvent)
    ensures Interpret(Describe(e)) == Some(e)
  {
    hide Base64.Encode, Base64.Decode, Lookup, InterpretSignal, BlobOf, CandidatesOf;
    var f := Describe(e).fields;
    match e
    case StateChange(state, reason) => InterpretState(state, reason);
    case SendSignaling(id, message) =>
      assert f == [f[0], f[1]] + f[2..];
      LookupAll(f[0], f[1], f[2..]);
      InterpretMessage(id, message);
  }

  lemma InterpretState(state: string, reason: Option<string>)
    ensures Interpret(Describe(StateChange(state, reason))) == Some(StateChange(state, reason))
  {
    hide Base64.Encode, Base64.Decode, Lookup, InterpretSignal, BlobOf, CandidatesOf;
    var f := Describe(StateChange(state, reason)).fields;
    assert f == [f[0], f[1]] + f[2..];
    LookupAll(f[0], f[1], f[2..]);
  }

  lemma InterpretMessage(id: CallId, message: SignalingEvent)
    ensures var f := Describe(SendSignaling(id, message)).fields;
            match Lookup(f, "type")
            case Some(Str(kind)) => InterpretSignal(kind, id, f) == Some(SendSignaling(id, message))
            case _ => false
  {
    hide Base64.Encode, Base64.Decode, Lookup, CandidatesOf;
    var f := Describe(SendSignaling(id, message)).fields;
    assert f == [f[0], f[1]] + f[2..];
    LookupAll(f[0], f[1], f[2..]);
    match message
    case SendAnswer(b) => Base64.RoundTrip(b);
    case SendOffer(b, _) => Base64.RoundTrip(b);
    case SendIce(cs) => CandidatesRoundTrip(cs);
    case SendHangup(_) =>
    case SendBusy =>
  }

  lemma LookupAll(a: Field, b: Field, more: seq<Field>)
    requires |more| <= 2
    ensures forall name :: Lookup([a, b] + more, name)
              == if |more| == 2 && more[1].name == name then Some(more[1].value)
                 else if |more| >= 1 && more[0].name == name then Some(more[0].value)
                 else if b.name == name then Some(b.value)
                 else if a.name == name then Some(a.value) else None
  {
    forall name
      ensures Lookup([a, b] + more, name)
              == if |more| == 2 && more[1].name == name then Some(more[1].value)
                 else if |more| >= 1 && more[0].name == name then Some(more[0].value)
                 else if b.name == name then Some(b.value)
                 else if a.name == name then Some(a.value) else None
    {
      LookupTwo(a, b, name);
      if |more| == 0 {
        assert [a, b] + more == [a, b];
      } else {
        LookupSnoc([a, b], more[0], name);
        if |more| == 1 {
          assert [a, b] + more == [a, b] + [more[0]];
        } else {
          LookupSnoc([a, b] + [more[0]], more[1], name);
          assert [a, b] + more == [a, b] + [more[0]] + [more[1]];
        }
      }
    }
  }

  // ----- the results -----

  /** The strings of an event that are printed as they are; blobs and names are always plain. */
  predicate PlainEvent(e: PlatformEvent)
  {
    match e
    case StateChange(state, None) => Plain(state)
    case StateChange(state, Some(reason)) => Plain(state) && Plain(reason)
    case SendSignaling(_, SendHangup(kind)) => Plain(kind)
    case SendSignaling(_, _) => true
  }

  lemma {:induction false} BlobIsPlain(b: seq<Byte>)
    ensures Plain(Base64.Encode(b))
  {
    if |b| >= 3 {
      BlobIsPlain(b[3..]);
    }
  }

  lemma NamesArePlain()
    ensures Plain("type") && Plain("callId") && Plain("opaque") && Plain("callMediaType") && Plain("candidates")
    ensures Plain("hangupType") && Plain("state") && Plain("reason") && Plain("stateChange")
  {
  }

  lemma KindsArePlain()
    ensures Plain("sendOffer") && Plain("sendAnswer") && Plain("sendIce") && Plain("sendHangup") && Plain("sendBusy")
    ensures Plain("audio") && Plain("video")
  {
  }

  lemma PlainFields(e: PlatformEvent)
    ensures PlainValue(Describe(e)) <==> PlainEvent(e)
  {
    hide Plain, Base64.Encode;
    NamesArePlain();
    KindsArePlain();
    var v := Describe(e);
    match e
    case SendSignaling(_, SendOffer(b, media)) => BlobIsPlain(b);
    case SendSignaling(_, SendAnswer(b)) => BlobIsPlain(b);
    case SendSignaling(_, SendIce(cs)) => CandidatesArePlain(cs);
    case SendSignaling(_, SendHangup(kind)) => assert v.fields[2] == Field("hangupType", Str(kind));
    case SendSignaling(_, SendBusy) =>
    case StateChange(state, None) => assert v.fields[1] == Field("state", Str(state));
    case StateChange(state, Some(reason)) =>
      assert v.fields[1] == Field("state", Str(state)) && v.fields[2] == Field("reason", Str(reason));
  }

  lemma CandidatesArePlain(cs: seq<seq<Byte>>)
    ensures PlainValue(Arr(Candidates(cs)))
  {
    forall i | 0 <= i < |cs|
      ensures PlainValue(CandidateValue(cs[i]))
    {
      BlobIsPlain(cs[i]);
    }
  }

  /**
   * An event is read back from its line, call id, blobs and candidates in order, if and only
   * if its free strings need no escaping; then the line holds no newline. The reader decodes
   * every escape: what is lost otherwise is lost because the printer writes none.
   */
  lemma ReadBackIffPlain(e: PlatformEvent)
    ensures ReadEvent(ToJson(e)) == Some(e) <==> PlainEvent(e)
    ensures PlainEvent(e) ==> OneLine(ToJson(e))
  {
    hide ToJson, Print, ParseText, Interpret, PlainValue, PlainEvent, OneLine, Describe;
    TextIsPrinted(e);
    PlainFields(e);
    InterpretDescribe(e);
    if PlainEvent(e) {
      TextRoundTrip(Describe(e));
      PrintIsOneLine(Describe(e));
    } else {
      EscapedIsNotReadBack(e);
    }
  }

  /** So printing loses nothing: different plain events have different lines. */
  lemma ToJsonInjective(a: PlatformEvent, b: PlatformEvent)
    requires PlainEvent(a) && PlainEvent(b) && ToJson(a) == ToJson(b)
    ensures a == b
  {
    ReadBackIffPlain(a);
    ReadBackIffPlain(b);
  }

  lemma {:induction false} LookupIsPlain(fields: seq<Field>, name: string)
    requires PlainValue(Obj(fields))
    ensures Lookup(fields, name).Some? ==> PlainValue(Lookup(fields, name).value)
  {
    if fields != [] {
      LookupIsPlain(fields[..|fields| - 1], name);
    }
  }

  /** Plain objects tell of plain events only. */
  lemma InterpretedIsPlain(v: Json)
    requires PlainValue(v)
    ensures Interpret(v).Some? ==> PlainEvent(Interpret(v).value)
  {
    hide PlainValue, Lookup;
    if v.Obj? {
      StringIsPlain(v.fields, "state");
      StringIsPlain(v.fields, "reason");
      StringIsPlain(v.fields, "hangupType");
    }
  }

  lemma StringIsPlain(fields: seq<Field>, name: string)
    requires PlainValue(Obj(fields))
    ensures match Lookup(fields, name) { case Some(Str(s)) => Plain(s) case _ => true }
  {
    LookupIsPlain(fields, name);
  }

  // ----- any object that means an event needs at least its text -----

  /** Characters that fields take, with a comma or brace each. */
  function Weight(fields: seq<Field>): nat
  {
    if fields == [] then 0 else Weight(fields[..|fields| - 1]) + |PrintField(fields[|fields| - 1])| + 1
  }

  lemma {:induction false} WeightCons(f: Field, more: seq<Field>)
    ensures Weight([f] + more) == |PrintField(f)| + 1 + Weight(more)
  {
    hide PrintField;
    var all := [f] + more;
    if more == [] {
      assert all == [f] && all[..0] == [];
    } else {
      var init := more[..|more| - 1];
      assert all[..|more|] == [f] + init;
      WeightCons(f, init);
    }
  }

  lemma {:induction false} FieldsWeigh(fields: seq<Field>)
    requires fields != []
    ensures |PrintFields(fields)| + 1 == Weight(fields)
  {
    hide PrintField;
    var f, more := fields[0], fields[1..];
    assert fields == [f] + more;
    WeightCons(f, more);
    if more != [] {
      FieldsWeigh(more);
    }
  }

  /** The fields without the one that `Lookup` finds. */
  function Remove(fields: seq<Field>, name: string): seq<Field>
  {
    if fields == [] then []
    else
      var init, last := fields[..|fields| - 1], fields[|fields| - 1];
      if last.name == name then init else Remove(init, name) + [last]
  }

  lemma WeightSnoc(fields: seq<Field>, f: Field)
    ensures Weight(fields + [f]) == Weight(fields) + |PrintField(f)| + 1
  {
    assert (fields + [f])[..|fields|] == fields;
  }

  /** Taking the field `name` out takes its weight and leaves every other name as it was. */
  lemma {:induction false} Removed(fields: seq<Field>, name: string, value: Json)
    requires Lookup(fields, name) == Some(value)
    ensures Weight(fields) == Weight(Remove(fields, name)) + |PrintField(Field(name, value))| + 1
    ensures forall other :: other != name ==> Lookup(Remove(fields, name), other) == Lookup(fields, other)
  {
    hide PrintField;
    var init, last := fields[..|fields| - 1], fields[|fields| - 1];
    if last.name != name {
      Removed(init, name, value);
      WeightSnoc(Remove(init, name), last);
      forall other | other != name
        ensures Lookup(Remove(fields, name), other) == Lookup(fields, other)
      {
        LookupSnoc(Remove(init, name), last, other);
      }
    }
  }

  lemma TwoWeigh(fields: seq<Field>, a: Field, b: Field)
    requires a.name != b.name
    requires Lookup(fields, a.name) == Some(a.value) && Lookup(fields, b.name) == Some(b.value)
    ensures Weight([a, b]) <= Weight(fields)
  {
    hide PrintField, Lookup, Weight;
    Removed(fields, a.name, a.value);
    Removed(Remove(fields, a.name), b.name, b.value);
    assert [a, b] == [a] + ([b] + []);
    WeightCons(a, [b] + []);
    WeightCons(b, []);
    WeightsNothing();
  }

  lemma ThreeWeigh(fields: seq<Field>, a: Field, b: Field, c: Field)
    requires a.name != b.name && a.name != c.name && b.name != c.name
    requires Lookup(fields, a.name) == Some(a.value) && Lookup(fields, b.name) == Some(b.value)
    requires Lookup(fields, c.name) == Some(c.value)
    ensures Weight([a, b, c]) <= Weight(fields)
  {
    hide PrintField, Lookup, Weight;
    Removed(fields, a.name, a.value);
    TwoWeigh(Remove(fields, a.name), b, c);
    assert [a, b, c] == [a] + [b, c];
    WeightCons(a, [b, c]);
  }

  lemma WeightsNothing()
    ensures Weight([]) == 0
  {
  }

  /** An object that means `e`, whatever else it holds, prints no shorter than `e` does. */
  lemma MeaningWeighs(v: Json, e: PlatformEvent)
    requires Interpret(v) == Some(e) && !PlainEvent(e)
    ensures v.Obj? && Describe(e).Obj? && Describe(e).fields != []
    ensures Weight(Describe(e).fields) <= Weight(v.fields)
  {
    hide Weight, Lookup, Plain, CandidatesOf, BlobOf;
    var f := v.fields;
    match e
    case StateChange(state, None) =>
      TwoWeigh(f, Field("type", Str("stateChange")), Field("state", Str(state)));
    case StateChange(state, Some(reason)) =>
      ThreeWeigh(f, Field("type", Str("stateChange")), Field("state", Str(state)), Field("reason", Str(reason)));
    case SendSignaling(id, SendHangup(kind)) =>
      var a, b, c := Field("type", Str("sendHangup")), Field("callId", Num(id)), Field("hangupType", Str(kind));
      ThreeWeigh(f, a, b, c);
      assert Describe(e).fields == [a, b, c];
  }

  lemma ObjectsCompare(v: Json, d: Json)
    requires v.Obj? && d.Obj? && d.fields != [] && Weight(d.fields) <= Weight(v.fields)
    ensures |Print(d)| <= |Print(v)|
  {
    hide PrintFields;
    WeightsNothing();
    FieldsWeigh(d.fields);
    FieldsWeigh(v.fields);
  }

  /**
   * An event that needs escaping is not read back: whatever object the reader makes of its
   * line must print shorter than the line, but any object that means the event does not.
   */
  lemma EscapedIsNotReadBack(e: PlatformEvent)
    requires !PlainEvent(e)
    ensures ReadEvent(ToJson(e)) != Some(e)
  {
    hide ToJson, Print, ParseText, Interpret, PlainValue, PlainEvent, Describe, Weight;
    var line := ToJson(e);
    TextIsPrinted(e);
    TextFits(line);
    if ReadEvent(line) == Some(e) {
      var v := ParseText(line).value;
      if PlainValue(v) {
        InterpretedIsPlain(v);
      }
      MeaningWeighs(v, e);
      ObjectsCompare(v, Describe(e));
    }
  }

  // ----- what goes wrong -----

  lemma QuoteLiterals(a: string, b: string)
    ensures "{\"type\":\"stateChange\",\"state\":\"" + (a + "\",\"reason\":\"" + b) + "\"}"
            == "{\"type\":\"stateChange\",\"state\":\"" + a + "\",\"reason\":\"" + b + "\"}"
  {
  }

  /**
   * The loss, concretely: a state that holds a quote can print as another state with a
   * reason, and that other event is what the parent reads.
   */
  lemma QuoteBecomesReason(a: string, b: string)
    ensures ToJson(StateChange(a + "\",\"reason\":\"" + b, None)) == ToJson(StateChange(a, Some(b)))
    ensures Plain(a) && Plain(b) ==>
              ReadEvent(ToJson(StateChange(a + "\",\"reason\":\"" + b, None))) == Some(StateChange(a, Some(b)))
  {
    QuoteLiterals(a, b);
    hide ReadEvent, Plain;
    ReadBackIffPlain(StateChange(a, Some(b)));
  }
}
