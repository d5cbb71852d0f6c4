/**
 * Two tunnels and the parents between them: what one tunnel prints, handed on as a command to
 * the other, reaches the other's call manager unchanged.
 */
module Relay {
  import opened Bytes
  import opened Commands
  import opened EventLoop
  import Base64
  import J = Json
  import P = Platform
  import opened Options

  // ----- what a parent takes from a line -----

  function FieldOf(line: string, name: string): Option<J.Json>
  {
    match J.ParseText(line)
    case Some(Obj(fields)) => P.Lookup(fields, name)
    case _ => None
  }

  function StringField(line: string, name: string): string
  {
    match FieldOf(line, name) case Some(Str(s)) => s case _ => ""
  }

  /** The blob texts of the candidates, in order. */
  function CandidateTexts(line: string): seq<string>
  {
    match FieldOf(line, "candidates") case Some(Arr(items)) => BlobTexts(items) case _ => []
  }

  function BlobTexts(items: seq<J.Json>): seq<string>
  {
    if items == [] then []
    else
      (match items[0]
       case Obj(fields) => (match P.Lookup(fields, "opaque") case Some(Str(s)) => [s] case _ => [])
       case _ => [])
      + BlobTexts(items[1..])
  }

  // ----- the command it sends; the other fields may be anything -----

  function WithBlob(kind: string, blob: string, rest: map<string, Value>): Value
  {
    Object(rest["type" := Text(kind)]["opaque" := Text(blob)])
  }

  function WithCandidates(texts: seq<string>, rest: map<string, Value>): Value
  {
    Object(rest["type" := Text("receivedIce")]["candidates" := Texts(texts)])
  }

  // ----- reading the line -----

  lemma LineMeans(e: P.PlatformEvent)
    requires P.PlainEvent(e)
    ensures J.ParseText(P.ToJson(e)) == Some(P.Describe(e))
  {
    P.TextIsPrinted(e);
    P.PlainFields(e);
    J.TextRoundTrip(P.Describe(e));
  }

  lemma BlobOfLine(id: P.CallId, message: P.SignalingEvent)
    requires message.SendOffer? || message.SendAnswer?
    ensures StringField(P.ToJson(P.SendSignaling(id, message)), "opaque") == Base64.Encode(message.opaqueData)
  {
    var e := P.SendSignaling(id, message);
    LineMeans(e);
    hide J.ParseText, P.ToJson, P.Lookup, Base64.Encode;
    var f := P.Describe(e).fields;
    assert f == [f[0], f[1]] + f[2..];
    P.LookupAll(f[0], f[1], f[2..]);
  }

  lemma {:induction false} BlobTextsOfCandidates(cs: seq<seq<Byte>>)
    ensures BlobTexts(P.Candidates(cs)) == seq(|cs|, i requires 0 <= i < |cs| => Base64.Encode(cs[i]))
  {
    hide Base64.Encode;
    if cs != [] {
      assert P.Candidates(cs)[1..] == P.Candidates(cs[1..]);
      BlobTextsOfCandidates(cs[1..]);
      var f := J.Field("opaque", J.Str(Base64.Encode(cs[0])));
      P.LookupSnoc([], f, "opaque");
      assert [] + [f] == P.Candidates(cs)[0].fields;
    }
  }

  lemma CandidatesOfLine(id: P.CallId, cs: seq<seq<Byte>>)
    ensures Texts(CandidateTexts(P.ToJson(P.SendSignaling(id, P.SendIce(cs))))) == Blobs(cs)
  {
    var e := P.SendSignaling(id, P.SendIce(cs));
    LineMeans(e);
    BlobTextsOfCandidates(cs);
    hide J.ParseText, P.ToJson, P.Lookup, Base64.Encode;
    var f := P.Describe(e).fields;
    assert f == [f[0], f[1]] + f[2..];
    P.LookupAll(f[0], f[1], f[2..]);
  }

  lemma CommandMeans(kind: string, blob: string, data: seq<Byte>, rest: map<string, Value>)
    requires Base64.Decode(blob) == Some(data)
    requires kind == "receivedOffer" || kind == "receivedAnswer"
    ensures var v := WithBlob(kind, blob, rest);
            match ParseMessage(v)
            case Some(ReceivedOffer(_, peer, _, offer, _, _, _)) =>
              kind == "receivedOffer" && offer == data && peer == StringOr(Get(v, "peerId"), "remote")
            case Some(ReceivedAnswer(answer, _, _, _)) => kind == "receivedAnswer" && answer == data
            case _ => false
  {
    hide Base64.Decode;
  }

  /** One more call was made, the last one, by this message. */
  predicate Called(s: Loop, r: Loop, call: Call) { r.calls == s.calls + [Entry(s.handled, call)] }

  // ----- the results -----

  /**
   * An offer printed by one tunnel and handed on reaches the other's call manager with the
   * same bytes and for the peer the command names, and makes that peer the active one.
   */
  lemma OfferArrives(id: P.CallId, data: seq<Byte>, media: P.MediaType, rest: map<string, Value>,
                     c: Config, s: Loop, o: Outcome)
    requires o.signal
    ensures var line := P.ToJson(P.SendSignaling(id, P.SendOffer(data, media)));
            var v := WithBlob("receivedOffer", StringField(line, "opaque"), rest);
            match ParseMessage(v)
            case None => false
            case Some(m) =>
              exists call: Call :: Called(s, Step(c, s, m, o), call) && call.ReceivedOffer? && call.offer == data
                && call.peer == StringOr(Get(v, "peerId"), "remote") == Step(c, s, m, o).peer
  {
    hide P.ToJson, StringField, Base64.Encode, Base64.Decode, ParseMessage, Get, WithBlob;
    var line := P.ToJson(P.SendSignaling(id, P.SendOffer(data, media)));
    BlobOfLine(id, P.SendOffer(data, media));
    Base64.RoundTrip(data);
    CommandMeans("receivedOffer", StringField(line, "opaque"), data, rest);
    var m := ParseMessage(WithBlob("receivedOffer", StringField(line, "opaque"), rest)).value;
    assert Called(s, Step(c, s, m, o), CallOf(c, s.peer, m));
  }

  /** An answer arrives with the same bytes, for the peer that is active at the time. */
  lemma AnswerArrives(id: P.CallId, data: seq<Byte>, rest: map<string, Value>, c: Config, s: Loop, o: Outcome)
    requires o.signal
    ensures var line := P.ToJson(P.SendSignaling(id, P.SendAnswer(data)));
            match ParseMessage(WithBlob("receivedAnswer", StringField(line, "opaque"), rest))
            case None => false
            case Some(m) =>
              exists call: Call :: Called(s, Step(c, s, m, o), call) && call.ReceivedAnswer? && call.answer == data
                && call.peer == s.peer == Step(c, s, m, o).peer
  {
    hide P.ToJson, StringField, Base64.Encode, Base64.Decode, ParseMessage, Get, WithBlob;
    var line := P.ToJson(P.SendSignaling(id, P.SendAnswer(data)));
    BlobOfLine(id, P.SendAnswer(data));
    Base64.RoundTrip(data);
    CommandMeans("receivedAnswer", StringField(line, "opaque"), data, rest);
    var m := ParseMessage(WithBlob("receivedAnswer", StringField(line, "opaque"), rest)).value;
    assert Called(s, Step(c, s, m, o), CallOf(c, s.peer, m));
  }

  /** Candidates arrive all of them, in order, with the same bytes, for the active peer. */
  lemma IceArrives(id: P.CallId, cs: seq<seq<Byte>>, rest: map<string, Value>, c: Config, s: Loop, o: Outcome)
    ensures var line := P.ToJson(P.SendSignaling(id, P.SendIce(cs)));
            match ParseMessage(WithCandidates(CandidateTexts(line), rest))
            case None => false
            case Some(m) =>
              exists call: Call :: Called(s, Step(c, s, m, o), call) && call.ReceivedIce? && call.candidates == cs
                && call.peer == s.peer == Step(c, s, m, o).peer
  {
    CandidatesOfLine(id, cs);
    DecodableBlobs(cs);
    hide P.ToJson, CandidateTexts, Base64.Encode, Base64.Decode, Decodable, Blob;
    var line := P.ToJson(P.SendSignaling(id, P.SendIce(cs)));
    var m := ParseMessage(WithCandidates(CandidateTexts(line), rest)).value;
    assert Called(s, Step(c, s, m, o), CallOf(c, s.peer, m));
  }
}
