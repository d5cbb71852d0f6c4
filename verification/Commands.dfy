/** The tolerant reader for commands from the parent: from a parsed JSON line to a message. */
module Commands {
  import opened Bytes
  import Base64
  import opened Options

  /** A JSON value as the parser delivers it; of two equal names in an object the last counts. */
  datatype Value =
    | Null
    | Bool(b: bool)
    | Int(n: int)
    | Float
    | Text(s: string)
    | Array(items: seq<Value>)
    | Object(fields: map<string, Value>)

  const U32_LIMIT := 0x1_0000_0000
  const U64_LIMIT := 0x1_0000_0000_0000_0000

  type U32 = n: nat | n < 0x1_0000_0000
  type U64 = n: nat | n < 0x1_0000_0000_0000_0000

  datatype IceServer = IceServer(username: string, password: string, urls: seq<string>)

  datatype ControlMessage =
    | CreateOutgoingCall(callId: U64, peer: string)
    | Proceed(callId: U64, servers: seq<IceServer>, hideIp: bool)
    | ReceivedOffer(callId: U64, peer: string, senderDevice: U32, offer: seq<Byte>, age: U64,
                    senderKey: seq<Byte>, receiverKey: seq<Byte>)
    | ReceivedAnswer(answer: seq<Byte>, senderDevice: U32, senderKey: seq<Byte>, receiverKey: seq<Byte>)
    | ReceivedIce(candidates: seq<seq<Byte>>, senderDevice: U32)
    | Accept
    | Hangup

  // ----- field access with defaults -----

  /** Indexing anything but an object, or by a missing name, gives null. */
  function Get(v: Value, name: string): Value
  {
    if v.Object? && name in v.fields then v.fields[name] else Null
  }

  function StringOr(v: Value, default: string): string { if v.Text? then v.s else default }

  function U64Or(v: Value, default: U64): U64 { if v.Int? && 0 <= v.n < U64_LIMIT then v.n else default }

  function BoolOr(v: Value, default: bool): bool { if v.Bool? then v.b else default }

  /** Missing or malformed base64 counts as no bytes. */
  function BlobOr(v: Value): seq<Byte>
  {
    match Base64.Decode(StringOr(v, "")) case None => [] case Some(b) => b
  }

  /** `as u32` keeps the low 32 bits. */
  function Device(v: Value): U32 { U64Or(v, 1) % U32_LIMIT }

  function Strings(items: seq<Value>): seq<string>
  {
    if items == [] then []
    else (if items[0].Text? then [items[0].s] else []) + Strings(items[1..])
  }

  function UrlsOf(v: Value): seq<string> { if v.Array? then Strings(v.items) else [] }

  function ServerOf(v: Value): IceServer
  {
    IceServer(StringOr(Get(v, "username"), ""), StringOr(Get(v, "password"), ""), UrlsOf(Get(v, "urls")))
  }

  function ServersOf(v: Value): seq<IceServer>
  {
    if v.Array? then seq(|v.items|, i requires 0 <= i < |v.items| => ServerOf(v.items[i])) else []
  }

  /** Candidates that are base64 strings, in order; the others are passed over. */
  function Decodable(items: seq<Value>): seq<seq<Byte>>
  {
    if items == [] then []
    else
      (if !items[0].Text? then []
       else match Base64.Decode(items[0].s) case None => [] case Some(b) => [b])
      + Decodable(items[1..])
  }

  function CandidatesOf(v: Value): seq<seq<Byte>> { if v.Array? then Decodable(v.items) else [] }

  /** The message of a line, or nothing if its type is missing or unknown. */
  function ParseMessage(v: Value): Option<ControlMessage>
  {
    var kind := StringOr(Get(v, "type"), "");
    if kind == "createOutgoingCall" then
      Some(CreateOutgoingCall(U64Or(Get(v, "callId"), 0), StringOr(Get(v, "peerId"), "")))
    else if kind == "proceed" then
      Some(Proceed(U64Or(Get(v, "callId"), 0), ServersOf(Get(v, "iceServers")), BoolOr(Get(v, "hideIp"), false)))
    else if kind == "receivedOffer" then
      Some(ReceivedOffer(U64Or(Get(v, "callId"), 0), StringOr(Get(v, "peerId"), "remote"),
                         Device(Get(v, "senderDeviceId")), BlobOr(Get(v, "opaque")), U64Or(Get(v, "age"), 0),
                         BlobOr(Get(v, "senderIdentityKey")), BlobOr(Get(v, "receiverIdentityKey"))))
    else if kind == "receivedAnswer" then
      Some(ReceivedAnswer(BlobOr(Get(v, "opaque")), Device(Get(v, "senderDeviceId")),
                          BlobOr(Get(v, "senderIdentityKey")), BlobOr(Get(v, "receiverIdentityKey"))))
    else if kind == "receivedIce" then
      Some(ReceivedIce(CandidatesOf(Get(v, "candidates")), Device(Get(v, "senderDeviceId"))))
    else if kind == "accept" then Some(Accept)
    else if kind == "hangup" then Some(Hangup)
    else None
  }

  // ----- the command a parent sends for each message -----

  function Blob(b: seq<Byte>): Value { Text(Base64.Encode(b)) }

  function Texts(strings: seq<string>): Value
  {
    Array(seq(|strings|, i requires 0 <= i < |strings| => Text(strings[i])))
  }

  function Blobs(candidates: seq<seq<Byte>>): Value
  {
    Array(seq(|candidates|, i requires 0 <= i < |candidates| => Blob(candidates[i])))
  }

  function ServerValue(s: IceServer): Value
  {
    Object(map["username" := Text(s.username), "password" := Text(s.password), "urls" := Texts(s.urls)])
  }

  function Servers(servers: seq<IceServer>): Value
  {
    Array(seq(|servers|, i requires 0 <= i < |servers| => ServerValue(servers[i])))
  }

  function Command(m: ControlMessage): Value
  {
    match m
    case CreateOutgoingCall(id, peer) =>
      Object(map["type" := Text("createOutgoingCall"), "callId" := Int(id), "peerId" := Text(peer)])
    case Proceed(id, servers, hideIp) =>
      Object(map["type" := Text("proceed"), "callId" := Int(id), "iceServers" := Servers(servers),
                 "hideIp" := Bool(hideIp)])
    case ReceivedOffer(id, peer, device, offer, age, senderKey, receiverKey) =>
      Object(map["type" := Text("receivedOffer"), "callId" := Int(id), "peerId" := Text(peer),
                 "senderDeviceId" := Int(device), "opaque" := Blob(offer), "age" := Int(age),
                 "senderIdentityKey" := Blob(senderKey), "receiverIdentityKey" := Blob(receiverKey)])
    case ReceivedAnswer(answer, device, senderKey, receiverKey) =>
      Object(map["type" := Text("receivedAnswer"), "opaque" := Blob(answer), "senderDeviceId" := Int(device),
                 "senderIdentityKey" := Blob(senderKey), "receiverIdentityKey" := Blob(receiverKey)])
    case ReceivedIce(candidates, device) =>
      Object(map["type" := Text("receivedIce"), "candidates" := Blobs(candidates), "senderDeviceId" := Int(device)])
    case Accept => Object(map["type" := Text("accept")])
    case Hangup => Object(map["type" := Text("hangup")])
  }

  lemma {:induction false} StringsOfTexts(strings: seq<string>)
    ensures Strings(Texts(strings).items) == strings
  {
    if strings != [] {
      assert Texts(strings).items[1..] == Texts(strings[1..]).items;
      StringsOfTexts(strings[1..]);
      assert [strings[0]] + strings[1..] == strings;
    }
  }

  lemma ServersRoundTrip(servers: seq<IceServer>)
    ensures ServersOf(Servers(servers)) == servers
  {
    forall i | 0 <= i < |servers|
      ensures ServerOf(ServerValue(servers[i])) == servers[i]
    {
      StringsOfTexts(servers[i].urls);
    }
  }

  lemma BlobRoundTrip(b: seq<Byte>)
    ensures BlobOr(Blob(b)) == b
  {
    Base64.RoundTrip(b);
  }

  lemma {:induction false} DecodableBlobs(candidates: seq<seq<Byte>>)
    ensures Decodable(Blobs(candidates).items) == candidates
  {
    if candidates != [] {
      assert Blobs(candidates).items[1..] == Blobs(candidates[1..]).items;
      Base64.RoundTrip(candidates[0]);
      DecodableBlobs(candidates[1..]);
      assert [candidates[0]] + candidates[1..] == candidates;
    }
  }

  lemma ParseOffer(m: ControlMessage)
    requires m.ReceivedOffer?
    ensures ParseMessage(Command(m)) == Some(m)
  {
    hide Decodable, BlobOr, Blob, ServersOf, Servers;
    BlobRoundTrip(m.offer);
    BlobRoundTrip(m.senderKey);
    BlobRoundTrip(m.receiverKey);
  }

  lemma ParseAnswer(m: ControlMessage)
    requires m.ReceivedAnswer?
    ensures ParseMessage(Command(m)) == Some(m)
  {
    hide Decodable, BlobOr, Blob, ServersOf, Servers;
    BlobRoundTrip(m.answer);
    BlobRoundTrip(m.senderKey);
    BlobRoundTrip(m.receiverKey);
  }

  lemma ParseProceed(m: ControlMessage)
    requires m.Proceed?
    ensures ParseMessage(Command(m)) == Some(m)
  {
    hide Decodable, BlobOr, Blob, ServersOf, Servers;
    ServersRoundTrip(m.servers);
  }

  lemma ParseIce(m: ControlMessage)
    requires m.ReceivedIce?
    ensures ParseMessage(Command(m)) == Some(m)
  {
    hide Decodable, BlobOr, ServersOf, Servers;
    DecodableBlobs(m.candidates);
  }

  /** Every message has a command that the reader turns back into it, byte for byte. */
  lemma ParseCommand(m: ControlMessage)
    ensures ParseMessage(Command(m)) == Some(m)
  {
    match m
    case ReceivedOffer(_, _, _, _, _, _, _) => ParseOffer(m);
    case ReceivedAnswer(_, _, _, _) => ParseAnswer(m);
    case Proceed(_, _, _) => ParseProceed(m);
    case ReceivedIce(_, _) => ParseIce(m);
    case CreateOutgoingCall(_, _) =>
    case Accept =>
    case Hangup =>
  }

  /** Fields the reader does not know change nothing. */
  lemma UnknownFieldIgnored(fields: map<string, Value>, name: string, v: Value)
    requires name !in {"type", "callId", "peerId", "iceServers", "hideIp", "senderDeviceId", "opaque", "age",
                       "senderIdentityKey", "receiverIdentityKey", "candidates"}
    ensures ParseMessage(Object(fields[name := v])) == ParseMessage(Object(fields))
  {
    hide Get, ServersOf, CandidatesOf, BlobOr, Device, StringOr, U64Or, BoolOr;
    OtherFieldsStay(fields, name, v);
  }

  lemma OtherFieldsStay(fields: map<string, Value>, name: string, v: Value)
    ensures forall known: string :: known != name ==>
              Get(Object(fields[name := v]), known) == Get(Object(fields), known)
  {
  }

  lemma {:induction false} DecodableConcat(a: seq<Value>, b: seq<Value>)
    ensures Decodable(a + b) == Decodable(a) + Decodable(b)
  {
    if a == [] {
      assert a + b == b;
    } else {
      assert (a + b)[1..] == a[1..] + b;
      DecodableConcat(a[1..], b);
    }
  }

  lemma BadIsUndecodable(bad: Value)
    requires bad.Text? ==> Base64.Decode(bad.s).None?
    ensures Decodable([bad]) == []
  {
    hide Base64.Decode;
    assert [bad][1..] == [];
  }

  /** One bad candidate costs itself only: those around it arrive, in order. */
  lemma BadCandidateSkipped(a: seq<seq<Byte>>, bad: Value, b: seq<seq<Byte>>)
    requires bad.Text? ==> Base64.Decode(bad.s).None?
    ensures CandidatesOf(Array(Blobs(a).items + [bad] + Blobs(b).items)) == a + b
  {
    hide Base64.Decode, Base64.Encode, Decodable, Blobs;
    BadIsUndecodable(bad);
    BlobsAreArray(a);
    BlobsAreArray(b);
    DecodableBlobs(a);
    DecodableBlobs(b);
    var x, y := Blobs(a).items, Blobs(b).items;
    DecodableConcat(x + [bad], y);
    DecodableConcat(x, [bad]);
  }

  lemma BlobsAreArray(candidates: seq<seq<Byte>>)
    ensures Blobs(candidates).Array?
  {
  }

  /**
   * A tunnel prints each candidate as an object holding its blob, but reads candidates as
   * bare strings: the printed array handed over unchanged yields no candidate at all.
   */
  lemma PrintedCandidatesUnread(candidates: seq<seq<Byte>>)
    ensures CandidatesOf(Array(PrintedCandidates(candidates))) == []
  {
    ObjectsUndecodable(PrintedCandidates(candidates));
  }

  function PrintedCandidates(candidates: seq<seq<Byte>>): seq<Value>
  {
    seq(|candidates|, i requires 0 <= i < |candidates| => Object(map["opaque" := Blob(candidates[i])]))
  }

  lemma {:induction false} ObjectsUndecodable(items: seq<Value>)
    requires forall i :: 0 <= i < |items| ==> items[i].Object?
    ensures Decodable(items) == []
  {
    if items != [] {
      ObjectsUndecodable(items[1..]);
    }
  }

  // ----- what is read, field by field -----

  /** The number a field holds, if it is a non-negative one of 64 bits. */
  function Number(fields: map<string, Value>, name: string, default: nat): nat
  {
    if name in fields && fields[name].Int? && 0 <= fields[name].n <= 0xffff_ffff_ffff_ffff then fields[name].n
    else default
  }

  function Words(fields: map<string, Value>, name: string, default: string): string
  {
    if name in fields && fields[name].Text? then fields[name].s else default
  }

  /** The bytes a field's text encodes, if it is strict base64. */
  ghost predicate Bytewise(fields: map<string, Value>, name: string, data: seq<Byte>)
  {
    var text := Words(fields, name, "");
    text == Base64.Encode(data) || (data == [] && forall other :: text != Base64.Encode(other))
  }

  lemma BlobIsBytewise(fields: map<string, Value>, name: string)
    ensures Bytewise(fields, name, BlobOr(Get(Object(fields), name)))
  {
    hide Base64.Decode, Base64.Encode;
    var text := Words(fields, name, "");
    forall b: seq<Byte>
      ensures Base64.Decode(text) == Some(b) <==> text == Base64.Encode(b)
    {
      Base64.DecodesOnlyEncodings(text, b);
    }
  }

  /**
   * What each kind of command is read as. A field that is missing or of another type has its
   * default: device 1, peer "remote" in an offer and empty in a created call, 0 for the
   * other numbers, false, and no bytes.
   */
  lemma FieldsRead(fields: map<string, Value>)
    ensures var kind := Words(fields, "type", "");
            match ParseMessage(Object(fields))
            case None =>
              kind !in {"createOutgoingCall", "proceed", "receivedOffer", "receivedAnswer", "receivedIce", "accept",
                        "hangup"}
            case Some(CreateOutgoingCall(id, peer)) =>
              kind == "createOutgoingCall" && id == Number(fields, "callId", 0) && peer == Words(fields, "peerId", "")
            case Some(Proceed(id, servers, hideIp)) =>
              && kind == "proceed" && id == Number(fields, "callId", 0)
              && (hideIp <==> "hideIp" in fields && fields["hideIp"] == Bool(true))
              && servers == ServersOf(if "iceServers" in fields then fields["iceServers"] else Null)
            case Some(ReceivedOffer(id, peer, device, offer, age, senderKey, receiverKey)) =>
              && kind == "receivedOffer" && id == Number(fields, "callId", 0)
              && peer == Words(fields, "peerId", "remote")
              && device == Number(fields, "senderDeviceId", 1) % 0x1_0000_0000 && age == Number(fields, "age", 0)
              && Bytewise(fields, "opaque", offer)
              && Bytewise(fields, "senderIdentityKey", senderKey)
              && Bytewise(fields, "receiverIdentityKey", receiverKey)
            case Some(ReceivedAnswer(answer, device, senderKey, receiverKey)) =>
              && kind == "receivedAnswer" && device == Number(fields, "senderDeviceId", 1) % 0x1_0000_0000
              && Bytewise(fields, "opaque", answer)
              && Bytewise(fields, "senderIdentityKey", senderKey)
              && Bytewise(fields, "receiverIdentityKey", receiverKey)
            case Some(ReceivedIce(candidates, device)) =>
              && kind == "receivedIce" && device == Number(fields, "senderDeviceId", 1) % 0x1_0000_0000
              && candidates == CandidatesOf(if "candidates" in fields then fields["candidates"] else Null)
            case Some(Accept) => kind == "accept"
            case Some(Hangup) => kind == "hangup"
  {
    hide Bytewise, BlobOr, ServersOf, CandidatesOf;
    BlobIsBytewise(fields, "opaque");
    BlobIsBytewise(fields, "senderIdentityKey");
    BlobIsBytewise(fields, "receiverIdentityKey");
  }

  /** A server's missing or ill-typed names are empty, and only texts among its URLs count. */
  lemma ServerRead(items: seq<Value>, i: nat)
    requires i < |items|
    ensures var servers := ServersOf(Array(items));
            && |servers| == |items|
            && (!items[i].Object? ==> servers[i] == IceServer("", "", []))
            && (items[i].Object? ==>
                  var fields := items[i].fields;
                  && servers[i].username == Words(fields, "username", "")
                  && servers[i].password == Words(fields, "password", "")
                  && (!("urls" in fields && fields["urls"].Array?) ==> servers[i].urls == []))
  {
  }
}
