/** The JSON-RPC client object over its socket, proved against framing and mailbox. */
module SignalRpc {
  import opened Bytes
  import opened Framing
  import opened Mailbox
  import opened CallWaits
  import opened Options

  /** What one `recv` answers; `Eof` is the empty byte string. */
  datatype RecvResult = Data(chunk: seq<Byte>) | Eof | Timeout

  /** What resuming the line generator gives. */
  datatype LineResult = Line(line: seq<Byte>) | Ended | TimedOut

  /** How `_wait_response` ends; `Closed` is the `None` it returns when the socket has ended. */
  datatype WaitResult = Response(msg: Message) | RpcError(msg: Message) | Closed | WaitTimedOut | WaitMalformed

  /** A request as written to the socket: its number, its method and its parameters as text. */
  datatype Request = Request(id: nat, name: string, params: string)

  datatype StateResult = Reached(msg: Message) | NotReached | BadLine

  datatype EventResult = Event(msg: Message) | NoEvent | ReadTimedOut | ReadMalformed

  /** The bytes a script of answers delivers. */
  function DataOf(answers: seq<RecvResult>): seq<Byte>
  {
    if answers == [] then []
    else (if answers[0].Data? then answers[0].chunk else []) + DataOf(answers[1..])
  }

  /** Between two states of the script only answers that carry bytes were given. */
  ghost predicate OnlyData(start: seq<RecvResult>, now: seq<RecvResult>)
  {
    && |now| <= |start| && now == start[|start| - |now|..]
    && forall k :: 0 <= k < |start| - |now| ==> start[k].Data? && start[k].chunk != []
  }

  /**
   * Then came an answer that ends reading: a timeout, for which an exhausted script stands
   * too, or the end of the stream.
   */
  ghost predicate StopsAt(start: seq<RecvResult>, now: seq<RecvResult>, last: RecvResult)
  {
    || (last.Timeout? && now == [] && OnlyData(start, now))
    || (|now| < |start| && OnlyData(start, [start[|start| - |now| - 1]] + now)
        && (start[|start| - |now| - 1] == last || (last.Eof? && start[|start| - |now| - 1] == Data([]))))
  }

  lemma MoreData(start: seq<RecvResult>, now: seq<RecvResult>, later: seq<RecvResult>)
    requires OnlyData(start, now) && OnlyData(now, later)
    ensures OnlyData(start, later)
  {
    assert forall k :: |start| - |now| <= k < |start| ==> start[k] == now[k - (|start| - |now|)];
  }

  lemma ThenStops(start: seq<RecvResult>, now: seq<RecvResult>, later: seq<RecvResult>, last: RecvResult)
    requires OnlyData(start, now) && StopsAt(now, later, last)
    ensures StopsAt(start, later, last)
  {
    if last.Timeout? && later == [] && OnlyData(now, later) {
      MoreData(start, now, later);
    } else {
      var k := |now| - |later| - 1;
      assert start[|start| - |later| - 1] == now[k];
      MoreData(start, now, [now[k]] + later);
    }
  }

  lemma FirstAnswer(answers: seq<RecvResult>)
    ensures OnlyData(answers, answers)
    ensures answers == [] ==> StopsAt(answers, answers, Timeout)
    ensures answers != [] && answers[0].Data? && answers[0].chunk != [] ==> OnlyData(answers, answers[1..])
    ensures answers != [] && answers[0] == Data([]) ==> StopsAt(answers, answers[1..], Eof)
    ensures answers != [] && !answers[0].Data? ==> StopsAt(answers, answers[1..], answers[0])
  {
    assert answers != [] ==> [answers[0]] + answers[1..] == answers;
  }

  /** The messages among some lines; a line that is no valid JSON text is none. */
  function Messages(decode: seq<Byte> -> Option<Message>, lines: seq<seq<Byte>>): seq<Message>
  {
    if lines == [] then []
    else
      Messages(decode, lines[..|lines| - 1])
      + match decode(lines[|lines| - 1]) case None => [] case Some(m) => [m]
  }

  lemma {:induction false} MessagesConcat(decode: seq<Byte> -> Option<Message>, a: seq<seq<Byte>>, b: seq<seq<Byte>>)
    ensures Messages(decode, a + b) == Messages(decode, a) + Messages(decode, b)
  {
    if b == [] {
      assert a + b == a;
    } else {
      var last := match decode(b[|b| - 1]) case None => [] case Some(m) => [m];
      assert (a + b)[..|a + b| - 1] == a + b[..|b| - 1];
      MessagesConcat(decode, a, b[..|b| - 1]);
      assert Messages(decode, a) + Messages(decode, b[..|b| - 1]) + last
          == Messages(decode, a) + (Messages(decode, b[..|b| - 1]) + last);
    }
  }

  /** The whole byte stream: what was received and what is still to come. */
  function StreamOf(received: seq<Byte>, incoming: seq<RecvResult>): seq<Byte>
  {
    received + DataOf(incoming)
  }

  /**
   * Lines handed out, then the complete lines still buffered, are exactly the lines of all
   * bytes received; the unfinished line is the same too.
   */
  ghost predicate FramedAs(received: seq<Byte>, yielded: seq<seq<Byte>>, buf: seq<Byte>)
  {
    Lines(received) == yielded + Lines(buf) && Rest(received) == Rest(buf)
  }

  /** Requests carry different numbers, increasing from one, up to the last one given out. */
  ghost predicate Numbered(requests: seq<Request>, nextId: nat)
  {
    && (forall j :: 0 <= j < |requests| ==> 1 <= requests[j].id <= nextId)
    && (forall j, k :: 0 <= j < k < |requests| ==> requests[j].id < requests[k].id)
  }

  /** Buffered messages are the arrivals with these indices. */
  ghost predicate Copies(buffered: seq<Message>, indices: seq<nat>, arrived: seq<Message>)
  {
    && |buffered| == |indices|
    && forall k :: 0 <= k < |indices| ==> indices[k] < |arrived| && buffered[k] == arrived[indices[k]]
  }

  // ----- one move at a time -----

  lemma Arrives(received: seq<Byte>, yielded: seq<seq<Byte>>, buf: seq<Byte>, chunk: seq<Byte>)
    requires FramedAs(received, yielded, buf)
    ensures FramedAs(received + chunk, yielded, buf + chunk)
  {
    LinesConcat(received, chunk);
    LinesConcat(buf, chunk);
    Regroup(yielded, Lines(buf), Lines(Rest(buf) + chunk));
  }

  lemma Answered(received: seq<Byte>, yielded: seq<seq<Byte>>, buf: seq<Byte>, answers: seq<RecvResult>)
    requires FramedAs(received, yielded, buf) && answers != []
    ensures answers[0].Data? ==>
              var chunk := answers[0].chunk;
              && FramedAs(received + chunk, yielded, buf + chunk)
              && StreamOf(received + chunk, answers[1..]) == StreamOf(received, answers)
              && (chunk == [] ==> received + chunk == received && buf + chunk == buf)
    ensures !answers[0].Data? ==> StreamOf(received, answers[1..]) == StreamOf(received, answers)
  {
    hide FramedAs;
    if answers[0].Data? {
      var chunk := answers[0].chunk;
      Arrives(received, yielded, buf, chunk);
      assert received + (chunk + DataOf(answers[1..])) == (received + chunk) + DataOf(answers[1..]);
    } else {
      assert [] + DataOf(answers[1..]) == DataOf(answers[1..]);
    }
  }

  lemma SplitOff(received: seq<Byte>, yielded: seq<seq<Byte>>, buf: seq<Byte>)
    requires FramedAs(received, yielded, buf) && NEWLINE in buf
    ensures var n := FirstNewline(buf);
            n < |buf| && FramedAs(received, yielded + Cleaned(buf[..n]), buf[n + 1..])
  {
    hide Cleaned, Lines, Rest, FirstNewline;
    NewlineFound(buf);
    FirstLine(buf);
    var n := FirstNewline(buf);
    Regroup(yielded, Cleaned(buf[..n]), Lines(buf[n + 1..]));
  }

  lemma NewlineFound(buf: seq<Byte>)
    requires NEWLINE in buf
    ensures FirstNewline(buf) < |buf|
  {
  }

  lemma AllHandedOut(received: seq<Byte>, yielded: seq<seq<Byte>>, buf: seq<Byte>)
    requires FramedAs(received, yielded, buf) && NEWLINE !in buf
    ensures Lines(received) == yielded
  {
    assert Lines(buf) == [];
  }

  /** The line just handed out, if it parses, is the next message of the stream. */
  lemma NextArrival(decode: seq<Byte> -> Option<Message>, received: seq<Byte>, incoming: seq<RecvResult>,
                    before: seq<seq<Byte>>, line: seq<Byte>, buf: seq<Byte>)
    requires FramedAs(received, before + [line], buf)
    ensures var n := |Messages(decode, before)|;
            var all := Messages(decode, Lines(StreamOf(received, incoming)));
            match decode(line)
            case None => |Messages(decode, before + [line])| == n
            case Some(m) => |Messages(decode, before + [line])| == n + 1 && n < |all| && all[n] == m
  {
    MessagesConcat(decode, before, [line]);
    assert [line][..0] == [];
    Arrives(received, before + [line], buf, DataOf(incoming));
    MessagesConcat(decode, before + [line], Lines(buf + DataOf(incoming)));
  }

  lemma LinesLeft(received: seq<Byte>, incoming: seq<RecvResult>, yielded: seq<seq<Byte>>, buf: seq<Byte>)
    requires FramedAs(received, yielded, buf)
    ensures |yielded| <= |Lines(StreamOf(received, incoming))|
  {
    Arrives(received, yielded, buf, DataOf(incoming));
  }

  lemma PendingFiles(m: Mail, arrived: seq<Message>, buffered: seq<Message>)
    requires Copies(buffered, m.pending, arrived)
    ensures buffered == [] <==> m.pending == []
    ensures buffered != [] ==>
              var r := TakePending(m);
              && Copies(buffered[1..], r.pending, arrived)
              && r.next == m.next && r.returned == m.returned + [m.pending[0]]
              && m.pending[0] < |arrived| && buffered[0] == arrived[m.pending[0]]
  {
  }

  lemma AwaitingFiles(m: Mail, arrived: seq<Message>, req: int, buffered: seq<Message>)
    requires m.next < |arrived| && Copies(buffered, m.pending, arrived)
    ensures var r := TakeAwaiting(m, arrived, req);
            && r.next == m.next + 1
            && Copies(if Matches(arrived[m.next], req) then buffered else buffered + [arrived[m.next]],
                      r.pending, arrived)
            && r.consumed == m.consumed + if Matches(arrived[m.next], req) then [m.next] else []
  {
  }

  lemma AwaitTurn(m: Mail, arrived: seq<Message>, req: int)
    requires m.next < |arrived|
    ensures var r := TakeAwaiting(m, arrived, req);
            && r.next == m.next + 1
            && r.consumed == m.consumed + if Matches(arrived[m.next], req) then [m.next] else []
  {
  }

  lemma ReadingFiles(m: Mail, arrived: seq<Message>, buffered: seq<Message>)
    requires m.next < |arrived| && Copies(buffered, m.pending, arrived)
    ensures var r := TakeReading(m, arrived);
            && r.next == m.next + 1
            && Copies(if IsResponse(arrived[m.next]) then buffered + [arrived[m.next]] else buffered,
                      r.pending, arrived)
            && r.returned == m.returned + if IsResponse(arrived[m.next]) then [] else [m.next]
  {
  }

  /** The answer of the socket that makes waiting end like this, if it is one. */
  function WaitEnd(r: WaitResult): Option<RecvResult>
  {
    match r
    case Closed => Some(Eof)
    case WaitTimedOut => Some(Timeout)
    case _ => None
  }

  lemma WaitEnds(r: WaitResult)
    ensures WaitEnd(r) == if r.Closed? then Some(Eof) else if r.WaitTimedOut? then Some(Timeout) else None
    ensures IsAnswer(r) ==> !r.Closed? && !r.WaitTimedOut?
  {
  }

  function ReadEnd(r: EventResult): Option<RecvResult>
  {
    match r
    case NoEvent => Some(Eof)
    case ReadTimedOut => Some(Timeout)
    case _ => None
  }

  /** One more turn, which either read on or met the end `last`. */
  lemma ReadsOn(start: seq<RecvResult>, before: seq<RecvResult>, now: seq<RecvResult>, last: Option<RecvResult>)
    requires OnlyData(start, before)
    requires if last.Some? then StopsAt(before, now, last.value) else OnlyData(before, now)
    ensures if last.Some? then StopsAt(start, now, last.value) else OnlyData(start, now)
  {
    hide OnlyData, StopsAt;
    match last
    case Some(end) => ThenStops(start, before, now, end);
    case None => MoreData(start, before, now);
  }

  predicate IsAnswer(r: WaitResult) { r.Response? || r.RpcError? }

  /** One turn of waiting: a message is filed, and ends the wait if it matches; or nothing is read. */
  ghost predicate WaitTurn(was: Mail, now: Mail, arrived: seq<Message>, req: int, turn: Option<WaitResult>)
  {
    if turn.None? || IsAnswer(turn.value) then
      && was.next < |arrived| && now == TakeAwaiting(was, arrived, req)
      && (turn.None? <==> !Matches(arrived[was.next], req))
      && (turn.Some? ==> turn.value.msg == arrived[was.next] && turn.value.RpcError? == turn.value.msg.isError)
    else now == was
  }

  /** A whole wait that read `limit` messages: the answer is the last of them, or there is none. */
  ghost predicate WaitAnswer(was: Mail, now: Mail, arrived: seq<Message>, req: int, limit: nat, r: WaitResult)
  {
    && now == Await(was, arrived, req, limit)
    && if IsAnswer(r) then
         && now.next == was.next + limit && limit > 0
         && now.consumed == was.consumed + [now.next - 1]
         && now.next - 1 < |arrived| && r.msg == arrived[now.next - 1]
         && r.msg.id == IntId(req) && r.RpcError? == r.msg.isError
       else now.consumed == was.consumed
  }

  /** While waiting, `limit` messages have been read and none of them matched. */
  ghost predicate StillWaiting(start: Mail, now: Mail, arrived: seq<Message>, req: int, limit: nat)
  {
    now == Await(start, arrived, req, limit) && now.next == start.next + limit && now.consumed == start.consumed
  }

  lemma TurnAnswers(start: Mail, was: Mail, now: Mail, arrived: seq<Message>, req: int, limit: nat,
                    turn: Option<WaitResult>)
    requires StillWaiting(start, was, arrived, req, limit) && WaitTurn(was, now, arrived, req, turn)
    ensures turn.None? ==> StillWaiting(start, now, arrived, req, limit + 1)
    ensures turn.Some? ==>
              WaitAnswer(start, now, arrived, req, if IsAnswer(turn.value) then limit + 1 else limit, turn.value)
  {
    hide Await, TakeAwaiting;
    if turn.None? || IsAnswer(turn.value) {
      AwaitSnoc(start, arrived, req, limit);
      AwaitTurn(was, arrived, req);
    }
  }

  /** One turn of reading: a message is handed out or, being a response, put aside; or nothing is read. */
  ghost predicate ReadTurn(was: Mail, now: Mail, arrived: seq<Message>, turn: Option<EventResult>)
  {
    if turn.None? || turn.value.Event? then
      && was.next < |arrived| && now == TakeReading(was, arrived)
      && (turn.None? <==> IsResponse(arrived[was.next]))
      && (turn.None? ==> Events(now.pending, arrived) == [])
      && (turn.Some? ==> turn.value.msg == arrived[was.next])
    else now == was
  }

  /** A whole read that met `limit` messages: the result is the last of them, or there is none. */
  ghost predicate ReadAnswer(was: Mail, now: Mail, arrived: seq<Message>, limit: nat, r: EventResult)
  {
    && now == Read(was, arrived, limit)
    && (r.Event? <==> Returned(was, now))
    && (r.Event? ==> Last(now) < |arrived| && r.msg == arrived[Last(now)])
  }

  /** While reading, `limit` messages have been met, all of them responses. */
  ghost predicate StillReading(start: Mail, now: Mail, arrived: seq<Message>, limit: nat)
  {
    && now == Read(start, arrived, limit) && now.next == start.next + limit && now.returned == start.returned
    && Events(now.pending, arrived) == []
  }

  lemma TurnReads(start: Mail, was: Mail, now: Mail, arrived: seq<Message>, limit: nat, turn: Option<EventResult>)
    requires StillReading(start, was, arrived, limit) && ReadTurn(was, now, arrived, turn)
    ensures turn.None? ==> StillReading(start, now, arrived, limit + 1)
    ensures turn.Some? ==> ReadAnswer(start, now, arrived, if turn.value.Event? then limit + 1 else limit, turn.value)
  {
    hide Read, Events;
    if turn.None? || turn.value.Event? {
      ReadSnoc(start, arrived, limit);
    }
  }

  /** The script `now` is what is left of `start`. */
  ghost predicate EndsWith(start: seq<RecvResult>, now: seq<RecvResult>)
  {
    |now| <= |start| && now == start[|start| - |now|..]
  }

  /** The latest answer was a timeout, for which an exhausted script stands too. */
  ghost predicate TimesOutIn(start: seq<RecvResult>, now: seq<RecvResult>)
  {
    exists k :: 0 <= k <= |start| && StopsAt(start[k..], now, Timeout)
  }

  lemma StillEndsWith(start: seq<RecvResult>, before: seq<RecvResult>, now: seq<RecvResult>)
    requires EndsWith(start, before)
    ensures OnlyData(before, now) || StopsAt(before, now, Eof) || StopsAt(before, now, Timeout) ==> EndsWith(start, now)
    ensures StopsAt(before, now, Timeout) ==> TimesOutIn(start, now)
  {
    assert before == start[|start| - |before|..];
    if |now| < |before| {
      var k := |before| - |now| - 1;
      assert OnlyData(before, [before[k]] + now) ==> now == before[k..][1..] == before[k + 1..];
    }
  }

  lemma NoTurnYet(m: Mail, arrived: seq<Message>, target: string, incoming: seq<RecvResult>,
                  clock: seq<int>, deadline: int)
    ensures WaitFor(m, arrived, target, []) == (m, false) && EndsWith(incoming, incoming)
    ensures InTime(clock, 0, deadline)
  {
  }

  /** The first `n` readings of the clock are before the deadline. */
  ghost predicate InTime(clock: seq<int>, n: nat, deadline: int)
  {
    n <= |clock| && forall k :: 0 <= k < n ==> clock[k] < deadline
  }

  lemma StillInTime(clock: seq<int>, n: nat, deadline: int)
    requires InTime(clock, n, deadline) && n + 1 < |clock| && clock[n] < deadline && clock[n + 1] < deadline
    ensures InTime(clock, n + 2, deadline)
  {
  }

  /** One more read: the wait has succeeded exactly if the message read is the call event waited for. */
  lemma OneMoreRead(start: Mail, was: Mail, arrived: seq<Message>, target: string, limits: seq<nat>, limit: nat,
                    event: EventResult, now: Mail)
    requires WaitFor(start, arrived, target, limits) == (was, false) && |start.returned| <= |was.returned|
    requires now == Perform(was, arrived, ReadEvent(limit)) && (event.Event? <==> Returned(was, now))
    requires event.Event? ==> Last(now) < |arrived| && event.msg == arrived[Last(now)]
    ensures |was.returned| <= |now.returned|
    ensures event.Event? ==> Returned(start, now)
    ensures WaitFor(start, arrived, target, limits + [limit])
            == (now, event.Event? && event.msg.name == Some("callEvent") && event.msg.callState == Some(target))
  {
    hide WaitFor, Perform;
    WaitForSnoc(start, arrived, target, limits, limit);
    PerformExtends(was, arrived, ReadEvent(limit));
  }

  predicate AllResponses(buffered: seq<Message>)
  {
    forall k :: 0 <= k < |buffered| ==> IsResponse(buffered[k])
  }

  /** The buffer holds responses only if and only if it holds no event. */
  lemma {:induction false} ResponsesAreNoEvents(indices: seq<nat>, arrived: seq<Message>, buffered: seq<Message>)
    requires Copies(buffered, indices, arrived)
    ensures AllResponses(buffered) <==> Events(indices, arrived) == []
  {
    hide IsResponse;
    if indices != [] {
      ResponsesAreNoEvents(indices[..|indices| - 1], arrived, buffered[..|indices| - 1]);
    }
  }

  lemma NothingAwaited(m: Mail, arrived: seq<Message>, req: int)
    ensures StillWaiting(m, m, arrived, req, 0)
  {
  }

  lemma NothingPending(m: Mail, arrived: seq<Message>, buffered: seq<Message>)
    requires Copies(buffered, m.pending, arrived) && buffered == []
    ensures Read(m, arrived, 0) == m && Events(m.pending, arrived) == []
  {
  }

  // ----- the objects -----

  /** A suspended or fresh run of `_read_lines`: whether it has got past its first loop. */
  class LineReader {
    var receiving: bool

    constructor ()
      ensures !receiving
    {
      receiving := false;
    }
  }

  class Client {
    /** UTF-8 decoding and JSON parsing of one line; fails on malformed text. */
    const decode: seq<Byte> -> Option<Message>
    /** What the socket is still going to answer. */
    var incoming: seq<RecvResult>
    var buf: seq<Byte>
    var pending: seq<Message>
    var nextId: nat
    /** The requests the socket took. */
    ghost var requests: seq<Request>
    /** Everything received, and every line handed out by any reader so far. */
    ghost var received: seq<Byte>
    ghost var yielded: seq<seq<Byte>>
    ghost var mail: Mail

    constructor (decode: seq<Byte> -> Option<Message>, incoming: seq<RecvResult>)
      ensures Valid() && this.decode == decode && this.incoming == incoming
      ensures received == [] && yielded == [] && mail == EMPTY && nextId == 0 && requests == []
    {
      this.decode, this.incoming := decode, incoming;
      buf, pending, nextId := [], [], 0;
      received, yielded, mail, requests := [], [], EMPTY, [];
      new;
      assert Lines([]) == [] && Rest([]) == [];
      assert Range(0) == [];
    }

    ghost function Stream(): seq<Byte>
      reads this
    {
      StreamOf(received, incoming)
    }

    /** Every message that ever arrives, in order. */
    ghost function Arrived(): seq<Message>
      reads this
    {
      Messages(decode, Lines(Stream()))
    }

    ghost predicate Framed()
      reads this
    {
      FramedAs(received, yielded, buf)
    }

    ghost predicate Valid()
      reads this
    {
      && Framed()
      && mail.next == |Messages(decode, yielded)|
      && Sound(mail, Arrived())
      && Copies(pending, mail.pending, Arrived())
      && Numbered(requests, nextId)
    }

    /** Every complete line received so far has been handed out. */
    ghost predicate ReadEverything()
      reads this
    {
      Lines(received) == yielded
    }

    /** The line handed out last is no JSON object: where Python raises. */
    ghost predicate LastLineBad()
      reads this
    {
      yielded != [] && decode(yielded[|yielded| - 1]).None?
    }

    // ----- reading lines -----

    /** Splits off buffered lines until one is not blank. */
    method NextBuffered() returns (r: Option<seq<Byte>>)
      requires Framed()
      modifies this`buf, this`yielded
      ensures Framed()
      ensures r.None? ==> NEWLINE !in buf && yielded == old(yielded)
      ensures r.Some? ==> yielded == old(yielded) + [r.value]
    {
      hide FramedAs, FirstNewline, Strip;
      while NEWLINE in buf
        invariant Framed() && yielded == old(yielded)
        decreases |buf|
      {
        SplitOff(received, yielded, buf);
        var n := FirstNewline(buf);
        var line := Strip(buf[..n]);
        buf, yielded := buf[n + 1..], yielded + Cleaned(buf[..n]);
        if line != [] {
          return Some(line);
        }
      }
      r := None;
    }

    /** One `recv`, its data appended to the buffer; an empty answer counts as the end. */
    method Receive() returns (answer: RecvResult)
      requires Framed()
      modifies this`buf, this`incoming, this`received
      ensures Framed() && Stream() == old(Stream())
      ensures answer.Data? ==> |incoming| < |old(incoming)| && OnlyData(old(incoming), incoming)
      ensures !answer.Data? ==> buf == old(buf) && StopsAt(old(incoming), incoming, answer)
    {
      hide StreamOf, FramedAs, OnlyData, StopsAt;
      FirstAnswer(incoming);
      if incoming == [] { return Timeout; }
      Answered(received, yielded, buf, incoming);
      answer, incoming := incoming[0], incoming[1..];
      if answer.Data? {
        buf, received := buf + answer.chunk, received + answer.chunk;
        if answer.chunk == [] { return Eof; }
      }
    }

    /**
     * Resumes a line generator. Whether it is fresh, was abandoned by another caller, or is
     * re-entered after a yield, it hands out the next line of the byte stream.
     */
    method Resume(reader: LineReader) returns (r: LineResult)
      requires Framed()
      modifies this`buf, this`yielded, this`incoming, this`received, reader
      ensures Framed() && Stream() == old(Stream())
      ensures r.Line? ==> yielded == old(yielded) + [r.line]
      ensures r.Line? ==> OnlyData(old(incoming), incoming)
      ensures !r.Line? ==> yielded == old(yielded) && ReadEverything() && reader.receiving
      ensures !r.Line? ==> StopsAt(old(incoming), incoming, if r.Ended? then Eof else Timeout)
    {
      hide StreamOf, FramedAs, Lines, OnlyData, StopsAt;
      FirstAnswer(incoming);
      var line: Option<seq<Byte>>;
      if !reader.receiving {
        line := NextBuffered();
        if line.Some? { return Line(line.value); }
        reader.receiving := true;
      } else {
        line := NextBuffered();
        if line.Some? { return Line(line.value); }
      }
      while true
        invariant Framed() && Stream() == old(Stream())
        invariant yielded == old(yielded) && NEWLINE !in buf && reader.receiving
        invariant OnlyData(old(incoming), incoming)
        decreases |incoming|
      {
        ghost var before := incoming;
        var answer := Receive();
        if !answer.Data? {
          ThenStops(old(incoming), before, incoming, answer);
          AllHandedOut(received, yielded, buf);
        }
        match answer
        case Timeout => return TimedOut;
        case Eof => return Ended;
        case Data(_) =>
          MoreData(old(incoming), before, incoming);
          line := NextBuffered();
          if line.Some? { return Line(line.value); }
      }
    }

    // ----- reading messages -----

    /** Resumes the reader and parses; on success the message read is the next one unread. */
    method NextMessage(reader: LineReader) returns (line: LineResult, msg: Option<Message>)
      requires Valid()
      modifies this`buf, this`yielded, this`incoming, this`received, reader
      ensures Framed() && Arrived() == old(Arrived()) && Stream() == old(Stream())
      ensures |Messages(decode, yielded)| == mail.next + if msg.Some? then 1 else 0
      ensures msg.Some? ==> line.Line? && mail.next < |Arrived()| && msg.value == Arrived()[mail.next]
      ensures line.Line? ==> |yielded| == |old(yielded)| + 1
      ensures line.Line? && msg.None? ==> LastLineBad()
      ensures |yielded| <= |Lines(Stream())|
      ensures line.Line? ==> OnlyData(old(incoming), incoming)
      ensures !line.Line? ==> yielded == old(yielded) && ReadEverything()
                              && StopsAt(old(incoming), incoming, if line.Ended? then Eof else Timeout)
    {
      hide StreamOf, FramedAs, Lines, Messages, Sound, Copies, OnlyData, StopsAt;
      line := Resume(reader);
      msg := None;
      if line.Line? {
        msg := decode(line.line);
        NextArrival(decode, received, incoming, old(yielded), line.line, buf);
      }
      LinesLeft(received, incoming, yielded, buf);
    }

    /**
     * `_send`: numbers the request and writes it. The number is used up even if the socket
     * fails, so no two requests ever carry the same one.
     */
    method Send(name: string, params: string, accepted: bool) returns (id: Option<nat>)
      requires Valid()
      modifies this`nextId, this`requests
      ensures Valid() && nextId == old(nextId) + 1
      ensures id == if accepted then Some(nextId) else None
      ensures requests == if accepted then old(requests) + [Request(nextId, name, params)] else old(requests)
    {
      hide StreamOf, FramedAs, Lines, Messages, Sound, Copies;
      nextId := nextId + 1;
      if !accepted { return None; }
      requests := requests + [Request(nextId, name, params)];
      id := Some(nextId);
    }

    /** Lines not handed out yet, complete or still to come. */
    ghost function Remaining(): int
      reads this
    {
      |Lines(Stream())| - |yielded|
    }

    /** One turn of `_wait_response`; no result means that a message was buffered. */
    method AwaitOne(reader: LineReader, req: int) returns (r: Option<WaitResult>)
      requires Valid()
      modifies this`buf, this`yielded, this`incoming, this`received, this`pending, this`mail, reader
      ensures Valid() && Arrived() == old(Arrived())
      ensures r.None? ==> 0 <= Remaining() < old(Remaining())
      ensures WaitTurn(old(mail), mail, Arrived(), req, r)
      ensures if r.Some? && WaitEnd(r.value).Some? then
                StopsAt(old(incoming), incoming, WaitEnd(r.value).value) && ReadEverything()
              else OnlyData(old(incoming), incoming)
      ensures r.Some? && r.value.WaitMalformed? ==> LastLineBad()
    {
      hide StreamOf, FramedAs, Lines, Messages, Sound, Copies, TakeAwaiting, OnlyData, StopsAt;
      var line, msg := NextMessage(reader);
      match line
      case TimedOut => return Some(WaitTimedOut);
      case Ended => return Some(Closed);
      case Line(_) =>
        if msg.None? { return Some(WaitMalformed); }
        var m := msg.value;
        AwaitingKeeps(mail, Arrived(), req);
        AwaitingFiles(mail, Arrived(), req, pending);
        mail := TakeAwaiting(mail, Arrived(), req);
        if m.id == IntId(req) {
          return Some(if m.isError then RpcError(m) else Response(m));
        }
        pending := pending + [m];
        return None;
    }

    /**
     * `_wait_response`: buffers messages until one has the requested id. Buffer and mailbox
     * move exactly as the model's `Await` over the messages read.
     */
    method WaitResponse(req: int) returns (r: WaitResult, ghost limit: nat)
      requires Valid()
      modifies this`buf, this`yielded, this`incoming, this`received, this`pending, this`mail
      ensures Valid() && Arrived() == old(Arrived())
      ensures WaitAnswer(old(mail), mail, Arrived(), req, limit, r)
      ensures r.Closed? ==> StopsAt(old(incoming), incoming, Eof) && ReadEverything()
      ensures r.WaitTimedOut? ==> StopsAt(old(incoming), incoming, Timeout) && ReadEverything()
      ensures r.WaitMalformed? ==> LastLineBad()
      ensures IsAnswer(r) || r.WaitMalformed? ==> OnlyData(old(incoming), incoming)
    {
      var reader := new LineReader();
      limit := 0;
      FirstAnswer(incoming);
      hide *;
      NothingAwaited(mail, Arrived(), req);
      while true
        invariant Valid() && Arrived() == old(Arrived())
        invariant StillWaiting(old(mail), mail, Arrived(), req, limit)
        invariant OnlyData(old(incoming), incoming)
        decreases Remaining()
      {
        var turn;
        turn, limit := AwaitNext(reader, req, old(mail), old(incoming), limit);
        if turn.Some? { return turn.value, limit; }
      }
    }

    /** One turn of a wait that began at `start` with the script `script`. */
    method AwaitNext(reader: LineReader, req: int, ghost start: Mail, ghost script: seq<RecvResult>, ghost before: nat)
      returns (r: Option<WaitResult>, ghost limit: nat)
      requires Valid() && StillWaiting(start, mail, Arrived(), req, before) && OnlyData(script, incoming)
      modifies this`buf, this`yielded, this`incoming, this`received, this`pending, this`mail, reader
      ensures Valid() && Arrived() == old(Arrived())
      ensures r.None? ==>
                && StillWaiting(start, mail, Arrived(), req, limit) && OnlyData(script, incoming)
                && 0 <= Remaining() < old(Remaining())
      ensures r.Some? ==>
                && WaitAnswer(start, mail, Arrived(), req, limit, r.value)
                && (r.value.Closed? ==> StopsAt(script, incoming, Eof) && ReadEverything())
                && (r.value.WaitTimedOut? ==> StopsAt(script, incoming, Timeout) && ReadEverything())
                && (r.value.WaitMalformed? ==> LastLineBad())
                && (IsAnswer(r.value) || r.value.WaitMalformed? ==> OnlyData(script, incoming))
    {
      hide *;
      ghost var was, rest := mail, incoming;
      r := AwaitOne(reader, req);
      TurnAnswers(start, was, mail, Arrived(), req, before, r);
      limit := if r.None? || IsAnswer(r.value) then before + 1 else before;
      if r.Some? {
        WaitEnds(r.value);
        ReadsOn(script, rest, incoming, WaitEnd(r.value));
      } else {
        ReadsOn(script, rest, incoming, None);
      }
    }

    /**
     * `read_event`: hands out the oldest buffered message, or else the next message from the
     * stream that is no response, putting responses aside.
     */
    method ReadOne() returns (r: EventResult, ghost limit: nat)
      requires Valid()
      modifies this`buf, this`yielded, this`incoming, this`received, this`pending, this`mail
      ensures Valid() && Arrived() == old(Arrived())
      ensures mail == Perform(old(mail), Arrived(), ReadEvent(limit))
      ensures r.Event? <==> Returned(old(mail), mail)
      ensures r.Event? ==> Last(mail) < |Arrived()| && r.msg == Arrived()[Last(mail)]
      ensures old(pending) != [] ==> r == Event(old(pending)[0]) && incoming == old(incoming)
      ensures match r
              case NoEvent => StopsAt(old(incoming), incoming, Eof) && ReadEverything() && AllResponses(pending)
              case ReadTimedOut =>
                StopsAt(old(incoming), incoming, Timeout) && ReadEverything() && AllResponses(pending)
              case ReadMalformed => OnlyData(old(incoming), incoming) && LastLineBad()
              case Event(_) => OnlyData(old(incoming), incoming)
    {
      hide StreamOf, FramedAs, Lines, Messages, Sound, Copies, Read, OnlyData, StopsAt, AllResponses;
      FirstAnswer(incoming);
      PendingFiles(mail, Arrived(), pending);
      if pending != [] {
        PendingKeeps(mail, Arrived());
        r, limit := Event(pending[0]), 0;
        pending, mail := pending[1..], TakePending(mail);
      } else {
        r, limit := ReadStream();
      }
    }

    /** One turn of the reading loop; no result means that a response was put aside. */
    method ReadNext(reader: LineReader) returns (r: Option<EventResult>)
      requires Valid() && AllResponses(pending)
      modifies this`buf, this`yielded, this`incoming, this`received, this`pending, this`mail, reader
      ensures Valid() && Arrived() == old(Arrived())
      ensures r.None? ==> 0 <= Remaining() < old(Remaining())
      ensures ReadTurn(old(mail), mail, Arrived(), r)
      ensures if r.Some? && ReadEnd(r.value).Some? then
                StopsAt(old(incoming), incoming, ReadEnd(r.value).value) && ReadEverything() && AllResponses(pending)
              else OnlyData(old(incoming), incoming)
      ensures r.Some? && r.value.ReadMalformed? ==> LastLineBad()
    {
      hide StreamOf, FramedAs, Lines, Messages, Sound, Copies, TakeReading, Events, AllResponses, OnlyData, StopsAt;
      ResponsesAreNoEvents(mail.pending, Arrived(), pending);
      var line, msg := NextMessage(reader);
      match line
      case TimedOut => return Some(ReadTimedOut);
      case Ended => return Some(NoEvent);
      case Line(_) =>
        if msg.None? { return Some(ReadMalformed); }
        var m := msg.value;
        ReadingKeeps(mail, Arrived());
        ReadingFiles(mail, Arrived(), pending);
        if IsResponse(m) {
          ReadingBuffersResponses(mail, Arrived());
          pending, mail := pending + [m], TakeReading(mail, Arrived());
          return None;
        }
        mail := TakeReading(mail, Arrived());
        return Some(Event(m));
    }

    lemma NothingReadYet()
      requires Valid() && pending == []
      ensures StillReading(mail, mail, Arrived(), 0)
    {
      hide StreamOf, FramedAs, Lines, Messages, Sound, Read;
      NothingPending(mail, Arrived(), pending);
    }

    lemma OnlyResponsesPending(start: Mail, limit: nat)
      requires Valid() && StillReading(start, mail, Arrived(), limit)
      ensures AllResponses(pending)
    {
      hide StreamOf, FramedAs, Lines, Messages, Sound, Read, AllResponses, Events;
      ResponsesAreNoEvents(mail.pending, Arrived(), pending);
    }

    /** The reading half of `read_event`, with nothing buffered at the start. */
    method ReadStream() returns (r: EventResult, ghost limit: nat)
      requires Valid() && pending == []
      modifies this`buf, this`yielded, this`incoming, this`received, this`pending, this`mail
      ensures Valid() && Arrived() == old(Arrived())
      ensures ReadAnswer(old(mail), mail, Arrived(), limit, r)
      ensures if ReadEnd(r).Some? then
                StopsAt(old(incoming), incoming, ReadEnd(r).value) && ReadEverything() && AllResponses(pending)
              else OnlyData(old(incoming), incoming)
      ensures r.ReadMalformed? ==> LastLineBad()
    {
      FirstAnswer(incoming);
      hide *;
      NothingReadYet();
      var reader := new LineReader();
      limit := 0;
      while true
        invariant Valid() && Arrived() == old(Arrived())
        invariant StillReading(old(mail), mail, Arrived(), limit)
        invariant OnlyData(old(incoming), incoming)
        decreases Remaining()
      {
        ghost var was, before := mail, incoming;
        OnlyResponsesPending(old(mail), limit);
        var turn := ReadNext(reader);
        ReadsOn(old(incoming), before, incoming, if turn.Some? then ReadEnd(turn.value) else None);
        TurnReads(old(mail), was, mail, Arrived(), limit, turn);
        if turn.None? || turn.value.Event? {
          limit := limit + 1;
        }
        if turn.Some? { return turn.value, limit; }
      }
    }

    /** One turn of `wait_for_state`; no result means that the wait goes on. */
    method WaitOnce(ghost start: Mail, target: string, ghost limits: seq<nat>)
      returns (r: Option<StateResult>, ghost limit: nat)
      requires Valid() && |start.returned| <= |mail.returned|
      requires WaitFor(start, Arrived(), target, limits) == (mail, false)
      modifies this`buf, this`yielded, this`incoming, this`received, this`pending, this`mail
      ensures Valid() && Arrived() == old(Arrived()) && |start.returned| <= |mail.returned|
      ensures WaitFor(start, Arrived(), target, limits + [limit]) == (mail, r.Some? && r.value.Reached?)
      ensures r.Some? && r.value.Reached? ==>
                && Returned(start, mail) && Last(mail) < |Arrived()| && r.value.msg == Arrived()[Last(mail)]
                && r.value.msg.name == Some("callEvent") && r.value.msg.callState == Some(target)
      ensures r.Some? && r.value.BadLine? ==> LastLineBad()
      ensures forall script :: EndsWith(script, old(incoming)) ==> EndsWith(script, incoming)
      ensures r == Some(NotReached) ==>
                && ReadEverything() && AllResponses(pending)
                && forall script :: EndsWith(script, old(incoming)) ==> TimesOutIn(script, incoming)
    {
      hide *;
      ghost var was, before := mail, incoming;
      var event;
      event, limit := ReadOne();
      OneMoreRead(start, was, Arrived(), target, limits, limit, event, mail);
      forall script | EndsWith(script, before)
        ensures EndsWith(script, incoming) && (event.ReadTimedOut? ==> TimesOutIn(script, incoming))
      {
        StillEndsWith(script, before, incoming);
      }
      match event
      case ReadTimedOut => r := Some(NotReached);
      case ReadMalformed => r := Some(BadLine);
      case NoEvent => r := None;
      case Event(m) =>
        r := if m.name == Some("callEvent") && m.callState == Some(target) then Some(Reached(m)) else None;
    }

    /**
     * `wait_for_state`: reads events until one carries the target state, the deadline passes
     * or a read fails. `clock` is what successive readings of the time would give.
     */
    method WaitForState(target: string, deadline: int, clock: seq<int>)
      returns (r: StateResult, ghost limits: seq<nat>)
      requires Valid()
      modifies this`buf, this`yielded, this`incoming, this`received, this`pending, this`mail
      ensures Valid() && Arrived() == old(Arrived())
      ensures WaitFor(old(mail), Arrived(), target, limits) == (mail, r.Reached?)
      ensures r.Reached? ==> Returned(old(mail), mail) && Last(mail) < |Arrived()| && r.msg == Arrived()[Last(mail)]
      ensures r.Reached? ==> r.msg.name == Some("callEvent") && r.msg.callState == Some(target)
      ensures r.BadLine? ==> LastLineBad()
      ensures InTime(clock, 2 * |limits|, deadline)
      ensures r.NotReached? ==>
                || 2 * |limits| + 1 >= |clock| || clock[2 * |limits|] >= deadline || clock[2 * |limits| + 1] >= deadline
                || (TimesOutIn(old(incoming), incoming) && ReadEverything() && AllResponses(pending))
    {
      limits := [];
      var now := 0;
      NoTurnYet(mail, Arrived(), target, incoming, clock, deadline);
      hide *;
      while now + 1 < |clock| && clock[now] < deadline
        invariant Valid() && Arrived() == old(Arrived())
        invariant WaitFor(old(mail), Arrived(), target, limits) == (mail, false)
        invariant |old(mail).returned| <= |mail.returned| && EndsWith(old(incoming), incoming)
        invariant now == 2 * |limits| && InTime(clock, now, deadline)
      {
        if deadline - clock[now + 1] <= 0 { break; }
        StillInTime(clock, now, deadline);
        now := now + 2;
        var turn, limit := WaitOnce(old(mail), target, limits);
        limits := limits + [limit];
        if turn.Some? { return turn.value, limits; }
      }
      r := NotReached;
    }
  }
}
