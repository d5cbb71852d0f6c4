/**
 * What reaches standard output. Platform callbacks post events; a forwarder thread prints
 * them into the writer's channel; the main loop adds error lines to the same channel; a
 * writer thread prints the channel. The threads interleave freely.
 */
module Stdout {
  import opened Json
  import opened Platform
  import opened Options

  datatype Line =
    | Ready(input: string, output: string)
    | Event(e: PlatformEvent)
    | CreateFailed(message: string)
    | ProceedFailed(message: string)

  function TextOf(l: Line): string
  {
    match l
    case Ready(input, output) =>
      "{\"type\":\"ready\"" + ",\"inputDeviceName\":\"" + input + "\",\"outputDeviceName\":\"" + output + "\"}"
    case Event(e) => ToJson(e)
    case CreateFailed(m) => ErrorLine("failed to create outgoing call: " + m)
    case ProceedFailed(m) => ErrorLine("failed to proceed: " + m)
  }

  function ErrorLine(message: string): string { "{\"type\":\"error\"" + ",\"message\":\"" + message + "\"}" }

  /** What printing these lines puts on standard output. */
  function Text(lines: seq<Line>): string
  {
    if lines == [] then "" else Text(lines[..|lines| - 1]) + TextOf(lines[|lines| - 1]) + "\n"
  }

  function EventsOf(lines: seq<Line>): seq<PlatformEvent>
  {
    if lines == [] then []
    else
      var l := lines[|lines| - 1];
      EventsOf(lines[..|lines| - 1]) + if l.Event? then [l.e] else []
  }

  function ErrorsOf(lines: seq<Line>): seq<Line>
  {
    if lines == [] then []
    else
      var l := lines[|lines| - 1];
      ErrorsOf(lines[..|lines| - 1]) + if l.CreateFailed? || l.ProceedFailed? then [l] else []
  }

  // ----- the threads -----

  datatype Forwarder = Awaiting | Holding(e: PlatformEvent)

  /** A writer that failed leaves its loop; only then is its end of the channel dropped. */
  datatype Writer = Waiting | Writing(line: Line) | Broken | Gone

  datatype State = State(
    posted: seq<PlatformEvent>, received: nat, forwarder: Forwarder,
    reported: seq<Line>, sent: seq<Line>, taken: nat, writer: Writer, text: string)

  /** How writing one line and flushing it ends: in full, or with an error after some characters. */
  datatype Outcome = Wrote | Stopped(n: nat)

  datatype Actor = Post(e: PlatformEvent) | Forward | Report(creating: bool, message: string) | Write(outcome: Outcome)

  /** The ready line is in the channel before any thread runs. */
  function Initial(ready: Line): State
  {
    State([], 0, Awaiting, [], [ready], 0, Waiting, "")
  }

  predicate WellFormed(s: State) { s.received <= |s.posted| && s.taken <= |s.sent| }

  /** Sending to a channel whose receiver is gone fails, and the line is lost. */
  function Send(s: State, l: Line): State
  {
    if s.writer.Gone? then s else s.(sent := s.sent + [l])
  }

  function ForwardStep(s: State): State
    requires WellFormed(s)
  {
    match s.forwarder
    case Awaiting =>
      if s.received < |s.posted|
      then s.(forwarder := Holding(s.posted[s.received]), received := s.received + 1)
      else s
    case Holding(e) => Send(s, Event(e)).(forwarder := Awaiting)
  }

  function Cut(text: string, n: nat): string { if n <= |text| then text[..n] else text }

  function WriteStep(s: State, o: Outcome): State
    requires WellFormed(s)
  {
    match s.writer
    case Waiting =>
      if s.taken < |s.sent| then s.(writer := Writing(s.sent[s.taken]), taken := s.taken + 1) else s
    case Writing(l) =>
      (match o
       case Wrote => s.(text := s.text + TextOf(l) + "\n", writer := Waiting)
       case Stopped(n) => s.(text := s.text + Cut(TextOf(l) + "\n", n), writer := Broken))
    case Broken => s.(writer := Gone)
    case Gone => s
  }

  function Next(s: State, a: Actor): (r: State)
    requires WellFormed(s)
    ensures WellFormed(r)
  {
    match a
    case Post(e) => s.(posted := s.posted + [e])
    case Forward => ForwardStep(s)
    case Report(creating, m) =>
      var l := if creating then CreateFailed(m) else ProceedFailed(m);
      Send(s, l).(reported := s.reported + [l])
    case Write(o) => WriteStep(s, o)
  }

  function Run(ready: Line, actors: seq<Actor>): (r: State)
    ensures WellFormed(r)
  {
    if actors == [] then Initial(ready) else Next(Run(ready, actors[..|actors| - 1]), actors[|actors| - 1])
  }

  // ----- what every step keeps -----

  function Held(f: Forwarder): seq<PlatformEvent>
  {
    match f case Awaiting => [] case Holding(e) => [e]
  }

  /** Events leave in the order posted; none is lost while the writer's channel is open. */
  predicate EventOrder(s: State)
    requires WellFormed(s)
  {
    && EventsOf(s.sent) <= s.posted[..s.received]
    && (!s.writer.Gone? ==> EventsOf(s.sent) + Held(s.forwarder) == s.posted[..s.received])
  }

  predicate ErrorOrder(s: State)
  {
    && ErrorsOf(s.sent) <= s.reported
    && (!s.writer.Gone? ==> ErrorsOf(s.sent) == s.reported)
  }

  /** The first line is `ready`, and it is the only one. */
  predicate ReadyFirst(s: State, ready: Line)
  {
    && s.sent != [] && s.sent[0] == ready
    && forall i :: 0 < i < |s.sent| ==> !s.sent[i].Ready?
  }

  /** Standard output holds the lines taken so far, the last of them perhaps cut short. */
  predicate TextFollows(s: State)
    requires WellFormed(s)
  {
    match s.writer
    case Waiting => s.text == Text(s.sent[..s.taken])
    case Writing(l) => s.taken > 0 && l == s.sent[s.taken - 1] && s.text == Text(s.sent[..s.taken - 1])
    case _ => s.taken > 0 && Text(s.sent[..s.taken - 1]) <= s.text <= Text(s.sent[..s.taken])
  }

  lemma EventsSnoc(lines: seq<Line>, l: Line)
    ensures EventsOf(lines + [l]) == EventsOf(lines) + if l.Event? then [l.e] else []
    ensures ErrorsOf(lines + [l]) == ErrorsOf(lines) + if l.CreateFailed? || l.ProceedFailed? then [l] else []
    ensures Text(lines + [l]) == Text(lines) + TextOf(l) + "\n"
  {
    assert (lines + [l])[..|lines|] == lines;
  }

  lemma PostKeepsOrder(s: State, e: PlatformEvent)
    requires WellFormed(s) && EventOrder(s) && ErrorOrder(s)
    ensures EventOrder(Next(s, Post(e))) && ErrorOrder(Next(s, Post(e)))
  {
    hide EventsOf, ErrorsOf;
    assert (s.posted + [e])[..s.received] == s.posted[..s.received];
  }

  lemma ForwardKeepsOrder(s: State)
    requires WellFormed(s) && EventOrder(s) && ErrorOrder(s)
    ensures EventOrder(ForwardStep(s)) && ErrorOrder(ForwardStep(s))
  {
    hide EventsOf, ErrorsOf, Text, TextOf;
    match s.forwarder {
      case Holding(e) => EventsSnoc(s.sent, Event(e));
      case Awaiting =>
        if s.received < |s.posted| {
          assert s.posted[..s.received + 1] == s.posted[..s.received] + [s.posted[s.received]];
        }
    }
  }

  lemma ReportKeepsOrder(s: State, creating: bool, m: string)
    requires WellFormed(s) && EventOrder(s) && ErrorOrder(s)
    ensures EventOrder(Next(s, Report(creating, m))) && ErrorOrder(Next(s, Report(creating, m)))
  {
    hide EventsOf, ErrorsOf, Text, TextOf;
    var l := if creating then CreateFailed(m) else ProceedFailed(m);
    EventsSnoc(s.sent, l);
    assert EventsOf(s.sent) + [] == EventsOf(s.sent);
  }

  lemma OrderKept(s: State, a: Actor)
    requires WellFormed(s) && EventOrder(s) && ErrorOrder(s)
    ensures EventOrder(Next(s, a)) && ErrorOrder(Next(s, a))
  {
    hide EventsOf, ErrorsOf, Text, TextOf;
    match a
    case Post(e) => PostKeepsOrder(s, e);
    case Forward => ForwardKeepsOrder(s);
    case Report(creating, m) => ReportKeepsOrder(s, creating, m);
    case Write(o) =>
  }

  lemma TextKept(s: State, a: Actor)
    requires WellFormed(s) && TextFollows(s)
    ensures TextFollows(Next(s, a))
  {
    hide TextOf, Text, WriteStep, TextFollows;
    if a.Write? {
      WriteKeepsText(s, a.outcome);
    } else {
      MoreSent(s, Next(s, a));
    }
  }

  /** More lines in the channel leave the output where it was. */
  lemma MoreSent(s: State, r: State)
    requires WellFormed(s) && TextFollows(s) && WellFormed(r) && s.sent <= r.sent
    requires r.taken == s.taken && r.writer == s.writer && r.text == s.text
    ensures TextFollows(r)
  {
    hide TextOf, Text;
    assert r.sent[..s.taken] == s.sent[..s.taken];
    if s.taken > 0 {
      assert r.sent[..s.taken - 1] == s.sent[..s.taken - 1];
    }
  }

  lemma WriteKeepsText(s: State, o: Outcome)
    requires WellFormed(s) && TextFollows(s)
    ensures WellFormed(WriteStep(s, o)) && TextFollows(WriteStep(s, o))
  {
    hide TextOf, Text;
    match s.writer
    case Waiting =>
    case Writing(l) =>
      assert s.sent[..s.taken] == s.sent[..s.taken - 1] + [l];
      EventsSnoc(s.sent[..s.taken - 1], l);
      CutIsPrefix(TextOf(l) + "\n", o);
      assert s.text + (TextOf(l) + "\n") == Text(s.sent[..s.taken]);
    case _ =>
  }

  lemma CutIsPrefix(line: string, o: Outcome)
    ensures o.Stopped? ==> Cut(line, o.n) <= line
  {
  }

  predicate Consistent(s: State, ready: Line)
  {
    WellFormed(s) && EventOrder(s) && ErrorOrder(s) && ReadyFirst(s, ready) && TextFollows(s)
  }

  lemma {:induction false} RunKeeps(ready: Line, actors: seq<Actor>)
    requires ready.Ready?
    ensures Consistent(Run(ready, actors), ready)
  {
    hide TextFollows, EventOrder, ErrorOrder;
    if actors == [] {
      StartsConsistent(ready);
    } else {
      var s, a := Run(ready, actors[..|actors| - 1]), actors[|actors| - 1];
      RunKeeps(ready, actors[..|actors| - 1]);
      OrderKept(s, a);
      TextKept(s, a);
    }
  }

  lemma StartsConsistent(ready: Line)
    requires ready.Ready?
    ensures Consistent(Initial(ready), ready)
  {
    EventsSnoc([], ready);
    assert [] + [ready] == [ready];
  }

  // ----- results on the text itself, for all events and messages -----

  lemma {:induction false} TextOfPrefix(lines: seq<Line>, k: nat)
    requires k <= |lines|
    ensures Text(lines[..k]) <= Text(lines)
  {
    hide TextOf;
    if k == |lines| {
      assert lines[..k] == lines;
    } else {
      TextOfPrefix(lines[..|lines| - 1], k);
      assert lines[..|lines| - 1][..k] == lines[..k];
    }
  }

  lemma {:induction false} EventsOfPrefix(lines: seq<Line>, k: nat)
    requires k <= |lines|
    ensures EventsOf(lines[..k]) <= EventsOf(lines)
  {
    if k == |lines| {
      assert lines[..k] == lines;
    } else {
      EventsOfPrefix(lines[..|lines| - 1], k);
      assert lines[..|lines| - 1][..k] == lines[..k];
    }
  }

  /** The output is some whole lines of the channel, in order, and the beginning of the next. */
  lemma OutputIsLines(s: State) returns (k: nat, tail: string)
    requires WellFormed(s) && TextFollows(s)
    ensures k <= |s.sent| && s.text == Text(s.sent[..k]) + tail
    ensures tail != "" ==> k < |s.sent| && tail <= TextOf(s.sent[k])
    ensures s.writer.Waiting? ==> k == s.taken && tail == ""
  {
    hide TextOf, Text;
    match s.writer
    case Waiting => k, tail := s.taken, "";
    case Writing(_) => k, tail := s.taken - 1, "";
    case _ =>
      var init, l := s.sent[..s.taken - 1], s.sent[s.taken - 1];
      assert s.sent[..s.taken] == init + [l];
      EventsSnoc(init, l);
      k, tail := CutAt(s.text, Text(init), TextOf(l));
      k := s.taken - 1 + k;
  }

  /** A text that stops within `line` and its newline, or right behind them. */
  lemma CutAt(text: string, before: string, line: string) returns (k: nat, tail: string)
    requires before <= text <= before + line + "\n"
    ensures k == 0 ==> text == before + tail && tail <= line
    ensures k == 1 ==> text == before + line + "\n" && tail == ""
    ensures k <= 1
  {
    k, tail := 0, text[|before|..];
    assert tail <= line + "\n";
    if |tail| == |line| + 1 {
      assert tail == line + "\n";
      k, tail := 1, "";
    } else {
      assert tail == (line + "\n")[..|tail|] == line[..|tail|];
    }
  }

  /**
   * Under every interleaving and every way writing can fail: output begins with the ready
   * line and goes on with whole channel lines in order, the last of them perhaps cut off;
   * the channel holds the posted events in order and the main loop's error lines in order.
   */
  lemma StdoutOrder(ready: Line, actors: seq<Actor>) returns (k: nat, tail: string)
    requires ready.Ready?
    ensures var s := Run(ready, actors);
            && k <= |s.sent| && s.text == Text(s.sent[..k]) + tail
            && (tail != "" ==> k < |s.sent| && tail <= TextOf(s.sent[k]))
            && EventsOf(s.sent) <= s.posted && ErrorsOf(s.sent) <= s.reported
            && s.sent != [] && s.sent[0] == ready && (forall i :: 0 < i < |s.sent| ==> !s.sent[i].Ready?)
            && (s.text <= TextOf(ready) || TextOf(ready) + "\n" <= s.text)
  {
    hide *;
    RunKeeps(ready, actors);
    var s := Run(ready, actors);
    FromConsistent(s, ready);
    k, tail := OutputIsLines(s);
    BeginsWithReady(s, ready, k, tail);
  }

  lemma FromConsistent(s: State, ready: Line)
    requires Consistent(s, ready)
    ensures WellFormed(s) && TextFollows(s) && EventsOf(s.sent) <= s.posted && ErrorsOf(s.sent) <= s.reported
    ensures s.sent != [] && s.sent[0] == ready && forall i :: 0 < i < |s.sent| ==> !s.sent[i].Ready?
  {
    hide TextFollows, EventsOf, ErrorsOf;
  }

  lemma BeginsWithReady(s: State, ready: Line, k: nat, tail: string)
    requires s.sent != [] && s.sent[0] == ready && k <= |s.sent| && s.text == Text(s.sent[..k]) + tail
    requires tail != "" ==> k < |s.sent| && tail <= TextOf(s.sent[k])
    ensures s.text <= TextOf(ready) || TextOf(ready) + "\n" <= s.text
  {
    hide TextOf;
    if k == 0 {
      assert s.text == tail;
    } else {
      TextOfPrefix(s.sent[..k], 1);
      assert s.sent[..k][..1] == [ready];
      assert Text([ready]) == Text([]) + TextOf(ready) + "\n";
      assert Text([]) + TextOf(ready) == TextOf(ready);
    }
  }

  // ----- what the parent makes of the output -----

  /** The index of the first newline, or the length if there is none. */
  function Break(text: string): (n: nat)
    ensures n <= |text| && OneLine(text[..n])
    ensures n < |text| ==> text[n] == '\n'
  {
    if text == "" || text[0] == '\n' then 0 else 1 + Break(text[1..])
  }

  /** The lines a newline terminates. */
  function CompleteLines(text: string): seq<string>
    decreases |text|
  {
    var n := Break(text);
    if n == |text| then [] else [text[..n]] + CompleteLines(text[n + 1..])
  }

  /** The events among the lines; other lines are passed over. */
  function ReadAll(lines: seq<string>): seq<PlatformEvent>
  {
    if lines == [] then []
    else
      ReadAll(lines[..|lines| - 1])
      + match ReadEvent(lines[|lines| - 1]) case None => [] case Some(e) => [e]
  }

  function Texts(lines: seq<Line>): (r: seq<string>)
    ensures |r| == |lines|
  {
    seq(|lines|, i requires 0 <= i < |lines| => TextOf(lines[i]))
  }

  predicate PlainLine(l: Line)
  {
    match l
    case Ready(input, output) => Plain(input) && Plain(output)
    case Event(e) => PlainEvent(e)
    case CreateFailed(m) => Plain(m)
    case ProceedFailed(m) => Plain(m)
  }

  lemma ReadyText(input: string, output: string)
    ensures TextOf(Ready(input, output)) == Print(Obj([Field("type", Str("ready")),
              Field("inputDeviceName", Str(input)), Field("outputDeviceName", Str(output))]))
  {
    var a, b := Field("type", Str("ready")), Field("inputDeviceName", Str(input));
    var c := Field("outputDeviceName", Str(output));
    assert [a, b, c] == [a] + ([b] + [c]);
    PrintCons(a, [b] + [c]);
    PrintCons(b, [c]);
    assert PrintFields([c]) == PrintField(c);
    StrField("type", "ready");
    StrField("inputDeviceName", input);
    StrField("outputDeviceName", output);
    ReadyLiterals(input, output);
  }

  lemma ReadyLiterals(input: string, output: string)
    ensures "{" + (("\"" + "type" + "\":\"" + "ready" + "\"") + ","
                   + (("\"" + "inputDeviceName" + "\":\"" + input + "\"")
                   + "," + ("\"" + "outputDeviceName" + "\":\"" + output + "\""))) + "}"
            == "{\"type\":\"ready\"" + ",\"inputDeviceName\":\"" + input + "\",\"outputDeviceName\":\"" + output + "\"}"
  {
    var t, u := "\"" + "type" + "\":\"" + "ready" + "\"", "\"" + "inputDeviceName" + "\":\"";
    var v := "\"" + "outputDeviceName" + "\":\"";
    ReadyPieces();
    ReasonRegroup("{", t, ",", u, input, "\"", v, output, "}");
    assert ("{" + t + "," + u) == ("{" + t) + ("," + u);
  }

  lemma ReadyPieces()
    ensures "{" + ("\"" + "type" + "\":\"" + "ready" + "\"") == "{\"type\":\"ready\""
    ensures "," + ("\"" + "inputDeviceName" + "\":\"") == ",\"inputDeviceName\":\""
    ensures "\"" + "," + ("\"" + "outputDeviceName" + "\":\"") == "\",\"outputDeviceName\":\""
    ensures "\"" + "}" == "\"}"
  {
  }

  lemma ErrorText(message: string)
    ensures ErrorLine(message)
            == Print(Obj([Field("type", Str("error")), Field("message", Str(message))]))
  {
    var a, b := Field("type", Str("error")), Field("message", Str(message));
    assert [a, b] == [a] + [b];
    PrintCons(a, [b]);
    assert PrintFields([b]) == PrintField(b);
    StrField("type", "error");
    StrField("message", message);
    ErrorLiterals(message);
  }

  lemma ErrorLiterals(message: string)
    ensures "{" + (("\"" + "type" + "\":\"" + "error" + "\"") + ","
                   + ("\"" + "message" + "\":\"" + message + "\"")) + "}"
            == ErrorLine(message)
  {
    var t, u := "\"" + "type" + "\":\"" + "error" + "\"", "\"" + "message" + "\":\"";
    assert "{" + t == "{\"type\":\"error\"" && "," + u == ",\"message\":\"";
    assert "{" + t + "," + u == ("{" + t) + ("," + u);
    assert "\"" + "}" == "\"}";
    StateRegroup("{", t, ",", u, message, "\"", "}");
  }

  /** A line that is no event is not taken for one. */
  lemma NotAnEvent(kind: string, more: seq<Field>)
    requires kind != "stateChange" && |more| <= 2
    requires forall i :: 0 <= i < |more| ==> more[i].name != "type" && more[i].name != "callId"
    requires |more| > 0
    ensures Interpret(Obj([Field("type", Str(kind))] + more)) == None
  {
    var t := Field("type", Str(kind));
    assert [t] + more == [t, more[0]] + more[1..];
    LookupAll(t, more[0], more[1..]);
    hide Lookup;
    assert Lookup([t] + more, "type") == Some(Str(kind));
    assert Lookup([t] + more, "callId") == None;
  }

  lemma ReadyIsPlain(input: string, output: string)
    requires Plain(input) && Plain(output)
    ensures PlainValue(Obj([Field("type", Str("ready")), Field("inputDeviceName", Str(input)),
                            Field("outputDeviceName", Str(output))]))
  {
    assert Plain("type") && Plain("ready") && Plain("inputDeviceName") && Plain("outputDeviceName");
    hide Plain;
  }

  lemma ReadyReads(input: string, output: string)
    requires Plain(input) && Plain(output)
    ensures ReadEvent(TextOf(Ready(input, output))) == None && OneLine(TextOf(Ready(input, output)))
  {
    ReadyText(input, output);
    var more := [Field("inputDeviceName", Str(input)), Field("outputDeviceName", Str(output))];
    var v := Obj([Field("type", Str("ready"))] + more);
    assert v.fields == [Field("type", Str("ready")), more[0], more[1]];
    hide Print, ParseText, Interpret, TextOf, OneLine;
    ReadyIsPlain(input, output);
    NotAnEvent("ready", more);
    TextRoundTrip(v);
    PrintIsOneLine(v);
  }

  lemma ErrorReads(message: string)
    requires Plain(message)
    ensures ReadEvent(ErrorLine(message)) == None && OneLine(ErrorLine(message))
  {
    ErrorText(message);
    var more := [Field("message", Str(message))];
    var v := Obj([Field("type", Str("error"))] + more);
    assert v.fields == [Field("type", Str("error")), more[0]];
    hide Print, ParseText, Interpret;
    NotAnEvent("error", more);
    TextRoundTrip(v);
    PrintIsOneLine(v);
  }

  /** A plain line is one line, and reads back as the event it prints or as none. */
  lemma LineReads(l: Line)
    requires PlainLine(l)
    ensures OneLine(TextOf(l))
    ensures ReadEvent(TextOf(l)) == if l.Event? then Some(l.e) else None
  {
    match l
    case Ready(input, output) => ReadyReads(input, output);
    case Event(e) => ReadBackIffPlain(e);
    case CreateFailed(m) =>
      ErrorReads("failed to create outgoing call: " + m);
    case ProceedFailed(m) =>
      ErrorReads("failed to proceed: " + m);
  }

  lemma {:induction false} BreakAt(line: string, rest: string)
    requires OneLine(line)
    ensures Break(line + "\n" + rest) == |line|
  {
    if line == "" {
      assert (line + "\n" + rest)[0] == '\n';
    } else {
      assert (line + "\n" + rest)[1..] == line[1..] + "\n" + rest;
      BreakAt(line[1..], rest);
    }
  }

  lemma {:induction false} NoBreak(line: string)
    requires OneLine(line)
    ensures Break(line) == |line|
  {
    if line != "" {
      NoBreak(line[1..]);
    }
  }

  lemma OneMoreLine(line: string, rest: string)
    requires OneLine(line)
    ensures CompleteLines(line + "\n" + rest) == [line] + CompleteLines(rest)
  {
    var text := line + "\n" + rest;
    BreakAt(line, rest);
    assert text[..|line|] == line && text[|line| + 1..] == rest;
  }

  /** The parent's lines are the texts of the lines printed, whatever is left unterminated. */
  lemma {:induction false} SplitsBack(lines: seq<Line>, rest: string)
    requires forall i :: 0 <= i < |lines| ==> OneLine(TextOf(lines[i]))
    ensures CompleteLines(Text(lines) + rest) == Texts(lines) + CompleteLines(rest)
  {
    hide TextOf, CompleteLines;
    if lines == [] {
      assert Text(lines) + rest == rest && Texts(lines) + CompleteLines(rest) == CompleteLines(rest);
    } else {
      var init, l := lines[..|lines| - 1], lines[|lines| - 1];
      SplitsBack(init, TextOf(l) + "\n" + rest);
      OneMoreLine(TextOf(l), rest);
      assert Text(lines) + rest == Text(init) + (TextOf(l) + "\n" + rest);
      assert Texts(lines) == Texts(init) + [TextOf(l)];
      assert Texts(init) + ([TextOf(l)] + CompleteLines(rest)) == Texts(lines) + CompleteLines(rest);
    }
  }

  lemma {:induction false} ReadsBack(lines: seq<Line>)
    requires forall i :: 0 <= i < |lines| ==> PlainLine(lines[i])
    ensures ReadAll(Texts(lines)) == EventsOf(lines)
  {
    hide TextOf, ReadEvent, PlainLine;
    if lines != [] {
      var init, l := lines[..|lines| - 1], lines[|lines| - 1];
      ReadsBack(init);
      LineReads(l);
      assert Texts(lines)[..|init|] == Texts(init);
    }
  }

  predicate AllPlain(s: State)
  {
    forall i :: 0 <= i < |s.sent| ==> PlainLine(s.sent[i])
  }

  lemma ParentLines(s: State, k: nat, tail: string)
    requires AllPlain(s) && k <= |s.sent| && s.text == Text(s.sent[..k]) + tail
    requires tail != "" ==> k < |s.sent| && tail <= TextOf(s.sent[k])
    ensures CompleteLines(s.text) == Texts(s.sent[..k])
    ensures ReadAll(CompleteLines(s.text)) == EventsOf(s.sent[..k])
  {
    hide TextOf, PlainLine;
    forall i | 0 <= i < |s.sent|
      ensures OneLine(TextOf(s.sent[i]))
    {
      LineReads(s.sent[i]);
    }
    SplitsBack(s.sent[..k], tail);
    NoBreak(tail);
    assert Texts(s.sent[..k]) + [] == Texts(s.sent[..k]);
    ReadsBack(s.sent[..k]);
  }

  /**
   * End to end, when no text printed needs escaping: at every moment the events the parent
   * reads off the output are the posted ones in order, up to some point; once every thread
   * has caught up without a write failing, they are all of them.
   */
  lemma ParentReadsPosted(ready: Line, actors: seq<Actor>)
    requires ready.Ready? && AllPlain(Run(ready, actors))
    ensures var s := Run(ready, actors);
            var seen := ReadAll(CompleteLines(s.text));
            && seen <= s.posted
            && (s.writer.Waiting? && s.taken == |s.sent| && s.forwarder.Awaiting? && s.received == |s.posted|
                ==> seen == s.posted)
  {
    var s := Run(ready, actors);
    RunKeeps(ready, actors);
    var k, tail := OutputIsLines(s);
    ParentLines(s, k, tail);
    EventsOfPrefix(s.sent, k);
    assert s.sent[..|s.sent|] == s.sent;
  }

  // ----- nothing is stuck -----

  /** How many turns of the forwarder and the writer are left to take. */
  function Outstanding(s: State): nat
    requires WellFormed(s)
  {
    4 * (|s.posted| - s.received) + (if s.forwarder.Holding? then 3 else 0)
    + 2 * (|s.sent| - s.taken) + if s.writer.Writing? then 1 else 0
  }

  /** While anything is left, the forwarder or the writer has a turn that brings it on. */
  function NextTurn(s: State): Actor
  {
    if s.forwarder.Holding? || s.received < |s.posted| then Forward else Write(Wrote)
  }

  lemma TurnBringsOn(s: State)
    requires WellFormed(s) && (s.writer.Waiting? || s.writer.Writing?) && Outstanding(s) > 0
    ensures var r := Next(s, NextTurn(s));
            && Outstanding(r) < Outstanding(s) && r.posted == s.posted && r.reported == s.reported
            && (r.writer.Waiting? || r.writer.Writing?)
  {
    hide TextOf;
  }

  /**
   * From every run in which no write has failed, turns of the forwarder and the writer alone
   * bring all that was posted and reported to the output; if nothing printed needs escaping,
   * the parent then reads exactly the events posted.
   */
  lemma {:induction false} OutputCatchesUp(ready: Line, actors: seq<Actor>) returns (more: seq<Actor>)
    requires ready.Ready? && (Run(ready, actors).writer.Waiting? || Run(ready, actors).writer.Writing?)
    ensures forall k :: 0 <= k < |more| ==> more[k] == Forward || more[k] == Write(Wrote)
    ensures var s, r := Run(ready, actors), Run(ready, actors + more);
            && r.posted == s.posted && r.reported == s.reported
            && r.text == Text(r.sent) && EventsOf(r.sent) == s.posted && ErrorsOf(r.sent) == s.reported
            && (AllPlain(r) ==> ReadAll(CompleteLines(r.text)) == s.posted)
    decreases Outstanding(Run(ready, actors))
  {
    hide *;
    var s := Run(ready, actors);
    if Outstanding(s) == 0 {
      more := [];
      assert actors + more == actors;
      NothingOutstanding(ready, actors);
    } else {
      var a := NextTurn(s);
      TurnBringsOn(s);
      OneMoreTurn(ready, actors, a);
      var rest := OutputCatchesUp(ready, actors + [a]);
      more := [a] + rest;
      assert actors + more == actors + [a] + rest;
      TurnIsTheirs(s);
    }
  }

  lemma TurnIsTheirs(s: State)
    ensures NextTurn(s) == Forward || NextTurn(s) == Write(Wrote)
  {
  }

  lemma OneMoreTurn(ready: Line, actors: seq<Actor>, a: Actor)
    ensures Run(ready, actors + [a]) == Next(Run(ready, actors), a)
  {
    assert (actors + [a])[..|actors|] == actors;
  }

  lemma NothingOutstanding(ready: Line, actors: seq<Actor>)
    requires ready.Ready?
    requires var s := Run(ready, actors); (s.writer.Waiting? || s.writer.Writing?) && Outstanding(s) == 0
    ensures var s := Run(ready, actors);
            && s.text == Text(s.sent) && EventsOf(s.sent) == s.posted && ErrorsOf(s.sent) == s.reported
            && (AllPlain(s) ==> ReadAll(CompleteLines(s.text)) == s.posted)
  {
    hide Run, AllPlain, ReadAll, CompleteLines, Text, EventsOf, ErrorsOf, TextOf;
    var s := Run(ready, actors);
    RunKeeps(ready, actors);
    assert s.sent[..|s.sent|] == s.sent && s.posted[..|s.posted|] == s.posted;
    assert EventsOf(s.sent) + [] == EventsOf(s.sent);
    if AllPlain(s) {
      ParentReadsPosted(ready, actors);
    }
  }
}
