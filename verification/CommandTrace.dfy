/**
 * The reader thread and the main loop side by side, joined by a channel: whatever the
 * interleaving, a finished run has made the calls of the parsable lines up to the first
 * hangup, so lines that carry no command change nothing.
 */
module CommandTrace {
  import opened Commands
  import opened EventLoop

  datatype Reader = Reading | ReaderDone

  datatype Main = Looping | HungUp | SawDisconnect | Terminated

  datatype State = State(
    next: nat, reader: Reader, channel: seq<ControlMessage>, received: seq<ControlMessage>, main: Main, loop: Loop)

  const INITIAL := State(0, Reading, [], [], Looping, START)

  /** A turn of the reader handles one line; one of the main loop is one timed receive. */
  datatype Actor = ReaderTurn | MainTurn | Sigterm

  /** When the main loop has returned, its end of the channel is dropped and sending fails. */
  function ReaderStep(input: seq<StdinLine>, s: State): State
  {
    if s.reader.ReaderDone? then s
    else if s.next >= |input| || input[s.next].Unreadable? then s.(reader := ReaderDone)
    else
      var t := s.(next := s.next + 1);
      var m := MessageOf(input[s.next]);
      if m == [] then t
      else if !s.main.Looping? then t.(reader := ReaderDone)
      else t.(channel := s.channel + m)
  }

  /** A receive finds a message, or waits in vain, or learns that the reader is gone. */
  function MainStep(c: Config, outcomes: seq<Outcome>, s: State): State
  {
    if !s.main.Looping? then s
    else if s.channel != [] then
      var m := s.channel[0];
      s.(channel := s.channel[1..], received := s.received + [m],
         loop := Step(c, s.loop, m, At(outcomes, |s.received|)),
         main := if m.Hangup? then HungUp else Looping)
    else if s.reader.ReaderDone? then s.(main := SawDisconnect)
    else s
  }

  function Next(c: Config, input: seq<StdinLine>, outcomes: seq<Outcome>, s: State, a: Actor): State
  {
    match a
    case ReaderTurn => ReaderStep(input, s)
    case MainTurn => MainStep(c, outcomes, s)
    case Sigterm => if s.main.Looping? then s.(main := Terminated) else s
  }

  function Run(c: Config, input: seq<StdinLine>, outcomes: seq<Outcome>, actors: seq<Actor>): State
  {
    if actors == [] then INITIAL
    else Next(c, input, outcomes, Run(c, input, outcomes, actors[..|actors| - 1]), actors[|actors| - 1])
  }

  // ----- what every step keeps -----

  predicate NoHangup(ms: seq<ControlMessage>) { forall i :: 0 <= i < |ms| ==> !ms[i].Hangup? }

  /** The messages up to and including the first hangup. */
  function UpToHangup(ms: seq<ControlMessage>): seq<ControlMessage>
  {
    if ms == [] then [] else if ms[0].Hangup? then [ms[0]] else [ms[0]] + UpToHangup(ms[1..])
  }

  lemma {:induction false} UpToHangupConcat(a: seq<ControlMessage>, b: seq<ControlMessage>)
    requires NoHangup(a)
    ensures UpToHangup(a + b) == a + UpToHangup(b)
  {
    if a == [] {
      assert a + b == b && [] + UpToHangup(b) == UpToHangup(b);
    } else {
      assert (a + b)[1..] == a[1..] + b;
      UpToHangupConcat(a[1..], b);
      assert [a[0]] + (a[1..] + UpToHangup(b)) == a + UpToHangup(b);
    }
  }

  /** What the reader has still to send. */
  function Remaining(input: seq<StdinLine>, s: State): seq<ControlMessage>
    requires s.next <= |input|
  {
    if s.reader.ReaderDone? then [] else CommandsOf(input[s.next..])
  }

  predicate Consistent(c: Config, input: seq<StdinLine>, outcomes: seq<Outcome>, s: State)
  {
    && s.next <= |input|
    && s.loop == Fold(c, s.received, outcomes)
    && (match s.main
        case Looping => NoHangup(s.received) && s.received + s.channel + Remaining(input, s) == CommandsOf(input)
        case HungUp => s.received == UpToHangup(CommandsOf(input))
        case SawDisconnect => s.received == UpToHangup(CommandsOf(input))
        case Terminated => s.received <= UpToHangup(CommandsOf(input)))
  }

  lemma NextCommand(input: seq<StdinLine>, i: nat)
    requires i < |input| && !input[i].Unreadable?
    ensures CommandsOf(input[i..]) == MessageOf(input[i]) + CommandsOf(input[i + 1..])
  {
    hide MessageOf;
    assert input[i..][1..] == input[i + 1..];
  }

  lemma NoMoreCommands(input: seq<StdinLine>, i: nat)
    requires i <= |input| && (i == |input| || input[i].Unreadable?)
    ensures CommandsOf(input[i..]) == []
  {
  }

  lemma ReaderKeeps(c: Config, input: seq<StdinLine>, outcomes: seq<Outcome>, s: State)
    requires Consistent(c, input, outcomes, s)
    ensures Consistent(c, input, outcomes, ReaderStep(input, s))
  {
    hide MessageOf, CommandsOf, Fold, UpToHangup, NoHangup;
    if s.reader.Reading? {
      if s.next >= |input| || input[s.next].Unreadable? {
        NoMoreCommands(input, s.next);
      } else {
        NextCommand(input, s.next);
        var m, rest := MessageOf(input[s.next]), CommandsOf(input[s.next + 1..]);
        assert s.received + s.channel + (m + rest) == s.received + (s.channel + m) + rest;
        assert m == [] ==> s.channel + m == s.channel;
      }
    }
  }

  lemma MainKeeps(c: Config, input: seq<StdinLine>, outcomes: seq<Outcome>, s: State)
    requires Consistent(c, input, outcomes, s)
    ensures Consistent(c, input, outcomes, MainStep(c, outcomes, s))
  {
    hide Fold, Step, CommandsOf, At, Remaining;
    if s.main.Looping? {
      if s.channel != [] {
        Received(c, input, outcomes, s, s.channel[0]);
      } else if s.reader.ReaderDone? {
        DrainedAll(input, s);
      }
    }
  }

  lemma DrainedAll(input: seq<StdinLine>, s: State)
    requires s.next <= |input| && s.channel == [] && s.reader.ReaderDone? && NoHangup(s.received)
    requires s.received + s.channel + Remaining(input, s) == CommandsOf(input)
    ensures s.received == UpToHangup(CommandsOf(input))
  {
    hide CommandsOf;
    assert s.received + [] + [] == s.received == s.received + [];
    UpToHangupConcat(s.received, []);
  }

  lemma Received(c: Config, input: seq<StdinLine>, outcomes: seq<Outcome>, s: State, m: ControlMessage)
    requires Consistent(c, input, outcomes, s) && s.main.Looping? && s.channel != [] && m == s.channel[0]
    ensures Consistent(c, input, outcomes, MainStep(c, outcomes, s))
  {
    hide Fold, Step, CommandsOf, At, Remaining, UpToHangup;
    FoldSnoc(c, s.received, m, outcomes);
    var rest := s.channel[1..] + Remaining(input, s);
    var all := CommandsOf(input);
    assert all == s.received + ([m] + rest);
    assert all == s.received + [m] + s.channel[1..] + Remaining(input, s);
    SameRemaining(input, s, MainStep(c, outcomes, s));
    if m.Hangup? {
      UpToHangupConcat(s.received, [m] + rest);
      HangupFirst(m, rest);
    }
  }

  lemma SameRemaining(input: seq<StdinLine>, s: State, t: State)
    requires s.next <= |input| && t.next == s.next && t.reader == s.reader
    ensures Remaining(input, t) == Remaining(input, s)
  {
  }

  lemma HangupFirst(m: ControlMessage, rest: seq<ControlMessage>)
    requires m.Hangup?
    ensures UpToHangup([m] + rest) == [m]
  {
  }

  lemma SigtermKeeps(c: Config, input: seq<StdinLine>, outcomes: seq<Outcome>, s: State)
    requires Consistent(c, input, outcomes, s) && s.main.Looping?
    ensures s.received <= UpToHangup(CommandsOf(input))
  {
    hide CommandsOf, Remaining, Fold;
    var rest := s.channel + Remaining(input, s);
    assert CommandsOf(input) == s.received + rest;
    UpToHangupConcat(s.received, rest);
  }

  lemma {:induction false} RunKeeps(c: Config, input: seq<StdinLine>, outcomes: seq<Outcome>, actors: seq<Actor>)
    ensures Consistent(c, input, outcomes, Run(c, input, outcomes, actors))
  {
    hide Consistent;
    if actors == [] {
      StartsConsistent(c, input, outcomes);
    } else {
      var init, a := actors[..|actors| - 1], actors[|actors| - 1];
      RunKeeps(c, input, outcomes, init);
      StepKeeps(c, input, outcomes, Run(c, input, outcomes, init), a);
    }
  }

  lemma StartsConsistent(c: Config, input: seq<StdinLine>, outcomes: seq<Outcome>)
    ensures Consistent(c, input, outcomes, INITIAL)
  {
    assert input[0..] == input && [] + [] + CommandsOf(input) == CommandsOf(input);
  }

  lemma StepKeeps(c: Config, input: seq<StdinLine>, outcomes: seq<Outcome>, s: State, a: Actor)
    requires Consistent(c, input, outcomes, s)
    ensures Consistent(c, input, outcomes, Next(c, input, outcomes, s, a))
  {
    hide ReaderStep, MainStep, CommandsOf, UpToHangup;
    match a
    case ReaderTurn => ReaderKeeps(c, input, outcomes, s);
    case MainTurn => MainKeeps(c, input, outcomes, s);
    case Sigterm =>
      if s.main.Looping? {
        SigtermKeeps(c, input, outcomes, s);
      }
  }

  // ----- results -----

  /** The main loop left by itself: after a hangup, or because the input ended. */
  predicate Finished(s: State) { s.main.HungUp? || s.main.SawDisconnect? }

  /** What a run amounts to: the messages handled one after the other, up to the first hangup. */
  lemma TraceIsFold(c: Config, input: seq<StdinLine>, outcomes: seq<Outcome>, actors: seq<Actor>)
    ensures var s := Run(c, input, outcomes, actors);
            && s.loop == Fold(c, s.received, outcomes)
            && s.received <= UpToHangup(CommandsOf(input))
            && (Finished(s) ==> s.loop == Fold(c, UpToHangup(CommandsOf(input)), outcomes))
  {
    hide CommandsOf, UpToHangup, Fold;
    var s := Run(c, input, outcomes, actors);
    RunKeeps(c, input, outcomes, actors);
    if s.main.Looping? {
      SigtermKeeps(c, input, outcomes, s);
    }
  }

  /** A line that carries no command: blank, not JSON, or of no known type. */
  predicate Noise(line: StdinLine) { !line.Unreadable? && MessageOf(line) == [] }

  lemma {:induction false} NoiseAddsNoCommand(a: seq<StdinLine>, noise: StdinLine, b: seq<StdinLine>)
    requires Noise(noise)
    ensures CommandsOf(a + [noise] + b) == CommandsOf(a + b)
  {
    hide MessageOf;
    if a == [] {
      assert (a + [noise] + b)[1..] == b && a + b == b;
      assert [] + CommandsOf(b) == CommandsOf(b);
    } else if !a[0].Unreadable? {
      assert (a + [noise] + b)[1..] == a[1..] + [noise] + b && (a + b)[1..] == a[1..] + b;
      NoiseAddsNoCommand(a[1..], noise, b);
    }
  }

  /**
   * A line without a command, inserted anywhere, changes nothing a finished run does,
   * however either run was scheduled.
   */
  lemma NoiseChangesNothing(c: Config, a: seq<StdinLine>, noise: StdinLine, b: seq<StdinLine>, outcomes: seq<Outcome>,
                            x: seq<Actor>, y: seq<Actor>)
    requires Noise(noise)
    requires Finished(Run(c, a + [noise] + b, outcomes, x)) && Finished(Run(c, a + b, outcomes, y))
    ensures Run(c, a + [noise] + b, outcomes, x).loop == Run(c, a + b, outcomes, y).loop
  {
    hide *;
    NoiseAddsNoCommand(a, noise, b);
    TraceIsFold(c, a + [noise] + b, outcomes, x);
    TraceIsFold(c, a + b, outcomes, y);
  }

  /** Hanging up ends the run: a hangup is the last message handled, and the only one. */
  lemma {:induction false} HangupIsLast(ms: seq<ControlMessage>)
    ensures UpToHangup(ms) <= ms
    ensures forall i :: 0 <= i < |UpToHangup(ms)| - 1 ==> !UpToHangup(ms)[i].Hangup?
    ensures NoHangup(ms) <==> NoHangup(UpToHangup(ms))
    ensures NoHangup(ms) ==> UpToHangup(ms) == ms
  {
    if ms != [] {
      HangupIsLast(ms[1..]);
      var up, rest := UpToHangup(ms), UpToHangup(ms[1..]);
      if !ms[0].Hangup? {
        assert forall i :: 0 < i < |up| ==> up[i] == rest[i - 1];
        assert forall i :: 0 < i < |ms| ==> ms[i] == ms[1..][i - 1];
        forall i | 0 <= i < |rest|
          ensures up[i + 1] == rest[i]
        {
        }
      }
    }
  }

  /** Work left: lines to read and pass on, messages to handle, threads to end. */
  function Measure(input: seq<StdinLine>, s: State): nat
  {
    2 * (if s.next <= |input| then |input| - s.next else 0) + |s.channel|
    + (if s.reader.Reading? then 1 else 0) + (if s.main.Looping? then 1 else 0)
  }

  /** No thread adds work, and while the main loop runs one of the two can always remove some. */
  lemma TurnsLower(c: Config, input: seq<StdinLine>, outcomes: seq<Outcome>, s: State, a: Actor)
    requires s.next <= |input| && s.main.Looping?
    ensures var r := Next(c, input, outcomes, s, a);
            && r.next <= |input| && Measure(input, r) <= Measure(input, s)
            && (a == (if s.reader.Reading? then ReaderTurn else MainTurn) ==> Measure(input, r) < Measure(input, s))
  {
    hide Step, At, ParseMessage;
  }

  // ----- every fair schedule finishes -----

  /** An infinite interleaving: who takes a turn at each instant. */
  type Schedule = nat -> Actor

  function Prefix(schedule: Schedule, n: nat): (r: seq<Actor>)
    ensures |r| == n
  {
    seq(n, i requires 0 <= i < n => schedule(i))
  }

  function After(c: Config, input: seq<StdinLine>, outcomes: seq<Outcome>, schedule: Schedule, n: nat): State
  {
    Run(c, input, outcomes, Prefix(schedule, n))
  }

  ghost predicate TurnComes(schedule: Schedule, a: Actor, n: nat) { exists m: nat :: n <= m && schedule(m) == a }

  /** Neither thread is passed over forever, and the process is not terminated from outside. */
  ghost predicate Fair(schedule: Schedule)
  {
    && (forall n: nat :: !schedule(n).Sigterm?)
    && (forall n: nat :: TurnComes(schedule, ReaderTurn, n) && TurnComes(schedule, MainTurn, n))
  }

  lemma OneMoreTurn(c: Config, input: seq<StdinLine>, outcomes: seq<Outcome>, schedule: Schedule, n: nat)
    ensures After(c, input, outcomes, schedule, n + 1)
            == Next(c, input, outcomes, After(c, input, outcomes, schedule, n), schedule(n))
  {
    hide Next;
    assert Prefix(schedule, n + 1)[..n] == Prefix(schedule, n);
  }

  lemma AfterInRange(c: Config, input: seq<StdinLine>, outcomes: seq<Outcome>, schedule: Schedule, n: nat)
    ensures After(c, input, outcomes, schedule, n).next <= |input|
  {
    hide Run, Consistent;
    RunKeeps(c, input, outcomes, Prefix(schedule, n));
    InRange(c, input, outcomes, After(c, input, outcomes, schedule, n));
  }

  /** Without Sigterm the main loop goes on or finishes. */
  lemma TurnFinishes(c: Config, input: seq<StdinLine>, outcomes: seq<Outcome>, s: State, a: Actor)
    requires s.main.Looping? && !a.Sigterm?
    ensures var r := Next(c, input, outcomes, s, a); r.main.Looping? || Finished(r)
  {
    hide Step, At, ParseMessage;
  }

  /** A turn that leaves the measure leaves the reader's phase. */
  lemma SamePhase(c: Config, input: seq<StdinLine>, outcomes: seq<Outcome>, s: State, a: Actor)
    requires s.next <= |input| && s.main.Looping?
    requires Measure(input, Next(c, input, outcomes, s, a)) == Measure(input, s)
    ensures Next(c, input, outcomes, s, a).reader == s.reader
  {
    hide Step, At, ParseMessage;
  }

  /** By the time the helpful thread's turn comes, there is less work left or none. */
  lemma {:induction false} TurnLowers(c: Config, input: seq<StdinLine>, outcomes: seq<Outcome>, schedule: Schedule,
                                      n: nat, m: nat) returns (k: nat)
    requires Fair(schedule) && n <= m && After(c, input, outcomes, schedule, n).main.Looping?
    requires schedule(m) == if After(c, input, outcomes, schedule, n).reader.Reading? then ReaderTurn else MainTurn
    ensures n <= k
    ensures var r := After(c, input, outcomes, schedule, k);
            Finished(r)
            || (r.main.Looping? && Measure(input, r) < Measure(input, After(c, input, outcomes, schedule, n)))
    decreases m - n
  {
    var s, r := After(c, input, outcomes, schedule, n), After(c, input, outcomes, schedule, n + 1);
    hide Next, Measure, After, Finished;
    OneMoreTurn(c, input, outcomes, schedule, n);
    AfterInRange(c, input, outcomes, schedule, n);
    TurnFinishes(c, input, outcomes, s, schedule(n));
    TurnsLower(c, input, outcomes, s, schedule(n));
    if !r.main.Looping? || Measure(input, r) < Measure(input, s) {
      k := n + 1;
    } else {
      SamePhase(c, input, outcomes, s, schedule(n));
      k := TurnLowers(c, input, outcomes, schedule, n + 1, m);
    }
  }

  lemma {:induction false} FinishesFrom(c: Config, input: seq<StdinLine>, outcomes: seq<Outcome>, schedule: Schedule,
                                        n: nat) returns (k: nat)
    requires Fair(schedule) && After(c, input, outcomes, schedule, n).main.Looping?
    ensures n <= k && Finished(After(c, input, outcomes, schedule, k))
    decreases Measure(input, After(c, input, outcomes, schedule, n))
  {
    var s := After(c, input, outcomes, schedule, n);
    hide Measure, After, Finished;
    assert TurnComes(schedule, ReaderTurn, n) && TurnComes(schedule, MainTurn, n);
    var m: nat :| n <= m && schedule(m) == if s.reader.Reading? then ReaderTurn else MainTurn;
    k := TurnLowers(c, input, outcomes, schedule, n, m);
    if !Finished(After(c, input, outcomes, schedule, k)) {
      var l := FinishesFrom(c, input, outcomes, schedule, k);
      k := l;
    }
  }

  /**
   * Under every fair infinite schedule the main loop comes to an end by itself, and then it has
   * made the calls of all parsable commands up to the first hangup.
   */
  lemma FairRunFinishes(c: Config, input: seq<StdinLine>, outcomes: seq<Outcome>, schedule: Schedule)
    requires Fair(schedule)
    ensures exists k: nat :: Finished(After(c, input, outcomes, schedule, k))
              && After(c, input, outcomes, schedule, k).loop == Fold(c, UpToHangup(CommandsOf(input)), outcomes)
  {
    hide Fold, UpToHangup, CommandsOf, Finished, Fair;
    assert Prefix(schedule, 0) == [];
    var k := FinishesFrom(c, input, outcomes, schedule, 0);
    TraceIsFold(c, input, outcomes, Prefix(schedule, k));
  }

  /** Every run that has not been terminated can be continued to a finished one. */
  lemma {:induction false} CanFinish(c: Config, input: seq<StdinLine>, outcomes: seq<Outcome>, actors: seq<Actor>)
      returns (more: seq<Actor>)
    requires Run(c, input, outcomes, actors).main.Looping?
    ensures Finished(Run(c, input, outcomes, actors + more))
    decreases Measure(input, Run(c, input, outcomes, actors))
  {
    hide Step, At, ReaderStep, Measure, Consistent;
    var s := Run(c, input, outcomes, actors);
    var a := if s.reader.Reading? then ReaderTurn else MainTurn;
    RunKeeps(c, input, outcomes, actors);
    InRange(c, input, outcomes, s);
    TurnsLower(c, input, outcomes, s, a);
    assert (actors + [a])[..|actors|] == actors;
    ReaderLeavesMain(input, s);
    if Finished(Run(c, input, outcomes, actors + [a])) {
      more := [a];
    } else {
      var rest := CanFinish(c, input, outcomes, actors + [a]);
      more := [a] + rest;
      assert actors + [a] + rest == actors + more;
    }
  }

  lemma InRange(c: Config, input: seq<StdinLine>, outcomes: seq<Outcome>, s: State)
    requires Consistent(c, input, outcomes, s)
    ensures s.next <= |input|
  {
  }

  lemma ReaderLeavesMain(input: seq<StdinLine>, s: State)
    ensures ReaderStep(input, s).main == s.main
  {
  }
}
