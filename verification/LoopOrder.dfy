/** The clock loop's accesses under every interleaving: what each load sees and what it leads to. */
module LoopOrder {
  import opened Lifecycle
  import opened WarmupGate
  import opened Shutdown
  import opened ModuleEvents

  // ----- loads see the latest store -----

  datatype Flag = Playing | Recording | Sending | Terminating

  predicate Stores(m: Mark, f: Flag)
  {
    match f
    case Playing => m.StorePlaying?
    case Recording => m.StoreRecording?
    case Sending => m.StoreSend?
    case Terminating => m.StoreTerminate?
  }

  predicate Loads(m: Mark, f: Flag)
  {
    match f
    case Playing => m.LoadPlaying?
    case Recording => m.LoadRecording?
    case Sending => m.LoadSend?
    case Terminating => m.LoadTerminate?
  }

  /** The latest value stored to a flag; at first only `send_to_webrtc` is true. */
  function Latest(log: seq<Mark>, f: Flag): bool
  {
    if log == [] then f.Sending?
    else if Stores(log[|log| - 1], f) then log[|log| - 1].value
    else Latest(log[..|log| - 1], f)
  }

  function FlagOf(flags: Flags, f: Flag): bool
  {
    match f
    case Playing => flags.playing
    case Recording => flags.recording
    case Sending => flags.send
    case Terminating => flags.terminate
  }

  ghost predicate LoadsSeeStores(log: seq<Mark>)
  {
    forall m: nat, f: Flag :: m < |log| && Loads(log[m], f) ==> log[m].value == Latest(log[..m], f)
  }

  ghost predicate Coherent(s: System)
  {
    LoadsSeeStores(s.log) && forall f: Flag :: FlagOf(s.flags, f) == Latest(s.log, f)
  }

  lemma LatestSnoc(log: seq<Mark>, m: Mark, f: Flag)
    ensures Latest(log + [m], f) == if Stores(m, f) then m.value else Latest(log, f)
  {
    assert (log + [m])[..|log|] == log;
  }

  /** One more access, which stores what the flags hold afterwards or loads what they held before. */
  lemma OneMoreAccess(log: seq<Mark>, before: Flags, m: Mark, after: Flags)
    requires LoadsSeeStores(log) && forall f: Flag :: FlagOf(before, f) == Latest(log, f)
    requires forall f: Flag :: Loads(m, f) ==> m.value == FlagOf(before, f)
    requires forall f: Flag :: FlagOf(after, f) == if Stores(m, f) then m.value else FlagOf(before, f)
    ensures LoadsSeeStores(log + [m]) && forall f: Flag :: FlagOf(after, f) == Latest(log + [m], f)
  {
    hide Latest, FlagOf, Stores;
    var more := log + [m];
    forall k: nat, f: Flag | k < |more| && Loads(more[k], f)
      ensures more[k].value == Latest(more[..k], f)
    {
      assert more[..k] == log[..k];
      assert k == |log| ==> log[..k] == log;
    }
    forall f: Flag
      ensures FlagOf(after, f) == Latest(more, f)
    {
      LatestSnoc(log, m, f);
    }
  }

  /** The one access of a step, as far as one flag is concerned. */
  lemma AccessOf(s: System, a: Actor, f: Flag)
    requires WellFormed(s) && Next(s, a).log != s.log
    ensures var r := Next(s, a);
            && |r.log| == |s.log| + 1 && r.log == s.log + [r.log[|s.log|]]
            && var m := r.log[|s.log|];
               && (Loads(m, f) ==> m.value == FlagOf(s.flags, f))
               && FlagOf(r.flags, f) == if Stores(m, f) then m.value else FlagOf(s.flags, f)
  {
    if a.ClockThread? {
      hide ControlStep, WorkerStep;
    } else {
      hide ClockStep;
    }
    var r := Next(s, a);
    assert r.log == s.log + [r.log[|s.log|]];
  }

  lemma NoAccess(s: System, a: Actor)
    requires WellFormed(s) && Next(s, a).log == s.log
    ensures Next(s, a).flags == s.flags
  {
  }

  lemma StepCoheres(s: System, a: Actor)
    requires WellFormed(s) && Coherent(s)
    ensures Coherent(Next(s, a))
  {
    hide Latest, LoadsSeeStores, Next, FlagOf;
    var r := Next(s, a);
    if r.log == s.log {
      NoAccess(s, a);
    } else {
      AccessOf(s, a, Playing);
      var m := r.log[|s.log|];
      assert r.log == s.log + [m];
      forall f: Flag
        ensures Loads(m, f) ==> m.value == FlagOf(s.flags, f)
        ensures FlagOf(r.flags, f) == if Stores(m, f) then m.value else FlagOf(s.flags, f)
      {
        AccessOf(s, a, f);
      }
      OneMoreAccess(s.log, s.flags, m, r.flags);
    }
  }

  lemma {:induction false} RunCoheres(actors: seq<Actor>)
    ensures Coherent(Run(actors))
  {
    if actors != [] {
      RunCoheres(actors[..|actors| - 1]);
      StepCoheres(Run(actors[..|actors| - 1]), actors[|actors| - 1]);
    }
  }

  /** In every interleaving each load of a flag sees the latest value stored to it. */
  lemma LoadSeesLatestStore(actors: seq<Actor>, m: nat, f: Flag)
    requires m < |Run(actors).log| && Loads(Run(actors).log[m], f)
    ensures Run(actors).log[m].value == Latest(Run(actors).log[..m], f)
  {
    hide Run, Latest, Loads, FlagOf;
    RunCoheres(actors);
  }

  // ----- what the loop does with what it has loaded -----

  /** The loop's own accesses, in order. */
  function Own(log: seq<Mark>): seq<Mark>
  {
    if log == [] then []
    else
      var m := log[|log| - 1];
      Own(log[..|log| - 1]) + if ByClock(m) then [m] else []
  }

  /** The only access that can come after `a`. */
  predicate Follows(a: Mark, b: Mark)
  {
    match a
    case LoadTerminate(terminate) => !terminate && b.LoadPlaying?
    case LoadPlaying(playing) => if playing then b.Pull? else b.LoadRecording?
    case Pull => b.LoadRecording?
    case LoadRecording(recording) => if recording then b.LoadSend? else b.LoadTerminate?
    case LoadSend(send) => if send then b.Push? else b.LoadTerminate?
    case Push => b.LoadTerminate?
    case _ => false
  }

  /** Where the loop stands after its latest access. */
  predicate Stands(clock: ClockPhase, own: seq<Mark>)
  {
    if own == [] then clock.AtTop?
    else
      match own[|own| - 1]
      case LoadTerminate(terminate) =>
        if terminate then clock.JoiningControl? || clock.DriverDone? else clock.AtPlaying?
      case LoadPlaying(playing) => if playing then clock.AtPull? else clock.AtRecording?
      case Pull => clock.AtRecording?
      case LoadRecording(recording) => if recording then clock.AtSend? else clock.AtTop?
      case LoadSend(send) => if send then clock.AtPush? else clock.AtTop?
      case Push => clock.AtTop?
      case _ => false
  }

  predicate InLoopOrder(own: seq<Mark>)
  {
    && (own != [] ==> own[0].LoadTerminate?)
    && forall k :: 0 <= k < |own| - 1 ==> Follows(own[k], own[k + 1])
  }

  lemma OwnSnoc(log: seq<Mark>, m: Mark)
    ensures Own(log + [m]) == Own(log) + if ByClock(m) then [m] else []
  {
    assert (log + [m])[..|log|] == log;
  }

  lemma OrderSnoc(own: seq<Mark>, m: Mark)
    requires InLoopOrder(own) && if own == [] then m.LoadTerminate? else Follows(own[|own| - 1], m)
    ensures InLoopOrder(own + [m])
  {
    hide Follows;
  }

  lemma StepInOrder(s: System, a: Actor)
    requires WellFormed(s) && InLoopOrder(Own(s.log)) && Stands(s.clock, Own(s.log))
    ensures InLoopOrder(Own(Next(s, a).log)) && Stands(Next(s, a).clock, Own(Next(s, a).log))
  {
    hide Own, InLoopOrder;
    if a.ClockThread? {
      hide ControlStep, WorkerStep;
    } else {
      hide ClockStep;
    }
    var r, own := Next(s, a), Own(s.log);
    if r.log != s.log {
      var m := r.log[|s.log|];
      assert r.log == s.log + [m];
      OwnSnoc(s.log, m);
      if ByClock(m) {
        OrderSnoc(own, m);
      } else {
        assert own + [] == own;
      }
    }
  }

  lemma {:induction false} RunInOrder(actors: seq<Actor>)
    ensures InLoopOrder(Own(Run(actors).log)) && Stands(Run(actors).clock, Own(Run(actors).log))
  {
    hide InLoopOrder, Stands, Next;
    if actors == [] {
      NothingDone();
    } else {
      RunInOrder(actors[..|actors| - 1]);
      StepInOrder(Run(actors[..|actors| - 1]), actors[|actors| - 1]);
    }
  }

  lemma NothingDone()
    ensures InLoopOrder(Own(INITIAL.log)) && Stands(INITIAL.clock, Own(INITIAL.log))
  {
  }

  /**
   * What is loaded is acted upon, in every interleaving: among the loop's own accesses a load
   * of `playing` that sees true is followed by a pull, a load of `recording` that sees true
   * by a load of `send_to_webrtc`, and one of that that sees true by a push; otherwise the loop
   * goes on without. Only the latest access can still be without its successor, and then the
   * loop stands right before it.
   */
  lemma LoadsAreActedUpon(actors: seq<Actor>, k: nat)
    requires k < |Own(Run(actors).log)|
    ensures var s := Run(actors);
            var own := Own(s.log);
            var last := k + 1 == |own|;
            match own[k]
            case LoadPlaying(true) => if last then s.clock.AtPull? else own[k + 1] == Pull
            case LoadPlaying(false) => if last then s.clock.AtRecording? else own[k + 1].LoadRecording?
            case Pull => if last then s.clock.AtRecording? else own[k + 1].LoadRecording?
            case LoadRecording(true) => if last then s.clock.AtSend? else own[k + 1].LoadSend?
            case LoadSend(true) => if last then s.clock.AtPush? else own[k + 1] == Push
            case LoadTerminate(true) => last
            case LoadTerminate(false) => if last then s.clock.AtPlaying? else own[k + 1].LoadPlaying?
            case _ => if last then s.clock.AtTop? else own[k + 1].LoadTerminate?
  {
    hide Own, Run;
    RunInOrder(actors);
    if k + 1 < |Own(Run(actors).log)| {
      assert Follows(Own(Run(actors).log)[k], Own(Run(actors).log)[k + 1]);
    }
  }

  // ----- a round of the loop -----

  lemma {:induction false} RunSnoc(actors: seq<Actor>, a: Actor)
    ensures Run(actors + [a]) == Next(Run(actors), a)
  {
    assert (actors + [a])[..|actors|] == actors;
  }

  function Turns(n: nat): seq<Actor>
  {
    if n == 0 then [] else Turns(n - 1) + [ClockThread]
  }

  function TurnsFrom(s: System, n: nat): System
  {
    if n == 0 then s else ClockStep(TurnsFrom(s, n - 1))
  }

  lemma {:induction false} TakesTurns(actors: seq<Actor>, n: nat)
    ensures Run(actors + Turns(n)) == TurnsFrom(Run(actors), n)
  {
    hide Run, ClockStep;
    if n == 0 {
      assert actors + Turns(0) == actors;
    } else {
      TakesTurns(actors, n - 1);
      RunSnoc(actors + Turns(n - 1), ClockThread);
      assert actors + Turns(n - 1) + [ClockThread] == actors + Turns(n);
    }
  }

  /** What one round of the loop does while the flags stay as they are. */
  function BeforeRecording(playing: bool): seq<Mark>
  {
    [LoadTerminate(false), LoadPlaying(playing)] + if playing then [Pull] else []
  }

  function FromRecording(recording: bool, send: bool): seq<Mark>
  {
    [LoadRecording(recording)] + if !recording then [] else [LoadSend(send)] + if send then [Push] else []
  }

  lemma FirstHalf(s: System)
    requires s.clock.AtTop? && !s.flags.terminate
    ensures var marks := BeforeRecording(s.flags.playing);
            TurnsFrom(s, |marks|) == s.(clock := AtRecording, log := s.log + marks)
  {
    var top := TurnsFrom(s, 0);
    assert top == s;
    var one := TurnsFrom(s, 1);
    assert one == ClockStep(s);
    var two := TurnsFrom(s, 2);
    assert two == ClockStep(one);
    if s.flags.playing {
      assert TurnsFrom(s, 3) == ClockStep(two);
      assert s.log + BeforeRecording(true) == s.log + [LoadTerminate(false)] + [LoadPlaying(true)] + [Pull];
    } else {
      assert s.log + BeforeRecording(false) == s.log + [LoadTerminate(false)] + [LoadPlaying(false)];
    }
  }

  lemma SecondHalf(s: System, n: nat)
    requires TurnsFrom(s, n).clock.AtRecording?
    ensures var r := TurnsFrom(s, n);
            var marks := FromRecording(r.flags.recording, r.flags.send);
            TurnsFrom(s, n + |marks|) == r.(clock := AtTop, log := r.log + marks)
  {
    var r := TurnsFrom(s, n);
    var one := TurnsFrom(s, n + 1);
    assert one == ClockStep(r);
    if r.flags.recording {
      var two := TurnsFrom(s, n + 2);
      assert two == ClockStep(one);
      if r.flags.send {
        assert TurnsFrom(s, n + 3) == ClockStep(two);
        assert r.log + FromRecording(true, true) == r.log + [LoadRecording(true)] + [LoadSend(true)] + [Push];
      } else {
        assert r.log + FromRecording(true, false) == r.log + [LoadRecording(true)] + [LoadSend(false)];
      }
    }
  }

  /**
   * From the top of the loop after any run, with no other thread in between: one round pulls
   * exactly if `playing` is set and pushes one window exactly if `recording` and
   * `send_to_webrtc` are both set, and the loop is at its top again.
   */
  lemma RoundPushesIffSending(actors: seq<Actor>)
    requires Run(actors).clock.AtTop? && !Run(actors).flags.terminate
    ensures var s := Run(actors);
            var marks := BeforeRecording(s.flags.playing) + FromRecording(s.flags.recording, s.flags.send);
            && Run(actors + Turns(|marks|)) == s.(log := s.log + marks)
            && (Pull in marks <==> s.flags.playing)
            && (Push in marks <==> s.flags.recording && s.flags.send)
  {
    var s := Run(actors);
    var first, second := BeforeRecording(s.flags.playing), FromRecording(s.flags.recording, s.flags.send);
    hide Run, ClockStep, TurnsFrom;
    FirstHalf(s);
    SecondHalf(s, |first|);
    assert s.log + first + second == s.log + (first + second);
    TakesTurns(actors, |first + second|);
  }

  /**
   * From the module's events to the windows: after any run, once nothing is in flight and the
   * loop is at its top, one round pushes a window exactly if the events taken so far ask for
   * recording that sends, and pulls exactly if they ask for playout.
   */
  lemma AskedMeansPushed(actors: seq<Actor>)
    requires var s := Run(actors);
             s.worker.Receiving? && s.channel == [] && s.control.AwaitingEvent? && s.clock.AtTop?
    ensures var s := Run(actors);
            var asked := Asked(s.inbox.posted[..s.inbox.consumed]);
            exists marks: seq<Mark> ::
              && Run(actors + Turns(|marks|)) == s.(log := s.log + marks)
              && (Pull in marks <==> asked.playing) && (Push in marks <==> asked.recording && asked.send)
  {
    hide Run, Turns, Asked, BeforeRecording, FromRecording;
    var s := Run(actors);
    RunKeepsOrder(actors);
    CaughtUpFlags(actors);
    RoundPushesIffSending(actors);
    var marks := BeforeRecording(s.flags.playing) + FromRecording(s.flags.recording, s.flags.send);
    assert Run(actors + Turns(|marks|)) == s.(log := s.log + marks);
  }
}
