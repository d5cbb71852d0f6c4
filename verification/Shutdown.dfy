/** Event order between the threads, and their end under every fair schedule. */
module Shutdown {
  import opened Lifecycle

  // ----- the control thread handles the translated events, in order -----

  /** The worker's own Terminated, sent once it has left its loop. */
  function Closing(w: WorkerPhase): seq<ControlEvent>
  {
    if w.Receiving? || w.SendingTerminate? then [] else [Terminated]
  }

  /** What the worker has put on the control channel so far. */
  function Sent(s: System): seq<ControlEvent>
    requires WellFormed(s)
  {
    TranslateAll(s.inbox.posted[..s.inbox.consumed]) + Closing(s.worker)
  }

  predicate NoneTerminates(events: seq<ControlEvent>) { Terminated !in events }

  predicate PastLoop(s: System) { s.control.StoringTerminate? || s.control.ControlDone? }

  /** The worker leaves its loop right after the first Terminate, or when a closed inbox is empty. */
  ghost predicate WorkerStopsInTime(inbox: Inbox, w: WorkerPhase)
  {
    && inbox.consumed <= |inbox.posted|
    && (forall k :: 0 <= k < inbox.consumed && inbox.posted[k].Terminate? ==>
          k == inbox.consumed - 1 && !w.Receiving?)
    && (!w.Receiving? ==>
          (0 < inbox.consumed && inbox.posted[inbox.consumed - 1].Terminate?)
          || (inbox.closed && inbox.consumed == |inbox.posted|))
  }

  ghost predicate InOrder(s: System)
  {
    && WorkerStopsInTime(s.inbox, s.worker)
    && s.handled + s.channel == Sent(s)
    && (if PastLoop(s) then |s.handled| > 0 && s.handled[|s.handled| - 1] == Terminated
                            && NoneTerminates(s.handled[..|s.handled| - 1])
        else NoneTerminates(s.handled))
    && (s.flags.terminate <==> s.control.ControlDone?)
    && (s.clock.JoiningControl? || s.clock.DriverDone? ==> s.flags.terminate)
    && (s.worker.WorkerDone? ==> s.clock.DriverDone?)
  }

  lemma WorkerSends(s: System)
    requires WellFormed(s) && s.handled + s.channel == Sent(s)
    ensures WorkerStep(s).handled + WorkerStep(s).channel == Sent(WorkerStep(s))
  {
    var n := s.inbox.consumed;
    var done := TranslateAll(s.inbox.posted[..n]);
    if s.worker.Receiving? && n < |s.inbox.posted| {
      var e := s.inbox.posted[n];
      assert s.inbox.posted[..n + 1][..n] == s.inbox.posted[..n];
      assert done + [] == done && (done + Translate(e)) + [] == done + Translate(e);
      assert s.handled + (s.channel + Translate(e)) == (s.handled + s.channel) + Translate(e);
    } else if s.worker.SendingTerminate? {
      assert done + [] == done;
      assert s.handled + (s.channel + [Terminated]) == (s.handled + s.channel) + [Terminated];
    }
  }

  lemma WorkerKeepsOrder(s: System)
    requires InOrder(s)
    ensures InOrder(WorkerStep(s))
  {
    WorkerSends(s);
    WorkerStillInTime(s);
    hide Sent, WorkerStopsInTime, NoneTerminates;
  }

  lemma WorkerStillInTime(s: System)
    requires WorkerStopsInTime(s.inbox, s.worker)
    ensures WorkerStopsInTime(WorkerStep(s).inbox, WorkerStep(s).worker)
  {
  }

  /** The worker sends Terminate before it drops the sender, so `recv` never yields None. */
  lemma FinalTerminateIsQueued(s: System)
    requires InOrder(s) && s.control.AwaitingEvent? && SenderDropped(s)
    ensures s.channel != []
  {
    var all := s.handled + s.channel;
    assert all[|all| - 1] == Terminated;
    assert Terminated !in s.handled;
  }

  lemma ControlKeepsOrder(s: System)
    requires InOrder(s)
    ensures InOrder(ControlStep(s))
  {
    SameSent(s, ControlStep(s));
    if s.control.AwaitingEvent? && s.channel != [] {
      TakingKeepsOrder(s);
    } else if s.control.AwaitingEvent? && SenderDropped(s) {
      FinalTerminateIsQueued(s);
    } else {
      hide WorkerStopsInTime, Sent, NoneTerminates;
    }
  }

  lemma TakingKeepsOrder(s: System)
    requires InOrder(s) && s.control.AwaitingEvent? && s.channel != [] && Sent(ControlStep(s)) == Sent(s)
    ensures InOrder(ControlStep(s))
  {
    hide WorkerStopsInTime, Sent;
    var r := ControlStep(s);
    assert r.handled + r.channel == s.handled + s.channel;
    assert r.handled[..|r.handled| - 1] == s.handled;
  }

  lemma NextKeepsOrder(s: System, a: Actor)
    requires InOrder(s)
    ensures InOrder(Next(s, a))
  {
    match a
    case Worker => WorkerKeepsOrder(s);
    case Control => ControlKeepsOrder(s);
    case ClockThread => ClockKeepsOrder(s);
    case _ => EnvironmentKeepsOrder(s, a);
  }

  lemma ClockKeepsOrder(s: System)
    requires InOrder(s)
    ensures InOrder(ClockStep(s))
  {
    SameSent(s, ClockStep(s));
    hide WorkerStopsInTime, NoneTerminates, Sent, PastLoop;
  }

  lemma SameSent(s: System, r: System)
    requires WellFormed(s) && r.inbox == s.inbox && r.worker == s.worker
    ensures Sent(r) == Sent(s)
  {
  }

  lemma EnvironmentKeepsOrder(s: System, a: Actor)
    requires InOrder(s) && (a.Post? || a.Close?)
    ensures InOrder(Next(s, a))
  {
    hide NoneTerminates, TranslateAll;
    var r := Next(s, a);
    assert r.inbox.posted[..r.inbox.consumed] == s.inbox.posted[..s.inbox.consumed];
  }

  lemma {:induction false} RunKeepsOrder(actors: seq<Actor>)
    ensures InOrder(Run(actors))
  {
    if actors != [] {
      RunKeepsOrder(actors[..|actors| - 1]);
      NextKeepsOrder(Run(actors[..|actors| - 1]), actors[|actors| - 1]);
    }
  }

  // ----- what is handled in the end -----

  /** The position of the first Terminate, or the length if there is none. */
  function UntilTerminate(events: seq<ModuleEvent>): (n: nat)
    ensures n <= |events|
    ensures forall k :: 0 <= k < n ==> !events[k].Terminate?
    ensures n < |events| ==> events[n].Terminate?
  {
    if events == [] || events[0].Terminate? then 0 else 1 + UntilTerminate(events[1..])
  }

  /** Everything the control thread will handle: the events before the end, then Terminated. */
  function Expected(posted: seq<ModuleEvent>): seq<ControlEvent>
  {
    TranslateAll(posted[..UntilTerminate(posted)]) + [Terminated]
  }

  lemma {:induction false} TranslateAllConcat(a: seq<ModuleEvent>, b: seq<ModuleEvent>)
    ensures TranslateAll(a + b) == TranslateAll(a) + TranslateAll(b)
  {
    if b == [] {
      assert a + b == a;
    } else {
      var init, last := b[..|b| - 1], Translate(b[|b| - 1]);
      assert (a + b)[..|a + b| - 1] == a + init;
      TranslateAllConcat(a, init);
      assert (TranslateAll(a) + TranslateAll(init)) + last == TranslateAll(a) + (TranslateAll(init) + last);
    }
  }

  lemma {:induction false} NoTerminateIn(events: seq<ModuleEvent>)
    requires forall k :: 0 <= k < |events| ==> !events[k].Terminate?
    ensures NoneTerminates(TranslateAll(events))
  {
    if events != [] {
      NoTerminateIn(events[..|events| - 1]);
    }
  }

  /**
   * What was sent is a prefix of what is expected, or all of it and some Terminated after it.
   */
  lemma SentIsExpected(s: System)
    requires InOrder(s)
    ensures Sent(s) <= Expected(s.inbox.posted) || Expected(s.inbox.posted) <= Sent(s)
    ensures !s.worker.Receiving? && !s.worker.SendingTerminate? ==> Expected(s.inbox.posted) <= Sent(s)
  {
    var posted, n, m := s.inbox.posted, s.inbox.consumed, UntilTerminate(s.inbox.posted);
    if n <= m {
      assert posted[..m] == posted[..n] + posted[n..m];
      TranslateAllConcat(posted[..n], posted[n..m]);
      if n == m {
        assert posted[n..m] == [];
      }
    } else {
      ConsumedTerminate(s);
    }
  }

  lemma ConsumedTerminate(s: System)
    requires WellFormed(s) && WorkerStopsInTime(s.inbox, s.worker) && s.inbox.consumed > UntilTerminate(s.inbox.posted)
    ensures Expected(s.inbox.posted) <= Sent(s)
  {
    var posted, n, m := s.inbox.posted, s.inbox.consumed, UntilTerminate(s.inbox.posted);
    assert posted[..n] == posted[..m] + [posted[m]];
    TranslateAllConcat(posted[..m], [posted[m]]);
    assert [posted[m]][..0] == [] && TranslateAll([posted[m]]) == [] + [Terminated];
  }

  /**
   * In every interleaving the events handled are an in-order prefix of the translated module
   * events up to the first Terminate, closed off by one Terminated; and once the control
   * thread has left its loop it has handled every one of them.
   */
  lemma HandledIsPrefix(actors: seq<Actor>)
    ensures var s := Run(actors); s.handled <= Expected(s.inbox.posted)
    ensures var s := Run(actors); PastLoop(s) ==> s.handled == Expected(s.inbox.posted)
  {
    var s := Run(actors);
    RunKeepsOrder(actors);
    SentIsExpected(s);
    var posted := s.inbox.posted;
    NoTerminateIn(posted[..UntilTerminate(posted)]);
    HandledWithin(s.handled, s.channel, TranslateAll(posted[..UntilTerminate(posted)]));
  }

  /** A prefix of a list that agrees with `body + [Terminated]` stops at the first Terminated. */
  lemma HandledWithin(handled: seq<ControlEvent>, channel: seq<ControlEvent>, body: seq<ControlEvent>)
    requires handled + channel <= body + [Terminated] || body + [Terminated] <= handled + channel
    requires NoneTerminates(body)
    requires handled != [] ==> NoneTerminates(handled[..|handled| - 1])
    ensures handled <= body + [Terminated]
    ensures handled != [] && handled[|handled| - 1] == Terminated ==> handled == body + [Terminated]
  {
    var e := body + [Terminated];
    assert forall k :: 0 <= k < |handled| && k < |e| ==> handled[k] == (handled + channel)[k] == e[k];
    forall k | 0 <= k < |handled| - 1
      ensures handled[k] != Terminated
    {
      assert handled[..|handled| - 1][k] == handled[k];
    }
    assert e[|body|] == Terminated;
  }

  // ----- the flags say what was handled -----

  /** The flags after handling `events` one after the other. */
  function FlagsOf(events: seq<ControlEvent>): Flags
  {
    if events == [] then INITIAL.flags
    else
      var f := FlagsOf(events[..|events| - 1]);
      match events[|events| - 1]
      case PlayoutStarted => f.(playing := true)
      case PlayoutStopped => f.(playing := false)
      case RecordingStarted(send) => f.(recording := true, send := send)
      case RecordingStopped => f.(recording := false)
      case Terminated => f
  }

  /** Between its two stores a RecordingStarted has set `send` but not yet `recording`. */
  ghost predicate FlagsFollow(s: System)
  {
    if s.control.StoringRecording? then
      && s.handled != [] && s.handled[|s.handled| - 1].RecordingStarted?
      && s.flags.(recording := true, terminate := false) == FlagsOf(s.handled)
    else s.flags.(terminate := false) == FlagsOf(s.handled)
  }

  /** In every interleaving the flags are what the handled events amount to. */
  lemma {:induction false} FlagsFollowEvents(actors: seq<Actor>)
    ensures FlagsFollow(Run(actors))
  {
    hide FlagsOf, ControlStep;
    if actors == [] {
      NoEventNoChange();
    } else {
      var s := Run(actors[..|actors| - 1]);
      FlagsFollowEvents(actors[..|actors| - 1]);
      if actors[|actors| - 1].Control? {
        ControlKeepsFlags(s);
      } else {
        OthersKeepFlags(s, actors[|actors| - 1]);
      }
    }
  }

  lemma NoEventNoChange()
    ensures FlagsOf([]) == INITIAL.flags
  {
  }

  lemma OthersKeepFlags(s: System, a: Actor)
    requires WellFormed(s) && !a.Control?
    ensures var r := Next(s, a); r.flags == s.flags && r.handled == s.handled && r.control == s.control
  {
  }

  lemma ControlKeepsFlags(s: System)
    requires FlagsFollow(s)
    ensures FlagsFollow(ControlStep(s))
  {
    if s.control.AwaitingEvent? && s.channel != [] {
      var r := ControlStep(s);
      assert r.handled[..|s.handled|] == s.handled;
    }
  }
}
