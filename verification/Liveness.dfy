/** Once the module ends, all three threads end, under every fair infinite schedule. */
module Liveness {
  import opened Lifecycle
  import opened Shutdown

  /** An infinite interleaving: who moves at each instant. */
  type Schedule = nat -> Actor

  function At(schedule: Schedule, n: nat): (s: System)
    ensures WellFormed(s)
  {
    if n == 0 then INITIAL else Next(At(schedule, n - 1), schedule(n - 1))
  }

  ghost predicate MovesAgain(schedule: Schedule, a: Actor, n: nat)
  {
    exists m: nat :: n <= m && schedule(m) == a
  }

  /** No thread is passed over forever. */
  ghost predicate Fair(schedule: Schedule)
  {
    forall n: nat, a: Actor :: a in {Worker, Control, ClockThread} ==> MovesAgain(schedule, a, n)
  }

  /** The module has closed its channel, or has posted a Terminate. */
  ghost predicate Ending(s: System)
  {
    s.inbox.closed || exists k :: 0 <= k < |s.inbox.posted| && s.inbox.posted[k].Terminate?
  }

  predicate AllDone(s: System)
  {
    s.worker.WorkerDone? && s.control.ControlDone? && s.clock.DriverDone?
  }

  // ----- a measure of what is left to do -----

  /** Module events the worker will still take. */
  function Unread(s: System): nat
    requires WellFormed(s)
  {
    var end := UntilTerminate(s.inbox.posted);
    var last := if end < |s.inbox.posted| then end + 1 else end;
    if s.inbox.consumed <= last then last - s.inbox.consumed else 0
  }

  function WorkerLeft(s: System): nat
    requires WellFormed(s)
  {
    match s.worker
    case Receiving => Unread(s) + 4
    case SendingTerminate => 3
    case DroppingSender => 2
    case JoiningDriver => 1
    case WorkerDone => 0
  }

  function ControlLeft(s: System): nat
  {
    match s.control
    case AwaitingEvent => 2 * |s.channel| + 3
    case StoringRecording => 2 * |s.channel| + 4
    case StoringTerminate => 2
    case ControlDone => 0
  }

  /** The loop may go round any number of times until `terminate` is set. */
  function ClockLeft(s: System): nat
  {
    if !s.flags.terminate then 9
    else match s.clock
      case AtPlaying => 7
      case AtPull => 6
      case AtRecording => 5
      case AtSend => 4
      case AtPush => 3
      case AtTop => 2
      case JoiningControl => 1
      case DriverDone => 0
  }

  function Measure(s: System): nat
    requires WellFormed(s)
  {
    3 * WorkerLeft(s) + ControlLeft(s) + ClockLeft(s)
  }

  /** The thread whose next move is sure to lower the measure. */
  function Helpful(s: System): Actor
  {
    if !SenderDropped(s) then Worker
    else if !s.control.ControlDone? then Control
    else if !s.clock.DriverDone? then ClockThread
    else Worker
  }

  // ----- the measure goes down -----

  lemma UnreadDecided(s: System)
    requires InOrder(s) && s.worker.Receiving?
    ensures s.inbox.consumed <= UntilTerminate(s.inbox.posted)
    ensures s.inbox.consumed < |s.inbox.posted| ==> Unread(s) > 0
    ensures Ending(s) && s.inbox.consumed == |s.inbox.posted| ==> s.inbox.closed
  {
  }

  lemma WorkerLowers(s: System)
    requires InOrder(s)
    ensures WorkerStep(s) == s || Measure(WorkerStep(s)) < Measure(s)
    ensures Ending(s) && Helpful(s).Worker? && !AllDone(s) ==> Measure(WorkerStep(s)) < Measure(s)
  {
    InOrderIsWellFormed(s);
    if s.worker.Receiving? {
      UnreadDecided(s);
      ReceivingLowers(s);
    } else {
      hide InOrder, Ending, Unread;
    }
  }

  /** Taking an event costs three times less than the worker's own work goes down. */
  lemma ReceivingLowers(s: System)
    requires WellFormed(s) && s.worker.Receiving?
    requires s.inbox.consumed < |s.inbox.posted| ==> Unread(s) > 0
    ensures WorkerStep(s) == s || Measure(WorkerStep(s)) < Measure(s)
    ensures s.inbox.consumed < |s.inbox.posted| || s.inbox.closed ==> Measure(WorkerStep(s)) < Measure(s)
  {
    var r := WorkerStep(s);
    if s.inbox.consumed < |s.inbox.posted| {
      TakeOne(s.inbox.posted, s.inbox.consumed);
      assert Unread(r) == Unread(s) - 1;
      hide Unread;
    }
  }

  lemma TakeOne(posted: seq<ModuleEvent>, consumed: nat)
    requires consumed < |posted|
    ensures |Translate(posted[consumed])| <= 1
  {
  }

  lemma ControlLowers(s: System)
    requires InOrder(s)
    ensures ControlStep(s) == s || Measure(ControlStep(s)) < Measure(s)
    ensures Helpful(s).Control? ==> Measure(ControlStep(s)) < Measure(s)
  {
    if s.control.AwaitingEvent? && SenderDropped(s) {
      FinalTerminateIsQueued(s);
    }
  }

  lemma ClockLowers(s: System)
    requires InOrder(s)
    ensures Measure(ClockStep(s)) <= Measure(s)
    ensures Measure(ClockStep(s)) == Measure(s) ==> Helpful(ClockStep(s)) == Helpful(s)
    ensures Helpful(s).ClockThread? ==> Measure(ClockStep(s)) < Measure(s)
  {
    InOrderIsWellFormed(s);
    hide ClockLeft, Sent, WorkerStopsInTime, NoneTerminates;
    ClockLeavesRest(s);
    ClockLeftGoesDown(s);
  }

  lemma InOrderIsWellFormed(s: System)
    requires InOrder(s)
    ensures WellFormed(s)
  {
  }

  lemma ClockLeavesRest(s: System)
    requires WellFormed(s)
    ensures var r := ClockStep(s); WellFormed(r) && WorkerLeft(r) == WorkerLeft(s) && ControlLeft(r) == ControlLeft(s)
    ensures var r := ClockStep(s);
            r.worker == s.worker && r.control == s.control && r.flags == s.flags && r.channel == s.channel
  {
    assert Unread(ClockStep(s)) == Unread(s);
  }

  lemma ClockLeftGoesDown(s: System)
    requires s.clock.JoiningControl? || s.clock.DriverDone? ==> s.flags.terminate
    requires s.flags.terminate ==> s.control.ControlDone?
    ensures ClockLeft(ClockStep(s)) <= ClockLeft(s)
    ensures s.flags.terminate && !s.clock.DriverDone? ==> ClockLeft(ClockStep(s)) < ClockLeft(s)
    ensures !s.flags.terminate ==> !ClockStep(s).clock.DriverDone?
  {
  }

  lemma UntilTerminateStable(posted: seq<ModuleEvent>, e: ModuleEvent)
    requires exists k :: 0 <= k < |posted| && posted[k].Terminate?
    ensures UntilTerminate(posted + [e]) == UntilTerminate(posted) < |posted|
  {
    assert forall k :: 0 <= k < |posted| ==> (posted + [e])[k] == posted[k];
  }

  lemma EnvironmentStaysAway(s: System, a: Actor)
    requires InOrder(s) && Ending(s) && (a.Post? || a.Close?)
    ensures Measure(Next(s, a)) == Measure(s) && Helpful(Next(s, a)) == Helpful(s)
  {
    InOrderIsWellFormed(s);
    hide InOrder, Measure, Helpful;
    var r := Next(s, a);
    if a.Post? && !s.inbox.closed {
      UntilTerminateStable(s.inbox.posted, a.event);
    }
    SameWork(s, r);
  }

  lemma SameWork(s: System, r: System)
    requires WellFormed(s) && WellFormed(r) && r == s.(inbox := r.inbox) && Unread(r) == Unread(s)
    ensures Measure(r) == Measure(s) && Helpful(r) == Helpful(s)
  {
    hide Unread;
  }

  /**
   * Every move lowers the measure or leaves it and the helpful thread as they are; a move of
   * the helpful thread lowers it.
   */
  lemma NextLowers(s: System, a: Actor)
    requires InOrder(s) && Ending(s) && !AllDone(s)
    ensures Measure(Next(s, a)) < Measure(s)
            || (Measure(Next(s, a)) == Measure(s) && Helpful(Next(s, a)) == Helpful(s) && a != Helpful(s))
    ensures Ending(Next(s, a))
  {
    InOrderIsWellFormed(s);
    hide Measure, Helpful, InOrder, Ending, AllDone, WorkerStep, ControlStep, ClockStep;
    EndingStays(s, a);
    HelpfulIsThread(s);
    match a
    case Worker => WorkerLowers(s);
    case Control => ControlLowers(s);
    case ClockThread => ClockLowers(s);
    case _ => EnvironmentStaysAway(s, a);
  }

  lemma HelpfulIsThread(s: System)
    ensures Helpful(s).Worker? || Helpful(s).Control? || Helpful(s).ClockThread?
  {
  }

  lemma EndingStays(s: System, a: Actor)
    requires WellFormed(s) && Ending(s)
    ensures Ending(Next(s, a))
  {
    if !s.inbox.closed {
      var k :| 0 <= k < |s.inbox.posted| && s.inbox.posted[k].Terminate?;
      assert Next(s, a).inbox.closed || Next(s, a).inbox.posted[k].Terminate?;
    }
  }

  // ----- along a schedule -----

  lemma {:induction false} AtInOrder(schedule: Schedule, n: nat)
    ensures InOrder(At(schedule, n))
  {
    hide InOrder, Next;
    if n > 0 {
      AtInOrder(schedule, n - 1);
      NextKeepsOrder(At(schedule, n - 1), schedule(n - 1));
    } else {
      RunKeepsOrder([]);
    }
  }

  /** By the time the helpful thread moves, the measure has gone down. */
  lemma {:induction false} Lowered(schedule: Schedule, n: nat, m: nat) returns (k: nat)
    requires Ending(At(schedule, n)) && !AllDone(At(schedule, n))
    requires n <= m && schedule(m) == Helpful(At(schedule, n))
    ensures n < k && Ending(At(schedule, k)) && Measure(At(schedule, k)) < Measure(At(schedule, n))
    decreases m - n
  {
    hide Measure, Helpful, Ending, AllDone, InOrder, Next;
    AtInOrder(schedule, n);
    NextLowers(At(schedule, n), schedule(n));
    assert At(schedule, n + 1) == Next(At(schedule, n), schedule(n));
    if Measure(At(schedule, n + 1)) < Measure(At(schedule, n)) {
      k := n + 1;
    } else {
      StillBusy(schedule, n);
      k := Lowered(schedule, n + 1, m);
    }
  }

  lemma StillBusy(schedule: Schedule, n: nat)
    requires InOrder(At(schedule, n)) && !AllDone(At(schedule, n))
    requires Measure(At(schedule, n + 1)) == Measure(At(schedule, n))
    ensures !AllDone(At(schedule, n + 1))
  {
    hide Measure, AllDone, InOrder, At;
    BusyMeasures(At(schedule, n));
    AtInOrder(schedule, n + 1);
    DoneMeasures(At(schedule, n + 1));
  }

  lemma BusyMeasures(s: System)
    requires InOrder(s) && !AllDone(s)
    ensures Measure(s) > 0
  {
    InOrderIsWellFormed(s);
    hide InOrder, Unread;
  }

  lemma DoneMeasures(s: System)
    requires InOrder(s)
    ensures AllDone(s) ==> Measure(s) == 0
  {
    InOrderIsWellFormed(s);
    hide WorkerStopsInTime, Sent, NoneTerminates;
  }

  lemma {:induction false} DoneFrom(schedule: Schedule, n: nat) returns (k: nat)
    requires Fair(schedule) && Ending(At(schedule, n))
    ensures n <= k && AllDone(At(schedule, k))
    decreases Measure(At(schedule, n))
  {
    if AllDone(At(schedule, n)) {
      k := n;
    } else {
      var h := Helpful(At(schedule, n));
      assert MovesAgain(schedule, h, n);
      var m: nat :| n <= m && schedule(m) == h;
      var l := Lowered(schedule, n, m);
      k := DoneFrom(schedule, l);
    }
  }

  /**
   * Shutdown. Under every fair schedule in which the module at some point posts Terminate or
   * closes its channel, the control thread, the clock loop and the worker all come to an end.
   */
  lemma ShutdownCompletes(schedule: Schedule, n: nat)
    requires Fair(schedule) && Ending(At(schedule, n))
    ensures exists k: nat :: n <= k && AllDone(At(schedule, k))
  {
    var k := DoneFrom(schedule, n);
  }

  /** Conversely, the threads never end while the module neither terminates nor closes. */
  lemma DoneOnlyAfterEnding(schedule: Schedule, n: nat)
    requires AllDone(At(schedule, n))
    ensures Ending(At(schedule, n))
  {
    AtInOrder(schedule, n);
  }
}
