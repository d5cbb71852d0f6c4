/** When a window may reach WebRTC, under every interleaving of stores and loads. */
module WarmupGate {
  import opened Lifecycle
  import opened Options

  /** The value carried by the latest StartRecording to store `send_to_webrtc`, if there was one. */
  function LatestStart(log: seq<Mark>): Option<bool>
  {
    if log == [] then None
    else if log[|log| - 1].StoreSend? then Some(log[|log| - 1].value)
    else LatestStart(log[..|log| - 1])
  }

  /** The value of `recording`: the latest store to it, `false` at first. */
  function RecordingFlag(log: seq<Mark>): bool
  {
    if log == [] then false
    else if log[|log| - 1].StoreRecording? then log[|log| - 1].value
    else RecordingFlag(log[..|log| - 1])
  }

  /** The clock loop's accesses; the others are stores of the control thread. */
  predicate ByClock(m: Mark)
  {
    !m.StorePlaying? && !m.StoreSend? && !m.StoreRecording? && !m.StoreTerminate?
  }

  /** Mark `m` is a load of `send_to_webrtc` that saw the value of a handled StartRecording(true). */
  ghost predicate GatedLoad(log: seq<Mark>, m: nat)
  {
    m < |log| && log[m] == LoadSend(true) && LatestStart(log[..m]) == Some(true)
  }

  /** Mark `m` is the clock loop's latest access in `log`. */
  ghost predicate LatestByClock(log: seq<Mark>, m: nat)
  {
    m < |log| && ByClock(log[m]) && forall j :: m < j < |log| ==> !ByClock(log[j])
  }

  ghost predicate AboutToPush(log: seq<Mark>)
  {
    exists m: nat :: LatestByClock(log, m) && GatedLoad(log, m)
  }

  ghost predicate EveryPushGated(log: seq<Mark>)
  {
    forall k :: 0 <= k < |log| && log[k].Push? ==> AboutToPush(log[..k])
  }

  ghost predicate Gated(s: System)
  {
    && s.flags.recording == RecordingFlag(s.log)
    && s.flags.send == (match LatestStart(s.log) case None => true case Some(v) => v)
    && (s.control.StoringRecording? || s.flags.recording || s.clock.AtSend? || s.clock.AtPush?
        ==> LatestStart(s.log).Some?)
    && (s.clock.AtPush? ==> AboutToPush(s.log))
    && EveryPushGated(s.log)
  }

  lemma AppendStore(log: seq<Mark>, m: Mark)
    requires EveryPushGated(log) && !ByClock(m)
    ensures EveryPushGated(log + [m])
    ensures AboutToPush(log) ==> AboutToPush(log + [m])
  {
    var more := log + [m];
    forall k | 0 <= k < |more| && more[k].Push?
      ensures AboutToPush(more[..k])
    {
      assert more[..k] == log[..k];
    }
    if AboutToPush(log) {
      var l: nat :| LatestByClock(log, l) && GatedLoad(log, l);
      assert more[..l] == log[..l];
      assert LatestByClock(more, l) && GatedLoad(more, l);
    }
  }

  lemma AppendClock(log: seq<Mark>, m: Mark)
    requires EveryPushGated(log) && ByClock(m)
    requires m.Push? ==> AboutToPush(log)
    ensures EveryPushGated(log + [m])
    ensures m == LoadSend(true) && LatestStart(log) == Some(true) ==> AboutToPush(log + [m])
  {
    var more := log + [m];
    forall k | 0 <= k < |more| && more[k].Push?
      ensures AboutToPush(more[..k])
    {
      assert more[..k] == log[..k];
      assert k == |log| ==> log[..k] == log;
    }
    if m == LoadSend(true) && LatestStart(log) == Some(true) {
      assert more[..|log|] == log;
      assert LatestByClock(more, |log|) && GatedLoad(more, |log|);
    }
  }

  /** What one more access does to the flags as the log tells them. */
  lemma FlagsAfter(log: seq<Mark>, m: Mark)
    ensures RecordingFlag(log + [m]) == if m.StoreRecording? then m.value else RecordingFlag(log)
    ensures LatestStart(log + [m]) == if m.StoreSend? then Some(m.value) else LatestStart(log)
  {
    assert (log + [m])[..|log|] == log;
  }

  lemma ControlKeepsGate(s: System)
    requires Gated(s)
    ensures Gated(ControlStep(s))
  {
    hide AboutToPush, EveryPushGated, LatestStart, RecordingFlag;
    var r := ControlStep(s);
    if r.log != s.log {
      var m := r.log[|s.log|];
      assert r.log == s.log + [m];
      FlagsAfter(s.log, m);
      AppendStore(s.log, m);
    }
  }

  lemma ClockKeepsGate(s: System)
    requires Gated(s)
    ensures Gated(ClockStep(s))
  {
    hide AboutToPush, EveryPushGated, LatestStart, RecordingFlag;
    var r := ClockStep(s);
    if r.log != s.log {
      var m := r.log[|s.log|];
      assert r.log == s.log + [m];
      FlagsAfter(s.log, m);
      AppendClock(s.log, m);
    }
  }

  lemma NextKeepsGate(s: System, a: Actor)
    requires WellFormed(s) && Gated(s)
    ensures Gated(Next(s, a))
  {
    match a
    case Control => ControlKeepsGate(s);
    case ClockThread => ClockKeepsGate(s);
    case _ =>
  }

  lemma {:induction false} RunKeepsGate(actors: seq<Actor>)
    ensures Gated(Run(actors))
  {
    if actors != [] {
      RunKeepsGate(actors[..|actors| - 1]);
      NextKeepsGate(Run(actors[..|actors| - 1]), actors[|actors| - 1]);
    }
  }

  /**
   * The warm-up gate. In every interleaving, each push follows a load of `send_to_webrtc`,
   * with no other access of the clock loop in between; at that load a StartRecording had been
   * processed, and the latest one to store the flag carried true.
   */
  lemma PushOnlyWhenSending(actors: seq<Actor>, k: nat)
    requires k < |Run(actors).log| && Run(actors).log[k].Push?
    ensures var log := Run(actors).log;
            exists m :: 0 <= m < k && log[m] == LoadSend(true)
                        && LatestStart(log[..m]) == Some(true)
                        && forall j :: m < j < k ==> !ByClock(log[j])
  {
    var log := Run(actors).log;
    RunKeepsGate(actors);
    GateUnfolds(log, k);
  }

  lemma GateUnfolds(log: seq<Mark>, k: nat)
    requires k < |log| && log[k].Push? && EveryPushGated(log)
    ensures exists m :: 0 <= m < k && log[m] == LoadSend(true)
                        && LatestStart(log[..m]) == Some(true)
                        && forall j :: m < j < k ==> !ByClock(log[j])
  {
    var before := log[..k];
    assert AboutToPush(before);
    var m: nat :| LatestByClock(before, m) && GatedLoad(before, m);
    assert before[..m] == log[..m];
    forall j | m < j < k
      ensures !ByClock(log[j])
    {
      assert before[j] == log[j];
    }
    assert log[m] == LoadSend(true);
  }

  // ----- after a stop -----

  /** Pushes since `recording` was last switched off; zero while it is on. */
  function PushesWhileOff(log: seq<Mark>): nat
  {
    if log == [] then 0
    else
      var init, last := log[..|log| - 1], log[|log| - 1];
      if RecordingFlag(log) then 0
      else if last.StoreRecording? && RecordingFlag(init) then 0
      else PushesWhileOff(init) + if last.Push? then 1 else 0
  }

  /** While recording is off, at most one window can still be in flight or have been pushed. */
  ghost predicate OneInFlight(s: System)
  {
    !s.flags.recording ==> PushesWhileOff(s.log) + (if s.clock.AtSend? || s.clock.AtPush? then 1 else 0) <= 1
  }

  lemma CountAfter(log: seq<Mark>, m: Mark)
    ensures PushesWhileOff(log + [m])
            == if RecordingFlag(log + [m]) || (m.StoreRecording? && RecordingFlag(log)) then 0
               else PushesWhileOff(log) + if m.Push? then 1 else 0
  {
    assert (log + [m])[..|log|] == log;
  }

  lemma ControlKeepsOneInFlight(s: System)
    requires Gated(s) && OneInFlight(s)
    ensures OneInFlight(ControlStep(s))
  {
    hide RecordingFlag, PushesWhileOff, LatestStart, AboutToPush, EveryPushGated;
    var r := ControlStep(s);
    if r.log != s.log {
      var m := r.log[|s.log|];
      assert r.log == s.log + [m];
      FlagsAfter(s.log, m);
      CountAfter(s.log, m);
    }
  }

  lemma ClockKeepsOneInFlight(s: System)
    requires Gated(s) && OneInFlight(s)
    ensures OneInFlight(ClockStep(s))
  {
    hide RecordingFlag, PushesWhileOff, LatestStart, AboutToPush, EveryPushGated;
    var r := ClockStep(s);
    if r.log != s.log {
      var m := r.log[|s.log|];
      assert r.log == s.log + [m];
      FlagsAfter(s.log, m);
      CountAfter(s.log, m);
    }
  }

  lemma NextKeepsOneInFlight(s: System, a: Actor)
    requires WellFormed(s) && Gated(s) && OneInFlight(s)
    ensures OneInFlight(Next(s, a))
  {
    match a
    case Control => ControlKeepsOneInFlight(s);
    case ClockThread => ClockKeepsOneInFlight(s);
    case _ =>
  }

  lemma {:induction false} RunKeepsOneInFlight(actors: seq<Actor>)
    ensures OneInFlight(Run(actors))
  {
    if actors != [] {
      RunKeepsGate(actors[..|actors| - 1]);
      RunKeepsOneInFlight(actors[..|actors| - 1]);
      NextKeepsOneInFlight(Run(actors[..|actors| - 1]), actors[|actors| - 1]);
    }
  }

  function Pushes(log: seq<Mark>): nat
  {
    if log == [] then 0 else Pushes(log[..|log| - 1]) + if log[|log| - 1].Push? then 1 else 0
  }

  lemma {:induction false} PushesAreCounted(log: seq<Mark>, a: nat, b: nat)
    requires a < b <= |log| && log[a] == StoreRecording(false)
    requires forall j :: a < j < b ==> log[j] != StoreRecording(true)
    ensures !RecordingFlag(log[..b]) && Pushes(log[a..b]) <= PushesWhileOff(log[..b])
  {
    assert log[..b][..b - 1] == log[..b - 1];
    if b == a + 1 {
      assert log[a..b] == [log[a]] && log[a..b][..0] == [];
    } else {
      PushesAreCounted(log, a, b - 1);
      assert log[a..b][..b - a - 1] == log[a..b - 1];
    }
  }

  /** A step appends at most one mark to the log. */
  lemma NextAppends(s: System, a: Actor)
    requires WellFormed(s)
    ensures var r := Next(s, a);
            r.log == s.log || (|r.log| == |s.log| + 1 && r.log[..|s.log|] == s.log)
  {
  }

  /** Every prefix of the log was the log at an earlier point of the run. */
  lemma {:induction false} LogIsHistory(actors: seq<Actor>, b: nat) returns (n: nat)
    requires b <= |Run(actors).log|
    ensures n <= |actors| && Run(actors[..n]).log == Run(actors).log[..b]
  {
    var log := Run(actors).log;
    if b == |log| {
      n := |actors|;
      assert actors[..n] == actors && log[..b] == log;
    } else {
      var init := actors[..|actors| - 1];
      NextAppends(Run(init), actors[|actors| - 1]);
      n := LogIsHistory(init, b);
      assert actors[..n] == init[..n] && Run(init).log[..b] == log[..b];
    }
  }

  /**
   * After a StopRecording store at most one window, the one in flight, is pushed before
   * `recording` is stored true again.
   */
  lemma AtMostOnePushAfterStop(actors: seq<Actor>, a: nat, b: nat)
    requires a < b <= |Run(actors).log| && Run(actors).log[a] == StoreRecording(false)
    requires forall j :: a < j < b ==> Run(actors).log[j] != StoreRecording(true)
    ensures Pushes(Run(actors).log[a..b]) <= 1
  {
    PushesAreCounted(Run(actors).log, a, b);
    var n := LogIsHistory(actors, b);
    RunKeepsGate(actors[..n]);
    RunKeepsOneInFlight(actors[..n]);
  }
}
