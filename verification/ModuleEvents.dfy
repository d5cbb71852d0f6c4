/** What the three threads make of the module's own events, end to end. */
module ModuleEvents {
  import opened Lifecycle
  import opened WarmupGate
  import opened Shutdown
  import opened Options

  // ----- warm-up -----

  predicate BeginsRecording(e: ModuleEvent) { e.StartRecording? || e.WarmupRecording? }

  /** The events that begin recording, for sending or for warming up. */
  function Beginnings(events: seq<ModuleEvent>): seq<ModuleEvent>
  {
    if events == [] then []
    else
      var e := events[|events| - 1];
      Beginnings(events[..|events| - 1]) + if BeginsRecording(e) then [e] else []
  }

  /** The values stored to `send_to_webrtc`, in order. */
  function SendStores(log: seq<Mark>): seq<bool>
  {
    if log == [] then []
    else
      var m := log[|log| - 1];
      SendStores(log[..|log| - 1]) + if m.StoreSend? then [m.value] else []
  }

  /** The values that handled events carry for that flag. */
  function SendValues(events: seq<ControlEvent>): seq<bool>
  {
    if events == [] then []
    else
      var e := events[|events| - 1];
      SendValues(events[..|events| - 1]) + if e.RecordingStarted? then [e.send] else []
  }

  lemma StoresSnoc(log: seq<Mark>, m: Mark)
    ensures SendStores(log + [m]) == SendStores(log) + if m.StoreSend? then [m.value] else []
  {
    assert (log + [m])[..|log|] == log;
  }

  lemma ValuesSnoc(events: seq<ControlEvent>, e: ControlEvent)
    ensures SendValues(events + [e]) == SendValues(events) + if e.RecordingStarted? then [e.send] else []
  {
    assert (events + [e])[..|events|] == events;
  }

  lemma StepStores(s: System, a: Actor)
    requires WellFormed(s) && SendStores(s.log) == SendValues(s.handled)
    ensures SendStores(Next(s, a).log) == SendValues(Next(s, a).handled)
  {
    hide SendStores, SendValues;
    var r := Next(s, a);
    if r.log != s.log {
      StoresSnoc(s.log, r.log[|s.log|]);
      assert r.log == s.log + [r.log[|s.log|]];
    }
    if r.handled != s.handled {
      ValuesSnoc(s.handled, r.handled[|s.handled|]);
      assert r.handled == s.handled + [r.handled[|s.handled|]];
    }
    assert SendStores(s.log) + [] == SendStores(s.log);
  }

  lemma {:induction false} StoresAreHandled(actors: seq<Actor>)
    ensures SendStores(Run(actors).log) == SendValues(Run(actors).handled)
  {
    if actors != [] {
      StoresAreHandled(actors[..|actors| - 1]);
      StepStores(Run(actors[..|actors| - 1]), actors[|actors| - 1]);
    }
  }

  lemma {:induction false} StoresPrefix(log: seq<Mark>, m: nat)
    requires m <= |log|
    ensures SendStores(log[..m]) <= SendStores(log)
  {
    if m == |log| {
      assert log[..m] == log;
    } else {
      StoresPrefix(log[..|log| - 1], m);
      assert log[..|log| - 1][..m] == log[..m];
    }
  }

  lemma {:induction false} ValuesPrefix(events: seq<ControlEvent>, n: nat)
    requires n <= |events|
    ensures SendValues(events[..n]) <= SendValues(events)
  {
    if n == |events| {
      assert events[..n] == events;
    } else {
      ValuesPrefix(events[..|events| - 1], n);
      assert events[..|events| - 1][..n] == events[..n];
    }
  }

  lemma {:induction false} BeginningsPrefix(events: seq<ModuleEvent>, n: nat)
    requires n <= |events|
    ensures Beginnings(events[..n]) <= Beginnings(events)
  {
    if n == |events| {
      assert events[..n] == events;
    } else {
      BeginningsPrefix(events[..|events| - 1], n);
      assert events[..|events| - 1][..n] == events[..n];
    }
  }

  lemma {:induction false} LatestIsLast(log: seq<Mark>)
    ensures LatestStart(log).Some? <==> SendStores(log) != []
    ensures LatestStart(log).Some? ==> LatestStart(log).value == SendStores(log)[|SendStores(log)| - 1]
  {
    if log != [] {
      LatestIsLast(log[..|log| - 1]);
    }
  }

  /** Translated, an event that begins recording carries true exactly if it is no warm-up. */
  lemma {:induction false} ValuesOfBeginnings(events: seq<ModuleEvent>)
    ensures var v, b := SendValues(TranslateAll(events)), Beginnings(events);
            |v| == |b| && forall i :: 0 <= i < |b| ==> v[i] == b[i].StartRecording?
  {
    hide SendValues, Translate;
    if events == [] {
      NoValues();
    } else {
      var init, e := events[..|events| - 1], events[|events| - 1];
      ValuesOfBeginnings(init);
      OneMoreValue(TranslateAll(init), e);
    }
  }

  lemma NoValues()
    ensures SendValues([]) == []
  {
  }

  lemma OneMoreValue(done: seq<ControlEvent>, e: ModuleEvent)
    ensures SendValues(done + Translate(e)) == SendValues(done) + if BeginsRecording(e) then [e.StartRecording?] else []
  {
    hide SendValues;
    if Translate(e) == [] {
      assert done + [] == done;
    } else {
      ValuesSnoc(done, Translate(e)[0]);
    }
  }

  /**
   * Warm-up end to end. When a window is pushed, the clock loop's access right before was a
   * load of the flag that saw true, and the latest of the module's StartRecording and
   * WarmupRecording events whose store that load had seen was a StartRecording.
   */
  lemma PushOnlyAfterStartRecording(actors: seq<Actor>, k: nat)
    requires k < |Run(actors).log| && Run(actors).log[k].Push?
    ensures var s := Run(actors);
            exists m :: 0 <= m < k && s.log[m] == LoadSend(true)
                        && (forall i :: m < i < k ==> !ByClock(s.log[i]))
                        && var j := |SendStores(s.log[..m])|; var b := Beginnings(s.inbox.posted);
                           0 < j <= |b| && b[j - 1] == StartRecording
  {
    hide Run, SendStores, LatestStart, Beginnings, ByClock;
    var s := Run(actors);
    PushOnlyWhenSending(actors, k);
    var m :| 0 <= m < k && s.log[m] == LoadSend(true) && LatestStart(s.log[..m]) == Some(true)
             && forall i :: m < i < k ==> !ByClock(s.log[i]);
    StoresPrefix(s.log, m);
    LatestIsLast(s.log[..m]);
    StoresComeFromModule(actors);
  }

  /** Stores of the flag follow the module's beginnings, one by one. */
  lemma StoresComeFromModule(actors: seq<Actor>)
    ensures var v, b := SendStores(Run(actors).log), Beginnings(Run(actors).inbox.posted);
            |v| <= |b| && forall i :: 0 <= i < |v| ==> v[i] == b[i].StartRecording?
  {
    hide Run, SendStores, SendValues, Beginnings, TranslateAll;
    var s := Run(actors);
    var posted, n := s.inbox.posted, UntilTerminate(s.inbox.posted);
    StoresAreHandled(actors);
    HandledIsPrefix(actors);
    ExpectedEnds(posted);
    var body := TranslateAll(posted[..n]);
    assert s.handled == (body + [Terminated])[..|s.handled|];
    ValuesPrefix(body + [Terminated], |s.handled|);
    ValuesSnoc(body, Terminated);
    ValuesOfBeginnings(posted[..n]);
    BeginningsPrefix(posted, n);
  }

  lemma ExpectedEnds(posted: seq<ModuleEvent>)
    ensures Expected(posted) == TranslateAll(posted[..UntilTerminate(posted)]) + [Terminated]
  {
  }

  // ----- flags -----

  /** What the module has asked for. */
  datatype Wish = Wish(playing: bool, recording: bool, send: bool)

  function Asked(events: seq<ModuleEvent>): Wish
  {
    if events == [] then Wish(false, false, true)
    else
      Ask(Asked(events[..|events| - 1]), events[|events| - 1])
  }

  function Ask(w: Wish, e: ModuleEvent): Wish
  {
    match e
    case StartPlayout => w.(playing := true)
    case StopPlayout => w.(playing := false)
    case StartRecording => w.(recording := true, send := true)
    case WarmupRecording => w.(recording := true, send := false)
    case StopRecording => w.(recording := false)
    case _ => w
  }

  function WishOf(f: Flags): Wish { Wish(f.playing, f.recording, f.send) }

  lemma {:induction false} FlagsAreAsked(events: seq<ModuleEvent>)
    ensures WishOf(FlagsOf(TranslateAll(events))) == Asked(events)
  {
    hide FlagsOf, Translate, Ask;
    if events == [] {
      NoEventNoChange();
    } else {
      var init, e := events[..|events| - 1], events[|events| - 1];
      FlagsAreAsked(init);
      OneMoreWish(TranslateAll(init), e);
    }
  }

  lemma OneMoreWish(done: seq<ControlEvent>, e: ModuleEvent)
    ensures WishOf(FlagsOf(done + Translate(e))) == Ask(WishOf(FlagsOf(done)), e)
  {
    if Translate(e) == [] {
      assert done + [] == done;
    } else {
      assert (done + Translate(e))[..|done|] == done;
    }
  }

  /** In every interleaving, once nothing is in flight the flags are what the module asked for. */
  lemma CaughtUpFlags(actors: seq<Actor>)
    requires var s := Run(actors); s.worker.Receiving? && s.channel == [] && s.control.AwaitingEvent?
    ensures var s := Run(actors);
            s.inbox.consumed <= |s.inbox.posted| && WishOf(s.flags) == Asked(s.inbox.posted[..s.inbox.consumed])
  {
    var s := Run(actors);
    RunKeepsOrder(actors);
    FlagsFollowEvents(actors);
    var done := TranslateAll(s.inbox.posted[..s.inbox.consumed]);
    assert s.handled + [] == s.handled && done + [] == done;
    FlagsAreAsked(s.inbox.posted[..s.inbox.consumed]);
  }
}
