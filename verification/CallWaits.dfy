/** Waiting for call states: successive waits follow the order in which the states arrived. */
module CallWaits {
  import opened Mailbox
  import opened Options

  predicate Returned(m: Mail, r: Mail) { |m.returned| < |r.returned| }

  /** The message handed out last. */
  function Last(m: Mail): nat
    requires m.returned != []
  {
    m.returned[|m.returned| - 1]
  }

  /**
   * `wait_for_state`: reads events until one carries the target state. `limits` has one entry
   * for each turn before the deadline: how many messages arrive during that turn. A turn in
   * which nothing is returned stands for a closed socket; a timeout ends the list.
   */
  function WaitFor(m: Mail, arrived: seq<Message>, target: string, limits: seq<nat>): (r: (Mail, bool))
    decreases |limits|
    ensures r.1 ==> r.0.returned != []
  {
    if limits == [] then (m, false)
    else
      var r := Perform(m, arrived, ReadEvent(limits[0]));
      if Returned(m, r) && Found(r, arrived, target) then (r, true)
      else WaitFor(r, arrived, target, limits[1..])
  }

  lemma {:induction false} WaitForSnoc(m: Mail, arrived: seq<Message>, target: string, limits: seq<nat>, limit: nat)
    requires !WaitFor(m, arrived, target, limits).1
    ensures var n := WaitFor(m, arrived, target, limits).0;
            var r := Perform(n, arrived, ReadEvent(limit));
            WaitFor(m, arrived, target, limits + [limit]) == (r, Returned(n, r) && Found(r, arrived, target))
    decreases |limits|
  {
    hide Perform, Found;
    if limits != [] {
      var n := Perform(m, arrived, ReadEvent(limits[0]));
      assert (limits + [limit])[1..] == limits[1..] + [limit];
      WaitForSnoc(n, arrived, target, limits[1..], limit);
    } else {
      assert [] + [limit] == [limit] && [limit][1..] == [];
    }
  }

  lemma {:induction false} AwaitExtends(m: Mail, arrived: seq<Message>, req: int, limit: nat)
    ensures Await(m, arrived, req, limit).returned == m.returned
    decreases limit
  {
    if limit > 0 && m.next < |arrived| {
      AwaitExtends(TakeAwaiting(m, arrived, req), arrived, req, limit - 1);
    }
  }

  /** A read hands out one message or none. */
  lemma {:induction false} ReadExtends(m: Mail, arrived: seq<Message>, limit: nat)
    ensures var r := Read(m, arrived, limit).returned;
            r == m.returned || (|r| == |m.returned| + 1 && m.returned <= r)
    decreases limit
  {
    if limit > 0 && m.next < |arrived| && IsResponse(arrived[m.next]) {
      ReadExtends(TakeReading(m, arrived), arrived, limit - 1);
    }
  }

  lemma PerformExtends(m: Mail, arrived: seq<Message>, call: Call)
    ensures var r := Perform(m, arrived, call).returned;
            r == m.returned || (|r| == |m.returned| + 1 && m.returned <= r)
  {
    match call
    case WaitResponse(req, limit) => AwaitExtends(m, arrived, req, limit);
    case ReadEvent(limit) => ReadExtends(m, arrived, limit);
  }

  lemma PerformKeeps(m: Mail, arrived: seq<Message>, call: Call)
    requires Sound(m, arrived)
    ensures Sound(Perform(m, arrived, call), arrived)
  {
    match call
    case WaitResponse(req, limit) => AwaitKeeps(m, arrived, req, limit);
    case ReadEvent(limit) => if m.pending != [] { PendingKeeps(m, arrived); } else { ReadKeeps(m, arrived, limit); }
  }

  /** The last message handed out is a call event with the target state. */
  predicate Found(r: Mail, arrived: seq<Message>, target: string)
  {
    && r.returned != [] && Last(r) < |arrived|
    && arrived[Last(r)].name == Some("callEvent") && arrived[Last(r)].callState == Some(target)
  }

  /** Messages `lo..hi` of those handed out are no call events with the target state. */
  ghost predicate Misses(r: Mail, arrived: seq<Message>, target: string, lo: nat, hi: nat)
    requires hi <= |r.returned|
  {
    forall i :: lo <= i < hi && r.returned[i] < |arrived| ==>
      arrived[r.returned[i]].name != Some("callEvent") || arrived[r.returned[i]].callState != Some(target)
  }

  /** A wait returns only messages without the target state, and then, if it succeeds, one with it. */
  ghost predicate WaitOutcome(m: Mail, arrived: seq<Message>, target: string, r: Mail, ok: bool)
  {
    && m.returned <= r.returned
    && (ok ==> Returned(m, r) && Last(r) < |arrived|
               && arrived[Last(r)].name == Some("callEvent") && arrived[Last(r)].callState == Some(target))
    && Misses(r, arrived, target, |m.returned|, if ok then |r.returned| - 1 else |r.returned|)
  }

  lemma OneMoreTurn(m: Mail, n: Mail, arrived: seq<Message>, target: string, r: Mail, ok: bool)
    requires n.returned == m.returned || (|n.returned| == |m.returned| + 1 && m.returned <= n.returned)
    requires Returned(m, n) ==> !Found(n, arrived, target)
    requires WaitOutcome(n, arrived, target, r, ok)
    ensures WaitOutcome(m, arrived, target, r, ok)
  {
    if Returned(m, n) {
      assert r.returned[|m.returned|] == Last(n);
    }
  }

  lemma {:induction false} WaitReturns(m: Mail, arrived: seq<Message>, target: string, limits: seq<nat>)
    requires Sound(m, arrived)
    ensures Sound(WaitFor(m, arrived, target, limits).0, arrived)
    ensures WaitOutcome(m, arrived, target,
                        WaitFor(m, arrived, target, limits).0, WaitFor(m, arrived, target, limits).1)
    decreases |limits|
  {
    hide Perform, Sound, Found, Returned, WaitOutcome;
    if limits == [] {
      NoTurn(m, arrived, target);
    } else {
      var n := Perform(m, arrived, ReadEvent(limits[0]));
      PerformExtends(m, arrived, ReadEvent(limits[0]));
      PerformKeeps(m, arrived, ReadEvent(limits[0]));
      if Returned(m, n) && Found(n, arrived, target) {
        LastTurn(m, n, arrived, target);
      } else {
        WaitReturns(n, arrived, target, limits[1..]);
        var (r, ok) := WaitFor(n, arrived, target, limits[1..]);
        OneMoreTurn(m, n, arrived, target, r, ok);
      }
    }
  }

  lemma NoTurn(m: Mail, arrived: seq<Message>, target: string)
    ensures WaitOutcome(m, arrived, target, m, false)
  {
  }

  lemma LastTurn(m: Mail, n: Mail, arrived: seq<Message>, target: string)
    requires n.returned == m.returned || (|n.returned| == |m.returned| + 1 && m.returned <= n.returned)
    requires Returned(m, n) && Found(n, arrived, target)
    ensures WaitOutcome(m, arrived, target, n, true)
  {
  }

  /**
   * A successful wait returns a call event with the target state, and the first such that had
   * not been returned before: every earlier one was handed out by an earlier call.
   */
  lemma WaitMatchesFirst(m: Mail, arrived: seq<Message>, target: string, limits: seq<nat>, j: nat)
    requires Sound(m, arrived) && WaitFor(m, arrived, target, limits).1
    ensures var k := Last(WaitFor(m, arrived, target, limits).0);
            k < |arrived| && arrived[k].name == Some("callEvent") && arrived[k].callState == Some(target)
    ensures j < Last(WaitFor(m, arrived, target, limits).0) && arrived[j].id.NoId? ==>
              arrived[j].name == Some("callEvent") && arrived[j].callState == Some(target) ==> j in m.returned
  {
    var r := WaitFor(m, arrived, target, limits).0;
    hide WaitFor, Sound;
    WaitReturns(m, arrived, target, limits);
    if j < Last(r) && arrived[j].id.NoId? && arrived[j].name == Some("callEvent")
       && arrived[j].callState == Some(target) {
      EarlierNotificationsReturned(r, arrived, j, Last(r));
      var i :| 0 <= i < |r.returned| && r.returned[i] == j;
      assert i < |m.returned|;
      assert m.returned[i] == j;
    }
  }

  lemma {:induction false} EventsKeepOrder(s: seq<nat>, arrived: seq<Message>, a: nat, b: nat)
    requires Increasing(Events(s, arrived)) && a < b < |s|
    requires s[a] < |arrived| && !IsResponse(arrived[s[a]]) && s[b] < |arrived| && !IsResponse(arrived[s[b]])
    ensures s[a] < s[b]
  {
    var init, k := s[..|s| - 1], s[|s| - 1];
    EventsSnoc(init, k, arrived);
    assert s == init + [k];
    var e := Events(init, arrived);
    assert forall i :: 0 <= i < |e| ==> Events(s, arrived)[i] == e[i];
    if b < |init| {
      EventsKeepOrder(init, arrived, a, b);
    } else {
      EventsContain(init, arrived, s[a]);
      assert init[a] == s[a];
      var i :| 0 <= i < |e| && e[i] == s[a];
      assert Events(s, arrived)[i] < Events(s, arrived)[|e|];
    }
  }

  // ----- whole runs of calls and waits -----

  datatype Act = Do(call: Call) | Wait(target: string, limits: seq<nat>)

  /** A wait that succeeded: the state waited for, and the arrival index of the event returned. */
  datatype Success = Success(target: string, index: nat)

  datatype History = History(mail: Mail, waits: seq<Success>)

  /** One act after another; the successful waits are recorded in the order in which they end. */
  function Behave(arrived: seq<Message>, acts: seq<Act>): History
  {
    if acts == [] then History(EMPTY, [])
    else
      var h := Behave(arrived, acts[..|acts| - 1]);
      match acts[|acts| - 1]
      case Do(call) => History(Perform(h.mail, arrived, call), h.waits)
      case Wait(target, limits) =>
        var (m, ok) := WaitFor(h.mail, arrived, target, limits);
        History(m, if ok then h.waits + [Success(target, Last(m))] else h.waits)
  }

  /** Each success is an event with its state that has been returned; arrivals increase. */
  ghost predicate FollowsHistory(h: History, arrived: seq<Message>)
  {
    && (forall i :: 0 <= i < |h.waits| ==>
          var w := h.waits[i];
          && w.index in h.mail.returned && w.index < |arrived|
          && arrived[w.index].name == Some("callEvent") && arrived[w.index].callState == Some(w.target))
    && (forall i, j :: 0 <= i < j < |h.waits| ==> h.waits[i].index < h.waits[j].index)
  }

  /** Events handed out earlier arrived earlier. */
  lemma ReturnedBefore(m: Mail, r: Mail, arrived: seq<Message>, k: nat)
    requires Sound(r, arrived) && m.returned <= r.returned && Returned(m, r)
    requires k in m.returned && k < |arrived| && !IsResponse(arrived[k])
    requires Last(r) < |arrived| && !IsResponse(arrived[Last(r)])
    ensures k < Last(r)
  {
    hide Sound, Events, IsResponse;
    TrailIncreasing(r, arrived);
    var a :| 0 <= a < |m.returned| && m.returned[a] == k;
    assert r.returned[a] == k;
    EventsKeepOrder(r.returned, arrived, a, |r.returned| - 1);
  }

  lemma WaitContinues(h: History, arrived: seq<Message>, target: string, limits: seq<nat>)
    requires Sound(h.mail, arrived) && FollowsHistory(h, arrived)
    ensures var (m, ok) := WaitFor(h.mail, arrived, target, limits);
            && Sound(m, arrived)
            && FollowsHistory(History(m, if ok then h.waits + [Success(target, Last(m))] else h.waits), arrived)
  {
    hide Sound, WaitFor;
    var (m, ok) := WaitFor(h.mail, arrived, target, limits);
    WaitReturns(h.mail, arrived, target, limits);
    forall i | 0 <= i < |h.waits|
      ensures h.waits[i].index in m.returned
    {
      assert h.waits[i].index in m.returned[..|h.mail.returned|];
    }
    if ok {
      forall i | 0 <= i < |h.waits|
        ensures h.waits[i].index < Last(m)
      {
        ReturnedBefore(h.mail, m, arrived, h.waits[i].index);
      }
    }
  }

  lemma CallContinues(h: History, arrived: seq<Message>, call: Call)
    requires Sound(h.mail, arrived) && FollowsHistory(h, arrived)
    ensures var m := Perform(h.mail, arrived, call);
            Sound(m, arrived) && FollowsHistory(History(m, h.waits), arrived)
  {
    hide Sound, Perform;
    var m := Perform(h.mail, arrived, call);
    PerformExtends(h.mail, arrived, call);
    PerformKeeps(h.mail, arrived, call);
    forall i | 0 <= i < |h.waits|
      ensures h.waits[i].index in m.returned
    {
      assert h.waits[i].index in m.returned[..|h.mail.returned|];
    }
  }

  /**
   * Waits follow real history. Over any run of waits, with any other calls between them, the
   * successful waits returned events with the states waited for, each arrived later than the
   * one before: those states are a subsequence of the states that arrived.
   */
  lemma {:induction false} WaitsFollowHistory(arrived: seq<Message>, acts: seq<Act>)
    ensures Sound(Behave(arrived, acts).mail, arrived)
    ensures FollowsHistory(Behave(arrived, acts), arrived)
  {
    hide Sound, FollowsHistory, Perform, WaitFor;
    if acts == [] {
      NothingYet(arrived);
    } else {
      var h := Behave(arrived, acts[..|acts| - 1]);
      WaitsFollowHistory(arrived, acts[..|acts| - 1]);
      match acts[|acts| - 1]
      case Do(call) => CallContinues(h, arrived, call);
      case Wait(target, limits) => WaitContinues(h, arrived, target, limits);
    }
  }

  lemma NothingYet(arrived: seq<Message>)
    ensures Sound(EMPTY, arrived) && FollowsHistory(History(EMPTY, []), arrived)
  {
    CallsKeep(arrived, []);
  }

  /**
   * In any such run, a wait that succeeds returns the first event with its state not yet
   * returned: every notification with that state that arrived earlier had been returned
   * before the wait began.
   */
  lemma EveryWaitMatchesFirst(arrived: seq<Message>, acts: seq<Act>, k: nat, j: nat)
    requires k < |acts| && acts[k].Wait?
    requires var (m, ok) := WaitFor(Behave(arrived, acts[..k]).mail, arrived, acts[k].target, acts[k].limits);
             ok && j < Last(m)
    requires j < |arrived| && arrived[j].id.NoId? && arrived[j].name == Some("callEvent")
    requires arrived[j].callState == Some(acts[k].target)
    ensures j in Behave(arrived, acts[..k]).mail.returned
  {
    hide Behave, Sound, WaitFor, FollowsHistory;
    WaitsFollowHistory(arrived, acts[..k]);
    WaitMatchesFirst(Behave(arrived, acts[..k]).mail, arrived, acts[k].target, acts[k].limits, j);
  }

  lemma TrailIncreasing(m: Mail, arrived: seq<Message>)
    requires Sound(m, arrived)
    ensures Increasing(Events(m.returned, arrived))
  {
    var r, p := Events(m.returned, arrived), Events(m.pending, arrived);
    assert forall a :: 0 <= a < |r| ==> (r + p)[a] == r[a];
  }
}
