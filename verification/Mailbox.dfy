/**
 * Where each message of the RPC client goes. Messages are named by their arrival index, so
 * "exactly one place" and "arrival order" are statements about numbers.
 */
module Mailbox {
  import opened Options

  /** The `id` member of a message: absent, an integer, or any other JSON value. */
  datatype Id = NoId | IntId(n: int) | OtherId

  /**
   * A well-formed JSON-RPC object, reduced to what the client looks at; `callState` is the
   * state inside `params.callEvent`, if there is one.
   */
  datatype Message = Message(id: Id, name: Option<string>, isError: bool, callState: Option<string>, payload: int)

  predicate Matches(m: Message, req: int) { m.id == IntId(req) }

  /** A response: an id and no method. `read_event` puts these aside. */
  predicate IsResponse(m: Message) { !m.id.NoId? && m.name.None? }

  /** A notification has no id (JSON-RPC 2.0, section 4.1). */
  predicate IsNotification(m: Message) { m.id.NoId? }

  /**
   * Arrival indices by place: `next` is the first message not yet read from the stream,
   * `pending` the buffered ones, `returned` those `read_event` handed out, `consumed` those
   * `_wait_response` took as responses.
   */
  datatype Mail = Mail(next: nat, pending: seq<nat>, returned: seq<nat>, consumed: seq<nat>)

  const EMPTY := Mail(0, [], [], [])

  // ----- single moves -----

  /** `_wait_response` reads one message. */
  function TakeAwaiting(m: Mail, arrived: seq<Message>, req: int): Mail
    requires m.next < |arrived|
  {
    if Matches(arrived[m.next], req) then m.(next := m.next + 1, consumed := m.consumed + [m.next])
    else m.(next := m.next + 1, pending := m.pending + [m.next])
  }

  /** `read_event` hands out the oldest buffered message. */
  function TakePending(m: Mail): Mail
    requires m.pending != []
  {
    m.(pending := m.pending[1..], returned := m.returned + [m.pending[0]])
  }

  /** `read_event` reads one message from the stream. */
  function TakeReading(m: Mail, arrived: seq<Message>): Mail
    requires m.next < |arrived|
  {
    if IsResponse(arrived[m.next]) then m.(next := m.next + 1, pending := m.pending + [m.next])
    else m.(next := m.next + 1, returned := m.returned + [m.next])
  }

  // ----- what every move keeps -----

  function Range(n: nat): seq<nat> { seq(n, i => i) }

  /** Every message read so far is in exactly one place. */
  ghost predicate Conserved(m: Mail)
  {
    multiset(m.consumed) + multiset(m.returned) + multiset(m.pending) == multiset(Range(m.next))
  }

  ghost predicate Increasing(s: seq<nat>)
  {
    forall j, k :: 0 <= j < k < |s| ==> s[j] < s[k]
  }

  /** Increasing indices below `n`. */
  ghost predicate Ascending(s: seq<nat>, n: nat)
  {
    Increasing(s) && forall j :: 0 <= j < |s| ==> s[j] < n
  }

  /** Indices of `s` that are not responses. */
  function Events(s: seq<nat>, arrived: seq<Message>): seq<nat>
  {
    if s == [] then []
    else
      var k := s[|s| - 1];
      Events(s[..|s| - 1], arrived) + if k < |arrived| && !IsResponse(arrived[k]) then [k] else []
  }

  /** The events handed out, then the events still buffered. */
  function EventTrail(m: Mail, arrived: seq<Message>): seq<nat>
  {
    Events(m.returned, arrived) + Events(m.pending, arrived)
  }

  /** Only messages with an id are ever taken for responses. */
  ghost predicate ConsumedHaveIds(m: Mail, arrived: seq<Message>)
  {
    forall j :: 0 <= j < |m.consumed| ==> m.consumed[j] < |arrived| && !IsNotification(arrived[m.consumed[j]])
  }

  /**
   * Buffered messages are in arrival order, and so is the trail of events: responses may be
   * overtaken, events never are.
   */
  ghost predicate Ordered(m: Mail, arrived: seq<Message>)
  {
    && m.next <= |arrived|
    && Ascending(m.pending, m.next)
    && Ascending(EventTrail(m, arrived), m.next)
    && ConsumedHaveIds(m, arrived)
  }

  ghost predicate Sound(m: Mail, arrived: seq<Message>)
  {
    Conserved(m) && Ordered(m, arrived)
  }

  lemma RangeSnoc(n: nat)
    ensures Range(n + 1) == Range(n) + [n]
    ensures multiset(Range(n + 1)) == multiset(Range(n)) + multiset([n])
  {
  }

  lemma EventsSnoc(s: seq<nat>, k: nat, arrived: seq<Message>)
    ensures Events(s + [k], arrived)
            == Events(s, arrived) + if k < |arrived| && !IsResponse(arrived[k]) then [k] else []
  {
    assert (s + [k])[..|s|] == s;
  }

  lemma {:induction false} EventsCons(s: seq<nat>, arrived: seq<Message>)
    requires s != []
    ensures Events(s, arrived)
            == (if s[0] < |arrived| && !IsResponse(arrived[s[0]]) then [s[0]] else []) + Events(s[1..], arrived)
  {
    if |s| == 1 {
      assert s[..0] == [] && s[1..] == [];
    } else {
      EventsCons(s[..|s| - 1], arrived);
      assert s[..|s| - 1][1..] == s[1..][..|s[1..]| - 1];
    }
  }

  lemma AppendTop(s: seq<nat>, n: nat)
    requires Ascending(s, n)
    ensures Ascending(s + [n], n + 1) && Ascending(s, n + 1)
  {
  }

  lemma AwaitingKeepsConserved(m: Mail, arrived: seq<Message>, req: int)
    requires Conserved(m) && m.next < |arrived|
    ensures Conserved(TakeAwaiting(m, arrived, req))
  {
    hide Range, Matches;
    RangeSnoc(m.next);
  }

  lemma AwaitingKeepsTrail(m: Mail, arrived: seq<Message>, req: int)
    requires m.next < |arrived| && Ascending(EventTrail(m, arrived), m.next)
    ensures Ascending(EventTrail(TakeAwaiting(m, arrived, req), arrived), m.next + 1)
  {
    hide Ascending, Events, IsResponse;
    var n := m.next;
    EventsSnoc(m.pending, n, arrived);
    var r, p := Events(m.returned, arrived), Events(m.pending, arrived);
    AppendTop(r + p, n);
    assert r + p + [n] == r + (p + [n]) && p + [] == p;
  }

  lemma AwaitingKeepsBuffer(m: Mail, arrived: seq<Message>, req: int)
    requires m.next < |arrived| && Ascending(m.pending, m.next) && ConsumedHaveIds(m, arrived)
    ensures var r := TakeAwaiting(m, arrived, req);
            r.next == m.next + 1 && Ascending(r.pending, r.next) && ConsumedHaveIds(r, arrived)
  {
    AppendTop(m.pending, m.next);
  }

  lemma AwaitingKeeps(m: Mail, arrived: seq<Message>, req: int)
    requires Sound(m, arrived) && m.next < |arrived|
    ensures Sound(TakeAwaiting(m, arrived, req), arrived)
  {
    hide Ascending, EventTrail, Conserved, ConsumedHaveIds, TakeAwaiting;
    AwaitingKeepsConserved(m, arrived, req);
    AwaitingKeepsTrail(m, arrived, req);
    AwaitingKeepsBuffer(m, arrived, req);
  }

  lemma PendingKeepsTrail(m: Mail, arrived: seq<Message>)
    requires m.pending != []
    ensures EventTrail(TakePending(m), arrived) == EventTrail(m, arrived)
  {
    hide Events, IsResponse;
    var k := m.pending[0];
    EventsCons(m.pending, arrived);
    EventsSnoc(m.returned, k, arrived);
    var e := if k < |arrived| && !IsResponse(arrived[k]) then [k] else [];
    var r, p := Events(m.returned, arrived), Events(m.pending[1..], arrived);
    assert r + (e + p) == (r + e) + p;
  }

  lemma PendingKeeps(m: Mail, arrived: seq<Message>)
    requires Sound(m, arrived) && m.pending != []
    ensures Sound(TakePending(m), arrived)
  {
    hide Ascending, EventTrail, Conserved, ConsumedHaveIds, TakePending;
    PendingKeepsTrail(m, arrived);
    PendingKeepsConserved(m);
    PendingKeepsBuffer(m, arrived);
  }

  lemma PendingKeepsBuffer(m: Mail, arrived: seq<Message>)
    requires m.pending != [] && Ascending(m.pending, m.next) && ConsumedHaveIds(m, arrived)
    ensures var r := TakePending(m);
            r.next == m.next && Ascending(r.pending, r.next) && ConsumedHaveIds(r, arrived)
  {
  }

  lemma PendingKeepsConserved(m: Mail)
    requires Conserved(m) && m.pending != []
    ensures Conserved(TakePending(m))
  {
    assert m.pending == [m.pending[0]] + m.pending[1..];
  }

  lemma NothingBehind(s: seq<nat>)
    ensures s + [] == s && s + ([] + []) == s
  {
  }

  lemma ReadingKeepsTrail(m: Mail, arrived: seq<Message>)
    requires m.next < |arrived| && Ascending(EventTrail(m, arrived), m.next) && Events(m.pending, arrived) == []
    ensures Ascending(EventTrail(TakeReading(m, arrived), arrived), m.next + 1)
  {
    hide Ascending, Events, IsResponse;
    var n := m.next;
    EventsSnoc(m.pending, n, arrived);
    EventsSnoc(m.returned, n, arrived);
    var r := Events(m.returned, arrived);
    NothingBehind(r);
    NothingBehind(r + [n]);
    AppendTop(r, n);
  }

  lemma ReadingKeepsBuffer(m: Mail, arrived: seq<Message>)
    requires m.next < |arrived| && Ascending(m.pending, m.next) && ConsumedHaveIds(m, arrived)
    ensures var r := TakeReading(m, arrived);
            r.next == m.next + 1 && Ascending(r.pending, r.next) && ConsumedHaveIds(r, arrived)
  {
    AppendTop(m.pending, m.next);
  }

  lemma ReadingBuffersResponses(m: Mail, arrived: seq<Message>)
    requires m.next < |arrived| && Events(m.pending, arrived) == [] && IsResponse(arrived[m.next])
    ensures Events(TakeReading(m, arrived).pending, arrived) == []
  {
    EventsSnoc(m.pending, m.next, arrived);
  }

  /** Reading keeps the order as long as nothing but responses is buffered. */
  lemma ReadingKeeps(m: Mail, arrived: seq<Message>)
    requires Sound(m, arrived) && m.next < |arrived| && Events(m.pending, arrived) == []
    ensures Sound(TakeReading(m, arrived), arrived)
  {
    hide Ascending, EventTrail, Conserved, ConsumedHaveIds, TakeReading;
    ReadingKeepsConserved(m, arrived);
    ReadingKeepsTrail(m, arrived);
    ReadingKeepsBuffer(m, arrived);
  }

  lemma ReadingKeepsConserved(m: Mail, arrived: seq<Message>)
    requires Conserved(m) && m.next < |arrived|
    ensures Conserved(TakeReading(m, arrived))
  {
    hide Range, IsResponse;
    RangeSnoc(m.next);
  }

  // ----- whole calls, whole runs -----

  /** A call: what it does, and how many messages arrive before it times out or meets the end. */
  datatype Call = WaitResponse(req: int, limit: nat) | ReadEvent(limit: nat)

  function Await(m: Mail, arrived: seq<Message>, req: int, limit: nat): Mail
    decreases limit
  {
    if limit == 0 || m.next >= |arrived| then m
    else
      var r := TakeAwaiting(m, arrived, req);
      if Matches(arrived[m.next], req) then r else Await(r, arrived, req, limit - 1)
  }

  function Read(m: Mail, arrived: seq<Message>, limit: nat): Mail
    decreases limit
  {
    if limit == 0 || m.next >= |arrived| then m
    else
      var r := TakeReading(m, arrived);
      if IsResponse(arrived[m.next]) then Read(r, arrived, limit - 1) else r
  }

  function Perform(m: Mail, arrived: seq<Message>, call: Call): Mail
  {
    match call
    case WaitResponse(req, limit) => Await(m, arrived, req, limit)
    case ReadEvent(limit) => if m.pending != [] then TakePending(m) else Read(m, arrived, limit)
  }

  function PerformAll(arrived: seq<Message>, calls: seq<Call>): Mail
  {
    if calls == [] then EMPTY
    else Perform(PerformAll(arrived, calls[..|calls| - 1]), arrived, calls[|calls| - 1])
  }

  /** While nothing has matched, one more message is one more turn of the loop. */
  lemma {:induction false} AwaitSnoc(m: Mail, arrived: seq<Message>, req: int, limit: nat)
    requires var r := Await(m, arrived, req, limit);
             r.next == m.next + limit && r.next < |arrived| && r.consumed == m.consumed
    ensures Await(m, arrived, req, limit + 1) == TakeAwaiting(Await(m, arrived, req, limit), arrived, req)
    decreases limit
  {
    if limit > 0 {
      AwaitConsumes(TakeAwaiting(m, arrived, req), arrived, req, limit - 1);
      AwaitSnoc(TakeAwaiting(m, arrived, req), arrived, req, limit - 1);
    }
  }

  lemma {:induction false} AwaitConsumes(m: Mail, arrived: seq<Message>, req: int, limit: nat)
    ensures var r := Await(m, arrived, req, limit); m.next <= r.next <= m.next + limit && m.consumed <= r.consumed
    decreases limit
  {
    if limit > 0 && m.next < |arrived| {
      AwaitConsumes(TakeAwaiting(m, arrived, req), arrived, req, limit - 1);
    }
  }

  lemma {:induction false} ReadSnoc(m: Mail, arrived: seq<Message>, limit: nat)
    requires var r := Read(m, arrived, limit);
             r.next == m.next + limit && r.next < |arrived| && r.returned == m.returned
    ensures Read(m, arrived, limit + 1) == TakeReading(Read(m, arrived, limit), arrived)
    decreases limit
  {
    if limit > 0 {
      ReadReturns(TakeReading(m, arrived), arrived, limit - 1);
      ReadSnoc(TakeReading(m, arrived), arrived, limit - 1);
    }
  }

  lemma {:induction false} ReadReturns(m: Mail, arrived: seq<Message>, limit: nat)
    ensures var r := Read(m, arrived, limit); m.next <= r.next <= m.next + limit && m.returned <= r.returned
    decreases limit
  {
    if limit > 0 && m.next < |arrived| {
      ReadReturns(TakeReading(m, arrived), arrived, limit - 1);
    }
  }

  /** The indices from `lo` up to `hi`, in order. */
  function Between(lo: nat, hi: nat): seq<nat>
    requires lo <= hi
  {
    Range(hi)[lo..]
  }

  lemma FirstBetween(before: seq<nat>, lo: nat, hi: nat)
    requires lo <= hi
    ensures lo < hi ==> before + Between(lo, hi) == before + [lo] + Between(lo + 1, hi)
    ensures lo == hi ==> before + Between(lo, hi) == before
  {
  }

  /**
   * Waiting for a response reads up to the first message with the requested id and takes that
   * one; every message before it has another id, or none, and is buffered.
   */
  lemma {:induction false} AwaitStopsAtFirst(m: Mail, arrived: seq<Message>, req: int, limit: nat)
    requires m.next <= |arrived|
    ensures var r := Await(m, arrived, req, limit);
            var found := r.consumed != m.consumed;
            var stop := if found then r.next - 1 else r.next;
            && m.next <= stop <= |arrived| && r.returned == m.returned
            && (forall k :: m.next <= k < stop ==> arrived[k].id != IntId(req))
            && r.pending == m.pending + Between(m.next, stop)
            && (found ==> stop < |arrived| && arrived[stop].id == IntId(req) && r.consumed == m.consumed + [stop])
            && (!found ==> r.next == if limit <= |arrived| - m.next then m.next + limit else |arrived|)
    decreases limit
  {
    hide Between;
    FirstBetween(m.pending, m.next, m.next);
    if limit > 0 && m.next < |arrived| && arrived[m.next].id != IntId(req) {
      var n := TakeAwaiting(m, arrived, req);
      AwaitStopsAtFirst(n, arrived, req, limit - 1);
      var r := Await(m, arrived, req, limit);
      FirstBetween(m.pending, m.next, if r.consumed != m.consumed then r.next - 1 else r.next);
    }
  }

  /**
   * Reading from the stream goes up to the first message that is a notification or a request,
   * and hands that one out; every message before it has an id and no method, and is buffered.
   */
  lemma {:induction false} ReadStopsAtFirst(m: Mail, arrived: seq<Message>, limit: nat)
    requires m.next <= |arrived|
    ensures var r := Read(m, arrived, limit);
            var found := r.returned != m.returned;
            var stop := if found then r.next - 1 else r.next;
            && m.next <= stop <= |arrived| && r.consumed == m.consumed
            && (forall k :: m.next <= k < stop ==> !arrived[k].id.NoId? && arrived[k].name.None?)
            && r.pending == m.pending + Between(m.next, stop)
            && (found ==> stop < |arrived| && r.returned == m.returned + [stop]
                          && (arrived[stop].id.NoId? || arrived[stop].name.Some?))
            && (!found ==> r.next == if limit <= |arrived| - m.next then m.next + limit else |arrived|)
    decreases limit
  {
    hide Between;
    FirstBetween(m.pending, m.next, m.next);
    if limit > 0 && m.next < |arrived| && !arrived[m.next].id.NoId? && arrived[m.next].name.None? {
      var n := TakeReading(m, arrived);
      ReadStopsAtFirst(n, arrived, limit - 1);
      var r := Read(m, arrived, limit);
      FirstBetween(m.pending, m.next, if r.returned != m.returned then r.next - 1 else r.next);
    }
  }

  lemma {:induction false} AwaitKeeps(m: Mail, arrived: seq<Message>, req: int, limit: nat)
    requires Sound(m, arrived)
    ensures Sound(Await(m, arrived, req, limit), arrived)
    decreases limit
  {
    hide Sound, TakeAwaiting;
    if limit > 0 && m.next < |arrived| {
      AwaitingKeeps(m, arrived, req);
      AwaitKeeps(TakeAwaiting(m, arrived, req), arrived, req, limit - 1);
    }
  }

  lemma {:induction false} ReadKeeps(m: Mail, arrived: seq<Message>, limit: nat)
    requires Sound(m, arrived) && Events(m.pending, arrived) == []
    ensures Sound(Read(m, arrived, limit), arrived)
    decreases limit
  {
    hide Sound, TakeReading, Events;
    if limit > 0 && m.next < |arrived| {
      ReadingKeeps(m, arrived);
      if IsResponse(arrived[m.next]) {
        ReadingBuffersResponses(m, arrived);
        ReadKeeps(TakeReading(m, arrived), arrived, limit - 1);
      }
    }
  }

  lemma {:induction false} CallsKeep(arrived: seq<Message>, calls: seq<Call>)
    ensures Sound(PerformAll(arrived, calls), arrived)
  {
    if calls != [] {
      var m := PerformAll(arrived, calls[..|calls| - 1]);
      CallsKeep(arrived, calls[..|calls| - 1]);
      match calls[|calls| - 1]
      case WaitResponse(req, limit) => AwaitKeeps(m, arrived, req, limit);
      case ReadEvent(limit) => if m.pending != [] { PendingKeeps(m, arrived); } else { ReadKeeps(m, arrived, limit); }
    }
  }

  // ----- the results -----

  /** Call `i` waited for a response, and message `k` matched its request and was taken by it. */
  predicate TakenBy(arrived: seq<Message>, calls: seq<Call>, i: nat, k: nat)
    requires k < |arrived|
  {
    && i < |calls| && calls[i].WaitResponse? && arrived[k].id == IntId(calls[i].req)
    && k !in PerformAll(arrived, calls[..i]).consumed && k in PerformAll(arrived, calls[..i + 1]).consumed
  }

  /** A wait takes at most one message, and that one matches its request. */
  lemma {:induction false} AwaitTakes(m: Mail, arrived: seq<Message>, req: int, limit: nat, k: nat)
    requires k < |arrived| && k in Await(m, arrived, req, limit).consumed && k !in m.consumed
    ensures Matches(arrived[k], req)
    decreases limit
  {
    if limit > 0 && m.next < |arrived| && !Matches(arrived[m.next], req) {
      AwaitTakes(TakeAwaiting(m, arrived, req), arrived, req, limit - 1, k);
    }
  }

  lemma {:induction false} ReadTakesNothing(m: Mail, arrived: seq<Message>, limit: nat)
    ensures Read(m, arrived, limit).consumed == m.consumed
    decreases limit
  {
    if limit > 0 && m.next < |arrived| && IsResponse(arrived[m.next]) {
      ReadTakesNothing(TakeReading(m, arrived), arrived, limit - 1);
    }
  }

  /** Every message taken as a response was taken by a call whose request it matches. */
  lemma {:induction false} ConsumedByRequest(arrived: seq<Message>, calls: seq<Call>, k: nat)
    requires k < |arrived| && k in PerformAll(arrived, calls).consumed
    ensures exists i :: 0 <= i < |calls| && TakenBy(arrived, calls, i, k)
  {
    hide Await, Read;
    var n := |calls| - 1;
    var init := calls[..n];
    var m := PerformAll(arrived, init);
    if k in m.consumed {
      ConsumedByRequest(arrived, init, k);
      var i :| 0 <= i < |init| && TakenBy(arrived, init, i, k);
      assert init[..i] == calls[..i] && init[..i + 1] == calls[..i + 1];
      assert TakenBy(arrived, calls, i, k);
    } else {
      assert calls[..n + 1] == calls;
      match calls[n]
      case WaitResponse(req, limit) =>
        AwaitTakes(m, arrived, req, limit, k);
        assert TakenBy(arrived, calls, n, k);
      case ReadEvent(limit) => ReadTakesNothing(m, arrived, limit);
    }
  }

  /**
   * Conservation over any mix of calls: every message that arrived is exactly one of consumed
   * as the matching response of one of the calls, returned, pending or unread, and never
   * twice in its place.
   */
  lemma ExactlyOnePlace(arrived: seq<Message>, calls: seq<Call>, k: nat)
    requires k < |arrived|
    ensures var m := PerformAll(arrived, calls);
            multiset(m.consumed)[k] + multiset(m.returned)[k] + multiset(m.pending)[k]
            + (if m.next <= k then 1 else 0) == 1
    ensures k in PerformAll(arrived, calls).consumed ==> exists i :: 0 <= i < |calls| && TakenBy(arrived, calls, i, k)
  {
    hide TakenBy, PerformAll;
    var m := PerformAll(arrived, calls);
    if k in m.consumed {
      ConsumedByRequest(arrived, calls, k);
    }
    CallsKeep(arrived, calls);
    RangeCounts(m.next, k);
    assert (multiset(m.consumed) + multiset(m.returned) + multiset(m.pending))[k] == multiset(Range(m.next))[k];
  }

  lemma {:induction false} RangeCounts(n: nat, k: nat)
    ensures multiset(Range(n))[k] == if k < n then 1 else 0
  {
    if n > 0 {
      RangeSnoc(n - 1);
      RangeCounts(n - 1, k);
    }
  }

  lemma {:induction false} EventsContain(s: seq<nat>, arrived: seq<Message>, k: nat)
    requires k < |arrived| && !IsResponse(arrived[k])
    ensures k in s <==> k in Events(s, arrived)
  {
    if s != [] {
      EventsContain(s[..|s| - 1], arrived, k);
      assert s == s[..|s| - 1] + [s[|s| - 1]];
    }
  }

  /**
   * When a message that is no response has been returned, every earlier notification has been
   * returned: notifications are never lost, overtaken or taken for a response.
   */
  lemma EarlierNotificationsReturned(m: Mail, arrived: seq<Message>, j: nat, k: nat)
    requires Sound(m, arrived)
    requires j < k < |arrived| && k in m.returned && !IsResponse(arrived[k]) && arrived[j].id.NoId?
    ensures j in m.returned
  {
    hide Conserved;
    EventsContain(m.returned, arrived, k);
    EventsContain(m.pending, arrived, j);
    var r, p := Events(m.returned, arrived), Events(m.pending, arrived);
    var b :| 0 <= b < |r| && r[b] == k;
    assert (r + p)[b] == k;
    forall i | 0 <= i < |p|
      ensures p[i] != j
    {
      assert (r + p)[|r| + i] == p[i];
    }
    assert k in Events(m.returned, arrived) && j < m.next;
    MustBeReturned(m, j);
  }

  lemma MustBeReturned(m: Mail, j: nat)
    requires Conserved(m) && j < m.next && j !in m.consumed && j !in m.pending
    ensures j in m.returned
  {
    RangeCounts(m.next, j);
    assert (multiset(m.consumed) + multiset(m.returned) + multiset(m.pending))[j] == multiset(Range(m.next))[j];
  }

  /** Over any mix of calls, notifications are returned in arrival order, none skipped. */
  lemma NotificationsInOrder(arrived: seq<Message>, calls: seq<Call>, j: nat, k: nat)
    requires j < k < |arrived| && arrived[j].id.NoId? && arrived[k].id.NoId?
    requires k in PerformAll(arrived, calls).returned
    ensures j in PerformAll(arrived, calls).returned
    ensures Increasing(Events(PerformAll(arrived, calls).returned, arrived))
  {
    var m := PerformAll(arrived, calls);
    CallsKeep(arrived, calls);
    EarlierNotificationsReturned(m, arrived, j, k);
    var r, p := Events(m.returned, arrived), Events(m.pending, arrived);
    assert forall a :: 0 <= a < |r| ==> (r + p)[a] == r[a];
  }

  // ----- what is not promised -----

  /** Once read from the stream without being taken, a message is never taken for a response. */
  lemma ReadOnce(m: Mail, arrived: seq<Message>, call: Call, k: nat)
    requires k < m.next && k !in m.consumed
    ensures k !in Perform(m, arrived, call).consumed && k < Perform(m, arrived, call).next
  {
    match call
    case WaitResponse(req, limit) => AwaitReadsOnce(m, arrived, req, limit, k);
    case ReadEvent(limit) => ReadReadsOnce(m, arrived, limit, k);
  }

  lemma {:induction false} AwaitReadsOnce(m: Mail, arrived: seq<Message>, req: int, limit: nat, k: nat)
    requires k < m.next && k !in m.consumed
    ensures k !in Await(m, arrived, req, limit).consumed && k < Await(m, arrived, req, limit).next
    decreases limit
  {
    if limit > 0 && m.next < |arrived| {
      AwaitReadsOnce(TakeAwaiting(m, arrived, req), arrived, req, limit - 1, k);
    }
  }

  lemma {:induction false} ReadReadsOnce(m: Mail, arrived: seq<Message>, limit: nat, k: nat)
    requires k < m.next && k !in m.consumed
    ensures k !in Read(m, arrived, limit).consumed && k < Read(m, arrived, limit).next
    decreases limit
  {
    if limit > 0 && m.next < |arrived| {
      ReadReadsOnce(TakeReading(m, arrived), arrived, limit - 1, k);
    }
  }
}
