/** The 10 ms cadence of the clock loop, over exact integer instants in nanoseconds. */
module Pacing {
  /** Ten milliseconds. */
  const TICK: nat := 10_000_000

  /** What one iteration sees of the clock: when it begins, and `now` read at its end. */
  datatype Beat = Beat(start: int, now: int)

  /** The deadline `next_tick` once the iterations `beats` are over. */
  function NextTick(t0: int, beats: seq<Beat>): int
  {
    if beats == [] then t0
    else
      var deadline := NextTick(t0, beats[..|beats| - 1]) + TICK;
      var now := beats[|beats| - 1].now;
      if deadline > now then deadline else now
  }

  /** How long iteration `j` asks to sleep; zero when it has fallen behind. */
  function SleepOf(t0: int, beats: seq<Beat>, j: nat): nat
    requires j < |beats|
  {
    var deadline := NextTick(t0, beats[..j]) + TICK;
    if deadline > beats[j].now then deadline - beats[j].now else 0
  }

  /**
   * The clock never goes back and a sleep lasts at least as long as asked. Work may take any
   * time, and sleeping may last any longer.
   */
  ghost predicate Clocked(t0: int, beats: seq<Beat>)
  {
    && (beats != [] ==> t0 <= beats[0].start)
    && (forall j :: 0 <= j < |beats| ==> beats[j].start <= beats[j].now)
    && (forall j :: 0 < j < |beats| ==> beats[j].start >= beats[j - 1].now + SleepOf(t0, beats, j - 1))
  }

  lemma {:induction false} StartsAtDeadline(t0: int, beats: seq<Beat>, j: nat)
    requires Clocked(t0, beats) && j < |beats|
    ensures beats[j].start >= NextTick(t0, beats[..j])
  {
    if j > 0 {
      assert beats[..j][..j - 1] == beats[..j - 1];
    }
  }

  lemma {:induction false} DeadlinesSpread(t0: int, beats: seq<Beat>, i: nat, j: nat)
    requires i <= j <= |beats|
    ensures NextTick(t0, beats[..j]) >= NextTick(t0, beats[..i]) + (j - i) * TICK
  {
    if i < j {
      DeadlinesSpread(t0, beats, i, j - 1);
      assert beats[..j][..j - 1] == beats[..j - 1];
    }
  }

  /** No runaway catch-up: start times are spread by whole ticks, save for one. */
  lemma NoRunaway(t0: int, beats: seq<Beat>, i: nat, j: nat)
    requires Clocked(t0, beats) && i < j < |beats|
    ensures beats[j].start >= beats[i].start + (j - i - 1) * TICK
  {
    assert beats[..i + 1][..i] == beats[..i];
    assert NextTick(t0, beats[..i + 1]) >= beats[i].now;
    DeadlinesSpread(t0, beats, i + 1, j);
    StartsAtDeadline(t0, beats, j);
  }

  /** The `m` iterations from `i` on that begin within a span of `length` are few. */
  lemma WindowsPerInterval(t0: int, beats: seq<Beat>, i: nat, m: nat, length: nat)
    requires Clocked(t0, beats) && 0 < m && i + m <= |beats|
    requires beats[i + m - 1].start - beats[i].start <= length
    ensures m <= length / TICK + 2
  {
    if m > 1 {
      NoRunaway(t0, beats, i, i + m - 1);
      assert (m - 2) * TICK <= length;
    }
  }

  /** The two extra windows do happen: an overrun and the iteration after it may coincide. */
  lemma TwoWindowsAtOnce(t0: int)
    ensures var beats := [Beat(t0 + TICK, t0 + TICK), Beat(t0 + TICK, t0 + TICK)];
            Clocked(t0, beats) && beats[0].start == beats[1].start
  {
    var beats := [Beat(t0 + TICK, t0 + TICK), Beat(t0 + TICK, t0 + TICK)];
    assert beats[..0] == [];
    assert NextTick(t0, beats[..0]) == t0;
    assert SleepOf(t0, beats, 0) == 0;
  }

  /** No drift: the deadline is exactly `t0 + n` ticks if and only if no iteration overran. */
  lemma {:induction false} NoDriftIffNoOverrun(t0: int, beats: seq<Beat>)
    ensures NextTick(t0, beats) >= t0 + |beats| * TICK
    ensures NextTick(t0, beats) == t0 + |beats| * TICK
            <==> forall j :: 0 <= j < |beats| ==> beats[j].now <= t0 + (j + 1) * TICK
  {
    if beats != [] {
      var rest := beats[..|beats| - 1];
      NoDriftIffNoOverrun(t0, rest);
      assert forall j :: 0 <= j < |rest| ==> rest[j] == beats[j];
      assert beats[|beats| - 1].now <= t0 + |beats| * TICK <==> beats[|beats| - 1].now <= t0 + (|rest| + 1) * TICK;
    }
  }

  /**
   * A sleep lasts at most one tick and ends on the deadline; the deadline is one tick after
   * the one before, or `now` if that has passed already.
   */
  lemma SleepEndsOnDeadline(t0: int, beats: seq<Beat>, j: nat)
    requires Clocked(t0, beats) && j < |beats|
    ensures SleepOf(t0, beats, j) <= 10_000_000
    ensures beats[j].now + SleepOf(t0, beats, j) == NextTick(t0, beats[..j + 1])
    ensures NextTick(t0, beats[..j + 1]) == NextTick(t0, beats[..j]) + 10_000_000
            || (NextTick(t0, beats[..j + 1]) == beats[j].now && SleepOf(t0, beats, j) == 0)
  {
    assert beats[..j + 1][..j] == beats[..j];
    StartsAtDeadline(t0, beats, j);
  }

  lemma NothingSlept(t0: int, beats: seq<Beat>)
    ensures NextTick(t0, beats[..0]) == t0
  {
  }

  /** If no iteration works longer than a tick and sleeps are exact, iteration `j` begins `j` ticks after `t0`. */
  lemma {:induction false} SteadyCadence(t0: int, beats: seq<Beat>, j: nat)
    requires Clocked(t0, beats) && j < |beats| && beats[0].start == t0
    requires forall k :: 0 <= k < |beats| ==> beats[k].now - beats[k].start <= 10_000_000
    requires forall k :: 0 < k < |beats| ==> beats[k].start == beats[k - 1].now + SleepOf(t0, beats, k - 1)
    ensures beats[j].start == NextTick(t0, beats[..j]) == t0 + j * 10_000_000
  {
    hide SleepOf, NextTick, Clocked;
    if j == 0 {
      NothingSlept(t0, beats);
    } else {
      SteadyCadence(t0, beats, j - 1);
      SleepEndsOnDeadline(t0, beats, j - 1);
      DeadlinesSpread(t0, beats, j - 1, j);
    }
  }
}
