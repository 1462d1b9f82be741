/**
 The health of a storage node: the share of challenges it proved, and of the heartbeats it
 could have sent in a window of seven days.

 Days have a fixed length here and begin at multiples of it, as in a zone without daylight
 saving; rates are real numbers.
 */
module Heartbeat {
  import opened Integers
  import opened Placement

  const MINUTE: int := 60_000_000_000    // nanoseconds
  const DAY: int := 1440 * MINUTE
  const WINDOW_DAYS: int := 7
  const BEATS_PER_DAY: int := 1440
  const DEFAULT_RATE: real := 0.85       // both of challenges and of heartbeats
  const CHALLENGE_PART: real := 0.7
  const HEARTBEAT_PART: real := 0.3
  const GOOD_BOUND: real := 0.85
  const MEDIUM_BOUND: real := 0.6

  function TodayBeginning(t: int): int { t - t % DAY }

  /** A day is 24 hours of 3600 seconds, and a window seven of them. */
  lemma Lengths()
    ensures DAY == 24 * 3600 * 1_000_000_000 && BEATS_PER_DAY * MINUTE == DAY && WINDOW_DAYS == 7
  {
  }

  /** From seven days before yesterday's end, or from the registration until now if the node is younger. */
  function HeartBeatStats(now: int, regTime: int): (int, int) {
    var end := TodayBeginning(now) - DAY;
    var start := end - (WINDOW_DAYS - 1) * DAY;
    if start < regTime then (regTime, now) else (start, end)
  }

  function HeartbeatMaxNum(start: int, end: int, regTime: int): int {
    if start == regTime then Quotient(end - start, MINUTE) else WINDOW_DAYS * BEATS_PER_DAY
  }

  // ---------------------------------------------------------------- the days of a window

  predicate DayBeginning(d: int) { d % DAY == 0 }

  /** The day that begins at `d` has moments from `start` to `end`. */
  predicate Overlaps(d: int, start: int, end: int) { d <= end && start < d + DAY }

  /** `ts` lists the days from `start` to `end`, each once and in order. */
  ghost predicate ListsDays(ts: seq<int>, start: int, end: int) {
    && (forall i, j :: 0 <= i < j < |ts| ==> ts[i] < ts[j])
    && (forall d :: d in ts <==> DayBeginning(d) && Overlaps(d, start, end))
  }

  lemma DayOf(t: int)
    ensures DayBeginning(TodayBeginning(t)) && TodayBeginning(t) <= t < TodayBeginning(t) + DAY
  {
    assert TodayBeginning(t) == DAY * (t / DAY);
  }

  /** A day is the only one to begin within its length. */
  lemma DaysApart(d: int, e: int)
    requires DayBeginning(d) && DayBeginning(e) && d - DAY < e < d + DAY
    ensures d == e
  {
    assert d == DAY * (d / DAY) && e == DAY * (e / DAY);
  }

  lemma NextDay(start: int, n: nat, t: int)
    requires t == if n == 0 then start else TodayBeginning(start) + n * DAY
    ensures TodayBeginning(t) == TodayBeginning(start) + n * DAY
  {
    DayOf(start);
    DayOf(t);
    assert TodayBeginning(start) == DAY * (start / DAY);
    if n > 0 {
      assert TodayBeginning(start) + n * DAY == DAY * (start / DAY + n);
      DaysApart(TodayBeginning(t), t);
    }
  }

  /** The beginnings of the days from `start` to `end`. */
  ghost function Days(start: int, end: int): (ts: seq<int>)
    ensures forall i :: 0 <= i < |ts| ==> ts[i] == TodayBeginning(start) + i * DAY
  {
    var n := if start <= end then (end - TodayBeginning(start)) / DAY + 1 else 0;
    seq(if n >= 0 then n else 0, i => TodayBeginning(start) + i * DAY)
  }

  /** The days whose heartbeats are asked for. */
  method ListDays(start: int, end: int) returns (ts: seq<int>)
    ensures ts == Days(start, end)
    ensures start <= end ==> ListsDays(ts, start, end)
  {
    ts := [];
    ghost var first := TodayBeginning(start);
    DayOf(start);
    var t := start;
    while t <= end
      invariant t == (if ts == [] then start else first + |ts| * DAY)
      invariant ts != [] ==> start <= end
      invariant forall i :: 0 <= i < |ts| ==> ts[i] == first + i * DAY && ts[i] <= end
      decreases end - t
    {
      DayOf(t);
      assert TodayBeginning(t) == first + |ts| * DAY by { NextDay(start, |ts|, t); }
      t := TodayBeginning(t);
      ts := ts + [t];
      t := t + DAY;
    }
    if start <= end {
      assert ts[|ts| - 1] <= end;
      DayCount(start, end, |ts|);
      DaysListed(start, end);
    }
  }

  lemma DayCount(start: int, end: int, n: nat)
    requires start <= end
    ensures TodayBeginning(start) + (n - 1) * DAY <= end < TodayBeginning(start) + n * DAY <==> n == |Days(start, end)|
  {
    DayOf(start);
    var span := end - TodayBeginning(start);
    assert span == DAY * (span / DAY) + span % DAY;
  }

  lemma DayListed(start: int, end: int, d: int)
    requires start <= end && DayBeginning(d) && Overlaps(d, start, end)
    ensures d in Days(start, end)
  {
    var first, i := TodayBeginning(start), d / DAY - start / DAY;
    DayOf(start);
    DayCount(start, end, |Days(start, end)|);
    assert d == DAY * (d / DAY) && first == DAY * (start / DAY);
    assert d == first + i * DAY;
    assert Days(start, end)[i] == d;
  }

  lemma DaysListed(start: int, end: int)
    requires start <= end
    ensures ListsDays(Days(start, end), start, end)
  {
    var ts := Days(start, end);
    DayOf(start);
    DayCount(start, end, |ts|);
    forall d ensures d in ts <==> DayBeginning(d) && Overlaps(d, start, end) {
      if d in ts {
        var i :| 0 <= i < |ts| && ts[i] == d;
        assert d == TodayBeginning(start) + i * DAY;
      }
      if DayBeginning(d) && Overlaps(d, start, end) { DayListed(start, end, d); }
    }
  }

  /** A node that was registered when the window began or before has exactly its seven days,
      which end with yesterday. */
  lemma SevenDays(now: int, regTime: int)
    requires regTime <= TodayBeginning(now) - WINDOW_DAYS * DAY
    ensures var (start, end) := HeartBeatStats(now, regTime);
            |Days(start, end)| == 7 && Days(start, end)[6] == TodayBeginning(now) - DAY
  {
    DayOf(now);
    var (start, end) := HeartBeatStats(now, regTime);
    assert TodayBeginning(start) == start;
    DayCount(start, end, 7);
  }

  // ---------------------------------------------------------------- health

  function Total(ts: seq<int>, beats: int -> nat): nat {
    if ts == [] then 0 else Total(ts[..|ts| - 1], beats) + beats(ts[|ts| - 1])
  }

  /** The heartbeats of the days; a day without a record has none. */
  method HeartBeatTotalNumByTime(start: int, end: int, beats: int -> nat) returns (total: nat)
    ensures total == Total(Days(start, end), beats)
  {
    var days := ListDays(start, end);
    total := 0;
    for i := 0 to |days|
      invariant total == Total(days[..i], beats)
    {
      assert days[..i + 1][..i] == days[..i];
      total := total + beats(days[i]);
    }
    assert days[..|days|] == days;
  }

  function Rate(n: int, max: int): real
    requires max != 0
  {
    n as real / max as real
  }

  function Graded(provedRate: real, heartBeatRate: real): Health {
    var health := CHALLENGE_PART * provedRate + HEARTBEAT_PART * heartBeatRate;
    if health >= GOOD_BOUND then Green else if health < MEDIUM_BOUND then Red else Yellow
  }

  ghost function HeartBeatRate(now: int, regTime: int, beats: int -> nat): real {
    var (start, end) := HeartBeatStats(now, regTime);
    var max := HeartbeatMaxNum(start, end, regTime);
    if max != 0 then Rate(Total(Days(start, end), beats), max) else DEFAULT_RATE
  }

  ghost function NodeGrade(now: int, regTime: int, all: nat, proved: nat, beats: int -> nat): Health {
    Graded(if all != 0 then Rate(proved, all) else DEFAULT_RATE, HeartBeatRate(now, regTime, beats))
  }

  /** Without challenges, or without time for a heartbeat, the default rates stand in. */
  method GetNodeHealth(now: int, regTime: int, all: nat, proved: nat, beats: int -> nat) returns (h: Health)
    ensures h == NodeGrade(now, regTime, all, proved, beats)
  {
    var (start, end) := HeartBeatStats(now, regTime);
    var provedRation := DEFAULT_RATE;
    if all != 0 {
      provedRation := Rate(proved, all);
    }
    var heartBeatMax := HeartbeatMaxNum(start, end, regTime);
    var heartBeatRate := DEFAULT_RATE;
    if heartBeatMax != 0 {
      var total := HeartBeatTotalNumByTime(start, end, beats);
      heartBeatRate := Rate(total, heartBeatMax);
    }
    h := Graded(provedRation, heartBeatRate);
  }

  // ---------------------------------------------------------------- the heartbeats of a node

  /** Heartbeats from the registration until now, in order and at least a minute apart. */
  ghost predicate Minutely(times: seq<int>, regTime: int, now: int) {
    && (forall i :: 0 <= i < |times| ==> regTime <= times[i] <= now)
    && (forall i, j :: 0 <= i < j < |times| ==> times[i] + MINUTE <= times[j])
  }

  function CountIn(times: seq<int>, lo: int, hi: int): nat {
    if times == [] then 0
    else
      var t := times[|times| - 1];
      CountIn(times[..|times| - 1], lo, hi) + if lo <= t < hi then 1 else 0
  }

  /** What the chain has counted for each day. */
  ghost function Counted(times: seq<int>): int -> nat { d => CountIn(times, d, d + DAY) }

  /** How many heartbeats fit into a span: one a minute, and one when it begins. */
  function Minutes(span: int): nat { if span <= 0 then 0 else (span + MINUTE - 1) / MINUTE }

  lemma {:induction false} CountSplits(times: seq<int>, lo: int, mid: int, hi: int)
    requires lo <= mid <= hi
    ensures CountIn(times, lo, hi) == CountIn(times, lo, mid) + CountIn(times, mid, hi)
  {
    if times != [] { CountSplits(times[..|times| - 1], lo, mid, hi); }
  }

  lemma {:induction false} CountBelow(times: seq<int>, lo: int, last: int, hi: int)
    requires (forall i :: 0 <= i < |times| ==> times[i] < last) && last <= hi
    ensures CountIn(times, lo, hi) == CountIn(times, lo, last)
  {
    if times != [] { CountBelow(times[..|times| - 1], lo, last, hi); }
  }

  lemma {:induction false} CountAll(times: seq<int>, lo: int, hi: int)
    requires forall i :: 0 <= i < |times| ==> lo <= times[i] < hi
    ensures CountIn(times, lo, hi) == |times|
  {
    if times != [] { CountAll(times[..|times| - 1], lo, hi); }
  }

  lemma {:induction false} CountSpaced(times: seq<int>, regTime: int, now: int, lo: int, hi: int)
    requires Minutely(times, regTime, now)
    ensures CountIn(times, lo, hi) <= Minutes(hi - lo)
  {
    if times != [] {
      var init, t := times[..|times| - 1], times[|times| - 1];
      CountSpaced(init, regTime, now, lo, hi);
      if lo <= t < hi {
        var before := t - MINUTE + 1;
        CountSpaced(init, regTime, now, lo, before);
        CountBelow(init, lo, before, hi);
      }
    }
  }

  /** The total over the days is the count over their whole length. */
  lemma {:induction false} TotalIsCount(times: seq<int>, ts: seq<int>, first: int)
    requires forall i :: 0 <= i < |ts| ==> ts[i] == first + i * DAY
    ensures Total(ts, Counted(times)) == CountIn(times, first, first + |ts| * DAY)
  {
    if ts != [] {
      var n := |ts| - 1;
      TotalIsCount(times, ts[..n], first);
      CountSplits(times, first, first + n * DAY, first + |ts| * DAY);
    } else {
      CountNone(times, first);
    }
  }

  lemma {:induction false} CountNone(times: seq<int>, lo: int)
    ensures CountIn(times, lo, lo) == 0
  {
    if times != [] { CountNone(times[..|times| - 1], lo); }
  }

  function WindowStart(now: int): int { TodayBeginning(now) - WINDOW_DAYS * DAY }

  /** A node registered by the beginning of the window has at most one heartbeat a minute in it. */
  lemma {:induction false} OldNodeBeats(now: int, regTime: int, times: seq<int>)
    requires regTime <= WindowStart(now) && Minutely(times, regTime, now)
    ensures var (start, end) := HeartBeatStats(now, regTime);
            Total(Days(start, end), Counted(times)) == CountIn(times, WindowStart(now), TodayBeginning(now))
            && Total(Days(start, end), Counted(times)) <= WINDOW_DAYS * BEATS_PER_DAY
  {
    DayOf(now);
    var (start, end) := HeartBeatStats(now, regTime);
    SevenDays(now, regTime);
    TotalIsCount(times, Days(start, end), start);
    CountSpaced(times, regTime, now, start, start + 7 * DAY);
  }

  /** A younger node has at most one heartbeat more than the minutes it is measured by. */
  lemma YoungNodeBeats(now: int, regTime: int, times: seq<int>)
    requires WindowStart(now) < regTime <= now && Minutely(times, regTime, now)
    ensures var (start, end) := HeartBeatStats(now, regTime);
            Total(Days(start, end), Counted(times)) == |times| <= HeartbeatMaxNum(start, end, regTime) + 1
  {
    DayOf(now);
    DayOf(regTime);
    var ts := Days(regTime, now);
    DayCount(regTime, now, |ts|);
    TotalIsCount(times, ts, TodayBeginning(regTime));
    CountAll(times, TodayBeginning(regTime), TodayBeginning(regTime) + |ts| * DAY);
    CountAll(times, regTime, now + 1);
    CountSpaced(times, regTime, now, regTime, now + 1);
  }

  /** A heartbeat at `from` and every minute after it, `n` in all. */
  function EveryMinute(from: int, n: nat): (times: seq<int>)
    ensures |times| == n && forall i :: 0 <= i < n ==> times[i] == from + i * MINUTE
  {
    if n == 0 then [] else EveryMinute(from, n - 1) + [from + (n - 1) * MINUTE]
  }

  lemma {:induction false} CountUpTo(from: int, n: nat, x: int)
    requires from <= x <= from + n * MINUTE
    ensures CountIn(EveryMinute(from, n), from, x) == Minutes(x - from)
  {
    var times := EveryMinute(from, n);
    if n == 0 {
      CountNone(times, from);
    } else if x <= from + (n - 1) * MINUTE {
      assert times[..n - 1] == EveryMinute(from, n - 1);
      CountUpTo(from, n - 1, x);
    } else {
      CountAll(times, from, x);
    }
  }

  /** A node that sent a heartbeat every minute since its registration. */
  ghost function Steady(now: int, regTime: int): (times: seq<int>)
    requires regTime <= now
    ensures Minutely(times, regTime, now) && |times| == (now - regTime) / MINUTE + 1
  {
    EveryMinute(regTime, (now - regTime) / MINUTE + 1)
  }

  lemma SteadyInWindow(now: int, regTime: int)
    requires regTime <= WindowStart(now)
    ensures regTime <= now
    ensures CountIn(Steady(now, regTime), WindowStart(now), TodayBeginning(now)) == WINDOW_DAYS * BEATS_PER_DAY
  {
    DayOf(now);
    var n := (now - regTime) / MINUTE + 1;
    CountUpTo(regTime, n, WindowStart(now));
    CountUpTo(regTime, n, TodayBeginning(now));
    CountSplits(EveryMinute(regTime, n), regTime, WindowStart(now), TodayBeginning(now));
  }

  /** A steady node registered exactly when the window begins: seven days are counted, six measured. */
  lemma SevenDaysBySix(now: int, regTime: int)
    requires regTime == WindowStart(now)
    ensures regTime <= now
    ensures var (start, end) := HeartBeatStats(now, regTime);
            Total(Days(start, end), Counted(Steady(now, regTime))) == 7 * BEATS_PER_DAY
            && HeartbeatMaxNum(start, end, regTime) == 6 * BEATS_PER_DAY
  {
    DayOf(now);
    SteadyInWindow(now, regTime);
    OldNodeBeats(now, regTime, Steady(now, regTime));
  }

  /** A steady node younger than the window has exactly the one heartbeat more. */
  lemma OneBeatMore(now: int, regTime: int)
    requires WindowStart(now) < regTime <= now
    ensures var (start, end) := HeartBeatStats(now, regTime);
            Total(Days(start, end), Counted(Steady(now, regTime))) == HeartbeatMaxNum(start, end, regTime) + 1
  {
    YoungNodeBeats(now, regTime, Steady(now, regTime));
  }

  /** The rate of every node that sends heartbeats a minute apart from its registration on is at most
      1 if and only if it was registered strictly before its window. A younger node can have one
      heartbeat too many (YoungNodeBeats), one registered right at the beginning a whole day. */
  lemma RateWithinOne(now: int, regTime: int)
    requires regTime <= now
    ensures var (start, end) := HeartBeatStats(now, regTime);
            HeartbeatMaxNum(start, end, regTime) != 0 ==>
              ((forall times :: Minutely(times, regTime, now) ==> HeartBeatRate(now, regTime, Counted(times)) <= 1.0)
               <==> regTime < WindowStart(now))
  {
    DayOf(now);
    var (start, end) := HeartBeatStats(now, regTime);
    var max, ts := HeartbeatMaxNum(start, end, regTime), Days(start, end);
    if regTime < WindowStart(now) {
      forall times | Minutely(times, regTime, now) ensures HeartBeatRate(now, regTime, Counted(times)) <= 1.0 {
        OldNodeBeats(now, regTime, times);
        RateOrdered(Total(ts, Counted(times)), max);
      }
    } else if max != 0 {
      var times := Steady(now, regTime);
      if regTime == WindowStart(now) { SevenDaysBySix(now, regTime); } else { OneBeatMore(now, regTime); }
      RateOrdered(Total(ts, Counted(times)), max);
      assert Minutely(times, regTime, now) && HeartBeatRate(now, regTime, Counted(times)) > 1.0;
    }
  }

  lemma RateOrdered(n: nat, max: nat)
    requires max > 0
    ensures Rate(n, max) <= 1.0 <==> n <= max
  {
    assert Rate(n, max) * max as real == n as real;
    if Rate(n, max) > 1.0 { Scaled(1.0, Rate(n, max), max as real); }
    if Rate(n, max) < 1.0 { Scaled(Rate(n, max), 1.0, max as real); }
  }

  /** A node registered strictly before its window that proved less than 3/7 of its challenges is
      red whatever its heartbeats. */
  lemma UnprovedIsRed(now: int, regTime: int, all: nat, proved: nat, times: seq<int>)
    requires regTime < WindowStart(now) && Minutely(times, regTime, now)
    requires all > 0 && 7 * proved < 3 * all
    ensures NodeGrade(now, regTime, all, proved, Counted(times)).Red?
  {
    DayOf(now);
    var (start, end) := HeartBeatStats(now, regTime);
    OldNodeBeats(now, regTime, times);
    RateOrdered(Total(Days(start, end), Counted(times)), HeartbeatMaxNum(start, end, regTime));
    ThreeSevenths(proved, all);
  }

  /** With steady heartbeats from before the window 3/7 is the bound. */
  lemma ProvedIsNotRed(now: int, regTime: int, all: nat, proved: nat)
    requires regTime < WindowStart(now) && all > 0 && 7 * proved >= 3 * all
    ensures regTime <= now && !NodeGrade(now, regTime, all, proved, Counted(Steady(now, regTime))).Red?
  {
    DayOf(now);
    var times := Steady(now, regTime);
    var (start, end) := HeartBeatStats(now, regTime);
    OldNodeBeats(now, regTime, times);
    SteadyInWindow(now, regTime);
    assert Rate(10080, 10080) == 1.0;
    ThreeSevenths(proved, all);
  }

  /** 3/7 of the challenges are what a full heartbeat rate needs for a medium grade. */
  lemma ThreeSevenths(proved: nat, all: nat)
    requires all > 0
    ensures Rate(proved, all) < 3.0 / 7.0 <==> 7 * proved < 3 * all
  {
    RateBelow(proved, all, 3.0 / 7.0);
    assert (3.0 / 7.0) * all as real == (3 * all) as real / 7.0;
    assert 7 * proved < 3 * all <==> (7 * proved) as real < (3 * all) as real;
    assert (7 * proved) as real / 7.0 == proved as real;
  }

  /** And 11/14 of them make it green. */
  lemma ProvedIsGreen(now: int, regTime: int, all: nat, proved: nat)
    requires regTime < WindowStart(now) && all > 0
    ensures regTime <= now
    ensures NodeGrade(now, regTime, all, proved, Counted(Steady(now, regTime))).Green? <==> 14 * proved >= 11 * all
  {
    DayOf(now);
    var times := Steady(now, regTime);
    OldNodeBeats(now, regTime, times);
    SteadyInWindow(now, regTime);
    assert Rate(10080, 10080) == 1.0;
    RateBelow(proved, all, 11.0 / 14.0);
    assert (11.0 / 14.0) * all as real == (11 * all) as real / 14.0;
    assert 14 * proved < 11 * all <==> (14 * proved) as real < (11 * all) as real;
    assert (14 * proved) as real / 14.0 == proved as real;
  }

  /** A node without challenges is green with steady heartbeats, and red without any. */
  lemma UnchallengedNode(now: int, regTime: int)
    requires regTime < WindowStart(now)
    ensures regTime <= now && NodeGrade(now, regTime, 0, 0, Counted(Steady(now, regTime))).Green?
    ensures NodeGrade(now, regTime, 0, 0, Counted([])).Red?
  {
    DayOf(now);
    OldNodeBeats(now, regTime, Steady(now, regTime));
    SteadyInWindow(now, regTime);
    OldNodeBeats(now, regTime, []);
    assert Rate(10080, 10080) == 1.0 && Rate(0, 10080) == 0.0;
  }

  /** A node registered within this minute is green exactly if it failed at most 15 challenges in 100. */
  lemma Newcomer(now: int, regTime: int, all: nat, proved: nat, beats: int -> nat)
    requires WindowStart(now) < regTime <= now < regTime + MINUTE
    ensures NodeGrade(now, regTime, all, proved, beats).Green? <==> all == 0 || 100 * proved >= 85 * all
  {
    DayOf(now);
    assert HeartBeatRate(now, regTime, beats) == DEFAULT_RATE;
    if all > 0 {
      RateBelow(proved, all, 0.85);
      assert 0.85 * all as real == (85 * all) as real / 100.0;
      assert 100 * proved < 85 * all <==> (100 * proved) as real < (85 * all) as real;
      assert (100 * proved) as real / 100.0 == proved as real;
    }
  }

  /** A node registered right when its window begins is an exception: with steady heartbeats
      its rate is 7/6, and 42 proved of 100 challenges make it yellow. */
  lemma UnprovedButYellow(now: int, regTime: int)
    requires regTime == WindowStart(now)
    ensures regTime <= now && NodeGrade(now, regTime, 100, 42, Counted(Steady(now, regTime))).Yellow?
  {
    SevenDaysBySix(now, regTime);
    assert Rate(7 * BEATS_PER_DAY, 6 * BEATS_PER_DAY) == 7.0 / 6.0;
    assert Rate(42, 100) == 0.42;
  }

  lemma RateBelow(n: nat, max: nat, bound: real)
    requires max > 0
    ensures Rate(n, max) < bound <==> n as real < bound * max as real
  {
    var r, m := Rate(n, max), max as real;
    assert r * m == n as real;
    if r < bound { Scaled(r, bound, m); } else if bound < r { Scaled(bound, r, m); }
  }

  lemma Scaled(a: real, b: real, c: real)
    requires a < b && c > 0.0
    ensures a * c < b * c
  {
    assert b * c - a * c == (b - a) * c;
  }

  /** More proofs and more heartbeats never make a node worse. */
  lemma GradeMonotone(p: real, q: real, h: real, k: real)
    requires p <= q && h <= k
    ensures Graded(q, k).Red? ==> Graded(p, h).Red?
    ensures Graded(p, h).Green? ==> Graded(q, k).Green?
  {
  }
}
