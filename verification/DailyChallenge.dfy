/** Daily-challenge streak counters against the log of played days. */
module DailyChallenge {
  import opened Wrappers
  import opened IsoWeeks

  datatype Streaks = Streaks(
    playcount: int, dailyCurrent: int, dailyBest: int, weeklyCurrent: int, weeklyBest: int,
    lastUpdate: Option<Date>, lastWeekly: Option<Date>)

  const FRESH := Streaks(0, 0, 0, 0, 0, None, None)

  ghost predicate DatesValid(st: Streaks) {
    (st.lastUpdate.Some? ==> ValidDate(st.lastUpdate.value)) && (st.lastWeekly.Some? ==> ValidDate(st.lastWeekly.value))
  }

  function DailyStep(st: Streaks, now: Date): Streaks
    requires ValidDate(now) && DatesValid(st)
  {
    if st.lastUpdate.None? then st.(playcount := st.playcount + 1, dailyBest := 1, dailyCurrent := 1)
    else if Ordinal(st.lastUpdate.value) == Ordinal(now) - 1 then
      var current := st.dailyCurrent + 1;
      st.(playcount := st.playcount + 1, dailyCurrent := current,
          dailyBest := if current > st.dailyBest then current else st.dailyBest)
    else if Ordinal(st.lastUpdate.value) == Ordinal(now) then st
    else st.(playcount := st.playcount + 1, dailyCurrent := 1)
  }

  function WeeklyStep(st: Streaks, now: Date): Streaks
    requires ValidDate(now) && DatesValid(st)
  {
    if st.lastWeekly.None? then st.(weeklyCurrent := 1, weeklyBest := 1)
    else if AreAdjacentWeeks(st.lastWeekly.value, now) then
      var current := st.weeklyCurrent + 1;
      st.(weeklyCurrent := current, weeklyBest := if current > st.weeklyBest then current else st.weeklyBest)
    else if Ordinal(st.lastWeekly.value) == Ordinal(now) then st
    else st.(weeklyCurrent := 1)
  }

  /** One passed play at a moment of day `now`. */
  function Step(st: Streaks, now: Date): (after: Streaks)
    requires ValidDate(now) && DatesValid(st)
    ensures DatesValid(after) && after.lastUpdate == Some(now) && after.lastWeekly == Some(now)
  {
    WeeklyStep(DailyStep(st, now), now).(lastUpdate := Some(now), lastWeekly := Some(now))
  }

  /** The stored row of one user. */
  class DailyChallengeStats {
    var playcount: int
    var dailyStreakCurrent: int
    var dailyStreakBest: int
    var weeklyStreakCurrent: int
    var weeklyStreakBest: int
    var lastUpdate: Option<Date>
    var lastDayStreak: Option<Date>
    var lastWeeklyStreak: Option<Date>

    constructor ()
      ensures State() == FRESH
    {
      playcount, dailyStreakCurrent, dailyStreakBest, weeklyStreakCurrent, weeklyStreakBest := 0, 0, 0, 0, 0;
      lastUpdate, lastDayStreak, lastWeeklyStreak := None, None, None;
    }

    ghost function State(): Streaks
      reads this
    {
      Streaks(playcount, dailyStreakCurrent, dailyStreakBest, weeklyStreakCurrent, weeklyStreakBest,
              lastUpdate, lastWeeklyStreak)
    }

    /** A play that is missing or not passed changes nothing. */
    method ProcessScore(passed: bool, now: Date)
      requires ValidDate(now) && DatesValid(State())
      modifies this
      ensures State() == if passed then Step(old(State()), now) else old(State())
      ensures lastDayStreak == if passed then Some(now) else old(lastDayStreak)
    {
      hide AreAdjacentWeeks, Ordinal;
      if !passed { return; }
      playcount := playcount + 1;
      if lastUpdate.None? {
        dailyStreakBest := 1;
        dailyStreakCurrent := 1;
      } else if Ordinal(lastUpdate.value) == Ordinal(now) - 1 {
        dailyStreakCurrent := dailyStreakCurrent + 1;
        if dailyStreakCurrent > dailyStreakBest { dailyStreakBest := dailyStreakCurrent; }
      } else if Ordinal(lastUpdate.value) == Ordinal(now) {
        playcount := playcount - 1;
      } else {
        dailyStreakCurrent := 1;
      }
      if lastWeeklyStreak.None? {
        weeklyStreakCurrent := 1;
        weeklyStreakBest := 1;
      } else if AreAdjacentWeeks(lastWeeklyStreak.value, now) {
        weeklyStreakCurrent := weeklyStreakCurrent + 1;
        if weeklyStreakCurrent > weeklyStreakBest { weeklyStreakBest := weeklyStreakCurrent; }
      } else if Ordinal(lastWeeklyStreak.value) != Ordinal(now) {
        weeklyStreakCurrent := 1;
      }
      lastUpdate := Some(now);
      lastDayStreak := Some(now);
      lastWeeklyStreak := Some(now);
    }
  }

  // ----- the play log -----

  /** Valid dates in the order of time; several plays may share a day. */
  ghost predicate ValidLog(log: seq<Date>) {
    && (forall i :: 0 <= i < |log| ==> ValidDate(log[i]))
    && (forall i, j :: 0 <= i < j < |log| ==> Ordinal(log[i]) <= Ordinal(log[j]))
  }

  function Run(log: seq<Date>): (st: Streaks)
    requires forall i :: 0 <= i < |log| ==> ValidDate(log[i])
    ensures DatesValid(st)
  {
    if log == [] then FRESH else Step(Run(log[..|log| - 1]), log[|log| - 1])
  }

  function Days(log: seq<Date>): set<int>
    requires forall i :: 0 <= i < |log| ==> ValidDate(log[i])
  {
    set i | 0 <= i < |log| :: Ordinal(log[i])
  }

  function WeekOf(day: int): int { (day - 1) / 7 }

  function Weeks(days: set<int>): set<int> { set d | d in days :: WeekOf(d) }

  // ----- runs of consecutive numbers -----

  ghost predicate RunFrom(s: set<int>, start: int, length: int) {
    forall j :: start <= j < start + length ==> j in s
  }

  /** The run of consecutive members that ends at `last` has exactly `length` members. */
  ghost predicate IsLastRun(s: set<int>, last: int, length: int) {
    length >= 1 && RunFrom(s, last - length + 1, length) && last - length !in s
  }

  /** Some run has `length` members and none has more. */
  ghost predicate IsLongestRun(s: set<int>, length: int) {
    length >= 0 && HasRun(s, length) && !HasRun(s, length + 1)
  }

  ghost predicate HasRun(s: set<int>, length: int) { exists start :: RunFrom(s, start, length) }

  lemma RunShrinks(s: set<int>, start: int, length: int, part: int)
    requires RunFrom(s, start, length) && 0 <= part <= length
    ensures RunFrom(s, start, part) && RunFrom(s, start + length - part, part) && HasRun(s, part)
  {
    assert RunFrom(s, start, part);
  }

  /** Adding a day after all others: every longer run must end there. */
  lemma LongestAfterNewDay(s: set<int>, day: int, current: int, best: int, best': int)
    requires forall d :: d in s ==> d < day
    requires IsLongestRun(s, best) && IsLastRun(s + {day}, day, current)
    requires best' == if current > best then current else best
    ensures IsLongestRun(s + {day}, best')
  {
    var t := s + {day};
    if current > best {
      assert RunFrom(t, day - current + 1, current);
    } else {
      var start :| RunFrom(s, start, best);
      assert RunFrom(t, start, best);
    }
    if HasRun(t, best' + 1) {
      var start :| RunFrom(t, start, best' + 1);
      LongerRunIsOld(s, day, current, start, best' + 1);
      RunShrinks(s, start, best' + 1, best + 1);
    }
  }

  lemma LongerRunIsOld(s: set<int>, day: int, current: int, start: int, length: int)
    requires forall d :: d in s ==> d < day
    requires IsLastRun(s + {day}, day, current) && length > current && RunFrom(s + {day}, start, length)
    ensures RunFrom(s, start, length)
  {
    assert start + length - 1 in s + {day};
    assert day - current !in s + {day};
    assert !(start <= day - current < start + length);
  }

  // ----- daily streak -----

  ghost predicate DailyExact(log: seq<Date>, st: Streaks)
    requires ValidLog(log) && log != []
  {
    var days, last := Days(log), Ordinal(log[|log| - 1]);
    st.playcount == |days| && IsLastRun(days, last, st.dailyCurrent) && IsLongestRun(days, st.dailyBest)
  }

  ghost predicate AtMost(days: set<int>, last: int) { forall d :: d in days ==> d <= last }

  lemma DaysGrow(log: seq<Date>)
    requires ValidLog(log) && log != []
    ensures ValidLog(log[..|log| - 1])
    ensures Days(log) == Days(log[..|log| - 1]) + {Ordinal(log[|log| - 1])}
    ensures AtMost(Days(log[..|log| - 1]), Ordinal(log[|log| - 1]))
    ensures |log| > 1 ==> Ordinal(log[|log| - 2]) in Days(log[..|log| - 1])
    ensures |log| > 1 ==> AtMost(Days(log[..|log| - 1]), Ordinal(log[|log| - 2]))
  {
    hide Ordinal;
    var before := log[..|log| - 1];
    assert forall i :: 0 <= i < |before| ==> before[i] == log[i];
    forall d ensures d in Days(log) <==> d in Days(before) + {Ordinal(log[|log| - 1])} {
      if d in Days(log) {
        var i :| 0 <= i < |log| && d == Ordinal(log[i]);
        if i < |before| { assert d == Ordinal(before[i]); }
      }
      if d in Days(before) {
        var i :| 0 <= i < |before| && d == Ordinal(before[i]);
        assert d == Ordinal(log[i]);
      }
    }
    if |log| > 1 { assert before[|log| - 2] == log[|log| - 2]; }
  }

  /** The daily counters after one more play, from the counters before. */
  lemma DailyCounters(days: set<int>, last: int, day: int, st: Streaks, after: Streaks)
    requires last in days && last <= day && AtMost(days, last)
    requires st.playcount == |days| && IsLastRun(days, last, st.dailyCurrent) && IsLongestRun(days, st.dailyBest)
    requires day == last ==>
      after.playcount == st.playcount && after.dailyCurrent == st.dailyCurrent && after.dailyBest == st.dailyBest
    requires day > last ==> after.playcount == st.playcount + 1
    requires day > last ==> after.dailyCurrent == (if day == last + 1 then st.dailyCurrent + 1 else 1)
    requires day > last ==>
      after.dailyBest == (if after.dailyCurrent > st.dailyBest then after.dailyCurrent else st.dailyBest)
    ensures after.playcount == |days + {day}|
    ensures IsLastRun(days + {day}, day, after.dailyCurrent) && IsLongestRun(days + {day}, after.dailyBest)
  {
    if day == last {
      assert days + {day} == days;
    } else {
      assert IsLastRun(days + {day}, day, after.dailyCurrent);
      LongestAfterNewDay(days, day, after.dailyCurrent, st.dailyBest, after.dailyBest);
    }
  }

  lemma BestAtLeastOne(days: set<int>, last: int, best: int)
    requires last in days && IsLongestRun(days, best)
    ensures best >= 1
  {
    assert RunFrom(days, last, 1);
    assert HasRun(days, 1);
  }

  /**
   * For every log in time order, from a fresh row: `playcount` is the number of distinct days, the current daily
   * streak is the run of days ending at the last one, and the best is the longest run anywhere.
   */
  lemma {:induction false} DailyStreaksAreExact(log: seq<Date>)
    requires ValidLog(log) && log != []
    ensures DailyExact(log, Run(log))
  {
    hide Ordinal, WeeklyStep, IsLastRun, IsLongestRun, Days;
    var n := |log| - 1;
    var day := Ordinal(log[n]);
    DaysGrow(log);
    if n == 0 {
      FirstDay(log);
    } else {
      DailyStreaksAreExact(log[..n]);
      var st, last := Run(log[..n]), Ordinal(log[n - 1]);
      LastUpdateIsLastPlay(log[..n]);
      BestAtLeastOne(Days(log[..n]), last, st.dailyBest);
      WeeklyKeepsDaily(DailyStep(st, log[n]), log[n]);
      DailyCounters(Days(log[..n]), last, day, st, Run(log));
    }
  }

  lemma WeeklyKeepsDaily(st: Streaks, now: Date)
    requires ValidDate(now) && DatesValid(st)
    ensures var after := WeeklyStep(st, now);
      after.playcount == st.playcount && after.dailyCurrent == st.dailyCurrent && after.dailyBest == st.dailyBest &&
      after.lastUpdate == st.lastUpdate
  {
  }

  lemma LastUpdateIsLastPlay(log: seq<Date>)
    requires (forall i :: 0 <= i < |log| ==> ValidDate(log[i])) && log != []
    ensures Run(log).lastUpdate == Some(log[|log| - 1]) && Run(log).lastWeekly == Some(log[|log| - 1])
  {
  }

  lemma TwoMembers(s: set<int>, start: int)
    requires RunFrom(s, start, 2)
    ensures start in s && start + 1 in s
  {
  }

  lemma FirstDay(log: seq<Date>)
    requires ValidLog(log) && |log| == 1
    ensures DailyExact(log, Run(log))
  {
    var day := Ordinal(log[0]);
    hide Ordinal;
    assert Run(log[..0]) == FRESH;
    assert Days(log) == {day};
    assert RunFrom({day}, day, 1);
    if HasRun({day}, 2) {
      var start :| RunFrom({day}, start, 2);
      TwoMembers({day}, start);
    }
  }

  // ----- weekly streak -----

  /** All logged days of week `w` are the same day. */
  ghost predicate SingleDay(days: set<int>, w: int) {
    forall a, b :: a in days && b in days && WeekOf(a) == w && WeekOf(b) == w ==> a == b
  }

  /**
   * The weekly counter counts back from the last week through consecutive weeks, and stops at a week that has
   * several logged days or that no logged week precedes.
   */
  ghost predicate WeeklyTrace(days: set<int>, last: int, current: int) {
    && current >= 1 && last in days
    && AtMost(days, last)
    && RunFrom(Weeks(days), WeekOf(last) - current + 1, current)
    && (forall w :: WeekOf(last) - current + 1 < w <= WeekOf(last) ==> SingleDay(days, w))
    && (WeekOf(last) - current in Weeks(days) ==> !SingleDay(days, WeekOf(last) - current + 1))
  }

  lemma WeeksGrow(days: set<int>, day: int)
    ensures Weeks(days + {day}) == Weeks(days) + {WeekOf(day)}
  {
    forall w ensures w in Weeks(days + {day}) <==> w in Weeks(days) + {WeekOf(day)} {
      if w in Weeks(days) {
        var d :| d in days && w == WeekOf(d);
        assert d in days + {day};
      }
      assert day in days + {day};
    }
  }

  lemma OtherWeeksKept(days: set<int>, day: int, w: int)
    requires w != WeekOf(day)
    ensures SingleDay(days + {day}, w) <==> SingleDay(days, w)
  {
    if SingleDay(days + {day}, w) {
      assert forall a :: a in days ==> a in days + {day};
    }
  }

  lemma WeekOfMonotone(a: int, b: int)
    requires a <= b
    ensures WeekOf(a) <= WeekOf(b)
  {
  }

  lemma WeeksUpTo(days: set<int>, last: int)
    requires AtMost(days, last)
    ensures forall w :: w in Weeks(days) ==> w <= WeekOf(last)
  {
    forall w | w in Weeks(days) ensures w <= WeekOf(last) {
      var d :| d in days && w == WeekOf(d);
      WeekOfMonotone(d, last);
    }
  }

  lemma TraceNextWeek(days: set<int>, last: int, day: int, current: int)
    requires WeeklyTrace(days, last, current) && WeekOf(day) == WeekOf(last) + 1 && last < day
    ensures WeeklyTrace(days + {day}, day, current + 1)
  {
    hide WeekOf;
    var t, w := days + {day}, WeekOf(day);
    WeeksGrow(days, day);
    WeeksUpTo(days, last);
    assert SingleDay(t, w) by {
      forall d | d in days ensures WeekOf(d) != w { assert WeekOf(d) in Weeks(days); }
    }
    forall v | w - current < v <= w ensures SingleDay(t, v) {
      if v < w { OtherWeeksKept(days, day, v); }
    }
    OtherWeeksKept(days, day, w - current);
  }

  lemma TraceRestarts(days: set<int>, last: int, day: int, current: int)
    requires WeeklyTrace(days, last, current) && last < day && WeekOf(day) != WeekOf(last) + 1
    ensures WeeklyTrace(days + {day}, day, 1)
  {
    hide WeekOf;
    var t, w := days + {day}, WeekOf(day);
    WeeksGrow(days, day);
    WeeksUpTo(days, last);
    WeekOfMonotone(last, day);
    if w == WeekOf(last) { assert !SingleDay(t, w) by { assert last in t && day in t; } }
  }

  lemma {:induction false} WeeklyTraceKept(log: seq<Date>)
    requires ValidLog(log) && log != []
    ensures WeeklyTrace(Days(log), Ordinal(log[|log| - 1]), Run(log).weeklyCurrent)
    ensures HasRun(Weeks(Days(log)), Run(log).weeklyBest) && Run(log).weeklyBest >= Run(log).weeklyCurrent
  {
    hide Ordinal, WeekOf, WeeklyTrace, AreAdjacentWeeks, Days, DailyStep, Weeks;
    var n := |log| - 1;
    var day := Ordinal(log[n]);
    DaysGrow(log);
    if n == 0 {
      FirstWeek(log);
    } else {
      WeeklyTraceKept(log[..n]);
      var st, days, last := Run(log[..n]), Days(log[..n]), Ordinal(log[n - 1]);
      LastUpdateIsLastPlay(log[..n]);
      DailyKeepsWeekly(st, log[n]);
      WeekAdjacency(log[n - 1], log[n]);
      if day == last {
        assert days + {day} == days;
      } else if WeekOf(day) == WeekOf(last) + 1 {
        TraceNextWeek(days, last, day, st.weeklyCurrent);
      } else {
        TraceRestarts(days, last, day, st.weeklyCurrent);
      }
      TraceIsRun(days, last, st.weeklyCurrent);
      LongestKept(days, day, st.weeklyBest);
      TraceIsRun(Days(log), day, Run(log).weeklyCurrent);
    }
  }

  lemma TraceIsRun(days: set<int>, last: int, current: int)
    requires WeeklyTrace(days, last, current)
    ensures HasRun(Weeks(days), current) && current >= 1
  {
    hide WeekOf, Weeks;
  }

  lemma LongestKept(days: set<int>, day: int, best: int)
    requires HasRun(Weeks(days), best)
    ensures HasRun(Weeks(days + {day}), best)
  {
    hide WeekOf, Weeks;
    WeeksGrow(days, day);
    var start :| RunFrom(Weeks(days), start, best);
    assert RunFrom(Weeks(days + {day}), start, best);
  }

  lemma DailyKeepsWeekly(st: Streaks, now: Date)
    requires ValidDate(now) && DatesValid(st)
    ensures var after := DailyStep(st, now);
      after.weeklyCurrent == st.weeklyCurrent && after.weeklyBest == st.weeklyBest && after.lastWeekly == st.lastWeekly
  {
  }

  /** In time order, "adjacent weeks" means the next week. */
  lemma WeekAdjacency(before: Date, now: Date)
    requires ValidDate(before) && ValidDate(now) && Ordinal(before) <= Ordinal(now)
    ensures AreAdjacentWeeks(before, now) <==> WeekOf(Ordinal(now)) == WeekOf(Ordinal(before)) + 1
  {
    hide Ordinal, AreAdjacentWeeks;
    AdjacentIffNextIndex(before, now);
    WeekOfMonotone(Ordinal(before), Ordinal(now));
  }

  lemma FirstWeek(log: seq<Date>)
    requires ValidLog(log) && |log| == 1
    ensures WeeklyTrace(Days(log), Ordinal(log[0]), Run(log).weeklyCurrent)
    ensures HasRun(Weeks(Days(log)), Run(log).weeklyBest) && Run(log).weeklyBest >= Run(log).weeklyCurrent
  {
    var day := Ordinal(log[0]);
    hide Ordinal, WeekOf;
    assert Run(log[..0]) == FRESH;
    assert Days(log) == {day};
    assert Weeks({day}) == {WeekOf(day)};
    assert RunFrom(Weeks({day}), WeekOf(day), 1);
  }

  /** The weekly counters never exceed the last and the longest run of consecutive weeks. */
  lemma WeeklyStreaksAreBounds(log: seq<Date>, lastRun: int, longest: int)
    requires ValidLog(log) && log != []
    requires IsLastRun(Weeks(Days(log)), WeekOf(Ordinal(log[|log| - 1])), lastRun)
    requires IsLongestRun(Weeks(Days(log)), longest)
    ensures 1 <= Run(log).weeklyCurrent <= lastRun
    ensures Run(log).weeklyCurrent <= Run(log).weeklyBest <= longest
  {
    hide Ordinal, WeekOf, Days, Run, Weeks;
    WeeklyTraceKept(log);
    var weeks, best := Weeks(Days(log)), Run(log).weeklyBest;
    if best > longest {
      var start :| RunFrom(weeks, start, best);
      RunShrinks(weeks, start, best, longest + 1);
    }
  }

  /**
   * The current weekly streak is the last run of weeks exactly when every week of that run but its first has a
   * single logged day: a second day in a week starts the count again.
   */
  lemma WeeklyStreakExactIff(log: seq<Date>, lastRun: int)
    requires ValidLog(log) && log != []
    requires IsLastRun(Weeks(Days(log)), WeekOf(Ordinal(log[|log| - 1])), lastRun)
    ensures Run(log).weeklyCurrent == lastRun <==>
      forall w :: WeekOf(Ordinal(log[|log| - 1])) - lastRun + 1 < w <= WeekOf(Ordinal(log[|log| - 1])) ==>
        SingleDay(Days(log), w)
  {
    hide Ordinal, WeekOf, Days, Run, Weeks, SingleDay;
    WeeklyTraceKept(log);
    var current, w := Run(log).weeklyCurrent, WeekOf(Ordinal(log[|log| - 1]));
    assert current <= lastRun;
    if current < lastRun {
      assert w - current in Weeks(Days(log));
      assert !SingleDay(Days(log), w - current + 1);
    }
  }

  /** A streak that the rules for the weekly counter give after some of the plays. */
  ghost predicate TracedSomewhere(log: seq<Date>, streak: int)
    requires ValidLog(log)
  {
    exists k :: 1 <= k <= |log| && ValidLog(log[..k]) && WeeklyTrace(Days(log[..k]), Ordinal(log[k - 1]), streak)
  }

  /** The best weekly streak is the longest of the streaks traced after each play. */
  ghost predicate LongestTraced(log: seq<Date>, best: int)
    requires ValidLog(log)
  {
    TracedSomewhere(log, best) && forall streak :: TracedSomewhere(log, streak) ==> streak <= best
  }

  lemma TraceIsUnique(days: set<int>, last: int, a: int, b: int)
    requires WeeklyTrace(days, last, a) && WeeklyTrace(days, last, b)
    ensures a == b
  {
    hide WeekOf, Weeks, SingleDay;
    ShorterTraceEnds(days, last, a, b);
    ShorterTraceEnds(days, last, b, a);
  }

  lemma ShorterTraceEnds(days: set<int>, last: int, a: int, b: int)
    requires WeeklyTrace(days, last, a) && WeeklyTrace(days, last, b)
    ensures a >= b
  {
    hide WeekOf, Weeks, SingleDay;
    if a < b { LongerTraceGoesOn(days, last, a, b); }
  }

  lemma LongerTraceGoesOn(days: set<int>, last: int, a: int, b: int)
    requires WeeklyTrace(days, last, b) && 1 <= a < b
    ensures WeekOf(last) - a in Weeks(days) && SingleDay(days, WeekOf(last) - a + 1)
  {
    hide WeekOf, Weeks, SingleDay;
  }

  lemma WeeklyBestStep(log: seq<Date>)
    requires ValidLog(log) && |log| > 1
    ensures var before, after := Run(log[..|log| - 1]), Run(log);
      after.weeklyBest == if after.weeklyCurrent > before.weeklyBest then after.weeklyCurrent else before.weeklyBest
    ensures Run(log[..|log| - 1]).weeklyCurrent >= 1
  {
    hide Ordinal, AreAdjacentWeeks, WeekOf, Days, Weeks, WeeklyTrace, DailyStep;
    var n := |log| - 1;
    WeeklyTraceKept(log[..n]);
    LastUpdateIsLastPlay(log[..n]);
    DailyKeepsWeekly(Run(log[..n]), log[n]);
    TraceIsRun(Days(log[..n]), Ordinal(log[n - 1]), Run(log[..n]).weeklyCurrent);
  }

  lemma {:induction false} WeeklyBestIsLongestTraced(log: seq<Date>)
    requires ValidLog(log) && log != []
    ensures LongestTraced(log, Run(log).weeklyBest)
  {
    hide Ordinal, WeekOf, Days, Weeks, WeeklyTrace, Run;
    var n := |log| - 1;
    var st := Run(log);
    assert log[..n + 1] == log;
    WeeklyTraceKept(log);
    if n == 0 {
      FirstBest(log);
    } else {
      WeeklyBestIsLongestTraced(log[..n]);
      WeeklyBestStep(log);
      TracedBefore(log, Run(log[..n]).weeklyBest);
    }
    assert TracedSomewhere(log, st.weeklyCurrent);
    forall streak | TracedSomewhere(log, streak) ensures streak <= st.weeklyBest {
      if !TracedSomewhere(log[..n], streak) {
        TracedLast(log, streak);
        TraceIsUnique(Days(log), Ordinal(log[n]), streak, st.weeklyCurrent);
      }
    }
  }

  lemma TracedLast(log: seq<Date>, streak: int)
    requires ValidLog(log) && log != [] && TracedSomewhere(log, streak)
    ensures TracedSomewhere(log[..|log| - 1], streak) || WeeklyTrace(Days(log), Ordinal(log[|log| - 1]), streak)
  {
    hide Ordinal, WeekOf, Days, Weeks, WeeklyTrace, Run;
    var before := log[..|log| - 1];
    var k :| 1 <= k <= |log| && ValidLog(log[..k]) && WeeklyTrace(Days(log[..k]), Ordinal(log[k - 1]), streak);
    if k == |log| {
      assert log[..k] == log;
    } else {
      assert before[..k] == log[..k] && before[k - 1] == log[k - 1];
    }
  }

  lemma FirstBest(log: seq<Date>)
    requires ValidLog(log) && |log| == 1
    ensures Run(log).weeklyBest == Run(log).weeklyCurrent == 1
  {
    hide Ordinal, AreAdjacentWeeks;
    assert Run(log[..0]) == FRESH;
  }

  lemma TracedBefore(log: seq<Date>, streak: int)
    requires ValidLog(log) && |log| > 1 && TracedSomewhere(log[..|log| - 1], streak)
    ensures TracedSomewhere(log, streak)
  {
    hide Ordinal, WeekOf, Days, Weeks, WeeklyTrace;
    var before := log[..|log| - 1];
    var k :| 1 <= k <= |before| && ValidLog(before[..k]) &&
      WeeklyTrace(Days(before[..k]), Ordinal(before[k - 1]), streak);
    assert before[..k] == log[..k] && before[k - 1] == log[k - 1];
  }
}
