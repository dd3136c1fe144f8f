/** The statistics engine: aggregates over a participant's daily records, the day-by-day
    streak walk over the elapsed part of a challenge window, the `M:SS` duration format and
    the improvement metric. Dates are day numbers and `today` is a parameter. */
module PlankStats {

  import opened Common
  import opened Text
  import opened Sorting

  /** One daily record: the day it was made for and its duration in whole seconds. */
  datatype Plank = Plank(date: Day, duration: nat)

  datatype Stats = Stats(
    daysCompleted: int,
    totalDays: int,
    currentStreak: int,
    longestStreak: int,
    totalTime: int,
    averageTime: int,
    longestPlank: int,
    completionRate: int)

  // ---------------------------------------------------------------------------------------
  // Aggregates. They count every record: duplicate dates and dates outside the window too.
  // ---------------------------------------------------------------------------------------

  /** The sum of all durations. */
  function TotalTime(planks: seq<Plank>): nat
  {
    if planks == [] then 0 else planks[0].duration + TotalTime(planks[1..])
  }

  /** The largest duration, 0 for no records. */
  function LongestPlank(planks: seq<Plank>): (m: nat)
    ensures forall p :: p in planks ==> p.duration <= m
    ensures planks != [] ==> exists p :: p in planks && p.duration == m
    ensures planks == [] ==> m == 0
  {
    if planks == [] then 0
    else
      var rest := LongestPlank(planks[1..]);
      assert forall p :: p in planks ==> p == planks[0] || p in planks[1..];
      if planks[0].duration >= rest then planks[0].duration else rest
  }

  /** The mean duration rounded down, 0 for no records. */
  function AverageTime(planks: seq<Plank>): int
  {
    if |planks| > 0 then TotalTime(planks) / |planks| else 0
  }

  /** The last walked day: today, or the end of the window when that is earlier. */
  function EffectiveEnd(endDate: Day, today: Day): Day
  {
    if today < endDate then today else endDate
  }

  /** Days from the start to the effective end, both counted; zero or negative before the start. */
  function TotalDays(startDate: Day, endDate: Day, today: Day): int
  {
    EffectiveEnd(endDate, today) - startDate + 1
  }

  /** `floor(daysCompleted / totalDays * 100)` in exact arithmetic, 0 unless totalDays > 0. */
  function CompletionRate(daysCompleted: int, totalDays: int): int
  {
    if totalDays > 0 then (100 * daysCompleted) / totalDays else 0
  }

  // ---------------------------------------------------------------------------------------
  // Streaks, in closed form. The walk only ever uses the SET of record dates.
  // ---------------------------------------------------------------------------------------

  function RecordDates(planks: seq<Plank>): set<Day>
  {
    set p | p in planks :: p.date
  }

  /** The number of consecutive recorded days ending at day d, counting no day before start. */
  function RunEndingAt(dates: set<Day>, start: Day, d: Day): nat
    decreases d - start
  {
    if d < start || d !in dates then 0 else 1 + RunEndingAt(dates, start, d - 1)
  }

  /** The longest run of recorded days ending anywhere in [start, last]. */
  function LongestRun(dates: set<Day>, start: Day, last: Day): nat
    decreases last - start
  {
    if last < start then 0
    else
      var before := LongestRun(dates, start, last - 1);
      var here := RunEndingAt(dates, start, last);
      if here > before then here else before
  }

  /** The running streak once the walk has passed day d: an unrecorded day d only resets it
      when d is before today, so an unrecorded today keeps yesterday's run. */
  function TempStreakAfter(dates: set<Day>, start: Day, d: Day, today: Day): nat
  {
    if d in dates || d < today then RunEndingAt(dates, start, d) else RunEndingAt(dates, start, d - 1)
  }

  /** The statistics the engine reports, each field in closed form. */
  function StatsOf(planks: seq<Plank>, startDate: Day, endDate: Day, today: Day): Stats
  {
    var dates := RecordDates(planks);
    var last := EffectiveEnd(endDate, today);
    Stats(
      daysCompleted := |planks|,
      totalDays := TotalDays(startDate, endDate, today),
      currentStreak := TempStreakAfter(dates, startDate, last, today),
      longestStreak := LongestRun(dates, startDate, last),
      totalTime := TotalTime(planks),
      averageTime := AverageTime(planks),
      longestPlank := LongestPlank(planks),
      completionRate := CompletionRate(|planks|, TotalDays(startDate, endDate, today)))
  }

  /** `calculatePlankStats`, with the clock reading passed in as `today`. The walk visits every
      day from startDate to min(today, endDate) once, in ascending order. */
  method CalculatePlankStats(planks: seq<Plank>, startDate: Day, endDate: Day, today: Day)
    returns (stats: Stats)
    ensures stats == StatsOf(planks, startDate, endDate, today)
  {
    var effectiveEnd := if today < endDate then today else endDate;
    var totalDays := effectiveEnd - startDate + 1;

    var daysCompleted := |planks|;
    var totalTime := TotalTime(planks);
    var averageTime := if daysCompleted > 0 then totalTime / daysCompleted else 0;
    var longestPlank := if daysCompleted > 0 then LongestPlank(planks) else 0;
    var completionRate := if totalDays > 0 then (100 * daysCompleted) / totalDays else 0;

    var currentStreak := 0;
    var longestStreak := 0;
    var tempStreak := 0;
    var completedDates := RecordDates(planks);

    var current := startDate;
    var streakBroken := false;
    while current <= effectiveEnd
      invariant startDate <= current
      invariant current <= effectiveEnd + 1 || current == startDate
      invariant tempStreak == TempStreakAfter(completedDates, startDate, current - 1, today)
      invariant longestStreak == LongestRun(completedDates, startDate, current - 1)
      invariant streakBroken ==> tempStreak == 0
      decreases effectiveEnd - current
    {
      if current in completedDates {
        tempStreak := tempStreak + 1;
        if tempStreak > longestStreak {
          longestStreak := tempStreak;
        }
        streakBroken := false;
      } else {
        // only a day that has passed breaks the streak
        if current < today {
          tempStreak := 0;
          streakBroken := true;
        }
      }
      current := current + 1;
    }

    currentStreak := if streakBroken then 0 else tempStreak;

    if today >= startDate && today <= endDate && today !in completedDates {
      // the streak survives an unrecorded today only through a record yesterday
      if (today - 1) !in completedDates {
        currentStreak := 0;
      }
    }

    stats := Stats(daysCompleted, totalDays, currentStreak, longestStreak,
                   totalTime, averageTime, longestPlank, completionRate);
  }

  // ---------------------------------------------------------------------------------------
  // Facts about runs.
  // ---------------------------------------------------------------------------------------

  /** Every day of a recorded block lies in the date set. */
  ghost predicate RecordedBlock(dates: set<Day>, lo: Day, hi: Day)
  {
    forall x :: lo <= x <= hi ==> x in dates
  }

  /** The run ending at d is a recorded block inside [start, d]. */
  lemma {:induction false} RunIsBlock(dates: set<Day>, start: Day, d: Day)
    ensures RunEndingAt(dates, start, d) <= Max(d - start + 1, 0)
    ensures RecordedBlock(dates, d - RunEndingAt(dates, start, d) + 1, d)
    decreases d - start
  {
    if d >= start && d in dates {
      RunIsBlock(dates, start, d - 1);
    }
  }

  /** A recorded block inside [start, d] that ends at d is no longer than the run ending at d. */
  lemma {:induction false} BlockWithinRun(dates: set<Day>, start: Day, lo: Day, d: Day)
    requires start <= lo && RecordedBlock(dates, lo, d)
    ensures d - lo + 1 <= RunEndingAt(dates, start, d)
    decreases d - lo
  {
    if lo <= d {
      assert d in dates;
      BlockWithinRun(dates, start, lo, d - 1);
    }
  }

  /** An unrecorded day x caps every run ending at or after it. */
  lemma {:induction false} RunStopsAtGap(dates: set<Day>, start: Day, x: Day, d: Day)
    requires x !in dates && x <= d
    ensures RunEndingAt(dates, start, d) <= d - x
    decreases d - x
  {
    if x < d && d >= start && d in dates {
      RunStopsAtGap(dates, start, x, d - 1);
    }
  }

  lemma {:induction false} RunBelowLongest(dates: set<Day>, start: Day, d: Day, last: Day)
    requires d <= last
    ensures RunEndingAt(dates, start, d) <= LongestRun(dates, start, last)
    decreases last - start
  {
    if d < last && last >= start {
      RunBelowLongest(dates, start, d, last - 1);
    }
  }

  lemma {:induction false} LongestRunAttained(dates: set<Day>, start: Day, last: Day)
    ensures last < start ==> LongestRun(dates, start, last) == 0
    ensures last >= start ==>
      exists d :: start <= d <= last && RunEndingAt(dates, start, d) == LongestRun(dates, start, last)
    decreases last - start
  {
    if last >= start {
      var before, here := LongestRun(dates, start, last - 1), RunEndingAt(dates, start, last);
      if here > before || last == start {
        assert RunEndingAt(dates, start, last) == LongestRun(dates, start, last);
      } else {
        LongestRunAttained(dates, start, last - 1);
        var d :| start <= d <= last - 1 && RunEndingAt(dates, start, d) == before;
        assert RunEndingAt(dates, start, d) == LongestRun(dates, start, last);
      }
    }
  }

  /** `longestStreak` is exactly the length of the longest block of consecutive recorded days
      inside the walked days [start, last]. */
  lemma LongestRunIsLongestBlock(dates: set<Day>, start: Day, last: Day)
    ensures forall lo, hi :: start <= lo && hi <= last && RecordedBlock(dates, lo, hi) ==>
      hi - lo + 1 <= LongestRun(dates, start, last)
    ensures exists lo, hi ::
      (start <= lo && hi <= Max(last, start - 1) &&
       hi - lo + 1 == LongestRun(dates, start, last) && RecordedBlock(dates, lo, hi))
  {
    forall lo, hi | start <= lo && hi <= last && RecordedBlock(dates, lo, hi)
      ensures hi - lo + 1 <= LongestRun(dates, start, last)
    {
      if lo <= hi {
        BlockWithinRun(dates, start, lo, hi);
        RunBelowLongest(dates, start, hi, last);
      }
    }
    LongestRunAttained(dates, start, last);
    if last >= start {
      var d :| start <= d <= last && RunEndingAt(dates, start, d) == LongestRun(dates, start, last);
      RunIsBlock(dates, start, d);
      var lo := d - RunEndingAt(dates, start, d) + 1;
      assert start <= lo && RecordedBlock(dates, lo, d);
    } else {
      assert RecordedBlock(dates, start, start - 1);
    }
  }

  /** The days of [lo, hi). */
  function DayRange(lo: Day, hi: Day): (r: set<Day>)
    ensures forall x :: x in r <==> lo <= x < hi
    ensures |r| == Max(hi - lo, 0)
    decreases hi - lo
  {
    if hi <= lo then {} else DayRange(lo, hi - 1) + {hi - 1}
  }

  /** A recorded block has no more days than the date set. */
  lemma BlockBelowDateCount(dates: set<Day>, lo: Day, hi: Day)
    requires lo <= hi + 1 && RecordedBlock(dates, lo, hi)
    ensures hi - lo + 1 <= |dates|
  {
    SubsetSize(DayRange(lo, hi + 1), dates);
  }

  lemma SubsetSize(a: set<Day>, b: set<Day>)
    requires a <= b
    ensures |a| <= |b|
  {
    assert b == a + (b - a);
    assert a * (b - a) == {};
  }

  /** There are at most as many distinct record dates as records. */
  lemma {:induction false} RecordDatesBound(planks: seq<Plank>)
    ensures |RecordDates(planks)| <= |planks|
  {
    if planks != [] {
      RecordDatesBound(planks[1..]);
      assert RecordDates(planks) == RecordDates(planks[1..]) + {planks[0].date};
    }
  }

  /** Distinct dates, one per record: the date set is as large as the record list. */
  lemma {:induction false} RecordDatesDistinct(planks: seq<Plank>)
    requires forall i, j :: 0 <= i < j < |planks| ==> planks[i].date != planks[j].date
    ensures |RecordDates(planks)| == |planks|
  {
    if planks != [] {
      RecordDatesDistinct(planks[1..]);
      assert RecordDates(planks) == RecordDates(planks[1..]) + {planks[0].date};
      assert planks[0].date !in RecordDates(planks[1..]);
    }
  }

  // ---------------------------------------------------------------------------------------
  // Properties of the reported statistics.
  // ---------------------------------------------------------------------------------------

  /** The streak bounds: current <= longest <= elapsed days, and longest <= the number of
      distinct record dates <= the number of records. */
  lemma StreakBounds(planks: seq<Plank>, startDate: Day, endDate: Day, today: Day)
    ensures var s := StatsOf(planks, startDate, endDate, today);
      0 <= s.currentStreak <= s.longestStreak <= Max(s.totalDays, 0) &&
      s.longestStreak <= |RecordDates(planks)| <= s.daysCompleted
  {
    var dates, last := RecordDates(planks), EffectiveEnd(endDate, today);
    RunBelowLongest(dates, startDate, last, last);
    RunBelowLongest(dates, startDate, last - 1, last);
    LongestRunAttained(dates, startDate, last);
    if last >= startDate {
      var d :| startDate <= d <= last && RunEndingAt(dates, startDate, d) == LongestRun(dates, startDate, last);
      RunIsBlock(dates, startDate, d);
      BlockBelowDateCount(dates, d - RunEndingAt(dates, startDate, d) + 1, d);
    }
    RecordDatesBound(planks);
  }

  /** An unrecorded day that has fully passed inside the walk caps the current streak at the
      number of days walked after it. */
  lemma MissedDayCapsCurrentStreak(planks: seq<Plank>, startDate: Day, endDate: Day, today: Day, x: Day)
    requires startDate <= x < today && x <= EffectiveEnd(endDate, today)
    requires x !in RecordDates(planks)
    ensures StatsOf(planks, startDate, endDate, today).currentStreak <= EffectiveEnd(endDate, today) - x
  {
    var dates, last := RecordDates(planks), EffectiveEnd(endDate, today);
    RunStopsAtGap(dates, startDate, x, last);
    if x < last {
      RunStopsAtGap(dates, startDate, x, last - 1);
    }
  }

  /** With today inside the window and neither today nor yesterday recorded, there is no
      current streak. */
  lemma NoStreakWithoutTodayOrYesterday(planks: seq<Plank>, startDate: Day, endDate: Day, today: Day)
    requires startDate <= today <= endDate
    requires today !in RecordDates(planks) && today - 1 !in RecordDates(planks)
    ensures StatsOf(planks, startDate, endDate, today).currentStreak == 0
  {
  }

  /** An unrecorded today does not end a streak that reached yesterday. */
  lemma StreakSurvivesUnrecordedToday(planks: seq<Plank>, startDate: Day, endDate: Day, today: Day)
    requires startDate < today <= endDate
    requires today !in RecordDates(planks) && today - 1 in RecordDates(planks)
    ensures StatsOf(planks, startDate, endDate, today).currentStreak >= 1
  {
  }

  lemma {:induction false} MulMonotone(x: int, y: int, n: nat)
    ensures x <= y ==> x * n <= y * n
  {
    if n > 0 {
      MulMonotone(x, y, n - 1);
      assert x * n == x * (n - 1) + x && y * n == y * (n - 1) + y;
    }
  }

  lemma {:induction false} TotalTimeBelowLongest(planks: seq<Plank>)
    ensures TotalTime(planks) <= |planks| * LongestPlank(planks)
  {
    if planks != [] {
      var n, m, m' := |planks|, LongestPlank(planks), LongestPlank(planks[1..]);
      TotalTimeBelowLongest(planks[1..]);
      assert forall p :: p in planks[1..] ==> p in planks;
      SumStep(planks[0].duration, TotalTime(planks[1..]), m, m', n - 1);
    }
  }

  lemma SumStep(d: int, r: int, m: int, m': int, k: nat)
    requires d <= m && r <= k * m' && m' <= m
    ensures d + r <= (k + 1) * m
  {
    MulMonotone(m', m, k);
  }

  lemma DivBelow(t: nat, n: nat, m: int)
    requires n > 0 && t <= n * m
    ensures 0 <= t / n <= m
  {
    MulMonotone(m + 1, t / n, n);
  }

  /** The average lies between 0 and the longest record. */
  lemma AverageWithinLongest(planks: seq<Plank>)
    ensures 0 <= AverageTime(planks) <= LongestPlank(planks)
  {
    if |planks| > 0 {
      var t, n, m := TotalTime(planks), |planks|, LongestPlank(planks);
      TotalTimeBelowLongest(planks);
      DivBelow(t, n, m);
      assert AverageTime(planks) == t / n;
    }
  }

  lemma {:induction false} TotalTimeAppend(a: seq<Plank>, b: seq<Plank>)
    ensures TotalTime(a + b) == TotalTime(a) + TotalTime(b)
  {
    if a == [] {
      assert a + b == b;
    } else {
      assert (a + b)[1..] == a[1..] + b;
      TotalTimeAppend(a[1..], b);
    }
  }

  /** The sum of durations does not depend on the order of the records. */
  lemma {:induction false} TotalTimePermutation(a: seq<Plank>, b: seq<Plank>)
    requires multiset(a) == multiset(b)
    ensures TotalTime(a) == TotalTime(b)
    decreases |a|
  {
    if a != [] {
      var i := PermutationTail(a, b);
      TotalTimePermutation(a[1..], b[..i] + b[i + 1..]);
      TotalTimeRemove(b, i);
    }
  }

  lemma TotalTimeRemove(b: seq<Plank>, i: nat)
    requires i < |b|
    ensures TotalTime(b) == b[i].duration + TotalTime(b[..i] + b[i + 1..])
  {
    var pre, post := b[..i], b[i + 1..];
    assert b == pre + ([b[i]] + post);
    TotalTimeAppend(pre, [b[i]] + post);
    TotalTimeCons(b[i], post);
    TotalTimeAppend(pre, post);
  }

  lemma TotalTimeCons(p: Plank, s: seq<Plank>)
    ensures TotalTime([p] + s) == p.duration + TotalTime(s)
  {
    assert ([p] + s)[0] == p && ([p] + s)[1..] == s;
  }

  /** The statistics do not depend on the order in which the records arrive. */
  lemma StatsIgnoreOrder(a: seq<Plank>, b: seq<Plank>, startDate: Day, endDate: Day, today: Day)
    requires multiset(a) == multiset(b)
    ensures StatsOf(a, startDate, endDate, today) == StatsOf(b, startDate, endDate, today)
  {
    TotalTimePermutation(a, b);
    assert |a| == |multiset(a)| == |b|;
    assert forall p :: p in a <==> p in b by {
      forall p ensures p in a <==> p in b {
        assert p in a <==> p in multiset(a);
        assert p in b <==> p in multiset(b);
      }
    }
    assert RecordDates(a) == RecordDates(b);
  }

  lemma {:induction false} RunGrows(small: set<Day>, large: set<Day>, start: Day, d: Day)
    requires small <= large
    ensures RunEndingAt(small, start, d) <= RunEndingAt(large, start, d)
    decreases d - start
  {
    if d >= start && d in small {
      RunGrows(small, large, start, d - 1);
    }
  }

  lemma {:induction false} LongestRunGrows(small: set<Day>, large: set<Day>, start: Day, last: Day)
    requires small <= large
    ensures LongestRun(small, start, last) <= LongestRun(large, start, last)
    decreases last - start
  {
    if last >= start {
      LongestRunGrows(small, large, start, last - 1);
      RunGrows(small, large, start, last);
    }
  }

  /** Adding one record adds one completed day and its duration, and never lowers the
      completion rate or either streak. */
  lemma AddRecordMonotone(planks: seq<Plank>, p: Plank, startDate: Day, endDate: Day, today: Day)
    ensures var before, after := StatsOf(planks, startDate, endDate, today), StatsOf(planks + [p], startDate, endDate, today);
      after.daysCompleted == before.daysCompleted + 1 &&
      after.totalTime == before.totalTime + p.duration &&
      after.completionRate >= before.completionRate &&
      after.longestStreak >= before.longestStreak &&
      after.currentStreak >= before.currentStreak
  {
    TotalTimeAppend(planks, [p]);
    var small, large := RecordDates(planks), RecordDates(planks + [p]);
    assert small <= large;
    var last := EffectiveEnd(endDate, today);
    LongestRunGrows(small, large, startDate, last);
    RunGrows(small, large, startDate, last);
    RunGrows(small, large, startDate, last - 1);
    var t := TotalDays(startDate, endDate, today);
    if t > 0 {
      assert 100 * |planks| <= 100 * (|planks| + 1);
      DivMonotone(100 * |planks|, 100 * (|planks| + 1), t);
    }
    if last !in small && last in large && last >= today {
      RunGrows(small, large, startDate, last - 1);
      assert RunEndingAt(large, startDate, last) == 1 + RunEndingAt(large, startDate, last - 1) || last < startDate;
    }
  }

  lemma DivMonotone(a: int, b: int, d: nat)
    requires a <= b && d > 0
    ensures a / d <= b / d
  {
    MulMonotone(b / d + 1, a / d, d);
  }

  /** One record per day, all inside the elapsed part of the window: at most 100 percent. */
  lemma CompletionRateAtMost100(planks: seq<Plank>, startDate: Day, endDate: Day, today: Day)
    requires forall i, j :: 0 <= i < j < |planks| ==> planks[i].date != planks[j].date
    requires forall p :: p in planks ==> startDate <= p.date <= EffectiveEnd(endDate, today)
    ensures 0 <= StatsOf(planks, startDate, endDate, today).completionRate <= 100
  {
    var t := TotalDays(startDate, endDate, today);
    RecordDatesDistinct(planks);
    if t > 0 {
      var last := EffectiveEnd(endDate, today);
      SubsetSize(RecordDates(planks), DayRange(startDate, last + 1));
      assert |planks| <= t;
      DivBelow(100 * |planks|, t, 100);
    }
  }

  // ---------------------------------------------------------------------------------------
  // `formatDuration`: minutes unpadded, seconds padded to two digits.
  // ---------------------------------------------------------------------------------------

  function FormatDuration(seconds: nat): string
  {
    Digits(seconds / 60) + ":" + ZeroPad(Digits(seconds % 60), 2)
  }

  /** Reading the text back gives the seconds. */
  lemma FormatDurationRoundTrip(seconds: nat)
    ensures ParseClock(FormatDuration(seconds)) == Some(seconds)
  {
    var m, sec := seconds / 60, seconds % 60;
    var mins, secs := Digits(m), ZeroPad(Digits(sec), 2);
    ParseDigits(m);
    PaddedNumeral(sec, 2);
    TwoDigitsAtMost(sec);
    ParseClockFields(FormatDuration(seconds), mins, secs, m, sec);
    MinutesAndSeconds(seconds);
  }

  /** The minutes are not padded: the text starts with a zero exactly below one minute. */
  lemma FormatDurationMinutesUnpadded(seconds: nat)
    ensures (FormatDuration(seconds)[0] == '0') == (seconds < 60)
  {
    MinutesAndSeconds(seconds);
    assert FormatDuration(seconds)[0] == Digits(seconds / 60)[0];
  }

  /** Whole minutes and the remaining seconds make up the total. */
  lemma MinutesAndSeconds(seconds: nat)
    ensures 60 * (seconds / 60) + seconds % 60 == seconds && seconds % 60 < 60
    ensures seconds / 60 == 0 <==> seconds < 60
  {
  }

  // ---------------------------------------------------------------------------------------
  // `calculateImprovement`: compare the average of the earliest records with that of the
  // latest ones, sampled from the records sorted by date.
  // ---------------------------------------------------------------------------------------

  /** Sort key for ascending date order. */
  function EarlierFirst(p: Plank): int { -p.date }

  function ByDate(planks: seq<Plank>): seq<Plank>
  {
    SortDesc(planks, EarlierFirst)
  }

  /** `min(5, floor(n / 2))`. */
  function SampleSize(n: nat): nat
  {
    if n / 2 < 5 then n / 2 else 5
  }

  function FirstSample(planks: seq<Plank>): seq<Plank>
  {
    ByDate(planks)[..SampleSize(|planks|)]
  }

  function LastSample(planks: seq<Plank>): seq<Plank>
  {
    ByDate(planks)[|planks| - SampleSize(|planks|)..]
  }

  /** `Math.round(a / b)` for b > 0: the nearest integer, halves rounded up. */
  function RoundDiv(a: int, b: int): (r: int)
    requires b > 0
    ensures 2 * b * r - b <= 2 * a < 2 * b * r + b
  {
    (2 * a + b) / (2 * b)
  }

  /** `round(100 * (lastAverage - firstAverage) / firstAverage)`. Both averages divide a sample
      total by the same sample size, which cancels. */
  function Improvement(planks: seq<Plank>): int
  {
    if |planks| < 2 then 0
    else
      var sampleSize := SampleSize(|planks|);
      if sampleSize == 0 then 0
      else
        var first, last := TotalTime(FirstSample(planks)), TotalTime(LastSample(planks));
        if first == 0 then 0 else RoundDiv(100 * (last - first), first)
  }

  /** With two or more records the samples hold between one and five records each, do not
      overlap, and no record of the first sample is dated after one of the last. */
  lemma SamplesDisjoint(planks: seq<Plank>)
    requires |planks| >= 2
    ensures var k := SampleSize(|planks|); 1 <= k <= 5 && k + k <= |planks|
    ensures |FirstSample(planks)| == |LastSample(planks)| == SampleSize(|planks|)
    ensures forall p, q :: p in FirstSample(planks) && q in LastSample(planks) ==> p.date <= q.date
  {
    var s, k := ByDate(planks), SampleSize(|planks|);
    SortDescSorted(planks, EarlierFirst);
    forall p, q | p in FirstSample(planks) && q in LastSample(planks) ensures p.date <= q.date {
      var i :| 0 <= i < k && FirstSample(planks)[i] == p;
      var j :| 0 <= j < k && LastSample(planks)[j] == q;
      assert s[i] == p && s[|s| - k + j] == q;
      if i < |s| - k + j {
        assert EarlierFirst(s[i]) >= EarlierFirst(s[|s| - k + j]);
      }
    }
  }

  lemma RoundDivAtLeast(a: int, b: nat, q: int)
    requires b > 0 && a >= q * b
    ensures RoundDiv(a, b) >= q
  {
    MulMonotone(RoundDiv(a, b), q - 1, b);
  }

  lemma RoundDivAtMost(a: int, b: nat, q: int)
    requires b > 0 && a <= q * b
    ensures RoundDiv(a, b) <= q
  {
    MulMonotone(q + 1, RoundDiv(a, b), b);
  }

  /** The value of the metric once there are two records and a non-zero first sample. */
  lemma ImprovementValue(planks: seq<Plank>)
    requires |planks| >= 2 && TotalTime(FirstSample(planks)) > 0
    ensures Improvement(planks) ==
      RoundDiv(100 * (TotalTime(LastSample(planks)) - TotalTime(FirstSample(planks))), TotalTime(FirstSample(planks)))
  {
  }

  /** `calculateImprovement`: 0 with fewer than two records or an empty first sample, and
      otherwise the integer nearest to the percentage change from the first sample's average to
      the last one's (a half rounded up). */
  lemma ImprovementNearest(planks: seq<Plank>)
    ensures |planks| < 2 ==> Improvement(planks) == 0
    ensures |planks| >= 2 && TotalTime(FirstSample(planks)) == 0 ==> Improvement(planks) == 0
    ensures |planks| >= 2 && TotalTime(FirstSample(planks)) > 0 ==>
      var f: int, l: int, r := TotalTime(FirstSample(planks)), TotalTime(LastSample(planks)), Improvement(planks);
      2 * f * r - f <= 200 * (l - f) < 2 * f * r + f
  {
    if |planks| >= 2 && TotalTime(FirstSample(planks)) > 0 {
      ImprovementValue(planks);
    }
  }

  /** The metric never drops below -100 percent: durations are not negative. */
  lemma ImprovementAtLeastMinus100(planks: seq<Plank>)
    ensures Improvement(planks) >= -100
  {
    if |planks| >= 2 {
      var first: int, last: int := TotalTime(FirstSample(planks)), TotalTime(LastSample(planks));
      if first != 0 {
        ImprovementValue(planks);
        RoundDivAtLeast(100 * (last - first), first, -100);
      }
    }
  }

  /** A later sample at least as long as the earlier one gives a non-negative improvement,
      a shorter one a non-positive improvement. */
  lemma ImprovementSign(planks: seq<Plank>)
    requires |planks| >= 2 && TotalTime(FirstSample(planks)) > 0
    ensures TotalTime(LastSample(planks)) >= TotalTime(FirstSample(planks)) ==> Improvement(planks) >= 0
    ensures TotalTime(LastSample(planks)) <= TotalTime(FirstSample(planks)) ==> Improvement(planks) <= 0
  {
    var first: int, last: int := TotalTime(FirstSample(planks)), TotalTime(LastSample(planks));
    ImprovementValue(planks);
    if last >= first {
      RoundDivAtLeast(100 * (last - first), first, 0);
    }
    if last <= first {
      RoundDivAtMost(100 * (last - first), first, 0);
    }
  }

  /** Doubling the sampled average is an improvement of exactly 100 percent. */
  lemma ImprovementOfDoubling(planks: seq<Plank>)
    requires |planks| >= 2 && TotalTime(FirstSample(planks)) > 0
    requires TotalTime(LastSample(planks)) == 2 * TotalTime(FirstSample(planks))
    ensures Improvement(planks) == 100
  {
    var first := TotalTime(FirstSample(planks));
    ImprovementValue(planks);
    RoundDivAtLeast(100 * first, first, 100);
    RoundDivAtMost(100 * first, first, 100);
  }

  lemma {:induction false} TotalTimeOfSteady(s: seq<Plank>, c: nat)
    requires forall p :: p in s ==> p.duration == c
    ensures TotalTime(s) == |s| * c
  {
    if s != [] {
      var t := s[1..];
      assert s[0] in s;
      assert forall p :: p in t ==> p in s;
      TotalTimeOfSteady(t, c);
      assert |s| * c == c + |t| * c;
    }
  }

  /** Records that all last equally long show no improvement. */
  lemma ImprovementOfSteadyRecords(planks: seq<Plank>, c: nat)
    requires forall p :: p in planks ==> p.duration == c
    ensures Improvement(planks) == 0
  {
    if |planks| >= 2 {
      var s, k := ByDate(planks), SampleSize(|planks|);
      forall p | p in s ensures p.duration == c {
        assert p in multiset(s);
      }
      SamplesDisjoint(planks);
      assert forall p :: p in FirstSample(planks) ==> p in s;
      assert forall p :: p in LastSample(planks) ==> p in s;
      TotalTimeOfSteady(FirstSample(planks), c);
      TotalTimeOfSteady(LastSample(planks), c);
      var first: int := TotalTime(FirstSample(planks));
      assert TotalTime(LastSample(planks)) == first;
      if first > 0 {
        ImprovementValue(planks);
        RoundDivAtLeast(0, first, 0);
        RoundDivAtMost(0, first, 0);
      }
    }
  }
}
