/** The Analytics screen (src/pages/Analytics.tsx): a weekly rollup computed
    from seven daily buckets and a list of per-goal figures. Everything here
    is derived on the fly; nothing is stored. */
module Analytics {
  import opened Percent

  /** One day's bucket: tasks completed out of tasks planned. */
  datatype DayStats = DayStats(day: string, completed: nat, total: nat)

  /** One goal's card. `progress`, `streak` and `trend` are given constants. */
  datatype GoalStats = GoalStats(
    id: string,
    title: string,
    progress: nat,
    completedTasks: nat,
    totalTasks: nat,
    streak: nat,
    trend: string)

  function WeeklyData(): seq<DayStats> {
    [ DayStats("Mon", 3, 5), DayStats("Tue", 4, 6), DayStats("Wed", 2, 4),
      DayStats("Thu", 5, 5), DayStats("Fri", 3, 7), DayStats("Sat", 1, 3),
      DayStats("Sun", 4, 4) ]
  }

  function GoalStatsData(): seq<GoalStats> {
    [ GoalStats("1", "Learn TypeScript", 65, 8, 12, 5, "+12%"),
      GoalStats("2", "Build Workout Habit", 40, 6, 15, 3, "+8%"),
      GoalStats("3", "Read 2 Books per Month", 80, 16, 20, 12, "+25%") ]
  }

  function Completed(d: DayStats): nat { d.completed }

  function Total(d: DayStats): nat { d.total }

  /** `days.reduce((sum, day) => sum + field(day), 0)`: a left fold. */
  function Sum(days: seq<DayStats>, field: DayStats -> nat): (r: nat)
    ensures forall i :: 0 <= i < |days| ==> field(days[i]) <= r
    ensures r == 0 <==> forall i :: 0 <= i < |days| ==> field(days[i]) == 0
  {
    if days == [] then 0 else Sum(days[..|days| - 1], field) + field(days[|days| - 1])
  }

  /** Sums split over any cut of the days. */
  lemma {:induction false} SumConcat(a: seq<DayStats>, b: seq<DayStats>, field: DayStats -> nat)
    ensures Sum(a + b, field) == Sum(a, field) + Sum(b, field)
  {
    if b == [] {
      assert a + b == a;
    } else {
      assert (a + b)[..|a + b| - 1] == a + b[..|b| - 1];
      SumConcat(a, b[..|b| - 1], field);
    }
  }

  /** Summing a field that is pointwise no larger gives no larger a total. */
  lemma {:induction false} SumMono(days: seq<DayStats>, f: DayStats -> nat, g: DayStats -> nat)
    requires forall i :: 0 <= i < |days| ==> f(days[i]) <= g(days[i])
    ensures Sum(days, f) <= Sum(days, g)
  {
    if days != [] {
      SumMono(days[..|days| - 1], f, g);
    }
  }

  /** `totalCompleted`: no day completed more, and it is 0 only when no day
      completed anything. */
  function TotalCompleted(days: seq<DayStats>): (r: nat)
    ensures forall i :: 0 <= i < |days| ==> days[i].completed <= r
    ensures r == 0 <==> forall i :: 0 <= i < |days| ==> days[i].completed == 0
  {
    Sum(days, Completed)
  }

  /** `totalTasks`: no day planned more, and it is 0 only when no day planned
      anything. */
  function TotalTasks(days: seq<DayStats>): (r: nat)
    ensures forall i :: 0 <= i < |days| ==> days[i].total <= r
    ensures r == 0 <==> forall i :: 0 <= i < |days| ==> days[i].total == 0
  {
    Sum(days, Total)
  }

  /** A day whose completed count does not exceed its total. */
  predicate Consistent(d: DayStats) {
    d.completed <= d.total
  }

  /** When every day is consistent, so is the week. */
  lemma WeekConsistent(days: seq<DayStats>)
    requires forall i :: 0 <= i < |days| ==> Consistent(days[i])
    ensures TotalCompleted(days) <= TotalTasks(days)
  {
    SumMono(days, Completed, Total);
  }

  /** `weeklyCompletionRate`: `Math.round(totalCompleted / totalTasks * 100)`;
      an empty week divides 0 by 0 and is `NaN`. */
  function WeeklyCompletionRate(days: seq<DayStats>): (r: JsNumber)
    ensures var c, t := TotalCompleted(days), TotalTasks(days);
      t > 0 ==> r.Finite? && 2 * t * r.value <= 200 * c + t < 2 * t * r.value + 2 * t
    ensures days == [] ==> r.NaN?
  {
    RoundedRatioPercent(TotalCompleted(days), TotalTasks(days))
  }

  /** With tasks planned, the weekly rate is the rounded share of completed
      tasks, and it lies in 0..100 when every day is consistent. */
  lemma WeeklyCompletionRateBounds(days: seq<DayStats>)
    requires TotalTasks(days) > 0
    requires forall i :: 0 <= i < |days| ==> Consistent(days[i])
    ensures WeeklyCompletionRate(days).Finite?
    ensures 0 <= WeeklyCompletionRate(days).value <= 100
  {
    WeekConsistent(days);
    RoundedPercentAtMost100(TotalCompleted(days), TotalTasks(days));
  }

  /** `dailyRate`: `Math.round(day.completed / day.total * 100)`. */
  function DailyRate(d: DayStats): (r: JsNumber)
    ensures d.total > 0 ==> r.Finite? && 2 * d.total * r.value <= 200 * d.completed + d.total < 2 * d.total * r.value + 2 * d.total
    ensures d.total > 0 && Consistent(d) ==> 0 <= r.value <= 100
    ensures d.total == 0 ==> (r.NaN? <==> d.completed == 0)
  {
    RoundedRatioPercent(d.completed, d.total)
  }

  /** The largest streak of a non-empty list of goals. */
  function MaxStreak(stats: seq<GoalStats>): (m: nat)
    requires |stats| > 0
    ensures forall i :: 0 <= i < |stats| ==> stats[i].streak <= m
    ensures exists i :: 0 <= i < |stats| && stats[i].streak == m
  {
    if |stats| == 1 then stats[0].streak
    else
      var rest := MaxStreak(stats[1..]);
      if stats[0].streak >= rest then stats[0].streak else rest
  }

  /** `bestStreak`: `Math.max(...goalStats.map(g => g.streak))`, which is
      `-Infinity` when there are no goals. */
  function BestStreak(stats: seq<GoalStats>): (r: JsNumber)
    ensures r.Finite? <==> |stats| > 0
    ensures |stats| == 0 ==> r.NegativeInfinity?
    ensures r.Finite? ==> forall i :: 0 <= i < |stats| ==> stats[i].streak <= r.value
    ensures r.Finite? ==> exists i :: 0 <= i < |stats| && stats[i].streak == r.value
  {
    if |stats| == 0 then NegativeInfinity else Finite(MaxStreak(stats))
  }

  /** The "Active Goals" figure: one per goal card. It is 0 exactly when the
      best streak has no goal to come from. */
  function ActiveGoalsCount(stats: seq<GoalStats>): (n: nat)
    ensures n == 0 <==> BestStreak(stats).NegativeInfinity?
    ensures n > 0 <==> BestStreak(stats).Finite?
  {
    |stats|
  }

  /** The week's totals, summed day by day. */
  lemma WeekSums(days: seq<DayStats>)
    requires days == WeeklyData()
    ensures TotalCompleted(days) == 22 && TotalTasks(days) == 34
  {
    var p := [0, 3, 7, 9, 14, 17, 18, 22];
    var q := [0, 5, 11, 15, 20, 27, 30, 34];
    for k := 0 to 7
      invariant Sum(days[..k], Completed) == p[k]
      invariant Sum(days[..k], Total) == q[k]
    {
      assert days[..k + 1][..k] == days[..k];
    }
    assert days[..7] == days;
  }

  /** The figures the screen shows for its data: 22 of 34 tasks, a 65% rate
      (the number the first highlight quotes), a best streak of 12, three
      active goals; every day is consistent and every daily rate lies in
      0..100. */
  lemma ShownFigures()
    ensures TotalCompleted(WeeklyData()) == 22 && TotalTasks(WeeklyData()) == 34
    ensures WeeklyCompletionRate(WeeklyData()) == Finite(65)
    ensures BestStreak(GoalStatsData()) == Finite(12)
    ensures ActiveGoalsCount(GoalStatsData()) == 3
    ensures forall i :: 0 <= i < |WeeklyData()| ==>
      DailyRate(WeeklyData()[i]).Finite? && 0 <= DailyRate(WeeklyData()[i]).value <= 100
  {
    var days := WeeklyData();
    WeekSums(days);
    RoundedPercentUnique(22, 34, 65);
    var stats := GoalStatsData();
    assert MaxStreak(stats[1..]) == 12 by {
      assert stats[1..][1..] == [stats[2]];
    }
  }
}
