/**
 * The computations the dashboard page (app/routes/dashboard.tsx) performs on
 * what its loader fetched: the last week's logs, per-zone weekly totals and
 * their shares, today's planned workout, and for each recent log its primary
 * zone and the zone of its average heart rate, with the guards that decide
 * which badges are shown. The clock is a parameter: today's weekday and the
 * one-week cutoff timestamp.
 */
module Dashboard {
  import opened JsBuiltins
  import opened HeartRate

  /** A workout log row: date is a timestamp, missing values are None (null in the row). */
  datatype WorkoutLog = WorkoutLog(
    date: int,
    zone1Duration: Option<int>, zone2Duration: Option<int>, zone3Duration: Option<int>,
    zone4Duration: Option<int>, zone5Duration: Option<int>,
    avgHeartRate: Option<int>)

  /** `duration || 0`: a missing duration counts as 0. */
  function DurationOrZero(d: Option<int>): (r: int)
    ensures d.None? ==> r == 0
    ensures d.Some? ==> r == d.value
  {
    match d
    case None => 0
    case Some(v) => v
  }

  /** The time a log spent in one zone. */
  function ZoneDuration(log: WorkoutLog, zone: TrainingZone): int
  {
    DurationOrZero(
      if zone == 1 then log.zone1Duration
      else if zone == 2 then log.zone2Duration
      else if zone == 3 then log.zone3Duration
      else if zone == 4 then log.zone4Duration
      else log.zone5Duration)
  }

  /** No recorded zone duration is negative. */
  predicate NonNegativeDurations(log: WorkoutLog)
  {
    forall zone: TrainingZone :: ZoneDuration(log, zone) >= 0
  }

  /** The time a log spent in all five zones together. */
  function LogZoneTime(log: WorkoutLog): int
  {
    ZoneDuration(log, 1) + ZoneDuration(log, 2) + ZoneDuration(log, 3) + ZoneDuration(log, 4) + ZoneDuration(log, 5)
  }

  // ---------------------------------------------------------------------------
  // Which logs are looked at
  // ---------------------------------------------------------------------------

  /** Dates never increase along the sequence, as the loader's `orderBy: { date: "desc" }` returns them. */
  predicate NewestFirst(logs: seq<WorkoutLog>)
  {
    forall i, j :: 0 <= i <= j < |logs| ==> logs[j].date <= logs[i].date
  }

  /** The loader's `take: 5` over the user's logs, newest first. */
  function RecentWorkoutLogs(allNewestFirst: seq<WorkoutLog>): (r: seq<WorkoutLog>)
    ensures |r| == if |allNewestFirst| < 5 then |allNewestFirst| else 5
    ensures r == allNewestFirst[..|r|]
  {
    if |allNewestFirst| <= 5 then allNewestFirst else allNewestFirst[..5]
  }

  /** Whether a log's date is at or after the one-week cutoff. */
  predicate InWeek(cutoff: int, log: WorkoutLog)
  {
    log.date >= cutoff
  }

  /**
   * thisWeekLogs keeps exactly the recent logs dated at or after the cutoff,
   * in their original order, and no more than there are.
   */
  function ThisWeekLogs(recent: seq<WorkoutLog>, cutoff: int): (r: seq<WorkoutLog>)
    ensures |r| <= |recent|
    ensures forall i :: 0 <= i < |r| ==> r[i] in recent && r[i].date >= cutoff
    ensures forall j :: 0 <= j < |recent| && recent[j].date >= cutoff ==> recent[j] in r
  {
    Filter(recent, log => InWeek(cutoff, log))
  }

  /** Filtering a split sequence filters each part and keeps their order. */
  lemma ThisWeekLogsKeepsOrder(older: seq<WorkoutLog>, newer: seq<WorkoutLog>, cutoff: int)
    ensures ThisWeekLogs(older + newer, cutoff) == ThisWeekLogs(older, cutoff) + ThisWeekLogs(newer, cutoff)
  {
    FilterConcat(older, newer, log => InWeek(cutoff, log));
  }

  /** With logs newest first, this week's logs are a prefix of them. */
  lemma ThisWeekLogsIsPrefix(recent: seq<WorkoutLog>, cutoff: int)
    requires NewestFirst(recent)
    ensures var week := ThisWeekLogs(recent, cutoff);
            |week| <= |recent| && week == recent[..|week|]
  {
    FilterOfDownwardClosed(recent, log => InWeek(cutoff, log));
  }

  /** When the newest log is older than the cutoff, so are all of them. */
  lemma {:induction false} NoneInWeek(recent: seq<WorkoutLog>, cutoff: int)
    requires NewestFirst(recent) && recent != [] && recent[0].date < cutoff
    ensures ThisWeekLogs(recent, cutoff) == []
  {
    if |recent| > 1 {
      var rest := recent[1..];
      assert NewestFirst(rest);
      assert rest[0].date <= recent[0].date;
      NoneInWeek(rest, cutoff);
    }
  }

  // ---------------------------------------------------------------------------
  // Weekly totals
  // ---------------------------------------------------------------------------

  /**
   * `logs.reduce((sum, log) => sum + (log.zoneKDuration || 0), 0)`, folding
   * from the left; with no negative duration the total is non-negative.
   */
  function ZoneTotal(logs: seq<WorkoutLog>, zone: TrainingZone): (r: int)
    ensures (forall i :: 0 <= i < |logs| ==> NonNegativeDurations(logs[i])) ==> r >= 0
  {
    if logs == [] then 0
    else ZoneTotal(logs[..|logs| - 1], zone) + ZoneDuration(logs[|logs| - 1], zone)
  }

  /** weeklyZoneTotals. */
  datatype ZoneTotals = ZoneTotals(zone1: int, zone2: int, zone3: int, zone4: int, zone5: int)
  {
    /** totalTrainingTime: the sum of the five totals. */
    function Total(): int
    {
      zone1 + zone2 + zone3 + zone4 + zone5
    }

    function Zone(zone: TrainingZone): int
    {
      if zone == 1 then zone1 else if zone == 2 then zone2 else if zone == 3 then zone3
      else if zone == 4 then zone4 else zone5
    }
  }

  /** weeklyZoneTotals, whose five totals add up to the time of all the week's logs in all zones. */
  function WeeklyZoneTotals(weekLogs: seq<WorkoutLog>): (r: ZoneTotals)
    ensures r.Total() == SumOfLogTimes(weekLogs)
  {
    TotalIsSumOfLogTimes(weekLogs);
    ZoneTotals(ZoneTotal(weekLogs, 1), ZoneTotal(weekLogs, 2), ZoneTotal(weekLogs, 3),
               ZoneTotal(weekLogs, 4), ZoneTotal(weekLogs, 5))
  }

  /** The total time of each log, added up. */
  function SumOfLogTimes(logs: seq<WorkoutLog>): int
  {
    if logs == [] then 0 else SumOfLogTimes(logs[..|logs| - 1]) + LogZoneTime(logs[|logs| - 1])
  }

  /** A zone's weekly total is additive over a split of the logs: the fold is a plain sum. */
  lemma {:induction false} ZoneTotalAppend(a: seq<WorkoutLog>, b: seq<WorkoutLog>, zone: TrainingZone)
    ensures ZoneTotal(a + b, zone) == ZoneTotal(a, zone) + ZoneTotal(b, zone)
  {
    if b == [] {
      assert a + b == a;
    } else {
      var n := |b| - 1;
      assert (a + b)[..|a + b| - 1] == a + b[..n];
      ZoneTotalAppend(a, b[..n], zone);
    }
  }

  /** A single log contributes exactly its own duration in that zone. */
  lemma ZoneTotalOfOne(log: WorkoutLog, zone: TrainingZone)
    ensures ZoneTotal([log], zone) == ZoneDuration(log, zone)
  {
    assert [log][..0] == [];
  }

  /** The five zone totals add up to the time of all the logs in all zones. */
  lemma {:induction false} TotalIsSumOfLogTimes(weekLogs: seq<WorkoutLog>)
    ensures ZoneTotal(weekLogs, 1) + ZoneTotal(weekLogs, 2) + ZoneTotal(weekLogs, 3) + ZoneTotal(weekLogs, 4)
            + ZoneTotal(weekLogs, 5) == SumOfLogTimes(weekLogs)
  {
    if weekLogs != [] {
      TotalIsSumOfLogTimes(weekLogs[..|weekLogs| - 1]);
    }
  }

  /** With no negative duration, each weekly zone total lies between 0 and totalTrainingTime. */
  lemma WeeklyTotalsBounded(weekLogs: seq<WorkoutLog>)
    requires forall i :: 0 <= i < |weekLogs| ==> NonNegativeDurations(weekLogs[i])
    ensures var t := WeeklyZoneTotals(weekLogs);
            && 0 <= t.zone1 <= t.Total() && 0 <= t.zone2 <= t.Total() && 0 <= t.zone3 <= t.Total()
            && 0 <= t.zone4 <= t.Total() && 0 <= t.zone5 <= t.Total()
  {
  }

  // ---------------------------------------------------------------------------
  // The weekly summary card
  // ---------------------------------------------------------------------------

  /**
   * What the weekly summary card shows: no logs this week; logs but no zone
   * time; or the totals with each zone's bar width in percent.
   */
  datatype WeeklySummary =
    | NoLogsThisWeek
    | NoZoneTime(total: int)
    | ZoneBreakdown(totals: ZoneTotals, total: int, widths: seq<real>)

  /** One bar width: `(zoneTotal / total) * 100`. */
  function Width(zoneTotal: int, total: int): real
    requires total > 0
  {
    (zoneTotal as real / total as real) * 100.0
  }

  function WeeklySummaryCard(recent: seq<WorkoutLog>, cutoff: int): (r: WeeklySummary)
    ensures r.NoLogsThisWeek? <==> ThisWeekLogs(recent, cutoff) == []
    ensures !r.NoLogsThisWeek? ==> (r.ZoneBreakdown? <==> WeeklyZoneTotals(ThisWeekLogs(recent, cutoff)).Total() > 0)
    ensures r.ZoneBreakdown? ==>
              && r.total > 0 && r.totals == WeeklyZoneTotals(ThisWeekLogs(recent, cutoff))
              && |r.widths| == 5
              && forall zone: TrainingZone :: r.widths[zone - 1] == Width(r.totals.Zone(zone), r.total)
  {
    var week := ThisWeekLogs(recent, cutoff);
    if |week| == 0 then NoLogsThisWeek
    else
      var totals := WeeklyZoneTotals(week);
      var total := totals.Total();
      if total > 0 then
        ZoneBreakdown(totals, total, [Width(totals.zone1, total), Width(totals.zone2, total),
                                      Width(totals.zone3, total), Width(totals.zone4, total),
                                      Width(totals.zone5, total)])
      else NoZoneTime(total)
  }

  /** Dividing five parts by their sum. */
  lemma SharesOfSum(a: real, b: real, c: real, d: real, e: real, t: real)
    requires t > 0.0 && a + b + c + d + e == t
    ensures a / t + b / t + c / t + d / t + e / t == 1.0
  {
    assert a / t + b / t + c / t + d / t + e / t == (a + b + c + d + e) / t;
  }

  /**
   * The five bars fill the whole width: their percentages add up to 100, and
   * with no negative duration each lies in 0..100.
   */
  lemma BarsFillTheWidth(recent: seq<WorkoutLog>, cutoff: int)
    requires WeeklySummaryCard(recent, cutoff).ZoneBreakdown?
    ensures var w := WeeklySummaryCard(recent, cutoff).widths;
            w[0] + w[1] + w[2] + w[3] + w[4] == 100.0
    ensures (forall i :: 0 <= i < |recent| ==> NonNegativeDurations(recent[i])) ==>
              forall i :: 0 <= i < 5 ==> 0.0 <= WeeklySummaryCard(recent, cutoff).widths[i] <= 100.0
  {
    var card := WeeklySummaryCard(recent, cutoff);
    var t := card.totals;
    var total := t.Total() as real;
    SharesOfSum(t.zone1 as real, t.zone2 as real, t.zone3 as real, t.zone4 as real, t.zone5 as real, total);
    var w := card.widths;
    assert w[0] + w[1] + w[2] + w[3] + w[4]
        == (t.zone1 as real / total + t.zone2 as real / total + t.zone3 as real / total
            + t.zone4 as real / total + t.zone5 as real / total) * 100.0;
    if forall i :: 0 <= i < |recent| ==> NonNegativeDurations(recent[i]) {
      var week := ThisWeekLogs(recent, cutoff);
      forall i | 0 <= i < |week|
        ensures NonNegativeDurations(week[i])
      {
        var j :| 0 <= j < |recent| && recent[j] == week[i];
      }
      WeeklyTotalsBounded(week);
      WidthBounded(t.zone1, t.Total());
      WidthBounded(t.zone2, t.Total());
      WidthBounded(t.zone3, t.Total());
      WidthBounded(t.zone4, t.Total());
      WidthBounded(t.zone5, t.Total());
    }
  }

  /** A part between 0 and the whole is between 0 and 100 percent of it. */
  lemma WidthBounded(part: int, total: int)
    requires 0 <= part <= total && total > 0
    ensures 0.0 <= Width(part, total) <= 100.0
  {
    var q := part as real / total as real;
    assert q * total as real == part as real;
  }

  // ---------------------------------------------------------------------------
  // Per-log badges
  // ---------------------------------------------------------------------------

  /** zoneColors: one badge style per zone, zone 1 first. */
  const ZoneColors: seq<string> := [
    "bg-blue-100 text-blue-800 dark:bg-blue-900/30 dark:text-blue-300",
    "bg-green-100 text-green-800 dark:bg-green-900/30 dark:text-green-300",
    "bg-yellow-100 text-yellow-800 dark:bg-yellow-900/30 dark:text-yellow-300",
    "bg-orange-100 text-orange-800 dark:bg-orange-900/30 dark:text-orange-300",
    "bg-red-100 text-red-800 dark:bg-red-900/30 dark:text-red-300"
  ]

  /** zoneTimes: the log's five zone durations, zone 1 first. */
  function ZoneTimes(log: WorkoutLog): (r: seq<int>)
    ensures |r| == 5
    ensures forall zone: TrainingZone :: r[zone - 1] == ZoneDuration(log, zone)
  {
    [ZoneDuration(log, 1), ZoneDuration(log, 2), ZoneDuration(log, 3), ZoneDuration(log, 4), ZoneDuration(log, 5)]
  }

  /**
   * primaryZone: `zoneTimes.indexOf(Math.max(...zoneTimes)) + 1`. It is a
   * zone whose time no other zone exceeds, and the lowest such zone.
   */
  function PrimaryZone(log: WorkoutLog): (z: TrainingZone)
    ensures forall k :: 0 <= k < 5 ==> ZoneTimes(log)[k] <= ZoneTimes(log)[z - 1]
    ensures forall k :: 0 <= k < z - 1 ==> ZoneTimes(log)[k] < ZoneTimes(log)[z - 1]
  {
    var times := ZoneTimes(log);
    var i := IndexOf(times, MaxOf(times));
    assert forall k :: 0 <= k < i ==> times[k] != times[i] by {
      forall k | 0 <= k < i ensures times[k] != times[i] {
        assert times[k] == times[..i][k];
      }
    }
    i + 1
  }

  /**
   * The primary-zone badge: shown only when some zone time is positive, with
   * the primary zone's color.
   */
  function PrimaryZoneBadge(log: WorkoutLog): (r: Option<(TrainingZone, string)>)
    ensures r.Some? <==> exists k :: 0 <= k < 5 && ZoneTimes(log)[k] > 0
    ensures r.Some? ==> r.value == (PrimaryZone(log), ZoneColors[PrimaryZone(log) - 1])
  {
    var times := ZoneTimes(log);
    if exists k :: 0 <= k < 5 && times[k] > 0 then
      var z := PrimaryZone(log);
      Some((z, ZoneColors[z - 1]))
    else None
  }

  /** When the badge is shown, its zone holds positive time. */
  lemma PrimaryBadgeZoneHasTime(log: WorkoutLog)
    requires PrimaryZoneBadge(log).Some?
    ensures ZoneDuration(log, PrimaryZoneBadge(log).value.0) > 0
  {
    var k :| 0 <= k < 5 && ZoneTimes(log)[k] > 0;
  }

  /**
   * avgHeartRateZone: the zone of the log's average heart rate, or null when
   * the average is missing or zero.
   */
  function AvgHeartRateZone(log: WorkoutLog, maxHeartRate: int): (r: Option<ZoneNumber>)
    requires maxHeartRate > 0
    ensures r.None? <==> log.avgHeartRate.None? || log.avgHeartRate.value == 0
    ensures r.Some? ==> r.value == DetermineHeartRateZone(log.avgHeartRate.value as real, maxHeartRate as real)
  {
    match log.avgHeartRate
    case None => None
    case Some(avg) =>
      if avg == 0 then None else Some(DetermineHeartRateZone(avg as real, maxHeartRate as real))
  }

  /**
   * The "Z" badge next to the average heart rate: shown only for a zone
   * above 0, which is exactly when the log has a non-zero average heart rate
   * of at least half the max heart rate.
   */
  function AvgZoneBadge(log: WorkoutLog, maxHeartRate: int): (r: Option<(TrainingZone, string)>)
    requires maxHeartRate > 0
    ensures r.Some? <==>
              log.avgHeartRate.Some? && log.avgHeartRate.value != 0 && 2 * log.avgHeartRate.value >= maxHeartRate
    ensures r.Some? ==> AvgHeartRateZone(log, maxHeartRate) == Some(r.value.0 as ZoneNumber)
    ensures r.Some? ==> r.value.1 == ZoneColors[r.value.0 - 1]
  {
    if log.avgHeartRate.None? || log.avgHeartRate.value == 0 then None
    else
      match AvgHeartRateZone(log, maxHeartRate)
      case Some(zone) => if zone > 0 then Some((zone as TrainingZone, ZoneColors[zone - 1])) else None
      case None => None
  }

  // ---------------------------------------------------------------------------
  // Today's workout
  // ---------------------------------------------------------------------------

  /** What `Date.getDay()` returns: 0 for Sunday up to 6 for Saturday. */
  type Weekday = d: int | 0 <= d <= 6

  /** weekdays: the one-character Japanese weekday names, Sunday first. */
  const Weekdays: seq<string> := ["日", "月", "火", "水", "木", "金", "土"]

  datatype PlannedWorkout = PlannedWorkout(id: string, name: string, dayOfWeek: int)

  /** The active training plan with its workouts. */
  datatype TrainingPlan = TrainingPlan(id: string, workouts: seq<PlannedWorkout>)

  /** todayWorkout: the plan's first workout scheduled for today, if there is an active plan. */
  function TodayWorkout(plan: Option<TrainingPlan>, today: Weekday): (r: Option<PlannedWorkout>)
    ensures r.Some? <==> plan.Some? && exists j :: 0 <= j < |plan.value.workouts| && plan.value.workouts[j].dayOfWeek == today
    ensures r.Some? ==> exists j :: 0 <= j < |plan.value.workouts| && plan.value.workouts[j] == r.value
                          && r.value.dayOfWeek == today
                          && forall i :: 0 <= i < j ==> plan.value.workouts[i].dayOfWeek != today
  {
    match plan
    case None => None
    case Some(p) =>
      var r := Find(p.workouts, (w: PlannedWorkout) => w.dayOfWeek == today);
      if r.Some? then
        var j := FindIndex(p.workouts, (w: PlannedWorkout) => w.dayOfWeek == today);
        assert p.workouts[j] == r.value;
        r
      else r
  }

  /** What the today card shows. */
  datatype TodayCard =
    | Scheduled(workout: PlannedWorkout, planId: string)
    | RestDay(planId: string, weekdayName: string)
    | NoActivePlan

  function TodayCardOf(plan: Option<TrainingPlan>, today: Weekday): (r: TodayCard)
    ensures r.Scheduled? <==> TodayWorkout(plan, today).Some?
    ensures r.Scheduled? ==> r.workout == TodayWorkout(plan, today).value && r.planId == plan.value.id
    ensures r.RestDay? <==> plan.Some? && TodayWorkout(plan, today).None?
    ensures r.RestDay? ==> r.planId == plan.value.id && r.weekdayName == Weekdays[today]
    ensures r.NoActivePlan? <==> plan.None?
  {
    match TodayWorkout(plan, today)
    case Some(w) => Scheduled(w, plan.value.id)
    case None => if plan.Some? then RestDay(plan.value.id, Weekdays[today]) else NoActivePlan
  }
}
