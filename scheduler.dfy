/** The reminder scheduler of internal/auditprogress/scheduler.go: when the
  * next sweep is due, how the schedule is described, and what one turn of
  * the scheduler loop decides. Instants are local wall-clock seconds (see
  * module Calendar); the sleeps themselves are not modelled, only how long
  * each one is. */
module ReminderScheduler {
  import opened Wrappers
  import opened Text
  import opened Calendar
  import opened Reminders

  /** Go's `x % 7`: the remainder of division truncated toward zero, which
    * takes the sign of the dividend. */
  function GoRem7(a: int): (r: int)
    ensures -7 < r < 7
    ensures (a - r) % 7 == 0
    ensures a >= 0 ==> r >= 0
    ensures a <= 0 ==> r <= 0
  {
    if a >= 0 then a % 7 else -((-a) % 7)
  }

  /** `now.Weekday()` renumbered so that Monday is 1 and Sunday is 7. */
  function IsoWeekday(day: int): (w: int)
    ensures 1 <= w <= 7
    ensures w % 7 == Weekday(day)
  {
    if Weekday(day) == 0 then 7 else Weekday(day)
  }

  /** The weekday a weekly schedule aims at; Monday when none is stored. */
  function TargetWeekday(cfg: ScheduleConfig): int
  {
    match cfg.dayOfWeek
    case Some(d) => d
    case None => 1
  }

  /** `time.Date(y, m, d, hour, 0, 0, 0)` for the day of `now`: an hour of
    * 24 normalises to midnight of the next day. */
  function TodayAt(now: int, hour: int): (t: int)
    ensures t == Midnight(DayOf(now)) + hour * SecondsPerHour
  {
    DayOf(now) * SecondsPerDay + hour * SecondsPerHour
  }

  /** `calculateNextRunTime`. */
  function NextRunTime(cfg: ScheduleConfig, now: int): (r: int)
    ensures (r - TodayAt(now, cfg.hour)) % SecondsPerDay == 0
    ensures cfg.frequency == "daily" ==> TodayAt(now, cfg.hour) <= r <= TodayAt(now, cfg.hour) + SecondsPerDay
  {
    var today := TodayAt(now, cfg.hour);
    if cfg.frequency == "daily" then
      if today >= now then today else today + SecondsPerDay
    else
      var daysUntil := GoRem7(TargetWeekday(cfg) - IsoWeekday(DayOf(now)) + 7);
      if daysUntil == 0 then
        if today >= now then today else today + 7 * SecondsPerDay
      else today + daysUntil * SecondsPerDay
  }

  /** Whether instant `t` reads `hour`:00:00 on the clock. */
  predicate OnTheHour(t: int, hour: int)
  {
    t == Midnight(DayOf(t)) + hour * SecondsPerHour
  }

  lemma DayOfMidnightPlus(d: int, secs: int)
    requires 0 <= secs < SecondsPerDay
    ensures DayOf(Midnight(d) + secs) == d
  {
  }

  /** Midnights are a day apart. */
  lemma MidnightStep(d: int, k: int)
    ensures Midnight(d + k) == Midnight(d) + k * SecondsPerDay
  {
  }

  /** A daily schedule runs at the first instant at or after `now` whose
    * clock reads the configured hour: today's if it has not passed, else
    * tomorrow's. */
  lemma DailyNextRun(cfg: ScheduleConfig, now: int)
    requires cfg.frequency == "daily" && 0 <= cfg.hour < 24
    ensures var r := NextRunTime(cfg, now);
      now <= r < now + SecondsPerDay && OnTheHour(r, cfg.hour)
      && (DayOf(r) == DayOf(now) || DayOf(r) == DayOf(now) + 1)
    ensures forall d :: Midnight(d) + cfg.hour * SecondsPerHour >= now ==>
      NextRunTime(cfg, now) <= Midnight(d) + cfg.hour * SecondsPerHour
  {
    var today := TodayAt(now, cfg.hour);
    var n := DayOf(now);
    DayOfMidnightPlus(n, cfg.hour * SecondsPerHour);
    DayOfMidnightPlus(n + 1, cfg.hour * SecondsPerHour);
    MidnightStep(n, 1);
    forall d | Midnight(d) + cfg.hour * SecondsPerHour >= now
      ensures NextRunTime(cfg, now) <= Midnight(d) + cfg.hour * SecondsPerHour
    {
      if d <= n - 1 {
        MidnightStep(d, n - d);
      } else if d >= n + 1 {
        MidnightStep(n + 1, d - n - 1);
      }
    }
  }

  /** The two daily cases: at 01:00 with hour 2 the run is today at 02:00;
    * at 03:00 it is tomorrow at 02:00. */
  lemma DailyExamples(day: int)
    ensures NextRunTime(ScheduleConfig("daily", 2, None, true), Midnight(day) + 1 * SecondsPerHour)
      == Midnight(day) + 2 * SecondsPerHour
    ensures NextRunTime(ScheduleConfig("daily", 2, None, true), Midnight(day) + 3 * SecondsPerHour)
      == Midnight(day + 1) + 2 * SecondsPerHour
  {
    DayOfMidnightPlus(day, 1 * SecondsPerHour);
    DayOfMidnightPlus(day, 3 * SecondsPerHour);
  }

  /** Hour 24 of a daily schedule is the coming midnight. */
  lemma DailyHour24(cfg: ScheduleConfig, now: int)
    requires cfg.frequency == "daily" && cfg.hour == 24
    ensures NextRunTime(cfg, now) == Midnight(DayOf(now) + 1)
  {
  }

  /** The week offset of `calculateNextRunTime` lies in [0, 6] for every
    * stored weekday (the table only stores positive ones). */
  lemma DaysUntilInRange(target: int, day: int)
    requires target >= 1
    ensures 0 <= GoRem7(target - IsoWeekday(day) + 7) <= 6
    ensures GoRem7(target - IsoWeekday(day) + 7) == (target - IsoWeekday(day)) % 7
  {
  }

  /** Weekday arithmetic: `k` days after `day` the weekday has moved by `k`. */
  lemma WeekdayShift(day: int, k: int)
    ensures IsoWeekday(day + k) % 7 == (IsoWeekday(day) + k) % 7
  {
  }

  /** The days `calculateNextRunTime` adds to today's run in the weekly
    * branch: the weekday distance, or a whole week when today's run is on
    * the target weekday but already past. */
  lemma WeeklyOffset(cfg: ScheduleConfig, now: int) returns (k: int)
    requires cfg.frequency != "daily" && TargetWeekday(cfg) >= 1
    ensures 0 <= k <= 7
    ensures NextRunTime(cfg, now) == TodayAt(now, cfg.hour) + k * SecondsPerDay
    ensures k % 7 == (TargetWeekday(cfg) - IsoWeekday(DayOf(now))) % 7
    ensures k == 0 ==> TodayAt(now, cfg.hour) >= now
    ensures k == 7 ==> TodayAt(now, cfg.hour) < now
  {
    var n := DayOf(now);
    var k0 := GoRem7(TargetWeekday(cfg) - IsoWeekday(n) + 7);
    DaysUntilInRange(TargetWeekday(cfg), n);
    k := if k0 == 0 && TodayAt(now, cfg.hour) < now then 7 else k0;
  }

  /** The weekly run falls on the target weekday at the configured hour,
    * within a week of `now`. */
  lemma WeeklyRunLands(cfg: ScheduleConfig, now: int)
    requires cfg.frequency != "daily" && 0 <= cfg.hour < 24
    requires cfg.dayOfWeek.Some? ==> 1 <= cfg.dayOfWeek.value <= 7
    ensures var r := NextRunTime(cfg, now);
      now <= r < now + 7 * SecondsPerDay && OnTheHour(r, cfg.hour)
      && IsoWeekday(DayOf(r)) == TargetWeekday(cfg)
  {
    var n := DayOf(now);
    var k := WeeklyOffset(cfg, now);
    WithinDay(now);
    MidnightStep(n, k);
    DayOfMidnightPlus(n + k, cfg.hour * SecondsPerHour);
    WeekdayShift(n, k);
    ModShiftBack(TargetWeekday(cfg), IsoWeekday(n), k);
    SameWeekday(IsoWeekday(n + k), TargetWeekday(cfg));
    assert DayOf(NextRunTime(cfg, now)) == n + k;
  }

  /** Later days have later midnights. */
  lemma MidnightMono(a: int, b: int)
    requires a <= b
    ensures Midnight(a) <= Midnight(b)
  {
    MidnightStep(a, b - a);
  }

  /** An instant lies between the midnight of its day and the next one. */
  lemma WithinDay(t: int)
    ensures Midnight(DayOf(t)) <= t < Midnight(DayOf(t)) + SecondsPerDay
  {
  }

  /** Moving `b` by `x` lands on `a` modulo 7 exactly when `x` is `a - b`
    * modulo 7. */
  lemma ModShift(a: int, b: int, x: int)
    requires a % 7 == (b + x) % 7
    ensures x % 7 == (a - b) % 7
  {
    var q := (b + x) / 7 - a / 7;
    assert b + x == a + 7 * q;
  }

  lemma ModShiftBack(a: int, b: int, x: int)
    requires x % 7 == (a - b) % 7
    ensures (b + x) % 7 == a % 7
  {
    var q := x / 7 - (a - b) / 7;
    assert b + x == a + 7 * q;
  }

  lemma SameWeekday(p: int, q: int)
    requires 1 <= p <= 7 && 1 <= q <= 7 && p % 7 == q % 7
    ensures p == q
  {
  }

  /** A positive day count with the offset's weekday is at least the
    * offset. */
  lemma CongruentAtLeast(x: int, k: int)
    requires x >= 1 && 0 <= k <= 7 && x % 7 == k % 7
    ensures x >= k
  {
  }

  /** No instant on the target weekday at the configured hour lies between
    * `now` and the weekly run. */
  lemma WeeklyRunFirst(cfg: ScheduleConfig, now: int, d: int)
    requires cfg.frequency != "daily" && 0 <= cfg.hour < 24
    requires cfg.dayOfWeek.Some? ==> 1 <= cfg.dayOfWeek.value <= 7
    requires IsoWeekday(d) == TargetWeekday(cfg) && Midnight(d) + cfg.hour * SecondsPerHour >= now
    ensures NextRunTime(cfg, now) <= Midnight(d) + cfg.hour * SecondsPerHour
  {
    var n := DayOf(now);
    var h := cfg.hour * SecondsPerHour;
    var k := WeeklyOffset(cfg, now);
    WithinDay(now);
    assert d >= n by {
      if d < n {
        MidnightStep(d, 1);
        MidnightMono(d + 1, n);
      }
    }
    WeekdayShift(n, d - n);
    ModShift(TargetWeekday(cfg), IsoWeekday(n), d - n);
    if d == n {
      assert k == 0;
    } else {
      CongruentAtLeast(d - n, k);
      MidnightStep(n, k);
      MidnightMono(n + k, d);
    }
  }

  /** A weekly schedule with a weekday 1-7 (Monday when none is stored) and
    * an hour 0-23 runs at the first instant at or after `now` that falls on
    * that weekday at that hour, less than a week away. */
  lemma WeeklyNextRun(cfg: ScheduleConfig, now: int)
    requires cfg.frequency != "daily" && 0 <= cfg.hour < 24
    requires cfg.dayOfWeek.Some? ==> 1 <= cfg.dayOfWeek.value <= 7
    ensures var r := NextRunTime(cfg, now);
      now <= r < now + 7 * SecondsPerDay && OnTheHour(r, cfg.hour)
      && IsoWeekday(DayOf(r)) == TargetWeekday(cfg)
    ensures forall d :: IsoWeekday(d) == TargetWeekday(cfg) && Midnight(d) + cfg.hour * SecondsPerHour >= now ==>
      NextRunTime(cfg, now) <= Midnight(d) + cfg.hour * SecondsPerHour
  {
    WeeklyRunLands(cfg, now);
    forall d | IsoWeekday(d) == TargetWeekday(cfg) && Midnight(d) + cfg.hour * SecondsPerHour >= now
      ensures NextRunTime(cfg, now) <= Midnight(d) + cfg.hour * SecondsPerHour
    {
      WeeklyRunFirst(cfg, now, d);
    }
  }

  /** With the clock inside the configured hour's range, neither branch
    * ever returns an instant in the past. */
  lemma NextRunNotEarlier(cfg: ScheduleConfig, now: int)
    requires 0 <= cfg.hour
    requires cfg.dayOfWeek.Some? ==> cfg.dayOfWeek.value >= 1
    ensures NextRunTime(cfg, now) >= now
  {
    var n := DayOf(now);
    if cfg.frequency != "daily" {
      DaysUntilInRange(TargetWeekday(cfg), n);
    }
  }

  /** The weekday names of `getScheduleDescription`, Monday first. */
  const DayNames: seq<string> := ["周一", "周二", "周三", "周四", "周五", "周六", "周日"]

  /** The name of the configured weekday; Monday for none or one outside
    * 1-7. */
  function DayName(cfg: ScheduleConfig): (name: string)
    ensures name in DayNames
    ensures cfg.dayOfWeek.Some? && 1 <= cfg.dayOfWeek.value <= 7 ==> name == DayNames[cfg.dayOfWeek.value - 1]
    ensures !(cfg.dayOfWeek.Some? && 1 <= cfg.dayOfWeek.value <= 7) ==> name == "周一"
  {
    match cfg.dayOfWeek
    case Some(d) => if 1 <= d <= 7 then DayNames[d - 1] else "周一"
    case None => "周一"
  }

  /** `getScheduleDescription`. */
  function ScheduleDescription(cfg: ScheduleConfig): (r: string)
    ensures |r| >= 5 && r[0] == '每' && (r[1] == '天' <==> cfg.frequency == "daily")
    ensures r[|r| - 3..] == ":00"
  {
    if cfg.frequency == "daily" then "每天 " + IntToString(cfg.hour) + ":00"
    else "每周" + DayName(cfg) + " " + IntToString(cfg.hour) + ":00"
  }

  /** The description of a weekly schedule names the weekday of its next
    * run, for every weekday 1-7 and hour 0-23. */
  lemma DescriptionNamesNextRunDay(cfg: ScheduleConfig, now: int)
    requires cfg.frequency != "daily" && 0 <= cfg.hour < 24
    requires cfg.dayOfWeek.Some? ==> 1 <= cfg.dayOfWeek.value <= 7
    ensures ScheduleDescription(cfg)
      == "每周" + DayNames[IsoWeekday(DayOf(NextRunTime(cfg, now))) - 1] + " " + IntToString(cfg.hour) + ":00"
  {
    WeeklyNextRun(cfg, now);
  }

  /** A daily schedule never reads like a weekly one. */
  lemma DescriptionDistinguishes(a: ScheduleConfig, b: ScheduleConfig)
    requires a.hour == b.hour
    requires a.frequency == "daily" && b.frequency != "daily"
    ensures ScheduleDescription(a) != ScheduleDescription(b)
  {
    assert ScheduleDescription(a)[1] == '天';
    assert ScheduleDescription(b)[1] == '周';
  }

  /** The weekday names differ in their second rune. */
  lemma DayNamesDiffer()
    ensures forall p, q :: 0 <= p < q < 7 ==> DayNames[p][1] != DayNames[q][1]
  {
  }

  /** The fourth rune of a weekly description is the second rune of its
    * day name. */
  lemma DescriptionDayRune(cfg: ScheduleConfig)
    requires cfg.frequency != "daily"
    ensures |DayName(cfg)| == 2 && |ScheduleDescription(cfg)| > 3
    ensures ScheduleDescription(cfg)[3] == DayName(cfg)[1]
  {
    var rest := " " + IntToString(cfg.hour) + ":00";
    assert ScheduleDescription(cfg) == "每周" + DayName(cfg) + rest;
  }

  /** The day name is read back from a weekly description. */
  lemma {:induction false} DayNameInjective(a: ScheduleConfig, b: ScheduleConfig)
    requires a.frequency != "daily" && b.frequency != "daily" && a.hour == b.hour
    requires 1 <= TargetWeekday(a) <= 7 && 1 <= TargetWeekday(b) <= 7
    requires TargetWeekday(a) != TargetWeekday(b)
    ensures ScheduleDescription(a) != ScheduleDescription(b)
  {
    DescriptionDayRune(a);
    DescriptionDayRune(b);
    DayNamesDiffer();
    var i, j := TargetWeekday(a) - 1, TargetWeekday(b) - 1;
    assert DayName(a) == DayNames[i] && DayName(b) == DayNames[j];
    if i < j {
      assert DayNames[i][1] != DayNames[j][1];
    } else {
      assert DayNames[j][1] != DayNames[i][1];
    }
  }

  /** What one turn of the scheduler loop does after reading the
    * configuration. */
  datatype Step =
    | Poll(seconds: int)                                         // disabled: look again later
    | Run(config: ScheduleConfig, wait: int, resleep: int)       // wait, sweep, sleep again

  /** The decision part of `StartVideoReminderScheduler`: a failed read
    * falls back to the default; a disabled configuration polls after 60
    * seconds; otherwise wait until the next run, sweep, and sleep a day or
    * a week. */
  function LoopStep(read: Result<ScheduleConfig>, now: int): (s: Step)
    ensures s.Run? ==> s.wait >= 0 && s.config.enabled
    ensures s.Run? ==> s.resleep == if s.config.frequency == "daily" then SecondsPerDay else 7 * SecondsPerDay
  {
    var cfg := if read.Err? then DefaultConfig else read.value;
    if !cfg.enabled then Poll(60)
    else
      var wait := NextRunTime(cfg, now) - now;
      Run(cfg, if wait > 0 then wait else 0, if cfg.frequency == "daily" then SecondsPerDay else 7 * SecondsPerDay)
  }

  /** A failed read sweeps on the default schedule: the next 01:00, within
    * a day, then a day's sleep. */
  lemma LoopStepOnError(msg: string, now: int)
    ensures var s := LoopStep(Err(msg), now);
      s.Run? && s.config == DefaultConfig && s.resleep == SecondsPerDay
      && 0 <= s.wait < SecondsPerDay && OnTheHour(now + s.wait, 1)
  {
    DailyNextRun(DefaultConfig, now);
  }

  /** The sweep starts exactly at the next run time whenever that is not in
    * the past. */
  lemma LoopStepWaitsForNextRun(cfg: ScheduleConfig, now: int)
    requires cfg.enabled && 0 <= cfg.hour
    requires cfg.dayOfWeek.Some? ==> cfg.dayOfWeek.value >= 1
    ensures LoopStep(Ok(cfg), now) == Run(cfg, NextRunTime(cfg, now) - now,
      if cfg.frequency == "daily" then SecondsPerDay else 7 * SecondsPerDay)
  {
    NextRunNotEarlier(cfg, now);
  }

  /** As written, the table read never yields a disabled configuration, so
    * the scheduler never takes its polling branch, even right after a
    * disabled configuration was saved. */
  lemma LoopNeverPolls(rows: seq<ConfigRow>, queryFails: bool, now: int)
    ensures LoopStep(if queryFails then Err("query failed") else Ok(ReadConfig(rows)), now).Run?
  {
  }

  /** With the corrected read, saving a disabled configuration makes the
    * next turn poll instead of sweeping. */
  lemma LoopPollsAfterDisabledSave(kept: seq<ConfigRow>, row: ConfigRow, now: int)
    requires !row.config.enabled
    ensures LoopStep(Ok(ReadConfigIntended(kept + [row])), now) == Poll(60)
  {
    ReadIntendedAfterSave(kept, row);
  }
}
