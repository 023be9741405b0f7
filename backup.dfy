/** Scheduled backups (internal/taskconfig/scheduler.go) and the backup
  * settings page and retention rule (code1/ops-web/internal/taskconfig/
  * handler.go). Settings are the `system_settings` table as a map from key
  * to value; a missing key reads as "". */
module Backup {
  import opened Wrappers
  import opened Text
  import opened Calendar
  import opened GoTime

  type Settings = map<string, string>

  /** `getSetting`: the stored value, or "" when there is none. */
  function Setting(s: Settings, key: string): (v: string)
    ensures key in s ==> v == s[key]
    ensures key !in s ==> v == ""
  {
    if key in s then s[key] else ""
  }

  /** The hour of the day (0-23) and the weekday (0 = Sunday) of an instant. */
  function HourOf(t: int): (h: int)
    ensures 0 <= h < 24
  {
    (t % SecondsPerDay) / SecondsPerHour
  }

  function WeekdayOf(t: int): (w: int)
    ensures 0 <= w < 7
  {
    Weekday(DayOf(t))
  }

  /** The `shouldRun` decision for one backup kind, as written: enabled must
    * be exactly "1", the hour must read as an integer 1-24, and it must be
    * that hour now (and Monday, for a weekly backup). */
  function ShouldRun(enabled: string, frequency: string, hourText: string, currentHour: int, weekday: int): (r: bool)
    ensures r ==> enabled == "1" && (frequency == "daily" || frequency == "weekly") && 1 <= currentHour <= 24
    ensures r && frequency == "weekly" ==> weekday == 1
  {
    if enabled != "1" then false
    else
      match Atoi(hourText)
      case None => false
      case Some(h) =>
        if h < 1 || h > 24 then false
        else if frequency == "daily" then currentHour == h
        else if frequency == "weekly" then currentHour == h && weekday == 1
        else false
  }

  /** What the decision requires, and that it never fires for any other
    * frequency. */
  lemma ShouldRunRequires(enabled: string, frequency: string, hourText: string, currentHour: int, weekday: int)
    ensures ShouldRun(enabled, frequency, hourText, currentHour, weekday) ==>
      enabled == "1" && Atoi(hourText).Some? && 1 <= Atoi(hourText).value <= 24
      && currentHour == Atoi(hourText).value
      && (frequency == "daily" || (frequency == "weekly" && weekday == 1))
    ensures (enabled == "1" && Atoi(hourText).Some? && 1 <= Atoi(hourText).value <= 24
      && currentHour == Atoi(hourText).value && (frequency == "daily" || (frequency == "weekly" && weekday == 1))) ==>
      ShouldRun(enabled, frequency, hourText, currentHour, weekday)
  {
  }

  /** A weekly backup runs at the configured hour on Mondays and at no
    * other time; a daily one at that hour every day. */
  lemma WeeklyOnlyOnMonday(hourText: string, t: int)
    ensures ShouldRun("1", "weekly", hourText, HourOf(t), WeekdayOf(t)) <==>
      ShouldRun("1", "daily", hourText, HourOf(t), WeekdayOf(t)) && WeekdayOf(t) == 1
  {
  }

  /** As written, an hour of 24 passes the range check yet never equals the
    * clock's hour, so that backup never runs. */
  lemma Hour24NeverRuns(enabled: string, frequency: string, t: int)
    ensures Atoi("24") == Some(24)
    ensures !ShouldRun(enabled, frequency, "24", HourOf(t), WeekdayOf(t))
  {
    assert DigitsValue("24") == 24 by {
      assert "24"[..1] == "2";
      assert "2"[..0] == "";
    }
  }

  /** The decision as evidently intended: hour 24 means midnight (hour 0),
    * as `time.Date` reads it elsewhere in the program. */
  function ShouldRunIntended(enabled: string, frequency: string, hourText: string, currentHour: int, weekday: int): (r: bool)
    ensures r ==> enabled == "1" && (frequency == "daily" || frequency == "weekly") && 0 <= currentHour <= 23
    ensures r && frequency == "weekly" ==> weekday == 1
  {
    if enabled != "1" then false
    else
      match Atoi(hourText)
      case None => false
      case Some(h) =>
        if h < 1 || h > 24 then false
        else if frequency == "daily" then currentHour == h % 24
        else if frequency == "weekly" then currentHour == h % 24 && weekday == 1
        else false
  }

  /** Every hour the page accepts fires once a day under the intended
    * decision, at exactly one hour of the clock, and hours 1-23 behave as
    * written. */
  lemma IntendedEveryHourRuns(hourText: string, t: int)
    requires Atoi(hourText).Some? && 1 <= Atoi(hourText).value <= 24
    ensures ShouldRunIntended("1", "daily", hourText, HourOf(t), WeekdayOf(t)) <==> HourOf(t) == Atoi(hourText).value % 24
    ensures Atoi(hourText).value < 24 ==>
      ShouldRunIntended("1", "daily", hourText, HourOf(t), WeekdayOf(t)) == ShouldRun("1", "daily", hourText, HourOf(t), WeekdayOf(t))
  {
  }

  /** Whether the database and the file backup run at instant `now`: two
    * decisions over disjoint settings. */
  function Decisions(s: Settings, now: int): (r: (bool, bool))
    ensures r.0 ==> Setting(s, "db_backup_enabled") == "1" && 1 <= HourOf(now) <= 23
    ensures r.1 ==> Setting(s, "file_backup_enabled") == "1" && 1 <= HourOf(now) <= 23
  {
    (ShouldRun(Setting(s, "db_backup_enabled"), Setting(s, "db_backup_frequency"), Setting(s, "db_backup_hour"),
       HourOf(now), WeekdayOf(now)),
     ShouldRun(Setting(s, "file_backup_enabled"), Setting(s, "file_backup_frequency"), Setting(s, "file_backup_hour"),
       HourOf(now), WeekdayOf(now)))
  }

  const DbKeys: set<string> := {"db_backup_enabled", "db_backup_frequency", "db_backup_hour"}
  const FileKeys: set<string> := {"file_backup_enabled", "file_backup_frequency", "file_backup_hour"}

  /** The two decisions are independent: each depends only on its own
    * three settings. */
  lemma DecisionsIndependent(s1: Settings, s2: Settings, now: int)
    ensures (forall k :: k in DbKeys ==> Setting(s1, k) == Setting(s2, k)) ==> Decisions(s1, now).0 == Decisions(s2, now).0
    ensures (forall k :: k in FileKeys ==> Setting(s1, k) == Setting(s2, k)) ==> Decisions(s1, now).1 == Decisions(s2, now).1
  {
    if forall k :: k in DbKeys ==> Setting(s1, k) == Setting(s2, k) {
      assert Setting(s1, "db_backup_enabled") == Setting(s2, "db_backup_enabled");
      assert Setting(s1, "db_backup_frequency") == Setting(s2, "db_backup_frequency");
      assert Setting(s1, "db_backup_hour") == Setting(s2, "db_backup_hour");
    }
    if forall k :: k in FileKeys ==> Setting(s1, k) == Setting(s2, k) {
      assert Setting(s1, "file_backup_enabled") == Setting(s2, "file_backup_enabled");
      assert Setting(s1, "file_backup_frequency") == Setting(s2, "file_backup_frequency");
      assert Setting(s1, "file_backup_hour") == Setting(s2, "file_backup_hour");
    }
  }

  /** Nothing is backed up on a fresh installation. */
  lemma NoSettingsNoBackup(now: int)
    ensures Decisions(map[], now) == (false, false)
  {
  }

  // ---------------------------------------------------------------------
  // The settings page

  /** The schedule fields shown by the task-configuration page. */
  datatype BackupSchedule = BackupSchedule(enabled: string, frequency: string, hour: string)

  function OrDefault(v: string, d: string): (r: string)
    ensures v == "" ==> r == d
    ensures v != "" ==> r == v
  {
    if v == "" then d else v
  }

  /** The page's database and file schedules: disabled, daily, and hours 2
    * and 3 when nothing is stored. */
  function ShownSchedules(s: Settings): (r: (BackupSchedule, BackupSchedule))
    ensures r.0.enabled != "" && r.0.frequency != "" && r.0.hour != ""
    ensures r.1.enabled != "" && r.1.frequency != "" && r.1.hour != ""
  {
    (BackupSchedule(OrDefault(Setting(s, "db_backup_enabled"), "0"),
                    OrDefault(Setting(s, "db_backup_frequency"), "daily"),
                    OrDefault(Setting(s, "db_backup_hour"), "2")),
     BackupSchedule(OrDefault(Setting(s, "file_backup_enabled"), "0"),
                    OrDefault(Setting(s, "file_backup_frequency"), "daily"),
                    OrDefault(Setting(s, "file_backup_hour"), "3")))
  }

  /** Whatever the scheduler runs, the page shows as running: a backup the
    * scheduler starts is one the page's schedule (defaults filled in)
    * starts too. */
  lemma ShownCoversScheduler(s: Settings, now: int)
    ensures Decisions(s, now).0 ==>
      ShouldRun(ShownSchedules(s).0.enabled, ShownSchedules(s).0.frequency, ShownSchedules(s).0.hour, HourOf(now), WeekdayOf(now))
    ensures Decisions(s, now).1 ==>
      ShouldRun(ShownSchedules(s).1.enabled, ShownSchedules(s).1.frequency, ShownSchedules(s).1.hour, HourOf(now), WeekdayOf(now))
  {
    if Decisions(s, now).0 {
      assert Atoi(Setting(s, "db_backup_hour")).Some?;
      assert Setting(s, "db_backup_frequency") != "";
    }
    if Decisions(s, now).1 {
      assert Atoi(Setting(s, "file_backup_hour")).Some?;
      assert Setting(s, "file_backup_frequency") != "";
    }
  }

  /** The page's defaults are what a fresh installation shows. */
  lemma ShownDefaults()
    ensures ShownSchedules(map[]) == (BackupSchedule("0", "daily", "2"), BackupSchedule("0", "daily", "3"))
  {
  }

  // ---------------------------------------------------------------------
  // Retention of database backups (`cleanOldBackups`)

  /** An entry of the backup directory. */
  datatype Entry = Entry(name: string, isDir: bool)

  /** The day a directory name stands for, when it reads as YYYY-MM-DD. */
  function DirDay(name: string): (d: Option<int>)
    ensures d.Some? <==> Parse(L_Date, name).Some?
  {
    match Parse(L_Date, name)
    case Some(f) => Some(DayOfFields(f))
    case None => None
  }

  /** Whether `cleanOldBackups(path, keepDays)` at `now` removes an entry:
    * a directory named by a date whose midnight is strictly before the
    * same clock time `keepDays` days ago. */
  predicate Expired(e: Entry, now: int, keepDays: int)
  {
    e.isDir && DirDay(e.name).Some? && Midnight(DirDay(e.name).value) < now - keepDays * SecondsPerDay
  }

  /** The entries left after removing the expired ones whose removal does not
    * fail. */
  function Kept(entries: seq<Entry>, now: int, keepDays: int, removeFails: set<string>): (r: seq<Entry>)
    ensures forall e :: e in r <==> e in entries && !(Expired(e, now, keepDays) && e.name !in removeFails)
    ensures |r| <= |entries|
  {
    if |entries| == 0 then []
    else
      var rest := Kept(entries[1..], now, keepDays, removeFails);
      assert forall e :: e in entries <==> e == entries[0] || e in entries[1..];
      if Expired(entries[0], now, keepDays) && entries[0].name !in removeFails then rest
      else [entries[0]] + rest
  }

  /** The backup directory. */
  class BackupDir {
    var entries: seq<Entry>

    constructor(initial: seq<Entry>)
      ensures entries == initial
    {
      entries := initial;
    }

    /** `cleanOldBackups`: an unreadable directory is an error and nothing
      * is removed; otherwise every expired directory is removed, and one
      * whose removal fails is skipped. */
    method CleanOldBackups(now: int, keepDays: int, readFails: bool, removeFails: set<string>) returns (r: Outcome)
      modifies this
      ensures r.Failure? <==> readFails
      ensures readFails ==> entries == old(entries)
      ensures !readFails ==> entries == Kept(old(entries), now, keepDays, removeFails)
    {
      if readFails {
        return Failure("read failed");
      }
      var listed := entries;
      var kept: seq<Entry> := [];
      var i := |listed|;
      while i > 0
        invariant 0 <= i <= |listed|
        invariant kept == Kept(listed[i..], now, keepDays, removeFails)
      {
        i := i - 1;
        assert listed[i..][1..] == listed[i + 1..];
        var e := listed[i];
        if !(Expired(e, now, keepDays) && e.name !in removeFails) {
          kept := [e] + kept;
        }
      }
      assert listed[0..] == listed;
      entries := kept;
      return Success;
    }
  }

  /** Files, and directories not named by a date, are never removed. */
  lemma OnlyDateDirsRemoved(entries: seq<Entry>, now: int, keepDays: int, removeFails: set<string>, e: Entry)
    requires e in entries && (!e.isDir || Parse(L_Date, e.name).None?)
    ensures e in Kept(entries, now, keepDays, removeFails)
  {
  }

  /** A second clean at the same time with no failures removes nothing
    * more than the first did without failures. */
  lemma {:induction false} CleanIdempotent(entries: seq<Entry>, now: int, keepDays: int)
    ensures Kept(Kept(entries, now, keepDays, {}), now, keepDays, {}) == Kept(entries, now, keepDays, {})
  {
    if |entries| > 0 {
      CleanIdempotent(entries[1..], now, keepDays);
      var rest := Kept(entries[1..], now, keepDays, {});
      if !Expired(entries[0], now, keepDays) {
        assert ([entries[0]] + rest)[1..] == rest;
      }
    }
  }

  /** With five days kept on day `day`: the directories of the last five
    * days (`day - 4` to `day`) stay, those six or more days back go, and the
    * one five days back goes unless the clean runs exactly at midnight. */
  lemma KeepFiveDays(day: int, now: int, e: Entry)
    requires Midnight(day) <= now < Midnight(day + 1)
    requires e.isDir && DirDay(e.name).Some?
    ensures DirDay(e.name).value <= day - 6 ==> Expired(e, now, 5)
    ensures DirDay(e.name).value == day - 5 ==> (Expired(e, now, 5) <==> now > Midnight(day))
    ensures DirDay(e.name).value >= day - 4 ==> !Expired(e, now, 5)
  {
  }
}
