/** The video-retention reminder table (`audit_video_reminders`) and the
  * schedule configuration table (`audit_video_reminder_schedule_config`).
  *
  * A reminder's dates are day numbers, its timestamps and the audit time
  * are seconds (see module Calendar). Failures of the database are
  * parameters: `checkFails`, `insertFails` and so on say which statement
  * the database refuses. */
module Reminders {
  import opened Wrappers
  import opened Text
  import opened Calendar
  import opened GoTime
  import opened Sets

  datatype Status = Pending | Notified | Completed

  /** One row of the reminder table. */
  datatype Reminder = Reminder(
    taskId: int, earliest: int, requiredDays: int, actualDays: int, reminderDate: int,
    status: Status, createdAt: int,
    notifiedAt: Option<int>, completedAt: Option<int>, completedBy: Option<string>)

  /** A reminder still counts until it is completed. */
  predicate Active(r: Reminder) { r.status != Completed }

  /** `time.Duration` saturates at 2^63 - 1 nanoseconds, 106751 whole days. */
  const MaxDurationDays: int := 106751

  /** `actualDays`: the whole days from midnight of the earliest video date
    * to the audit time, 0 when the audit is not later. */
  function ActualDays(earliest: int, audit: int): (n: int)
    ensures 0 <= n <= MaxDurationDays
    ensures audit <= Midnight(earliest) ==> n == 0
    ensures Midnight(earliest) <= audit <= Midnight(earliest + MaxDurationDays) ==>
      Midnight(earliest + n) <= audit < Midnight(earliest + n + 1) || n == MaxDurationDays
  {
    var diff := audit - Midnight(earliest);
    if diff <= 0 then 0
    else if diff / SecondsPerDay > MaxDurationDays then MaxDurationDays
    else diff / SecondsPerDay
  }

  /** The row `CreateVideoReminder` inserts. */
  function NewReminder(taskId: int, earliest: int, requiredDays: int, audit: int, now: int): (r: Reminder)
    ensures r.status == Pending && r.reminderDate == earliest + requiredDays
    ensures r.actualDays == ActualDays(earliest, audit)
  {
    Reminder(taskId, earliest, requiredDays, ActualDays(earliest, audit), earliest + requiredDays,
             Pending, now, None, None, None)
  }

  /** Active rows with the duplicate-check key (task, earliest date, days). */
  function ActiveWithKey(rows: map<int, Reminder>, taskId: int, earliest: int, days: int): (ids: set<int>)
    ensures forall id :: id in ids <==> (id in rows && Active(rows[id])
      && rows[id].taskId == taskId && rows[id].earliest == earliest && rows[id].requiredDays == days)
  {
    set id | id in rows && Active(rows[id])
      && rows[id].taskId == taskId && rows[id].earliest == earliest && rows[id].requiredDays == days
  }

  /** At most one active reminder per key: what the duplicate check keeps. */
  predicate ActiveKeysUnique(rows: map<int, Reminder>)
  {
    forall a, b :: a in rows && b in rows && a != b && Active(rows[a]) && Active(rows[b]) ==>
      (rows[a].taskId, rows[a].earliest, rows[a].requiredDays) != (rows[b].taskId, rows[b].earliest, rows[b].requiredDays)
  }

  /** Whether the sweep picks a row: pending and due on or before `today`. */
  predicate Due(r: Reminder, today: int) { r.status == Pending && r.reminderDate <= today }

  /** The table after `ProcessVideoReminders` on day `today` at time `now`. */
  function Sweep(rows: map<int, Reminder>, today: int, now: int): (res: map<int, Reminder>)
    ensures res.Keys == rows.Keys
  {
    map id | id in rows :: if Due(rows[id], today) then rows[id].(status := Notified, notifiedAt := Some(now)) else rows[id]
  }

  /** Non-completed reminders of one task. */
  function ActiveOfTask(rows: map<int, Reminder>, taskId: int): set<int>
  {
    set id | id in rows && rows[id].taskId == taskId && Active(rows[id])
  }

  /** An id above every used id is unused. */
  lemma FreshId(rows: map<int, Reminder>, next: int)
    requires forall id :: id in rows ==> id < next
    ensures next !in rows
  {
  }

  /** Adding a row whose key has no active row keeps the keys unique. */
  lemma InsertKeepsUnique(rows: map<int, Reminder>, id: int, r: Reminder)
    requires ActiveKeysUnique(rows) && id !in rows
    requires ActiveWithKey(rows, r.taskId, r.earliest, r.requiredDays) == {}
    ensures ActiveKeysUnique(rows[id := r])
  {
    var res := rows[id := r];
    forall a, b | a in res && b in res && a != b && Active(res[a]) && Active(res[b])
      ensures (res[a].taskId, res[a].earliest, res[a].requiredDays) != (res[b].taskId, res[b].earliest, res[b].requiredDays)
    {
      if a == id {
        assert b !in ActiveWithKey(rows, r.taskId, r.earliest, r.requiredDays);
      } else if b == id {
        assert a !in ActiveWithKey(rows, r.taskId, r.earliest, r.requiredDays);
      }
    }
  }

  class ReminderTable {
    var rows: map<int, Reminder>
    var nextId: int

    /** Ids are handed out by auto-increment and the duplicate check holds. */
    predicate Valid()
      reads this
    {
      (forall id :: id in rows ==> id < nextId) && ActiveKeysUnique(rows)
    }

    constructor()
      ensures Valid() && rows == map[] && nextId == 1
    {
      rows := map[];
      nextId := 1;
    }

    /** `CreateVideoReminder` of internal/auditprogress: skip an active
      * duplicate, otherwise insert one pending row. */
    method Create(taskId: int, earliest: int, requiredDays: int, audit: int, now: int,
                  checkFails: bool, insertFails: bool) returns (r: Outcome)
      requires Valid()
      modifies this
      ensures Valid()
      ensures r.Failure? <==> checkFails || (ActiveWithKey(old(rows), taskId, earliest, requiredDays) == {} && insertFails)
      ensures r.Failure? || ActiveWithKey(old(rows), taskId, earliest, requiredDays) != {} ==>
        rows == old(rows) && nextId == old(nextId)
      ensures r.Success? && ActiveWithKey(old(rows), taskId, earliest, requiredDays) == {} ==>
        rows == old(rows)[old(nextId) := NewReminder(taskId, earliest, requiredDays, audit, now)]
        && nextId == old(nextId) + 1
    {
      if checkFails {
        return Failure("query failed");
      }
      var count := |ActiveWithKey(rows, taskId, earliest, requiredDays)|;
      if count > 0 {
        return Success;
      }
      if insertFails {
        return Failure("insert failed");
      }
      var row := NewReminder(taskId, earliest, requiredDays, audit, now);
      FreshId(rows, nextId);
      InsertKeepsUnique(rows, nextId, row);
      rows := rows[nextId := row];
      nextId := nextId + 1;
      return Success;
    }

    /** `CreateVideoReminder` of code1/ops-web: the same, after refusing the
      * zero date before touching the table. */
    method CreateChecked(taskId: int, earliest: int, requiredDays: int, audit: int, now: int,
                         checkFails: bool, insertFails: bool) returns (r: Outcome)
      requires Valid()
      modifies this
      ensures Valid()
      ensures earliest == 0 ==> r == Failure("最早录像日期无效") && rows == old(rows) && nextId == old(nextId)
      ensures earliest != 0 ==>
        (r.Failure? <==> checkFails || (ActiveWithKey(old(rows), taskId, earliest, requiredDays) == {} && insertFails))
      ensures r.Failure? || ActiveWithKey(old(rows), taskId, earliest, requiredDays) != {} ==>
        rows == old(rows) && nextId == old(nextId)
      ensures r.Success? && ActiveWithKey(old(rows), taskId, earliest, requiredDays) == {} ==>
        rows == old(rows)[old(nextId) := NewReminder(taskId, earliest, requiredDays, audit, now)]
        && nextId == old(nextId) + 1
    {
      if earliest == 0 {
        return Failure("最早录像日期无效");
      }
      r := Create(taskId, earliest, requiredDays, audit, now, checkFails, insertFails);
    }

    /** `ProcessVideoReminders`: collect the due ids, then mark them all
      * notified in one statement. */
    method ProcessDue(today: int, now: int, queryFails: bool, updateFails: bool) returns (r: Outcome)
      requires Valid()
      modifies this
      ensures Valid() && nextId == old(nextId)
      ensures r.Failure? <==> queryFails || (updateFails && exists id :: id in old(rows) && Due(old(rows)[id], today))
      ensures r.Success? ==> rows == Sweep(old(rows), today, now)
      ensures r.Failure? ==> rows == old(rows)
    {
      if queryFails {
        return Failure("query failed");
      }
      var pending := rows.Keys;
      var ids: set<int> := {};
      while pending != {}
        invariant rows == old(rows) && nextId == old(nextId)
        invariant pending <= rows.Keys
        invariant forall id :: id in ids <==> id in rows && id !in pending && Due(rows[id], today)
        decreases pending
      {
        ghost var w := Pick(pending);
        var id :| id in pending;
        if Due(rows[id], today) {
          ids := ids + {id};
        }
        pending := pending - {id};
      }
      if |ids| == 0 {
        assert forall id :: id in rows ==> !Due(rows[id], today);
        assert Sweep(rows, today, now) == rows;
        return Success;
      }
      ghost var w := Pick(ids);
      if updateFails {
        return Failure("update failed");
      }
      SweepKeepsUnique(rows, today, now);
      var updated := map id | id in rows :: if id in ids then rows[id].(status := Notified, notifiedAt := Some(now)) else rows[id];
      forall id | id in rows
        ensures updated[id] == Sweep(rows, today, now)[id]
      {
        assert id in ids <==> Due(rows[id], today);
      }
      assert updated == Sweep(rows, today, now);
      rows := updated;
      return Success;
    }

    /** `CompleteVideoReminder`: whatever the prior status; an unknown id
      * changes nothing. */
    method Complete(id: int, username: string, now: int, updateFails: bool) returns (r: Outcome)
      requires Valid()
      modifies this
      ensures Valid() && nextId == old(nextId)
      ensures r.Failure? <==> updateFails
      ensures r.Failure? || id !in old(rows) ==> rows == old(rows)
      ensures r.Success? && id in old(rows) ==>
        rows == old(rows)[id := old(rows)[id].(status := Completed, completedAt := Some(now), completedBy := Some(username))]
    {
      if updateFails {
        return Failure("update failed");
      }
      if id in rows {
        rows := rows[id := rows[id].(status := Completed, completedAt := Some(now), completedBy := Some(username))];
      }
      return Success;
    }

    /** `DeleteVideoReminders` (code1/ops-web): an empty list is refused;
      * otherwise exactly the listed ids disappear. */
    method DeleteMany(ids: seq<int>, deleteFails: bool) returns (r: Outcome)
      requires Valid()
      modifies this
      ensures Valid() && nextId == old(nextId)
      ensures |ids| == 0 ==> r == Failure("提醒ID列表为空")
      ensures r.Failure? <==> |ids| == 0 || deleteFails
      ensures r.Failure? ==> rows == old(rows)
      ensures r.Success? ==> rows.Keys == old(rows).Keys - set i | i in ids
      ensures r.Success? ==> forall id :: id in rows ==> rows[id] == old(rows)[id]
    {
      if |ids| == 0 {
        return Failure("提醒ID列表为空");
      }
      if deleteFails {
        return Failure("delete failed");
      }
      rows := map id | id in rows && id !in ids :: rows[id];
      return Success;
    }

    /** `DeleteVideoReminder` (code1/ops-web). */
    method DeleteOne(id: int, deleteFails: bool) returns (r: Outcome)
      requires Valid()
      modifies this
      ensures Valid() && nextId == old(nextId)
      ensures r.Failure? <==> deleteFails
      ensures r.Failure? ==> rows == old(rows)
      ensures r.Success? ==> rows == old(rows) - {id}
    {
      if deleteFails {
        return Failure("delete failed");
      }
      rows := rows - {id};
      return Success;
    }

    /** `GetReminderCountByTaskID`. */
    method CountActive(taskId: int, queryFails: bool) returns (count: int, r: Outcome)
      ensures r.Failure? <==> queryFails
      ensures count == if queryFails then 0 else |ActiveOfTask(rows, taskId)|
    {
      if queryFails {
        return 0, Failure("query failed");
      }
      return |ActiveOfTask(rows, taskId)|, Success;
    }
  }

  // ---------------------------------------------------------------------
  // Properties of the reminder table

  /** The sweep only promotes pending rows to notified, so keys and
    * activity are unchanged and the duplicate check still holds. */
  lemma SweepKeepsUnique(rows: map<int, Reminder>, today: int, now: int)
    requires ActiveKeysUnique(rows)
    ensures ActiveKeysUnique(Sweep(rows, today, now))
  {
    var res := Sweep(rows, today, now);
    forall a, b | a in res && b in res && a != b && Active(res[a]) && Active(res[b])
      ensures (res[a].taskId, res[a].earliest, res[a].requiredDays) != (res[b].taskId, res[b].earliest, res[b].requiredDays)
    {
      assert Active(rows[a]) && Active(rows[b]);
    }
  }

  /** A second sweep on the same day changes nothing. */
  lemma SweepIdempotent(rows: map<int, Reminder>, today: int, now: int, later: int)
    ensures Sweep(Sweep(rows, today, now), today, later) == Sweep(rows, today, now)
  {
    var res := Sweep(rows, today, now);
    assert forall id :: id in res ==> !Due(res[id], today);
  }

  /** The sweep changes exactly the due rows, each to notified at `now`. */
  lemma SweepExact(rows: map<int, Reminder>, today: int, now: int, id: int)
    requires id in rows
    ensures Sweep(rows, today, now)[id] != rows[id] <==> Due(rows[id], today)
    ensures Due(rows[id], today) ==>
      Sweep(rows, today, now)[id].status == Notified && Sweep(rows, today, now)[id].notifiedAt == Some(now)
  {
  }

  /** With the duplicate check in force, a key has at most one active row. */
  lemma AtMostOneActive(rows: map<int, Reminder>, taskId: int, earliest: int, days: int)
    requires ActiveKeysUnique(rows)
    ensures |ActiveWithKey(rows, taskId, earliest, days)| <= 1
  {
    var s := ActiveWithKey(rows, taskId, earliest, days);
    if |s| > 1 {
      var a := Pick(s);
      assert |s - {a}| == |s| - 1;
      var b := Pick(s - {a});
      assert false;
    }
  }

  /** After a successful create the key has exactly one active row, whether
    * it was inserted now or already there. */
  lemma CreateEstablishesKey(rows: map<int, Reminder>, next: int, taskId: int, earliest: int, days: int, audit: int, now: int)
    requires ActiveKeysUnique(rows) && next !in rows
    ensures var after := if ActiveWithKey(rows, taskId, earliest, days) == {} then rows[next := NewReminder(taskId, earliest, days, audit, now)] else rows;
      |ActiveWithKey(after, taskId, earliest, days)| == 1
  {
    var s := ActiveWithKey(rows, taskId, earliest, days);
    if s == {} {
      var after := rows[next := NewReminder(taskId, earliest, days, audit, now)];
      assert ActiveWithKey(after, taskId, earliest, days) == {next};
    } else {
      AtMostOneActive(rows, taskId, earliest, days);
    }
  }

  /** Completing an active reminder of a task lowers that task's count by
    * one; completing anything else leaves it. */
  lemma CompleteCount(rows: map<int, Reminder>, id: int, username: string, now: int, taskId: int)
    requires id in rows
    ensures var after := rows[id := rows[id].(status := Completed, completedAt := Some(now), completedBy := Some(username))];
      ActiveOfTask(after, taskId) == ActiveOfTask(rows, taskId) - {id}
  {
  }

  /** The worked example: earliest 2024-01-01, 30 days required, audited on
    * 2024-01-20 at 10:00, gives 19 actual days and a reminder on
    * 2024-01-31. */
  lemma ReminderExample()
    ensures ActualDays(DayNumber(2024, 1, 1), Midnight(DayNumber(2024, 1, 20)) + 10 * SecondsPerHour) == 19
    ensures DayNumber(2024, 1, 1) + 30 == DayNumber(2024, 1, 31)
  {
    Day20240101();
  }

  // ---------------------------------------------------------------------
  // Reading rows back (`GetVideoReminders`)

  /** A row as the database hands it back and `rows.Scan` reads it: dates
    * and times as text, and the task's file name and organization joined
    * in. A reminder whose task was deleted joins NULL into those two plain
    * strings, so its scan fails: the listing sees such a row as `None`. */
  datatype StoredRow = StoredRow(id: int, taskId: int, earliestText: string, requiredDays: int,
    actualDays: int, reminderText: string, status: string, createdText: string,
    fileName: string, organization: string)

  /** A listed reminder with its dates parsed into wall-clock fields. */
  datatype ListedReminder = ListedReminder(id: int, taskId: int, earliest: Fields, requiredDays: int,
    actualDays: int, reminderDate: Fields, status: string, createdAt: Fields,
    fileName: string, organization: string)

  /** The parse of the first layout that accepts `s`, or Go's zero time. */
  function Lenient(layouts: seq<seq<Tok>>, s: string): (f: Fields)
    ensures ParseFirst(layouts, s).None? ==> f == ZeroTime
    ensures ParseFirst(layouts, s).Some? ==> exists i :: 0 <= i < |layouts| && Parse(layouts[i], s) == Some(f)
  {
    match ParseFirst(layouts, s)
    case Some(f) => f
    case None => ZeroTime
  }

  /** Layouts of the code1/ops-web listing for the two date columns. */
  const DateFormats: seq<seq<Tok>> :=
    [L_RFC3339, L_RFC3339Nano, L_RFC3339, L_ISOPlus8, L_ISO, L_DateTime, L_Date, L_SlashDateTime, L_SlashDate]

  /** Layouts of the code1/ops-web listing for the creation time. */
  const DateTimeFormats: seq<seq<Tok>> :=
    [L_RFC3339, L_RFC3339Nano, L_RFC3339, L_ISOPlus8, L_ISO, L_DateTime, L_DateTimeMicro, L_Date]

  /** How code1/ops-web re-parses one column: the list, then
    * `ParseInLocation` with two of its own layouts (the location only moves
    * the instant, not what is accepted), then the zero time. */
  datatype ReParse = ReParse(layouts: seq<seq<Tok>>, fallback1: seq<Tok>, fallback2: seq<Tok>)

  const DateReParse: ReParse := ReParse(DateFormats, L_ISO, L_Date)
  const TimeReParse: ReParse := ReParse(DateTimeFormats, L_DateTime, L_ISO)

  function LenientWithFallback(p: ReParse, s: string): Fields
  {
    if ParseFirst(p.layouts, s).Some? then ParseFirst(p.layouts, s).value
    else if Parse(p.fallback1, s).Some? then Parse(p.fallback1, s).value
    else if Parse(p.fallback2, s).Some? then Parse(p.fallback2, s).value
    else ZeroTime
  }

  /** The fallbacks can never succeed: their layouts are already in the
    * lists, so the re-parse is the list's first match or the zero time. */
  lemma FallbacksUnused(s: string)
    ensures LenientWithFallback(DateReParse, s) == Lenient(DateFormats, s)
    ensures LenientWithFallback(TimeReParse, s) == Lenient(DateTimeFormats, s)
  {
    assert DateFormats[4] == L_ISO && DateFormats[6] == L_Date;
    assert DateTimeFormats[5] == L_DateTime && DateTimeFormats[4] == L_ISO;
  }

  /** One listed row, as code1/ops-web builds it. */
  function ListRow(row: StoredRow): (r: ListedReminder)
    ensures r.id == row.id && r.taskId == row.taskId && r.status == row.status
    ensures r.requiredDays == row.requiredDays && r.actualDays == row.actualDays
    ensures r.fileName == row.fileName && r.organization == row.organization
  {
    ListedReminder(row.id, row.taskId,
      LenientWithFallback(DateReParse, row.earliestText), row.requiredDays, row.actualDays,
      LenientWithFallback(DateReParse, row.reminderText), row.status,
      LenientWithFallback(TimeReParse, row.createdText), row.fileName, row.organization)
  }

  /** Each date column of a listed row is the first layout's parse, or the
    * zero time when no layout accepts the text. */
  lemma ListRowLenient(row: StoredRow)
    ensures ListRow(row).earliest == Lenient(DateFormats, row.earliestText)
    ensures ListRow(row).reminderDate == Lenient(DateFormats, row.reminderText)
    ensures ListRow(row).createdAt == Lenient(DateTimeFormats, row.createdText)
  {
    FallbacksUnused(row.earliestText);
    FallbacksUnused(row.reminderText);
    FallbacksUnused(row.createdText);
  }

  /** One listed row, as internal/auditprogress builds it: a single layout
    * per column, errors ignored. */
  function ListRowPlain(row: StoredRow): ListedReminder
  {
    ListedReminder(row.id, row.taskId, Lenient([L_Date], row.earliestText), row.requiredDays, row.actualDays,
      Lenient([L_Date], row.reminderText), row.status, Lenient([L_DateTime], row.createdText),
      row.fileName, row.organization)
  }

  /** The row loop of `GetVideoReminders`: a row whose scan fails is
    * skipped, every other row is converted and listed, in order; a row whose
    * dates do not parse is kept (with the zero time), never dropped. */
  method ListRows(convert: StoredRow -> ListedReminder, stored: seq<Option<StoredRow>>)
    returns (listed: seq<ListedReminder>)
    ensures |listed| == |Scanned(stored)|
    ensures forall i :: 0 <= i < |listed| ==> listed[i] == convert(Scanned(stored)[i])
  {
    listed := [];
    var k := 0;
    while k < |stored|
      invariant 0 <= k <= |stored| && |listed| == |Scanned(stored[..k])|
      invariant forall i :: 0 <= i < |listed| ==> listed[i] == convert(Scanned(stored[..k])[i])
    {
      ScannedStep(stored, k);
      if stored[k].Some? {
        listed := listed + [convert(stored[k].value)];
      }
      k := k + 1;
    }
    assert stored[..k] == stored;
  }

  /** `GetVideoReminders` of code1/ops-web. */
  method ListReminders(stored: seq<Option<StoredRow>>) returns (listed: seq<ListedReminder>)
    ensures |listed| == |Scanned(stored)|
    ensures forall i :: 0 <= i < |listed| ==> listed[i] == ListRow(Scanned(stored)[i])
  {
    listed := ListRows(ListRow, stored);
  }

  /** `GetVideoReminders` of internal/auditprogress. */
  method ListRemindersPlain(stored: seq<Option<StoredRow>>) returns (listed: seq<ListedReminder>)
    ensures |listed| == |Scanned(stored)|
    ensures forall i :: 0 <= i < |listed| ==> listed[i] == ListRowPlain(Scanned(stored)[i])
  {
    listed := ListRows(ListRowPlain, stored);
  }

  // ---------------------------------------------------------------------
  // Schedule configuration

  /** The configuration the scheduler works from. */
  datatype ScheduleConfig = ScheduleConfig(frequency: string, hour: int, dayOfWeek: Option<int>, enabled: bool)

  /** What the program falls back to: every day at 01:00, enabled. */
  const DefaultConfig: ScheduleConfig := ScheduleConfig("daily", 1, None, true)

  datatype ConfigRow = ConfigRow(id: int, config: ScheduleConfig, updatedBy: string)

  /** `day_of_week` is stored only for a weekly schedule with a positive day. */
  function StoredDayOfWeek(frequency: string, dayOfWeek: int): (d: Option<int>)
    ensures d.Some? <==> frequency == "weekly" && dayOfWeek > 0
    ensures d.Some? ==> d.value == dayOfWeek
  {
    if frequency == "weekly" && dayOfWeek > 0 then Some(dayOfWeek) else None
  }

  /** The enabled row with the largest id (`WHERE enabled = 1 ORDER BY id
    * DESC LIMIT 1`), rows being kept in id order. */
  function NewestEnabled(rows: seq<ConfigRow>): (r: Option<ConfigRow>)
    ensures r.Some? ==> r.value in rows && r.value.config.enabled
    ensures r.None? <==> forall i :: 0 <= i < |rows| ==> !rows[i].config.enabled
    ensures r.Some? ==> exists k :: (0 <= k < |rows| && rows[k] == r.value
      && forall i :: k < i < |rows| ==> !rows[i].config.enabled)
  {
    if |rows| == 0 then None
    else if rows[|rows| - 1].config.enabled then Some(rows[|rows| - 1])
    else
      var r := NewestEnabled(rows[..|rows| - 1]);
      assert forall i :: 0 <= i < |rows| - 1 ==> rows[i] == rows[..|rows| - 1][i];
      r
  }

  /** The row with the largest id, enabled or not. */
  function Newest(rows: seq<ConfigRow>): (r: Option<ConfigRow>)
    ensures r.None? <==> |rows| == 0
    ensures r.Some? ==> r.value == rows[|rows| - 1]
  {
    if |rows| == 0 then None else Some(rows[|rows| - 1])
  }

  /** The form of the schedule page (internal/auditprogress/handler.go):
    * frequency daily or weekly, hour 1-24, a weekday 1-7 for weekly only,
    * and enabled when the field is "1". The result is what gets saved. */
  function ParseScheduleForm(frequency: string, hourText: string, dayText: string, enabledText: string): (r: Result<(string, int, int, bool)>)
    ensures r.Ok? <==> ((frequency == "daily" || frequency == "weekly")
      && Atoi(hourText).Some? && 1 <= Atoi(hourText).value <= 24
      && (frequency == "weekly" ==> Atoi(dayText).Some? && 1 <= Atoi(dayText).value <= 7))
    ensures r.Ok? ==> r.value == (frequency, Atoi(hourText).value,
      if frequency == "weekly" then Atoi(dayText).value else 0, enabledText == "1")
  {
    if frequency != "daily" && frequency != "weekly" then Err("无效的执行频率")
    else
      match Atoi(hourText)
      case None => Err("无效的执行时间")
      case Some(hour) =>
        if hour < 1 || hour > 24 then Err("无效的执行时间")
        else if frequency == "weekly" then
          match Atoi(dayText)
          case None => Err("无效的星期几")
          case Some(day) =>
            if day < 1 || day > 7 then Err("无效的星期几") else Ok((frequency, hour, day, enabledText == "1"))
        else Ok((frequency, hour, 0, enabledText == "1"))
  }

  /** `GetScheduleConfig` as written: only enabled rows are read, so the
    * result is always enabled. */
  function ReadConfig(rows: seq<ConfigRow>): (c: ScheduleConfig)
    ensures c.enabled
    ensures NewestEnabled(rows).None? ==> c == DefaultConfig
    ensures NewestEnabled(rows).Some? ==> c == NewestEnabled(rows).value.config
  {
    match NewestEnabled(rows)
    case Some(row) => row.config
    case None => DefaultConfig
  }

  /** The corrected read: the newest row whatever its enabled flag, the
    * default only for an empty table. */
  function ReadConfigIntended(rows: seq<ConfigRow>): (c: ScheduleConfig)
    ensures |rows| == 0 ==> c == DefaultConfig
    ensures |rows| > 0 ==> c == rows[|rows| - 1].config
  {
    match Newest(rows)
    case Some(row) => row.config
    case None => DefaultConfig
  }

  class ScheduleConfigTable {
    var rows: seq<ConfigRow>
    var nextId: int

    /** Ids increase along the sequence and stay below the next id. */
    predicate Valid()
      reads this
    {
      (forall i, j :: 0 <= i < j < |rows| ==> rows[i].id < rows[j].id)
      && (forall i :: 0 <= i < |rows| ==> rows[i].id < nextId)
    }

    constructor()
      ensures Valid() && rows == [] && nextId == 1
    {
      rows := [];
      nextId := 1;
    }

    /** `GetScheduleConfig`, with the query's own failure. */
    method Get(queryFails: bool) returns (r: Result<ScheduleConfig>)
      ensures queryFails ==> r.Err?
      ensures !queryFails ==> r == Ok(ReadConfig(rows))
    {
      if queryFails {
        return Err("query failed");
      }
      return Ok(ReadConfig(rows));
    }

    /** The corrected `GetScheduleConfig`. */
    method GetIntended(queryFails: bool) returns (r: Result<ScheduleConfig>)
      ensures queryFails ==> r.Err?
      ensures !queryFails ==> r == Ok(ReadConfigIntended(rows))
    {
      if queryFails {
        return Err("query failed");
      }
      return Ok(ReadConfigIntended(rows));
    }

    /** `SaveScheduleConfig`: delete every row (a failure is only logged),
      * then insert the new one (a failure is returned). */
    method Save(frequency: string, hour: int, dayOfWeek: int, enabled: bool, username: string,
                deleteFails: bool, insertFails: bool) returns (r: Outcome)
      requires Valid()
      modifies this
      ensures Valid()
      ensures r.Failure? <==> insertFails
      ensures rows == (if deleteFails then old(rows) else []) + (if insertFails then []
          else [ConfigRow(old(nextId), ScheduleConfig(frequency, hour, StoredDayOfWeek(frequency, dayOfWeek), enabled), username)])
      ensures nextId == if insertFails then old(nextId) else old(nextId) + 1
    {
      if !deleteFails {
        rows := [];
      }
      if insertFails {
        return Failure("insert failed");
      }
      var row := ConfigRow(nextId, ScheduleConfig(frequency, hour, StoredDayOfWeek(frequency, dayOfWeek), enabled), username);
      rows := rows + [row];
      nextId := nextId + 1;
      return Success;
    }
  }

  /** An enabled configuration just saved is what both reads return,
    * whatever rows a failed delete left behind. */
  lemma ReadAfterEnabledSave(kept: seq<ConfigRow>, row: ConfigRow)
    requires row.config.enabled
    ensures ReadConfig(kept + [row]) == row.config
    ensures ReadConfigIntended(kept + [row]) == row.config
  {
  }

  /** As written, a disabled configuration saved over a cleared table reads
    * back as the enabled default (daily, 01:00). */
  lemma DisabledSaveReadsEnabled(row: ConfigRow)
    requires !row.config.enabled
    ensures ReadConfig([row]) == DefaultConfig
    ensures ReadConfig([row]).enabled
  {
  }

  /** The corrected read returns the saved configuration, disabled or not. */
  lemma {:induction false} ReadIntendedAfterSave(kept: seq<ConfigRow>, row: ConfigRow)
    ensures ReadConfigIntended(kept + [row]) == row.config
  {
    assert (kept + [row])[|kept + [row]| - 1] == row;
  }
}
