/** The audit workflow of the two progress packages (internal/auditprogress
  * and internal/checkpointprogress): task rows, their detail rows, the
  * audit-history table and the sample-record table, and the transactions
  * the edit, sample and delete pages run on them.
  *
  * A transaction is a method that either applies every change or returns a
  * `Failure` with the tables as they were. Which statements the database
  * refuses is the parameter `fails`; `NOW()` is the parameter `now`
  * (seconds, see module Calendar). */
module Workflow {
  import opened Wrappers
  import opened Sets
  import opened Text
  import Events
  import Reminders
  import VideoDays

  const StatusUnreviewed: string := "未审核"
  const StatusNeedsFix: string := "已审核待整改"
  const StatusCompleted: string := "已完成"
  const ResultPassed: string := "通过"
  const ResultNeedsFix: string := "待整改"
  /** The auditor recorded when nobody is logged in. */
  const SystemAuditor: string := "系统"
  const ErrNoRows: string := "sql: no rows in result set"
  const MsgNotFound: string := "档案不存在"

  /** The three statuses the edit form accepts. */
  predicate ValidStatus(s: string)
  {
    s == StatusUnreviewed || s == StatusNeedsFix || s == StatusCompleted
  }

  /** A sample result the sample form accepts: none, passed or needs fixing. */
  predicate ValidResult(s: string)
  {
    s == "" || s == ResultPassed || s == ResultNeedsFix
  }

  /** One task row. `comment` is NULL-able; `lastSampledAt` and
    * `completedAt` are NULL-able times. The audit package's table has no
    * `completed_at`; its operations leave that field alone. */
  datatype Task = Task(comment: Option<string>, status: string, updatedAt: int,
                       isSampled: int, lastSampledAt: Option<int>, completedAt: Option<int>)

  /** A detail row: the task it belongs to and its audit status code. */
  datatype Detail = Detail(taskId: int, auditStatus: int)

  datatype HistoryEntry = HistoryEntry(id: int, taskId: int, comment: Option<string>, status: string,
                                       auditor: string, time: int)

  datatype SampleRecord = SampleRecord(id: int, taskId: int, sampledBy: string, sampledAt: int,
                                       comment: Option<string>, result: Option<string>)

  /** The statements of the transactions, named so a caller can say which
    * of them the database refuses. */
  datatype Stmt = Begin | ReadTask | InsertHistory | UpdateTask | UpdateDetails
    | CheckReminder | InsertReminder | CheckFix | ResetSample
    | InsertSample | MarkSampled | DeleteHistory | DeleteSamples | DeleteDetails | DeleteTask | Commit

  // ---------------------------------------------------------------------
  // Values stored by the transactions

  /** A NULL-able text column read into a Go string: NULL reads as "". */
  function StoredText(c: Option<string>): string
  {
    if c.Some? then c.value else ""
  }

  /** The value bound for a text that is stored as NULL when empty. */
  function NullIfEmpty(s: string): (r: Option<string>)
    ensures StoredText(r) == s
    ensures r.Some? ==> r.value != ""
  {
    if s == "" then None else Some(s)
  }

  function Auditor(user: Option<string>): string
  {
    if user.Some? then user.value else SystemAuditor
  }

  /** The edit changes the stored comment or the status. */
  predicate NeedsHistory(t: Task, comment: string, status: string)
  {
    StoredText(t.comment) != comment || t.status != status
  }

  /** What `SaveAuditHistory` appends: one entry holding the values the task
    * had before the edit when the edit changes something, else nothing. */
  function Snapshot(id: int, taskId: int, t: Task, comment: string, status: string,
                    user: Option<string>, now: int): (r: seq<HistoryEntry>)
    ensures |r| <= 1
    ensures |r| == 1 <==> NeedsHistory(t, comment, status)
    ensures |r| == 1 ==> (r[0].taskId == taskId && r[0].status == t.status
      && StoredText(r[0].comment) == StoredText(t.comment) && r[0].auditor == Auditor(user))
    ensures |r| == 1 ==> (r[0].comment.None? <==> StoredText(t.comment) == "")
  {
    if NeedsHistory(t, comment, status) then
      [HistoryEntry(id, taskId, NullIfEmpty(StoredText(t.comment)), t.status, Auditor(user), now)]
    else []
  }

  /** The task update of both edit pages: comment (NULL when empty), status
    * and `updated_at`. */
  function EditedTask(t: Task, comment: string, status: string, now: int): (r: Task)
    ensures StoredText(r.comment) == comment && r.status == status && r.updatedAt == now
    ensures r.isSampled == t.isSampled && r.lastSampledAt == t.lastSampledAt
    ensures r.completedAt == t.completedAt
  {
    t.(comment := NullIfEmpty(comment), status := status, updatedAt := now)
  }

  /** `completed_at` is set by the first edit to 已完成 and kept afterwards. */
  function FirstCompletion(completedAt: Option<int>, status: string, now: int): Option<int>
  {
    if status == StatusCompleted && completedAt.None? then Some(now) else completedAt
  }

  /** The checkpoint task update: the audit update plus `completed_at`, and,
    * for a task marked fixed, the sampling flags reset. */
  function CheckpointEdited(t: Task, comment: string, status: string, now: int, fixed: bool): (r: Task)
    ensures StoredText(r.comment) == comment && r.status == status && r.updatedAt == now
    ensures fixed ==> r.isSampled == 0 && r.lastSampledAt.None?
    ensures !fixed ==> r.isSampled == t.isSampled && r.lastSampledAt == t.lastSampledAt
    ensures t.completedAt.Some? ==> r.completedAt == t.completedAt
    ensures t.completedAt.None? ==> (r.completedAt.Some? <==> status == StatusCompleted)
  {
    var e := EditedTask(t, comment, status, now).(completedAt := FirstCompletion(t.completedAt, status, now));
    if fixed then e.(isSampled := 0, lastSampledAt := None) else e
  }

  /** The task status a detail status code stands for. */
  function CodeStatus(code: int): string
  {
    if code == 1 then StatusNeedsFix else if code == 2 then StatusCompleted else StatusUnreviewed
  }

  /** The detail status code for a task status: 0, 1 or 2, one per valid
    * status (unknown statuses fall to 0). */
  function DetailCode(status: string): (code: int)
    ensures 0 <= code <= 2
    ensures ValidStatus(status) ==> CodeStatus(code) == status
    ensures !ValidStatus(status) ==> code == 0
  {
    if status == StatusUnreviewed then 0
    else if status == StatusNeedsFix then 1
    else if status == StatusCompleted then 2
    else 0
  }

  /** Every detail row of the task gets the code; no other row changes. */
  function Cascade(details: map<int, Detail>, taskId: int, code: int): (r: map<int, Detail>)
    ensures r.Keys == details.Keys
    ensures forall d :: d in r ==> r[d].taskId == details[d].taskId
    ensures forall d :: d in r ==> r[d].auditStatus == if details[d].taskId == taskId then code else details[d].auditStatus
  {
    map d | d in details :: if details[d].taskId == taskId then details[d].(auditStatus := code) else details[d]
  }

  /** The detail rows of other tasks. */
  function DetailsWithout(details: map<int, Detail>, taskId: int): (r: map<int, Detail>)
    ensures forall d :: d in r <==> d in details && details[d].taskId != taskId
    ensures forall d :: d in r ==> r[d] == details[d]
  {
    map d | d in details && details[d].taskId != taskId :: details[d]
  }

  function SampledTask(t: Task, now: int): Task
  {
    t.(isSampled := 1, lastSampledAt := Some(now))
  }

  // ---------------------------------------------------------------------
  // Listing order

  /** The elements of `s` that `keep` accepts, in order. */
  function Filter<T(!new)>(s: seq<T>, keep: T -> bool): (r: seq<T>)
    ensures |r| <= |s|
    ensures forall x :: x in r <==> x in s && keep(x)
    ensures forall i :: 0 <= i < |r| ==> keep(r[i])
  {
    if |s| == 0 then []
    else if keep(s[0]) then [s[0]] + Filter(s[1..], keep)
    else Filter(s[1..], keep)
  }

  function HistoryOf(h: seq<HistoryEntry>, taskId: int): seq<HistoryEntry>
  {
    Filter(h, (e: HistoryEntry) => e.taskId == taskId)
  }

  function HistoryNotOf(h: seq<HistoryEntry>, taskId: int): seq<HistoryEntry>
  {
    Filter(h, (e: HistoryEntry) => e.taskId != taskId)
  }

  function SamplesOf(s: seq<SampleRecord>, taskId: int): seq<SampleRecord>
  {
    Filter(s, (e: SampleRecord) => e.taskId == taskId)
  }

  function SamplesNotOf(s: seq<SampleRecord>, taskId: int): seq<SampleRecord>
  {
    Filter(s, (e: SampleRecord) => e.taskId != taskId)
  }

  /** Dropping a task's history keeps every id below the counter. */
  lemma KeepsIdsBelow(h: seq<HistoryEntry>, taskId: int, next: int)
    requires forall i :: 0 <= i < |h| ==> h[i].id < next
    ensures forall i :: 0 <= i < |HistoryNotOf(h, taskId)| ==> HistoryNotOf(h, taskId)[i].id < next
  {
    var r := HistoryNotOf(h, taskId);
    forall i | 0 <= i < |r| ensures r[i].id < next {
      assert r[i] in h;
    }
  }

  /** Dropping a task's sample records keeps every id below the counter. */
  lemma KeepsSampleIdsBelow(s: seq<SampleRecord>, taskId: int, next: int)
    requires forall i :: 0 <= i < |s| ==> s[i].id < next
    ensures forall i :: 0 <= i < |SamplesNotOf(s, taskId)| ==> SamplesNotOf(s, taskId)[i].id < next
  {
    var r := SamplesNotOf(s, taskId);
    forall i | 0 <= i < |r| ensures r[i].id < next {
      assert r[i] in s;
    }
  }

  function EntryTime(e: HistoryEntry): int { e.time }
  function SampleTime(e: SampleRecord): int { e.sampledAt }

  /** `ORDER BY <time> DESC`. */
  predicate NewestFirst<T(!new)>(s: seq<T>, key: T -> int)
  {
    forall i, j :: 0 <= i < j < |s| ==> key(s[i]) >= key(s[j])
  }

  /** Insert into a newest-first list after the entries newer than `x`. */
  function InsertNewest<T(!new)>(x: T, s: seq<T>, key: T -> int): (r: seq<T>)
    ensures multiset(r) == multiset(s) + multiset{x}
  {
    if |s| == 0 || key(x) >= key(s[0]) then [x] + s
    else
      assert s == [s[0]] + s[1..];
      [s[0]] + InsertNewest(x, s[1..], key)
  }

  /** Inserting an entry no newer than a bound keeps every entry within it. */
  lemma {:induction false} InsertNewestBounded<T(!new)>(x: T, s: seq<T>, key: T -> int, bound: int)
    requires key(x) <= bound
    requires forall i :: 0 <= i < |s| ==> key(s[i]) <= bound
    ensures forall i :: 0 <= i < |InsertNewest(x, s, key)| ==> key(InsertNewest(x, s, key)[i]) <= bound
  {
    if |s| > 0 && key(x) < key(s[0]) {
      InsertNewestBounded(x, s[1..], key, bound);
    }
  }

  lemma {:induction false} InsertNewestSorted<T(!new)>(x: T, s: seq<T>, key: T -> int)
    requires NewestFirst(s, key)
    ensures NewestFirst(InsertNewest(x, s, key), key)
  {
    var r := InsertNewest(x, s, key);
    if |s| == 0 || key(x) >= key(s[0]) {
      forall i, j | 0 <= i < j < |r|
        ensures key(r[i]) >= key(r[j])
      {
        if i == 0 && j > 1 {
          assert key(s[0]) >= key(s[j - 1]);
        }
      }
    } else {
      var tail := InsertNewest(x, s[1..], key);
      InsertNewestSorted(x, s[1..], key);
      InsertNewestBounded(x, s[1..], key, key(s[0]));
      forall i, j | 0 <= i < j < |r|
        ensures key(r[i]) >= key(r[j])
      {
        if i > 0 {
          assert r[i] == tail[i - 1] && r[j] == tail[j - 1];
        } else {
          assert r[j] == tail[j - 1];
        }
      }
    }
  }

  /** The rows of a query that sorts newest first. */
  function SortNewestFirst<T(!new)>(s: seq<T>, key: T -> int): (r: seq<T>)
    ensures multiset(r) == multiset(s)
  {
    if |s| == 0 then []
    else
      assert s == [s[0]] + s[1..];
      InsertNewest(s[0], SortNewestFirst(s[1..], key), key)
  }

  lemma {:induction false} SortNewestFirstSorted<T(!new)>(s: seq<T>, key: T -> int)
    ensures NewestFirst(SortNewestFirst(s, key), key)
  {
    if |s| > 0 {
      SortNewestFirstSorted(s[1..], key);
      InsertNewestSorted(s[0], SortNewestFirst(s[1..], key), key);
    }
  }

  /** `ORDER BY <time> DESC LIMIT 1`. */
  function Latest<T(!new)>(s: seq<T>, key: T -> int): (r: Option<T>)
    ensures r.None? <==> |s| == 0
    ensures r.Some? ==> r.value in s && forall y :: y in s ==> key(y) <= key(r.value)
  {
    var sorted := SortNewestFirst(s, key);
    if |sorted| == 0 then
      assert multiset(s) == multiset{};
      None
    else
      SortNewestFirstSorted(s, key);
      assert sorted[0] in multiset(s);
      forall y | y in s
        ensures key(y) <= key(sorted[0])
      {
        assert y in multiset(sorted);
        var j :| 0 <= j < |sorted| && sorted[j] == y;
        if j > 0 {
          assert key(sorted[0]) >= key(sorted[j]);
        }
      }
      Some(sorted[0])
  }

  /** A record strictly newer than every earlier one is the latest. */
  lemma LatestOfNewer<T(!new)>(s: seq<T>, x: T, key: T -> int)
    requires forall y :: y in s ==> key(y) < key(x)
    ensures Latest(s + [x], key) == Some(x)
  {
    assert x in s + [x];
  }

  /** `GetAuditHistory`: the task's entries, newest first; a failed query is
    * an error. */
  function GetAuditHistory(history: seq<HistoryEntry>, taskId: int, queryFails: bool): (r: Result<seq<HistoryEntry>>)
    ensures r.Err? <==> queryFails
    ensures r.Ok? ==> NewestFirst(r.value, EntryTime)
    ensures r.Ok? ==> multiset(r.value) == multiset(HistoryOf(history, taskId))
  {
    if queryFails then Err("query failed")
    else
      SortNewestFirstSorted(HistoryOf(history, taskId), EntryTime);
      Ok(SortNewestFirst(HistoryOf(history, taskId), EntryTime))
  }

  /** `GetSampleHistory`: the task's sample records, newest first. */
  function GetSampleHistory(samples: seq<SampleRecord>, taskId: int, queryFails: bool): (r: Result<seq<SampleRecord>>)
    ensures r.Err? <==> queryFails
    ensures r.Ok? ==> NewestFirst(r.value, SampleTime)
    ensures r.Ok? ==> multiset(r.value) == multiset(SamplesOf(samples, taskId))
  {
    if queryFails then Err("query failed")
    else
      SortNewestFirstSorted(SamplesOf(samples, taskId), SampleTime);
      Ok(SortNewestFirst(SamplesOf(samples, taskId), SampleTime))
  }

  /** The result of the task's latest sample, NULL when it has none. */
  function LatestResult(samples: seq<SampleRecord>, taskId: int): Option<string>
  {
    var latest := Latest(SamplesOf(samples, taskId), SampleTime);
    if latest.Some? then latest.value.result else None
  }

  /** The checkpoint page accepts "fixed" only for a completed task whose
    * latest sample asked for fixing. */
  predicate FixAllowed(t: Task, samples: seq<SampleRecord>, taskId: int)
  {
    t.status == StatusCompleted && LatestResult(samples, taskId) == Some(ResultNeedsFix)
  }

  // ---------------------------------------------------------------------
  // Sample information

  /** `SampleInfo`; `lastSampledAt` is the time before display formatting. */
  datatype SampleInfo = SampleInfo(isSampled: bool, lastSampledAt: Option<int>, sampledBy: string,
                                   count: nat, lastResult: string)

  const Unsampled: SampleInfo := SampleInfo(false, None, "", 0, "")

  /** `GetSampleInfo`. `taskFails`, `latestFails` and `countFails` say
    * which of its three queries fail; only the first is reported. */
  function GetSampleInfo(tasks: map<int, Task>, samples: seq<SampleRecord>, taskId: int,
                         taskFails: bool, latestFails: bool, countFails: bool): (r: Result<SampleInfo>)
    ensures r.Err? <==> taskFails
    ensures !taskFails && taskId !in tasks ==> r == Ok(Unsampled)
    ensures r.Ok? && taskId in tasks ==>
      r.value.isSampled == (tasks[taskId].isSampled == 1) && r.value.lastSampledAt == tasks[taskId].lastSampledAt
    ensures r.Ok? && taskId in tasks ==> r.value.count == if countFails then 0 else |SamplesOf(samples, taskId)|
    ensures r.Ok? && taskId in tasks ==>
      var latest := Latest(SamplesOf(samples, taskId), SampleTime);
      if tasks[taskId].lastSampledAt.Some? && !latestFails && latest.Some? then
        r.value.sampledBy == latest.value.sampledBy && r.value.lastResult == StoredText(latest.value.result)
      else r.value.sampledBy == "" && r.value.lastResult == ""
    ensures r.Ok? && r.value.sampledBy != "" ==>
      exists rec :: rec in samples && rec.taskId == taskId && rec.sampledBy == r.value.sampledBy
  {
    if taskFails then Err("query failed")
    else if taskId !in tasks then Ok(Unsampled)
    else
      var t := tasks[taskId];
      var recs := SamplesOf(samples, taskId);
      var base := SampleInfo(t.isSampled == 1, t.lastSampledAt, "", if countFails then 0 else |recs|, "");
      var latest := Latest(recs, SampleTime);
      if t.lastSampledAt.Some? && !latestFails && latest.Some? then
        Ok(base.(sampledBy := latest.value.sampledBy, lastResult := StoredText(latest.value.result)))
      else Ok(base)
  }

  /** One entry of `BatchGetSampleInfo`: the task's flags, then, when the
    * combined latest-and-count query succeeds (the task has a record), the
    * latest sampler and result and the count. Unlike `GetSampleInfo` it
    * looks at the records whether or not `last_sampled_at` is set. */
  function BatchInfo(t: Task, recs: seq<SampleRecord>, lookupFails: bool): (r: SampleInfo)
    ensures r.isSampled == (t.isSampled == 1) && r.lastSampledAt == t.lastSampledAt
    ensures r.count == if lookupFails then 0 else |recs|
  {
    var base := SampleInfo(t.isSampled == 1, t.lastSampledAt, "", 0, "");
    var latest := Latest(recs, SampleTime);
    if !lookupFails && latest.Some? then
      base.(sampledBy := latest.value.sampledBy, lastResult := StoredText(latest.value.result), count := |recs|)
    else base
  }

  /** For a task with `last_sampled_at` set, the batch reader and the single
    * reader agree. */
  lemma BatchAgreesWhenSampled(tasks: map<int, Task>, samples: seq<SampleRecord>, taskId: int)
    requires taskId in tasks && tasks[taskId].lastSampledAt.Some?
    ensures GetSampleInfo(tasks, samples, taskId, false, false, false)
      == Ok(BatchInfo(tasks[taskId], SamplesOf(samples, taskId), false))
  {
  }

  /** After a "fixed" reset the task keeps its records but loses
    * `last_sampled_at`; the batch reader then still names the last sampler
    * while the single reader does not. */
  lemma BatchDiffersAfterReset()
    ensures var t := Task(Some("ok"), StatusCompleted, 0, 0, None, Some(0));
            var rec := SampleRecord(1, 7, "li", 100, None, Some(ResultNeedsFix));
            BatchInfo(t, SamplesOf([rec], 7), false).sampledBy == "li"
            && GetSampleInfo(map[7 := t], [rec], 7, false, false, false).value.sampledBy == ""
  {
    var rec := SampleRecord(1, 7, "li", 100, None, Some(ResultNeedsFix));
    assert SamplesOf([rec], 7) == [rec];
  }

  // ---------------------------------------------------------------------
  // The tables and their transactions

  /** Task id from the form: a decimal integer above 0. */
  function FormTaskId(text: string): Option<int>
  {
    var n := Atoi(text);
    if n.Some? && n.value > 0 then n else None
  }

  datatype EditForm = EditForm(taskId: string, comment: string, status: string, fixed: string)

  /** The checks both edit pages make before opening a transaction. */
  predicate ValidEdit(f: EditForm)
  {
    FormTaskId(f.taskId).Some? && ValidStatus(TrimSpace(f.status))
  }

  /** The statements an edit runs before its commit all succeed. */
  predicate EditRuns(fails: set<Stmt>, needsHistory: bool, fixed: bool)
  {
    Begin !in fails && ReadTask !in fails && (needsHistory ==> InsertHistory !in fails)
    && UpdateTask !in fails && UpdateDetails !in fails && (fixed ==> ResetSample !in fails)
  }

  /** ... and so does the commit. */
  predicate EditCommits(fails: set<Stmt>, needsHistory: bool, fixed: bool)
  {
    EditRuns(fails, needsHistory, fixed) && Commit !in fails
  }

  /** The task row an edit writes, in the audit or the checkpoint package. */
  function EditFor(t: Task, comment: string, status: string, now: int, checkpoint: bool, fixed: bool): Task
  {
    if checkpoint then CheckpointEdited(t, comment, status, now, fixed) else EditedTask(t, comment, status, now)
  }

  /** The reminder rows after the audit edit's reminder step: a reminder is
    * attempted only for a non-empty comment the extractor accepts, and is
    * inserted only when no active reminder has the same key. */
  function ReminderRows(rows: map<int, Reminders.Reminder>, next: int, taskId: int, comment: string,
                        now: int, fails: set<Stmt>): map<int, Reminders.Reminder>
  {
    var issue := if comment == "" then VideoDays.NotFound else VideoDays.ParseVideoDaysIssue(comment);
    if issue.found && CheckReminder !in fails && InsertReminder !in fails
       && Reminders.ActiveWithKey(rows, taskId, issue.earliest, issue.requiredDays) == {}
    then rows[next := Reminders.NewReminder(taskId, issue.earliest, issue.requiredDays, now, now)]
    else rows
  }

  /** Rows added by the audit edit are pending reminders for this task, for
    * a comment the extractor accepted, due `requiredDays` after the earliest
    * video date. */
  lemma ReminderOnlyForAcceptedComment(rows: map<int, Reminders.Reminder>, next: int, taskId: int,
                                       comment: string, now: int, fails: set<Stmt>)
    requires next !in rows
    ensures var after := ReminderRows(rows, next, taskId, comment, now, fails);
      after != rows ==>
        comment != "" && VideoDays.ParseVideoDaysIssue(comment).found
        && after == rows[next := after[next]] && after[next].taskId == taskId
        && after[next].status == Reminders.Pending
        && after[next].reminderDate == after[next].earliest + after[next].requiredDays
        && VideoDays.AcceptedDays(after[next].requiredDays)
  {
  }

  /** The reminder step of the audit edit: extract the issue from a
    * non-empty comment and, when one is found, `CreateVideoReminder`; its
    * failure is ignored. */
  method AddReminder(reminders: Reminders.ReminderTable, taskId: int, comment: string, now: int, fails: set<Stmt>)
    requires reminders.Valid()
    modifies reminders
    ensures reminders.Valid() && reminders.nextId >= old(reminders.nextId)
    ensures reminders.rows == ReminderRows(old(reminders.rows), old(reminders.nextId), taskId, comment, now, fails)
  {
    if comment != "" {
      var issue := VideoDays.ParseVideoDaysIssue(comment);
      if issue.found {
        var _ := reminders.Create(taskId, issue.earliest, issue.requiredDays, now, now,
                                  CheckReminder in fails, InsertReminder in fails);
      }
    }
  }

  datatype SampleForm = SampleForm(taskId: string, comment: string, result: string)

  /** The checks of the sample pages: a task that exists and is completed, a
    * logged-in user and a known result. */
  predicate SampleAccepted(f: SampleForm, user: Option<string>, tasks: map<int, Task>)
  {
    var id := FormTaskId(f.taskId);
    id.Some? && id.value in tasks && tasks[id.value].status == StatusCompleted
    && user.Some? && ValidResult(TrimSpace(f.result))
  }

  predicate SampleCommits(fails: set<Stmt>)
  {
    Begin !in fails && InsertSample !in fails && MarkSampled !in fails && Commit !in fails
  }

  function NewSample(id: int, taskId: int, user: string, now: int, comment: string, result: string): SampleRecord
  {
    SampleRecord(id, taskId, user, now, NullIfEmpty(comment), NullIfEmpty(result))
  }

  class TaskStore {
    var tasks: map<int, Task>
    var details: map<int, Detail>
    var history: seq<HistoryEntry>
    var samples: seq<SampleRecord>
    var nextHistoryId: int
    var nextSampleId: int

    /** Auto-increment ids stay ahead of every stored id. */
    predicate Valid()
      reads this
    {
      (forall i :: 0 <= i < |history| ==> history[i].id < nextHistoryId)
      && (forall i :: 0 <= i < |samples| ==> samples[i].id < nextSampleId)
    }

    constructor()
      ensures Valid() && tasks == map[] && details == map[] && history == [] && samples == []
    {
      tasks, details, history, samples := map[], map[], [], [];
      nextHistoryId, nextSampleId := 1, 1;
    }

    /** `SaveAuditHistory` (internal/checkpointprogress/audit_history.go),
      * the contract of both packages: read the task, and when the edit
      * changes the comment or the status, append the old values. */
    method SaveAuditHistory(taskId: int, comment: string, status: string, user: Option<string>,
                            now: int, fails: set<Stmt>) returns (r: Outcome)
      requires Valid()
      modifies this
      ensures Valid()
      ensures tasks == old(tasks) && details == old(details) && samples == old(samples)
      ensures nextSampleId == old(nextSampleId)
      ensures r.Success? <==> (ReadTask !in fails && taskId in tasks
        && (NeedsHistory(tasks[taskId], comment, status) ==> InsertHistory !in fails))
      ensures ReadTask !in fails && taskId !in tasks ==> r == Failure(ErrNoRows)
      ensures r.Failure? ==> history == old(history) && nextHistoryId == old(nextHistoryId)
      ensures r.Success? ==>
        history == old(history) + Snapshot(old(nextHistoryId), taskId, tasks[taskId], comment, status, user, now)
        && nextHistoryId == old(nextHistoryId) + |Snapshot(old(nextHistoryId), taskId, tasks[taskId], comment, status, user, now)|
    {
      if ReadTask in fails {
        return Failure("query failed");
      }
      if taskId !in tasks {
        return Failure(ErrNoRows);
      }
      var t := tasks[taskId];
      var entry := Snapshot(nextHistoryId, taskId, t, comment, status, user, now);
      if |entry| == 1 {
        if InsertHistory in fails {
          return Failure("insert failed");
        }
        history := history + entry;
        nextHistoryId := nextHistoryId + 1;
      }
      return Success;
    }

    /** The statements both edit pages run inside the transaction before
      * the commit: begin, `SaveAuditHistory`, the task update (`edited`),
      * the detail cascade and, for a task marked fixed, the sampling reset.
      * A failure rolls back. */
    method ApplyEdit(taskId: int, comment: string, status: string, user: Option<string>, now: int,
                     checkpoint: bool, fixed: bool, fails: set<Stmt>) returns (r: Outcome)
      requires Valid() && (fixed ==> checkpoint)
      modifies this
      ensures Valid()
      ensures samples == old(samples) && nextSampleId == old(nextSampleId)
      ensures nextHistoryId >= old(nextHistoryId)
      ensures r.Success? <==> (taskId in old(tasks)
        && EditRuns(fails, NeedsHistory(old(tasks)[taskId], comment, status), fixed))
      ensures Begin !in fails && ReadTask !in fails && taskId !in old(tasks) ==> r == Failure(ErrNoRows)
      ensures r.Failure? ==> (tasks == old(tasks) && details == old(details) && history == old(history))
      ensures r.Success? ==>
        tasks == old(tasks)[taskId := EditFor(old(tasks)[taskId], comment, status, now, checkpoint, fixed)]
        && details == Cascade(old(details), taskId, DetailCode(status))
        && history == old(history) + Snapshot(old(nextHistoryId), taskId, old(tasks)[taskId], comment, status, user, now)
    {
      if Begin in fails {
        return Failure("事务开始失败");
      }
      var history0 := history;
      r := SaveAuditHistory(taskId, comment, status, user, now, fails);
      if r.Failure? {
        return;
      }
      // The updates take effect together at the end; a failing statement
      // rolls back the history row written before it.
      if UpdateTask in fails {
        history := history0;
        return Failure("更新审核意见失败");
      }
      if UpdateDetails in fails {
        history := history0;
        return Failure("更新明细状态失败");
      }
      if fixed && ResetSample in fails {
        history := history0;
        return Failure("重置抽检状态失败");
      }
      var t := tasks[taskId];
      var edited := EditedTask(t, comment, status, now);
      if checkpoint {
        edited := edited.(completedAt := FirstCompletion(t.completedAt, status, now));
      }
      if fixed {
        edited := edited.(isSampled := 0, lastSampledAt := None);
      }
      tasks := tasks[taskId := edited];
      details := Cascade(details, taskId, DetailCode(status));
    }

    /** The audit edit's transaction: `ApplyEdit`, the reminder step, the
      * commit. */
    method EditAuditTx(taskId: int, comment: string, status: string, user: Option<string>, now: int,
                       reminders: Reminders.ReminderTable, fails: set<Stmt>) returns (r: Outcome)
      requires Valid() && reminders.Valid()
      modifies this, reminders
      ensures Valid() && reminders.Valid()
      ensures samples == old(samples)
      ensures r.Success? <==> (taskId in old(tasks)
        && EditCommits(fails, NeedsHistory(old(tasks)[taskId], comment, status), false))
      ensures Begin !in fails && ReadTask !in fails && taskId !in old(tasks) ==> r == Failure(ErrNoRows)
      ensures r.Failure? ==> (tasks == old(tasks) && details == old(details) && history == old(history)
        && reminders.rows == old(reminders.rows))
      ensures r.Success? ==>
        tasks == old(tasks)[taskId := EditedTask(old(tasks)[taskId], comment, status, now)]
        && details == Cascade(old(details), taskId, DetailCode(status))
        && history == old(history) + Snapshot(old(nextHistoryId), taskId, old(tasks)[taskId], comment, status, user, now)
        && reminders.rows == ReminderRows(old(reminders.rows), old(reminders.nextId), taskId, comment, now, fails)
    {
      var tasks0, details0, history0 := tasks, details, history;
      r := ApplyEdit(taskId, comment, status, user, now, false, false, fails);
      if r.Failure? {
        return;
      }
      var rows0 := reminders.rows;
      AddReminder(reminders, taskId, comment, now, fails);
      if Commit in fails {
        tasks, details, history := tasks0, details0, history0;
        reminders.rows := rows0;
        return Failure("事务提交失败");
      }
    }

    /** The POST branch of the audit package's `EditCommentHandler`:
      * validate, snapshot the history, update the task, cascade the status
      * code to the detail rows, maybe create a video reminder, commit. A
      * failed reminder does not stop the commit; no event is broadcast. */
    method EditAudit(f: EditForm, user: Option<string>, now: int, reminders: Reminders.ReminderTable,
                     fails: set<Stmt>) returns (r: Outcome)
      requires Valid() && reminders.Valid()
      modifies this, reminders
      ensures Valid() && reminders.Valid()
      ensures samples == old(samples)
      ensures !ValidEdit(f) ==> r.Failure?
      ensures ValidEdit(f) ==>
        var id := FormTaskId(f.taskId).value;
        (r.Success? <==> (id in old(tasks)
          && EditCommits(fails, NeedsHistory(old(tasks)[id], TrimSpace(f.comment), TrimSpace(f.status)), false)))
      ensures ValidEdit(f) && Begin !in fails && ReadTask !in fails && FormTaskId(f.taskId).value !in old(tasks) ==>
        r == Failure(MsgNotFound)
      ensures r.Failure? ==> (tasks == old(tasks) && details == old(details) && history == old(history)
        && reminders.rows == old(reminders.rows))
      ensures r.Success? ==>
        var id, c, s := FormTaskId(f.taskId).value, TrimSpace(f.comment), TrimSpace(f.status);
        tasks == old(tasks)[id := EditedTask(old(tasks)[id], c, s, now)]
        && details == Cascade(old(details), id, DetailCode(s))
        && history == old(history) + Snapshot(old(nextHistoryId), id, old(tasks)[id], c, s, user, now)
        && reminders.rows == ReminderRows(old(reminders.rows), old(reminders.nextId), id, c, now, fails)
    {
      var id := FormTaskId(f.taskId);
      if id.None? {
        return Failure("无效的任务ID");
      }
      var comment := TrimSpace(f.comment);
      var status := TrimSpace(f.status);
      if !ValidStatus(status) {
        return Failure("无效的审核状态");
      }
      r := EditAuditTx(id.value, comment, status, user, now, reminders, fails);
      if r == Failure(ErrNoRows) {
        r := Failure(MsgNotFound);
      }
    }

    /** The checkpoint edit after validation: the "fixed" check, then
      * `ApplyEdit` and the commit. */
    method EditCheckpointTx(taskId: int, comment: string, status: string, fixed: bool, user: Option<string>,
                            now: int, fails: set<Stmt>) returns (r: Outcome)
      requires Valid()
      modifies this
      ensures Valid()
      ensures samples == old(samples)
      ensures r.Success? <==> (taskId in old(tasks)
        && (fixed ==> CheckFix !in fails && FixAllowed(old(tasks)[taskId], old(samples), taskId))
        && EditCommits(fails, NeedsHistory(old(tasks)[taskId], comment, status), fixed))
      ensures r.Failure? ==> (tasks == old(tasks) && details == old(details) && history == old(history))
      ensures r.Success? ==>
        tasks == old(tasks)[taskId := CheckpointEdited(old(tasks)[taskId], comment, status, now, fixed)]
        && details == Cascade(old(details), taskId, DetailCode(status))
        && history == old(history) + Snapshot(old(nextHistoryId), taskId, old(tasks)[taskId], comment, status, user, now)
    {
      if fixed {
        if CheckFix in fails || taskId !in tasks {
          return Failure("查询任务信息失败");
        }
        if !FixAllowed(tasks[taskId], samples, taskId) {
          return Failure("只有审核状态为'已完成'且最近一次抽检结果为'待整改'时才能标记整改完成");
        }
      }
      var tasks0, details0, history0 := tasks, details, history;
      r := ApplyEdit(taskId, comment, status, user, now, true, fixed, fails);
      if r.Failure? {
        return;
      }
      if Commit in fails {
        tasks, details, history := tasks0, details0, history0;
        return Failure("事务提交失败");
      }
    }

    /** The POST branch of the checkpoint package's `EditCommentHandler`:
      * as the audit edit, with the "fixed" check before the transaction,
      * `completed_at` on the first completion and the sampling reset for a
      * fixed task, then an update event after the commit when a user is
      * logged in. It creates no reminder. */
    method EditCheckpoint(f: EditForm, user: Option<string>, now: int, hub: Events.EventHub,
                          fails: set<Stmt>) returns (r: Outcome)
      requires Valid() && hub.Valid()
      modifies this, hub
      ensures Valid() && hub.Valid() && hub.clients == old(hub.clients)
      ensures samples == old(samples)
      ensures !ValidEdit(f) ==> r.Failure?
      ensures ValidEdit(f) ==>
        var id, fixed := FormTaskId(f.taskId).value, f.fixed == "1";
        (r.Success? <==> (id in old(tasks)
          && (fixed ==> CheckFix !in fails && FixAllowed(old(tasks)[id], old(samples), id))
          && EditCommits(fails, NeedsHistory(old(tasks)[id], TrimSpace(f.comment), TrimSpace(f.status)), fixed)))
      ensures r.Failure? ==> (tasks == old(tasks) && details == old(details) && history == old(history)
        && hub.queue == old(hub.queue))
      ensures r.Success? ==>
        var id, c, s := FormTaskId(f.taskId).value, TrimSpace(f.comment), TrimSpace(f.status);
        tasks == old(tasks)[id := CheckpointEdited(old(tasks)[id], c, s, now, f.fixed == "1")]
        && details == Cascade(old(details), id, DetailCode(s))
        && history == old(history) + Snapshot(old(nextHistoryId), id, old(tasks)[id], c, s, user, now)
        && hub.queue == if user.Some? then
             Events.Offer(old(hub.queue), Events.Event(Events.EventTaskUpdated, id, UpdateData(s, c, user.value), now), Events.HubCapacity)
           else old(hub.queue)
    {
      var id := FormTaskId(f.taskId);
      if id.None? {
        return Failure("无效的任务ID");
      }
      var comment := TrimSpace(f.comment);
      var status := TrimSpace(f.status);
      if !ValidStatus(status) {
        return Failure("无效的审核状态");
      }
      r := EditCheckpointTx(id.value, comment, status, f.fixed == "1", user, now, fails);
      if r.Success? && user.Some? {
        var _ := hub.BroadcastTaskUpdated(id.value, UpdateData(status, comment, user.value), now);
      }
      if r == Failure(ErrNoRows) {
        r := Failure(MsgNotFound);
      }
    }

    /** `SaveSampleRecord`: insert the record (empty comment and result as
      * NULL) and mark the task sampled, in one transaction. It does not look
      * at the task's status, and marking a task that does not exist changes
      * no row. */
    method SaveSampleRecord(taskId: int, sampledBy: string, comment: string, result: string,
                            now: int, fails: set<Stmt>) returns (r: Outcome)
      requires Valid()
      modifies this
      ensures Valid()
      ensures details == old(details) && history == old(history) && nextHistoryId == old(nextHistoryId)
      ensures r.Success? <==> SampleCommits(fails)
      ensures r.Failure? ==> tasks == old(tasks) && samples == old(samples)
      ensures r.Success? ==>
        samples == old(samples) + [NewSample(old(nextSampleId), taskId, sampledBy, now, comment, result)]
        && tasks == if taskId in old(tasks) then old(tasks)[taskId := SampledTask(old(tasks)[taskId], now)] else old(tasks)
    {
      if Begin in fails || InsertSample in fails {
        return Failure("insert failed");
      }
      var samples0, tasks0 := samples, tasks;
      samples := samples + [NewSample(nextSampleId, taskId, sampledBy, now, comment, result)];
      nextSampleId := nextSampleId + 1;
      if MarkSampled in fails {
        samples := samples0;
        return Failure("update failed");
      }
      if taskId in tasks {
        tasks := tasks[taskId := SampledTask(tasks[taskId], now)];
      }
      if Commit in fails {
        samples, tasks := samples0, tasks0;
        return Failure("commit failed");
      }
      return Success;
    }

    /** The POST branch of the audit package's `SampleHandler` (the
      * checkpoint page's makes the same checks): only a completed task, a
      * logged-in user and a result of "", 通过 or 待整改 reach
      * `SaveSampleRecord`. */
    method SubmitSample(f: SampleForm, user: Option<string>, now: int, fails: set<Stmt>) returns (r: Outcome)
      requires Valid()
      modifies this
      ensures Valid()
      ensures details == old(details) && history == old(history)
      ensures r.Success? <==> ReadTask !in fails && SampleAccepted(f, user, old(tasks)) && SampleCommits(fails)
      ensures r.Success? ==> old(tasks)[FormTaskId(f.taskId).value].status == StatusCompleted
      ensures r.Failure? ==> tasks == old(tasks) && samples == old(samples)
      ensures r.Success? ==>
        var id := FormTaskId(f.taskId).value;
        samples == old(samples) + [NewSample(old(nextSampleId), id, user.value, now, TrimSpace(f.comment), TrimSpace(f.result))]
        && tasks == old(tasks)[id := SampledTask(old(tasks)[id], now)]
    {
      var id := FormTaskId(f.taskId);
      if id.None? {
        return Failure("无效的任务ID");
      }
      var taskId := id.value;
      if ReadTask in fails {
        return Failure("查询档案失败");
      }
      if taskId !in tasks {
        return Failure(MsgNotFound);
      }
      if tasks[taskId].status != StatusCompleted {
        return Failure("只有审核状态为'已完成'的任务才能进行抽检");
      }
      if user.None? {
        return Failure("未登录");
      }
      var comment := TrimSpace(f.comment);
      var result := TrimSpace(f.result);
      if !ValidResult(result) {
        return Failure("无效的抽检结果");
      }
      r := SaveSampleRecord(taskId, user.value, comment, result, now, fails);
    }

    /** The POST branch of the checkpoint package's `SampleHandler`: the
      * same checks and save as the audit page, then a sampled event carrying
      * the result, the comment and the sampler. */
    method SubmitCheckpointSample(f: SampleForm, user: Option<string>, now: int, hub: Events.EventHub,
                                  fails: set<Stmt>) returns (r: Outcome)
      requires Valid() && hub.Valid()
      modifies this, hub
      ensures Valid() && hub.Valid() && hub.clients == old(hub.clients)
      ensures details == old(details) && history == old(history)
      ensures r.Success? <==> ReadTask !in fails && SampleAccepted(f, user, old(tasks)) && SampleCommits(fails)
      ensures r.Failure? ==> tasks == old(tasks) && samples == old(samples) && hub.queue == old(hub.queue)
      ensures r.Success? ==>
        var id, c, res := FormTaskId(f.taskId).value, TrimSpace(f.comment), TrimSpace(f.result);
        samples == old(samples) + [NewSample(old(nextSampleId), id, user.value, now, c, res)]
        && tasks == old(tasks)[id := SampledTask(old(tasks)[id], now)]
        && hub.queue == Events.Offer(old(hub.queue), Events.Event(Events.EventTaskSampled, id, SampleData(res, c, user.value), now), Events.HubCapacity)
    {
      r := SubmitSample(f, user, now, fails);
      if r.Success? {
        var _ := hub.BroadcastTaskSampled(FormTaskId(f.taskId).value,
          SampleData(TrimSpace(f.result), TrimSpace(f.comment), user.value), now);
      }
    }

    /** `DeleteHandler` of the audit package: the task's detail rows, then
      * the task, in one transaction. Its history and sample records stay. */
    method DeleteAudit(idText: string, fails: set<Stmt>) returns (r: Outcome)
      requires Valid()
      modifies this
      ensures Valid()
      ensures history == old(history) && samples == old(samples)
      ensures r.Success? <==> (FormTaskId(idText).Some? && FormTaskId(idText).value in old(tasks)
        && ReadTask !in fails && Begin !in fails && DeleteDetails !in fails && DeleteTask !in fails && Commit !in fails)
      ensures r.Failure? ==> tasks == old(tasks) && details == old(details)
      ensures r.Success? ==>
        var id := FormTaskId(idText).value;
        tasks == old(tasks) - {id} && details == DetailsWithout(old(details), id)
    {
      var id := FormTaskId(idText);
      if id.None? {
        return Failure("无效的任务ID");
      }
      var taskId := id.value;
      if ReadTask in fails {
        return Failure("查询档案失败");
      }
      if taskId !in tasks {
        return Failure(MsgNotFound);
      }
      if Begin in fails {
        return Failure("事务开始失败");
      }
      var tasks0, details0 := tasks, details;
      if DeleteDetails in fails {
        return Failure("删除档案明细失败");
      }
      details := DetailsWithout(details, taskId);
      if DeleteTask in fails {
        details := details0;
        return Failure("删除档案失败");
      }
      tasks := tasks - {taskId};
      if Commit in fails {
        tasks, details := tasks0, details0;
        return Failure("事务提交失败");
      }
      return Success;
    }

    /** The transaction of the checkpoint package's `DeleteHandler`: history,
      * sample records, detail rows and the task, in that order. */
    method DeleteCheckpointTx(taskId: int, fails: set<Stmt>) returns (r: Outcome)
      requires Valid() && taskId in tasks
      modifies this
      ensures Valid()
      ensures r.Success? <==> (Begin !in fails && DeleteHistory !in fails && DeleteSamples !in fails
        && DeleteDetails !in fails && DeleteTask !in fails && Commit !in fails)
      ensures r.Failure? ==> (tasks == old(tasks) && details == old(details) && history == old(history)
        && samples == old(samples))
      ensures r.Success? ==>
        tasks == old(tasks) - {taskId} && details == DetailsWithout(old(details), taskId)
        && history == HistoryNotOf(old(history), taskId) && samples == SamplesNotOf(old(samples), taskId)
    {
      if Begin in fails {
        return Failure("事务开始失败");
      }
      // The statements of the transaction take effect together at the
      // commit; a failing one rolls back the ones before it.
      if DeleteHistory in fails {
        return Failure("删除审核历史记录失败");
      }
      var history1 := HistoryNotOf(history, taskId);
      if DeleteSamples in fails {
        return Failure("删除抽检记录失败");
      }
      var samples1 := SamplesNotOf(samples, taskId);
      if DeleteDetails in fails {
        return Failure("删除档案明细失败");
      }
      var details1 := DetailsWithout(details, taskId);
      if DeleteTask in fails {
        return Failure("删除档案失败");
      }
      if Commit in fails {
        return Failure("事务提交失败");
      }
      KeepsIdsBelow(history, taskId, nextHistoryId);
      KeepsSampleIdsBelow(samples, taskId, nextSampleId);
      tasks, details, history, samples := tasks - {taskId}, details1, history1, samples1;
      return Success;
    }

    /** `DeleteHandler` of the checkpoint package: refused without a
      * logged-in user, then without the delete permission (`mayDelete`: an
      * administrator, or allow_checkpoint_audit_delete granted), then the
      * delete transaction; after the commit a delete event. */
    method DeleteCheckpoint(idText: string, mayDelete: bool, user: Option<string>, now: int,
                            hub: Events.EventHub, fails: set<Stmt>) returns (r: Outcome)
      requires Valid() && hub.Valid()
      modifies this, hub
      ensures Valid() && hub.Valid() && hub.clients == old(hub.clients)
      ensures user.None? || !mayDelete ==> r.Failure?
      ensures r.Success? <==> (user.Some? && mayDelete && FormTaskId(idText).Some? && FormTaskId(idText).value in old(tasks)
        && ReadTask !in fails && Begin !in fails && DeleteHistory !in fails && DeleteSamples !in fails
        && DeleteDetails !in fails && DeleteTask !in fails && Commit !in fails)
      ensures r.Failure? ==> (tasks == old(tasks) && details == old(details) && history == old(history)
        && samples == old(samples) && hub.queue == old(hub.queue))
      ensures r.Success? ==>
        var id := FormTaskId(idText).value;
        tasks == old(tasks) - {id} && details == DetailsWithout(old(details), id)
        && history == HistoryNotOf(old(history), id) && samples == SamplesNotOf(old(samples), id)
        && hub.queue == Events.Offer(old(hub.queue), Events.Event(Events.EventTaskDeleted, id, map[], now), Events.HubCapacity)
    {
      if user.None? {
        return Failure("未登录");
      }
      if !mayDelete {
        return Failure("权限不足");
      }
      var id := FormTaskId(idText);
      if id.None? {
        return Failure("无效的任务ID");
      }
      var taskId := id.value;
      if ReadTask in fails {
        return Failure("查询档案失败");
      }
      if taskId !in tasks {
        return Failure(MsgNotFound);
      }
      r := DeleteCheckpointTx(taskId, fails);
      if r.Success? {
        var _ := hub.BroadcastTaskDeleted(taskId, now);
      }
    }

    /** `BatchGetSampleInfo`: nothing for no ids; otherwise one entry per
      * requested id that names a task, filled from the task row and then,
      * task by task, from its records. `queryFails` is the task query;
      * `lookupFails` the tasks whose record lookup fails. */
    method BatchGetSampleInfo(ids: seq<int>, queryFails: bool, lookupFails: set<int>)
      returns (r: Result<map<int, SampleInfo>>)
      ensures |ids| == 0 ==> r == Ok(map[])
      ensures |ids| > 0 ==> (r.Err? <==> queryFails)
      ensures r.Ok? ==> r.value.Keys == set id | id in ids && id in tasks
      ensures r.Ok? ==> forall id :: id in r.value ==>
        id in tasks && r.value[id] == BatchInfo(tasks[id], SamplesOf(samples, id), id in lookupFails)
    {
      if |ids| == 0 {
        return Ok(map[]);
      }
      if queryFails {
        return Err("query failed");
      }
      var result: map<int, SampleInfo> := map[];
      for i := 0 to |ids|
        invariant result.Keys == set k | k in ids[..i] && k in tasks
        invariant forall k :: k in result ==> k in tasks && result[k] == BatchInfo(tasks[k], [], true)
      {
        if ids[i] in tasks {
          var t := tasks[ids[i]];
          result := result[ids[i] := SampleInfo(t.isSampled == 1, t.lastSampledAt, "", 0, "")];
        }
        assert ids[..i + 1] == ids[..i] + [ids[i]];
      }
      assert ids[..|ids|] == ids;
      var pending := result.Keys;
      while pending != {}
        invariant pending <= result.Keys
        invariant result.Keys == set k | k in ids && k in tasks
        invariant forall k :: k in result ==> k in tasks
        invariant forall k :: k in pending ==> result[k] == BatchInfo(tasks[k], [], true)
        invariant forall k :: k in result && k !in pending ==>
          result[k] == BatchInfo(tasks[k], SamplesOf(samples, k), k in lookupFails)
        decreases pending
      {
        ghost var w := Pick(pending);
        var k :| k in pending;
        result := result[k := BatchInfo(tasks[k], SamplesOf(samples, k), k in lookupFails)];
        pending := pending - {k};
      }
      return Ok(result);
    }
  }

  /** The update event's payload, as text. */
  function UpdateData(status: string, comment: string, user: string): map<string, string>
  {
    map["audit_status" := status, "audit_comment" := comment, "updated_by" := user]
  }

  /** The payload of the checkpoint page's sampled event. */
  function SampleData(result: string, comment: string, user: string): map<string, string>
  {
    map["sample_result" := result, "sample_comment" := comment, "sampled_by" := user]
  }

  // ---------------------------------------------------------------------
  // Properties across operations

  /** Submitting the same edit again records no second history entry. */
  lemma RepeatedEditRecordsNothing(t: Task, comment: string, status: string, now: int, fixed: bool)
    ensures !NeedsHistory(EditedTask(t, comment, status, now), comment, status)
    ensures !NeedsHistory(CheckpointEdited(t, comment, status, now, fixed), comment, status)
  {
  }

  /** An edit's history entry reads back the task as it stood before the
    * edit: comment and status. */
  lemma SnapshotRestores(id: int, taskId: int, t: Task, comment: string, status: string,
                         user: Option<string>, now: int)
    requires NeedsHistory(t, comment, status)
    ensures var e := Snapshot(id, taskId, t, comment, status, user, now)[0];
      e.status == t.status && StoredText(e.comment) == StoredText(t.comment)
      && EditedTask(EditedTask(t, comment, status, now), StoredText(e.comment), e.status, now).status == t.status
  {
  }

  /** A sequence of checkpoint edits, each (comment, status, time). */
  datatype Edit = Edit(comment: string, status: string, time: int)

  function ApplyEdits(t: Task, edits: seq<Edit>): Task
    decreases |edits|
  {
    if |edits| == 0 then t
    else ApplyEdits(CheckpointEdited(t, edits[0].comment, edits[0].status, edits[0].time, false), edits[1..])
  }

  /** The time of the first edit to 已完成, if any. */
  function FirstCompletedTime(edits: seq<Edit>): Option<int>
    decreases |edits|
  {
    if |edits| == 0 then None
    else if edits[0].status == StatusCompleted then Some(edits[0].time)
    else FirstCompletedTime(edits[1..])
  }

  /** `completed_at` records the first completion: whatever edits follow,
    * it is the time of the first edit to 已完成 (or the value it already
    * had). */
  lemma {:induction false} CompletedAtIsFirstCompletion(t: Task, edits: seq<Edit>)
    ensures ApplyEdits(t, edits).completedAt ==
      if t.completedAt.Some? then t.completedAt else FirstCompletedTime(edits)
    decreases |edits|
  {
    if |edits| > 0 {
      var next := CheckpointEdited(t, edits[0].comment, edits[0].status, edits[0].time, false);
      CompletedAtIsFirstCompletion(next, edits[1..]);
    }
  }

  /** After a saved sample that is newer than the task's earlier ones, the
    * sample information names it: sampled, its time, its sampler, its
    * result, and one more record. */
  lemma SampleInfoAfterSave(tasks: map<int, Task>, samples: seq<SampleRecord>, id: int, taskId: int,
                            user: string, now: int, comment: string, result: string)
    requires taskId in tasks
    requires forall rec :: rec in samples && rec.taskId == taskId ==> rec.sampledAt < now
    ensures var rec := NewSample(id, taskId, user, now, comment, result);
      GetSampleInfo(tasks[taskId := SampledTask(tasks[taskId], now)], samples + [rec], taskId, false, false, false)
      == Ok(SampleInfo(true, Some(now), user, |SamplesOf(samples, taskId)| + 1, result))
  {
    var rec := NewSample(id, taskId, user, now, comment, result);
    FilterAppend(samples, rec, (e: SampleRecord) => e.taskId == taskId);
    assert SamplesOf(samples + [rec], taskId) == SamplesOf(samples, taskId) + [rec];
    LatestOfNewer(SamplesOf(samples, taskId), rec, SampleTime);
  }

  lemma {:induction false} FilterAppend<T(!new)>(s: seq<T>, x: T, keep: T -> bool)
    ensures Filter(s + [x], keep) == Filter(s, keep) + (if keep(x) then [x] else [])
    decreases |s|
  {
    if |s| == 0 {
      assert s + [x] == [x];
      assert Filter([x], keep) == (if keep(x) then [x] else []) + Filter([x][1..], keep);
    } else {
      assert (s + [x])[1..] == s[1..] + [x];
      assert (s + [x])[0] == s[0];
      FilterAppend(s[1..], x, keep);
    }
  }

  // ---------------------------------------------------------------------
  // Unique-key violations

  /** A database error: one reported by MySQL, with its number and message,
    * or any other. */
  datatype DbError = MySqlError(number: int, message: string) | OtherError(message: string)

  datatype UniqueCheck = UniqueCheck(isUnique: bool, field: string, value: string)

  const DupPrefix: string := "Duplicate entry '"
  const DupSuffix: string := "' for key"

  /** A match of `Duplicate entry '([^']+)' for key` starting at `i`: the
    * run of non-quote runes after the prefix must be non-empty and followed
    * by the suffix. */
  function DuplicateAt(msg: string, i: nat): (r: Option<string>)
    ensures r.Some? ==> r.value != [] && '\'' !in r.value && At(msg, i, DupPrefix + r.value + DupSuffix)
  {
    if At(msg, i, DupPrefix) then
      var rest := msg[i + |DupPrefix|..];
      var k := IndexOf(rest, '\'');
      if k > 0 && At(rest, k, DupSuffix) then
        DuplicateShape(msg, i, k);
        Some(rest[..k])
      else None
    else None
  }

  /** The prefix, the `k` runes after it and a suffix right after those
    * form one occurrence. */
  lemma DuplicateShape(msg: string, i: nat, k: nat)
    requires At(msg, i, DupPrefix)
    requires At(msg[i + |DupPrefix|..], k, DupSuffix)
    ensures At(msg, i, DupPrefix + msg[i + |DupPrefix|..][..k] + DupSuffix)
  {
    var j := i + |DupPrefix|;
    var rest := msg[j..];
    assert rest[..k] == msg[j..j + k];
    assert rest[k..k + |DupSuffix|] == msg[j + k..j + k + |DupSuffix|];
    AtAdjacent(msg, i, DupPrefix, rest[..k], DupSuffix);
  }

  /** The leftmost match at or after `i`. */
  function FindDuplicate(msg: string, i: nat): (r: Option<string>)
    ensures r.Some? ==> r.value != [] && '\'' !in r.value && Contains(msg, DupPrefix + r.value + DupSuffix)
    decreases |msg| - i
  {
    if i > |msg| then None
    else if DuplicateAt(msg, i).Some? then DuplicateAt(msg, i)
    else FindDuplicate(msg, i + 1)
  }

  /** `checkUniqueConstraintError`: only MySQL error 1062 is a unique-key
    * violation; the value is the quoted entry of the message, or "" when
    * the message does not have that shape. */
  function CheckUniqueConstraint(err: Option<DbError>, field: string): (r: UniqueCheck)
    ensures r.isUnique <==> err.Some? && err.value.MySqlError? && err.value.number == 1062
    ensures !r.isUnique ==> r == UniqueCheck(false, "", "")
    ensures r.isUnique ==> r.field == field
    ensures r.value != "" ==> '\'' !in r.value && Contains(err.value.message, DupPrefix + r.value + DupSuffix)
  {
    if err.None? || !err.value.MySqlError? || err.value.number != 1062 then UniqueCheck(false, "", "")
    else
      var m := FindDuplicate(err.value.message, 0);
      if m.Some? then UniqueCheck(true, field, m.value) else UniqueCheck(true, field, "")
  }

  /** The entry is matched right at the start of a duplicate-key message. */
  lemma DuplicateAtStart(entry: string, tail: string)
    requires entry != [] && '\'' !in entry
    ensures DuplicateAt(DupPrefix + entry + DupSuffix + tail, 0) == Some(entry)
  {
    var msg := DupPrefix + entry + DupSuffix + tail;
    assert msg[..|DupPrefix|] == DupPrefix;
    var rest := msg[|DupPrefix|..];
    assert rest == entry + DupSuffix + tail;
    assert rest[|entry|] == '\'';
    assert IndexOf(rest, '\'') == |entry|;
    assert rest[|entry|..|entry| + |DupSuffix|] == DupSuffix;
    assert rest[..|entry|] == entry;
  }

  /** MySQL's duplicate-key message gives back the entry it names. */
  lemma DuplicateRoundTrip(entry: string, key: string, field: string)
    requires entry != [] && '\'' !in entry
    ensures CheckUniqueConstraint(Some(MySqlError(1062, DupPrefix + entry + DupSuffix + " '" + key + "'")), field)
      == UniqueCheck(true, field, entry)
  {
    var tail := " '" + key + "'";
    assert DupPrefix + entry + DupSuffix + " '" + key + "'" == DupPrefix + entry + DupSuffix + tail;
    DuplicateAtStart(entry, tail);
  }
}
