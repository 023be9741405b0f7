# ops-web audit tracker — a Dafny model of its core

ops-web is a Go web application for auditing surveillance equipment. Operators import device and checkpoint
lists from spreadsheets and audit each task. An audit sets a status of 未审核, 已审核待整改 or 已完成, with a
comment, and keeps a history of earlier states. Tasks are sampled after completion. A comment such as
"录像最早日期：2024-01-01，不足30天" schedules a video-retention reminder. A scheduler sweeps due reminders, and an
event hub pushes changes to open pages. Around this the application builds list queries and statistics, backs up
the database on a schedule, cleans old backups, manages users and permissions, and checks a license bound to a
MAC address.

This project models those parts of the program that can be stated precisely, and proves what they promise:

- **Time and text.** `Text`, `Calendar` and `GoTime` model the behaviour of Go's standard library that the
  program relies on: `strings.TrimSpace`, `strings.Split`, `strconv.Atoi`, `time.Parse` with the program's
  layouts, and `t.Format`. Dates are day numbers counted from 0001-01-01, and instants are seconds counted from
  the same origin. These modules are support for the rest and have no rows of their own below.
- **Reminders.** `VideoDays` extracts the earliest video date and the required days from a comment.
  `Reminders` holds the reminder table and the schedule-configuration table as classes.
  `ReminderScheduler` covers the next-run computation and the decisions of the reminder loop.
- **Events.** `Events` is the event hub: registering, unregistering, broadcast with drop-when-full, and
  dispatch to bounded client queues. It also writes the server-sent-events frame.
- **Audit workflow.** `Workflow` covers the audit history, sampling, the edit, sample and delete transactions of
  both task kinds, the schedule form, and `checkUniqueConstraintError`.
- **Queries and statistics.** `Query` covers the WHERE builders, ordering and pagination. `Statistics` and
  `AuditStatistics` cover the two statistics pages.
- **List pages and imports.** `RawQuery` and `CheckpointExport` cover the export pages' raw-query fallback.
  `DisplayTime` covers `formatDateTime`, and `FileList` covers the spreadsheet import.
- **Backups.** `Backup` covers the backup scheduler's decision, the settings page defaults and old-backup
  cleaning.
- **Small codecs.** `License` covers PKCS#7 padding (RFC 5652 section 6.3), the payload layout and MAC
  normalisation. `Permission` covers boolean settings, `Users` the user table's rules, `SqlScript` the table
  script runner, and `ClientAddress` the client-IP extraction.

Transactions are methods that either apply every change or return an error with the tables unchanged. Which
statement fails is a parameter, since storage failures come from outside the program.

## Model

| member | source | states |
|---|---|---|
| ClientAddress.SplitHostPort | internal/operationlog/record.go:36-38 | a successful split gives a port free of ':'; for an unbracketed input the host is free of ':' and host + ":" + port is the input |
| ClientAddress.SplitJoinedHostPort | internal/operationlog/record.go:35-39 | a host and port free of ':' and brackets, joined by ':', split back into exactly that host and port |
| ClientAddress.SplitBracketedHostPort | internal/operationlog/record.go:35-39 | "[host]:port" splits back into the host without brackets and the port, for a host that holds colons |
| ClientAddress.NoPortNoSplit | internal/operationlog/record.go:36-38 | an address with no ':' cannot be split |
| ClientAddress.ClientIP | internal/operationlog/record.go:29-39 | a non-empty X-Forwarded-For gives its first comma-separated entry trimmed; otherwise the split host, or RemoteAddr unchanged when the split fails |
| ClientAddress.PeerHost | internal/operationlog/record.go:35-39 | with no forwarding header, "host:port" gives the host |
| ClientAddress.PeerIPv6Host | internal/operationlog/record.go:35-39 | with no forwarding header, "[ipv6]:port" gives the address without brackets |
| ClientAddress.ForwardedFirst | internal/operationlog/record.go:29-34 | a header whose first entry has no ',' gives that entry trimmed, whatever the remote address, so the header takes precedence |
| DisplayTime.ParseFormattable | code1/ops-web/internal/operationlog/handler.go:65-77 | every successful parse under any layout yields a month 1-12, a day 1-31, a four-digit year and a clock time in range |
| DisplayTime.FormatMinuteShape | code1/ops-web/internal/operationlog/handler.go:76 | the minute format of a parsed time is "YYYY-MM-DD HH:mm": 16 runes with separators in place, and each digit group reads back as its field |
| DisplayTime.FormatDateTime | code1/ops-web/internal/operationlog/handler.go:59-84 | "" gives ""; the result never exceeds 16 runes; a parse gives the minute shape; otherwise the input is cut to its first 16 runes, and a shorter unparsed input is returned unchanged |
| DisplayTime.ParsedShowsFields | code1/ops-web/internal/checkpointfilelist/handler.go:625-650 | a value that parses is shown as its own year, month, day, hour and minute |
| DisplayTime.FormatSecondLength | internal/filelist/handler.go:422 | formatting a parsed time to the second gives exactly 19 runes |
| RawQuery.Pair | code1/ops-web/internal/checkpointfilelist/handler.go:409-413 | an element gives a key and value exactly when it holds '=' |
| RawQuery.Unescape | code1/ops-web/internal/checkpointfilelist/handler.go:398 | a decoded string is never longer than the raw one, and a string without '%' decodes to one of the same length |
| RawQuery.Escape | code1/ops-web/internal/taskconfig/handler.go:232 | `url.QueryEscape`, the encoder the `QueryUnescape` at code1/ops-web/internal/checkpointfilelist/handler.go:398 inverts: each byte becomes one to three characters |
| RawQuery.PairOf | code1/ops-web/internal/checkpointfilelist/handler.go:409-413 | a trimmed key free of '=' and a trimmed value are read back as written, even when the value holds '=' |
| RawQuery.UnescapeEscape | code1/ops-web/internal/checkpointfilelist/handler.go:398 | unescaping an escaped byte string gives it back |
| RawQuery.EscapeHasNoSeparators | code1/ops-web/internal/checkpointfilelist/handler.go:407 | an escaped byte string holds no '&' and no '=', so it stays one value when split |
| RawQuery.BadEscape | code1/ops-web/internal/checkpointfilelist/handler.go:398-404 | a '%' not followed by two hex digits makes the unescape fail, so the replacement path is taken |
| CheckpointExport.KeyOf | code1/ops-web/internal/checkpointfilelist/handler.go:414-421 | a raw key names a filter only if it is that filter's own name |
| CheckpointExport.KeyName | code1/ops-web/internal/checkpointfilelist/handler.go:414-421 | each filter's key name reads back as that filter, and is a plain word that survives the split and trim |
| CheckpointExport.ExportParams | code1/ops-web/internal/checkpointfilelist/handler.go:396-426 | the loop over the split raw query computes the fallback's filters |
| CheckpointExport.AssignPart | code1/ops-web/internal/checkpointfilelist/handler.go:409-422 | the loop body computes one element's effect: it fills the filter its key names, and only while that filter is empty |
| CheckpointExport.FirstWins | code1/ops-web/internal/checkpointfilelist/handler.go:407-425 | a filter given by the parsed query is kept; an empty one takes the first non-empty value given for its key, or stays empty |
| CheckpointExport.FallbackKeepsGiven | code1/ops-web/internal/checkpointfilelist/handler.go:396-426 | the fallback never overwrites a filter the parsed query gave |
| CheckpointExport.PageQuery | code1/ops-web/internal/checkpointfilelist/handler.go:396-426 | the list page's non-empty filters as one query string that splits back into its elements |
| CheckpointExport.FallbackReadsEscapedQuery | code1/ops-web/internal/checkpointfilelist/handler.go:396-426 | a query string of plain filters escaped whole, with nothing parsed from it, is read back by the fallback as exactly those filters |
| FileList.ToDBValue | internal/filelist/handler.go:174-183 | NULL exactly for a blank optional cell; "" for a blank required cell; otherwise the trimmed text |
| FileList.ToDBValueStable | internal/auditprogress/handler.go:938-947 | storing a stored text again stores the same value |
| FileList.GetRowValue | internal/auditprogress/handler.go:929-934 | a cell inside the row is returned; an index beyond it reads as "" |
| FileList.AuditStatusTextRoundTrip | internal/auditprogress/handler.go:1058-1069 | 0, 1 and 2 get three different labels that read back as their codes; every other code is 未知状态 |
| FileList.Padded | internal/filelist/handler.go:388-391 | the padded row has at least 73 cells |
| FileList.PadRow | internal/filelist/handler.go:388-391 | the padding loop computes the padded row |
| FileList.PaddedCells | internal/filelist/handler.go:388-402 | each of the 73 padded cells reads as `getRowValue` of the original row |
| Text.AtoiIgnoringError | internal/filelist/handler.go:396 | a value `strconv.Atoi` reads is kept; an error gives 0 or a 64-bit bound; the result always fits in 64 bits |
| Text.WrapInt64 | internal/auditprogress/query.go:149 | Go's 64-bit `int` result: always within 64 bits, equal to the mathematical value when that fits, and congruent to it modulo 2^64 |
| Text.AtoiDecimal | internal/auditprogress/handler.go:86 | the decimal text of a number reads back under `strconv.Atoi` when it fits in 64 bits, is a range error otherwise, and then reads as MaxInt64 when the error is ignored |
| FileList.EnabledTime | internal/filelist/handler.go:413-427 | a blank cell gives NULL; an RFC 3339 time gives its 19-rune second format; anything else the trimmed text |
| FileList.RowParams | internal/filelist/handler.go:398-439 | a data row gives exactly 71 parameters |
| FileList.MapRow | internal/filelist/handler.go:388-439 | the padding and parameter loops give the row's parameters |
| FileList.RowParamsCells | internal/filelist/handler.go:399-437 | parameter j comes from column j+1; a blank cell is NULL except in a required column, where it is "" |
| FileList.DataParams | internal/filelist/handler.go:383-386 | one parameter row for each sheet row after the header |
| FileList.FirstFailure | internal/filelist/handler.go:441-447 | the smallest data-row index (1 or more) in the failing set, or none when no data row fails |
| FileList.FileTable.Import | internal/filelist/handler.go:372-456 | a failed prepare, row insert or commit leaves the table unchanged and reports which; otherwise every data row is appended in order and the count is the number of data rows |
| FileList.FirstFailureExtends | internal/filelist/handler.go:441-447 | a failure found in a prefix of the sheet is the first failure of the whole sheet |
| License.Padded | code1/ops-web/internal/license/crypto.go:106-113 | 1 to blockSize bytes are appended, each equal to their count, and the length becomes a multiple of blockSize |
| License.PaddedBlocks | code1/ops-web/internal/license/crypto.go:36 | with the AES block size of 16 the padded data fills whole blocks |
| License.Pkcs7Padding | code1/ops-web/tools/license-generator/main.go:210-217 | the loop that writes the pad bytes gives the padded data |
| License.Pkcs7UnPadding | code1/ops-web/internal/license/crypto.go:116-128 | empty data and a last byte above the length are errors; otherwise exactly that many bytes are cut |
| License.UnpadPad | code1/ops-web/internal/license/crypto.go:106-128 | unpadding undoes padding for every block size 1-255 |
| License.UnpadIsLenient | code1/ops-web/internal/license/crypto.go:122-127 | [1, 2, 3, 2] unpads to [1, 2] although the byte before the 2 is 3; [7, 0] strips nothing; [1, 3] is an error |
| License.EncryptPayload | code1/ops-web/internal/license/crypto.go:30-49 | the payload is the 16-byte IV followed by the cipher's output on the padded plaintext |
| License.PayloadLayout | code1/ops-web/internal/license/crypto.go:30-49 | with a length-preserving cipher the payload is whole blocks, at least two of them |
| License.DecryptPayload | code1/ops-web/internal/license/crypto.go:58-103 | data shorter than 16 bytes and ciphertext that is not a multiple of 16 are errors; a success had whole blocks |
| License.IvAloneRejected | code1/ops-web/internal/license/crypto.go:70-100 | an IV with no ciphertext after it is rejected by the unpadding |
| License.DecryptEncrypt | code1/ops-web/internal/license/crypto.go:18-103 | decrypting an encrypted payload gives back the plaintext when the cipher's decryption inverts its encryption |
| License.Squeeze | code1/ops-web/internal/license/mac.go:43-58 | the reference normalisation, rune by rune: the length is the input's minus its spaces and every rune left is normal (no space, no '-', no lower-case letter) |
| License.RewriteSqueeze | code1/ops-web/internal/license/mac.go:49-55 | the program's three rewrites, in its order, equal the reference normalisation |
| License.NormalizeMac | code1/ops-web/internal/license/mac.go:43-58 | "" gives ""; otherwise the reference normalisation, with no shape check |
| License.NormalizeIdempotent | code1/ops-web/internal/license/mac.go:43-58 | normalising twice is normalising once |
| License.JoinWellFormed | code1/ops-web/tools/license-generator/main.go:140-161 | six upper-case hex pairs joined by ':' form a well-formed address |
| License.ValidateSound | code1/ops-web/tools/license-generator/main.go:125-164 | an accepted address is well formed and is the normalised input |
| License.ValidateMac | code1/ops-web/tools/license-generator/main.go:125-164 | the result is "" or a 17-character address, and "" for an empty input |
| License.SplitWellFormed | code1/ops-web/tools/license-generator/main.go:140-145 | a well-formed address splits on ':' into its six pairs |
| License.ValidateComplete | code1/ops-web/tools/license-generator/main.go:125-164 | a non-empty address whose normalisation is well formed is accepted |
| License.ValidateMacSpec | code1/ops-web/tools/license-generator/main.go:125-164 | the generator accepts exactly the non-empty addresses whose normalisation is well formed, and then returns that normalisation; "" otherwise |
| License.ValidateIdempotent | code1/ops-web/tools/license-generator/main.go:125-164 | validating an accepted address again returns it unchanged |
| License.GeneratorArgs | code1/ops-web/tools/license-generator/main.go:50-88 | an empty or malformed expire date or MAC, or a malformed issue date, is refused; otherwise the normalised MAC with the issue date defaulting to today |
| Permission.BoolText | internal/permission/handler.go:128-136 | true is written as "1" and false as "0", and each reads back as its value |
| Permission.Setting | internal/permission/handler.go:139-148 | a stored value is returned; a missing key reads as "" |
| Permission.SettingBool | internal/permission/handler.go:122-125 | true exactly for "1", "true", "True" or "TRUE"; a missing setting is false |
| Permission.SaveThenRead | internal/permission/handler.go:122-160 | after writing a boolean, reading it gives the boolean and every other setting is unchanged |
| Permission.CheckPermission | internal/permission/handler.go:164-171 | role code 0 is always allowed; any other user, or none, gets the setting's boolean |
| Permission.Checkbox | internal/permission/handler.go:102-105 | a checkbox is on exactly when its field is sent with the value "on" |
| Permission.SaveBoxReads | internal/permission/handler.go:108-111 | saving one checkbox changes its own key only, and a failed write changes nothing |
| Permission.PageKeysDistinct | internal/permission/handler.go:102-111 | the page's four keys are four different settings |
| Permission.SavePageReads | internal/permission/handler.go:102-118 | after the page saves, each permission whose write succeeded reads as its checkbox, a failed write keeps the old value, and other settings are untouched |
| Permission.SettingsTable.SaveSetting | internal/permission/handler.go:151-160 | an upsert of the key; a failed write changes nothing |
| Permission.SettingsTable.SaveSettingBool | internal/permission/handler.go:128-136 | after a successful save the setting reads back as the value saved |
| Permission.SettingsTable.SaveHandler | internal/permission/handler.go:82-119 | only a logged-in administrator's save changes settings, and it then writes the four checkboxes in order |
| Users.Edited | code1/ops-web/internal/user/handler.go:204-224 | the edited row takes the new name and role; the password changes only when a new one is given |
| Users.UserTable.constructor | code1/ops-web/internal/user/handler.go:43-100 | an empty table with unique names |
| Users.UserTable.Add | code1/ops-web/internal/user/handler.go:103-158 | succeeds exactly when the trimmed name, password and role are non-empty, the role is numeric, the name is not taken and the writes succeed; empty fields are refused first; success adds one row under the next id; a failure leaves the table unchanged |
| Users.UserTable.Edit | code1/ops-web/internal/user/handler.go:161-231 | succeeds exactly when the fields are present and numeric and no other id holds the name; success gives that row the edited value; an id with no row changes nothing; names stay unique |
| Users.UserTable.Delete | code1/ops-web/internal/user/handler.go:234-271 | the logged-in user's own row is refused and never removed; otherwise exactly the row with that id goes; a failure changes nothing |
| SqlScript.KeptLines | code1/ops-web/internal/db/init_audit_tables.go:42-51 | every kept line is a non-comment line of the script |
| SqlScript.NonEmptyStatements | code1/ops-web/internal/db/init_audit_tables.go:54-61 | every statement is a non-empty, trimmed piece of the split script |
| SqlScript.CleanScript | code1/ops-web/internal/db/init_audit_tables.go:42-52 | the cleaning loop gives the script without its comment lines |
| SqlScript.ExecuteSqlFile | code1/ops-web/internal/db/init_audit_tables.go:30-74 | an unreadable file is an error with nothing run; otherwise every statement is attempted in order, a failure does not stop the rest, and the result is nil |
| SqlScript.InitTables | code1/ops-web/internal/db/init_audit_tables.go:11-28 | the table script and then the field script are run, and the result is always nil |
| SqlScript.CleanHasNoComments | code1/ops-web/internal/db/init_audit_tables.go:42-51 | no line of the cleaned script is a comment |
| SqlScript.StatementsAreTrimmed | code1/ops-web/internal/db/init_audit_tables.go:54-61 | every statement run is non-empty, trimmed and free of ';' |
| SqlScript.CleanWithoutComments | code1/ops-web/internal/db/init_audit_tables.go:42-51 | a script without comment lines is left as it is |
| Backup.Setting | code1/ops-web/internal/taskconfig/handler.go:236-245 | the stored value, or "" when there is none |
| Backup.HourOf | internal/taskconfig/scheduler.go:65 | the clock hour is 0-23 |
| Backup.WeekdayOf | internal/taskconfig/scheduler.go:66 | the weekday is 0-6, 0 being Sunday |
| Backup.ShouldRun | internal/taskconfig/scheduler.go:69-84 | a run needs enabled "1", a daily or weekly frequency, a clock hour of 1-24, and a Monday when weekly |
| Backup.ShouldRunIntended | internal/taskconfig/scheduler.go:74-84 | the corrected decision needs the same settings and a clock hour of 0-23 |
| Backup.Decisions | internal/taskconfig/scheduler.go:68-112 | a database backup needs db_backup_enabled "1" and a file backup file_backup_enabled "1", each at a clock hour of 1-23 |
| Backup.ShouldRunRequires | internal/taskconfig/scheduler.go:69-84 | a run happens exactly when enabled is "1", the hour reads as 1-24 and equals the clock's hour, and the frequency is daily, or weekly on a Monday |
| Backup.WeeklyOnlyOnMonday | internal/taskconfig/scheduler.go:76-84 | daily runs at the configured hour every day; weekly at that hour on Mondays and at no other time |
| Backup.Hour24NeverRuns | internal/taskconfig/scheduler.go:65-79 | as written, hour 24 passes the range check yet never fires |
| Backup.IntendedEveryHourRuns | internal/taskconfig/scheduler.go:74-84 | under the corrected decision every accepted hour fires once a day at exactly one clock hour, and hours 1-23 behave as written |
| Backup.DecisionsIndependent | internal/taskconfig/scheduler.go:68-112 | the database and file decisions each depend only on their own three settings |
| Backup.NoSettingsNoBackup | internal/taskconfig/scheduler.go:69-70 | nothing is backed up when no setting is stored |
| Backup.OrDefault | code1/ops-web/internal/taskconfig/handler.go:63-87 | an empty value is replaced by the default, any other is kept |
| Backup.ShownSchedules | code1/ops-web/internal/taskconfig/handler.go:63-87 | every field the page shows is non-empty |
| Backup.ShownCoversScheduler | code1/ops-web/internal/taskconfig/handler.go:63-87 | a backup the scheduler starts is one the page's schedule, defaults filled in, starts too |
| Backup.ShownDefaults | code1/ops-web/internal/taskconfig/handler.go:63-87 | a fresh installation shows the defaults |
| Backup.DirDay | code1/ops-web/internal/taskconfig/handler.go:413-417 | a directory name reads as a day exactly when it parses as YYYY-MM-DD |
| Backup.Kept | code1/ops-web/internal/taskconfig/handler.go:406-428 | an entry stays exactly when it is not expired or its removal failed |
| Backup.BackupDir.CleanOldBackups | code1/ops-web/internal/taskconfig/handler.go:396-431 | an unreadable directory is an error with nothing removed; otherwise every expired directory is removed except those whose removal fails |
| Backup.OnlyDateDirsRemoved | code1/ops-web/internal/taskconfig/handler.go:407-417 | files and directories not named by a date are never removed |
| Backup.CleanIdempotent | code1/ops-web/internal/taskconfig/handler.go:396-431 | a second clean at the same time removes nothing more |
| Backup.KeepFiveDays | code1/ops-web/internal/taskconfig/handler.go:329 | with five days kept, the last five days' directories stay and those six or more days back go |
| Events.Offer | internal/auditprogress/events.go:93-99 | the event is appended when the queue has room and dropped otherwise |
| Events.OfferAllKeepsPrefix | internal/auditprogress/events.go:92-99 | sends with nobody reading keep the first events, in order, up to the capacity, and drop the rest |
| Events.BackPressure | internal/auditprogress/events.go:92-99 | with N > C undrained broadcasts, a client of capacity C holds exactly the first C, in order |
| Events.Client.constructor | internal/checkpointprogress/sse.go:32 | a new client has an empty, open queue of 256 |
| Events.Client.TrySend | internal/auditprogress/events.go:93-99 | a non-blocking send: appended when there is room, dropped otherwise |
| Events.Deliver | internal/auditprogress/events.go:91-100 | every client of the snapshot with room gets the event; a full client misses it; the count is the number served |
| Events.EventHub.constructor | internal/auditprogress/events.go:47-54 | no clients and an empty broadcast queue of 256 |
| Events.EventHub.Register | internal/auditprogress/events.go:60-65 | the client is filed under its id, replacing any client with that id |
| Events.EventHub.Unregister | internal/auditprogress/events.go:67-74 | a client filed under the id is removed and its queue closed; otherwise nothing changes |
| Events.EventHub.Broadcast | internal/auditprogress/events.go:107-115 | the event is queued, or dropped when the queue is full; never waits |
| Events.EventHub.Dispatch | internal/auditprogress/events.go:76-101 | the oldest queued event is removed and offered to every registered client; each client's queue is the offer; the registry is unchanged; the count is the clients that had room |
| Events.EventHub.Snapshot | internal/auditprogress/events.go:78-84 | each registered client once |
| Events.EventHub.BroadcastTaskCreated | internal/auditprogress/events.go:118-126 | broadcasts a task_created event for the task with its data |
| Events.EventHub.BroadcastTaskUpdated | internal/auditprogress/events.go:129-138 | broadcasts a task_updated event for the task with its data |
| Events.EventHub.BroadcastTaskDeleted | internal/auditprogress/events.go:141-149 | broadcasts a task_deleted event for the task with empty data |
| Events.EventHub.BroadcastTaskSampled | internal/auditprogress/events.go:152-160 | broadcasts a task_sampled event for the task with its data |
| Events.EventHub.BroadcastRefresh | internal/auditprogress/events.go:163-171 | broadcasts a refresh event with task 0 and empty data |
| Events.FormatSSE | internal/auditprogress/events.go:197-203 | a JSON marshal failure is returned as an error |
| Events.ReadDataBlock | internal/auditprogress/events.go:197-203 | the data a browser reads from a single-line block holds no line break (WHATWG HTML Living Standard, section 9.2.6) |
| Events.FrameRoundTrip | internal/auditprogress/events.go:197-203 | a JSON text without line breaks is framed and reads back as itself, so the frame is "data: " + JSON + a blank line |
| ReminderScheduler.GoRem7 | internal/auditprogress/scheduler.go:87 | Go's truncating remainder by 7: same sign as the dividend and smaller than 7 in size |
| ReminderScheduler.IsoWeekday | internal/auditprogress/scheduler.go:79-84 | a weekday 1-7 that agrees with Go's weekday modulo 7, so Sunday is 7 |
| ReminderScheduler.TodayAt | internal/auditprogress/scheduler.go:62 | today's midnight plus the configured hours, so hour 24 is the next midnight |
| ReminderScheduler.DailyNextRun | internal/auditprogress/scheduler.go:62-71 | the run is the first instant at or after now on the configured hour: today's if not passed, else tomorrow's |
| ReminderScheduler.DailyExamples | internal/auditprogress/scheduler.go:62-71 | hour 2 at 01:00 gives today 02:00; at 03:00 it gives tomorrow 02:00 |
| ReminderScheduler.DailyHour24 | internal/auditprogress/scheduler.go:62-71 | hour 24 of a daily schedule is the coming midnight |
| ReminderScheduler.DaysUntilInRange | internal/auditprogress/scheduler.go:87 | the weekday distance is in [0, 6] and agrees with the mathematical remainder, for every stored weekday |
| ReminderScheduler.WeeklyOffset | internal/auditprogress/scheduler.go:87-96 | the days added are the weekday distance, or 7 when it is 0 and today's hour has passed |
| ReminderScheduler.WeeklyRunLands | internal/auditprogress/scheduler.go:98-99 | the weekly run falls on the target weekday at the configured hour, within a week of now |
| ReminderScheduler.WeeklyRunFirst | internal/auditprogress/scheduler.go:74-99 | no instant on the target weekday at the configured hour lies between now and the weekly run |
| ReminderScheduler.WeeklyNextRun | internal/auditprogress/scheduler.go:74-99 | a weekly schedule runs at the first instant at or after now on the target weekday (Monday when none is stored) and hour |
| ReminderScheduler.NextRunNotEarlier | internal/auditprogress/scheduler.go:60-101 | neither branch returns an instant before now |
| ReminderScheduler.DayName | internal/auditprogress/scheduler.go:108-122 | the configured weekday's name; 周一 for none or a day outside 1-7 |
| ReminderScheduler.NextRunTime | internal/auditprogress/scheduler.go:60-101 | the next run falls at the configured hour on some day; a daily run is today at that hour or tomorrow at it |
| ReminderScheduler.ScheduleDescription | internal/auditprogress/scheduler.go:104-125 | the description starts with 每天 exactly for a daily schedule (每周 otherwise) and ends with the hour's ":00" |
| ReminderScheduler.DescriptionNamesNextRunDay | internal/auditprogress/scheduler.go:104-125 | a weekly description names the weekday of its next run |
| ReminderScheduler.DescriptionDistinguishes | internal/auditprogress/scheduler.go:104-125 | a daily description never equals a weekly one |
| ReminderScheduler.DayNameInjective | internal/auditprogress/scheduler.go:108-122 | the day name is read back from a weekly description |
| ReminderScheduler.LoopStep | internal/auditprogress/scheduler.go:11-57 | a sweep waits a non-negative time, only for an enabled configuration, and then sleeps 24 hours when daily and 7 days otherwise |
| ReminderScheduler.LoopStepOnError | internal/auditprogress/scheduler.go:15-23 | a failed read sweeps at the next 01:00, within a day, then sleeps a day |
| ReminderScheduler.LoopStepWaitsForNextRun | internal/auditprogress/scheduler.go:32-44 | the sweep starts exactly at the next run time |
| ReminderScheduler.LoopNeverPolls | internal/auditprogress/scheduler.go:25-29 | as written, the table read never yields a disabled configuration, so the loop never polls |
| ReminderScheduler.LoopPollsAfterDisabledSave | internal/auditprogress/scheduler.go:25-29 | with the corrected read, saving a disabled configuration makes the next turn poll |
| Reminders.ActualDays | internal/auditprogress/video_reminder.go:113-119 | the whole days from the earliest date to the audit time, 0 when the audit is not later |
| Reminders.NewReminder | internal/auditprogress/video_reminder.go:113-145 | a pending row whose reminder date is the earliest date plus the required days, with the actual days |
| Reminders.ActiveWithKey | internal/auditprogress/video_reminder.go:122-130 | the ids of the active rows with the task, earliest date and days |
| Reminders.Sweep | internal/auditprogress/video_reminder.go:158-199 | the sweep keeps every row id |
| Reminders.InsertKeepsUnique | internal/auditprogress/video_reminder.go:122-152 | inserting a row whose key has no active row keeps the keys unique |
| Reminders.ReminderTable.Create | internal/auditprogress/video_reminder.go:111-153 | an active duplicate is a no-op without error; otherwise exactly one pending row is inserted, or nothing on failure |
| Reminders.ReminderTable.CreateChecked | code1/ops-web/internal/auditprogress/video_reminder.go:118-166 | the zero date is refused before any read or write; otherwise as Create |
| Reminders.ReminderTable.ProcessDue | internal/auditprogress/video_reminder.go:156-203 | the table becomes the sweep: exactly the due rows become notified; a failure changes nothing |
| Reminders.ReminderTable.Complete | code1/ops-web/internal/auditprogress/video_reminder.go:378-391 | the row becomes completed by the user whatever its prior status; an unknown id changes nothing |
| Reminders.ReminderTable.DeleteMany | code1/ops-web/internal/auditprogress/video_reminder.go:492-517 | an empty list is an error; otherwise exactly the listed ids disappear |
| Reminders.ReminderTable.DeleteOne | code1/ops-web/internal/auditprogress/video_reminder.go:520-531 | exactly the one id disappears |
| Reminders.ReminderTable.CountActive | code1/ops-web/internal/auditprogress/video_reminder.go:480-489 | the number of the task's non-completed reminders |
| Reminders.SweepKeepsUnique | internal/auditprogress/video_reminder.go:158-199 | the sweep keeps keys and activity, so the duplicate check still holds |
| Reminders.SweepIdempotent | internal/auditprogress/video_reminder.go:158-199 | a second sweep on the same day changes nothing |
| Reminders.SweepExact | internal/auditprogress/video_reminder.go:158-199 | the sweep changes exactly the due rows, each to notified at now |
| Reminders.AtMostOneActive | internal/auditprogress/video_reminder.go:122-152 | with the duplicate check in force, a key has at most one active row |
| Reminders.CreateEstablishesKey | internal/auditprogress/video_reminder.go:122-152 | after a successful create the key has exactly one active row |
| Reminders.CompleteCount | code1/ops-web/internal/auditprogress/video_reminder.go:378-391 | completing an active reminder of a task lowers its count by one; anything else leaves it |
| Reminders.ReminderExample | internal/auditprogress/video_reminder.go:113-119 | earliest 2024-01-01, 30 days, audited 2024-01-20 gives 19 actual days and a reminder on 2024-01-31 |
| Reminders.Lenient | code1/ops-web/internal/auditprogress/video_reminder.go:288-308 | the parse of the first accepting layout, or the zero time |
| Reminders.FallbacksUnused | code1/ops-web/internal/auditprogress/video_reminder.go:297-304 | the local-zone fallback layouts are already in the list, so the re-parse is the first match or the zero time |
| Reminders.ListRow | code1/ops-web/internal/auditprogress/video_reminder.go:258-370 | a listed row keeps the stored id, task, status, required and actual days |
| Reminders.ListRowLenient | code1/ops-web/internal/auditprogress/video_reminder.go:288-330 | an unparseable stored date becomes the zero time and the row is kept |
| Reminders.ListRows | code1/ops-web/internal/auditprogress/video_reminder.go:257-372 | a row whose scan fails (a deleted task joins NULL file name and organization) is skipped; every other row is converted and listed in order, with its file name and organization |
| Reminders.ListReminders | code1/ops-web/internal/auditprogress/video_reminder.go:219-375 | the rows of the status filter that scan, each converted, in order |
| Reminders.ListRemindersPlain | internal/auditprogress/video_reminder.go:206-280 | the rows of the status filter that scan, each date parsed under one layout with errors ignored |
| Reminders.StoredDayOfWeek | internal/auditprogress/video_reminder.go:362-366 | day_of_week is stored only for a weekly schedule with a positive day |
| Reminders.NewestEnabled | internal/auditprogress/video_reminder.go:311-315 | the enabled row with the largest id, if any |
| Reminders.Newest | internal/auditprogress/video_reminder.go:311-315 | the row with the largest id, if any |
| Reminders.ParseScheduleForm | internal/auditprogress/handler.go:2295-2315 | frequency daily or weekly, hour 1-24, a weekday 1-7 for weekly only, and enabled exactly for "1" |
| Reminders.ReadConfig | internal/auditprogress/video_reminder.go:310-351 | as written: the newest enabled row, else daily, hour 1, enabled; the result is always enabled |
| Reminders.ReadConfigIntended | internal/auditprogress/video_reminder.go:310-351 | corrected: the newest row whatever its flag; the default only for an empty table |
| Reminders.ScheduleConfigTable.constructor | internal/auditprogress/video_reminder.go:310-351 | an empty table |
| Reminders.ScheduleConfigTable.Get | internal/auditprogress/video_reminder.go:310-351 | the as-written read, or the query's failure |
| Reminders.ScheduleConfigTable.GetIntended | internal/auditprogress/video_reminder.go:310-351 | the corrected read, or the query's failure |
| Reminders.ScheduleConfigTable.Save | internal/auditprogress/video_reminder.go:354-382 | every row is deleted (a failure only logged), then the new row inserted (a failure returned) |
| Reminders.ReadAfterEnabledSave | internal/auditprogress/video_reminder.go:354-382 | an enabled configuration just saved is what both reads return, even when a failed delete left rows behind |
| Reminders.DisabledSaveReadsEnabled | internal/auditprogress/video_reminder.go:313 | as written, a disabled configuration saved over a cleared table reads back as the enabled default |
| Reminders.ReadIntendedAfterSave | internal/auditprogress/video_reminder.go:354-382 | the corrected read returns the saved configuration, disabled or not |
| VideoDays.DateAt | internal/auditprogress/video_reminder.go:40-43 | a date match starting at a position is four digits, a separator, one or two digits, a separator and one or two digits |
| VideoDays.DateAtComplete | internal/auditprogress/video_reminder.go:40-43 | the matcher never misses a date-shaped text at a position and keeps the longest one |
| VideoDays.FindDate | internal/auditprogress/video_reminder.go:43 | the bare date expression finds the leftmost match, and nothing only when no position matches |
| VideoDays.LabelledAt | internal/auditprogress/video_reminder.go:40-42 | a labelled match is the label, a full- or half-width colon, white space and a date match |
| VideoDays.FindLabelled | internal/auditprogress/video_reminder.go:57-63 | a labelled expression found is a match at or after the start |
| VideoDays.FindLabelledNone | internal/auditprogress/video_reminder.go:57-63 | a labelled expression finds nothing only when it matches at no position |
| VideoDays.FindLabelledLeftmost | internal/auditprogress/video_reminder.go:57-63 | the labelled match found is the leftmost one |
| VideoDays.DateFromLabels | internal/auditprogress/video_reminder.go:39-63 | the date text captured by the first matching expression, labels first and the bare date last, is date-shaped |
| VideoDays.DateFromLabelsSome | internal/auditprogress/video_reminder.go:39-63 | a date is captured exactly when some position of the comment matches the date expression, labelled or not |
| VideoDays.ExtractDateNone | internal/auditprogress/video_reminder.go:39-63 | no date is captured exactly when the comment holds no date-shaped text |
| VideoDays.DaysAt | internal/auditprogress/video_reminder.go:47-51 | a day-count match is the prefix followed, after white space, by a captured run of digits |
| VideoDays.DaysAtExact | internal/auditprogress/video_reminder.go:47-51 | a day-count expression matches at a position exactly when the text there is prefix, white space, digits, white space and 天, and then captures those digits |
| VideoDays.FindDaysNone | internal/auditprogress/video_reminder.go:66-72 | a day-count expression finds nothing only when it matches at no position |
| VideoDays.FindDaysLeftmost | internal/auditprogress/video_reminder.go:66-72 | the day-count match found is the leftmost one |
| VideoDays.DaysCaptureAt | internal/auditprogress/video_reminder.go:66-72 | the capture is the digit run of the leftmost match |
| VideoDays.FirstDayExpressionDecides | internal/auditprogress/video_reminder.go:66-72 | when 不足 captures, its capture is the day count |
| VideoDays.SecondDayPatternRedundant | internal/auditprogress/video_reminder.go:47-51 | the day count is 不足's capture, else 缺少's, else the literal fallback: the 录像天数不足 expression never decides |
| VideoDays.DaysLongPrefixAt | internal/auditprogress/video_reminder.go:48-49 | wherever 录像天数不足 matches, 不足 matches four runes later with the same capture |
| VideoDays.FallbackDays | internal/auditprogress/video_reminder.go:75-83 | the literal fallback gives only "30", "90" or "180" |
| VideoDays.FallbackThirty | internal/auditprogress/video_reminder.go:75-78 | without a day-count match, any "30天" in the comment means 30 days |
| VideoDays.FallbackInsideLongerNumber | internal/auditprogress/video_reminder.go:76 | the fallback tests substrings, so "仅保存130天" counts as 30 days |
| VideoDays.NoDayExpression | internal/auditprogress/video_reminder.go:66-72 | a comment without 不, 录 or 缺 matches no day-count expression |
| VideoDays.ExtractDays | internal/auditprogress/video_reminder.go:65-83 | a captured day count is a non-empty run of digits |
| VideoDays.ScanDays | internal/auditprogress/video_reminder.go:97-98 | `fmt.Sscanf` of a digit run gives its value, or 0 when the value does not fit |
| VideoDays.ParseVideoDaysIssue | internal/auditprogress/video_reminder.go:33-108 | an empty comment gives (zero, 0, false); a found issue has 30, 90 or 180 days; anything not found is (zero, 0, false) |
| VideoDays.ParseVideoDaysIssueExtended | code1/ops-web/internal/auditprogress/video_reminder.go:33-115 | the same three promises for the copy with six date layouts |
| VideoDays.IssueFound | internal/auditprogress/video_reminder.go:86-107 | found exactly when a date and a day count are captured, the date's separators agree and the date exists, and the count is 30, 90 or 180; the days and the date are then the captured ones |
| VideoDays.ParseDateParts | internal/auditprogress/video_reminder.go:88-104 | both layout lists read a captured date the same way: accepted exactly when the separators agree and the date exists, giving that date |
| VideoDays.ParseCaptured | internal/auditprogress/video_reminder.go:88-104 | a captured date parses exactly when it is an acceptable date, under either layout list |
| VideoDays.ExtendedLayoutsAgree | code1/ops-web/internal/auditprogress/video_reminder.go:88-106 | the two extra layouts change nothing: both copies give the same result for every comment |
| VideoDays.IssueOf | internal/auditprogress/video_reminder.go:86-104 | a comment with an accepted date and day count gives that date's day and the count |
| VideoDays.WorkedExample | internal/auditprogress/video_reminder.go:33-108 | "录像最早日期：2024-01-01，不足30天" gives 2024-01-01, 30 days, found |
| Workflow.NullIfEmpty | internal/auditprogress/handler.go:778-786 | an empty comment is bound as NULL, any other as itself, and either reads back as the text given |
| Workflow.Snapshot | internal/checkpointprogress/audit_history.go:21-69 | at most one entry, and one exactly when the comment or the status changes; it holds the task's previous status and comment (NULL when that comment was empty) and the user, or 系统 without one |
| Workflow.EditedTask | internal/auditprogress/handler.go:778-791 | the task reads back the new comment and status and the edit time; its sampling flags and completion time are untouched |
| Workflow.CheckpointEdited | internal/checkpointprogress/handler.go:873-931 | the new comment and status; `completed_at` is set only when the task had none and the status becomes 已完成, and kept otherwise; marking fixed clears `is_sampled` and `last_sampled_at`, otherwise both are kept |
| Workflow.DetailCode | internal/auditprogress/handler.go:793-813 | the detail code is 0, 1 or 2; each valid task status maps to the code that stands for it, any other status to 0 |
| Workflow.Cascade | internal/auditprogress/handler.go:807-813 | every detail row of the task gets the code, and no other row or field changes |
| Workflow.DetailsWithout | internal/auditprogress/handler.go:1326-1332 | exactly the detail rows of other tasks remain, unchanged |
| Workflow.GetAuditHistory | internal/checkpointprogress/audit_history.go:72-110 | an error exactly when the query fails; otherwise the task's entries, all and only them, newest first |
| Workflow.SortNewestFirstSorted | internal/checkpointprogress/audit_history.go:73-76 | the `ORDER BY audit_time DESC` listing is sorted newest first and a permutation of its input |
| Workflow.GetSampleHistory | code1/ops-web/internal/auditprogress/sample.go:137-179 | an error exactly when the query fails; otherwise the task's sample records, all and only them, newest first |
| Workflow.LatestOfNewer | code1/ops-web/internal/auditprogress/sample.go:52-58 | a record newer than every earlier one of the task is the latest |
| Workflow.GetSampleInfo | code1/ops-web/internal/auditprogress/sample.go:30-78 | an error exactly when the task query fails; a missing task is "not sampled"; the flags come from the task row, the count from its records; when the task was sampled and its latest record reads, the sampler and result are that record's, else both are "" |
| Workflow.BatchInfo | code1/ops-web/internal/auditprogress/sample.go:219-255 | one batch entry carries the task row's flags and, unless its lookup fails, the number of the task's records |
| Workflow.BatchAgreesWhenSampled | code1/ops-web/internal/auditprogress/sample.go:30-258 | for a task with `last_sampled_at` set, the batch reader and the single reader give the same information |
| Workflow.BatchDiffersAfterReset | code1/ops-web/internal/auditprogress/sample.go:49-75 | after a "fixed" reset the batch reader still names the last sampler while the single reader names none |
| Workflow.TaskStore.BatchGetSampleInfo | code1/ops-web/internal/auditprogress/sample.go:182-258 | no ids give an empty map; otherwise an error exactly when the task query fails, else one entry for each requested id that names a task and no other, each being that task's batch entry |
| Workflow.ReminderOnlyForAcceptedComment | internal/auditprogress/handler.go:815-836 | the edit adds a reminder only for a non-empty comment in which a video-days issue is found; the one new row is pending, for this task, due the required number of days after the earliest date, and the days are in the accepted range |
| Workflow.AddReminder | internal/auditprogress/handler.go:815-836 | the reminder table becomes the reminder rows the comment calls for |
| Workflow.TaskStore.constructor | internal/checkpointprogress/audit_history.go:21-110 | the store starts empty and well-formed |
| Workflow.TaskStore.SaveAuditHistory | internal/checkpointprogress/audit_history.go:21-69 | fails when the task is missing or when an entry is needed and its insert fails; on success the history grows by the edit's snapshot and nothing else changes |
| Workflow.TaskStore.ApplyEdit | internal/auditprogress/handler.go:756-813 | the statements of one edit transaction: on success the task is the edited task, the details are cascaded and the history holds the snapshot |
| Workflow.TaskStore.EditAuditTx | internal/auditprogress/handler.go:756-843 | commits exactly when no statement fails; then task, details, history and reminders change as one edit; on failure nothing changes |
| Workflow.TaskStore.EditAudit | internal/auditprogress/handler.go:727-853 | an invalid id or status is refused; a valid form succeeds exactly when the task exists and the transaction commits, with the trimmed comment and status; a missing task reports 档案不存在 |
| Workflow.TaskStore.EditCheckpointTx | internal/checkpointprogress/handler.go:851-937 | as the audit edit, plus `completed_at` and the reset of the sampling flags; "fixed" is accepted only for a completed task whose latest sample asked for fixing |
| Workflow.TaskStore.EditCheckpoint | internal/checkpointprogress/handler.go:800-960 | the checkpoint edit page: refusals as the audit page's, the transaction's new state on success, and one task_updated event with status, comment and user when a user is logged in |
| Workflow.TaskStore.SaveSampleRecord | code1/ops-web/internal/auditprogress/sample.go:82-134 | on success one new record is appended and the task is marked sampled at that time; on failure nothing changes |
| Workflow.TaskStore.SubmitSample | internal/auditprogress/handler.go:1836-1897 | succeeds exactly when the id is valid, the task exists and is 已完成, a user is logged in, the result is "", 通过 or 待整改 and the save commits; then the record holds the trimmed comment and result |
| Workflow.TaskStore.SubmitCheckpointSample | internal/checkpointprogress/handler.go:2137-2207 | the same checks and record as the audit page's sample; on success exactly one task_sampled event carrying the result, comment and sampler, and no event on failure |
| Workflow.TaskStore.DeleteAudit | internal/auditprogress/handler.go:1274-1350 | succeeds exactly when the task exists and no statement fails; the task and its detail rows go, its history and sample records stay; on failure nothing changes |
| Workflow.TaskStore.DeleteCheckpointTx | internal/checkpointprogress/handler.go:1549-1596 | history, sample records, details and the task of the id go together or not at all |
| Workflow.TaskStore.DeleteCheckpoint | internal/checkpointprogress/handler.go:1487-1612 | refused without a logged-in user, then without the delete permission; otherwise succeeds exactly when the task exists and the transaction commits, and then one task_deleted event is offered |
| Workflow.RepeatedEditRecordsNothing | internal/checkpointprogress/audit_history.go:32-46 | submitting the same edit a second time records no new history entry |
| Workflow.SnapshotRestores | internal/checkpointprogress/audit_history.go:47-65 | the entry an edit records holds the previous comment and status, so applying it back restores the status |
| Workflow.CompletedAtIsFirstCompletion | internal/checkpointprogress/handler.go:873-883 | after any sequence of edits `completed_at` is the time of the first edit to 已完成 (or the value it already had) |
| Workflow.SampleInfoAfterSave | code1/ops-web/internal/auditprogress/sample.go:30-134 | after a newer sample is saved, the sample information shows the task sampled at that time by that user with that result, and one more record |
| Workflow.DuplicateAt | internal/checkpointprogress/handler.go:1103-1104 | a match is a non-empty run without quotes between "Duplicate entry '" and "' for key" at that position |
| Workflow.FindDuplicate | internal/checkpointprogress/handler.go:1103-1107 | a value found is a non-empty, quote-free entry that occurs in the message in that frame |
| Workflow.CheckUniqueConstraint | internal/checkpointprogress/handler.go:1084-1110 | a unique-key violation exactly for MySQL error 1062, with the field name; anything else gives (false, "", ""); a value given is the quoted entry of the message |
| Workflow.DuplicateAtStart | internal/checkpointprogress/handler.go:1103-1107 | the entry of a message that starts with the duplicate-key frame is found right there |
| Workflow.DuplicateRoundTrip | internal/checkpointprogress/handler.go:1084-1110 | MySQL's duplicate-key message for an entry gives back that entry |
| Query.BuildWhereClause | internal/auditprogress/query.go:30-121 | the clause and arguments are those of the task filter's conditions, appended in the source's order, and the clause has exactly one placeholder per argument |
| Query.TabWhere | internal/auditprogress/query.go:34-45 | the first block appends the tab's own conditions |
| Query.SearchWhere | internal/auditprogress/query.go:34-57 | the tab block followed by the name and tag searches |
| Query.ClauseBinds | internal/auditprogress/query.go:30-121 | every built clause binds: the placeholder count equals the argument count, and binding writes each condition's values in its place |
| Query.TabRule | internal/auditprogress/query.go:35-45 | the overdue tab carries the staleness test and every other tab its negation, never both |
| Query.StatusFilterRule | internal/auditprogress/query.go:35-74 | a status comparison appears for exactly one value: 已审核待整改 on the overdue tab whatever was asked, otherwise the requested status when it is one of the three known ones |
| Query.ArchiveFilterRule | internal/auditprogress/query.go:76-89 | the archive-type comparison appears exactly for the four known types |
| Query.SampleFilterRule | internal/auditprogress/query.go:91-119 | a sample-status condition appears exactly when one of the three known statuses is asked for outside the overdue tab, and then it is that status's condition |
| Query.SampleKindOf | internal/auditprogress/query.go:93-98 | a sample status is recognised exactly when it is 已抽检, 待整改 or 待抽检 |
| Query.SearchRule | internal/auditprogress/query.go:47-57 | the name and tag searches are substring matches, present exactly when their text is non-empty |
| Query.LikeInSearch | internal/auditprogress/query.go:34-119 | a substring match is among the conditions exactly when it is one of the two searches |
| Query.SampleFilterPinsCompleted | internal/auditprogress/query.go:99-116 | every sample-status condition starts by requiring the task to be 已完成 |
| Query.OrderBy | internal/auditprogress/query.go:125-132 | the overdue tab orders by `updated_at`, every other tab by id, both descending |
| Query.StatementBinds | internal/auditprogress/query.go:149-160 | a paged statement always binds: the clause's arguments, then page size and offset for LIMIT and OFFSET |
| Query.OffsetsTile | internal/auditprogress/query.go:149 | consecutive pages follow each other modulo 2^64; while page × size fits in 64 bits the offset is the plain, non-negative product and pages tile without gap or overlap |
| Query.OffsetWraps | internal/auditprogress/query.go:149 | page MaxInt64 at 30 rows a page wraps to offset −60 |
| Query.MonthShape | internal/auditstatistics/handler.go:128 | a month `time.Parse("2006-01", …)` accepts is four digits, '-', two digits, and its fields are those digits |
| Query.MonthSplit | internal/auditstatistics/handler.go:128-132 | after a parse, splitting on '-' gives two parts that read back as the parsed year and month |
| Query.MonthRule | internal/auditstatistics/handler.go:127-143 | a month condition is added exactly when the value parses, carrying its year and month |
| Query.AppendStatus | internal/auditstatistics/handler.go:146-152 | the status block appends the status-code condition, if any, to the clause built so far |
| Query.StatusCodeRule | internal/auditstatistics/handler.go:146-152 | a status comparison with code v appears exactly when the text reads as the number v and v is 0, 1 or 2 |
| Query.BuildStatsWhere | internal/auditstatistics/handler.go:121-155 | the statistics clause and arguments are those of the month and status conditions, one placeholder per argument |
| Query.AppendStatsMonth | internal/auditstatistics/handler.go:127-143 | the month block appends the month condition on the column the status chooses |
| Query.StatsMonthColumnRule | internal/auditstatistics/handler.go:134-139 | status "2" filters the month on `completed_at`; "02", although it selects code 2, filters on `import_time` |
| Query.LeadingZeroTwo | internal/auditstatistics/handler.go:147 | `strconv.Atoi` reads "02" as 2 |
| Query.AppendCheckpointMonth | code1/ops-web/internal/checkpointfilelist/handler.go:184-194 | the checkpoint list's month block appends the month condition on `update_time` when the value parses |
| Query.BuildCheckpointWhere | code1/ops-web/internal/checkpointfilelist/handler.go:171-203 | the checkpoint list's clause and arguments are those of its code, name, month and status conditions, one placeholder per argument |
| Query.RequestedPage | internal/auditprogress/handler.go:86-89 | the requested page is 1 to MaxInt64: a number that reads is kept when at least 1, unreadable text reads as 1, and a number beyond 64 bits reads as MaxInt64 |
| Query.PageCount | internal/auditprogress/handler.go:158-161 | the least number of pages, at least one, that holds all rows |
| Query.Paginate | internal/auditprogress/handler.go:86-164 | the page shown is the requested one or the last, within 1 to the page count; the offset is the requested page's in 64-bit arithmetic: the plain product while it fits, else wrapped modulo 2^64 |
| Query.Fetched | internal/auditprogress/handler.go:167-172 | `LIMIT l OFFSET o` returns at most l rows, none exactly when the offset is past the rows, and all the rows left when fewer than l remain |
| Query.FetchPage | internal/auditprogress/handler.go:167-176 | a negative offset makes the list query fail; otherwise at most a page of rows, none exactly when the offset is past the rows |
| Query.HugePageFails | internal/auditprogress/handler.go:86-176 | every page text that is a range error reading as MaxInt64 makes the audit list query offset −60 and fail |
| Query.OverflowPageFails | internal/auditprogress/handler.go:86-176 | page "9223372036854775808" with 100 rows claims page 4 of 4 and its query fails |
| Query.WrappedPageShowsRows | internal/auditprogress/handler.go:86-176 | page "614891469123651722" with 100 rows wraps to offset 14, so rows 15 to 44 are shown as page 4 |
| Query.RecordRangeRule | internal/auditprogress/handler.go:320-328 | the "records a to b" line is 0 to 0 for no rows, otherwise a non-empty stretch of at most one page ending at the smaller of page × size and the count |
| Query.PageShowsItsRecords | internal/auditprogress/handler.go:93-170 | on an existing page the rows fetched are as many as the record line claims |
| Query.StalePageShowsNoRows | internal/auditprogress/handler.go:93-164 | asking for page 2 of 30 rows shows "page 1, records 1 to 30" and fetches no rows |
| Query.PaginateIntended | internal/auditprogress/handler.go:86-164 | the page is clamped first and the offset taken from the clamped page, so it is never negative and never past the row count |
| Query.IntendedPageShowsItsRecords | internal/auditprogress/handler.go:93-328 | with the offset taken after the clamp, the rows fetched are exactly the records the page claims |
| Query.AsWrittenAgreesInRange | internal/auditprogress/handler.go:86-164 | the two arithmetics agree whenever the requested page exists and the row count fits in 64 bits |
| Query.ReportedCount | code1/ops-web/internal/checkpointfilelist/handler.go:214-216 | a zero row count is reported as 1; any other count as itself |
| Query.ListPaging | internal/filelist/handler.go:195-236 | the file and checkpoint lists report at least one row and one page, and show a page within range; no rows show as page 1 of 1 with count 1; the offset is in 64 bits and is the plain product while that fits |
| Statistics.ReadDateFilter | internal/statistics/handler.go:47-67 | the dates kept for the page can always be written back as YYYY-MM-DD |
| Statistics.DateFilterRule | internal/statistics/handler.go:52-67 | the filter is on exactly when both dates parse, from the parsed start to the parsed end day; two given dates that fail are both cleared; a missing date leaves both texts as given |
| Statistics.DateWhere | internal/statistics/handler.go:126-131 | the date block appends the day-range condition, if any, with its two dates as arguments |
| Statistics.BuildGroupWhere | internal/statistics/handler.go:114-141 | the grouped query's filter is that of the date and status conditions, one placeholder per argument |
| Statistics.DateCondsRule | internal/statistics/handler.go:127-131 | a read range filters on `DATE(update_time)` between its two dates unless its start is Go's zero time |
| Statistics.EndNeverZero | internal/statistics/handler.go:61 | the end date, moved to 23:59:59, is never the zero time |
| Statistics.ZeroStartParses | internal/statistics/handler.go:56 | "0001-01-01" parses to Go's zero time |
| Statistics.ZeroStartDropsRange | internal/statistics/handler.go:52-67 | a range starting on 0001-01-01 is read as a range but filters nothing, whatever its end |
| Statistics.TallyRows | internal/statistics/handler.go:161-207 | a unit has a row exactly when one of its groups has a type 1 to 4; its total adds all those groups, while each type field holds the last group's count of that type |
| Statistics.Tally | internal/statistics/handler.go:161-207 | every row of the map is keyed by its own unit |
| Statistics.SummaryRows | internal/statistics/handler.go:153-207 | the summary is named 汇总; its total and each type field add the counts of all accepted groups |
| Statistics.SumByType | internal/statistics/handler.go:178-207 | any selection's total over all types is the sum of its four type totals |
| Statistics.TypeOne | internal/statistics/handler.go:171-172 | "1" and " 1" both read as point type 1 |
| Statistics.TallyTwice | internal/statistics/handler.go:190-206 | two type-1 groups of one unit leave the second count in the type field and the sum of both in the total |
| Statistics.TypeOneTwice | internal/statistics/handler.go:161-207 | two groups of one unit whose type texts both read as 1 show the second count in the type-1 field and both in the total |
| Statistics.SpacedTypeOverwrites | internal/statistics/handler.go:143-207 | the groups " 1" and then "1", kept apart by the grouping, end up as the type-1 field holding only the second count while the total holds both |
| Statistics.DistinctSums | internal/statistics/handler.go:143-207 | when no unit has two groups of one type, each type field is the sum of that unit's groups of that type |
| Statistics.DistinctTotals | internal/statistics/handler.go:190-206 | when no unit has two groups of one type, a unit's total is the sum of its four type fields |
| Statistics.SummaryTotals | internal/statistics/handler.go:190-206 | the summary's total is always the sum of its four type fields |
| Statistics.AddGroup | internal/statistics/handler.go:161-207 | one turn of the loop: the group's trimmed type decides it, and groups of other types are skipped |
| Statistics.RecordGroup | internal/statistics/handler.go:181-206 | a group of type p creates its unit's row if missing, overwrites that row's type field, adds to the summary's field and adds to both totals |
| Statistics.GetStatisticsByDateRange | internal/statistics/handler.go:145-215 | a failed query gives no rows and an empty 汇总; otherwise the summary of all groups that scan and exactly one row per unit with an accepted group, each being that unit's tallied row |
| Statistics.Rows | internal/statistics/handler.go:210-213 | the slice holds each map entry exactly once, in some order |
| Statistics.KeyOf | internal/statistics/handler.go:240-246 | a raw key names a parameter only when it is that parameter's name |
| Statistics.KeyName | internal/statistics/handler.go:240-246 | each parameter's name is read back as that parameter, and holds no '=', '&', '%' or surrounding space |
| Statistics.ExportParams | internal/statistics/handler.go:221-251 | the export's parameters are those of the raw-query fallback |
| Statistics.AssignPart | internal/statistics/handler.go:236-249 | one element splits at its first '=', is trimmed, and a known key sets its parameter |
| Statistics.LastWins | internal/statistics/handler.go:235-250 | each parameter takes the last value given for its key and keeps its old value when the key is absent |
| Statistics.ElementValue | internal/statistics/handler.go:71-81 | one element the page writes gives its value for its own key only |
| Statistics.PageLastValue | internal/statistics/handler.go:71-81 | in the page's own query string, a key's last value is its parameter when non-empty, otherwise absent |
| Statistics.FallbackSplits | internal/statistics/handler.go:228-235 | a query joined from elements free of '&' and '%' splits back into those elements |
| Statistics.AssignPage | internal/statistics/handler.go:71-81 | assigning the page's own elements to empty parameters recovers them |
| Statistics.FallbackReadsPageQuery | internal/statistics/handler.go:71-251 | the export's fallback, fed the page's own query string, recovers the page's parameters |
| AuditStatistics.BumpGet | internal/auditstatistics/handler.go:209-327 | an increment adds one to its own counter only, and keeps the unit and the totals |
| AuditStatistics.PointType | internal/auditstatistics/handler.go:216-226 | a point type is read from the trimmed text exactly when it is an integer from 1 to 4 |
| AuditStatistics.Classify | internal/auditstatistics/handler.go:229-263 | the `has1`/`has2` scan yields the kind of the function type: vehicle with an element "1", else face with an element "2", else video (also for NULL and empty) |
| AuditStatistics.VehicleBeforeFace | internal/auditstatistics/handler.go:250-252 | "2,1" is a vehicle: an element "1" wins over a "2" |
| AuditStatistics.WholeElementsOnly | internal/auditstatistics/handler.go:232-245 | "12" is a video: elements are compared whole, not by character |
| AuditStatistics.DeviceHits | internal/auditstatistics/handler.go:190-328 | the device query's rows give one hit each, in order |
| AuditStatistics.CheckpointHits | internal/auditstatistics/handler.go:350-400 | the checkpoint query's rows give one hit each, in order |
| AuditStatistics.Hits | internal/auditstatistics/handler.go:190-400 | the device rows' hits in order, then the checkpoint rows' hits when that query succeeded |
| AuditStatistics.HitsWellFormed | internal/auditstatistics/handler.go:190-400 | every row that increments something has opened its unit's row and names a real counter |
| AuditStatistics.FoldCounts | internal/auditstatistics/handler.go:190-400 | each counter of a row is its starting value plus the number of rows counted in it |
| AuditStatistics.SummaryCounts | internal/auditstatistics/handler.go:180-400 | each summary counter is the number of rows counted in it |
| AuditStatistics.TallyKeys | internal/auditstatistics/handler.go:201-206 | a unit has a row exactly when some row of that unit opened it |
| AuditStatistics.TallyRows | internal/auditstatistics/handler.go:190-400 | a unit's row holds the counters of that unit's rows alone; a unit without a row has no counted rows |
| AuditStatistics.TallyNames | internal/auditstatistics/handler.go:203-205 | every row of the map carries its own unit's name |
| AuditStatistics.Tally | internal/auditstatistics/handler.go:201-206 | every row of the map is keyed by its own unit |
| AuditStatistics.OccurrencesValid | internal/auditstatistics/handler.go:264-398 | only real counters are ever incremented |
| AuditStatistics.NoTypeFourVehicle | internal/auditstatistics/handler.go:315-327 | type-4 vehicles are counted nowhere |
| AuditStatistics.TotalsKeepCounters | internal/auditstatistics/handler.go:404-424 | the totals pass changes no counter and not the unit |
| AuditStatistics.TotalBump | internal/auditstatistics/handler.go:404-424 | one more counted row adds one to the grand total |
| AuditStatistics.GrandTotalCountsRows | internal/auditstatistics/handler.go:190-424 | the grand total grows by the number of rows counted: one per single-soldier row and one per classified row, nothing for skipped rows and type-4 vehicles |
| AuditStatistics.EmptyGrandTotal | internal/auditstatistics/handler.go:190-415 | a unit row's grand total is the number of rows counted in it |
| AuditStatistics.SummaryGrandTotal | internal/auditstatistics/handler.go:180-424 | the summary's grand total counts every counted row of both queries |
| AuditStatistics.InsertRow | internal/auditstatistics/handler.go:433-435 | placing a row among rows sorted by unit keeps them sorted and is a permutation of the rows plus the new one |
| AuditStatistics.InsertedUnits | internal/auditstatistics/handler.go:427-435 | inserting a row adds its unit and keeps the other rows |
| AuditStatistics.Step | internal/auditstatistics/handler.go:190-400 | one row more opens its unit's row when it should and increments the counter it names in that row and in the summary |
| AuditStatistics.CountDevice | internal/auditstatistics/handler.go:190-327 | one device row: its unit's row is created if missing, then the single-soldier column or its classified counter is incremented in that row and the summary |
| AuditStatistics.Tick | internal/auditstatistics/handler.go:264-327 | the `++` of one counter in a unit's row and in the summary |
| AuditStatistics.CountDevices | internal/auditstatistics/handler.go:184-328 | after the device loop the map and the summary are the tally of the device rows that scan; a row with a NULL column is skipped |
| AuditStatistics.CountCheckpoint | internal/auditstatistics/handler.go:350-398 | one checkpoint row: with a point type 1 to 4 its unit's row is created if missing, and types 1 to 3 add a vehicle to it and to the summary |
| AuditStatistics.CountCheckpoints | internal/auditstatistics/handler.go:346-401 | the checkpoint loop continues the device tally with the checkpoint rows that scan |
| AuditStatistics.SortedRows | internal/auditstatistics/handler.go:404-435 | the rows are sorted by unit, one per unit of the map, each that unit's row with its totals |
| AuditStatistics.GetStatistics | internal/auditstatistics/handler.go:158-439 | a failed device query gives no rows and an empty 汇总; otherwise one row per opened unit, sorted by unit, each with its own counters and totals, and a summary counting all rows that scan (a failed checkpoint query counts only the devices) |
| AuditStatistics.ColumnSums | internal/auditstatistics/handler.go:158-439 | every counter column of the summary is the sum of that column over the unit rows |
| Statistics.SpacedTypeUnbalanced | internal/statistics/handler.go:143-207 | as written, a unit whose type-1 groups are stored as " 1" and then "1" shows a total that is not the sum of its type fields |
| Statistics.IntendedRows | internal/statistics/handler.go:190-206 | under the corrected tally a unit has a row exactly when it has an accepted group, and each field sums that unit's groups |
| Statistics.TallyIntended | internal/statistics/handler.go:190-206 | under the corrected tally every row of the map is keyed by its own unit |
| Statistics.IntendedTotals | internal/statistics/handler.go:190-206 | under the corrected tally a unit's total is always the sum of its type fields |
| Statistics.IntendedAgreesWhenDistinct | internal/statistics/handler.go:143-207 | when no unit has two groups of one type, the corrected and the written tallies give the same rows |

## Left out

- HTTP and page plumbing: request parsing, redirects, HTML templates, JSON responses and the operation-log texts are not modelled; each handler is reduced to its checks and its table changes.
- The list page of audit tasks (internal/auditprogress/handler.go:96-146) builds its own inline filter, with the sample values 已抽检 and 未抽检 and three archive types; only `BuildWhereClause` and the page arithmetic of that handler are modelled.
- The push-channel endpoint internal/checkpointprogress/sse.go is streaming I/O with a ticker and cancellation; only the frame it writes and the hub it feeds are modelled.
- Concurrency: goroutines, channel blocking, mutexes, `sync.Once`, the `ReloadScheduler` stop handshake and every `time.Sleep` are left out. The hub and both schedulers are sequential step functions, and a sleep is a returned duration.
- Wall clock and time zones: "now" is a parameter, and local time, UTC and daylight saving are not distinguished. The mix of a UTC-midnight date with a local "now" in the reminder's day count is therefore not modelled.
- Floating point: longitude and latitude parsing in the imports, the fractional remaining days and `GetOverdueDays` are not modelled.
- The SQL engine: LIKE, DATEDIFF, NOW() and subqueries are not evaluated. The query builders are modelled as the text and the argument list they produce. Tables are sequences and maps, and MySQL collation and implicit conversions are not modelled.
- internal/overview/handler.go is not part of this model, since its logic lives in SQL text.
- Foreign libraries and commands: excelize, mysqldump, `copyDirectory`, file upload and download and attachment listing. A spreadsheet is a sequence of rows of text, and a directory listing is a parameter.
- Cryptography: AES-CBC, SHA-256, base64, random IVs and bcrypt. The cipher is a `Crypt` function parameter of `License`, and only the padding, layout and length rules are modelled.
- Infrastructure: internal/db/db.go, internal/logger/logger.go, main.go, internal/settings/handler.go, internal/auth/middleware.go and `GetServerMacAddress` are not part of this model.
- Text.ToUpper: upper-cases ASCII letters only, where Go's `strings.ToUpper` maps every Unicode letter; after the MAC checks only hexadecimal digits remain, so the difference does not reach a valid result.
- DisplayTime.FormatDateTime: the fallback cut is 16 runes, where Go cuts 16 bytes; the two differ only for non-ASCII text.
- RawQuery.Unescape: a decoded "%XX" byte becomes one character of the same code, so a multi-byte UTF-8 sequence is not reassembled into one rune.
- Workflow: the audit package's own `SaveAuditHistory` (called at internal/auditprogress/handler.go:764) is not part of this model; the audit edit is modelled with the rules of the checkpoint package's writer.
- ListReminders: the page total comes from a separate count query, which is not modelled; that count still includes reminders whose task was deleted, which the listing skips.
- Storage failures are parameters (a set of statements that fail, or a flag for a failed query), since they come from outside the program; a transaction with failures returns an error and leaves every table as it was.

## Findings

The operations keep the behaviour as written. Each corrected member stands beside them, with the intended property proved about it and, where they overlap, its agreement with the written code.

| source | as written | input that shows it | evidently intended | confidence | as-written member | corrected member |
|---|---|---|---|---|---|---|
| internal/taskconfig/scheduler.go:74-79 | the hour is accepted from 1 to 24 and compared with `now.Hour()`, which is 0 to 23 | backup hour "24", at any time of day | hour 24 means midnight, so every accepted hour fires once a day | not executed | Backup.Hour24NeverRuns | Backup.ShouldRunIntended, Backup.IntendedEveryHourRuns |
| internal/auditprogress/video_reminder.go:310-351 | the configuration read keeps only rows with enabled = 1 and otherwise returns the enabled default | save a disabled schedule, then read it back | the read returns the saved schedule, so disabling the reminder loop takes effect | not executed | Reminders.DisabledSaveReadsEnabled, ReminderScheduler.LoopNeverPolls | Reminders.ReadConfigIntended, Reminders.ReadIntendedAfterSave, ReminderScheduler.LoopPollsAfterDisabledSave |
| internal/auditprogress/handler.go:93-164 | the offset is computed from the requested page before the page is clamped to the page count | 30 records, page size 30, page 2 | the offset is taken from the clamped page, so the page shows the records it names | not executed | Query.Paginate, Query.StalePageShowsNoRows | Query.PaginateIntended, Query.IntendedPageShowsItsRecords |
| internal/auditprogress/handler.go:86-93 | the page is read with its range error ignored and `(page - 1) * pageSize` is computed in 64-bit `int` before any clamp | page "9223372036854775808" (offset −60: the query fails) or "614891469123651722" (offset 14: rows 15 to 44 shown as page 4) | the offset is taken from the clamped page, so it never exceeds the row count | not executed | Query.OverflowPageFails, Query.WrappedPageShowsRows | Query.PaginateIntended, Query.IntendedPageShowsItsRecords |
| internal/statistics/handler.go:190-206 | a group's count is assigned to its type field, overwriting an earlier group of the same type, while the total adds it | one unit with a group of type " 1" (count 1) followed by one of type "1" (count 1) | the type fields add up like the total | not executed | Statistics.SpacedTypeUnbalanced | Statistics.TallyIntended, Statistics.IntendedTotals |
