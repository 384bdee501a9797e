# EOD-Gen end-of-day report core, in Dafny

EOD-Gen is a small web application for logging the day's work. Someone logs
tasks (a name, the hours spent, a status) within a daily budget that depends
on their work mode. The application turns the day's tasks into an email
subject and body, or a CSV file, and saves the report to a remote store.
That store has a clients table, a reports table and a tasks table. Later,
the history screen lists, filters, deletes and downloads the saved reports,
and a backup can be imported back into the store. Settings are kept in
browser storage and merged over built-in defaults at start-up. The settings
screen edits them, including the registry of clients (key to display name).

This project models that core and proves what its code promises.

- `Store` and `Db` model the report library, `lib/db.ts`.
  - `Store` describes every remote call as a function from one store value
    to the next. One boolean fault per remote call says whether the remote
    end reported an error.
  - `Db.RemoteStore` is the mutable store. Each of its methods is proved to
    reach the state that the matching `Store` function describes.
  - `BackupRoundTrip` proves the backup round trip. It feeds the output of
    `getAllReports` to `importReports` on an empty store. Reading back then
    gives every report's date, client key, reporter name, total, task list
    and client name.
- `ReportUtils` models `lib/report-utils.ts`:
  - the hours-and-minutes phrase, with a parser that inverts it;
  - the status emoji classification;
  - the email subject and body;
  - the two CSV contents, with their read-back by splitting.
- `ConfigContext` models `context/config-context.tsx`: the defaults, the
  load-time merge, the save guard and the configuration replacement.
- `Settings` models `components/settings.tsx`: adding and removing clients,
  and the single-field edits.
- `TaskLogger` models `components/task-logger.tsx`: the daily limit, and
  adding, removing and completing tasks.
- `History` models `components/history.tsx`: filtering, deleting, resetting
  and downloading on the history screen.
- Supporting modules:
  - `Tasks`: the task record, the total and the text of a time;
  - `Text`: digits, case folding, `includes`, `join` and `split`;
  - `JsObject`: a string-keyed JavaScript object with its insertion order,
    and spreading one object over another;
  - `Order`: the date ordering of the store;
  - `Wrappers`: Option and Result.

Times are whole numbers of quarter-hours, which is the granularity of the
time input. Every such value is exact as a JavaScript number. So
`parseFloat`, `toString`, sums, `Math.floor` and `Math.round` on such a time
are exact, and the model states them with integer arithmetic. `HoursText(q)`
is the text JavaScript gives the number `q/4`: "1.5" for `q = 6`.

The store is assumed to behave as the library relies on it:

- report ids are fresh;
- `tasks.report_id` references `reports.id` with ON DELETE CASCADE;
- an insert missing a NOT NULL column is rejected;
- each statement applies in full or not at all;
- unordered reads return rows in insertion order;
- `order("date", { ascending: false })` is a stable sort into non-increasing
  code-point order.

## Model

| member | source | states |
|---|---|---|
| Tasks.TotalTimeAppend | eodgen/lib/db.ts:115 | The total of the task times is additive over concatenation. |
| Tasks.TotalTimeRemoveAt | eodgen/components/task-logger.tsx:69-74 | Removing the task at an index takes exactly its time off the total. |
| Tasks.HoursTextPlain | eodgen/lib/report-utils.ts:71 | The text of a time contains only digits and the decimal point, so never a comma or a newline. |
| Tasks.HoursText | eodgen/components/task-logger.tsx:59-62 | The stored time text of a task, `timeSpent.toString()` for a time of quarter-hours: the whole hours, then ".25", ".5" or ".75" for a part hour, and nothing for a whole one. It is never empty. |
| Store.Filter | eodgen/lib/db.ts:233-243 | A filter keeps exactly the elements that satisfy the predicate and is never longer than its input. |
| Store.SyncState | eodgen/lib/db.ts:74-99 | The store after `syncClientsToSupabase`: one upsert of every key and name of the client object, unless it is empty or the upsert fails. Reports, tasks and the id counter never change, and every client key already stored stays stored. |
| Store.SyncResult | eodgen/lib/db.ts:88-98 | The result of the sync: true when it succeeds, which it always does unless the upsert fails. |
| Store.SyncUpserts | eodgen/lib/db.ts:83-98 | A successful sync returns true. Every key of the object maps to its name. Every other client is unchanged, and so are the reports and tasks. |
| Store.SyncEmpty | eodgen/lib/db.ts:88-98 | An empty object performs no write and returns true, even when the remote end would fail. |
| Store.SyncTwice | eodgen/lib/db.ts:88-96 | Upserting one key twice gives the same store as upserting only the later name, and one record holds that name. |
| Store.SyncValid | eodgen/lib/db.ts:74-99 | A sync keeps the id and foreign-key invariant of the store. |
| Store.TaskRowsFor | eodgen/lib/db.ts:135-140 | The batch has one row per task, in order. Each row carries the report id and the task's name, time and status. |
| Store.TasksOfAppend | eodgen/lib/db.ts:198-211 | The tasks of a report over concatenated rows are the tasks over the first rows followed by those over the rest. |
| Store.TasksOfRowsFor | eodgen/lib/db.ts:135-142 | A batch for a report holds exactly the given tasks for that report, and none for any other. |
| Store.FreshIdHasNoTasks | eodgen/lib/db.ts:118-127 | In a valid store no task row points at the next fresh id. |
| Store.SaveSpec | eodgen/lib/db.ts:102-150 | `saveReport` as three non-atomic steps: client upsert, report insert, task insert. It succeeds exactly when no step fails, and then returns the fresh id. A failed sync changes nothing. The counter moves on exactly when the report insert runs and succeeds. Report and task rows are only ever appended. |
| Store.AppendReportValid | eodgen/lib/db.ts:118-147 | Appending a report row with the fresh id, and task rows pointing at it, keeps the store valid. |
| Store.SaveSucceeds | eodgen/lib/db.ts:102-150 | A save with no fault upserts the client, returns the fresh id, and appends one report row carrying the arguments and the total of the task times. It also appends one task row per task in order, so reading that report's tasks gives the input tasks. |
| Store.FreshBatchTasks | eodgen/lib/db.ts:135-147 | A batch written under the next id holds exactly the tasks of the new report. |
| Store.SaveReportInsertFails | eodgen/lib/db.ts:112-132 | A failed report insert raises, keeps the upserted client, and writes no report row and no task row. |
| Store.SaveTasksInsertFails | eodgen/lib/db.ts:142-147 | A failed task insert raises, but the report row stays and has no tasks. |
| Store.SaveValid | eodgen/lib/db.ts:102-150 | Every outcome of a save, including each error path, leaves a valid store. |
| Store.ClientName | eodgen/lib/db.ts:217 | The client name is the registry name when it exists and is non-empty, otherwise the client key. |
| Store.QuerySpec | eodgen/lib/db.ts:157-218 | The shared read: order by date descending, return early on no rows, look up client names and task rows, group and join. It succeeds exactly when the report read does not fail and either there are no rows or neither lookup fails. On success it has one entry per row. |
| Store.AllReportsSpec | eodgen/lib/db.ts:153-219 | `getAllReports`: the shared read over every report row. Without faults it succeeds with one entry per stored report. |
| Store.Matches | eodgen/lib/db.ts:233-243 | The filter test of `getReportsByFilters`: equal client key, date on or after the start, date on or before the end, each only when that filter is non-empty. With no non-empty filter every report matches, and a report with another client key never matches a set client filter. |
| Store.FilteredReportsSpec | eodgen/lib/db.ts:222-305 | `getReportsByFilters`: the shared read over the report rows that match. On success it is never longer than the list of stored reports. |
| Store.JoinView | eodgen/lib/db.ts:214-218 | The join has one entry per report row, in the same order. |
| Store.QueryShape | eodgen/lib/db.ts:157-218 | Without faults, the read succeeds, and is empty exactly when there are no rows. It is the join of a permutation of the rows. That join is in non-increasing date order. |
| Store.JoinViewEntry | eodgen/lib/db.ts:198-218 | Each entry carries its row's fields, exactly the task rows pointing at it (in row order, projected to name, time and status) and its client's display name. |
| Store.FilteredExactly | eodgen/lib/db.ts:230-246 | A report appears in the filtered result exactly as often as it is stored and matches every filter, and otherwise not at all. |
| Store.NoFiltersIsAllReports | eodgen/lib/db.ts:233-243 | With every filter null, or every filter empty, the filtered read equals `getAllReports`. |
| Store.NoReportsNoResult | eodgen/lib/db.ts:167-169 | With no report rows the read returns the empty list, whatever the client and task lookups would have done. |
| Store.DeleteSpec | eodgen/lib/db.ts:308-320 | `deleteReport`: remove the report rows with that id and, by cascade, their task rows. It returns true exactly when the delete does not fail. Clients and the id counter never change, and no table grows. |
| Store.DeleteRemoves | eodgen/lib/db.ts:308-320 | A delete returns true and removes every report row with that id, and by cascade its tasks. Every other report keeps its tasks, the clients are untouched and the store stays valid. |
| Store.TasksOfFilterOther | eodgen/lib/db.ts:311 | The cascade's removal of one report's task rows does not change another report's tasks. |
| Store.DeleteMissing | eodgen/lib/db.ts:312-319 | Deleting an id that no report has returns true and changes nothing. |
| Store.OrStr | eodgen/lib/db.ts:330-341 | The JavaScript or on strings: the first value when it is present and non-empty, else the second. |
| Store.OrNum | eodgen/lib/db.ts:341 | The JavaScript or on numbers: the first value when it is present and non-zero, else the second. |
| Store.ImportOne | eodgen/lib/db.ts:328-368 | One pass of the import loop: sync the entry's client, insert its report (fields from the camelCase or snake_case spelling), then its tasks, skipping the rest of the entry on a failure. Rows are only appended, and the counter moves on by one exactly when one report row is added. |
| Store.ImportSpec | eodgen/lib/db.ts:323-372 | `importReports`: the one-entry step over every entry in order. Rows are only appended, the counter moves on by at most the number of entries, and the report rows added are exactly as many as the ids used. |
| Store.ImportOneInserted | eodgen/lib/db.ts:328-365 | A record with a name and every column gets the next fresh id. Each field is taken from the camelCase spelling, or else the snake_case one. Its tasks are appended unless the task insert fails. |
| Store.ImportOneSkipped | eodgen/lib/db.ts:330-349 | A record whose sync or report insert fails is skipped: no report row and no task row is written for it. |
| Store.ImportOneValid | eodgen/lib/db.ts:328-368 | Importing one record keeps the store valid. |
| Store.ImportSpecSnoc | eodgen/lib/db.ts:327-369 | Importing one more record applies that record's step on top of the earlier records. |
| Store.ImportValid | eodgen/lib/db.ts:323-372 | Importing any sequence of records keeps the store valid. |
| Order.StrLeTotal | eodgen/lib/db.ts:160 | The date order is total. |
| Order.StrLeTrans | eodgen/lib/db.ts:160 | The date order is transitive. |
| Order.StrLeAntisymmetric | eodgen/lib/db.ts:160 | The date order is antisymmetric. |
| Order.SortDesc | eodgen/lib/db.ts:157-160 | Ordering by date descending is a permutation of the rows. |
| Order.InsertSorted | eodgen/lib/db.ts:160 | Inserting into a non-increasing sequence keeps it non-increasing. |
| Order.SortDescSorted | eodgen/lib/db.ts:157-160 | The ordered rows are in non-increasing date order. |
| Order.SortDescOfSorted | eodgen/lib/db.ts:157-160 | Rows already in non-increasing date order come back unchanged. |
| Db.GroupTasksByReportId | eodgen/lib/db.ts:198-211 | After the reduce, the list under each report id is exactly that report's task rows, in row order. A missing id means the empty list. |
| Db.TasksOfRestricted | eodgen/lib/db.ts:189-190 | Fetching only the task rows of the listed reports does not change those reports' tasks. |
| Db.RemoteStore.constructor | eodgen/lib/db.ts:6-29 | An empty store with three empty tables. |
| Db.RemoteStore.SyncClientsToSupabase | eodgen/lib/db.ts:74-99 | The store becomes the sync of the old store, and the result is what the sync returns or raises. |
| Db.RemoteStore.SaveReport | eodgen/lib/db.ts:102-150 | The new store and the result are the save's, including each non-atomic error path. |
| Db.RemoteStore.RunReportsQuery | eodgen/lib/db.ts:157-218 | The order, the early return, the three lookups, the grouping and the join give the specified result. |
| Db.RemoteStore.GetAllReports | eodgen/lib/db.ts:153-219 | Returns the specified read of every report. |
| Db.RemoteStore.GetReportsByFilters | eodgen/lib/db.ts:222-305 | Returns the specified read of the reports matching every supplied, non-empty filter. |
| Db.RemoteStore.DeleteReport | eodgen/lib/db.ts:308-320 | The store becomes the delete of the old store, tasks cascading. |
| Db.RemoteStore.ImportRecord | eodgen/lib/db.ts:328-368 | One pass of the import loop takes the store to the one-record import step. |
| Db.RemoteStore.ImportReports | eodgen/lib/db.ts:323-372 | Always returns true. The store becomes the import of every record in order, each failure skipping only its own record. |
| BackupRoundTrip.ImportEntry | eodgen/lib/db.ts:328-365 | A backup entry with no faults upserts its client, gets the next id, and carries its fields and tasks. |
| BackupRoundTrip.TasksOfAfterBatch | eodgen/lib/db.ts:352-360 | A batch adds its tasks to the new report only. |
| BackupRoundTrip.ImportPrefix | eodgen/lib/db.ts:327-369 | After importing the first i entries into an empty store: the reports are those entries with consecutive fresh ids, each of them has its own task list, and every client key has its name. |
| BackupRoundTrip.ExportShape | eodgen/lib/db.ts:157-218 | The exported list succeeds, is in non-increasing date order, and each entry's name is its client's display name. |
| BackupRoundTrip.Reread | eodgen/lib/db.ts:153-219 | Reading back an imported, date-ordered list gives every entry's contents in the same order. |
| BackupRoundTrip.ImportThenReread | eodgen/lib/db.ts:323-372 | Importing a date-ordered list into an empty store and reading it back gives the same contents. |
| BackupRoundTrip.ExportImportRoundTrip | eodgen/lib/db.ts:323-372 | The output of `getAllReports`, imported into an empty store, reads back with the same dates, client keys, reporter names, totals, task lists and client names, in the same order. |
| ReportUtils.MinutesPhraseRoundTrip | eodgen/lib/report-utils.ts:12-13 | With zero hours the phrase is "m minutes", and it parses back to (0, m). |
| ReportUtils.HoursPhraseShape | eodgen/lib/report-utils.ts:14-18 | With non-zero hours the phrase is the hours, " hour", an "s" exactly when hours ≠ 1, then " m minutes" exactly when m ≠ 0. |
| ReportUtils.HoursPhraseRoundTrip | eodgen/lib/report-utils.ts:14-18 | Every phrase with non-zero hours parses back to its hours and minutes. |
| ReportUtils.TimePhraseRoundTrip | eodgen/lib/report-utils.ts:8-19 | Every (hours, minutes) phrase parses back to its hours and minutes, so the three branches never collide. |
| ReportUtils.TimePhraseDeterminesTime | eodgen/lib/report-utils.ts:8-19 | Two quarter-hour times with the same phrase are equal. |
| ReportUtils.FormatTimeHoursMinutes | eodgen/lib/report-utils.ts:12-18 | `formatTimeHoursMinutes` on whole hours and minutes: "m minutes" with no hours, "h hour" or "h hours" with no minutes, else both. Its partner is `ParseTimePhrase` through `TimePhraseRoundTrip`. |
| ReportUtils.FormatTimeQuarters | eodgen/lib/report-utils.ts:8-10 | The phrase for a time of q quarter-hours: `Math.floor` gives q / 4 hours and `Math.round` gives (q mod 4) times 15 minutes. It is injective by `TimePhraseDeterminesTime`. |
| ReportUtils.GetStatusEmoji | eodgen/lib/report-utils.ts:22-35 | `getStatusEmoji`: the first keyword group found in the lower-cased status decides. The result is always one of ✅, 🔄, ⏸️, ❌ and 📝. |
| ReportUtils.NoteEmojiIff | eodgen/lib/report-utils.ts:22-35 | The status gets 📝 if and only if none of the nine keywords occurs in the lower-cased status. |
| ReportUtils.StatusEmojiIgnoresCase | eodgen/lib/report-utils.ts:23 | Statuses equal up to letter case get the same emoji. |
| ReportUtils.OnHoldKeywords | eodgen/lib/report-utils.ts:24-26 | A status missing the letters c, e, f, p and g contains none of the done or progress keywords. |
| ReportUtils.CancelledKeywords | eodgen/lib/report-utils.ts:24-28 | A status missing the letters o, f, p and h contains none of the done, progress or hold keywords. |
| ReportUtils.NoKeywords | eodgen/lib/report-utils.ts:24-33 | A status missing a letter of each keyword contains none of the keywords and falls through to the default. |
| ReportUtils.PendingReviewLower | eodgen/lib/report-utils.ts:23 | "Pending Review" lower-cases to "pending review". |
| ReportUtils.StatusOptionEmojis | eodgen/lib/report-utils.ts:22-34 | The seven menu statuses get ✅, 🔄, ⏸️, 📝, ❌, 📝, 📝 in priority order. "Completed" hits the first rule and "Blocked" hits none. |
| ReportUtils.GenerateEmailSubject | eodgen/lib/report-utils.ts:37-39 | The subject is the reporter name, then "'s End-of-Day Report – ", then the date, with nothing else. |
| ReportUtils.EmailBody | eodgen/lib/report-utils.ts:41-63 | `generateEmailBody` as a value: the no-tasks message, or the greeting, the task blocks, the total line and the closing. A non-empty body starts with the greeting for the client and ends with the reporter name. |
| ReportUtils.GenerateEmailBody | eodgen/lib/report-utils.ts:41-63 | The loop that grows the body with `+=` produces the specified email body. |
| ReportUtils.EmailBodyEmptyIff | eodgen/lib/report-utils.ts:42-44 | The body is exactly "No tasks were logged today." if and only if there are no tasks. |
| ReportUtils.EmailBodyLayout | eodgen/lib/report-utils.ts:46-60 | A non-empty body is the greeting, then one block per task in order (task i at its place), then the total line, then the closing ending in the reporter name. |
| ReportUtils.CsvLines | eodgen/lib/report-utils.ts:75 | One line per row, each row's fields joined by commas. |
| ReportUtils.CsvReadBack | eodgen/lib/report-utils.ts:75 | When no field holds a comma or a newline, splitting the content on newlines gives the lines back, and splitting a line on commas gives its row back. |
| ReportUtils.CsvRows | eodgen/lib/report-utils.ts:67-72 | The header row, then one row per task in order. |
| ReportUtils.ExportToCsvContent | eodgen/lib/report-utils.ts:66-75 | The rows pushed in the loop and joined give the specified CSV content. |
| ReportUtils.CsvHeaderLine | eodgen/lib/report-utils.ts:67-75 | The header line is "Date (EST),Task Name,Time Spent,Status". |
| ReportUtils.SingleCsvReadBack | eodgen/lib/report-utils.ts:67-75 | Without commas or newlines in the fields: the content has one line per task after the header line, and each line splits into the date, name, time text and status of its task, in order. |
| ReportUtils.CsvCommaInTaskName | eodgen/lib/report-utils.ts:70-75 | A task named "a,b" is written verbatim, so its line splits into five fields instead of four. |
| ReportUtils.MultiCsvRows | eodgen/lib/report-utils.ts:90-95 | The header row, then one row per task in order. |
| ReportUtils.ExportMultipleReportsToCsvContent | eodgen/lib/report-utils.ts:89-98 | The rows pushed in the loop and joined give the specified CSV content. |
| ReportUtils.MultiCsvHeaderLine | eodgen/lib/report-utils.ts:90-98 | The header line is "Date,Client,Task Name,Time Spent,Status". |
| ReportUtils.MultiCsvReadBack | eodgen/lib/report-utils.ts:90-98 | Without commas or newlines in the fields: one line per task after the header line, each splitting into the date, client name, task name, time text and status. |
| ConfigContext.DefaultConfig | eodgen/context/config-context.tsx:17-25 | The defaults hold exactly the one client "default", which is also the current client. |
| ConfigContext.LoadConfig | eodgen/context/config-context.tsx:38-63 | The configuration the load effect sets: the stored fields over the defaults, and the stored clients over the default client. The result is valid and always holds the default client key, and it is exactly the defaults when nothing is stored or the stored text does not parse. |
| ConfigContext.ToStored | eodgen/context/config-context.tsx:65-70 | What the save effect writes: every field of the configuration, present, with its clients unchanged. |
| ConfigContext.LoadWithoutStoredConfig | eodgen/context/config-context.tsx:42-60 | With nothing stored, or stored text that does not parse, the loaded configuration is exactly the defaults. |
| ConfigContext.LoadOverridesAndBackfills | eodgen/context/config-context.tsx:46-48 | Each stored top-level field overrides the default, and each absent one is backfilled from the default. |
| ConfigContext.LoadedClients | eodgen/context/config-context.tsx:22-52 | The loaded clients are the default client and the stored ones, and a stored name wins. The default key is always present and comes first, also when nothing or no clients object is stored. |
| ConfigContext.SaveThenLoad | eodgen/context/config-context.tsx:46-68 | Saving a configuration and loading it again gives it back, except that the default client is put back in front. When its clients already start with the default key, it comes back exactly. |
| ConfigContext.LoadIsStable | eodgen/context/config-context.tsx:38-70 | Saving a loaded configuration and loading it again gives the same configuration. |
| ConfigContext.ConfigProvider.constructor | eodgen/context/config-context.tsx:35-36 | The provider starts with no configuration and not loaded. |
| ConfigContext.ConfigProvider.LoadEffect | eodgen/context/config-context.tsx:38-63 | The configuration becomes the merge of what is stored over the defaults, and it is marked loaded. |
| ConfigContext.ConfigProvider.SaveEffect | eodgen/context/config-context.tsx:65-70 | Storage is written only when loaded and present, and then holds the configuration. |
| ConfigContext.ConfigProvider.UpdateConfig | eodgen/context/config-context.tsx:72-74 | The whole configuration is replaced. The loaded flag and storage are unchanged. |
| ConfigContext.StartTwice | eodgen/context/config-context.tsx:38-70 | Running both effects, then starting again from what was stored, loads the same configuration. |
| Settings.AddClient | eodgen/components/settings.tsx:30-46 | With an empty key or name nothing changes. Otherwise the client map gains or overwrites that key and it becomes current, and no other field changes. |
| Settings.AddClientEffect | eodgen/components/settings.tsx:33-42 | After an add, the key holds the name and is current. Every other client keeps its presence and name. The key order gains the key at the end only if it is new. |
| Settings.RemoveClient | eodgen/components/settings.tsx:48-68 | A remove keeps the configuration well-formed. |
| Settings.RemoveLastClientRefused | eodgen/components/settings.tsx:49-52 | With at most one client the remove is refused and nothing changes. |
| Settings.RemoveClientOnlyThatKey | eodgen/components/settings.tsx:54-67 | A remove deletes exactly that key. Every other client keeps its name and place, and the other fields are unchanged. |
| Settings.RemoveClientCurrent | eodgen/components/settings.tsx:58-61 | Removing the current client makes the first remaining key current. Removing another client leaves the current one. |
| Settings.RemoveClientKeepsCurrentValid | eodgen/components/settings.tsx:49-61 | If the map is non-empty and the current client is in it, that still holds after any remove. |
| Settings.SettingsPanel.SetNewClientKey | eodgen/components/settings.tsx:181 | The key input changes and nothing else does. |
| Settings.SettingsPanel.SetNewClientName | eodgen/components/settings.tsx:186 | The name input changes and nothing else does. |
| Settings.SettingsPanel.HandleAddClient | eodgen/components/settings.tsx:30-46 | With an empty input nothing changes. Otherwise the configuration becomes the add and both inputs are cleared. |
| Settings.SettingsPanel.HandleRemoveClient | eodgen/components/settings.tsx:48-68 | The configuration becomes the remove, or stays as it was when the remove is refused. |
| Settings.SettingsPanel.SetReporterName | eodgen/components/settings.tsx:90-94 | Only the reporter name changes. |
| Settings.SettingsPanel.SetWorkMode | eodgen/components/settings.tsx:104-109 | Only the work mode changes. |
| Settings.SettingsPanel.SelectClient | eodgen/components/settings.tsx:133-137 | Only the current client changes. |
| TaskLogger.DailyLimit | eodgen/components/task-logger.tsx:44 | The limit is 7 hours for work mode "Full-Time" and 4 hours otherwise, including when there is no configuration. |
| TaskLogger.AddDecision | eodgen/components/task-logger.tsx:48-57 | An entry is accepted if and only if its name, time and status are given, the time is a positive number, and total plus time is at most the limit. An over-limit refusal names the limit. |
| TaskLogger.TaskLoggerView.RemainingHours | eodgen/components/task-logger.tsx:45 | The remaining hours are the limit minus the total, between 0 and the limit while the invariant holds. |
| TaskLogger.TaskLoggerView.constructor | eodgen/components/task-logger.tsx:31-37 | No tasks, total zero and an empty entry form, with the invariant established. |
| TaskLogger.TaskLoggerView.SetEntry | eodgen/components/task-logger.tsx:106-128 | The entry form changes; the tasks and the total do not. |
| TaskLogger.TaskLoggerView.HandleAddTask | eodgen/components/task-logger.tsx:47-67 | A refused entry changes nothing. An accepted one is appended, its time is added to the total, and the form is cleared. The total stays the sum of the times and within the limit. |
| TaskLogger.TaskLoggerView.HandleRemoveTask | eodgen/components/task-logger.tsx:69-74 | Removes exactly the task at the index, keeps the others in order, and subtracts its time, keeping the invariant. |
| TaskLogger.TaskLoggerView.HandleComplete | eodgen/components/task-logger.tsx:76-79 | Hands on the task list if and only if it is non-empty. |
| TaskLogger.AddedTaskPositive | eodgen/components/task-logger.tsx:51-54 | Every accepted task has a positive time and keeps the total within the limit. |
| TaskLogger.LimitIsInclusive | eodgen/components/task-logger.tsx:54 | Reaching the limit exactly is accepted; one quarter-hour more is refused. |
| History.TagAll | eodgen/components/history.tsx:93-97 | One row per task of the report, each tagged with the report's date and client name. |
| History.FlattenTasks | eodgen/components/history.tsx:92-98 | The flattened list has as many rows as all reports have tasks. |
| History.FlattenAt | eodgen/components/history.tsx:92-98 | Task i of report k sits right after all tasks of the earlier reports, tagged with report k's date and client name. |
| History.DownloadFilename | eodgen/components/history.tsx:101-112 | The file name is "all_tasks", then "_client" unless the client is "all", then the date-range part for both, start only, end only or neither, then ".csv". |
| History.BuildFilename | eodgen/components/history.tsx:101-112 | Growing the name with `+=` gives that file name. |
| History.FilterArguments | eodgen/components/history.tsx:57-61 | The client is null exactly for "all", and each date is null exactly when it is empty. The arguments are otherwise the inputs. |
| History.ResetFiltersListAll | eodgen/components/history.tsx:57-86 | Applying the reset filters lists the same reports as a reset does. |
| History.HistoryView.constructor | eodgen/components/history.tsx:17-23 | An empty list, loading, client "all", empty dates and no error. |
| History.HistoryView.SetSelectedClient | eodgen/components/history.tsx:156 | Only the client input changes. |
| History.HistoryView.SetStartDate | eodgen/components/history.tsx:175 | Only the start date changes. |
| History.HistoryView.SetEndDate | eodgen/components/history.tsx:179 | Only the end date changes. |
| History.HistoryView.FetchReports | eodgen/components/history.tsx:25-41 | The list becomes every report, or the list is kept and the load error is shown. Loading ends either way. |
| History.HistoryView.HandleDeleteReport | eodgen/components/history.tsx:43-51 | On success the store deletes the report and the list loses exactly the entries with that id, in order. On failure the list is unchanged and the delete error is shown. |
| History.HistoryView.HandleApplyFilters | eodgen/components/history.tsx:53-69 | The list becomes the reports matching the mapped filter inputs, or it is kept and the filter error is shown. |
| History.HistoryView.HandleResetFilters | eodgen/components/history.tsx:71-86 | The inputs go back to "all" and empty dates. The list becomes every report, or it is kept and the reset error is shown. |
| History.HistoryView.HandleDownloadAll | eodgen/components/history.tsx:88-115 | There is no download if and only if the list is empty. Otherwise the file is named after the filters and holds the multi-report CSV of the flattened tasks. |

## Left out

- Times that are not whole quarter-hours, and floating point generally, are
  not modelled. The time input steps by 0.25, and every quarter-hour value
  is exact. So `parseFloat`, `toString`, the sums, `Math.floor` and
  `Math.round` are modelled by integer arithmetic on quarter-hours.
  `ReportUtils.FormatTimeHoursMinutes` is stated over time already split
  into hours and minutes.
- TaskLogger.TaskLoggerView.HandleAddTask: the time input is modelled by
  what `parseFloat` makes of it (blank, not a number, or a number of
  quarter-hours); the text-to-number parsing itself is not modelled.
- `toLowerCase` is modelled for ASCII letters only. Unicode case mapping is
  not modelled, and the menu statuses and keywords are ASCII.
- A JavaScript object lists integer-like keys before the other keys,
  whatever the insertion order. This rule is not modelled: client keys keep
  their insertion order.
- The `estDate` parameter of `generateEmailBody` is accepted but not used,
  as in the source.
- The Blob, URL and `document` download code, and the default file name of
  `exportToCsv`, are left out: the model stops at the CSV content and the
  file name.
- The backup file's `FileReader` and `JSON.parse`, and the rest of
  `components/data-management.tsx`, are not part of this model. That file's
  non-array guard is reflected in the import taking a sequence of records.
- `getEstDate` (`lib/date-utils.ts`) is a wrapper over a timezone library.
  Dates are parameters.
- The IndexedDB handle `getDB` is library I/O and unused by the other
  functions.
- The read of existing client keys at the start of `syncClientsToSupabase`
  is left out, because its result is never used.
- The Supabase client and the network are left out: each remote call's
  failure is a boolean parameter.
- Browser `localStorage` is modelled as a field holding the parsed stored
  value. A stored JSON `null` or a non-object value is not modelled.
- Extra or non-string fields in a stored configuration are not modelled.
- `alert` texts, `console` logging, animations, rendering, navigation, the
  filter panel toggle and React effect timing are left out. The loading flag
  is modelled only as set at the end of each fetch.
- `created_at` timestamps and task row ids are not modelled. Report ids are
  natural numbers from a counter, standing for the store's fresh ids.
- Store.ClientName: the client map is a plain object, so a key naming an
  `Object.prototype` member (`constructor`, `toString`, `__proto__`) would
  look up an inherited value instead of falling back to the key. The model
  takes only registry rows as names.
- Db.RemoteStore.RunReportsQuery: the tie order of reports with equal dates
  is stable insertion order. The store promises no order for ties, so the
  round trip is stated on the store as modelled.
- Extra fields and non-string values inside a backup entry or an exported
  task are not modelled. A missing entry field is modelled as absent.
- ReportUtils.MultiCsvRow: `task.time || ""` would blank a zero time, but
  every time here is stored as text (TaskRecord.time is a string), which is
  never empty. So the time column is the stored text.
