/**
 * The remote report store as a value: a `clients` table with a unique
 * `key` column, a `reports` table whose ids the store assigns, and a
 * `tasks` table whose rows point at a report. Each remote call of the
 * report library is a function from one store value to the next, with a
 * boolean per call saying whether the remote end reported an error.
 *
 * Assumed of the store, as the library relies on it: a report id is never
 * reused; `tasks.report_id` references `reports.id` with ON DELETE CASCADE;
 * a row whose NOT NULL column is missing is rejected; one statement either
 * applies in full or not at all; rows come back in insertion order unless
 * ordered, and ordering by date is the stable non-increasing order of
 * `Order`.
 */
module Store {
  import opened Wrappers
  import opened Tasks
  import opened JsObject
  import opened Order

  type ReportId = nat

  /** A `reports` row (the creation timestamp is not modelled). */
  datatype ReportRow = ReportRow(id: ReportId, date: string, client_key: string, reporter_name: string, total_hours: Quarters)

  /** A `tasks` row (its own id and timestamp are not modelled). */
  datatype TaskRow = TaskRow(report_id: ReportId, name: string, time: Quarters, status: string)

  /** A report as the reading functions return it: the row, its tasks and the client's display name. */
  datatype ReportWithTasks = ReportWithTasks(
    id: ReportId, date: string, client_key: string, reporter_name: string, total_hours: Quarters,
    tasks: seq<Task>, clientName: string)

  datatype DbError =
    | SyncClientsFailed
    | InsertReportFailed
    | InsertTasksFailed
    | FetchReportsFailed
    | FetchClientsFailed
    | FetchTasksFailed
    | DeleteReportFailed

  ghost predicate HasReport(reports: seq<ReportRow>, id: ReportId) {
    exists j :: 0 <= j < |reports| && reports[j].id == id
  }

  datatype StoreState = StoreState(clients: map<string, string>, reports: seq<ReportRow>, tasks: seq<TaskRow>, nextId: ReportId) {
    /** Every id handed out so far is below `nextId`, and every task row belongs to a report. */
    ghost predicate Valid() {
      && (forall i :: 0 <= i < |reports| ==> reports[i].id < nextId)
      && (forall t :: 0 <= t < |tasks| ==> HasReport(reports, tasks[t].report_id))
    }
  }

  function DateOf(r: ReportRow): string {
    r.date
  }

  // ---------------------------------------------------------------------
  // Generic helpers

  /** `s.filter(p)`, order kept. */
  function Filter<T(!new)>(s: seq<T>, p: T -> bool): (r: seq<T>)
    ensures forall x :: x in r <==> x in s && p(x)
    ensures |r| <= |s|
    decreases |s|
  {
    if s == [] then [] else (if p(s[0]) then [s[0]] else []) + Filter(s[1..], p)
  }

  lemma {:induction false} FilterAll<T(!new)>(s: seq<T>, p: T -> bool)
    requires forall x :: x in s ==> p(x)
    ensures Filter(s, p) == s
    decreases |s|
  {
    if s != [] {
      FilterAll(s[1..], p);
      assert s == [s[0]] + s[1..];
    }
  }

  lemma {:induction false} FilterMultiset<T(!new)>(s: seq<T>, p: T -> bool, x: T)
    ensures multiset(Filter(s, p))[x] == if p(x) then multiset(s)[x] else 0
    decreases |s|
  {
    if s != [] {
      FilterMultiset(s[1..], p, x);
      assert s == [s[0]] + s[1..];
    }
  }

  // ---------------------------------------------------------------------
  // Clients

  /** `syncClientsToSupabase`: the new clients table; an empty object performs no write, a failed upsert none either. */
  function SyncState(st: StoreState, clients: Dict, fail: bool): (r: StoreState)
    ensures r.reports == st.reports && r.tasks == st.tasks && r.nextId == st.nextId
    ensures forall k :: k in st.clients ==> k in r.clients
  {
    if clients.Size() == 0 || fail then st else st.(clients := st.clients + clients.values)
  }

  /** What `syncClientsToSupabase` returns or raises. */
  function SyncResult(clients: Dict, fail: bool): (r: Result<bool, DbError>)
    ensures r.Success? ==> r.value
    ensures fail || r.Success?
  {
    if clients.Size() > 0 && fail then Failure(SyncClientsFailed) else Success(true)
  }

  /** A successful sync gives every key of the object its name and leaves every other client as it was. */
  lemma SyncUpserts(st: StoreState, clients: Dict, k: string)
    requires clients.Valid()
    ensures var r := SyncState(st, clients, false);
      && SyncResult(clients, false) == Success(true)
      && (k in clients.values ==> k in r.clients && r.clients[k] == clients.values[k])
      && (k !in clients.values ==> (k in r.clients <==> k in st.clients))
      && (k !in clients.values && k in st.clients ==> r.clients[k] == st.clients[k])
      && r.reports == st.reports && r.tasks == st.tasks && r.nextId == st.nextId
  {
  }

  /** An empty object performs no write and succeeds, whatever the remote end would have said. */
  lemma SyncEmpty(st: StoreState, fail: bool)
    ensures SyncState(st, Empty(), fail) == st && SyncResult(Empty(), fail) == Success(true)
  {
  }

  /** Syncing the same key twice leaves one record holding the later name. */
  lemma SyncTwice(st: StoreState, key: string, first: string, second: string)
    ensures SyncState(SyncState(st, Single(key, first), false), Single(key, second), false)
         == SyncState(st, Single(key, second), false)
    ensures SyncState(st, Single(key, second), false).clients[key] == second
  {
    MergeSingle(st.clients, key, first);
    MergeSingle(st.clients[key := first], key, second);
    MergeSingle(st.clients, key, second);
    assert st.clients[key := first][key := second] == st.clients[key := second];
  }

  lemma SyncValid(st: StoreState, clients: Dict, fail: bool)
    requires st.Valid()
    ensures SyncState(st, clients, fail).Valid()
  {
  }

  // ---------------------------------------------------------------------
  // Saving one report

  /** The task rows of a batch insert for report `id`, one per task, in order. */
  function TaskRowsFor(id: ReportId, tasks: seq<Task>): (rows: seq<TaskRow>)
    ensures |rows| == |tasks|
    ensures forall i :: 0 <= i < |tasks| ==> rows[i] == TaskRow(id, tasks[i].name, tasks[i].time, tasks[i].status)
  {
    seq(|tasks|, i requires 0 <= i < |tasks| => TaskRow(id, tasks[i].name, tasks[i].time, tasks[i].status))
  }

  /** The store after inserting one report row with the next fresh id. */
  function InsertReport(st: StoreState, date: string, clientKey: string, reporterName: string, totalHours: Quarters): StoreState {
    st.(reports := st.reports + [ReportRow(st.nextId, date, clientKey, reporterName, totalHours)], nextId := st.nextId + 1)
  }

  datatype SaveFaults = SaveFaults(sync: bool, report: bool, tasks: bool)

  /**
   * `saveReport`: upsert the client, insert the report with the total of
   * the task times, then insert its tasks. Nothing is rolled back: a
   * failed report insert leaves the client upserted, a failed task insert
   * leaves the report without tasks.
   */
  function SaveSpec(st: StoreState, date: string, clientName: string, clientKey: string, reporterName: string,
                    tasks: seq<Task>, f: SaveFaults): (r: (StoreState, Result<ReportId, DbError>))
    ensures r.1.Success? <==> !f.sync && !f.report && !f.tasks
    ensures r.1.Success? ==> r.1.value == st.nextId
    ensures f.sync ==> r.0 == st
    ensures r.0.nextId == if f.sync || f.report then st.nextId else st.nextId + 1
    ensures st.reports <= r.0.reports && st.tasks <= r.0.tasks
  {
    if f.sync then (st, Failure(SyncClientsFailed))
    else
      var st1 := SyncState(st, Single(clientKey, clientName), false);
      if f.report then (st1, Failure(InsertReportFailed))
      else
        var st2 := InsertReport(st1, date, clientKey, reporterName, TotalTime(tasks));
        if f.tasks then (st2, Failure(InsertTasksFailed))
        else (st2.(tasks := st2.tasks + TaskRowsFor(st.nextId, tasks)), Success(st.nextId))
  }

  /** The tasks of report `id`, projected to name, time and status, in row order. */
  function TasksOf(rows: seq<TaskRow>, id: ReportId): seq<Task>
    decreases |rows|
  {
    if rows == [] then []
    else
      var t := rows[|rows| - 1];
      TasksOf(rows[..|rows| - 1], id) + (if t.report_id == id then [Task(t.name, t.time, t.status)] else [])
  }

  lemma {:induction false} TasksOfAppend(a: seq<TaskRow>, b: seq<TaskRow>, id: ReportId)
    ensures TasksOf(a + b, id) == TasksOf(a, id) + TasksOf(b, id)
    decreases |b|
  {
    if b == [] {
      assert a + b == a;
    } else {
      assert (a + b)[..|a + b| - 1] == a + b[..|b| - 1];
      TasksOfAppend(a, b[..|b| - 1], id);
    }
  }

  /** One more row of a prefix adds its task to its own report only. */
  lemma TasksOfPrefixStep(rows: seq<TaskRow>, i: nat, id: ReportId)
    requires i < |rows|
    ensures TasksOf(rows[..i + 1], id)
         == TasksOf(rows[..i], id) + (if rows[i].report_id == id then [Task(rows[i].name, rows[i].time, rows[i].status)] else [])
  {
    assert rows[..i + 1][..i] == rows[..i];
  }

  lemma {:induction false} TasksOfNone(rows: seq<TaskRow>, id: ReportId)
    requires forall t :: 0 <= t < |rows| ==> rows[t].report_id != id
    ensures TasksOf(rows, id) == []
    decreases |rows|
  {
    if rows != [] {
      TasksOfNone(rows[..|rows| - 1], id);
    }
  }

  /** A batch for report `id` holds exactly the given tasks for `id`, and none for any other report. */
  lemma {:induction false} TasksOfRowsFor(id: ReportId, tasks: seq<Task>, other: ReportId)
    ensures TasksOf(TaskRowsFor(id, tasks), id) == tasks
    ensures other != id ==> TasksOf(TaskRowsFor(id, tasks), other) == []
    decreases |tasks|
  {
    if tasks != [] {
      var n := |tasks| - 1;
      assert TaskRowsFor(id, tasks)[..n] == TaskRowsFor(id, tasks[..n]);
      TasksOfRowsFor(id, tasks[..n], other);
      assert tasks[..n] + [tasks[n]] == tasks;
    }
  }

  /** A task row of a valid store belongs to a report, so a fresh id has no tasks yet. */
  lemma FreshIdHasNoTasks(st: StoreState)
    requires st.Valid()
    ensures TasksOf(st.tasks, st.nextId) == []
  {
    forall t | 0 <= t < |st.tasks|
      ensures st.tasks[t].report_id != st.nextId
    {
      var j :| 0 <= j < |st.reports| && st.reports[j].id == st.tasks[t].report_id;
    }
    TasksOfNone(st.tasks, st.nextId);
  }

  /** Appending a report row with the fresh id, and task rows pointing at it, keeps a store valid. */
  lemma AppendReportValid(st: StoreState, row: ReportRow, newTasks: seq<TaskRow>)
    requires st.Valid() && row.id == st.nextId
    requires forall t :: 0 <= t < |newTasks| ==> newTasks[t].report_id == row.id
    ensures st.(reports := st.reports + [row], tasks := st.tasks + newTasks, nextId := st.nextId + 1).Valid()
  {
    var r := st.(reports := st.reports + [row], tasks := st.tasks + newTasks, nextId := st.nextId + 1);
    var n := |st.reports|;
    forall t | 0 <= t < |r.tasks|
      ensures HasReport(r.reports, r.tasks[t].report_id)
    {
      if t < |st.tasks| {
        var j :| 0 <= j < n && st.reports[j].id == st.tasks[t].report_id;
        assert r.reports[j] == st.reports[j];
      } else {
        assert r.reports[n] == row;
      }
    }
  }

  /**
   * A successful save returns the fresh id after upserting the client; the
   * new report row carries the arguments and the total of the task times,
   * and its tasks are the given ones, in order.
   */
  lemma SaveSucceeds(st: StoreState, date: string, clientName: string, clientKey: string, reporterName: string, tasks: seq<Task>)
    requires st.Valid()
    ensures var saved := SaveSpec(st, date, clientName, clientKey, reporterName, tasks, SaveFaults(false, false, false));
      && saved.1 == Success(st.nextId)
      && saved.0.clients == st.clients[clientKey := clientName]
      && saved.0.reports == st.reports + [ReportRow(st.nextId, date, clientKey, reporterName, TotalTime(tasks))]
      && saved.0.tasks == st.tasks + TaskRowsFor(st.nextId, tasks)
      && TasksOf(saved.0.tasks, st.nextId) == tasks
  {
    assert Single(clientKey, clientName).values == map[clientKey := clientName];
    MergeSingle(st.clients, clientKey, clientName);
    FreshBatchTasks(st, tasks);
  }

  /** A batch written under the next id holds exactly that report's tasks. */
  lemma FreshBatchTasks(st: StoreState, tasks: seq<Task>)
    requires st.Valid()
    ensures TasksOf(st.tasks + TaskRowsFor(st.nextId, tasks), st.nextId) == tasks
  {
    FreshIdHasNoTasks(st);
    TasksOfAppend(st.tasks, TaskRowsFor(st.nextId, tasks), st.nextId);
    TasksOfRowsFor(st.nextId, tasks, st.nextId);
  }

  /** A failed report insert raises, keeps the upserted client, and writes no report or task row. */
  lemma SaveReportInsertFails(st: StoreState, date: string, clientName: string, clientKey: string, reporterName: string, tasks: seq<Task>, tasksFail: bool)
    ensures var (r, res) := SaveSpec(st, date, clientName, clientKey, reporterName, tasks, SaveFaults(false, true, tasksFail));
      && res == Failure(InsertReportFailed)
      && r == st.(clients := st.clients[clientKey := clientName])
  {
  }

  /** A failed task insert raises, but the report row stays, with no tasks. */
  lemma SaveTasksInsertFails(st: StoreState, date: string, clientName: string, clientKey: string, reporterName: string, tasks: seq<Task>)
    requires st.Valid()
    ensures var (r, res) := SaveSpec(st, date, clientName, clientKey, reporterName, tasks, SaveFaults(false, false, true));
      && res == Failure(InsertTasksFailed)
      && r.reports == st.reports + [ReportRow(st.nextId, date, clientKey, reporterName, TotalTime(tasks))]
      && r.tasks == st.tasks
      && TasksOf(r.tasks, st.nextId) == []
  {
    FreshIdHasNoTasks(st);
  }

  lemma SaveValid(st: StoreState, date: string, clientName: string, clientKey: string, reporterName: string, tasks: seq<Task>, f: SaveFaults)
    requires st.Valid()
    ensures SaveSpec(st, date, clientName, clientKey, reporterName, tasks, f).0.Valid()
  {
    var st1 := SyncState(st, Single(clientKey, clientName), false);
    var row := ReportRow(st.nextId, date, clientKey, reporterName, TotalTime(tasks));
    AppendReportValid(st1, row, []);
    AppendReportValid(st1, row, TaskRowsFor(st.nextId, tasks));
    assert st1.tasks + [] == st1.tasks;
  }

  // ---------------------------------------------------------------------
  // Reading reports

  /** `clientMap[client_key] || client_key`: the registry name, or the key when there is none or it is empty. */
  function ClientName(clients: map<string, string>, key: string): (name: string)
    ensures key in clients && clients[key] != "" ==> name == clients[key]
    ensures key !in clients || clients[key] == "" ==> name == key
  {
    if key in clients && clients[key] != "" then clients[key] else key
  }

  function WithTasks(r: ReportRow, tasks: seq<Task>, clientName: string): ReportWithTasks {
    ReportWithTasks(r.id, r.date, r.client_key, r.reporter_name, r.total_hours, tasks, clientName)
  }

  /** Each report row, in the given order, with its tasks and its client's display name. */
  function JoinView(rows: seq<ReportRow>, clients: map<string, string>, tasks: seq<TaskRow>): (v: seq<ReportWithTasks>)
    ensures |v| == |rows|
  {
    seq(|rows|, i requires 0 <= i < |rows| => WithTasks(rows[i], TasksOf(tasks, rows[i].id), ClientName(clients, rows[i].client_key)))
  }

  datatype FetchFaults = FetchFaults(reports: bool, clients: bool, tasks: bool)

  const NoFetchFaults := FetchFaults(false, false, false)

  /**
   * The reports query followed by the client and task lookups: the rows
   * are ordered by date, newest first; when there are none the result is
   * empty and nothing else is fetched.
   */
  function QuerySpec(st: StoreState, rows: seq<ReportRow>, f: FetchFaults): (r: Result<seq<ReportWithTasks>, DbError>)
    ensures r.Success? <==> !f.reports && (rows == [] || (!f.clients && !f.tasks))
    ensures r.Success? ==> |r.value| == |rows|
  {
    if f.reports then Failure(FetchReportsFailed)
    else
      var sorted := SortDesc(rows, DateOf);
      if sorted == [] then Success([])
      else if f.clients then Failure(FetchClientsFailed)
      else if f.tasks then Failure(FetchTasksFailed)
      else Success(JoinView(sorted, st.clients, st.tasks))
  }

  /** `getAllReports` */
  function AllReportsSpec(st: StoreState, f: FetchFaults): (r: Result<seq<ReportWithTasks>, DbError>)
    ensures f == NoFetchFaults ==> r.Success? && |r.value| == |st.reports|
  {
    QuerySpec(st, st.reports, f)
  }

  /** The three filters of `getReportsByFilters`; `None` and the empty string impose nothing. */
  datatype Filters = Filters(clientKey: Option<string>, startDate: Option<string>, endDate: Option<string>)

  const NoFilters := Filters(None, None, None)

  predicate Truthy(s: Option<string>) {
    s.Some? && s.value != ""
  }

  predicate Matches(f: Filters, r: ReportRow): (b: bool)
    ensures !Truthy(f.clientKey) && !Truthy(f.startDate) && !Truthy(f.endDate) ==> b
    ensures Truthy(f.clientKey) && r.client_key != f.clientKey.value ==> !b
  {
    && (Truthy(f.clientKey) ==> r.client_key == f.clientKey.value)
    && (Truthy(f.startDate) ==> StrLe(f.startDate.value, r.date))
    && (Truthy(f.endDate) ==> StrLe(r.date, f.endDate.value))
  }

  /** `getReportsByFilters` */
  function FilteredReportsSpec(st: StoreState, filters: Filters, f: FetchFaults): (r: Result<seq<ReportWithTasks>, DbError>)
    ensures r.Success? ==> |r.value| <= |st.reports|
  {
    QuerySpec(st, Filter(st.reports, r => Matches(filters, r)), f)
  }

  /** Without faults the result is the join of every row, newest first, and is empty exactly when the rows are. */
  lemma QueryShape(st: StoreState, rows: seq<ReportRow>)
    ensures var res := QuerySpec(st, rows, NoFetchFaults);
      && res.Success?
      && (rows == [] <==> res.value == [])
      && multiset(SortDesc(rows, DateOf)) == multiset(rows)
      && res.value == JoinView(SortDesc(rows, DateOf), st.clients, st.tasks)
      && forall i, j :: 0 <= i < j < |res.value| ==> StrLe(res.value[j].date, res.value[i].date)
  {
    var sorted := SortDesc(rows, DateOf);
    SortDescSorted(rows, DateOf);
    assert forall i, j :: 0 <= i < j < |sorted| ==> StrLe(DateOf(sorted[j]), DateOf(sorted[i]));
  }

  /** Each report comes with exactly the task rows that point at it, in row order, and its display name. */
  lemma JoinViewEntry(rows: seq<ReportRow>, clients: map<string, string>, tasks: seq<TaskRow>, i: nat)
    requires i < |rows|
    ensures var v := JoinView(rows, clients, tasks)[i];
      && v.id == rows[i].id && v.date == rows[i].date && v.client_key == rows[i].client_key
      && v.reporter_name == rows[i].reporter_name && v.total_hours == rows[i].total_hours
      && v.tasks == TasksOf(tasks, rows[i].id)
      && v.clientName == ClientName(clients, rows[i].client_key)
  {
  }

  /** A report appears in the filtered result exactly as often as it is stored and matches every filter. */
  lemma FilteredExactly(st: StoreState, filters: Filters, r: ReportRow)
    ensures var rows := Filter(st.reports, x => Matches(filters, x));
      multiset(SortDesc(rows, DateOf))[r] == if Matches(filters, r) then multiset(st.reports)[r] else 0
  {
    FilterMultiset(st.reports, x => Matches(filters, x), r);
  }

  /** With no filter at all, `getReportsByFilters` is `getAllReports`. */
  lemma NoFiltersIsAllReports(st: StoreState, f: FetchFaults)
    ensures FilteredReportsSpec(st, NoFilters, f) == AllReportsSpec(st, f)
    ensures FilteredReportsSpec(st, Filters(Some(""), Some(""), Some("")), f) == AllReportsSpec(st, f)
  {
    FilterAll(st.reports, r => Matches(NoFilters, r));
    FilterAll(st.reports, r => Matches(Filters(Some(""), Some(""), Some("")), r));
  }

  /** With no report rows the result is empty, whatever the client and task lookups would do. */
  lemma NoReportsNoResult(st: StoreState, f: FetchFaults)
    requires st.reports == [] && !f.reports
    ensures AllReportsSpec(st, f) == Success([])
  {
  }

  // ---------------------------------------------------------------------
  // Deleting a report

  /** `deleteReport(id)`: the report rows with that id go, and with them, by cascade, their task rows. */
  function DeleteSpec(st: StoreState, id: ReportId, fail: bool): (r: (StoreState, Result<bool, DbError>))
    ensures r.1 == Success(true) <==> !fail
    ensures r.0.clients == st.clients && r.0.nextId == st.nextId
    ensures |r.0.reports| <= |st.reports| && |r.0.tasks| <= |st.tasks|
  {
    if fail then (st, Failure(DeleteReportFailed))
    else (st.(reports := Filter(st.reports, (r: ReportRow) => r.id != id),
              tasks := Filter(st.tasks, (t: TaskRow) => t.report_id != id)),
          Success(true))
  }

  /** After a delete no row has that id and its tasks are gone; every other report keeps its tasks. */
  lemma DeleteRemoves(st: StoreState, id: ReportId, other: ReportId)
    requires st.Valid()
    ensures var (r, res) := DeleteSpec(st, id, false);
      && res == Success(true)
      && r.Valid()
      && !HasReport(r.reports, id)
      && TasksOf(r.tasks, id) == []
      && (other != id ==> TasksOf(r.tasks, other) == TasksOf(st.tasks, other))
      && r.clients == st.clients && r.nextId == st.nextId
  {
    var (r, res) := DeleteSpec(st, id, false);
    forall t | 0 <= t < |r.tasks|
      ensures r.tasks[t].report_id != id && HasReport(r.reports, r.tasks[t].report_id)
    {
      assert r.tasks[t] in st.tasks;
      var u :| 0 <= u < |st.tasks| && st.tasks[u] == r.tasks[t];
      var j :| 0 <= j < |st.reports| && st.reports[j].id == st.tasks[u].report_id;
      assert st.reports[j] in r.reports;
    }
    forall i | 0 <= i < |r.reports|
      ensures r.reports[i].id != id && r.reports[i].id < r.nextId
    {
      assert r.reports[i] in st.reports;
    }
    TasksOfNone(r.tasks, id);
    if other != id {
      TasksOfFilterOther(st.tasks, id, other);
    }
  }

  lemma {:induction false} TasksOfFilterOther(rows: seq<TaskRow>, id: ReportId, other: ReportId)
    requires other != id
    ensures TasksOf(Filter(rows, (t: TaskRow) => t.report_id != id), other) == TasksOf(rows, other)
    decreases |rows|
  {
    if rows != [] {
      var p := (t: TaskRow) => t.report_id != id;
      TasksOfFilterOther(rows[1..], id, other);
      var head := if p(rows[0]) then [rows[0]] else [];
      TasksOfAppend(head, Filter(rows[1..], p), other);
      TasksOfAppend([rows[0]], rows[1..], other);
      assert rows == [rows[0]] + rows[1..];
      if !p(rows[0]) {
        assert TasksOf([rows[0]], other) == [] by {
          assert [rows[0]][..0] == [];
        }
      }
    }
  }

  /** Deleting an id no report has succeeds and changes nothing. */
  lemma DeleteMissing(st: StoreState, id: ReportId)
    requires st.Valid() && !HasReport(st.reports, id)
    ensures DeleteSpec(st, id, false) == (st, Success(true))
  {
    FilterAll(st.reports, (r: ReportRow) => r.id != id);
    forall x | x in st.tasks
      ensures x.report_id != id
    {
      var u :| 0 <= u < |st.tasks| && st.tasks[u] == x;
    }
    FilterAll(st.tasks, (t: TaskRow) => t.report_id != id);
  }

  // ---------------------------------------------------------------------
  // Importing a backup

  /**
   * One entry of an imported backup: the camelCase and snake_case spellings
   * of a field are separate, and any field may be missing.
   */
  datatype BackupRecord = BackupRecord(
    date: Option<string>,
    clientKey: Option<string>, client_key: Option<string>,
    clientName: Option<string>,
    reporterName: Option<string>, reporter_name: Option<string>,
    totalHours: Option<Quarters>, total_hours: Option<Quarters>,
    tasks: Option<seq<Task>>)

  /** `a || b` on strings: `a` unless it is missing or empty. */
  function OrStr(a: Option<string>, b: Option<string>): (r: Option<string>)
    ensures r == a || r == b
    ensures r == a <==> (a.Some? && a.value != "") || a == b
  {
    if a.Some? && a.value != "" then a else b
  }

  /** `a || b` on numbers: `a` unless it is missing or zero. */
  function OrNum(a: Option<Quarters>, b: Option<Quarters>): (r: Option<Quarters>)
    ensures r == a || r == b
    ensures r == a <==> (a.Some? && a.value != 0) || a == b
  {
    if a.Some? && a.value != 0 then a else b
  }

  /** A computed key `[undefined]` is the string "undefined". */
  function KeyText(k: Option<string>): string {
    if k.Some? then k.value else "undefined"
  }

  datatype ImportFaults = ImportFaults(sync: bool, report: bool, tasks: bool)

  /**
   * One iteration of `importReports`: sync the client (a missing name
   * violates NOT NULL), insert the report (a missing column violates NOT
   * NULL), and insert the tasks if there are any. Every failure is caught
   * and the loop goes on with the next record.
   */
  function ImportOne(st: StoreState, rec: BackupRecord, f: ImportFaults): (r: StoreState)
    ensures st.reports <= r.reports && st.tasks <= r.tasks
    ensures r.nextId == st.nextId || r.nextId == st.nextId + 1
    ensures |r.reports| == |st.reports| + (r.nextId - st.nextId)
  {
    var key := OrStr(rec.clientKey, rec.client_key);
    if rec.clientName.None? || f.sync then st
    else
      var st1 := SyncState(st, Single(KeyText(key), rec.clientName.value), false);
      var reporter := OrStr(rec.reporterName, rec.reporter_name);
      var total := OrNum(rec.totalHours, rec.total_hours);
      if f.report || rec.date.None? || key.None? || reporter.None? || total.None? then st1
      else
        var st2 := InsertReport(st1, rec.date.value, key.value, reporter.value, total.value);
        var tasks := rec.tasks.GetOr([]);
        if |tasks| == 0 || f.tasks then st2
        else st2.(tasks := st2.tasks + TaskRowsFor(st1.nextId, tasks))
  }

  /** `importReports` over the records in order. */
  function ImportSpec(st: StoreState, recs: seq<BackupRecord>, faults: seq<ImportFaults>): (r: StoreState)
    requires |faults| == |recs|
    ensures st.reports <= r.reports && st.tasks <= r.tasks
    ensures st.nextId <= r.nextId <= st.nextId + |recs|
    ensures |r.reports| - |st.reports| == r.nextId - st.nextId
    decreases |recs|
  {
    if recs == [] then st
    else
      var n := |recs| - 1;
      ImportOne(ImportSpec(st, recs[..n], faults[..n]), recs[n], faults[n])
  }

  /** A record that is imported gets the next fresh id, with every field read from either spelling. */
  lemma ImportOneInserted(st: StoreState, rec: BackupRecord, f: ImportFaults)
    requires rec.clientName.Some? && !f.sync && !f.report
    requires rec.date.Some? && OrStr(rec.clientKey, rec.client_key).Some?
    requires OrStr(rec.reporterName, rec.reporter_name).Some? && OrNum(rec.totalHours, rec.total_hours).Some?
    ensures var r := ImportOne(st, rec, f);
      && r.nextId == st.nextId + 1
      && r.reports == st.reports + [ReportRow(st.nextId, rec.date.value, OrStr(rec.clientKey, rec.client_key).value,
                                              OrStr(rec.reporterName, rec.reporter_name).value,
                                              OrNum(rec.totalHours, rec.total_hours).value)]
      && r.tasks == st.tasks + (if f.tasks then [] else TaskRowsFor(st.nextId, rec.tasks.GetOr([])))
  {
    if f.tasks || |rec.tasks.GetOr([])| == 0 {
      assert st.tasks + [] == st.tasks;
    }
  }

  /** A record whose report insert fails is skipped: no report row and no task row is written for it. */
  lemma ImportOneSkipped(st: StoreState, rec: BackupRecord, f: ImportFaults)
    requires f.sync || f.report || rec.clientName.None? || rec.date.None?
    ensures var r := ImportOne(st, rec, f);
      r.reports == st.reports && r.tasks == st.tasks && r.nextId == st.nextId
  {
  }

  lemma ImportOneValid(st: StoreState, rec: BackupRecord, f: ImportFaults)
    requires st.Valid()
    ensures ImportOne(st, rec, f).Valid()
  {
    var key := OrStr(rec.clientKey, rec.client_key);
    if rec.clientName.Some? && !f.sync {
      var st1 := SyncState(st, Single(KeyText(key), rec.clientName.value), false);
      var reporter := OrStr(rec.reporterName, rec.reporter_name);
      var total := OrNum(rec.totalHours, rec.total_hours);
      if !(f.report || rec.date.None? || key.None? || reporter.None? || total.None?) {
        var row := ReportRow(st1.nextId, rec.date.value, key.value, reporter.value, total.value);
        AppendReportValid(st1, row, []);
        AppendReportValid(st1, row, TaskRowsFor(st1.nextId, rec.tasks.GetOr([])));
        assert st1.tasks + [] == st1.tasks;
      }
    }
  }

  /** One more record imports on top of the records before it. */
  lemma ImportSpecSnoc(st: StoreState, recs: seq<BackupRecord>, faults: seq<ImportFaults>, i: nat)
    requires |faults| == |recs| && i < |recs|
    ensures ImportSpec(st, recs[..i + 1], faults[..i + 1]) == ImportOne(ImportSpec(st, recs[..i], faults[..i]), recs[i], faults[i])
  {
    assert recs[..i + 1][..i] == recs[..i] && faults[..i + 1][..i] == faults[..i];
  }

  lemma {:induction false} ImportValid(st: StoreState, recs: seq<BackupRecord>, faults: seq<ImportFaults>)
    requires st.Valid() && |faults| == |recs|
    ensures ImportSpec(st, recs, faults).Valid()
    decreases |recs|
  {
    if recs != [] {
      var n := |recs| - 1;
      ImportValid(st, recs[..n], faults[..n]);
      ImportOneValid(ImportSpec(st, recs[..n], faults[..n]), recs[n], faults[n]);
    }
  }
}
