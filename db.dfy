/**
 * The report library's remote calls as methods of the store they change.
 * Each method is proved to take the store from `old(State())` to the state
 * the matching function of `Store` describes, and to return what that
 * function says; the properties of those functions are proved in `Store`.
 */
module Db {
  import opened Wrappers
  import opened Tasks
  import opened JsObject
  import opened Order
  import opened Store

  /** `tasksByReportId[id] || []` */
  function Lookup(byReport: map<ReportId, seq<Task>>, id: ReportId): seq<Task> {
    if id in byReport then byReport[id] else []
  }

  /** The reduce that groups fetched task rows by report, pushing each row's task onto its report's list. */
  method GroupTasksByReportId(rows: seq<TaskRow>) returns (byReport: map<ReportId, seq<Task>>)
    ensures forall id :: Lookup(byReport, id) == TasksOf(rows, id)
  {
    byReport := map[];
    for i := 0 to |rows|
      invariant forall id :: Lookup(byReport, id) == TasksOf(rows[..i], id)
    {
      var t := rows[i];
      forall id: ReportId
        ensures TasksOf(rows[..i + 1], id) == TasksOf(rows[..i], id) + (if t.report_id == id then [Task(t.name, t.time, t.status)] else [])
      {
        TasksOfPrefixStep(rows, i, id);
      }
      ghost var before := byReport;
      if t.report_id !in byReport {
        byReport := byReport[t.report_id := []];
      }
      assert byReport[t.report_id] == Lookup(before, t.report_id);
      byReport := byReport[t.report_id := byReport[t.report_id] + [Task(t.name, t.time, t.status)]];
      assert forall id: ReportId :: id != t.report_id ==> Lookup(byReport, id) == Lookup(before, id);
    }
    assert rows[..|rows|] == rows;
  }

  /** Keeping only the task rows of some reports does not change the tasks of those reports. */
  lemma {:induction false} TasksOfRestricted(rows: seq<TaskRow>, ids: set<ReportId>, id: ReportId)
    requires id in ids
    ensures TasksOf(Filter(rows, (t: TaskRow) => t.report_id in ids), id) == TasksOf(rows, id)
    decreases |rows|
  {
    if rows != [] {
      var p := (t: TaskRow) => t.report_id in ids;
      TasksOfRestricted(rows[1..], ids, id);
      var head := if p(rows[0]) then [rows[0]] else [];
      TasksOfAppend(head, Filter(rows[1..], p), id);
      TasksOfAppend([rows[0]], rows[1..], id);
      assert rows == [rows[0]] + rows[1..];
      if !p(rows[0]) {
        assert TasksOf([rows[0]], id) == [] by {
          assert [rows[0]][..0] == [];
        }
      }
    }
  }

  /** The remote store: the three tables and the next id it will hand out. */
  class RemoteStore {
    var clients: map<string, string>
    var reports: seq<ReportRow>
    var tasks: seq<TaskRow>
    var nextId: ReportId

    function State(): StoreState
      reads this
    {
      StoreState(clients, reports, tasks, nextId)
    }

    ghost predicate Valid()
      reads this
    {
      State().Valid()
    }

    /** An empty store. */
    constructor()
      ensures Valid() && State() == StoreState(map[], [], [], 0)
    {
      clients := map[];
      reports := [];
      tasks := [];
      nextId := 0;
    }

    /** `syncClientsToSupabase`: one upsert of every entry of the object, keyed on `key`. */
    method SyncClientsToSupabase(newClients: Dict, fail: bool) returns (r: Result<bool, DbError>)
      requires Valid()
      modifies this
      ensures Valid()
      ensures State() == SyncState(old(State()), newClients, fail)
      ensures r == SyncResult(newClients, fail)
    {
      var clientsToUpsert := newClients.keys;
      if |clientsToUpsert| > 0 {
        if fail {
          return Failure(SyncClientsFailed);
        }
        clients := clients + newClients.values;
      }
      return Success(true);
    }

    /**
     * `saveReport`: the client upsert, the report insert and the task insert,
     * each of which may fail. These are the steps `Store.SaveSpec` describes,
     * performed on the tables; the properties of a save are proved about
     * `SaveSpec` in `Store`.
     */
    method SaveReport(date: string, clientName: string, clientKey: string, reporterName: string,
                      reportTasks: seq<Task>, f: SaveFaults) returns (r: Result<ReportId, DbError>)
      requires Valid()
      modifies this
      ensures Valid()
      ensures (State(), r) == SaveSpec(old(State()), date, clientName, clientKey, reporterName, reportTasks, f)
    {
      SaveValid(State(), date, clientName, clientKey, reporterName, reportTasks, f);
      var synced := SyncClientsToSupabase(Single(clientKey, clientName), f.sync);
      if synced.Failure? {
        return Failure(synced.error);
      }
      var totalHours := TotalTime(reportTasks);
      if f.report {
        return Failure(InsertReportFailed);
      }
      var id := nextId;
      reports := reports + [ReportRow(id, date, clientKey, reporterName, totalHours)];
      nextId := nextId + 1;
      var tasksToInsert := TaskRowsFor(id, reportTasks);
      if f.tasks {
        return Failure(InsertTasksFailed);
      }
      tasks := tasks + tasksToInsert;
      return Success(id);
    }

    /**
     * The shared second half of both reading functions: order, look up names
     * and tasks, and join. The same steps as `Store.QuerySpec`, with the
     * grouping done by the reduce loop; the shape of the result is proved
     * about `QuerySpec` in `Store`.
     */
    method RunReportsQuery(rows: seq<ReportRow>, f: FetchFaults) returns (r: Result<seq<ReportWithTasks>, DbError>)
      ensures r == QuerySpec(State(), rows, f)
    {
      if f.reports {
        return Failure(FetchReportsFailed);
      }
      var sorted := SortDesc(rows, DateOf);
      if |sorted| == 0 {
        return Success([]);
      }
      if f.clients {
        return Failure(FetchClientsFailed);
      }
      var clientMap := clients;
      var reportIds := set i | 0 <= i < |sorted| :: sorted[i].id;
      if f.tasks {
        return Failure(FetchTasksFailed);
      }
      var fetched := Filter(tasks, (t: TaskRow) => t.report_id in reportIds);
      var byReport := GroupTasksByReportId(fetched);
      var joined := seq(|sorted|, i requires 0 <= i < |sorted| =>
        WithTasks(sorted[i], Lookup(byReport, sorted[i].id), ClientName(clientMap, sorted[i].client_key)));
      forall i | 0 <= i < |sorted|
        ensures joined[i] == JoinView(sorted, clients, tasks)[i]
      {
        TasksOfRestricted(tasks, reportIds, sorted[i].id);
      }
      assert joined == JoinView(sorted, clients, tasks);
      return Success(joined);
    }

    /** `getAllReports` */
    method GetAllReports(f: FetchFaults) returns (r: Result<seq<ReportWithTasks>, DbError>)
      ensures r == AllReportsSpec(State(), f)
    {
      r := RunReportsQuery(reports, f);
    }

    /** `getReportsByFilters`: only the supplied, non-empty filters restrict the rows. */
    method GetReportsByFilters(clientKey: Option<string>, startDate: Option<string>, endDate: Option<string>, f: FetchFaults)
      returns (r: Result<seq<ReportWithTasks>, DbError>)
      ensures r == FilteredReportsSpec(State(), Filters(clientKey, startDate, endDate), f)
    {
      var filters := Filters(clientKey, startDate, endDate);
      var query := Filter(reports, (row: ReportRow) => Matches(filters, row));
      r := RunReportsQuery(query, f);
    }

    /** `deleteReport`: the cascade removes the report's tasks with it. */
    method DeleteReport(id: ReportId, fail: bool) returns (r: Result<bool, DbError>)
      requires Valid()
      modifies this
      ensures Valid()
      ensures (State(), r) == DeleteSpec(old(State()), id, fail)
    {
      if fail {
        return Failure(DeleteReportFailed);
      }
      DeleteRemoves(State(), id, id);
      reports := Filter(reports, (row: ReportRow) => row.id != id);
      tasks := Filter(tasks, (t: TaskRow) => t.report_id != id);
      return Success(true);
    }

    /**
     * One pass of `importReports`'s loop: a failure skips the rest of this
     * record only. The same steps as `Store.ImportOne`, performed on the
     * tables; what an import promises is proved about `ImportOne` and
     * `ImportSpec` in `Store` and `BackupRoundTrip`.
     */
    method ImportRecord(report: BackupRecord, f: ImportFaults)
      requires Valid()
      modifies this
      ensures Valid()
      ensures State() == ImportOne(old(State()), report, f)
    {
      ImportOneValid(State(), report, f);
      var key := OrStr(report.clientKey, report.client_key);
      if report.clientName.None? {
        return;
      }
      var synced := SyncClientsToSupabase(Single(KeyText(key), report.clientName.value), f.sync);
      if synced.Failure? {
        return;
      }
      var reporter := OrStr(report.reporterName, report.reporter_name);
      var total := OrNum(report.totalHours, report.total_hours);
      if f.report || report.date.None? || key.None? || reporter.None? || total.None? {
        return;
      }
      var id := nextId;
      reports := reports + [ReportRow(id, report.date.value, key.value, reporter.value, total.value)];
      nextId := nextId + 1;
      var tasksToInsert := TaskRowsFor(id, report.tasks.GetOr([]));
      if |tasksToInsert| > 0 && !f.tasks {
        tasks := tasks + tasksToInsert;
      }
    }

    /** `importReports`: every record is tried in turn. */
    method ImportReports(records: seq<BackupRecord>, faults: seq<ImportFaults>) returns (ok: bool)
      requires Valid() && |faults| == |records|
      modifies this
      ensures Valid()
      ensures ok && State() == ImportSpec(old(State()), records, faults)
    {
      for i := 0 to |records|
        invariant Valid()
        invariant State() == ImportSpec(old(State()), records[..i], faults[..i])
      {
        ImportSpecSnoc(old(State()), records, faults, i);
        ImportRecord(records[i], faults[i]);
      }
      assert records[..|records|] == records && faults[..|faults|] == faults;
      return true;
    }
  }
}
