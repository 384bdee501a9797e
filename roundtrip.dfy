/**
 * The backup round trip: what `getAllReports` returns, written out as JSON
 * and handed to `importReports` on an empty store, reads back with the same
 * dates, client keys, reporter names, totals, task lists and client names.
 * Only the report ids differ; they are assigned afresh.
 */
module BackupRoundTrip {
  import opened Wrappers
  import opened Tasks
  import opened Order
  import opened Store
  import opened Text

  /** One entry of the JSON backup: the snake_case fields of a report, its tasks and `clientName`. */
  function ToBackup(v: ReportWithTasks): BackupRecord {
    BackupRecord(Some(v.date), None, Some(v.client_key), Some(v.clientName),
                 None, Some(v.reporter_name), None, Some(v.total_hours), Some(v.tasks))
  }

  function Backup(vs: seq<ReportWithTasks>): (recs: seq<BackupRecord>)
    ensures |recs| == |vs|
    ensures forall i :: 0 <= i < |vs| ==> recs[i] == ToBackup(vs[i])
  {
    seq(|vs|, i requires 0 <= i < |vs| => ToBackup(vs[i]))
  }

  /** Every remote call succeeds. */
  function NoFaults(n: nat): (fs: seq<ImportFaults>)
    ensures |fs| == n
    ensures forall i :: 0 <= i < n ==> fs[i] == ImportFaults(false, false, false)
  {
    seq(n, _ => ImportFaults(false, false, false))
  }

  /** What a report carries besides its id. */
  datatype Content = Content(date: string, client_key: string, reporter_name: string, total_hours: Quarters,
                             tasks: seq<Task>, clientName: string)

  function ContentOf(v: ReportWithTasks): Content {
    Content(v.date, v.client_key, v.reporter_name, v.total_hours, v.tasks, v.clientName)
  }

  function Contents(vs: seq<ReportWithTasks>): (cs: seq<Content>)
    ensures |cs| == |vs|
    ensures forall i :: 0 <= i < |vs| ==> cs[i] == ContentOf(vs[i])
  {
    seq(|vs|, i requires 0 <= i < |vs| => ContentOf(vs[i]))
  }

  /** The report rows importing the first `i` entries writes, with ids counted up from `n0`. */
  function ImportedRows(vs: seq<ReportWithTasks>, n0: ReportId, i: nat): (rows: seq<ReportRow>)
    requires i <= |vs|
    ensures |rows| == i
    ensures forall j :: 0 <= j < i ==>
      rows[j] == ReportRow(n0 + j, vs[j].date, vs[j].client_key, vs[j].reporter_name, vs[j].total_hours)
  {
    seq(i, j requires 0 <= j < i => ReportRow(n0 + j, vs[j].date, vs[j].client_key, vs[j].reporter_name, vs[j].total_hours))
  }

  /** Entries with the same client key carry the same client name, as every `getAllReports` result does. */
  ghost predicate SameKeySameName(vs: seq<ReportWithTasks>) {
    forall j, k :: 0 <= j < |vs| && 0 <= k < |vs| && vs[j].client_key == vs[k].client_key ==>
      vs[j].clientName == vs[k].clientName
  }

  /** One imported entry: its client is upserted, its report gets the next id, its tasks follow. */
  lemma ImportEntry(st: StoreState, v: ReportWithTasks)
    ensures var r := ImportOne(st, ToBackup(v), ImportFaults(false, false, false));
      && r.clients == st.clients[v.client_key := v.clientName]
      && r.reports == st.reports + [ReportRow(st.nextId, v.date, v.client_key, v.reporter_name, v.total_hours)]
      && r.tasks == st.tasks + TaskRowsFor(st.nextId, v.tasks)
      && r.nextId == st.nextId + 1
  {
    ImportOneInserted(st, ToBackup(v), ImportFaults(false, false, false));
    assert JsObject.Single(v.client_key, v.clientName).values == map[v.client_key := v.clientName];
    JsObject.MergeSingle(st.clients, v.client_key, v.clientName);
  }

  /** The tasks importing the first `i` entries writes: entry `j`'s tasks under id `n0 + j`, nothing else. */
  function ImportedTasksOf(vs: seq<ReportWithTasks>, n0: ReportId, i: nat, id: ReportId): seq<Task>
    requires i <= |vs|
  {
    if n0 <= id < n0 + i then vs[id - n0].tasks else []
  }

  /** The store holds exactly what importing the first `i` entries into an empty store with next id `n0` writes. */
  ghost predicate ImportedPrefix(st: StoreState, vs: seq<ReportWithTasks>, n0: ReportId, i: nat)
    requires i <= |vs|
  {
    && st.reports == ImportedRows(vs, n0, i)
    && (forall id: ReportId :: TasksOf(st.tasks, id) == ImportedTasksOf(vs, n0, i, id))
    && st.nextId == n0 + i
    && forall j :: 0 <= j < i ==> vs[j].client_key in st.clients && st.clients[vs[j].client_key] == vs[j].clientName
  }

  /** Appending a batch for report `id` adds its tasks to `id` and nothing to any other report. */
  lemma TasksOfAfterBatch(prev: seq<TaskRow>, id: ReportId, tasks: seq<Task>, target: ReportId)
    ensures TasksOf(prev + TaskRowsFor(id, tasks), target) == TasksOf(prev, target) + (if target == id then tasks else [])
  {
    TasksOfAppend(prev, TaskRowsFor(id, tasks), target);
    TasksOfRowsFor(id, tasks, target);
  }

  /** The next row extends the imported rows by entry `n`'s row. */
  lemma StepRows(rows: seq<ReportRow>, vs: seq<ReportWithTasks>, n0: ReportId, n: nat)
    requires n < |vs| && rows == ImportedRows(vs, n0, n)
    ensures rows + [ReportRow(n0 + n, vs[n].date, vs[n].client_key, vs[n].reporter_name, vs[n].total_hours)]
         == ImportedRows(vs, n0, n + 1)
  {
  }

  /** Entry `n`'s batch under id `n0 + n` gives that id entry `n`'s tasks and changes no other id. */
  lemma StepTasks(prev: seq<TaskRow>, vs: seq<ReportWithTasks>, n0: ReportId, n: nat, after: seq<TaskRow>, m: nat)
    requires n < |vs| && m == n + 1 && after == prev + TaskRowsFor(n0 + n, vs[n].tasks)
    requires forall id: ReportId :: TasksOf(prev, id) == ImportedTasksOf(vs, n0, n, id)
    ensures forall id: ReportId :: TasksOf(after, id) == ImportedTasksOf(vs, n0, m, id)
  {
    forall id: ReportId
      ensures TasksOf(after, id) == ImportedTasksOf(vs, n0, m, id)
    {
      TasksOfAfterBatch(prev, n0 + n, vs[n].tasks, id);
    }
  }

  /** Upserting entry `n`'s client keeps the names of the entries before it. */
  lemma StepClients(clients: map<string, string>, vs: seq<ReportWithTasks>, n: nat)
    requires n < |vs| && SameKeySameName(vs)
    requires forall j :: 0 <= j < n ==> vs[j].client_key in clients && clients[vs[j].client_key] == vs[j].clientName
    ensures var c := clients[vs[n].client_key := vs[n].clientName];
      forall j :: 0 <= j < n + 1 ==> vs[j].client_key in c && c[vs[j].client_key] == vs[j].clientName
  {
  }

  /** Importing entry `n` extends the prefix by one. */
  lemma ImportStep(st: StoreState, vs: seq<ReportWithTasks>, n0: ReportId, n: nat)
    requires n < |vs| && SameKeySameName(vs) && ImportedPrefix(st, vs, n0, n)
    ensures ImportedPrefix(ImportOne(st, ToBackup(vs[n]), ImportFaults(false, false, false)), vs, n0, n + 1)
  {
    ImportEntry(st, vs[n]);
    StepRows(st.reports, vs, n0, n);
    StepTasks(st.tasks, vs, n0, n, st.tasks + TaskRowsFor(st.nextId, vs[n].tasks), n + 1);
    StepClients(st.clients, vs, n);
  }

  /** After the first `i` entries, the store holds exactly their rows, and each of their keys its name. */
  lemma {:induction false} ImportPrefix(dst: StoreState, vs: seq<ReportWithTasks>, i: nat)
    requires dst.reports == [] && dst.tasks == [] && i <= |vs| && SameKeySameName(vs)
    ensures ImportedPrefix(ImportSpec(dst, Backup(vs)[..i], NoFaults(|vs|)[..i]), vs, dst.nextId, i)
    decreases i
  {
    var recs := Backup(vs);
    var faults := NoFaults(|vs|);
    if i == 0 {
      assert recs[..0] == [] && faults[..0] == [];
      forall id: ReportId
        ensures TasksOf(dst.tasks, id) == []
      {
        TasksOfNone(dst.tasks, id);
      }
    } else {
      var n := i - 1;
      ImportPrefix(dst, vs, n);
      ImportSpecSnoc(dst, recs, faults, n);
      assert recs[n] == ToBackup(vs[n]) && faults[n] == ImportFaults(false, false, false);
      ImportStep(ImportSpec(dst, recs[..n], faults[..n]), vs, dst.nextId, n);
    }
  }

  /** What `getAllReports` returns is in date order and names each client as `ClientName` does. */
  lemma ExportShape(src: StoreState)
    ensures var exported := AllReportsSpec(src, NoFetchFaults);
      && exported.Success?
      && (forall i, j :: 0 <= i < j < |exported.value| ==> StrLe(exported.value[j].date, exported.value[i].date))
      && (forall j :: 0 <= j < |exported.value| ==>
            exported.value[j].clientName == ClientName(src.clients, exported.value[j].client_key))
  {
    QueryShape(src, src.reports);
  }

  /** The stored row of entry `j` joins back to entry `j`'s content. */
  lemma RereadEntry(src: StoreState, imported: StoreState, vs: seq<ReportWithTasks>, n0: ReportId, j: nat)
    requires ImportedPrefix(imported, vs, n0, |vs|) && j < |vs|
    requires vs[j].clientName == ClientName(src.clients, vs[j].client_key)
    ensures var row := imported.reports[j];
      ContentOf(WithTasks(row, TasksOf(imported.tasks, row.id), ClientName(imported.clients, row.client_key))) == ContentOf(vs[j])
  {
    assert imported.reports[j].id == n0 + j;
    assert TasksOf(imported.tasks, n0 + j) == ImportedTasksOf(vs, n0, |vs|, n0 + j);
    var key := vs[j].client_key;
    assert imported.clients[key] == ClientName(src.clients, key);
  }

  /** Reading back a store that holds exactly the imported entries yields their contents in the same order. */
  lemma Reread(src: StoreState, imported: StoreState, vs: seq<ReportWithTasks>, n0: ReportId)
    requires ImportedPrefix(imported, vs, n0, |vs|)
    requires forall i, j :: 0 <= i < j < |vs| ==> StrLe(vs[j].date, vs[i].date)
    requires forall j :: 0 <= j < |vs| ==> vs[j].clientName == ClientName(src.clients, vs[j].client_key)
    ensures var reread := AllReportsSpec(imported, NoFetchFaults);
      reread.Success? && Contents(reread.value) == Contents(vs)
  {
    var rows := imported.reports;
    assert SortedDesc(rows, DateOf) by {
      forall i, j | 0 <= i < j < |rows|
        ensures StrLe(DateOf(rows[j]), DateOf(rows[i]))
      {
        assert rows[i].date == vs[i].date && rows[j].date == vs[j].date;
      }
    }
    SortDescOfSorted(rows, DateOf);
    if rows != [] {
      var back := JoinView(rows, imported.clients, imported.tasks);
      assert AllReportsSpec(imported, NoFetchFaults) == Success(back);
      forall j | 0 <= j < |vs|
        ensures ContentOf(back[j]) == ContentOf(vs[j])
      {
        RereadEntry(src, imported, vs, n0, j);
      }
      assert Contents(back) == Contents(vs);
    }
  }

  /** Entries that name each client as one map does agree on names per key. */
  lemma NamesAgree(vs: seq<ReportWithTasks>, clients: map<string, string>)
    requires forall j :: 0 <= j < |vs| ==> vs[j].clientName == ClientName(clients, vs[j].client_key)
    ensures SameKeySameName(vs)
  {
  }

  /** Importing entries in date order that name their clients as `src` does, and reading them back, gives their contents. */
  lemma ImportThenReread(src: StoreState, dst: StoreState, vs: seq<ReportWithTasks>)
    requires dst.reports == [] && dst.tasks == []
    requires forall i, j :: 0 <= i < j < |vs| ==> StrLe(vs[j].date, vs[i].date)
    requires forall j :: 0 <= j < |vs| ==> vs[j].clientName == ClientName(src.clients, vs[j].client_key)
    ensures var reread := AllReportsSpec(ImportSpec(dst, Backup(vs), NoFaults(|vs|)), NoFetchFaults);
      reread.Success? && Contents(reread.value) == Contents(vs)
  {
    NamesAgree(vs, src.clients);
    ImportPrefix(dst, vs, |vs|);
    FullSlice(Backup(vs));
    FullSlice(NoFaults(|vs|));
    Reread(src, ImportSpec(dst, Backup(vs), NoFaults(|vs|)), vs, dst.nextId);
  }

  /**
   * Importing the output of `getAllReports` into an empty store and
   * reading it back reproduces every report's content, in the same order.
   */
  lemma ExportImportRoundTrip(src: StoreState, dst: StoreState)
    requires dst.reports == [] && dst.tasks == []
    ensures var exported := AllReportsSpec(src, NoFetchFaults);
      && exported.Success?
      && var imported := ImportSpec(dst, Backup(exported.value), NoFaults(|exported.value|));
         var reread := AllReportsSpec(imported, NoFetchFaults);
         && reread.Success?
         && Contents(reread.value) == Contents(exported.value)
  {
    ExportShape(src);
    ImportThenReread(src, dst, AllReportsSpec(src, NoFetchFaults).value);
  }
}
