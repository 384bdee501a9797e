/**
 * The history screen: the list of saved reports, the client and date
 * filters, deleting a report, and downloading every listed task as one
 * CSV file.
 */
module History {
  import opened Wrappers
  import opened Tasks
  import opened ReportUtils
  import opened Store
  import opened Db

  /** The client select's value for "no client filter". */
  const AllClients: string := "all"

  /** One task tagged with its report's date and client name, as the flatten writes it. */
  function Tag(report: ReportWithTasks, t: Task): AnnotatedTask {
    AnnotatedTask(report.date, report.clientName, t.name, t.time, t.status)
  }

  function TagAll(report: ReportWithTasks): (rows: seq<AnnotatedTask>)
    ensures |rows| == |report.tasks|
    ensures forall i :: 0 <= i < |rows| ==> rows[i] == Tag(report, report.tasks[i])
  {
    seq(|report.tasks|, i requires 0 <= i < |report.tasks| => Tag(report, report.tasks[i]))
  }

  /** The number of tasks over all reports. */
  function TaskCount(reports: seq<ReportWithTasks>): nat
    decreases |reports|
  {
    if reports == [] then 0 else TaskCount(reports[..|reports| - 1]) + |reports[|reports| - 1].tasks|
  }

  /** The flatMap of `handleDownloadAll`: each report's tasks in report order, each tagged with its report. */
  function FlattenTasks(reports: seq<ReportWithTasks>): (rows: seq<AnnotatedTask>)
    ensures |rows| == TaskCount(reports)
    decreases |reports|
  {
    if reports == [] then [] else FlattenTasks(reports[..|reports| - 1]) + TagAll(reports[|reports| - 1])
  }

  /** Task `i` of report `k` sits after all tasks of the reports before `k`, tagged with report `k`. */
  lemma {:induction false} FlattenAt(reports: seq<ReportWithTasks>, k: nat, i: nat)
    requires k < |reports| && i < |reports[k].tasks|
    ensures TaskCount(reports[..k]) + i < |FlattenTasks(reports)|
    ensures FlattenTasks(reports)[TaskCount(reports[..k]) + i] == Tag(reports[k], reports[k].tasks[i])
    decreases |reports|
  {
    var n := |reports| - 1;
    var init := reports[..n];
    if k == n {
      assert reports[..k] == init;
    } else {
      assert init[..k] == reports[..k];
      FlattenAt(init, k, i);
    }
  }

  /** `all_tasks`, the client unless it is "all", the date range, and `.csv`. */
  function DownloadFilename(selectedClient: string, startDate: string, endDate: string): (filename: string)
    ensures var client := if selectedClient == AllClients then "" else "_" + selectedClient;
      && (startDate != "" && endDate != "" ==> filename == "all_tasks" + client + "_" + startDate + "_to_" + endDate + ".csv")
      && (startDate != "" && endDate == "" ==> filename == "all_tasks" + client + "_from_" + startDate + ".csv")
      && (startDate == "" && endDate != "" ==> filename == "all_tasks" + client + "_until_" + endDate + ".csv")
      && (startDate == "" && endDate == "" ==> filename == "all_tasks" + client + ".csv")
  {
    var client := if selectedClient == AllClients then "" else "_" + selectedClient;
    var range :=
      if startDate != "" && endDate != "" then "_" + startDate + "_to_" + endDate
      else if startDate != "" then "_from_" + startDate
      else if endDate != "" then "_until_" + endDate
      else "";
    "all_tasks" + client + range + ".csv"
  }

  /** The filename as `handleDownloadAll` grows it, one `+=` at a time. */
  method BuildFilename(selectedClient: string, startDate: string, endDate: string) returns (filename: string)
    ensures filename == DownloadFilename(selectedClient, startDate, endDate)
  {
    filename := "all_tasks";
    if selectedClient != AllClients {
      filename := filename + ("_" + selectedClient);
    }
    if startDate != "" && endDate != "" {
      filename := filename + ("_" + startDate + "_to_" + endDate);
    } else if startDate != "" {
      filename := filename + ("_from_" + startDate);
    } else if endDate != "" {
      filename := filename + ("_until_" + endDate);
    }
    filename := filename + ".csv";
  }

  /** The arguments `handleApplyFilters` passes: null for the client "all" and for an empty date. */
  function FilterArguments(selectedClient: string, startDate: string, endDate: string): (filters: Filters)
    ensures filters.clientKey == None <==> selectedClient == AllClients
    ensures filters.clientKey != None ==> filters.clientKey == Some(selectedClient)
    ensures filters.startDate == None <==> startDate == ""
    ensures filters.startDate != None ==> filters.startDate == Some(startDate)
    ensures filters.endDate == None <==> endDate == ""
    ensures filters.endDate != None ==> filters.endDate == Some(endDate)
  {
    Filters(if selectedClient == AllClients then None else Some(selectedClient),
            if startDate == "" then None else Some(startDate),
            if endDate == "" then None else Some(endDate))
  }

  /** Applying the filters in their reset state lists every report, as a reset does. */
  lemma ResetFiltersListAll(st: StoreState, f: FetchFaults)
    ensures FilteredReportsSpec(st, FilterArguments(AllClients, "", ""), f) == AllReportsSpec(st, f)
  {
    NoFiltersIsAllReports(st, f);
  }

  /** A download: the file name and the CSV text. */
  datatype Download = Download(filename: string, content: string)

  class HistoryView {
    var reports: seq<ReportWithTasks>
    var loading: bool
    var selectedClient: string
    var startDate: string
    var endDate: string
    var error: Option<string>

    /** The screen before its first fetch. */
    constructor()
      ensures reports == [] && loading && selectedClient == AllClients && startDate == "" && endDate == "" && error == None
    {
      reports := [];
      loading := true;
      selectedClient := AllClients;
      startDate := "";
      endDate := "";
      error := None;
    }

    method SetSelectedClient(value: string)
      modifies this
      ensures selectedClient == value && startDate == old(startDate) && endDate == old(endDate) && reports == old(reports)
      ensures loading == old(loading) && error == old(error)
    {
      selectedClient := value;
    }

    method SetStartDate(value: string)
      modifies this
      ensures startDate == value && selectedClient == old(selectedClient) && endDate == old(endDate) && reports == old(reports)
      ensures loading == old(loading) && error == old(error)
    {
      startDate := value;
    }

    method SetEndDate(value: string)
      modifies this
      ensures endDate == value && selectedClient == old(selectedClient) && startDate == old(startDate) && reports == old(reports)
      ensures loading == old(loading) && error == old(error)
    {
      endDate := value;
    }

    /** The mount-time fetch: the list becomes every report, or an error is shown and the list is kept. */
    method FetchReports(store: RemoteStore, f: FetchFaults)
      modifies this
      ensures var res := AllReportsSpec(store.State(), f);
        && (res.Success? ==> reports == res.value && error == None)
        && (res.Failure? ==> reports == old(reports) && error == Some("Failed to load reports from cloud storage"))
      ensures !loading
      ensures selectedClient == old(selectedClient) && startDate == old(startDate) && endDate == old(endDate)
    {
      loading := true;
      error := None;
      var allReports := store.GetAllReports(f);
      if allReports.Success? {
        reports := allReports.value;
      } else {
        error := Some("Failed to load reports from cloud storage");
      }
      loading := false;
    }

    /** `handleDeleteReport`: on success the listed entries with that id go, order kept; on failure only the error changes. */
    method HandleDeleteReport(store: RemoteStore, id: ReportId, fail: bool)
      requires store.Valid()
      modifies this, store
      ensures store.Valid()
      ensures store.State() == DeleteSpec(old(store.State()), id, fail).0
      ensures !fail ==> reports == Filter(old(reports), (r: ReportWithTasks) => r.id != id) && error == old(error)
      ensures fail ==> reports == old(reports) && error == Some("Failed to delete report")
      ensures selectedClient == old(selectedClient) && startDate == old(startDate) && endDate == old(endDate)
      ensures loading == old(loading)
    {
      var deleted := store.DeleteReport(id, fail);
      if deleted.Success? {
        reports := Filter(reports, (r: ReportWithTasks) => r.id != id);
      } else {
        error := Some("Failed to delete report");
      }
    }

    /** `handleApplyFilters`: the list becomes the reports matching the filter inputs. */
    method HandleApplyFilters(store: RemoteStore, f: FetchFaults)
      modifies this
      ensures var res := FilteredReportsSpec(store.State(), FilterArguments(selectedClient, startDate, endDate), f);
        && (res.Success? ==> reports == res.value && error == None)
        && (res.Failure? ==> reports == old(reports) && error == Some("Failed to filter reports"))
      ensures !loading
      ensures selectedClient == old(selectedClient) && startDate == old(startDate) && endDate == old(endDate)
    {
      loading := true;
      error := None;
      var filters := FilterArguments(selectedClient, startDate, endDate);
      ghost var st := store.State();
      var filteredReports := store.GetReportsByFilters(filters.clientKey, filters.startDate, filters.endDate, f);
      assert filteredReports == FilteredReportsSpec(st, filters, f);
      if filteredReports.Success? {
        reports := filteredReports.value;
      } else {
        error := Some("Failed to filter reports");
      }
      loading := false;
    }

    /** `handleResetFilters`: the inputs go back to "all" and empty dates, and the list to every report. */
    method HandleResetFilters(store: RemoteStore, f: FetchFaults)
      modifies this
      ensures selectedClient == AllClients && startDate == "" && endDate == ""
      ensures var res := AllReportsSpec(store.State(), f);
        && (res.Success? ==> reports == res.value && error == None)
        && (res.Failure? ==> reports == old(reports) && error == Some("Failed to reset filters"))
      ensures !loading
    {
      selectedClient := AllClients;
      startDate := "";
      endDate := "";
      loading := true;
      error := None;
      var allReports := store.GetAllReports(f);
      if allReports.Success? {
        reports := allReports.value;
      } else {
        error := Some("Failed to reset filters");
      }
      loading := false;
    }

    /** `handleDownloadAll`: nothing with an empty list; otherwise every listed task in one CSV file named after the filters. */
    method HandleDownloadAll() returns (download: Option<Download>)
      ensures download.None? <==> reports == []
      ensures download.Some? ==>
        && download.value.filename == DownloadFilename(selectedClient, startDate, endDate)
        && download.value.content == CsvText(MultiCsvRows(FlattenTasks(reports)))
    {
      if |reports| == 0 {
        return None;
      }
      var allTasks := FlattenTasks(reports);
      var filename := BuildFilename(selectedClient, startDate, endDate);
      var content := ExportMultipleReportsToCsvContent(allTasks);
      return Some(Download(filename, content));
    }
  }
}
