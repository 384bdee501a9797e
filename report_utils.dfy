/**
 * The text of the end-of-day email (subject and body), the time phrase and
 * status emoji it uses, and the content of the two CSV exports. Only the
 * CSV content string is modelled; handing it to the browser as a download
 * is not.
 */
module ReportUtils {
  import opened Wrappers
  import opened Text
  import opened Tasks

  const DoneEmoji: string := "\U{2705}"
  const ProgressEmoji: string := "\U{1F504}"
  const HoldEmoji: string := "\U{23F8}\U{FE0F}"
  const CancelEmoji: string := "\U{274C}"
  const NoteEmoji: string := "\U{1F4DD}"
  const SmileEmoji: string := "\U{1F60A}"
  const EnDash: string := "\U{2013}"

  // ---------------------------------------------------------------------
  // Time phrase

  function Plural(hours: nat): string {
    if hours != 1 then "s" else ""
  }

  /** `formatTimeHoursMinutes`, over a time already split into whole hours and minutes. */
  function FormatTimeHoursMinutes(hours: nat, minutes: nat): string {
    if hours == 0 then
      NatToString(minutes) + " minutes"
    else if minutes == 0 then
      NatToString(hours) + " hour" + Plural(hours)
    else
      NatToString(hours) + " hour" + Plural(hours) + " " + NatToString(minutes) + " minutes"
  }

  /**
   * `formatTimeHoursMinutes(time)` for a time of `q` quarter-hours:
   * `Math.floor` gives `q / 4` hours and `Math.round` of the remainder
   * times 60 gives `(q % 4) * 15` minutes, both exactly.
   */
  function FormatTimeQuarters(q: Quarters): string {
    FormatTimeHoursMinutes(q / 4, (q % 4) * 15)
  }

  /** Reads a time phrase back into (hours, minutes); the inverse of `FormatTimeHoursMinutes`. */
  function ParseTimePhrase(s: string): Option<(nat, nat)> {
    var p := TakeDigits(s);
    if p.0 == [] then None
    else if p.1 == " minutes" then Some((0, DigitsValue(p.0)))
    else
      match AfterHourWord(p.1)
      case None => None
      case Some(tail) =>
        if tail == "" then Some((DigitsValue(p.0), 0))
        else
          match ParseMinutesTail(tail)
          case None => None
          case Some(m) => Some((DigitsValue(p.0), m))
  }

  /** What follows " hour" or " hours". */
  function AfterHourWord(rest: string): Option<string> {
    if |rest| >= 6 && rest[..6] == " hours" then Some(rest[6..])
    else if |rest| >= 5 && rest[..5] == " hour" then Some(rest[5..])
    else None
  }

  /** Reads " <digits> minutes". */
  function ParseMinutesTail(tail: string): Option<nat> {
    if tail == [] || tail[0] != ' ' then None
    else
      var p := TakeDigits(tail[1..]);
      if p.0 != [] && p.1 == " minutes" then Some(DigitsValue(p.0)) else None
  }

  lemma AfterHourWordOf(hours: nat, tail: string)
    requires tail == [] || tail[0] == ' '
    ensures AfterHourWord(" hour" + Plural(hours) + tail) == Some(tail)
  {
    var rest := " hour" + Plural(hours) + tail;
    if hours != 1 {
      assert rest[..6] == " hours" && rest[6..] == tail;
    } else {
      assert rest == " hour" + tail;
      assert |rest| >= 6 ==> rest[5] == ' ';
      assert rest[..5] == " hour" && rest[5..] == tail;
    }
  }

  lemma ParseMinutesTailOf(minutes: nat)
    ensures ParseMinutesTail(" " + NatToString(minutes) + " minutes") == Some(minutes)
  {
    var m := NatToString(minutes);
    assert (" " + m + " minutes")[1..] == m + " minutes";
    TakeDigitsOf(m, " minutes");
    DigitsValueOfNatToString(minutes);
  }

  lemma MinutesPhraseRoundTrip(minutes: nat)
    ensures ParseTimePhrase(FormatTimeHoursMinutes(0, minutes)) == Some((0, minutes))
  {
    TakeDigitsOf(NatToString(minutes), " minutes");
    DigitsValueOfNatToString(minutes);
  }

  /** What follows the digits of the hours in a phrase with a non-zero hour count. */
  function HoursRest(hours: nat, minutes: nat): string {
    " hour" + Plural(hours) + (if minutes == 0 then "" else " " + NatToString(minutes) + " minutes")
  }

  lemma HoursPhraseShape(hours: nat, minutes: nat)
    requires hours > 0
    ensures FormatTimeHoursMinutes(hours, minutes) == NatToString(hours) + HoursRest(hours, minutes)
  {
    var h, p := NatToString(hours), Plural(hours);
    if minutes != 0 {
      RegroupSix(h, " hour", p, " ", NatToString(minutes), " minutes");
    } else {
      ConcatAssoc(h, " hour", p);
      assert p + "" == p;
    }
  }

  /** The hours phrase after its digits: the hour word, then the minutes part if any. */
  lemma HoursRestParse(hours: nat, minutes: nat, d: string)
    requires AllDigits(d) && d != [] && DigitsValue(d) == hours
    ensures ParseTimePhrase(d + HoursRest(hours, minutes)) == Some((hours, minutes))
  {
    var tail := if minutes == 0 then "" else " " + NatToString(minutes) + " minutes";
    var rest := HoursRest(hours, minutes);
    assert rest[0] == ' ' && rest[1] == 'h';
    TakeDigitsOf(d, rest);
    assert rest != " minutes";
    AfterHourWordOf(hours, tail);
    if minutes != 0 {
      ParseMinutesTailOf(minutes);
    }
  }

  lemma HoursPhraseRoundTrip(hours: nat, minutes: nat)
    requires hours > 0
    ensures ParseTimePhrase(FormatTimeHoursMinutes(hours, minutes)) == Some((hours, minutes))
  {
    HoursPhraseShape(hours, minutes);
    DigitsValueOfNatToString(hours);
    HoursRestParse(hours, minutes, NatToString(hours));
  }

  /** The time phrase determines the hours and minutes it was built from. */
  lemma TimePhraseRoundTrip(hours: nat, minutes: nat)
    ensures ParseTimePhrase(FormatTimeHoursMinutes(hours, minutes)) == Some((hours, minutes))
  {
    if hours == 0 {
      MinutesPhraseRoundTrip(minutes);
    } else {
      HoursPhraseRoundTrip(hours, minutes);
    }
  }

  /** The phrase for a time in quarter-hours determines the time. */
  lemma TimePhraseDeterminesTime(p: Quarters, q: Quarters)
    requires FormatTimeQuarters(p) == FormatTimeQuarters(q)
    ensures p == q
  {
    TimePhraseRoundTrip(p / 4, (p % 4) * 15);
    TimePhraseRoundTrip(q / 4, (q % 4) * 15);
  }

  // ---------------------------------------------------------------------
  // Status emoji

  /** `getStatusEmoji`: the first keyword group found in the lower-cased status decides. */
  function GetStatusEmoji(status: string): (emoji: string)
    ensures emoji == DoneEmoji || emoji == ProgressEmoji || emoji == HoldEmoji || emoji == CancelEmoji || emoji == NoteEmoji
  {
    var lower := ToLower(status);
    if Contains(lower, "complete") || Contains(lower, "done") || Contains(lower, "finish") then DoneEmoji
    else if Contains(lower, "progress") || Contains(lower, "ongoing") then ProgressEmoji
    else if Contains(lower, "hold") || Contains(lower, "pause") then HoldEmoji
    else if Contains(lower, "cancel") || Contains(lower, "abandon") then CancelEmoji
    else NoteEmoji
  }

  /** The emoji does not depend on letter case. */
  lemma StatusEmojiIgnoresCase(a: string, b: string)
    requires ToLower(a) == ToLower(b)
    ensures GetStatusEmoji(a) == GetStatusEmoji(b)
  {
  }

  /** The note emoji is returned exactly when none of the nine keywords occurs in the lower-cased status. */
  lemma NoteEmojiIff(status: string)
    ensures var lower := ToLower(status);
      GetStatusEmoji(status) == NoteEmoji <==>
        && !Contains(lower, "complete") && !Contains(lower, "done") && !Contains(lower, "finish")
        && !Contains(lower, "progress") && !Contains(lower, "ongoing")
        && !Contains(lower, "hold") && !Contains(lower, "pause")
        && !Contains(lower, "cancel") && !Contains(lower, "abandon")
  {
    assert DoneEmoji != NoteEmoji && ProgressEmoji != NoteEmoji && HoldEmoji != NoteEmoji && CancelEmoji != NoteEmoji;
  }

  // Each status below is lowered first; the keyword facts are then drawn
  // from which letters the lowered text lacks and which keyword it holds.

  lemma CompletedEmoji()
    ensures GetStatusEmoji("Completed") == DoneEmoji
  {
    assert ToLower("Completed") == "" + "complete" + "d";
    ContainsInfix("", "complete", "d");
  }

  lemma InProgressLacks(s: string)
    requires s == "in " + "progress" + ""
    ensures 'c' !in s && 'd' !in s && 'f' !in s
  {
  }

  lemma InProgressEmoji()
    ensures GetStatusEmoji("In Progress") == ProgressEmoji
  {
    var s := ToLower("In Progress");
    assert s == "in " + "progress" + "";
    InProgressLacks(s);
    ContainsInfix("in ", "progress", "");
    Lacks(s, "complete", 'c');
    Lacks(s, "done", 'd');
    Lacks(s, "finish", 'f');
  }

  lemma OnHoldLacks(s: string)
    requires s == "on " + "hold" + ""
    ensures 'c' !in s && 'e' !in s && 'f' !in s && 'p' !in s && 'g' !in s
  {
  }

  lemma OnHoldKeywords(s: string)
    requires 'c' !in s && 'e' !in s && 'f' !in s && 'p' !in s && 'g' !in s
    ensures !Contains(s, "complete") && !Contains(s, "done") && !Contains(s, "finish")
    ensures !Contains(s, "progress") && !Contains(s, "ongoing")
  {
    Lacks(s, "complete", 'c');
    Lacks(s, "done", 'e');
    Lacks(s, "finish", 'f');
    Lacks(s, "progress", 'p');
    Lacks(s, "ongoing", 'g');
  }

  lemma OnHoldEmoji()
    ensures GetStatusEmoji("On Hold") == HoldEmoji
  {
    var s := ToLower("On Hold");
    assert s == "on " + "hold" + "";
    OnHoldLacks(s);
    ContainsInfix("on ", "hold", "");
    OnHoldKeywords(s);
  }

  lemma CancelledLacks(s: string)
    requires s == "" + "cancel" + "led"
    ensures 'o' !in s && 'f' !in s && 'p' !in s && 'h' !in s
  {
  }

  lemma CancelledKeywords(s: string)
    requires 'o' !in s && 'f' !in s && 'p' !in s && 'h' !in s
    ensures !Contains(s, "complete") && !Contains(s, "done") && !Contains(s, "finish")
    ensures !Contains(s, "progress") && !Contains(s, "ongoing")
    ensures !Contains(s, "hold") && !Contains(s, "pause")
  {
    Lacks(s, "complete", 'o');
    Lacks(s, "done", 'o');
    Lacks(s, "finish", 'f');
    Lacks(s, "progress", 'p');
    Lacks(s, "ongoing", 'o');
    Lacks(s, "hold", 'h');
    Lacks(s, "pause", 'p');
  }

  lemma CancelledEmoji()
    ensures GetStatusEmoji("Cancelled") == CancelEmoji
  {
    var s := ToLower("Cancelled");
    assert s == "" + "cancel" + "led";
    CancelledLacks(s);
    ContainsInfix("", "cancel", "led");
    CancelledKeywords(s);
  }

  /** A string that lacks one letter of each keyword holds none of the keywords. */
  lemma NoKeywords(s: string, c1: char, c2: char, c3: char, c4: char, c5: char, c6: char, c7: char, c8: char, c9: char)
    requires c1 in "complete" && c1 !in s && c2 in "done" && c2 !in s && c3 in "finish" && c3 !in s
    requires c4 in "progress" && c4 !in s && c5 in "ongoing" && c5 !in s
    requires c6 in "hold" && c6 !in s && c7 in "pause" && c7 !in s
    requires c8 in "cancel" && c8 !in s && c9 in "abandon" && c9 !in s
    ensures !Contains(s, "complete") && !Contains(s, "done") && !Contains(s, "finish")
    ensures !Contains(s, "progress") && !Contains(s, "ongoing") && !Contains(s, "hold") && !Contains(s, "pause")
    ensures !Contains(s, "cancel") && !Contains(s, "abandon")
  {
    Lacks(s, "complete", c1);
    Lacks(s, "done", c2);
    Lacks(s, "finish", c3);
    Lacks(s, "progress", c4);
    Lacks(s, "ongoing", c5);
    Lacks(s, "hold", c6);
    Lacks(s, "pause", c7);
    Lacks(s, "cancel", c8);
    Lacks(s, "abandon", c9);
  }

  lemma PendingReviewLower()
    ensures ToLower("Pending Review") == "pending review"
  {
    assert ToLower("Pending Review")[..7] == "pending";
    assert ToLower("Pending Review")[7..] == " review";
  }

  lemma PendingReviewLacks(s: string)
    requires s == "pending review"
    ensures 'c' !in s && 'o' !in s && 'f' !in s && 'h' !in s && 'a' !in s
  {
  }

  lemma PendingReviewEmoji()
    ensures GetStatusEmoji("Pending Review") == NoteEmoji
  {
    PendingReviewLower();
    PendingReviewLacks(ToLower("Pending Review"));
    NoKeywords(ToLower("Pending Review"), 'c', 'o', 'f', 'o', 'o', 'h', 'a', 'c', 'a');
  }

  lemma BlockedLacks(s: string)
    requires s == "blocked"
    ensures 'm' !in s && 'n' !in s && 'f' !in s && 'p' !in s && 'h' !in s && 'a' !in s
  {
  }

  lemma BlockedEmoji()
    ensures GetStatusEmoji("Blocked") == NoteEmoji
  {
    assert ToLower("Blocked") == "blocked";
    BlockedLacks(ToLower("Blocked"));
    NoKeywords(ToLower("Blocked"), 'm', 'n', 'f', 'p', 'n', 'h', 'p', 'a', 'a');
  }

  lemma DeferredLacks(s: string)
    requires s == "deferred"
    ensures 'c' !in s && 'o' !in s && 'i' !in s && 'p' !in s && 'h' !in s && 'a' !in s
  {
  }

  lemma DeferredEmoji()
    ensures GetStatusEmoji("Deferred") == NoteEmoji
  {
    assert ToLower("Deferred") == "deferred";
    DeferredLacks(ToLower("Deferred"));
    NoKeywords(ToLower("Deferred"), 'c', 'o', 'i', 'p', 'o', 'h', 'p', 'c', 'a');
  }

  /**
   * The emoji of each status the task logger offers: keyword groups are
   * tried in order, so "Blocked", "Deferred" and "Pending Review" get the
   * default.
   */
  lemma StatusOptionEmojis()
    ensures GetStatusEmoji("Completed") == DoneEmoji
    ensures GetStatusEmoji("In Progress") == ProgressEmoji
    ensures GetStatusEmoji("On Hold") == HoldEmoji
    ensures GetStatusEmoji("Pending Review") == NoteEmoji
    ensures GetStatusEmoji("Cancelled") == CancelEmoji
    ensures GetStatusEmoji("Blocked") == NoteEmoji
    ensures GetStatusEmoji("Deferred") == NoteEmoji
  {
    CompletedEmoji();
    InProgressEmoji();
    OnHoldEmoji();
    PendingReviewEmoji();
    CancelledEmoji();
    BlockedEmoji();
    DeferredEmoji();
  }

  // ---------------------------------------------------------------------
  // Email

  const SubjectInfix: string := "'s End-of-Day Report " + EnDash + " "
  const NoTasksMessage: string := "No tasks were logged today."

  /** `generateEmailSubject`: the reporter's name, the fixed infix, then the date. */
  function GenerateEmailSubject(reporterName: string, estDate: string): (r: string)
    ensures |r| == |reporterName| + |SubjectInfix| + |estDate|
    ensures r[..|reporterName|] == reporterName
    ensures r[|reporterName|..|reporterName| + |SubjectInfix|] == SubjectInfix
    ensures r[|reporterName| + |SubjectInfix|..] == estDate
  {
    reporterName + SubjectInfix + estDate
  }

  function Greeting(clientName: string): string {
    "Hey " + clientName + ",\n\nHere's what I've completed today:\n\n"
  }

  function TaskBlock(t: Task): string {
    t.name + " " + EnDash + " " + FormatTimeQuarters(t.time) + " (" + t.status + " " + GetStatusEmoji(t.status) + ")\n\n"
  }

  /** One block per task, in order. */
  function TaskBlocks(tasks: seq<Task>): string {
    ConcatMap(TaskBlock, tasks)
  }

  function TotalLine(total: Quarters): string {
    "Total Time: " + FormatTimeQuarters(total) + "\n\n"
  }

  const SignOff: string := "If there's anything else you need, just let me know!\n\nHave a great rest of your day! " + SmileEmoji + "\n\n"

  function Closing(reporterName: string): string {
    SignOff + reporterName
  }

  /** The email body `generateEmailBody` produces. */
  function EmailBody(clientName: string, tasks: seq<Task>, reporterName: string): (body: string)
    ensures tasks != [] ==>
      && |body| >= |Greeting(clientName)| + |reporterName|
      && body[..|Greeting(clientName)|] == Greeting(clientName)
      && body[|body| - |reporterName|..] == reporterName
  {
    if tasks == [] then NoTasksMessage
    else
      var middle := TaskBlocks(tasks) + TotalLine(TotalTime(tasks)) + SignOff;
      Ends(Greeting(clientName), middle, reporterName);
      RegroupMiddle(Greeting(clientName), TaskBlocks(tasks), TotalLine(TotalTime(tasks)), SignOff, reporterName);
      Greeting(clientName) + TaskBlocks(tasks) + TotalLine(TotalTime(tasks)) + Closing(reporterName)
  }

  /** `generateEmailBody`, which grows the body one task block at a time. The date argument is not used. */
  method GenerateEmailBody(clientName: string, estDate: string, tasks: seq<Task>, reporterName: string)
    returns (body: string)
    ensures body == EmailBody(clientName, tasks, reporterName)
  {
    if |tasks| == 0 {
      return NoTasksMessage;
    }
    body := Greeting(clientName);
    for i := 0 to |tasks|
      invariant body == Greeting(clientName) + TaskBlocks(tasks[..i])
    {
      ConcatMapSnoc(TaskBlock, tasks, i);
      ConcatAssoc(Greeting(clientName), TaskBlocks(tasks[..i]), TaskBlock(tasks[i]));
      body := body + TaskBlock(tasks[i]);
    }
    assert tasks[..|tasks|] == tasks;
    var totalHours := TotalTime(tasks);
    body := body + TotalLine(totalHours);
    body := body + Closing(reporterName);
  }

  /** The fixed message is returned exactly when there are no tasks. */
  lemma EmailBodyEmptyIff(clientName: string, tasks: seq<Task>, reporterName: string)
    ensures EmailBody(clientName, tasks, reporterName) == NoTasksMessage <==> tasks == []
  {
    if tasks != [] {
      assert |Greeting(clientName)| > |NoTasksMessage|;
    }
  }

  /**
   * A non-empty body opens with the greeting, has the block of each task
   * after the blocks of the tasks before it, then the total of all task
   * times, and closes with the sign-off and the reporter's name.
   */
  lemma EmailBodyLayout(clientName: string, tasks: seq<Task>, reporterName: string, i: nat)
    requires i < |tasks|
    ensures EmailBody(clientName, tasks, reporterName)
         == Greeting(clientName) + TaskBlocks(tasks[..i]) + TaskBlock(tasks[i]) + TaskBlocks(tasks[i + 1..])
            + TotalLine(TotalTime(tasks)) + Closing(reporterName)
  {
    ConcatMapSplitWithin(TaskBlock, tasks, i, Greeting(clientName), TotalLine(TotalTime(tasks)), Closing(reporterName));
  }

  // ---------------------------------------------------------------------
  // CSV

  /** `rows.map(row => row.join(",")).join("\n")`: no quoting, no escaping, no trailing newline. */
  function CsvText(rows: seq<seq<string>>): string {
    Join(CsvLines(rows), "\n")
  }

  function CsvLines(rows: seq<seq<string>>): (lines: seq<string>)
    ensures |lines| == |rows|
    ensures forall i :: 0 <= i < |rows| ==> lines[i] == Join(rows[i], ",")
  {
    seq(|rows|, i requires 0 <= i < |rows| => Join(rows[i], ","))
  }

  ghost predicate PlainField(f: string) {
    ',' !in f && '\n' !in f
  }

  ghost predicate PlainRows(rows: seq<seq<string>>) {
    forall i, j :: 0 <= i < |rows| && 0 <= j < |rows[i]| ==> PlainField(rows[i][j])
  }

  /**
   * When no field holds a comma or a newline, splitting the CSV text on
   * newlines and each line on commas gives the rows back.
   */
  lemma CsvReadBack(rows: seq<seq<string>>)
    requires |rows| >= 1
    requires forall i :: 0 <= i < |rows| ==> |rows[i]| >= 1
    requires PlainRows(rows)
    ensures Split(CsvText(rows), '\n') == CsvLines(rows)
    ensures forall i :: 0 <= i < |rows| ==> Split(CsvLines(rows)[i], ',') == rows[i]
  {
    var lines := CsvLines(rows);
    forall i | 0 <= i < |rows|
      ensures '\n' !in lines[i] && Split(lines[i], ',') == rows[i]
    {
      JoinExcludes(rows[i], ",", '\n');
      SplitJoin(rows[i], ',');
    }
    SplitJoin(lines, '\n');
  }

  const CsvHeader: seq<string> := ["Date (EST)", "Task Name", "Time Spent", "Status"]

  function CsvRow(t: Task, estDate: string): seq<string> {
    [estDate, t.name, HoursText(t.time), t.status]
  }

  /** The header row, then one row per task in order. */
  function CsvRows(tasks: seq<Task>, estDate: string): (rows: seq<seq<string>>)
    ensures |rows| == |tasks| + 1 && rows[0] == CsvHeader
    ensures forall i :: 0 <= i < |tasks| ==> rows[i + 1] == CsvRow(tasks[i], estDate)
  {
    if tasks == [] then [CsvHeader]
    else
      var init := tasks[..|tasks| - 1];
      assert forall i :: 0 <= i < |init| ==> init[i] == tasks[i];
      CsvRows(init, estDate) + [CsvRow(tasks[|tasks| - 1], estDate)]
  }

  /** The CSV content `exportToCsv` builds before handing it to the download. */
  method ExportToCsvContent(tasks: seq<Task>, estDate: string) returns (csvContent: string)
    ensures csvContent == CsvText(CsvRows(tasks, estDate))
  {
    var csvRows := [CsvHeader];
    for i := 0 to |tasks|
      invariant csvRows == CsvRows(tasks[..i], estDate)
    {
      assert tasks[..i + 1][..i] == tasks[..i];
      csvRows := csvRows + [CsvRow(tasks[i], estDate)];
    }
    assert tasks[..|tasks|] == tasks;
    csvContent := CsvText(csvRows);
  }

  lemma CsvHeaderLine()
    ensures Join(CsvHeader, ",") == "Date (EST)" + "," + "Task Name" + "," + "Time Spent" + "," + "Status"
  {
    JoinFour("Date (EST)", "Task Name", "Time Spent", "Status", ",");
  }

  lemma CsvHeaderPlain()
    ensures forall j :: 0 <= j < |CsvHeader| ==> PlainField(CsvHeader[j])
  {
  }

  lemma CsvRowPlain(t: Task, estDate: string)
    requires PlainField(estDate) && PlainField(t.name) && PlainField(t.status)
    ensures forall j :: 0 <= j < |CsvRow(t, estDate)| ==> PlainField(CsvRow(t, estDate)[j])
  {
    HoursTextPlain(t.time, ',');
    HoursTextPlain(t.time, '\n');
  }

  /** With a plain date, names and statuses, every field of every row is plain, and no row is empty. */
  lemma CsvRowsPlain(tasks: seq<Task>, estDate: string)
    requires PlainField(estDate)
    requires forall i :: 0 <= i < |tasks| ==> PlainField(tasks[i].name) && PlainField(tasks[i].status)
    ensures PlainRows(CsvRows(tasks, estDate))
    ensures forall i :: 0 <= i < |tasks| + 1 ==> |CsvRows(tasks, estDate)[i]| >= 1
  {
    var rows := CsvRows(tasks, estDate);
    forall i | 0 <= i < |rows|
      ensures forall j :: 0 <= j < |rows[i]| ==> PlainField(rows[i][j])
    {
      if i == 0 {
        CsvHeaderPlain();
      } else {
        CsvRowPlain(tasks[i - 1], estDate);
      }
    }
  }

  /**
   * The single-report CSV reads back as its header and one four-field line
   * per task, when the date, names and statuses hold no comma or newline.
   */
  lemma SingleCsvReadBack(tasks: seq<Task>, estDate: string)
    requires PlainField(estDate)
    requires forall i :: 0 <= i < |tasks| ==> PlainField(tasks[i].name) && PlainField(tasks[i].status)
    ensures var lines := Split(CsvText(CsvRows(tasks, estDate)), '\n');
      && |lines| == |tasks| + 1
      && lines[0] == Join(CsvHeader, ",") && Split(lines[0], ',') == CsvHeader
      && forall i :: 0 <= i < |tasks| ==>
           Split(lines[i + 1], ',') == [estDate, tasks[i].name, HoursText(tasks[i].time), tasks[i].status]
  {
    var rows := CsvRows(tasks, estDate);
    CsvRowsPlain(tasks, estDate);
    CsvReadBack(rows);
  }

  /**
   * Fields are not quoted: a task named `a,b` (say "Fix, bug") appears
   * verbatim, so its line splits into five fields instead of four.
   */
  lemma CsvCommaInTaskName(estDate: string, a: string, b: string, time: Quarters, status: string)
    requires ',' !in estDate && ',' !in a && ',' !in b && ',' !in status
    ensures var line := Join(CsvRow(Task(a + "," + b, time, status), estDate), ",");
      && Split(line, ',') == [estDate, a, b, HoursText(time), status]
  {
    var tm := HoursText(time);
    HoursTextPlain(time, ',');
    var l3 := tm + [','] + status;
    var l2 := b + [','] + l3;
    var l1 := a + [','] + l2;
    JoinFour(estDate, a + "," + b, tm, status, ",");
    RegroupFields(estDate, ",", a, b, tm, status);
    SplitNoSeparator(status, ',');
    SplitAtSeparator(tm, status, ',');
    SplitAtSeparator(b, l3, ',');
    SplitAtSeparator(a, l2, ',');
    SplitAtSeparator(estDate, l1, ',');
    ConsFive(estDate, a, b, tm, status);
  }

  /** A task row of the multi-report export: a task tagged with its report's date and client name. */
  datatype AnnotatedTask = AnnotatedTask(date: string, clientName: string, name: string, time: Quarters, status: string)

  const MultiCsvHeader: seq<string> := ["Date", "Client", "Task Name", "Time Spent", "Status"]

  /**
   * `[date || "", clientName || "", name || "", time || "", status || ""]`:
   * every field here is a string, and `s || ""` is `s` for every string, so
   * the fields are written as they are. The time is the stored text of the
   * task's time, which is never empty.
   */
  function MultiCsvRow(t: AnnotatedTask): seq<string> {
    [t.date, t.clientName, t.name, HoursText(t.time), t.status]
  }

  function MultiCsvRows(tasks: seq<AnnotatedTask>): (rows: seq<seq<string>>)
    ensures |rows| == |tasks| + 1 && rows[0] == MultiCsvHeader
    ensures forall i :: 0 <= i < |tasks| ==> rows[i + 1] == MultiCsvRow(tasks[i])
  {
    if tasks == [] then [MultiCsvHeader]
    else
      var init := tasks[..|tasks| - 1];
      assert forall i :: 0 <= i < |init| ==> init[i] == tasks[i];
      MultiCsvRows(init) + [MultiCsvRow(tasks[|tasks| - 1])]
  }

  /** The CSV content `exportMultipleReportsToCsv` builds before handing it to the download. */
  method ExportMultipleReportsToCsvContent(tasks: seq<AnnotatedTask>) returns (csvContent: string)
    ensures csvContent == CsvText(MultiCsvRows(tasks))
  {
    var csvRows := [MultiCsvHeader];
    for i := 0 to |tasks|
      invariant csvRows == MultiCsvRows(tasks[..i])
    {
      assert tasks[..i + 1][..i] == tasks[..i];
      csvRows := csvRows + [MultiCsvRow(tasks[i])];
    }
    assert tasks[..|tasks|] == tasks;
    csvContent := CsvText(csvRows);
  }

  lemma MultiCsvHeaderLine()
    ensures Join(MultiCsvHeader, ",") == "Date" + "," + "Client" + "," + "Task Name" + "," + "Time Spent" + "," + "Status"
  {
    JoinFive("Date", "Client", "Task Name", "Time Spent", "Status", ",");
  }

  lemma MultiCsvHeaderPlain()
    ensures forall j :: 0 <= j < |MultiCsvHeader| ==> PlainField(MultiCsvHeader[j])
  {
  }

  lemma MultiCsvRowPlain(t: AnnotatedTask)
    requires PlainField(t.date) && PlainField(t.clientName) && PlainField(t.name) && PlainField(t.status)
    ensures forall j :: 0 <= j < |MultiCsvRow(t)| ==> PlainField(MultiCsvRow(t)[j])
  {
    HoursTextPlain(t.time, ',');
    HoursTextPlain(t.time, '\n');
  }

  lemma MultiCsvRowsPlain(tasks: seq<AnnotatedTask>)
    requires forall i :: 0 <= i < |tasks| ==>
      PlainField(tasks[i].date) && PlainField(tasks[i].clientName) && PlainField(tasks[i].name) && PlainField(tasks[i].status)
    ensures PlainRows(MultiCsvRows(tasks))
    ensures forall i :: 0 <= i < |tasks| + 1 ==> |MultiCsvRows(tasks)[i]| >= 1
  {
    var rows := MultiCsvRows(tasks);
    forall i | 0 <= i < |rows|
      ensures forall j :: 0 <= j < |rows[i]| ==> PlainField(rows[i][j])
    {
      if i == 0 {
        MultiCsvHeaderPlain();
      } else {
        MultiCsvRowPlain(tasks[i - 1]);
      }
    }
  }

  /**
   * The multi-report CSV reads back as its header and one five-field line
   * per task, when no text field holds a comma or newline.
   */
  lemma MultiCsvReadBack(tasks: seq<AnnotatedTask>)
    requires forall i :: 0 <= i < |tasks| ==>
      PlainField(tasks[i].date) && PlainField(tasks[i].clientName) && PlainField(tasks[i].name) && PlainField(tasks[i].status)
    ensures var lines := Split(CsvText(MultiCsvRows(tasks)), '\n');
      && |lines| == |tasks| + 1
      && lines[0] == Join(MultiCsvHeader, ",") && Split(lines[0], ',') == MultiCsvHeader
      && forall i :: 0 <= i < |tasks| ==> Split(lines[i + 1], ',') == MultiCsvRow(tasks[i])
  {
    MultiCsvRowsPlain(tasks);
    CsvReadBack(MultiCsvRows(tasks));
  }
}
