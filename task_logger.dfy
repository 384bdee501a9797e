/**
 * The task-logging screen: the task list, the running total and the entry
 * form, kept within the daily limit of the configured work mode.
 *
 * Times are quarter-hours, as in `Tasks`. What the user typed in the time
 * input is modelled by what `parseFloat` makes of it.
 */
module TaskLogger {
  import opened Wrappers
  import opened Tasks

  /** The time input: empty, text that is not a number, or a number of quarter-hours (possibly zero or negative). */
  datatype TimeInput = Blank | NotANumber | Number(quarters: int)

  /** The entry form's three inputs. */
  datatype TaskEntry = TaskEntry(name: string, time: TimeInput, status: string)

  const EmptyEntry: TaskEntry := TaskEntry("", Blank, "")

  /** The statuses the form offers, in menu order. */
  const StatusOptions: seq<string> := ["Completed", "In Progress", "On Hold", "Pending Review", "Cancelled", "Blocked", "Deferred"]

  const FullTimeLimit: Quarters := 28
  const PartTimeLimit: Quarters := 16

  /** Seven hours for "Full-Time", four hours for any other work mode and when there is no configuration. */
  function DailyLimit(workMode: Option<string>): (limit: Quarters)
    ensures workMode == Some("Full-Time") ==> limit == FullTimeLimit
    ensures workMode != Some("Full-Time") ==> limit == PartTimeLimit
  {
    if workMode == Some("Full-Time") then FullTimeLimit else PartTimeLimit
  }

  /** Why `handleAddTask` did or did not add the entry. */
  datatype AddOutcome = Added | Incomplete | NotPositive | OverLimit(limit: Quarters)

  /** The outcome `handleAddTask` reaches for an entry, given the total so far and the limit. */
  function AddDecision(entry: TaskEntry, total: int, limit: Quarters): (o: AddOutcome)
    ensures o == Added <==>
      entry.name != "" && entry.status != "" && entry.time.Number? && entry.time.quarters > 0
      && total + entry.time.quarters <= limit
    ensures o.OverLimit? ==> o.limit == limit && entry.time.Number? && total + entry.time.quarters > limit
  {
    if entry.name == "" || entry.time.Blank? || entry.status == "" then Incomplete
    else if entry.time.NotANumber? || entry.time.quarters <= 0 then NotPositive
    else if total + entry.time.quarters > limit then OverLimit(limit)
    else Added
  }

  class TaskLoggerView {
    /** The work mode of the configuration, `None` when there is none. */
    const workMode: Option<string>
    var tasks: seq<Task>
    var totalHours: int
    var currentTask: TaskEntry

    /** The total is the sum of the task times and stays within the daily limit. */
    ghost predicate Valid()
      reads this
    {
      totalHours == TotalTime(tasks) && totalHours <= DailyLimit(workMode)
    }

    function Limit(): Quarters {
      DailyLimit(workMode)
    }

    /** `remainingHours`: never negative while the total is within the limit. */
    function RemainingHours(): (r: int)
      reads this
      ensures Valid() ==> 0 <= r <= Limit()
      ensures r + totalHours == Limit()
    {
      Limit() - totalHours
    }

    constructor(mode: Option<string>)
      ensures Valid()
      ensures workMode == mode && tasks == [] && totalHours == 0 && currentTask == EmptyEntry
    {
      workMode := mode;
      tasks := [];
      totalHours := 0;
      currentTask := EmptyEntry;
    }

    method SetEntry(entry: TaskEntry)
      modifies this
      ensures currentTask == entry && tasks == old(tasks) && totalHours == old(totalHours)
    {
      currentTask := entry;
    }

    /**
     * `handleAddTask`: an incomplete, non-positive or over-limit entry
     * changes nothing (the last one raises an alert naming the limit); an
     * accepted entry is appended, its time added to the total, and the form
     * cleared.
     */
    method HandleAddTask() returns (outcome: AddOutcome)
      requires Valid()
      modifies this
      ensures Valid()
      ensures outcome == AddDecision(old(currentTask), old(totalHours), Limit())
      ensures outcome != Added ==>
        tasks == old(tasks) && totalHours == old(totalHours) && currentTask == old(currentTask)
      ensures outcome == Added ==>
        && tasks == old(tasks) + [Task(old(currentTask).name, old(currentTask).time.quarters, old(currentTask).status)]
        && totalHours == old(totalHours) + old(currentTask).time.quarters
        && currentTask == EmptyEntry
    {
      if currentTask.name == "" || currentTask.time.Blank? || currentTask.status == "" {
        return Incomplete;
      }
      if currentTask.time.NotANumber? || currentTask.time.quarters <= 0 {
        return NotPositive;
      }
      var timeSpent := currentTask.time.quarters;
      if totalHours + timeSpent > Limit() {
        return OverLimit(Limit());
      }
      var newTask := Task(currentTask.name, timeSpent, currentTask.status);
      TotalTimeAppend(tasks, [newTask]);
      assert TotalTime([newTask]) == timeSpent by {
        assert [newTask][..0] == [];
      }
      tasks := tasks + [newTask];
      totalHours := totalHours + timeSpent;
      currentTask := EmptyEntry;
      outcome := Added;
    }

    /** `handleRemoveTask(index)`: removes exactly that task, keeps the others in order, and subtracts its time. */
    method HandleRemoveTask(index: nat)
      requires Valid() && index < |tasks|
      modifies this
      ensures Valid()
      ensures tasks == old(tasks[..index] + tasks[index + 1..])
      ensures totalHours == old(totalHours) - old(tasks[index].time)
      ensures currentTask == old(currentTask)
    {
      var taskToRemove := tasks[index];
      TotalTimeRemoveAt(tasks, index);
      tasks := tasks[..index] + tasks[index + 1..];
      totalHours := totalHours - taskToRemove.time;
    }

    /** `handleComplete`: hands the task list on only when it is not empty. */
    method HandleComplete() returns (completed: Option<seq<Task>>)
      ensures completed.Some? <==> tasks != []
      ensures completed.Some? ==> completed.value == tasks
    {
      if |tasks| == 0 {
        return None;
      }
      return Some(tasks);
    }
  }

  /** Every task the logger accepted has a positive time. */
  lemma AddedTaskPositive(entry: TaskEntry, total: int, limit: Quarters)
    requires AddDecision(entry, total, limit) == Added
    ensures entry.time.quarters > 0 && total + entry.time.quarters <= limit
  {
  }

  /** Reaching the limit exactly is allowed; going one quarter-hour over it is not. */
  lemma LimitIsInclusive(name: string, status: string, total: int, limit: Quarters)
    requires name != "" && status != "" && total < limit
    ensures AddDecision(TaskEntry(name, Number(limit - total), status), total, limit) == Added
    ensures AddDecision(TaskEntry(name, Number(limit - total + 1), status), total, limit) == OverLimit(limit)
  {
  }
}
