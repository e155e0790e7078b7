/** The maintenance task board: a list of tasks seeded with four sample tasks, a
    status filter, and a dialog that appends a new task numbered after the list. */
module MaintenanceTable {
  import opened Text
  import opened ListOps

  datatype Status = Pending | InProgress | Done

  function StatusText(s: Status): string
  {
    match s
    case Pending => "Pending"
    case InProgress => "In Progress"
    case Done => "Done"
  }

  /** A maintenance task; `kind` holds its `type` field. */
  datatype Task = Task(id: int, task: string, kind: string, status: Status, dueDate: string, assignedTo: string)

  /** The dialog's draft of a new task. */
  datatype Draft = Draft(task: string, kind: string, status: Status, dueDate: string, assignedTo: string)

  const EmptyDraft := Draft("", "", Pending, "", "")

  const InitialTasks: seq<Task> := [
    Task(1, "Fix leaking pipe – Unit 2B", "Plumbing", InProgress, "2025-10-28", "John D."),
    Task(2, "Paint hallway walls – Building A", "Renovation", Pending, "2025-10-30", "Maria L."),
    Task(3, "Inspect fire alarms – Building C", "Inspection", Done, "2025-10-24", "Daniel K."),
    Task(4, "Replace broken window – Unit 1A", "Repair", Pending, "2025-10-29", "Alex R.")
  ]

  /** A task at position `i` has id `i + 1`. */
  predicate NumberedFromOne(tasks: seq<Task>)
  {
    forall i :: 0 <= i < |tasks| ==> tasks[i].id == i + 1
  }

  lemma InitialTasksNumbered()
    ensures NumberedFromOne(InitialTasks)
  {
  }

  /** Numbered tasks have distinct ids. */
  lemma NumberedIdsDistinct(tasks: seq<Task>)
    requires NumberedFromOne(tasks)
    ensures forall i, j :: 0 <= i < j < |tasks| ==> tasks[i].id != tasks[j].id
  {
  }

  function HasStatus(filter: string): Task -> bool
  {
    (t: Task) => StatusText(t.status) == filter
  }

  /** Tasks shown for a filter: all of them for `"all"`, else those whose
      status is the filter, in list order. */
  function FilteredTasks(tasks: seq<Task>, filter: string): (r: seq<Task>)
    ensures filter == "all" ==> r == tasks
    ensures filter != "all" ==> forall t :: t in r <==> t in tasks && StatusText(t.status) == filter
  {
    if filter == "all" then tasks else Filter(tasks, HasStatus(filter))
  }

  /** A filter other than `"all"` that is no status label shows nothing. */
  lemma UnknownFilterShowsNothing(tasks: seq<Task>, filter: string)
    requires filter != "all" && filter != "Pending" && filter != "In Progress" && filter != "Done"
    ensures FilteredTasks(tasks, filter) == []
  {
    FilterNone(tasks, HasStatus(filter));
  }

  /** The three status filters split the list: every task is shown under exactly one. */
  lemma {:induction false} StatusFiltersPartition(tasks: seq<Task>)
    ensures |FilteredTasks(tasks, "Pending")| + |FilteredTasks(tasks, "In Progress")| + |FilteredTasks(tasks, "Done")| == |tasks|
  {
    var p, q, d := HasStatus("Pending"), HasStatus("In Progress"), HasStatus("Done");
    assert FilteredTasks(tasks, "Pending") == Filter(tasks, p);
    assert FilteredTasks(tasks, "In Progress") == Filter(tasks, q);
    assert FilteredTasks(tasks, "Done") == Filter(tasks, d);
    if tasks != [] {
      StatusFiltersPartition(tasks[1..]);
      assert FilteredTasks(tasks[1..], "Pending") == Filter(tasks[1..], p);
      assert FilteredTasks(tasks[1..], "In Progress") == Filter(tasks[1..], q);
      assert FilteredTasks(tasks[1..], "Done") == Filter(tasks[1..], d);
      assert (if p(tasks[0]) then 1 else 0) + (if q(tasks[0]) then 1 else 0) + (if d(tasks[0]) then 1 else 0) == 1;
    }
  }

  class Board {
    var tasks: seq<Task>
    var newTask: Draft
    var open: bool

    ghost predicate Valid()
      reads this
    {
      NumberedFromOne(tasks)
    }

    constructor ()
      ensures Valid()
      ensures tasks == InitialTasks && newTask == EmptyDraft && !open
    {
      tasks, newTask, open := InitialTasks, EmptyDraft, false;
    }

    /** `handleAddTask`: a task name that is blank after trimming raises the alert
        and changes nothing; otherwise the draft is appended with the next id, the
        draft is reset and the dialog closes. */
    method HandleAddTask() returns (alerted: bool)
      requires Valid()
      modifies this
      ensures Valid()
      ensures alerted <==> Trim(old(newTask).task) == []
      ensures alerted ==> tasks == old(tasks) && newTask == old(newTask) && open == old(open)
      ensures !alerted ==>
                var d := old(newTask);
                tasks == old(tasks) + [Task(|old(tasks)| + 1, d.task, d.kind, d.status, d.dueDate, d.assignedTo)]
                && newTask == EmptyDraft && !open
    {
      if Trim(newTask.task) == [] {
        return true;
      }
      var d := newTask;
      tasks := tasks + [Task(|tasks| + 1, d.task, d.kind, d.status, d.dueDate, d.assignedTo)];
      newTask := EmptyDraft;
      open := false;
      alerted := false;
    }
  }

  /** A task whose name has a non-space character is accepted. */
  lemma NamedTaskAccepted(name: string, i: int)
    requires 0 <= i < |name| && !IsSpace(name[i])
    ensures Trim(name) != []
  {
    TrimEmptyIff(name);
  }
}
