/** The `Tasks` page: a client-side task list grouped into overdue, due
    today, due this week, upcoming and completed sections, with toggle,
    delete and create. Due dates are day numbers; the page's `YYYY-MM-DD`
    strings compare in the same order. */
module Tasks {

  import opened Wrappers
  import opened Seqs

  datatype Priority = Low | Medium | High

  datatype Task = Task(
    id: int,
    title: string,
    description: string,
    dueDate: int,
    priority: Priority,
    assignedTo: string,
    completed: bool)

  /** The days from today to the end of the "this week" section. */
  const WeekAhead: int := 7

  datatype Sections = Sections(
    overdue: seq<Task>,
    dueToday: seq<Task>,
    dueWeek: seq<Task>,
    upcoming: seq<Task>,
    completed: seq<Task>)

  function IsOverdue(today: int): Task -> bool {
    (t: Task) => !t.completed && t.dueDate < today
  }

  function IsDueToday(today: int): Task -> bool {
    (t: Task) => !t.completed && t.dueDate == today
  }

  function IsDueWeek(today: int, nextWeek: int): Task -> bool {
    (t: Task) => !t.completed && t.dueDate > today && t.dueDate <= nextWeek
  }

  function IsUpcoming(nextWeek: int): Task -> bool {
    (t: Task) => !t.completed && t.dueDate > nextWeek
  }

  function IsCompleted(): Task -> bool {
    (t: Task) => t.completed
  }

  /** The five filters of `sections`, for the boundaries `today` and
      `nextWeek`: each section holds exactly the tasks its condition picks,
      in list order. */
  function SectionsFor(tasks: seq<Task>, today: int, nextWeek: int): (s: Sections)
    ensures forall t :: t in s.overdue <==> t in tasks && !t.completed && t.dueDate < today
    ensures forall t :: t in s.dueToday <==> t in tasks && !t.completed && t.dueDate == today
    ensures forall t :: t in s.dueWeek <==> t in tasks && !t.completed && today < t.dueDate <= nextWeek
    ensures forall t :: t in s.upcoming <==> t in tasks && !t.completed && t.dueDate > nextWeek
    ensures forall t :: t in s.completed <==> t in tasks && t.completed
    ensures SubSeq(s.overdue, tasks) && SubSeq(s.dueToday, tasks) && SubSeq(s.dueWeek, tasks)
    ensures SubSeq(s.upcoming, tasks) && SubSeq(s.completed, tasks)
  {
    FilterIsSubSeq(tasks, IsOverdue(today));
    FilterIsSubSeq(tasks, IsDueToday(today));
    FilterIsSubSeq(tasks, IsDueWeek(today, nextWeek));
    FilterIsSubSeq(tasks, IsUpcoming(nextWeek));
    FilterIsSubSeq(tasks, IsCompleted());
    Sections(Filter(tasks, IsOverdue(today)),
             Filter(tasks, IsDueToday(today)),
             Filter(tasks, IsDueWeek(today, nextWeek)),
             Filter(tasks, IsUpcoming(nextWeek)),
             Filter(tasks, IsCompleted()))
  }

  lemma OverdueCount(tasks: seq<Task>, today: int, nextWeek: int)
    ensures forall t ::
      multiset(SectionsFor(tasks, today, nextWeek).overdue)[t]
        == (if !t.completed && t.dueDate < today then multiset(tasks)[t] else 0)
  {
    FilterCount(tasks, IsOverdue(today));
  }

  lemma DueTodayCount(tasks: seq<Task>, today: int, nextWeek: int)
    ensures forall t ::
      multiset(SectionsFor(tasks, today, nextWeek).dueToday)[t]
        == (if !t.completed && t.dueDate == today then multiset(tasks)[t] else 0)
  {
    FilterCount(tasks, IsDueToday(today));
  }

  lemma DueWeekCount(tasks: seq<Task>, today: int, nextWeek: int)
    ensures forall t ::
      multiset(SectionsFor(tasks, today, nextWeek).dueWeek)[t]
        == (if !t.completed && today < t.dueDate <= nextWeek then multiset(tasks)[t] else 0)
  {
    FilterCount(tasks, IsDueWeek(today, nextWeek));
  }

  lemma UpcomingCount(tasks: seq<Task>, today: int, nextWeek: int)
    ensures forall t ::
      multiset(SectionsFor(tasks, today, nextWeek).upcoming)[t]
        == (if !t.completed && t.dueDate > nextWeek then multiset(tasks)[t] else 0)
  {
    FilterCount(tasks, IsUpcoming(nextWeek));
  }

  lemma CompletedCount(tasks: seq<Task>, today: int, nextWeek: int)
    ensures forall t ::
      multiset(SectionsFor(tasks, today, nextWeek).completed)[t]
        == (if t.completed then multiset(tasks)[t] else 0)
  {
    FilterCount(tasks, IsCompleted());
  }

  /** Each section holds every copy of the tasks its condition picks and
      no copy of any other. */
  lemma SectionCounts(tasks: seq<Task>, today: int, nextWeek: int)
    ensures forall t ::
      multiset(SectionsFor(tasks, today, nextWeek).overdue)[t]
        == (if !t.completed && t.dueDate < today then multiset(tasks)[t] else 0)
    ensures forall t ::
      multiset(SectionsFor(tasks, today, nextWeek).dueToday)[t]
        == (if !t.completed && t.dueDate == today then multiset(tasks)[t] else 0)
    ensures forall t ::
      multiset(SectionsFor(tasks, today, nextWeek).dueWeek)[t]
        == (if !t.completed && today < t.dueDate <= nextWeek then multiset(tasks)[t] else 0)
    ensures forall t ::
      multiset(SectionsFor(tasks, today, nextWeek).upcoming)[t]
        == (if !t.completed && t.dueDate > nextWeek then multiset(tasks)[t] else 0)
    ensures forall t ::
      multiset(SectionsFor(tasks, today, nextWeek).completed)[t]
        == (if t.completed then multiset(tasks)[t] else 0)
  {
    OverdueCount(tasks, today, nextWeek);
    DueTodayCount(tasks, today, nextWeek);
    DueWeekCount(tasks, today, nextWeek);
    UpcomingCount(tasks, today, nextWeek);
    CompletedCount(tasks, today, nextWeek);
  }

  /** The page's sections, with the week ending seven days from today. Each
      section keeps the list order. */
  function Categorize(tasks: seq<Task>, today: int): (s: Sections)
    ensures s == SectionsFor(tasks, today, today + WeekAhead)
  {
    SectionsFor(tasks, today, today + WeekAhead)
  }

  /** The sections' contents all together. */
  function AllOf(s: Sections): multiset<Task> {
    multiset(s.overdue) + multiset(s.dueToday) + multiset(s.dueWeek) + multiset(s.upcoming) + multiset(s.completed)
  }

  /** With the week ending no earlier than today, one task's copies all land
      in the one section its state and due date pick. */
  lemma PartitionAt(tasks: seq<Task>, today: int, nextWeek: int, t: Task)
    requires today <= nextWeek
    ensures AllOf(SectionsFor(tasks, today, nextWeek))[t] == multiset(tasks)[t]
  {
    var s := SectionsFor(tasks, today, nextWeek);
    SectionCounts(tasks, today, nextWeek);
    assert AllOf(s)[t] == multiset(s.overdue)[t] + multiset(s.dueToday)[t] + multiset(s.dueWeek)[t]
                          + multiset(s.upcoming)[t] + multiset(s.completed)[t];
  }

  /** When the week ends no earlier than today, every task lands in exactly
      one section: the sections together hold each task as often as the list
      does. */
  lemma SectionsPartition(tasks: seq<Task>, today: int, nextWeek: int)
    requires today <= nextWeek
    ensures AllOf(SectionsFor(tasks, today, nextWeek)) == multiset(tasks)
  {
    forall t ensures AllOf(SectionsFor(tasks, today, nextWeek))[t] == multiset(tasks)[t] {
      PartitionAt(tasks, today, nextWeek, t);
    }
  }

  /** The page's grouping loses and duplicates nothing. */
  lemma CategorizePartition(tasks: seq<Task>, today: int)
    ensures AllOf(Categorize(tasks, today)) == multiset(tasks)
  {
    SectionsPartition(tasks, today, today + WeekAhead);
  }

  /** The header's "tasks due soon": open tasks due today or earlier. */
  function DueSoonCount(tasks: seq<Task>, today: int): nat {
    var s := Categorize(tasks, today);
    |s.dueToday| + |s.overdue|
  }

  /** The count of tasks due soon is the number of open tasks due today or
      earlier. */
  lemma {:induction false} DueSoonCountsOpenTasksDueByToday(tasks: seq<Task>, today: int)
    ensures DueSoonCount(tasks, today) == |Filter(tasks, (t: Task) => !t.completed && t.dueDate <= today)|
    decreases |tasks|
  {
    if |tasks| > 0 {
      DueSoonCountsOpenTasksDueByToday(tasks[1..], today);
    }
  }

  /** `toggleTask(id)`: flips `completed` on every task with that id. */
  function ToggleTask(tasks: seq<Task>, id: int): (r: seq<Task>)
    ensures |r| == |tasks|
    ensures forall i :: 0 <= i < |tasks| ==>
      r[i] == (if tasks[i].id == id then tasks[i].(completed := !tasks[i].completed) else tasks[i])
  {
    seq(|tasks|, i requires 0 <= i < |tasks| =>
      if tasks[i].id == id then tasks[i].(completed := !tasks[i].completed) else tasks[i])
  }

  /** Toggling the same task twice gives back the list. */
  lemma ToggleTwiceRestores(tasks: seq<Task>, id: int)
    ensures ToggleTask(ToggleTask(tasks, id), id) == tasks
  {
    var r := ToggleTask(ToggleTask(tasks, id), id);
    assert forall i :: 0 <= i < |tasks| ==> r[i] == tasks[i];
  }

  /** Toggling moves a task between the open sections and the completed
      one and changes nothing else about it. */
  lemma ToggleMovesSection(tasks: seq<Task>, id: int, today: int)
    ensures forall t :: t in ToggleTask(tasks, id) && t.id != id ==> t in tasks
    ensures forall t :: t in tasks && t.id == id ==>
      t.(completed := !t.completed) in ToggleTask(tasks, id)
  {
    var r := ToggleTask(tasks, id);
    forall t | t in r && t.id != id ensures t in tasks {
      var i :| 0 <= i < |r| && r[i] == t;
      assert tasks[i] == t;
    }
    forall t | t in tasks && t.id == id ensures t.(completed := !t.completed) in r {
      var i :| 0 <= i < |tasks| && tasks[i] == t;
      assert r[i] == t.(completed := !t.completed);
    }
  }

  /** `deleteTask(id)`: every task with that id goes, the rest stay in
      order. */
  function DeleteTask(tasks: seq<Task>, id: int): (r: seq<Task>)
    ensures forall t :: t in r <==> t in tasks && t.id != id
    ensures forall t :: multiset(r)[t] == (if t.id != id then multiset(tasks)[t] else 0)
    ensures SubSeq(r, tasks)
  {
    FilterCount(tasks, (t: Task) => t.id != id);
    FilterIsSubSeq(tasks, (t: Task) => t.id != id);
    Filter(tasks, (t: Task) => t.id != id)
  }

  /** Deleting an id no task has leaves the list as it is. */
  lemma DeleteAbsentIsIdentity(tasks: seq<Task>, id: int)
    requires forall t :: t in tasks ==> t.id != id
    ensures DeleteTask(tasks, id) == tasks
  {
    FilterKeepsAll(tasks, (t: Task) => t.id != id);
  }

  /** The create form. An empty date input is None. */
  datatype TaskForm = TaskForm(
    title: string,
    description: string,
    dueDate: Option<int>,
    priority: Option<Priority>,
    assignedTo: string)

  /** The form as the page opens it and resets it: due tomorrow, medium
      priority. */
  function FreshForm(today: int): TaskForm {
    TaskForm("", "", Some(today + 1), Some(Medium), "Alex Mercer")
  }

  /** `createTask`: nothing without a title; otherwise a new open task,
      stamped with the clock `now` as its id, in front of the list, with
      today, medium priority and `Me` filling in empty fields. */
  function CreateTask(tasks: seq<Task>, form: TaskForm, now: int, today: int): (r: seq<Task>)
    ensures form.title == "" ==> r == tasks
    ensures form.title != "" ==> |r| == |tasks| + 1 && r[1..] == tasks
    ensures form.title != "" ==>
      && r[0].id == now && r[0].title == form.title && !r[0].completed
      && r[0].description == form.description
      && r[0].dueDate == (if form.dueDate.Some? then form.dueDate.value else today)
      && r[0].priority == (if form.priority.Some? then form.priority.value else Medium)
      && r[0].assignedTo == (if form.assignedTo != "" then form.assignedTo else "Me")
  {
    if form.title == "" then tasks
    else
      var task := Task(now, form.title, form.description,
                       if form.dueDate.Some? then form.dueDate.value else today,
                       if form.priority.Some? then form.priority.value else Medium,
                       if form.assignedTo != "" then form.assignedTo else "Me",
                       false);
      [task] + tasks
  }

  /** Creating a task and then deleting it gives back the list, as long as
      the clock reading was not already some task's id. */
  lemma CreateThenDelete(tasks: seq<Task>, form: TaskForm, now: int, today: int)
    requires forall t :: t in tasks ==> t.id != now
    ensures DeleteTask(CreateTask(tasks, form, now, today), now) == tasks
  {
    var r := CreateTask(tasks, form, now, today);
    DeleteAbsentIsIdentity(tasks, now);
    if form.title != "" {
      assert r == [r[0]] + tasks;
      assert DeleteTask(r, now) == Filter(r, (t: Task) => t.id != now);
      assert Filter(r, (t: Task) => t.id != now) == Filter(r[1..], (t: Task) => t.id != now);
    }
  }

  /** A new task goes into the section its due date calls for. */
  lemma NewTaskSection(tasks: seq<Task>, form: TaskForm, now: int, today: int)
    requires form.title != ""
    ensures var t := CreateTask(tasks, form, now, today)[0];
      var s := Categorize(CreateTask(tasks, form, now, today), today);
      && (form.dueDate.None? ==> t in s.dueToday)
      && (form.dueDate == Some(today + 1) ==> t in s.dueWeek)
  {
  }
}
