/** The tasks view (src/components/views/TasksView.tsx): adding a task from the
    form, renaming one, the status filter, and the sections the open tasks are
    sorted into by due date.

    Dates are compared through a `Clock`: the current time, the calendar day a
    time falls on in the user's time zone, and the time seven days from now.
    These stand for `new Date()`, `isToday` and `addDays(new Date(), 7)` of the
    date library; every check reads the same clock. */
module Tasks {
  import opened Common
  import opened Types
  import opened Store

  datatype Clock = Clock(now: Time, dayOf: Time -> int, weekAhead: Time)

  predicate IsToday(c: Clock, d: Time) { c.dayOf(d) == c.dayOf(c.now) }
  predicate IsPast(c: Clock, d: Time) { d < c.now }
  predicate IsFuture(c: Clock, d: Time) { d > c.now }
  /** `isWithinInterval(d, { start: new Date(), end: addDays(new Date(), 7) })`. */
  predicate WithinWeek(c: Clock, d: Time) { c.now <= d <= c.weekAhead }

  // ---------------------------------------------------------------------------
  // The status filter
  // ---------------------------------------------------------------------------

  datatype StatusFilter = All | Active | Done

  function StatusTest(f: StatusFilter): Task -> bool {
    (t: Task) => match f
      case Active => !t.completed
      case Done => t.completed
      case All => true
  }

  /** `filteredTasks`. */
  function Shown(tasks: seq<Task>, f: StatusFilter): seq<Task> {
    Filter(tasks, StatusTest(f))
  }

  // ---------------------------------------------------------------------------
  // The sections, as the view computes them
  // ---------------------------------------------------------------------------

  predicate IsOverdue(c: Clock, t: Task) {
    !t.completed && t.dueDate.Some? && IsPast(c, t.dueDate.value) && !IsToday(c, t.dueDate.value)
  }

  predicate IsDueToday(c: Clock, t: Task) {
    !t.completed && t.dueDate.Some? && IsToday(c, t.dueDate.value)
  }

  predicate IsUpcoming(c: Clock, t: Task) {
    !t.completed && t.dueDate.Some? && IsFuture(c, t.dueDate.value) && WithinWeek(c, t.dueDate.value)
  }

  /** `laterTasks` tests membership in the upcoming list it was given. */
  predicate IsLaterThan(c: Clock, t: Task, upcoming: seq<Task>) {
    !t.completed && t.dueDate.Some? && IsFuture(c, t.dueDate.value) && t !in upcoming
  }

  predicate HasNoDueDate(t: Task) { !t.completed && t.dueDate.None? }
  predicate IsCompleted(t: Task) { t.completed }

  function OverdueTest(c: Clock): Task -> bool { (t: Task) => IsOverdue(c, t) }
  function TodayTest(c: Clock): Task -> bool { (t: Task) => IsDueToday(c, t) }
  function UpcomingTest(c: Clock): Task -> bool { (t: Task) => IsUpcoming(c, t) }
  function LaterTest(c: Clock, upcoming: seq<Task>): Task -> bool { (t: Task) => IsLaterThan(c, t, upcoming) }

  datatype Groups = Groups(
    overdue: seq<Task>, today: seq<Task>, upcoming: seq<Task>,
    later: seq<Task>, noDueDate: seq<Task>, completed: seq<Task>)

  /** The six lists of the view, as written. */
  function GroupsAsWritten(c: Clock, tasks: seq<Task>, f: StatusFilter): Groups {
    var shown := Shown(tasks, f);
    var upcoming := Filter(shown, UpcomingTest(c));
    Groups(
      Filter(shown, OverdueTest(c)), Filter(shown, TodayTest(c)), upcoming,
      Filter(shown, LaterTest(c, upcoming)), Filter(shown, HasNoDueDate), Filter(shown, IsCompleted))
  }

  /** "Later" is the open tasks due in the future beyond the week: the test
      against the upcoming list is the negation of the upcoming test. */
  lemma LaterIsBeyondTheWeek(c: Clock, tasks: seq<Task>, f: StatusFilter, beyond: Task -> bool)
    requires forall t :: beyond(t) == (!t.completed && t.dueDate.Some? && IsFuture(c, t.dueDate.value)
                                        && !WithinWeek(c, t.dueDate.value))
    ensures GroupsAsWritten(c, tasks, f).later == Filter(Shown(tasks, f), beyond)
  {
    var shown := Shown(tasks, f);
    var upcoming := Filter(shown, UpcomingTest(c));
    forall i | 0 <= i < |shown| ensures LaterTest(c, upcoming)(shown[i]) == beyond(shown[i]) {
      if IsUpcoming(c, shown[i]) {
        assert shown[i] in upcoming;
      }
    }
    FilterCongruent(shown, LaterTest(c, upcoming), beyond);
  }

  /** A task due later today, on a clock where 10 time units make a day, is listed
      under both "Today" and "Upcoming (7 days)". */
  lemma DueLaterTodayListedTwice()
    ensures var c := Clock(2, (d: Time) => d / 10, 72);
      var t := Task("t", "call back", false, Some(5), Medium, None, [], 0, 0);
      var g := GroupsAsWritten(c, [t], All);
      t in g.today && t in g.upcoming
  {
    var c := Clock(2, (d: Time) => d / 10, 72);
    var t := Task("t", "call back", false, Some(5), Medium, None, [], 0, 0);
    assert Shown([t], All) == [t];
    assert IsDueToday(c, t) && IsUpcoming(c, t);
  }

  // ---------------------------------------------------------------------------
  // The sections, each task in exactly one
  // ---------------------------------------------------------------------------

  datatype Section = OverdueSection | TodaySection | UpcomingSection | LaterSection | NoDueDateSection | CompletedSection

  /** The one section a task belongs in: "Upcoming" and "Later" start after today. */
  function SectionOf(c: Clock, t: Task): (s: Section)
    ensures s == CompletedSection <==> t.completed
    ensures s == NoDueDateSection <==> HasNoDueDate(t)
    ensures s == OverdueSection <==> IsOverdue(c, t)
    ensures s == TodaySection <==> IsDueToday(c, t)
    ensures s == UpcomingSection <==> IsUpcoming(c, t) && !IsToday(c, t.dueDate.value)
    ensures s == LaterSection <==> !t.completed && t.dueDate.Some? && IsFuture(c, t.dueDate.value)
                                   && !IsToday(c, t.dueDate.value) && !WithinWeek(c, t.dueDate.value)
  {
    if t.completed then CompletedSection
    else if t.dueDate.None? then NoDueDateSection
    else
      var d := t.dueDate.value;
      if IsToday(c, d) then TodaySection
      else if IsPast(c, d) then OverdueSection
      else if WithinWeek(c, d) then UpcomingSection
      else LaterSection
  }

  function SectionTest(c: Clock, s: Section): Task -> bool { (t: Task) => SectionOf(c, t) == s }

  /** The six lists with "Upcoming" and "Later" starting after today. */
  function Grouped(c: Clock, tasks: seq<Task>, f: StatusFilter): Groups {
    var shown := Shown(tasks, f);
    Groups(
      Filter(shown, SectionTest(c, OverdueSection)), Filter(shown, SectionTest(c, TodaySection)),
      Filter(shown, SectionTest(c, UpcomingSection)), Filter(shown, SectionTest(c, LaterSection)),
      Filter(shown, SectionTest(c, NoDueDateSection)), Filter(shown, SectionTest(c, CompletedSection)))
  }

  function ListOf(g: Groups, s: Section): seq<Task> {
    match s
    case OverdueSection => g.overdue
    case TodaySection => g.today
    case UpcomingSection => g.upcoming
    case LaterSection => g.later
    case NoDueDateSection => g.noDueDate
    case CompletedSection => g.completed
  }

  /** Every task the filter lets through is listed in exactly one section, the one
      `SectionOf` names, and nothing else is listed. */
  lemma EachTaskInOneSection(c: Clock, tasks: seq<Task>, f: StatusFilter, t: Task, s: Section)
    ensures t in ListOf(Grouped(c, tasks, f), s) <==> t in Shown(tasks, f) && SectionOf(c, t) == s
  {
    var shown := Shown(tasks, f);
    if t in shown && SectionOf(c, t) == s {
      var k :| 0 <= k < |shown| && shown[k] == t;
      assert SectionTest(c, s)(shown[k]);
    }
  }

  /** The overdue, today, no-date and completed sections list what the view lists. */
  lemma GroupedAgreesWithView(c: Clock, tasks: seq<Task>, f: StatusFilter)
    ensures var g, w := Grouped(c, tasks, f), GroupsAsWritten(c, tasks, f);
      g.overdue == w.overdue && g.today == w.today && g.noDueDate == w.noDueDate && g.completed == w.completed
  {
    var shown := Shown(tasks, f);
    FilterCongruent(shown, SectionTest(c, OverdueSection), OverdueTest(c));
    FilterCongruent(shown, SectionTest(c, TodaySection), TodayTest(c));
    FilterCongruent(shown, SectionTest(c, NoDueDateSection), HasNoDueDate);
    FilterCongruent(shown, SectionTest(c, CompletedSection), IsCompleted);
  }

  /** The view's "Upcoming" is this one plus the tasks due later today. */
  lemma UpcomingAsWritten(c: Clock, tasks: seq<Task>, f: StatusFilter, t: Task)
    ensures t in GroupsAsWritten(c, tasks, f).upcoming <==>
      t in Grouped(c, tasks, f).upcoming || (t in Grouped(c, tasks, f).today && IsUpcoming(c, t))
  {
    EachTaskInOneSection(c, tasks, f, t, UpcomingSection);
    EachTaskInOneSection(c, tasks, f, t, TodaySection);
    var shown := Shown(tasks, f);
    if t in shown && IsUpcoming(c, t) {
      var k :| 0 <= k < |shown| && shown[k] == t;
      assert UpcomingTest(c)(shown[k]);
    }
  }

  /** With the "completed" filter only the completed section has tasks; with the
      "active" filter it has none, and the view then hides it. */
  lemma FilterEmptiesSections(c: Clock, tasks: seq<Task>, f: StatusFilter, s: Section)
    ensures f == Done && s != CompletedSection ==> ListOf(Grouped(c, tasks, f), s) == []
    ensures f == Active && s == CompletedSection ==> ListOf(Grouped(c, tasks, f), s) == []
  {
    var g := ListOf(Grouped(c, tasks, f), s);
    if g != [] {
      EachTaskInOneSection(c, tasks, f, g[0], s);
    }
  }

  /** `filter !== 'active'` decides whether the completed section is shown. */
  function VisibleSections(f: StatusFilter): (r: seq<Section>)
    ensures CompletedSection in r <==> f != Active
  {
    [OverdueSection, TodaySection, UpcomingSection, LaterSection, NoDueDateSection]
      + (if f != Active then [CompletedSection] else [])
  }

  // ---------------------------------------------------------------------------
  // One task's row
  // ---------------------------------------------------------------------------

  datatype DueBadge = OverdueBadge | TodayBadge | DateBadge(due: Time)

  /** The date badge of an open task with a due date: "Overdue", "Today" or the date. */
  function Badge(c: Clock, t: Task): Option<DueBadge> {
    if t.dueDate.None? || t.completed then None
    else if t.dueDate.Some? && IsPast(c, t.dueDate.value) && !IsToday(c, t.dueDate.value) then Some(OverdueBadge)
    else if IsToday(c, t.dueDate.value) then Some(TodayBadge)
    else Some(DateBadge(t.dueDate.value))
  }

  /** The badge agrees with the section the task is listed in. */
  lemma BadgeMatchesSection(c: Clock, t: Task)
    ensures Badge(c, t).None? <==> SectionOf(c, t) in {CompletedSection, NoDueDateSection}
    ensures Badge(c, t) == Some(OverdueBadge) <==> SectionOf(c, t) == OverdueSection
    ensures Badge(c, t) == Some(TodayBadge) <==> SectionOf(c, t) == TodaySection
  {
  }

  /** `handleSaveEdit`: a blank title is ignored, any other is saved trimmed. */
  function RenamePatch(edited: string): (p: Option<TaskPatch>)
    ensures p.None? <==> IsBlank(edited)
    ensures p.Some? ==> p.value == NoTaskChanges.(title := Some(Trim(edited))) && !IsBlank(p.value.title.value)
  {
    TrimIdempotent(edited);
    if IsBlank(edited) then None else Some(NoTaskChanges.(title := Some(Trim(edited))))
  }

  /** A row of the list: the task it shows and its inline title editor. */
  class TaskItem {
    const task: Task
    var isEditing: bool
    var editedTitle: string

    /** The editor starts closed, holding the task's title. */
    constructor(task: Task)
      ensures this.task == task && !isEditing && editedTitle == task.title
    {
      this.task := task;
      isEditing, editedTitle := false, task.title;
    }

    /** Clicking the title opens the editor, unless the task is completed. */
    method ClickTitle()
      modifies this
      ensures isEditing == (old(isEditing) || !task.completed) && editedTitle == old(editedTitle)
    {
      if !task.completed {
        isEditing := true;
      }
    }

    method SetEditedTitle(text: string)
      modifies this
      ensures editedTitle == text && isEditing == old(isEditing)
    {
      editedTitle := text;
    }

    /** `handleSaveEdit`: the store is renamed with the trimmed text unless it is
        blank, and editing ends either way. */
    method HandleSaveEdit(store: AppStore, now: Time)
      requires store.Valid()
      modifies this, store
      ensures store.Valid()
      ensures !isEditing && editedTitle == old(editedTitle)
      ensures RenamePatch(old(editedTitle)).None? ==> store.Snapshot() == old(store.Snapshot())
      ensures RenamePatch(old(editedTitle)).Some? ==>
        store.Snapshot() == old(store.Snapshot()).(tasks :=
          UpdatedTasks(old(store.tasks), task.id, RenamePatch(old(editedTitle)).value, now))
    {
      var p := RenamePatch(editedTitle);
      if p.Some? {
        store.UpdateTask(task.id, p.value, now);
      }
      isEditing := false;
    }
  }

  // ---------------------------------------------------------------------------
  // The form for a new task
  // ---------------------------------------------------------------------------

  /** What the form hands to the store: the title trimmed, not completed, no
      project and no tags. */
  function NewTaskData(title: string, dueDate: Option<Time>, priority: Priority): (d: TaskData)
    ensures d.title == Trim(title) && !d.completed && d.dueDate == dueDate && d.priority == priority
    ensures d.project.None? && d.tags == []
  {
    TaskData(Trim(title), false, dueDate, priority, None, [])
  }

  /** The form's fields; the due-date field is read as a time, or none when empty. */
  class TaskForm {
    var title: string
    var dueDate: Option<Time>
    var priority: Priority

    constructor()
      ensures title == "" && dueDate.None? && priority == Medium
    {
      title, dueDate, priority := "", None, Medium;
    }

    /** `handleAddTask`: a blank title adds nothing and keeps the form; otherwise
        the task is added and the form reset. */
    method HandleAddTask(store: AppStore, id: Id, now: Time) returns (added: bool)
      requires store.Valid() && FreshId(store.tasks, TaskId, id)
      modifies this, store
      ensures store.Valid()
      ensures added <==> !IsBlank(old(title))
      ensures !added ==> (store.Snapshot() == old(store.Snapshot())
        && title == old(title) && dueDate == old(dueDate) && priority == old(priority))
      ensures added ==> (title == "" && dueDate.None? && priority == Medium
        && store.Snapshot() == old(store.Snapshot()).(tasks :=
             [NewTask(NewTaskData(old(title), old(dueDate), old(priority)), id, now)] + old(store.tasks)))
    {
      if IsBlank(title) {
        return false;
      }
      store.AddTask(NewTaskData(title, dueDate, priority), id, now);
      title, dueDate, priority := "", None, Medium;
      return true;
    }
  }
}
