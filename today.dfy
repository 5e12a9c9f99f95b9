/** The start page (src/components/views/TodayView.tsx): the open tasks due today
    or earlier, up to three pinned notes, the three most recently edited
    documents, and two counts. */
module Today {
  import opened Common
  import opened Types
  import opened Tasks

  /** An open task whose due date is today or already past. */
  predicate IsDueByToday(c: Clock, t: Task) {
    !t.completed && t.dueDate.Some? && (IsToday(c, t.dueDate.value) || IsPast(c, t.dueDate.value))
  }

  function DueByTodayTest(c: Clock): Task -> bool { (t: Task) => IsDueByToday(c, t) }

  /** `todayTasks`, in store order. */
  function TodayTasks(c: Clock, tasks: seq<Task>): seq<Task> {
    Filter(tasks, DueByTodayTest(c))
  }

  /** The start page lists exactly the tasks of the tasks view's "Overdue" and
      "Today" sections. */
  lemma TodayTasksAreOverdueOrToday(c: Clock, tasks: seq<Task>, t: Task)
    ensures t in TodayTasks(c, tasks) <==> t in tasks && SectionOf(c, t) in {OverdueSection, TodaySection}
  {
    if t in tasks && SectionOf(c, t) in {OverdueSection, TodaySection} {
      var k :| 0 <= k < |tasks| && tasks[k] == t;
      assert DueByTodayTest(c)(tasks[k]);
    }
  }

  /** The badge of a listed task: "Overdue" when past and not today, else "Today". */
  function ListedBadge(c: Clock, t: Task): (b: DueBadge)
    requires IsDueByToday(c, t)
  {
    if IsPast(c, t.dueDate.value) && !IsToday(c, t.dueDate.value) then OverdueBadge else TodayBadge
  }

  /** It says what the tasks view's badge says. */
  lemma TodayBadgeAgrees(c: Clock, t: Task)
    requires IsDueByToday(c, t)
    ensures Badge(c, t) == Some(ListedBadge(c, t))
  {
  }

  predicate IsPinnedActive(n: Note) { n.pinned && !n.archived }

  /** `pinnedNotes`: the first three pinned notes that are not archived. */
  function PinnedNotes(notes: seq<Note>): (r: seq<Note>)
    ensures |r| <= 3
    ensures forall i :: 0 <= i < |r| ==> r[i].pinned && !r[i].archived && r[i] in notes
    ensures |r| < 3 ==> forall i :: 0 <= i < |notes| && IsPinnedActive(notes[i]) ==> notes[i] in r
  {
    Take(Filter(notes, IsPinnedActive), 3)
  }

  /** The listed notes are taken from the front, in store order: the first
      pinned active notes, as many as there are up to three. */
  lemma PinnedNotesFromFront(notes: seq<Note>)
    ensures var f := Filter(notes, IsPinnedActive); var r := PinnedNotes(notes);
      |r| == (if |f| < 3 then |f| else 3) && r == f[..|r|]
    ensures IsSubsequence(PinnedNotes(notes), notes)
  {
    var f := Filter(notes, IsPinnedActive);
    FilterIsSubsequence(notes, IsPinnedActive);
    PrefixIsSubsequence(f, notes, |PinnedNotes(notes)|);
  }

  function UpdatedKey(d: Doc): int { d.updatedAt }

  /** `recentDocs`: a copy sorted newest edit first, cut to three. */
  function RecentDocs(docs: seq<Doc>): seq<Doc> {
    Take(SortDesc(docs, UpdatedKey), 3)
  }

  /** The recent documents are three of the documents (or all, when fewer),
      newest first. */
  lemma RecentDocsShape(docs: seq<Doc>)
    ensures var r := RecentDocs(docs);
      |r| == (if |docs| < 3 then |docs| else 3) && multiset(r) <= multiset(docs) &&
      forall i, j :: 0 <= i < j < |r| ==> r[i].updatedAt >= r[j].updatedAt
  {
    var sorted := SortDesc(docs, UpdatedKey);
    TakeIsSubMultiset(sorted, 3);
    TakeSortedDesc(sorted, UpdatedKey, 3);
    var r := RecentDocs(docs);
    forall i, j | 0 <= i < j < |r| ensures r[i].updatedAt >= r[j].updatedAt {
      assert UpdatedKey(r[i]) >= UpdatedKey(r[j]);
    }
  }

  /** No document left out was edited after one that is listed. */
  lemma RecentDocsAreNewest(docs: seq<Doc>, d: Doc, i: nat)
    requires d in multiset(docs) - multiset(RecentDocs(docs)) && i < |RecentDocs(docs)|
    ensures d.updatedAt <= RecentDocs(docs)[i].updatedAt
  {
    var sorted := SortDesc(docs, UpdatedKey);
    var r := RecentDocs(docs);
    var rest := sorted[|r|..];
    assert sorted == r + rest;
    assert multiset(sorted) == multiset(r) + multiset(rest);
    assert d in multiset(rest);
    var k :| 0 <= k < |rest| && rest[k] == d;
    assert sorted[|r| + k] == d && sorted[i] == r[i];
  }

  /** `pendingTasks`: how many tasks are open. */
  function PendingCount(tasks: seq<Task>): nat {
    |Filter(tasks, IsOpen)|
  }

  predicate IsOpen(t: Task) { !t.completed }

  function EditedTodayTest(c: Clock): Doc -> bool { (d: Doc) => IsToday(c, d.updatedAt) }

  /** `todayDocs`: how many documents were edited today. */
  function EditedTodayCount(c: Clock, docs: seq<Doc>): nat {
    |Filter(docs, EditedTodayTest(c))|
  }

  /** The page shows its counts unless all three lists are empty. */
  predicate IsEmpty(c: Clock, tasks: seq<Task>, notes: seq<Note>, docs: seq<Doc>) {
    TodayTasks(c, tasks) == [] && PinnedNotes(notes) == [] && RecentDocs(docs) == []
  }

  /** The page is empty exactly when no open task is due by today, no note is
      pinned and active, and there are no documents at all. */
  lemma EmptyExactly(c: Clock, tasks: seq<Task>, notes: seq<Note>, docs: seq<Doc>)
    ensures IsEmpty(c, tasks, notes, docs) <==>
      (forall i :: 0 <= i < |tasks| ==> !IsDueByToday(c, tasks[i])) &&
      (forall i :: 0 <= i < |notes| ==> !IsPinnedActive(notes[i])) &&
      docs == []
  {
    assert |SortDesc(docs, UpdatedKey)| == |docs|;
    FilterEmpty(tasks, DueByTodayTest(c));
    FilterEmpty(notes, IsPinnedActive);
  }

  /** The counts count what they say. */
  lemma CountsBounded(c: Clock, tasks: seq<Task>, docs: seq<Doc>)
    ensures PendingCount(tasks) <= |tasks| && EditedTodayCount(c, docs) <= |docs|
    ensures |TodayTasks(c, tasks)| <= PendingCount(tasks)
  {
    FilterTwice(tasks, IsOpen, DueByTodayTest(c), DueByTodayTest(c));
  }
}
