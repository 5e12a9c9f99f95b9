/** The workspace store (src/store/appStore.ts): five collections, the navigation
    flags and the theme, changed only through the store's actions.

    Every action replaces one field with a new value computed from the old one by
    a prepend, a `map` that rewrites the entity with a given id, or a `filter`
    that drops it. Those computations are the functions of this module; the class
    `AppStore` holds the state and its methods are stated in terms of them.

    The clock (`new Date()`) and the identifier source (`generateId`, built on
    `Math.random`) are parameters of the actions: a new entity's id being unused
    is a precondition, not something the store guarantees. */
module Store {
  import opened Common
  import opened Types

  // ---------------------------------------------------------------------------
  // The three collection operations
  // ---------------------------------------------------------------------------

  /** `s.map(x => idOf(x) === id ? f(x) : x)`. */
  function UpdateById<T>(s: seq<T>, idOf: T -> Id, id: Id, f: T -> T): (r: seq<T>)
    ensures |r| == |s|
    ensures forall i :: 0 <= i < |s| && idOf(s[i]) != id ==> r[i] == s[i]
    ensures forall i :: 0 <= i < |s| && idOf(s[i]) == id ==> r[i] == f(s[i])
  {
    seq(|s|, i requires 0 <= i < |s| => if idOf(s[i]) == id then f(s[i]) else s[i])
  }

  /** `s.filter(x => idOf(x) !== id)`: nothing with that id is left, everything
      else is, and in its old relative order. */
  function RemoveById<T(==)>(s: seq<T>, idOf: T -> Id, id: Id): (r: seq<T>)
    ensures forall i :: 0 <= i < |r| ==> idOf(r[i]) != id && r[i] in s
    ensures forall i :: 0 <= i < |s| && idOf(s[i]) != id ==> s[i] in r
    ensures IsSubsequence(r, s)
    ensures DistinctIds(s, idOf) ==> DistinctIds(r, idOf)
  {
    var keep := (x: T) => idOf(x) != id;
    FilterIsSubsequence(s, keep);
    FilterKeepsDistinct(s, idOf, keep);
    Filter(s, keep)
  }

  /** No two entities of the collection share an id. */
  predicate DistinctIds<T>(s: seq<T>, idOf: T -> Id) {
    forall i, j :: 0 <= i < j < |s| ==> idOf(s[i]) != idOf(s[j])
  }

  /** No entity of the collection has this id. */
  predicate FreshId<T>(s: seq<T>, idOf: T -> Id, id: Id) {
    forall i :: 0 <= i < |s| ==> idOf(s[i]) != id
  }

  /** An update addressed to an id nobody has changes nothing. */
  lemma UpdateUnknownId<T>(s: seq<T>, idOf: T -> Id, id: Id, f: T -> T)
    requires FreshId(s, idOf, id)
    ensures UpdateById(s, idOf, id, f) == s
  {
  }

  /** A deletion addressed to an id nobody has changes nothing. */
  lemma RemoveUnknownId<T>(s: seq<T>, idOf: T -> Id, id: Id)
    requires FreshId(s, idOf, id)
    ensures RemoveById(s, idOf, id) == s
  {
    FilterKeepsAll(s, x => idOf(x) != id);
  }

  /** When ids are distinct, deleting the entity at position `k` removes exactly that
      entity and keeps all the others in their order. */
  lemma RemoveExactlyOne<T>(s: seq<T>, idOf: T -> Id, k: nat)
    requires DistinctIds(s, idOf) && k < |s|
    ensures RemoveById(s, idOf, idOf(s[k])) == s[..k] + s[k + 1..]
  {
    var id := idOf(s[k]);
    var keep := (x: T) => idOf(x) != id;
    assert s == s[..k] + ([s[k]] + s[k + 1..]);
    FilterConcat(s[..k], [s[k]] + s[k + 1..], keep);
    FilterConcat([s[k]], s[k + 1..], keep);
    FilterKeepsAll(s[..k], keep);
    FilterKeepsAll(s[k + 1..], keep);
    assert Filter([s[k]], keep) == [];
  }

  /** Deleting keeps the ids distinct. */
  lemma {:induction false} FilterKeepsDistinct<T>(s: seq<T>, idOf: T -> Id, keep: T -> bool)
    ensures DistinctIds(s, idOf) ==> DistinctIds(Filter(s, keep), idOf)
  {
    if s != [] && DistinctIds(s, idOf) {
      FilterKeepsDistinct(s[1..], idOf, keep);
      var rest := Filter(s[1..], keep);
      forall i | 0 <= i < |rest| ensures idOf(rest[i]) != idOf(s[0]) {
        var k :| 0 <= k < |s[1..]| && s[1..][k] == rest[i];
        assert s[k + 1] == rest[i];
      }
    }
  }

  /** An update whose rewrite keeps the id keeps every id in place. */
  lemma UpdateKeepsIds<T>(s: seq<T>, idOf: T -> Id, id: Id, f: T -> T)
    requires forall i :: 0 <= i < |s| ==> idOf(f(s[i])) == idOf(s[i])
    ensures forall i :: 0 <= i < |s| ==> idOf(UpdateById(s, idOf, id, f)[i]) == idOf(s[i])
    ensures DistinctIds(s, idOf) ==> DistinctIds(UpdateById(s, idOf, id, f), idOf)
  {
  }

  // ---------------------------------------------------------------------------
  // Notes
  // ---------------------------------------------------------------------------

  /** `{ ...noteData, id, createdAt: now, updatedAt: now }`. */
  function NewNote(d: NoteData, id: Id, now: Time): (n: Note)
    ensures n.id == id && n.createdAt == now && n.updatedAt == now
    ensures NoteDataOf(n) == d
  {
    Note(id, d.title, d.content, d.color, d.pinned, d.archived, d.tags, now, now)
  }

  function NoteDataOf(n: Note): NoteData {
    NoteData(n.title, n.content, n.color, n.pinned, n.archived, n.tags)
  }

  /** `{ ...n, ...updates, updatedAt: now }`: a supplied field wins, an absent one
      keeps its value, the id and creation time never change. */
  function ApplyNotePatch(n: Note, p: NotePatch, now: Time): (r: Note)
    ensures r.id == n.id && r.createdAt == n.createdAt && r.updatedAt == now
    ensures p.title.None? ==> r.title == n.title
    ensures p.content.None? ==> r.content == n.content
    ensures p.color.None? ==> r.color == n.color
    ensures p.pinned.None? ==> r.pinned == n.pinned
    ensures p.archived.None? ==> r.archived == n.archived
    ensures p.tags.None? ==> r.tags == n.tags
  {
    n.(title := p.title.GetOr(n.title), content := p.content.GetOr(n.content),
       color := p.color.GetOr(n.color), pinned := p.pinned.GetOr(n.pinned),
       archived := p.archived.GetOr(n.archived), tags := p.tags.GetOr(n.tags),
       updatedAt := now)
  }

  function UpdatedNotes(notes: seq<Note>, id: Id, p: NotePatch, now: Time): seq<Note> {
    UpdateById(notes, NoteId, id, (n: Note) => ApplyNotePatch(n, p, now))
  }

  function PinToggled(notes: seq<Note>, id: Id, now: Time): seq<Note> {
    UpdateById(notes, NoteId, id, (n: Note) => n.(pinned := !n.pinned, updatedAt := now))
  }

  function NoteArchived(notes: seq<Note>, id: Id, now: Time): seq<Note> {
    UpdateById(notes, NoteId, id, (n: Note) => n.(archived := true, updatedAt := now))
  }

  // ---------------------------------------------------------------------------
  // Tasks
  // ---------------------------------------------------------------------------

  function NewTask(d: TaskData, id: Id, now: Time): (t: Task)
    ensures t.id == id && t.createdAt == now && t.updatedAt == now
    ensures TaskDataOf(t) == d
  {
    Task(id, d.title, d.completed, d.dueDate, d.priority, d.project, d.tags, now, now)
  }

  function TaskDataOf(t: Task): TaskData {
    TaskData(t.title, t.completed, t.dueDate, t.priority, t.project, t.tags)
  }

  function ApplyTaskPatch(t: Task, p: TaskPatch, now: Time): (r: Task)
    ensures r.id == t.id && r.createdAt == t.createdAt && r.updatedAt == now
    ensures p.title.None? ==> r.title == t.title
    ensures p.completed.None? ==> r.completed == t.completed
    ensures p.dueDate.None? ==> r.dueDate == t.dueDate
    ensures p.priority.None? ==> r.priority == t.priority
    ensures p.project.None? ==> r.project == t.project
    ensures p.tags.None? ==> r.tags == t.tags
  {
    t.(title := p.title.GetOr(t.title), completed := p.completed.GetOr(t.completed),
       dueDate := p.dueDate.GetOr(t.dueDate), priority := p.priority.GetOr(t.priority),
       project := p.project.GetOr(t.project), tags := p.tags.GetOr(t.tags),
       updatedAt := now)
  }

  function UpdatedTasks(tasks: seq<Task>, id: Id, p: TaskPatch, now: Time): seq<Task> {
    UpdateById(tasks, TaskId, id, (t: Task) => ApplyTaskPatch(t, p, now))
  }

  function CompleteToggled(tasks: seq<Task>, id: Id, now: Time): seq<Task> {
    UpdateById(tasks, TaskId, id, (t: Task) => t.(completed := !t.completed, updatedAt := now))
  }

  // ---------------------------------------------------------------------------
  // Links
  // ---------------------------------------------------------------------------

  function NewLink(d: LinkData, id: Id, now: Time): (l: Link)
    ensures l.id == id && l.createdAt == now && l.updatedAt == now
    ensures LinkDataOf(l) == d
  {
    Link(id, d.url, d.title, d.description, d.favicon, d.collection, d.tags, d.archived, now, now)
  }

  function LinkDataOf(l: Link): LinkData {
    LinkData(l.url, l.title, l.description, l.favicon, l.collection, l.tags, l.archived)
  }

  function ApplyLinkPatch(l: Link, p: LinkPatch, now: Time): (r: Link)
    ensures r.id == l.id && r.createdAt == l.createdAt && r.updatedAt == now
    ensures p.url.None? ==> r.url == l.url
    ensures p.title.None? ==> r.title == l.title
    ensures p.description.None? ==> r.description == l.description
    ensures p.favicon.None? ==> r.favicon == l.favicon
    ensures p.collection.None? ==> r.collection == l.collection
    ensures p.tags.None? ==> r.tags == l.tags
    ensures p.archived.None? ==> r.archived == l.archived
  {
    l.(url := p.url.GetOr(l.url), title := p.title.GetOr(l.title),
       description := p.description.GetOr(l.description), favicon := p.favicon.GetOr(l.favicon),
       collection := p.collection.GetOr(l.collection), tags := p.tags.GetOr(l.tags),
       archived := p.archived.GetOr(l.archived), updatedAt := now)
  }

  function UpdatedLinks(links: seq<Link>, id: Id, p: LinkPatch, now: Time): seq<Link> {
    UpdateById(links, LinkId, id, (l: Link) => ApplyLinkPatch(l, p, now))
  }

  function LinkArchived(links: seq<Link>, id: Id, now: Time): seq<Link> {
    UpdateById(links, LinkId, id, (l: Link) => l.(archived := true, updatedAt := now))
  }

  // ---------------------------------------------------------------------------
  // Docs
  // ---------------------------------------------------------------------------

  function NewDoc(d: DocData, id: Id, now: Time): (doc: Doc)
    ensures doc.id == id && doc.createdAt == now && doc.updatedAt == now
    ensures doc.title == d.title && doc.content == d.content
  {
    Doc(id, d.title, d.content, now, now)
  }

  function ApplyDocPatch(d: Doc, p: DocPatch, now: Time): (r: Doc)
    ensures r.id == d.id && r.createdAt == d.createdAt && r.updatedAt == now
    ensures p.title.None? ==> r.title == d.title
    ensures p.content.None? ==> r.content == d.content
  {
    d.(title := p.title.GetOr(d.title), content := p.content.GetOr(d.content), updatedAt := now)
  }

  function UpdatedDocs(docs: seq<Doc>, id: Id, p: DocPatch, now: Time): seq<Doc> {
    UpdateById(docs, DocId, id, (d: Doc) => ApplyDocPatch(d, p, now))
  }

  // ---------------------------------------------------------------------------
  // Prompts
  // ---------------------------------------------------------------------------

  /** `{ ...promptData, id, usageCount: 0, createdAt: now, updatedAt: now }`. */
  function NewPrompt(d: PromptData, id: Id, now: Time): (p: Prompt)
    ensures p.id == id && p.createdAt == now && p.updatedAt == now
    ensures p.usageCount == 0
    ensures p.title == d.title && p.content == d.content && p.category == d.category && p.variables == d.variables
  {
    Prompt(id, d.title, d.content, d.category, d.variables, 0, now, now)
  }

  /** The store does not recompute `variables` when `content` changes: whatever
      the caller passes (or does not pass) is what is stored. */
  function ApplyPromptPatch(pr: Prompt, p: PromptPatch, now: Time): (r: Prompt)
    ensures r.id == pr.id && r.createdAt == pr.createdAt && r.updatedAt == now
    ensures p.title.None? ==> r.title == pr.title
    ensures p.content.None? ==> r.content == pr.content
    ensures p.category.None? ==> r.category == pr.category
    ensures p.variables.None? ==> r.variables == pr.variables
    ensures p.usageCount.None? ==> r.usageCount == pr.usageCount
  {
    pr.(title := p.title.GetOr(pr.title), content := p.content.GetOr(pr.content),
        category := p.category.GetOr(pr.category), variables := p.variables.GetOr(pr.variables),
        usageCount := p.usageCount.GetOr(pr.usageCount), updatedAt := now)
  }

  function UpdatedPrompts(prompts: seq<Prompt>, id: Id, p: PromptPatch, now: Time): seq<Prompt> {
    UpdateById(prompts, PromptId, id, (pr: Prompt) => ApplyPromptPatch(pr, p, now))
  }

  function UsageIncremented(prompts: seq<Prompt>, id: Id, now: Time): seq<Prompt> {
    UpdateById(prompts, PromptId, id, (pr: Prompt) => pr.(usageCount := pr.usageCount + 1, updatedAt := now))
  }

  // ---------------------------------------------------------------------------
  // Properties of the per-entity actions
  // ---------------------------------------------------------------------------

  /** An update that supplies nothing only refreshes `updatedAt` of the matching
      note: merging is field by field, and nothing but the supplied fields moves. */
  lemma EmptyNotePatchOnlyRefreshes(notes: seq<Note>, id: Id, now: Time)
    ensures UpdatedNotes(notes, id, NoNoteChanges, now) == UpdateById(notes, NoteId, id, (n: Note) => n.(updatedAt := now))
  {
  }

  /** Applying the same update twice (at the same time) is applying it once. */
  lemma NotePatchIdempotent(n: Note, p: NotePatch, now: Time)
    ensures ApplyNotePatch(ApplyNotePatch(n, p, now), p, now) == ApplyNotePatch(n, p, now)
  {
  }

  /** Toggling a note's pin twice gives every note its old pin back; only the
      matching note's `updatedAt` differs. */
  lemma PinToggledTwice(notes: seq<Note>, id: Id, t1: Time, t2: Time)
    ensures var r := PinToggled(PinToggled(notes, id, t1), id, t2);
      |r| == |notes| &&
      forall i :: 0 <= i < |notes| ==> r[i] == if notes[i].id == id then notes[i].(updatedAt := t2) else notes[i]
  {
  }

  /** Toggling a task's completion twice gives every task its old flag back; only
      the matching task's `updatedAt` differs. */
  lemma CompleteToggledTwice(tasks: seq<Task>, id: Id, t1: Time, t2: Time)
    ensures var r := CompleteToggled(CompleteToggled(tasks, id, t1), id, t2);
      |r| == |tasks| &&
      forall i :: 0 <= i < |tasks| ==> r[i] == if tasks[i].id == id then tasks[i].(updatedAt := t2) else tasks[i]
  {
  }

  /** Archiving sets the flag rather than flipping it: a second archive leaves
      the flags as the first one left them. */
  lemma NoteArchiveIdempotent(notes: seq<Note>, id: Id, t1: Time, t2: Time)
    ensures NoteArchived(NoteArchived(notes, id, t1), id, t2) == NoteArchived(notes, id, t2)
  {
  }

  lemma LinkArchiveIdempotent(links: seq<Link>, id: Id, t1: Time, t2: Time)
    ensures LinkArchived(LinkArchived(links, id, t1), id, t2) == LinkArchived(links, id, t2)
  {
  }

  /** Counting a use raises the matching prompt's count by one and touches
      nothing else of any prompt but that prompt's `updatedAt`. */
  lemma UsageIncrementedByOne(prompts: seq<Prompt>, id: Id, now: Time)
    ensures var r := UsageIncremented(prompts, id, now);
      |r| == |prompts| &&
      (forall i :: 0 <= i < |prompts| && prompts[i].id == id ==>
         r[i].usageCount == prompts[i].usageCount + 1 &&
         r[i].(usageCount := prompts[i].usageCount, updatedAt := prompts[i].updatedAt) == prompts[i]) &&
      (forall i :: 0 <= i < |prompts| && prompts[i].id != id ==> r[i] == prompts[i])
  {
  }

  // ---------------------------------------------------------------------------
  // The whole state, and what is persisted of it
  // ---------------------------------------------------------------------------

  datatype State = State(
    currentView: ViewType, sidebarOpen: bool, commandPaletteOpen: bool,
    notes: seq<Note>, tasks: seq<Task>, links: seq<Link>, docs: seq<Doc>, prompts: seq<Prompt>,
    theme: Theme)

  /** The state the store starts from before anything is restored. */
  const Initial := State(TodayView, true, false, [], [], [], [], [], Light)

  /** Within each collection, no two entities share an id. */
  predicate ValidState(st: State) {
    && DistinctIds(st.notes, NoteId) && DistinctIds(st.tasks, TaskId) && DistinctIds(st.links, LinkId)
    && DistinctIds(st.docs, DocId) && DistinctIds(st.prompts, PromptId)
  }

  /** The keys written to storage under the name `workspace-storage`. */
  datatype Persisted = Persisted(
    notes: seq<Note>, tasks: seq<Task>, links: seq<Link>, docs: seq<Doc>, prompts: seq<Prompt>,
    theme: Theme, currentView: ViewType)

  const StorageName := "workspace-storage"

  /** `partialize`: the five collections, the theme and the current view. */
  function Partialize(st: State): Persisted {
    Persisted(st.notes, st.tasks, st.links, st.docs, st.prompts, st.theme, st.currentView)
  }

  /** Two states persist the same way exactly when they differ at most in the
      sidebar and command-palette flags, which are never persisted. */
  lemma PartializeForgetsOnlyTransientFlags(a: State, b: State)
    ensures Partialize(a) == Partialize(b) <==>
            a.(sidebarOpen := b.sidebarOpen, commandPaletteOpen := b.commandPaletteOpen) == b
  {
  }

  // ---------------------------------------------------------------------------
  // The store
  // ---------------------------------------------------------------------------

  class AppStore {
    var currentView: ViewType
    var sidebarOpen: bool
    var commandPaletteOpen: bool
    var notes: seq<Note>
    var tasks: seq<Task>
    var links: seq<Link>
    var docs: seq<Doc>
    var prompts: seq<Prompt>
    var theme: Theme

    function Snapshot(): State
      reads this
    {
      State(currentView, sidebarOpen, commandPaletteOpen, notes, tasks, links, docs, prompts, theme)
    }

    ghost predicate Valid()
      reads this
    {
      ValidState(Snapshot())
    }

    constructor()
      ensures Valid() && Snapshot() == Initial
    {
      currentView, sidebarOpen, commandPaletteOpen := TodayView, true, false;
      notes, tasks, links, docs, prompts := [], [], [], [], [];
      theme := Light;
    }

    // --- navigation and theme ---

    method SetCurrentView(view: ViewType)
      requires Valid()
      modifies this
      ensures Valid() && Snapshot() == old(Snapshot()).(currentView := view)
    {
      currentView := view;
    }

    method SetSidebarOpen(open: bool)
      requires Valid()
      modifies this
      ensures Valid() && Snapshot() == old(Snapshot()).(sidebarOpen := open)
      ensures Partialize(Snapshot()) == old(Partialize(Snapshot()))
    {
      sidebarOpen := open;
    }

    method ToggleSidebar()
      requires Valid()
      modifies this
      ensures Valid() && Snapshot() == old(Snapshot()).(sidebarOpen := !old(sidebarOpen))
      ensures Partialize(Snapshot()) == old(Partialize(Snapshot()))
    {
      sidebarOpen := !sidebarOpen;
    }

    method SetCommandPaletteOpen(open: bool)
      requires Valid()
      modifies this
      ensures Valid() && Snapshot() == old(Snapshot()).(commandPaletteOpen := open)
      ensures Partialize(Snapshot()) == old(Partialize(Snapshot()))
    {
      commandPaletteOpen := open;
    }

    method SetTheme(t: Theme)
      requires Valid()
      modifies this
      ensures Valid() && Snapshot() == old(Snapshot()).(theme := t)
    {
      theme := t;
    }

    // --- notes ---

    method AddNote(d: NoteData, id: Id, now: Time)
      requires Valid() && FreshId(notes, NoteId, id)
      modifies this
      ensures Valid() && Snapshot() == old(Snapshot()).(notes := [NewNote(d, id, now)] + old(notes))
    {
      notes := [NewNote(d, id, now)] + notes;
    }

    method UpdateNote(id: Id, p: NotePatch, now: Time)
      requires Valid()
      modifies this
      ensures Valid() && Snapshot() == old(Snapshot()).(notes := UpdatedNotes(old(notes), id, p, now))
    {
      notes := UpdatedNotes(notes, id, p, now);
    }

    method DeleteNote(id: Id)
      requires Valid()
      modifies this
      ensures Valid() && Snapshot() == old(Snapshot()).(notes := RemoveById(old(notes), NoteId, id))
    {
      notes := RemoveById(notes, NoteId, id);
    }

    method TogglePinNote(id: Id, now: Time)
      requires Valid()
      modifies this
      ensures Valid() && Snapshot() == old(Snapshot()).(notes := PinToggled(old(notes), id, now))
    {
      notes := PinToggled(notes, id, now);
    }

    method ArchiveNote(id: Id, now: Time)
      requires Valid()
      modifies this
      ensures Valid() && Snapshot() == old(Snapshot()).(notes := NoteArchived(old(notes), id, now))
    {
      notes := NoteArchived(notes, id, now);
    }

    // --- tasks ---

    method AddTask(d: TaskData, id: Id, now: Time)
      requires Valid() && FreshId(tasks, TaskId, id)
      modifies this
      ensures Valid() && Snapshot() == old(Snapshot()).(tasks := [NewTask(d, id, now)] + old(tasks))
    {
      tasks := [NewTask(d, id, now)] + tasks;
    }

    method UpdateTask(id: Id, p: TaskPatch, now: Time)
      requires Valid()
      modifies this
      ensures Valid() && Snapshot() == old(Snapshot()).(tasks := UpdatedTasks(old(tasks), id, p, now))
    {
      tasks := UpdatedTasks(tasks, id, p, now);
    }

    method DeleteTask(id: Id)
      requires Valid()
      modifies this
      ensures Valid() && Snapshot() == old(Snapshot()).(tasks := RemoveById(old(tasks), TaskId, id))
    {
      tasks := RemoveById(tasks, TaskId, id);
    }

    method ToggleTaskComplete(id: Id, now: Time)
      requires Valid()
      modifies this
      ensures Valid() && Snapshot() == old(Snapshot()).(tasks := CompleteToggled(old(tasks), id, now))
    {
      tasks := CompleteToggled(tasks, id, now);
    }

    // --- links ---

    method AddLink(d: LinkData, id: Id, now: Time)
      requires Valid() && FreshId(links, LinkId, id)
      modifies this
      ensures Valid() && Snapshot() == old(Snapshot()).(links := [NewLink(d, id, now)] + old(links))
    {
      links := [NewLink(d, id, now)] + links;
    }

    method UpdateLink(id: Id, p: LinkPatch, now: Time)
      requires Valid()
      modifies this
      ensures Valid() && Snapshot() == old(Snapshot()).(links := UpdatedLinks(old(links), id, p, now))
    {
      links := UpdatedLinks(links, id, p, now);
    }

    method DeleteLink(id: Id)
      requires Valid()
      modifies this
      ensures Valid() && Snapshot() == old(Snapshot()).(links := RemoveById(old(links), LinkId, id))
    {
      links := RemoveById(links, LinkId, id);
    }

    method ArchiveLink(id: Id, now: Time)
      requires Valid()
      modifies this
      ensures Valid() && Snapshot() == old(Snapshot()).(links := LinkArchived(old(links), id, now))
    {
      links := LinkArchived(links, id, now);
    }

    // --- docs ---

    method AddDoc(d: DocData, id: Id, now: Time)
      requires Valid() && FreshId(docs, DocId, id)
      modifies this
      ensures Valid() && Snapshot() == old(Snapshot()).(docs := [NewDoc(d, id, now)] + old(docs))
    {
      docs := [NewDoc(d, id, now)] + docs;
    }

    method UpdateDoc(id: Id, p: DocPatch, now: Time)
      requires Valid()
      modifies this
      ensures Valid() && Snapshot() == old(Snapshot()).(docs := UpdatedDocs(old(docs), id, p, now))
    {
      docs := UpdatedDocs(docs, id, p, now);
    }

    method DeleteDoc(id: Id)
      requires Valid()
      modifies this
      ensures Valid() && Snapshot() == old(Snapshot()).(docs := RemoveById(old(docs), DocId, id))
    {
      docs := RemoveById(docs, DocId, id);
    }

    // --- prompts ---

    method AddPrompt(d: PromptData, id: Id, now: Time)
      requires Valid() && FreshId(prompts, PromptId, id)
      modifies this
      ensures Valid() && Snapshot() == old(Snapshot()).(prompts := [NewPrompt(d, id, now)] + old(prompts))
    {
      prompts := [NewPrompt(d, id, now)] + prompts;
    }

    method UpdatePrompt(id: Id, p: PromptPatch, now: Time)
      requires Valid()
      modifies this
      ensures Valid() && Snapshot() == old(Snapshot()).(prompts := UpdatedPrompts(old(prompts), id, p, now))
    {
      prompts := UpdatedPrompts(prompts, id, p, now);
    }

    method DeletePrompt(id: Id)
      requires Valid()
      modifies this
      ensures Valid() && Snapshot() == old(Snapshot()).(prompts := RemoveById(old(prompts), PromptId, id))
    {
      prompts := RemoveById(prompts, PromptId, id);
    }

    method IncrementPromptUsage(id: Id, now: Time)
      requires Valid()
      modifies this
      ensures Valid() && Snapshot() == old(Snapshot()).(prompts := UsageIncremented(old(prompts), id, now))
    {
      prompts := UsageIncremented(prompts, id, now);
    }
  }

  /** Toggling the sidebar twice puts the whole store back as it was. */
  method ToggleSidebarTwice(store: AppStore)
    requires store.Valid()
    modifies store
    ensures store.Valid() && store.Snapshot() == old(store.Snapshot())
  {
    store.ToggleSidebar();
    store.ToggleSidebar();
  }
}
