/** The workspace's entities and enumerations (src/types/index.ts).

    Dates are integer timestamps (milliseconds); identifiers are opaque strings.
    For each entity there is also the shape a caller hands to the store when
    creating one (everything but `id`, `createdAt` and `updatedAt`), and the
    shape of a partial update (every field optional). */
module Types {
  import opened Common

  type Time = int
  type Id = string

  datatype NoteColor = Blue | Green | Yellow | Pink | Purple | Neutral
  datatype Priority = Low | Medium | High
  datatype PromptCategory = Writing | Coding | Brainstorming | Other
  datatype ViewType = TodayView | NotesView | TasksView | LinksView | DocsView | PromptsView | SettingsView | ArchiveView
  datatype Theme = Light | Dark | System

  datatype Note = Note(
    id: Id, title: string, content: string, color: NoteColor,
    pinned: bool, archived: bool, tags: seq<string>,
    createdAt: Time, updatedAt: Time)

  datatype Task = Task(
    id: Id, title: string, completed: bool, dueDate: Option<Time>,
    priority: Priority, project: Option<string>, tags: seq<string>,
    createdAt: Time, updatedAt: Time)

  datatype Link = Link(
    id: Id, url: string, title: string, description: string, favicon: string,
    collection: Option<string>, tags: seq<string>, archived: bool,
    createdAt: Time, updatedAt: Time)

  /** A document's content is whatever the editor stored: a string, or nothing
      (`null`) when it was created from the command palette. */
  datatype Doc = Doc(id: Id, title: string, content: Option<string>, createdAt: Time, updatedAt: Time)

  datatype Prompt = Prompt(
    id: Id, title: string, content: string, category: PromptCategory,
    variables: seq<string>, usageCount: nat, createdAt: Time, updatedAt: Time)

  // What a caller supplies to create an entity (`Omit<Entity, 'id' | 'createdAt' | 'updatedAt'>`).

  datatype NoteData = NoteData(title: string, content: string, color: NoteColor, pinned: bool, archived: bool, tags: seq<string>)
  datatype TaskData = TaskData(title: string, completed: bool, dueDate: Option<Time>, priority: Priority, project: Option<string>, tags: seq<string>)
  datatype LinkData = LinkData(url: string, title: string, description: string, favicon: string, collection: Option<string>, tags: seq<string>, archived: bool)
  datatype DocData = DocData(title: string, content: Option<string>)
  /** A new prompt's `usageCount` is not the caller's to choose. */
  datatype PromptData = PromptData(title: string, content: string, category: PromptCategory, variables: seq<string>)

  // What a caller supplies to update an entity (`Partial<Entity>`): `None` leaves the field alone.

  datatype NotePatch = NotePatch(
    title: Option<string>, content: Option<string>, color: Option<NoteColor>,
    pinned: Option<bool>, archived: Option<bool>, tags: Option<seq<string>>)
  datatype TaskPatch = TaskPatch(
    title: Option<string>, completed: Option<bool>, dueDate: Option<Option<Time>>,
    priority: Option<Priority>, project: Option<Option<string>>, tags: Option<seq<string>>)
  datatype LinkPatch = LinkPatch(
    url: Option<string>, title: Option<string>, description: Option<string>, favicon: Option<string>,
    collection: Option<Option<string>>, tags: Option<seq<string>>, archived: Option<bool>)
  datatype DocPatch = DocPatch(title: Option<string>, content: Option<Option<string>>)
  datatype PromptPatch = PromptPatch(
    title: Option<string>, content: Option<string>, category: Option<PromptCategory>,
    variables: Option<seq<string>>, usageCount: Option<nat>)

  const NoNoteChanges := NotePatch(None, None, None, None, None, None)
  const NoTaskChanges := TaskPatch(None, None, None, None, None, None)
  const NoLinkChanges := LinkPatch(None, None, None, None, None, None, None)
  const NoDocChanges := DocPatch(None, None)
  const NoPromptChanges := PromptPatch(None, None, None, None, None)

  function NoteId(n: Note): Id { n.id }
  function TaskId(t: Task): Id { t.id }
  function LinkId(l: Link): Id { l.id }
  function DocId(d: Doc): Id { d.id }
  function PromptId(p: Prompt): Id { p.id }
}
