# koda workspace — a verified model of its core

koda is a single-user personal workspace that runs in the browser. It keeps
notes, tasks, bookmarked links, long-form documents and reusable AI prompts.
There is also an archive for notes and links, a start page ("Today"), a
command palette and global keyboard shortcuts. All of it lives in one
client-side store, and part of that store is persisted to local storage.

This project models in Dafny the store's actions, and the logic of each view
that decides what the store receives and what is listed:

- `store.dfy` (`Store`) holds the state and its actions. The store is a
  `class AppStore` whose methods reassign the collections. Each method is
  specified by a pure function on the old state: `NewNote`, `ApplyNotePatch`,
  `UpdateById`, `RemoveById`, `PinToggled` and the like.
- `types.dfy` (`Types`) holds the five entities, their creation data and their
  partial updates.
- `notes.dfy`, `tasks.dfy`, `links.dfy`, `docs.dfy`, `prompts.dfy`,
  `archive.dfy` and `today.dfy` hold one view each. A view holds its editor or
  form, its save handler and the lists it renders.
- `palette.dfy` (`Palette`) is the command palette: its twelve commands,
  filtering, grouping, the selection and the key handler.
- `shortcuts.dfy` (`Shortcuts`) is the global keyboard-shortcut table.
- `metadata.dfy` (`Metadata`) is the link-metadata hook: the fallback
  metadata and the YouTube/Vimeo URL recogniser, with the regular expressions
  written out as leftmost, backtracking matchers.
- `common.dfy` (`Common`) holds the JavaScript string and array primitives the
  views rely on: `trim`, `toLowerCase`, `includes`, `filter`, `slice` and a
  stable `sort`.

Time is an integer timestamp. Every action that stamps a record takes the
current time `now` as a parameter. Record ids are parameters too, and they
must be fresh. Date predicates (`isToday`, `isPast`, `isFuture`,
`addDays(now, 7)`) read a `Clock` value. `new URL(...)` is a parameter
`parseHost` that returns the host name, or `None` when the constructor
throws.

## Model

| member | source | states |
|---|---|---|
| Store.AppStore.constructor | src/store/appStore.ts:66-75 | the store starts on the Today view, sidebar open, palette closed, all collections empty, light theme |
| Store.AppStore.SetCurrentView | src/store/appStore.ts:78 | only the current view changes |
| Store.AppStore.SetSidebarOpen | src/store/appStore.ts:79 | only the sidebar flag changes; what is persisted is unchanged |
| Store.AppStore.ToggleSidebar | src/store/appStore.ts:80 | the sidebar flag flips; what is persisted is unchanged |
| Store.ToggleSidebarTwice | src/store/appStore.ts:80 | toggling the sidebar twice restores the whole state |
| Store.AppStore.SetCommandPaletteOpen | src/store/appStore.ts:81 | only the palette flag changes; what is persisted is unchanged |
| Store.AppStore.SetTheme | src/store/appStore.ts:230 | only the theme changes |
| Store.NewNote | src/store/appStore.ts:84-93 | a new note carries the given id, both timestamps equal to now, and exactly the given data |
| Store.AppStore.AddNote | src/store/appStore.ts:84-93 | the new note is put in front of the notes; ids stay distinct |
| Store.ApplyNotePatch | src/store/appStore.ts:94-100 | an update keeps id and createdAt, stamps updatedAt, and leaves every field the patch omits |
| Store.UpdateById | src/store/appStore.ts:94-100 | the entity with the id is mapped, every other one is kept, the length is kept |
| Store.UpdateUnknownId | src/store/appStore.ts:94-100 | an update with an unknown id changes nothing |
| Store.UpdateKeepsIds | src/store/appStore.ts:94-100 | an update that keeps ids keeps the ids distinct |
| Store.EmptyNotePatchOnlyRefreshes | src/store/appStore.ts:94-100 | an empty update only refreshes updatedAt of the matching note |
| Store.NotePatchIdempotent | src/store/appStore.ts:94-100 | applying the same update twice is applying it once |
| Store.AppStore.UpdateNote | src/store/appStore.ts:94-100 | notes become the updated notes; the rest of the state is unchanged |
| Store.RemoveById | src/store/appStore.ts:101-103 | deletion keeps, in order, exactly the entities with another id, and keeps ids distinct |
| Store.RemoveUnknownId | src/store/appStore.ts:101-103 | deleting an unknown id changes nothing |
| Store.RemoveExactlyOne | src/store/appStore.ts:101-103 | with distinct ids, deleting the k-th entity's id removes that one entity only |
| Store.AppStore.DeleteNote | src/store/appStore.ts:101-103 | notes become the notes without that id |
| Store.PinToggledTwice | src/store/appStore.ts:104-110 | toggling a pin twice restores every note but the matching note's updatedAt |
| Store.AppStore.TogglePinNote | src/store/appStore.ts:104-110 | the matching note's pin flips |
| Store.NoteArchiveIdempotent | src/store/appStore.ts:111-117 | archiving sets the flag: a second archive changes only the time stamp |
| Store.AppStore.ArchiveNote | src/store/appStore.ts:111-117 | the matching note is archived |
| Store.NewTask | src/store/appStore.ts:120-129 | a new task carries the given id, time and data |
| Store.AppStore.AddTask | src/store/appStore.ts:120-129 | the new task is put in front |
| Store.ApplyTaskPatch | src/store/appStore.ts:130-136 | an update keeps id and createdAt and every omitted field |
| Store.AppStore.UpdateTask | src/store/appStore.ts:130-136 | tasks become the updated tasks |
| Store.AppStore.DeleteTask | src/store/appStore.ts:137-139 | tasks become the tasks without that id |
| Store.CompleteToggledTwice | src/store/appStore.ts:140-146 | toggling completion twice restores every task but the matching task's updatedAt |
| Store.AppStore.ToggleTaskComplete | src/store/appStore.ts:140-146 | the matching task's completion flips |
| Store.NewLink | src/store/appStore.ts:149-158 | a new link carries the given id, time and data |
| Store.AppStore.AddLink | src/store/appStore.ts:149-158 | the new link is put in front |
| Store.ApplyLinkPatch | src/store/appStore.ts:159-165 | an update keeps id and createdAt and every omitted field |
| Store.AppStore.UpdateLink | src/store/appStore.ts:159-165 | links become the updated links |
| Store.AppStore.DeleteLink | src/store/appStore.ts:166-168 | links become the links without that id |
| Store.LinkArchiveIdempotent | src/store/appStore.ts:169-175 | archiving a link twice is archiving it once, at the later time |
| Store.AppStore.ArchiveLink | src/store/appStore.ts:169-175 | the matching link is archived |
| Store.NewDoc | src/store/appStore.ts:178-187 | a new document carries the given id, time, title and content |
| Store.AppStore.AddDoc | src/store/appStore.ts:178-187 | the new document is put in front |
| Store.ApplyDocPatch | src/store/appStore.ts:188-194 | an update keeps id and createdAt and every omitted field |
| Store.AppStore.UpdateDoc | src/store/appStore.ts:188-194 | docs become the updated docs |
| Store.AppStore.DeleteDoc | src/store/appStore.ts:195-197 | docs become the docs without that id |
| Store.NewPrompt | src/store/appStore.ts:200-210 | a new prompt carries the given id, time and data, with a usage count of 0 |
| Store.AppStore.AddPrompt | src/store/appStore.ts:200-210 | the new prompt is put in front |
| Store.ApplyPromptPatch | src/store/appStore.ts:211-217 | an update keeps id and createdAt and every omitted field |
| Store.AppStore.UpdatePrompt | src/store/appStore.ts:211-217 | prompts become the updated prompts |
| Store.AppStore.DeletePrompt | src/store/appStore.ts:218-220 | prompts become the prompts without that id |
| Store.UsageIncrementedByOne | src/store/appStore.ts:221-227 | the matching prompt's count rises by exactly one and only it and its updatedAt change |
| Store.AppStore.IncrementPromptUsage | src/store/appStore.ts:221-227 | prompts become the prompts with that use counted |
| Store.PartializeForgetsOnlyTransientFlags | src/store/appStore.ts:234-242 | two states persist alike exactly when they differ at most in the sidebar and palette flags |
| Notes.Split | src/components/views/NotesView.tsx:123 | `split(',')` gives at least one piece and no piece contains a comma |
| Notes.SplitAfter | src/components/views/NotesView.tsx:123 | splitting after a comma-free prefix gives the prefix and then the rest's pieces |
| Notes.SplitJoined | src/components/views/NotesView.tsx:120 | splitting tags joined by ", " gives back the tags, each after a space |
| Notes.TrimAll | src/components/views/NotesView.tsx:123 | each piece is trimmed, one result per piece |
| Notes.ParseTagsClean | src/components/views/NotesView.tsx:123 | every parsed tag is non-empty, trimmed and comma-free |
| Notes.TrimmedPieceClean | src/components/views/NotesView.tsx:123 | a non-blank comma-free piece, trimmed, is a clean tag |
| Notes.TrimDropsNothingElse | src/components/views/NotesView.tsx:123 | trimming adds no character |
| Notes.TrimSpacedTag | src/components/views/NotesView.tsx:120-123 | a clean tag after a space trims back to itself |
| Notes.SplitShown | src/components/views/NotesView.tsx:120-123 | the tag text splits into one piece per tag |
| Notes.TrimmedPiecesOfShown | src/components/views/NotesView.tsx:120-123 | trimming those pieces gives the tags back |
| Notes.ParseShowTags | src/components/views/NotesView.tsx:120-123 | showing clean tags and parsing the text gives the same tags (round trip) |
| Notes.TagsStableUnderResave | src/components/views/NotesView.tsx:120-123 | tags typed once are stable under any later open-and-save |
| Notes.EditorDefaults | src/components/views/NotesView.tsx:117-120 | the editor starts from the note's fields and its tags joined by ", ", or empty and neutral |
| Notes.SaveNote | src/components/views/NotesView.tsx:122-131 | an edited note is updated in title, content, colour and tags only; a new one is created unpinned and not archived |
| Notes.ResaveKeepsNote | src/components/views/NotesView.tsx:117-131 | opening a note and saving it untouched gives it back with only updatedAt changed |
| Notes.HandleSave | src/components/views/NotesView.tsx:122-131 | the store receives the update or the new note that SaveNote decides |
| Notes.GridIsPermutation | src/components/views/NotesView.tsx:231-237 | the grid shows each shown note exactly once |
| Notes.GridMembership | src/components/views/NotesView.tsx:231-237 | a note is in the grid iff it is not archived and the filter lets it through |
| Notes.GridPinnedFirst | src/components/views/NotesView.tsx:312-325 | pinned notes come before unpinned ones |
| Notes.PinnedFilterShowsOnlyPinned | src/components/views/NotesView.tsx:232-234 | with the pinned filter every note in the grid is pinned |
| Tasks.LaterIsBeyondTheWeek | src/components/views/TasksView.tsx:143-146 | "Later" lists exactly the open future tasks outside the seven-day window |
| Tasks.DueLaterTodayListedTwice | src/components/views/TasksView.tsx:137-142 | a task due later today is listed both under "Today" and "Upcoming" |
| Tasks.SectionOf | src/components/views/TasksView.tsx:136-148 | each section's membership condition, as an iff, with "Upcoming" and "Later" starting after today |
| Tasks.EachTaskInOneSection | src/components/views/TasksView.tsx:129-148 | a task is listed in a section iff the filter shows it and that is its section |
| Tasks.GroupedAgreesWithView | src/components/views/TasksView.tsx:136-148 | the overdue, today, no-date and completed lists equal the view's |
| Tasks.UpcomingAsWritten | src/components/views/TasksView.tsx:138-142 | the view's upcoming list is the corrected one plus the tasks due later today |
| Tasks.FilterEmptiesSections | src/components/views/TasksView.tsx:129-133 | the "completed" filter empties every open section, and the "active" filter empties the completed one |
| Tasks.VisibleSections | src/components/views/TasksView.tsx:253-258 | the completed section is shown iff the filter is not "active" |
| Tasks.BadgeMatchesSection | src/components/views/TasksView.tsx:75-84 | the row's badge says "Overdue" or "Today" exactly for tasks in those sections, and there is none for completed or undated tasks |
| Tasks.RenamePatch | src/components/views/TasksView.tsx:21-26 | a blank title is ignored; any other title is saved trimmed |
| Tasks.TaskItem.constructor | src/components/views/TasksView.tsx:15-16 | a row's editor starts closed, holding the task's title |
| Tasks.TaskItem.ClickTitle | src/components/views/TasksView.tsx:65 | clicking the title opens the editor only for a task that is not completed |
| Tasks.TaskItem.SetEditedTitle | src/components/views/TasksView.tsx:57 | typing changes only the edited text |
| Tasks.TaskItem.HandleSaveEdit | src/components/views/TasksView.tsx:21-26 | the store is unchanged for a blank title or receives the trimmed one, and editing ends on both paths |
| Tasks.NewTaskData | src/components/views/TasksView.tsx:115-122 | a new task is trimmed, open, has no project and no tags, and keeps the chosen due date and priority |
| Tasks.TaskForm.constructor | src/components/views/TasksView.tsx:106-109 | the form starts empty with medium priority |
| Tasks.TaskForm.HandleAddTask | src/components/views/TasksView.tsx:111-127 | a task is added iff the title is not blank; then the form resets, else the form and store are unchanged |
| Today.TodayTasksAreOverdueOrToday | src/components/views/TodayView.tsx:10-12 | the start page lists exactly the tasks in the "Overdue" and "Today" sections |
| Today.TodayBadgeAgrees | src/components/views/TodayView.tsx:96-119 | the start page's badge says what the tasks view's badge says |
| Today.PinnedNotes | src/components/views/TodayView.tsx:13 | at most three pinned, active notes, and all of them when fewer than three |
| Today.PinnedNotesFromFront | src/components/views/TodayView.tsx:13 | the listed notes are the first min(3, n) of the n pinned, active notes, in store order, and a subsequence of the notes |
| Today.RecentDocsShape | src/components/views/TodayView.tsx:14-16 | three documents, or all when fewer, newest edit first |
| Today.RecentDocsAreNewest | src/components/views/TodayView.tsx:14-16 | no document left out was edited after a listed one |
| Today.EmptyExactly | src/components/views/TodayView.tsx:21 | the page is empty iff no open task is due by today, no active note is pinned and there are no documents |
| Today.CountsBounded | src/components/views/TodayView.tsx:18-19 | the pending and edited-today counts are bounded by their collections, and the listed tasks by the pending count |
| Archive.ArchiveAndGridPartitionNotes | src/components/views/ArchiveView.tsx:10 | every note is in exactly one of the archive and the notes grid |
| Archive.EmptyExactly | src/components/views/ArchiveView.tsx:23 | the archive is empty iff no note and no link is archived |
| Archive.RestoreUndoesArchive | src/components/views/ArchiveView.tsx:13-16 | restoring an archived note gives it back with only updatedAt changed |
| Archive.RestoreUndoesArchiveLink | src/components/views/ArchiveView.tsx:18-21 | restoring an archived link gives it back with only updatedAt changed |
| Archive.RestoreLeavesArchive | src/components/views/ArchiveView.tsx:13-16 | restoring one note clears its flag and leaves every other note alone |
| Archive.HandleRestoreNote | src/components/views/ArchiveView.tsx:13-16 | the store receives the update `archived: false` |
| Archive.HandleRestoreLink | src/components/views/ArchiveView.tsx:18-21 | the store receives the update `archived: false` |
| Links.ReplaceFirstAt | src/components/views/LinksView.tsx:135 | `replace` with a string pattern replaces the leftmost occurrence only |
| Links.ReplaceFirstAbsent | src/components/views/LinksView.tsx:135 | without an occurrence nothing is replaced |
| Links.Domain | src/components/views/LinksView.tsx:135 | the domain is the host without a leading "www.", and the host itself otherwise |
| Links.DomainAsWrittenAgrees | src/components/views/LinksView.tsx:135 | for hosts that start with "www." or do not contain it, the code as written gives the domain |
| Links.InnerWwwCutOut | src/components/views/LinksView.tsx:135 | the code as written turns "awww.io" into "aio" |
| Links.NormalizeUrl | src/components/views/LinksView.tsx:131 | the result starts with "http" and ends with the input, which is kept when it starts with "http" |
| Links.NormalizeIdempotent | src/components/views/LinksView.tsx:131 | normalising twice is normalising once |
| Links.Favicon | src/components/views/LinksView.tsx:141 | the favicon address is the service prefix, the domain and "&sz=64" |
| Links.FaviconInjective | src/components/views/LinksView.tsx:141 | different domains get different favicon addresses |
| Links.AddLinkAttempt | src/components/views/LinksView.tsx:123-154 | blank input is ignored iff blank; rejected iff the parser throws; otherwise saved with the URL, the host with its first "www." cut out (as `hostname.replace('www.', '')` does) as title, that domain's favicon and empty fields |
| Links.LinkForm.constructor | src/components/views/LinksView.tsx:119 | the form starts empty and not saving |
| Links.LinkForm.SetNewUrl | src/components/views/LinksView.tsx:123-154 | typing sets the field only |
| Links.InnerWwwSavedAsWritten | src/components/views/LinksView.tsx:135-141 | the form saves a link to host "awww.io" as "aio" with the favicon of "aio", the program's own behaviour |
| Links.LinkForm.HandleAddLink | src/components/views/LinksView.tsx:123-154 | the outcome is AddLinkAttempt's, with its as-written domain; the link is added and the field cleared only when saved; the saving flag ends lowered whenever the input was not blank |
| Links.ActiveAndArchivedPartition | src/components/views/LinksView.tsx:121 | the listing and the archive split the links between them |
| Links.SavedLinkListedFirst | src/components/views/LinksView.tsx:121 | a saved link heads the listing |
| Links.CardDomain | src/components/views/LinksView.tsx:17-23 | a card's domain is the URL's host with its first "www." cut out, as written, or the URL when the parser throws |
| Links.CardTitle | src/components/views/LinksView.tsx:66 | a card's heading is the title whenever it is non-empty, and the card's domain when it is empty |
| Links.SavedLinkCardShowsDomain | src/components/views/LinksView.tsx:17-23 | a link saved through the form shows the domain the form derived |
| Docs.SplitOnSpace | src/components/views/DocsView.tsx:28 | `split(/\s+/)` gives at least one piece |
| Docs.SplitOnSpaceCount | src/components/views/DocsView.tsx:28 | split gives one piece per word plus one for each end that is white space |
| Docs.RunCountTrimStart | src/components/views/DocsView.tsx:28 | leading white space changes no word count |
| Docs.RunCountTrimEnd | src/components/views/DocsView.tsx:28 | trailing white space changes no word count |
| Docs.WordCountIsRunCount | src/components/views/DocsView.tsx:28 | the word count is the number of maximal runs of non-white-space characters |
| Docs.WordCountZeroIffBlank | src/components/views/DocsView.tsx:28 | the word count is zero iff the content is all white space |
| Docs.EditorDefaults | src/components/views/DocsView.tsx:16-17 | the editor starts from the title and the content, or "" when there is none |
| Docs.SavePatch | src/components/views/DocsView.tsx:19-25 | the saved title is never empty and is the typed one when that is non-empty; the content is saved |
| Docs.SavedTitle | src/components/views/DocsView.tsx:19-25 | a saved document's title is as typed, or "Untitled" when empty |
| Docs.SaveUntouched | src/components/views/DocsView.tsx:16-25 | saving the editor untouched changes only updatedAt and missing content to "" |
| Docs.DocsPage.constructor | src/components/views/DocsView.tsx:82 | the page starts with no document open in the editor |
| Docs.DocsPage.Open | src/components/views/DocsView.tsx:153 | clicking a row opens that document in the editor |
| Docs.DocsPage.Close | src/components/views/DocsView.tsx:182 | closing the editor leaves no document open |
| Docs.DocsPage.HandleSave | src/components/views/DocsView.tsx:19-25 | the document is updated and the editor closed |
| Docs.DocsPage.HandleCreateDoc | src/components/views/DocsView.tsx:84-99 | an "Untitled" empty document is added, and the first document of the previous list is opened |
| Docs.CreateNeverOpensNewDoc | src/components/views/DocsView.tsx:93-97 | the document opened after "Create" is not the one just added |
| Docs.DocsPage.HandleCreateDocOpeningNew | src/components/views/DocsView.tsx:84-99 | the same "Untitled" document is added, and the editor opens it: the first document of the new list, which carries the fresh id |
| Docs.DocsPage.HandleDelete | src/components/views/DocsView.tsx:165-168 | the document is deleted |
| Docs.DeleteRemovesOnlyThatDoc | src/components/views/DocsView.tsx:165-168 | deleting a document removes that one only and keeps the order |
| Prompts.WordRun | src/components/views/PromptsView.tsx:182 | `\w+` takes the longest prefix of word characters |
| Prompts.PlaceholderAt | src/components/views/PromptsView.tsx:182 | a match at a position is a `{{name}}` with a non-empty word name |
| Prompts.PlaceholderAtFinds | src/components/views/PromptsView.tsx:182 | every `{{name}}` at a position is matched there |
| Prompts.GlobalMatch | src/components/views/PromptsView.tsx:182 | the global match gives one placeholder per name found |
| Prompts.StripPlaceholder | src/components/views/PromptsView.tsx:183 | stripping the braces of `{{name}}` gives the name |
| Prompts.Dedup | src/components/views/PromptsView.tsx:183 | `[...new Set(..)]` keeps each name once, in order of first appearance |
| Prompts.DetectVariablesIsDedup | src/components/views/PromptsView.tsx:181-184 | the detected variables are the matched names without repeats |
| Prompts.MatchNamesSound | src/components/views/PromptsView.tsx:182 | every matched name's placeholder occurs in the content |
| Prompts.MatchNamesComplete | src/components/views/PromptsView.tsx:182 | every placeholder in the content is matched |
| Prompts.DetectVariablesExactly | src/components/views/PromptsView.tsx:181-184 | v is detected iff it is a word name whose `{{v}}` occurs in the content |
| Prompts.DetectVariablesDistinct | src/components/views/PromptsView.tsx:183 | detected variables are distinct |
| Prompts.DetectVariablesRepeat | src/components/views/PromptsView.tsx:181-184 | `{{b}}{{a}}{{b}}` gives [b, a] |
| Prompts.DetectVariablesExtraBraces | src/components/views/PromptsView.tsx:182 | `{{{a}}}` gives [a] |
| Prompts.ReplaceAllBySelf | src/components/views/PromptsView.tsx:43 | replacing a pattern by itself changes nothing |
| Prompts.ReplaceAllAbsent | src/components/views/PromptsView.tsx:43 | replacing an absent pattern changes nothing |
| Prompts.ValueFor | src/components/views/PromptsView.tsx:43 | the replacement is the typed value, or the placeholder when none is typed |
| Prompts.FillWithoutValues | src/components/views/PromptsView.tsx:40-44 | with no values typed the template comes back unchanged |
| Prompts.FillAbsentVariables | src/components/views/PromptsView.tsx:40-44 | variables not in the template change nothing |
| Prompts.PlaceholderNoSelfOverlap | src/components/views/PromptsView.tsx:43 | a placeholder `{{name}}` never overlaps itself: no proper suffix of it is also a prefix |
| Prompts.NoMatchAt | src/components/views/PromptsView.tsx:43 | a text that does not contain the pattern has no match at any position |
| Prompts.ReplaceAllSkips | src/components/views/PromptsView.tsx:43 | text in which no match of the pattern starts is passed over unchanged by the global replace |
| Prompts.NoMatchInPiece | src/components/views/PromptsView.tsx:43 | in a piece without the placeholder followed by the placeholder, no match starts inside the piece |
| Prompts.ReplaceAllJoined | src/components/views/PromptsView.tsx:43 | every occurrence of a placeholder between pieces that do not contain it is replaced by the replacement |
| Prompts.FillEveryOccurrence | src/components/views/PromptsView.tsx:40-44 | filling one variable turns any text made of pieces without its placeholder, joined by the placeholder, into the same pieces joined by its value, in the corrected fill and, for names not all digits, in the fill as written |
| Prompts.PatternAsWritten | src/components/views/PromptsView.tsx:43 | the pattern as written is the placeholder for names that are not all digits |
| Prompts.FillAsWrittenAgrees | src/components/views/PromptsView.tsx:40-44 | for names that are not all digits, the code as written fills like the corrected fill |
| Prompts.DigitNameCounterexample | src/components/views/PromptsView.tsx:43 | with variable "0" and no value, the code as written turns `{{0}}` into `{{0{{0}}{{0}}` |
| Prompts.DigitNamePattern | src/components/views/PromptsView.tsx:43 | for the name "0" the pattern as written matches "}" |
| Prompts.FillTemplate | src/components/views/PromptsView.tsx:40-44 | the loop with literal placeholders computes the corrected fill |
| Prompts.FillTemplateAsWritten | src/components/views/PromptsView.tsx:40-44 | the loop with the patterns the source builds computes the fill as written |
| Prompts.PromptCard.constructor | src/components/views/PromptsView.tsx:25 | a card starts with the form closed and no values |
| Prompts.PromptCard.HandleCopy | src/components/views/PromptsView.tsx:27-38 | a prompt with variables opens the form; one without is copied as is and its use counted |
| Prompts.PromptCard.SetValue | src/components/views/PromptsView.tsx:139 | typing sets one variable's value |
| Prompts.PromptCard.CloseForm | src/components/views/PromptsView.tsx:120 | cancel closes the form and keeps the values |
| Prompts.PromptCard.HandleCopyWithVariables | src/components/views/PromptsView.tsx:40-51 | the template filled in as written is copied, which is the corrected fill when no name is all digits; the use is counted, the form closed and the values cleared |
| Prompts.CopyUntouchedForm | src/components/views/PromptsView.tsx:27-51 | submitting the form untouched copies the template filled in as written with no values, which is the template unchanged when no variable name is all digits |
| Prompts.EditorDefaults | src/components/views/PromptsView.tsx:176-178 | the editor starts from the prompt, or empty with category "other" |
| Prompts.SavePrompt | src/components/views/PromptsView.tsx:186-199 | refused iff title or content is blank; else an update or a creation with the detected variables |
| Prompts.SavedVariablesMatchContent | src/components/views/PromptsView.tsx:181-195 | a created prompt's variables are exactly the placeholders of its content |
| Prompts.HandleSave | src/components/views/PromptsView.tsx:186-199 | the store is unchanged, updated or extended as SavePrompt decides |
| Prompts.SortPrompts | src/components/views/PromptsView.tsx:304-314 | the sorted prompts are a permutation, ordered by uses, title rank or creation time |
| Prompts.SortByUsageKeepsTies | src/components/views/PromptsView.tsx:308 | prompts with equal counts keep their store order |
| Common.SortDescStable | src/components/views/PromptsView.tsx:304-314 | the sort is stable: elements with equal keys keep their order |
| Common.Trim | src/components/views/TasksView.tsx:113 | the trimmed string has no white space at either end |
| Common.BlankIffAllSpace | src/components/views/TasksView.tsx:113 | a string trims to empty iff it is all white space |
| Common.TrimIdempotent | src/components/views/TasksView.tsx:116 | trimming twice is trimming once |
| Common.Lower | src/hooks/useKeyboardShortcuts.ts:22 | lowercasing maps each character and keeps the length |
| Palette.CommandEffect | src/components/layout/CommandPalette.tsx:49-170 | running a command switches to its view, closes the palette and adds a blank note or an untitled document only for the two "new" commands |
| Palette.NewNoteCommand | src/components/layout/CommandPalette.tsx:51-63 | "new-note" adds an empty neutral note in front and shows the notes |
| Palette.CommandEffectValid | src/components/layout/CommandPalette.tsx:49-170 | running a command keeps ids distinct |
| Palette.FilterCommands | src/components/layout/CommandPalette.tsx:172-180 | a blank query lists every command |
| Palette.FilteredExactly | src/components/layout/CommandPalette.tsx:172-180 | otherwise a command is listed iff its label, description or a keyword contains the lowercased query |
| Palette.FilteredKeepsOrder | src/components/layout/CommandPalette.tsx:172-180 | the filtered commands keep their order |
| Palette.GroupOrder | src/components/layout/CommandPalette.tsx:182-189 | groups appear once each, and exactly those present |
| Palette.GroupCommands | src/components/layout/CommandPalette.tsx:182-189 | the loop builds one list per present group, each the commands of that group in order |
| Palette.EachCommandInOneGroup | src/components/layout/CommandPalette.tsx:182-189 | a command is in a group's list iff that is its group |
| Palette.GroupsPartition | src/components/layout/CommandPalette.tsx:182-189 | the three groups' lists together are the filtered commands |
| Palette.NextIndex | src/components/layout/CommandPalette.tsx:208 | ArrowDown moves one down, stopping at the last command |
| Palette.PrevIndex | src/components/layout/CommandPalette.tsx:212 | ArrowUp moves one up, stopping at the first command |
| Palette.ArrowsStayInList | src/components/layout/CommandPalette.tsx:206-213 | from a valid selection the arrows keep it inside the list |
| Palette.CommandPalette.constructor | src/components/layout/CommandPalette.tsx:46-47 | the palette starts with an empty query and the first entry selected |
| Palette.CommandPalette.SetQuery | src/components/layout/CommandPalette.tsx:191-193 | a changed query resets the selection |
| Palette.CommandPalette.Hover | src/components/layout/CommandPalette.tsx:287 | hovering selects that entry |
| Palette.CommandPalette.OnOpenChange | src/components/layout/CommandPalette.tsx:225-230 | a closed palette has its query and selection reset |
| Palette.CommandPalette.RunCommand | src/components/layout/CommandPalette.tsx:286 | clicking an entry has the command's effect |
| Palette.CommandPalette.HandleKey | src/components/layout/CommandPalette.tsx:196-219 | Cmd/Ctrl+K toggles the palette; while open, Escape closes, arrows move and Enter runs the selected command; which keys are prevented |
| Shortcuts.Decide | src/hooks/useKeyboardShortcuts.ts:8-60 | an action needs the modifier and no typing (or an open palette); the default is prevented iff there is an action or the key is Cmd/Ctrl+K |
| Shortcuts.ModKSwallowed | src/hooks/useKeyboardShortcuts.ts:14-17 | Cmd/Ctrl+K is prevented and does nothing here |
| Shortcuts.TypingBlocksShortcuts | src/hooks/useKeyboardShortcuts.ts:20 | typing with the palette closed blocks every shortcut |
| Shortcuts.NoModifierNoAction | src/hooks/useKeyboardShortcuts.ts:25-59 | without Meta or Ctrl nothing happens |
| Shortcuts.ShortcutTable | src/hooks/useKeyboardShortcuts.ts:25-58 | "/" toggles the sidebar, "h" and "1" to "5" select the six views, and other keys do nothing |
| Shortcuts.CaseInsensitive | src/hooks/useKeyboardShortcuts.ts:22 | keys are compared lowercased |
| Shortcuts.Perform | src/hooks/useKeyboardShortcuts.ts:25-58 | an action changes the sidebar flag or the view only |
| Shortcuts.PerformKeepsCollections | src/hooks/useKeyboardShortcuts.ts:25-58 | a shortcut never changes the collections, the theme or the palette flag |
| Shortcuts.HandleKeyDown | src/hooks/useKeyboardShortcuts.ts:8-60 | the store changes as the decision says |
| Metadata.LineEnd | src/hooks/useLinkMetadata.ts:55 | `.*` stops at the first line terminator |
| Metadata.TwoSegments | src/hooks/useLinkMetadata.ts:55 | the `[^/]+\/.+\/` alternative ends at a slash before an id |
| Metadata.ShortPath | src/hooks/useLinkMetadata.ts:55 | the `v/`, `e/` and `embed/` alternatives are followed by an id |
| Metadata.VParam | src/hooks/useLinkMetadata.ts:55 | the `.*[?&]v=` alternative is followed by an id |
| Metadata.YouTubeAt | src/hooks/useLinkMetadata.ts:55 | a match at a position starts with "youtube.com/" or "youtu.be/" and is followed by an id |
| Metadata.YouTubeId | src/hooks/useLinkMetadata.ts:54-58 | a found YouTube id has eleven allowed characters and occurs in the URL |
| Metadata.YouTubeFound | src/hooks/useLinkMetadata.ts:54-58 | a match anywhere means an id is found |
| Metadata.ShortLinkFound | src/hooks/useLinkMetadata.ts:55 | "youtu.be/" followed by an id is always found |
| Metadata.DigitRun | src/hooks/useLinkMetadata.ts:62 | `\d+` takes the longest run of digits |
| Metadata.VimeoId | src/hooks/useLinkMetadata.ts:61-65 | a found Vimeo id is a non-empty run of digits |
| Metadata.ParseVideoUrl | src/hooks/useLinkMetadata.ts:52-68 | a URL is a video iff a type and an id are given; YouTube is checked first |
| Metadata.YouTubeTriedFirst | src/hooks/useLinkMetadata.ts:57-63 | a URL that matches both is a YouTube video |
| Metadata.NoVideoWithoutLetters | src/hooks/useLinkMetadata.ts:67 | a URL without 'y' or 'v' is not a video |
| Metadata.WatchPage | src/hooks/useLinkMetadata.ts:52-59 | a watch page gives a YouTube video with its id |
| Metadata.VimeoPage | src/hooks/useLinkMetadata.ts:61-65 | a vimeo.com page with digits gives a Vimeo video with those digits |
| Metadata.VimeoPageNotYouTube | src/hooks/useLinkMetadata.ts:55 | a vimeo.com page never matches the YouTube expression |
| Metadata.WatchExample | src/hooks/useLinkMetadata.ts:52-59 | a concrete watch URL gives its id |
| Metadata.VimeoExample | src/hooks/useLinkMetadata.ts:61-65 | a concrete Vimeo URL gives its id |
| Metadata.ArticleExample | src/hooks/useLinkMetadata.ts:67 | an article URL is not a video |
| Metadata.FallbackMetadata | src/hooks/useLinkMetadata.ts:31-46 | the fallback is the host with its first "www." cut out, as written, as title, no description, no image and that domain's favicon; none when the URL does not parse |
| Metadata.FallbackAgreesWithSavedLink | src/hooks/useLinkMetadata.ts:31-38 | the fallback's title and favicon are those the links form saved |

## Left out

- The network request to the metadata service, and the success branch of `fetchMetadata` that uses its answer. Only the fallback is modelled, and the `loading` flag is not.
- The clipboard, toasts, the "copied" flag and its two-second timer.
- Animations, layout and the rendering of lists and cards beyond their contents and order.
- The settings view's export, and the rich-text editor (it shows the same word count as `Docs.WordCount`).
- The persistence machinery and rehydration. Only `partialize`, the choice of what is persisted, is modelled.
- Record ids are parameters with a freshness precondition. The source draws them from `Math.random` and does not check freshness.
- Partial updates never carry `id`, `createdAt` or `updatedAt`. Callers never pass them, so the patch types leave them out.
- URL parsing is the parameter `parseHost`. The WHATWG URL parser is not part of this model.
- Date parsing of the due-date field and the date-library calls are abstracted by `Clock`. Each handler reads one `now` where the source calls `new Date()` several times.
- `localeCompare` is modelled by a `collate` rank on titles.
- `Common.Lower`: lowercasing covers ASCII letters only. JavaScript's `toLowerCase` is full Unicode case mapping.
- `Prompts.Fill`: `$` sequences in a typed value, which `String.prototype.replace` would expand, are treated as plain text; the same holds for `Prompts.FillAsWritten`.
- `Prompts.ValueFor`: the typed values are a map, so a name with no value typed always falls back to its placeholder. In the source, `variableValues` is a plain object, so names inherited from `Object.prototype` read an inherited member instead. With no value typed, `{{toString}}` copies "[object Undefined]" and `{{__proto__}}` copies "[object Object]". `{{valueOf}}` makes the replace throw, so nothing is copied and no use is counted.
- `Prompts.PromptCard.HandleCopyWithVariables`: the prompt's variables must be `\w+` names, as the editor detects them. The regular expression built from any other text is not modelled.
- `Docs.DocsPage.HandleCreateDoc`: the `setTimeout` callback is modelled as running right after the add.
- `Links.LinkForm.HandleAddLink`: the flag `isAdding` is raised during the call, but that state is not observable in the model.

## Findings

| source | as written | input that shows it | evidently intended | confidence | as-written member | corrected member |
|---|---|---|---|---|---|---|
| src/components/views/PromptsView.tsx:43 | the pattern `{{${v}}}` is compiled as a regular expression, so for an all-digit variable name `{{0}}` reads as a quantifier and the pattern matches `}` | a prompt `{{0}}` (detected variable "0") copied with no value: the code as written turns it into `{{0{{0}}{{0}}` | every literal `{{0}}` replaced by its value, or kept when none is typed | not executed | Prompts.FillAsWritten, Prompts.DigitNameCounterexample | Prompts.Fill, Prompts.FillTemplate |
| src/components/views/TasksView.tsx:137-142 | "Upcoming (7 days)" tests only `isFuture` and the seven-day window, so it also takes tasks due later today | a task due at 5 on a clock at 2 where a day is 10 units is listed under "Today" and under "Upcoming" | each open task in exactly one section | not executed | Tasks.GroupsAsWritten, Tasks.DueLaterTodayListedTwice | Tasks.SectionOf, Tasks.EachTaskInOneSection |
| src/components/views/LinksView.tsx:135 | `hostname.replace('www.', '')` cuts the first "www." anywhere in the host, not only a leading one (the same at LinksView.tsx:19 and useLinkMetadata.ts:32,40) | host "awww.io" becomes "aio", whose favicon the new link then shows | strip only a leading "www." | not executed | Links.DomainAsWritten, Links.InnerWwwCutOut | Links.Domain, Links.DomainAsWrittenAgrees |
| src/components/views/DocsView.tsx:94-97 | the `setTimeout` callback reads `docs` as captured when the page last rendered, so `docs[0]` is the newest document from before the add | "Create" on a page listing document A opens A in the editor, not the new "Untitled" document; on an empty list the editor stays as it was | the newly created document opened, as the comment at DocsView.tsx:94 says | not executed | Docs.DocsPage.HandleCreateDoc, Docs.CreateNeverOpensNewDoc | Docs.DocsPage.HandleCreateDocOpeningNew |
