/** The archive (src/components/views/ArchiveView.tsx): the archived notes and
    links, each of which can be restored or deleted for good. */
module Archive {
  import opened Common
  import opened Types
  import opened Store
  import Notes

  predicate IsArchivedNote(n: Note) { n.archived }
  predicate IsArchivedLink(l: Link) { l.archived }

  /** `archivedNotes`, in store order. */
  function ArchivedNotes(notes: seq<Note>): seq<Note> {
    Filter(notes, IsArchivedNote)
  }

  /** `archivedLinks`, in store order. */
  function ArchivedLinks(links: seq<Link>): seq<Link> {
    Filter(links, IsArchivedLink)
  }

  /** Every note is either in the archive or in the notes grid (without the
      "pinned" filter), never both. */
  lemma ArchiveAndGridPartitionNotes(notes: seq<Note>)
    ensures multiset(ArchivedNotes(notes)) + multiset(Notes.Grid(notes, Notes.AllNotes)) == multiset(notes)
  {
    Notes.GridIsPermutation(notes, Notes.AllNotes);
    FilterPartition(notes, IsArchivedNote, Notes.IsActive);
  }

  /** The archive is empty exactly when no note and no link is archived. */
  lemma EmptyExactly(notes: seq<Note>, links: seq<Link>)
    ensures ArchivedNotes(notes) == [] && ArchivedLinks(links) == [] <==>
      (forall i :: 0 <= i < |notes| ==> !notes[i].archived) && (forall i :: 0 <= i < |links| ==> !links[i].archived)
  {
    FilterEmpty(notes, IsArchivedNote);
    FilterEmpty(links, IsArchivedLink);
  }

  /** `updateNote(id, { archived: false })` and `updateLink(id, { archived: false })`. */
  const RestoreNotePatch := NoNoteChanges.(archived := Some(false))
  const RestoreLinkPatch := NoLinkChanges.(archived := Some(false))

  /** Archiving a note and restoring it gives the note back with `archived` cleared:
      no other field but `updatedAt` moves. */
  lemma RestoreUndoesArchive(n: Note, t1: Time, t2: Time)
    ensures var archived := n.(archived := true, updatedAt := t1);
      ApplyNotePatch(archived, RestoreNotePatch, t2) == n.(archived := false, updatedAt := t2)
  {
  }

  lemma RestoreUndoesArchiveLink(l: Link, t1: Time, t2: Time)
    ensures var archived := l.(archived := true, updatedAt := t1);
      ApplyLinkPatch(archived, RestoreLinkPatch, t2) == l.(archived := false, updatedAt := t2)
  {
  }

  /** Restoring the note at position `k` takes it out of the archive, leaves every
      other note's archive state alone, and keeps the store's order. */
  lemma RestoreLeavesArchive(notes: seq<Note>, k: nat, now: Time)
    requires DistinctIds(notes, NoteId) && k < |notes|
    ensures var r := UpdatedNotes(notes, notes[k].id, RestoreNotePatch, now);
      |r| == |notes| && !r[k].archived && r[k].id == notes[k].id &&
      forall i :: 0 <= i < |notes| && i != k ==> r[i] == notes[i]
  {
  }

  method HandleRestoreNote(store: AppStore, id: Id, now: Time)
    requires store.Valid()
    modifies store
    ensures store.Valid()
    ensures store.Snapshot() == old(store.Snapshot()).(notes := UpdatedNotes(old(store.notes), id, RestoreNotePatch, now))
  {
    store.UpdateNote(id, RestoreNotePatch, now);
  }

  method HandleRestoreLink(store: AppStore, id: Id, now: Time)
    requires store.Valid()
    modifies store
    ensures store.Valid()
    ensures store.Snapshot() == old(store.Snapshot()).(links := UpdatedLinks(old(store.links), id, RestoreLinkPatch, now))
  {
    store.UpdateLink(id, RestoreLinkPatch, now);
  }
}
