/** The notes view (src/components/views/NotesView.tsx): the editor, which shows
    a note's tags as one comma-separated text and reads them back, and the grid,
    which lists the notes that are not archived, pinned ones first. */
module Notes {
  import opened Common
  import opened Types
  import opened Store

  // ---------------------------------------------------------------------------
  // Splitting and joining
  // ---------------------------------------------------------------------------

  /** `s.split(c)`: the pieces between occurrences of `c`, empty pieces included;
      there is always at least one. */
  function Split(s: string, c: char): (parts: seq<string>)
    ensures |parts| >= 1
    ensures forall i :: 0 <= i < |parts| ==> c !in parts[i]
    decreases |s|
  {
    if s == [] then [""]
    else if s[0] == c then [""] + Split(s[1..], c)
    else
      var rest := Split(s[1..], c);
      [[s[0]] + rest[0]] + rest[1..]
  }

  /** Splitting a text with no separator gives the text itself. */
  lemma {:induction false} SplitWithout(s: string, c: char)
    requires c !in s
    ensures Split(s, c) == [s]
    decreases |s|
  {
    if s != [] {
      assert c !in s[1..] && s[0] != c;
      SplitWithout(s[1..], c);
      assert [s[0]] + s[1..] == s;
    }
  }

  /** A separator after a separator-free piece ends that piece. */
  lemma {:induction false} SplitAfter(a: string, c: char, rest: string)
    requires c !in a
    ensures Split(a + [c] + rest, c) == [a] + Split(rest, c)
    decreases |a|
  {
    if a == [] {
      assert a + [c] + rest == [c] + rest;
    } else {
      assert (a + [c] + rest)[1..] == a[1..] + [c] + rest;
      assert (a + [c] + rest)[0] == a[0];
      SplitAfter(a[1..], c, rest);
      assert [a[0]] + a[1..] == a;
    }
  }

  /** Each piece of a list joined with ", " comes back from `split(',')` with the
      space in front of it. */
  lemma {:induction false} SplitJoined(p: string, xs: seq<string>)
    requires ',' !in p && xs != []
    requires forall i :: 0 <= i < |xs| ==> ',' !in xs[i]
    ensures Split(p + Join(xs, ", "), ',') ==
      [p + xs[0]] + seq(|xs| - 1, i requires 0 <= i < |xs| - 1 => " " + xs[i + 1])
    decreases |xs|
  {
    if |xs| == 1 {
      assert ',' !in p + xs[0];
      SplitWithout(p + xs[0], ',');
    } else {
      var rest := Join(xs[1..], ", ");
      assert p + Join(xs, ", ") == (p + xs[0]) + [','] + (" " + rest);
      assert ',' !in p + xs[0];
      SplitAfter(p + xs[0], ',', " " + rest);
      SplitJoined(" ", xs[1..]);
    }
  }

  // ---------------------------------------------------------------------------
  // Tags in the editor
  // ---------------------------------------------------------------------------

  predicate NonEmpty(t: string) { t != "" }

  /** What a tag read from the editor looks like: not empty, without a comma and
      without white space at either end. */
  predicate IsCleanTag(t: string) {
    t != "" && ',' !in t && Trim(t) == t
  }

  /** Each piece trimmed (`map(t => t.trim())`). */
  function TrimAll(parts: seq<string>): (r: seq<string>)
    ensures |r| == |parts| && forall i :: 0 <= i < |parts| ==> r[i] == Trim(parts[i])
  {
    seq(|parts|, i requires 0 <= i < |parts| => Trim(parts[i]))
  }

  /** `tagsInput.split(',').map(t => t.trim()).filter(Boolean)`. */
  function ParseTags(input: string): seq<string> {
    Filter(TrimAll(Split(input, ',')), NonEmpty)
  }

  /** Every tag read from the editor is clean. */
  lemma ParseTagsClean(input: string)
    ensures forall i :: 0 <= i < |ParseTags(input)| ==> IsCleanTag(ParseTags(input)[i])
  {
    var parts := Split(input, ',');
    var trimmed := TrimAll(parts);
    var tags := Filter(trimmed, NonEmpty);
    forall i | 0 <= i < |tags| ensures IsCleanTag(tags[i]) {
      assert tags[i] in trimmed && tags[i] != "";
      var k :| 0 <= k < |trimmed| && trimmed[k] == tags[i];
      TrimmedPieceClean(parts[k]);
    }
  }

  lemma TrimmedPieceClean(part: string)
    requires ',' !in part && Trim(part) != ""
    ensures IsCleanTag(Trim(part))
  {
    TrimIdempotent(part);
    TrimDropsNothingElse(part, ',');
  }

  /** Trimming only removes white space, so it adds no character that was absent. */
  lemma TrimDropsNothingElse(s: string, c: char)
    requires c !in s
    ensures c !in Trim(s)
  {
    var lo := TrimIsSlice(s);
  }

  /** `tags.join(', ')`, the text the editor starts from. */
  function ShowTags(tags: seq<string>): string {
    Join(tags, ", ")
  }

  /** A clean tag after the separator's space trims back to itself. */
  lemma TrimSpacedTag(t: string)
    requires IsCleanTag(t)
    ensures Trim(" " + t) == t
  {
    assert AllSpace(" ");
    TrimSkipsLeadingSpace(" ", t);
  }

  lemma SplitShown(tags: seq<string>)
    requires tags != [] && forall i :: 0 <= i < |tags| ==> ',' !in tags[i]
    ensures var parts := Split(ShowTags(tags), ',');
      |parts| == |tags| && parts[0] == tags[0] && forall i :: 0 < i < |tags| ==> parts[i] == " " + tags[i]
  {
    SplitJoined("", tags);
    assert "" + ShowTags(tags) == ShowTags(tags);
    assert "" + tags[0] == tags[0];
  }

  /** The pieces of the shown text, trimmed, are the tags. */
  lemma TrimmedPiecesOfShown(tags: seq<string>)
    requires tags != [] && forall i :: 0 <= i < |tags| ==> IsCleanTag(tags[i])
    ensures TrimAll(Split(ShowTags(tags), ',')) == tags
  {
    var parts := Split(ShowTags(tags), ',');
    SplitShown(tags);
    forall i | 0 <= i < |tags| ensures Trim(parts[i]) == tags[i] {
      if i == 0 {
        TrimOfTrimmed(tags[0]);
      } else {
        TrimSpacedTag(tags[i]);
      }
    }
  }

  /** Opening a note in the editor and saving it gives back the same tags, as long
      as each tag looks like one the editor produces. */
  lemma ParseShowTags(tags: seq<string>)
    requires forall i :: 0 <= i < |tags| ==> IsCleanTag(tags[i])
    ensures ParseTags(ShowTags(tags)) == tags
  {
    if tags == [] {
      assert Split("", ',') == [""];
      assert TrimAll([""]) == [""];
      assert Filter([""], NonEmpty) == [];
    } else {
      TrimmedPiecesOfShown(tags);
      FilterKeepsAll(tags, NonEmpty);
    }
  }

  /** Saving a note again without touching the tag field keeps its tags. */
  lemma TagsStableUnderResave(input: string)
    ensures ParseTags(ShowTags(ParseTags(input))) == ParseTags(input)
  {
    ParseTagsClean(input);
    ParseShowTags(ParseTags(input));
  }

  // ---------------------------------------------------------------------------
  // The editor
  // ---------------------------------------------------------------------------

  datatype EditorFields = EditorFields(title: string, content: string, color: NoteColor, tagsText: string)

  /** The editor's initial fields: the note's own, or empty and neutral for a new one. */
  function EditorDefaults(editing: Option<Note>): (f: EditorFields)
    ensures editing.None? ==> f == EditorFields("", "", Neutral, "")
    ensures editing.Some? ==> f == EditorFields(editing.value.title, editing.value.content,
                                                editing.value.color, ShowTags(editing.value.tags))
  {
    match editing
    case None => EditorFields("", "", Neutral, "")
    case Some(n) => EditorFields(n.title, n.content, n.color, ShowTags(n.tags))
  }

  datatype SaveOutcome = Update(id: Id, patch: NotePatch) | Create(data: NoteData)

  /** `handleSave`: nothing is refused, not even an empty note. An edited note gets
      its title, content, colour and tags replaced and keeps its pin and archive
      flags; a new one starts unpinned and not archived. */
  function SaveNote(f: EditorFields, editing: Option<Note>): (o: SaveOutcome)
    ensures o.Update? <==> editing.Some?
    ensures o.Update? ==> (o.id == editing.value.id
      && o.patch == NotePatch(Some(f.title), Some(f.content), Some(f.color), None, None, Some(ParseTags(f.tagsText))))
    ensures o.Create? ==> o.data == NoteData(f.title, f.content, f.color, false, false, ParseTags(f.tagsText))
  {
    match editing
    case Some(n) => Update(n.id, NotePatch(Some(f.title), Some(f.content), Some(f.color), None, None, Some(ParseTags(f.tagsText))))
    case None => Create(NoteData(f.title, f.content, f.color, false, false, ParseTags(f.tagsText)))
  }

  /** Opening a note and saving it unchanged rewrites it with its own values
      (its tags as read back from their text) and a new `updatedAt`. */
  lemma ResaveKeepsNote(n: Note, now: Time)
    requires forall i :: 0 <= i < |n.tags| ==> IsCleanTag(n.tags[i])
    ensures SaveNote(EditorDefaults(Some(n)), Some(n)).Update?
    ensures ApplyNotePatch(n, SaveNote(EditorDefaults(Some(n)), Some(n)).patch, now) == n.(updatedAt := now)
  {
    ParseShowTags(n.tags);
  }

  method HandleSave(store: AppStore, f: EditorFields, editing: Option<Note>, newId: Id, now: Time)
    returns (o: SaveOutcome)
    requires store.Valid() && FreshId(store.notes, NoteId, newId)
    modifies store
    ensures store.Valid() && o == SaveNote(f, editing)
    ensures o.Update? ==> store.Snapshot() == old(store.Snapshot()).(notes := UpdatedNotes(old(store.notes), o.id, o.patch, now))
    ensures o.Create? ==> store.Snapshot() == old(store.Snapshot()).(notes := [NewNote(o.data, newId, now)] + old(store.notes))
  {
    o := SaveNote(f, editing);
    match o
    case Update(id, patch) => store.UpdateNote(id, patch, now);
    case Create(data) => store.AddNote(data, newId, now);
  }

  // ---------------------------------------------------------------------------
  // The grid
  // ---------------------------------------------------------------------------

  datatype NoteFilter = AllNotes | PinnedOnly

  predicate IsActive(n: Note) { !n.archived }
  predicate IsPinned(n: Note) { n.pinned }
  predicate IsUnpinned(n: Note) { !n.pinned }

  /** `filteredNotes`: the notes not archived, and with the "pinned" filter only
      the pinned ones. */
  function ShownNotes(notes: seq<Note>, filter: NoteFilter): seq<Note> {
    var active := Filter(notes, IsActive);
    if filter == PinnedOnly then Filter(active, IsPinned) else active
  }

  /** The grid: the pinned notes, then the others, each part in store order. */
  function Grid(notes: seq<Note>, filter: NoteFilter): seq<Note> {
    var shown := ShownNotes(notes, filter);
    Filter(shown, IsPinned) + Filter(shown, IsUnpinned)
  }

  /** The grid shows each shown note exactly once, and nothing else. */
  lemma GridIsPermutation(notes: seq<Note>, filter: NoteFilter)
    ensures multiset(Grid(notes, filter)) == multiset(ShownNotes(notes, filter))
  {
    FilterPartition(ShownNotes(notes, filter), IsPinned, IsUnpinned);
  }

  /** A note is in the grid exactly when it is not archived and the filter lets
      it through. */
  lemma GridMembership(notes: seq<Note>, filter: NoteFilter, n: Note)
    ensures n in Grid(notes, filter) <==> n in notes && !n.archived && (filter == AllNotes || n.pinned)
  {
    GridIsPermutation(notes, filter);
    assert n in Grid(notes, filter) <==> n in multiset(Grid(notes, filter));
    var active := Filter(notes, IsActive);
    if n in notes && !n.archived {
      var k :| 0 <= k < |notes| && notes[k] == n;
      assert n in active;
      if filter == PinnedOnly && n.pinned {
        var j :| 0 <= j < |active| && active[j] == n;
      }
    }
  }

  /** Pinned notes come before unpinned ones. */
  lemma GridPinnedFirst(notes: seq<Note>, filter: NoteFilter)
    ensures var g := Grid(notes, filter);
      forall i, j :: 0 <= i < j < |g| && g[j].pinned ==> g[i].pinned
  {
  }

  /** With the "pinned" filter, every note in the grid is pinned. */
  lemma PinnedFilterShowsOnlyPinned(notes: seq<Note>)
    ensures forall i :: 0 <= i < |Grid(notes, PinnedOnly)| ==> Grid(notes, PinnedOnly)[i].pinned
  {
    var shown := ShownNotes(notes, PinnedOnly);
    assert forall i :: 0 <= i < |shown| ==> shown[i].pinned;
  }
}
