/** The documents page (src/components/views/DocsView.tsx): the word count shown
    in the editor, saving the editor, creating a document and deleting one. */
module Docs {
  import opened Common
  import opened Types
  import opened Store

  // ---------------------------------------------------------------------------
  // Word count
  // ---------------------------------------------------------------------------

  /** `s.split(/\s+/)`: the pieces between maximal runs of white space. A leading
      run gives an empty first piece and a trailing run an empty last one. */
  function SplitOnSpace(s: string): (r: seq<string>)
    ensures |r| >= 1
    decreases |s|
  {
    if s == [] then [[]]
    else if IsSpace(s[0]) then [[]] + SplitOnSpace(TrimStart(s))
    else
      var rest := SplitOnSpace(s[1..]);
      [[s[0]] + rest[0]] + rest[1..]
  }

  /** The number of words: maximal runs of characters that are not white space,
      counted by where each run ends. */
  function RunCount(s: string): nat
    decreases |s|
  {
    if s == [] then 0
    else if !IsSpace(s[0]) && (|s| == 1 || IsSpace(s[1])) then 1 + RunCount(s[1..])
    else RunCount(s[1..])
  }

  /** `content.trim() ? content.trim().split(/\s+/).length : 0`. */
  function WordCount(content: string): nat {
    var t := Trim(content);
    if t == [] then 0 else |SplitOnSpace(t)|
  }

  function LeadingRun(s: string): nat { if s != [] && IsSpace(s[0]) then 1 else 0 }

  function TrailingRun(s: string): nat { if s == [] || IsSpace(s[|s| - 1]) then 1 else 0 }

  /** `split` gives one piece per word, plus an empty piece for white space (or
      nothing) at either end. */
  lemma {:induction false} SplitOnSpaceCount(s: string)
    ensures |SplitOnSpace(s)| == RunCount(s) + LeadingRun(s) + TrailingRun(s)
    decreases |s|
  {
    if s == [] {
    } else if IsSpace(s[0]) {
      SplitOnSpaceCount(TrimStart(s));
      SplitOnSpaceCountSpaceStep(s);
    } else {
      SplitOnSpaceCount(s[1..]);
      SplitOnSpaceCountWordStep(s);
    }
  }

  /** The count for a string that starts with white space, from the count for
      the string without it. */
  lemma SplitOnSpaceCountSpaceStep(s: string)
    requires s != [] && IsSpace(s[0])
    requires var u := TrimStart(s); |SplitOnSpace(u)| == RunCount(u) + LeadingRun(u) + TrailingRun(u)
    ensures |SplitOnSpace(s)| == RunCount(s) + LeadingRun(s) + TrailingRun(s)
  {
    var u := TrimStart(s);
    RunCountTrimStart(s);
    assert |SplitOnSpace(s)| == 1 + |SplitOnSpace(u)|;
    assert LeadingRun(u) == 0;
    TrailingRunTrimStart(s);
  }

  /** Dropping leading white space keeps whether the string ends in white space. */
  lemma TrailingRunTrimStart(s: string)
    requires s != [] && IsSpace(s[0])
    ensures TrailingRun(TrimStart(s)) == TrailingRun(s)
  {
    var u := TrimStart(s);
    if u != [] {
      assert u[|u| - 1] == s[|s| - 1];
    } else {
      assert IsSpace(s[|s| - 1]);
    }
  }

  /** The count for a string that starts with a word character, from the count
      for its tail. */
  lemma SplitOnSpaceCountWordStep(s: string)
    requires s != [] && !IsSpace(s[0])
    requires |SplitOnSpace(s[1..])| == RunCount(s[1..]) + LeadingRun(s[1..]) + TrailingRun(s[1..])
    ensures |SplitOnSpace(s)| == RunCount(s) + LeadingRun(s) + TrailingRun(s)
  {
    if |s| > 1 {
      assert s[1..][|s[1..]| - 1] == s[|s| - 1];
    }
  }

  /** White space in front changes no count. */
  lemma {:induction false} RunCountTrimStart(s: string)
    ensures RunCount(TrimStart(s)) == RunCount(s)
    decreases |s|
  {
    if s != [] && IsSpace(s[0]) {
      RunCountTrimStart(s[1..]);
    }
  }

  /** Nor does a white-space character at the end. */
  lemma {:induction false} RunCountDropTrailingSpace(s: string)
    requires s != [] && IsSpace(s[|s| - 1])
    ensures RunCount(s[..|s| - 1]) == RunCount(s)
    decreases |s|
  {
    if |s| > 1 {
      var t := s[1..];
      RunCountDropTrailingSpace(t);
      assert s[..|s| - 1][1..] == t[..|t| - 1];
    }
  }

  lemma {:induction false} RunCountTrimEnd(s: string)
    ensures RunCount(TrimEnd(s)) == RunCount(s)
    decreases |s|
  {
    if s != [] && IsSpace(s[|s| - 1]) {
      RunCountDropTrailingSpace(s);
      RunCountTrimEnd(s[..|s| - 1]);
    }
  }

  /** The editor's word count is the number of maximal runs of non-white-space
      characters. */
  lemma WordCountIsRunCount(content: string)
    ensures WordCount(content) == RunCount(content)
  {
    var t := Trim(content);
    RunCountTrimStart(content);
    RunCountTrimEnd(TrimStart(content));
    SplitOnSpaceCount(t);
  }

  /** It is zero exactly for empty or white-space-only content. */
  lemma WordCountZeroIffBlank(content: string)
    ensures WordCount(content) == 0 <==> AllSpace(content)
  {
    BlankIffAllSpace(content);
  }

  // ---------------------------------------------------------------------------
  // The editor
  // ---------------------------------------------------------------------------

  const DefaultTitle := "Untitled"

  datatype EditorFields = EditorFields(title: string, content: string)

  /** The editor starts from the document's title and its content, `''` when it
      has none. */
  function EditorDefaults(d: Doc): (f: EditorFields)
    ensures f.title == d.title
    ensures d.content.Some? ==> f.content == d.content.value
    ensures d.content.None? ==> f.content == ""
  {
    EditorFields(d.title, d.content.GetOr(""))
  }

  /** `handleSave`'s patch: the title, or "Untitled" when it is empty, and the
      content. */
  function SavePatch(f: EditorFields): (p: DocPatch)
    ensures p.content == Some(Some(f.content))
    ensures p.title.Some? && p.title.value != ""
    ensures f.title != "" ==> p.title == Some(f.title)
  {
    DocPatch(Some(if f.title == "" then DefaultTitle else f.title), Some(Some(f.content)))
  }

  /** A saved document always has a title; a non-empty one, even if it is only
      white space, is stored as typed, and an empty one becomes "Untitled". */
  lemma SavedTitle(d: Doc, f: EditorFields, now: Time)
    ensures var r := ApplyDocPatch(d, SavePatch(f), now);
      r.title != "" && (f.title != "" ==> r.title == f.title) && (f.title == "" ==> r.title == DefaultTitle) &&
      r.content == Some(f.content) && r.id == d.id && r.createdAt == d.createdAt
  {
  }

  /** Saving the editor untouched gives the document back with a fresh
      `updatedAt`, except that missing content becomes empty content. */
  lemma SaveUntouched(d: Doc, now: Time)
    requires d.title != ""
    ensures ApplyDocPatch(d, SavePatch(EditorDefaults(d)), now) ==
      d.(content := Some(d.content.GetOr("")), updatedAt := now)
  {
  }

  /** What the page shows: the document list, or the editor over it. */
  class DocsPage {
    var editing: Option<Doc>

    constructor()
      ensures editing == None
    {
      editing := None;
    }

    method Open(d: Doc)
      modifies this
      ensures editing == Some(d)
    {
      editing := Some(d);
    }

    method Close()
      modifies this
      ensures editing == None
    {
      editing := None;
    }

    /** The editor's "Save": updates the document and closes the editor. */
    method HandleSave(store: AppStore, d: Doc, f: EditorFields, now: Time)
      requires store.Valid()
      modifies this, store
      ensures store.Valid()
      ensures store.Snapshot() == old(store.Snapshot()).(docs := UpdatedDocs(old(store.docs), d.id, SavePatch(f), now))
      ensures editing == None
    {
      store.UpdateDoc(d.id, SavePatch(f), now);
      editing := None;
    }

    /** `handleCreateDoc`: adds an empty "Untitled" document, then opens the first
        document of the list as it was before the add (the callback reads the
        list captured when the page last rendered), or keeps the editor as it
        was when that list was empty. */
    method HandleCreateDoc(store: AppStore, id: Id, now: Time)
      requires store.Valid() && FreshId(store.docs, DocId, id)
      modifies this, store
      ensures store.Valid()
      ensures store.Snapshot() == old(store.Snapshot()).(docs := [NewDoc(NewDocData, id, now)] + old(store.docs))
      ensures old(store.docs) != [] ==> editing == Some(old(store.docs)[0])
      ensures old(store.docs) == [] ==> editing == old(editing)
    {
      var rendered := store.docs;
      store.AddDoc(NewDocData, id, now);
      if rendered != [] {
        editing := Some(rendered[0]);
      }
    }

    /** "Create" as the handler's comment intends: the document just added is
        the one opened. */
    method HandleCreateDocOpeningNew(store: AppStore, id: Id, now: Time)
      requires store.Valid() && FreshId(store.docs, DocId, id)
      modifies this, store
      ensures store.Valid()
      ensures store.Snapshot() == old(store.Snapshot()).(docs := [NewDoc(NewDocData, id, now)] + old(store.docs))
      ensures editing == Some(store.docs[0]) && store.docs[0].id == id
    {
      store.AddDoc(NewDocData, id, now);
      editing := Some(NewDoc(NewDocData, id, now));
    }

    /** The bin button on a row. */
    method HandleDelete(store: AppStore, id: Id)
      requires store.Valid()
      modifies store
      ensures store.Valid()
      ensures store.Snapshot() == old(store.Snapshot()).(docs := RemoveById(old(store.docs), DocId, id))
    {
      store.DeleteDoc(id);
    }
  }

  const NewDocData := DocData(DefaultTitle, Some(""))

  /** The document "Create" opens is never the one it has just added: that one
      has a fresh id. */
  lemma CreateNeverOpensNewDoc(docs: seq<Doc>, id: Id, now: Time)
    requires FreshId(docs, DocId, id) && docs != []
    ensures docs[0] != NewDoc(NewDocData, id, now)
    ensures ([NewDoc(NewDocData, id, now)] + docs)[1] == docs[0]
  {
  }

  /** Deleting the document at position `k` takes out that one and keeps the
      others in order. */
  lemma DeleteRemovesOnlyThatDoc(docs: seq<Doc>, k: nat)
    requires DistinctIds(docs, DocId) && k < |docs|
    ensures RemoveById(docs, DocId, docs[k].id) == docs[..k] + docs[k + 1..]
  {
    RemoveExactlyOne(docs, DocId, k);
  }
}
