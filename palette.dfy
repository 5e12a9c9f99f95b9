/** The command palette (src/components/layout/CommandPalette.tsx): a fixed list
    of commands, filtered by the typed query, shown in groups, with a selection
    that the arrow keys move and Enter runs. */
module Palette {
  import opened Common
  import opened Types
  import opened Store

  // ---------------------------------------------------------------------------
  // The commands
  // ---------------------------------------------------------------------------

  datatype Group = Create | Navigate | Search

  /** What a command adds to the store before it switches the view. */
  datatype Creation = NothingNew | BlankNote | UntitledDoc

  /** A command: its text, its group, and its action (an optional addition, the
      view to switch to, and closing the palette). `caption` is the source's
      `label`, which is a keyword in Dafny. */
  datatype Command = Command(
    id: string, caption: string, description: Option<string>, group: Group, keywords: seq<string>,
    adds: Creation, view: ViewType)

  const Commands: seq<Command> := [
    Command("new-note", "New Note", Some("Create a new note"), Create, ["note", "n", "create", "new"], BlankNote, NotesView),
    Command("new-task", "New Task", Some("Create a new task"), Create, ["task", "t", "todo", "create", "new"], NothingNew, TasksView),
    Command("new-link", "New Link", Some("Save a new link"), Create, ["link", "l", "bookmark", "url", "create", "new"], NothingNew, LinksView),
    Command("new-doc", "New Document", Some("Create a new document"), Create, ["doc", "d", "document", "create", "new"], UntitledDoc, DocsView),
    Command("new-prompt", "New Prompt", Some("Create a new prompt template"), Create, ["prompt", "p", "template", "create", "new"], NothingNew, PromptsView),
    Command("go-today", "Go to Today", None, Navigate, ["today", "home", "h"], NothingNew, TodayView),
    Command("go-notes", "Go to Notes", None, Navigate, ["notes"], NothingNew, NotesView),
    Command("go-tasks", "Go to Tasks", None, Navigate, ["tasks", "todos"], NothingNew, TasksView),
    Command("go-links", "Go to Links", None, Navigate, ["links", "bookmarks"], NothingNew, LinksView),
    Command("go-docs", "Go to Docs", None, Navigate, ["docs", "documents"], NothingNew, DocsView),
    Command("go-prompts", "Go to Prompts", None, Navigate, ["prompts"], NothingNew, PromptsView),
    Command("go-settings", "Go to Settings", None, Navigate, ["settings", "preferences"], NothingNew, SettingsView)
  ]

  /** The note "New Note" adds: empty, neutral, not pinned, not archived, no tags. */
  const BlankNoteData := NoteData("", "", Neutral, false, false, [])

  /** The document "New Document" adds: "Untitled", with no content at all. */
  const UntitledDocData := DocData("Untitled", None)

  /** The store after running a command. */
  function CommandEffect(st: State, c: Command, id: Id, now: Time): (r: State)
    ensures r.currentView == c.view && !r.commandPaletteOpen
    ensures r.sidebarOpen == st.sidebarOpen && r.theme == st.theme
    ensures r.tasks == st.tasks && r.links == st.links && r.prompts == st.prompts
    ensures r.notes == (if c.adds == BlankNote then [NewNote(BlankNoteData, id, now)] + st.notes else st.notes)
    ensures r.docs == (if c.adds == UntitledDoc then [NewDoc(UntitledDocData, id, now)] + st.docs else st.docs)
  {
    var added :=
      match c.adds
      case NothingNew => st
      case BlankNote => st.(notes := [NewNote(BlankNoteData, id, now)] + st.notes)
      case UntitledDoc => st.(docs := [NewDoc(UntitledDocData, id, now)] + st.docs);
    added.(currentView := c.view, commandPaletteOpen := false)
  }

  /** "New Note" adds one blank note in front, shows the notes and closes the
      palette; nothing else changes. */
  lemma NewNoteCommand(st: State, id: Id, now: Time)
    ensures Commands[0].id == "new-note"
    ensures var n := NewNote(BlankNoteData, id, now);
      CommandEffect(st, Commands[0], id, now) ==
        st.(notes := [n] + st.notes, currentView := NotesView, commandPaletteOpen := false) &&
      n.title == "" && n.content == "" && n.color == Neutral && !n.pinned && !n.archived && n.tags == []
  {
  }

  /** Running a command keeps the store well formed when the new id is fresh. */
  lemma CommandEffectValid(st: State, c: Command, id: Id, now: Time)
    requires ValidState(st) && FreshId(st.notes, NoteId, id) && FreshId(st.docs, DocId, id)
    ensures ValidState(CommandEffect(st, c, id, now))
  {
  }

  // ---------------------------------------------------------------------------
  // Filtering and grouping
  // ---------------------------------------------------------------------------

  /** Some keyword contains the query. */
  predicate KeywordMatches(keywords: seq<string>, lowerQuery: string) {
    exists i :: 0 <= i < |keywords| && Contains(Lower(keywords[i]), lowerQuery)
  }

  /** The lowercased caption, the lowercased description or a lowercased keyword
      contains the lowercased query. */
  predicate Matches(c: Command, lowerQuery: string) {
    || Contains(Lower(c.caption), lowerQuery)
    || (c.description.Some? && Contains(Lower(c.description.value), lowerQuery))
    || KeywordMatches(c.keywords, lowerQuery)
  }

  function MatchTest(lowerQuery: string): Command -> bool {
    (c: Command) => Matches(c, lowerQuery)
  }

  /** `filteredCommands`: every command for a blank query; otherwise the matching
      ones. The query is lowercased but not trimmed. */
  function FilterCommands(commands: seq<Command>, query: string): (r: seq<Command>)
    ensures IsBlank(query) ==> r == commands
    ensures |r| <= |commands|
  {
    if IsBlank(query) then commands else Filter(commands, MatchTest(Lower(query)))
  }

  /** For a query that is not blank, a command is listed exactly when it matches. */
  lemma FilteredExactly(commands: seq<Command>, query: string, c: Command)
    requires !IsBlank(query)
    ensures c in FilterCommands(commands, query) <==> c in commands && Matches(c, Lower(query))
  {
    if c in commands && Matches(c, Lower(query)) {
      var k :| 0 <= k < |commands| && commands[k] == c;
      assert MatchTest(Lower(query))(commands[k]);
    }
  }

  /** Listed commands keep the order of the command list. */
  lemma FilteredKeepsOrder(commands: seq<Command>, query: string)
    ensures IsSubsequence(FilterCommands(commands, query), commands)
  {
    if IsBlank(query) {
      SubsequenceOfItself(commands);
    } else {
      FilterIsSubsequence(commands, MatchTest(Lower(query)));
    }
  }

  function GroupTest(g: Group): Command -> bool {
    (c: Command) => c.group == g
  }

  /** The groups in the order their first command appears: the order in which
      the grouping loop creates their keys, which is the order they are shown. */
  function GroupOrder(cs: seq<Command>): (r: seq<Group>)
    ensures forall i, j :: 0 <= i < j < |r| ==> r[i] != r[j]
    ensures forall g :: g in r <==> exists i :: 0 <= i < |cs| && cs[i].group == g
  {
    if cs == [] then []
    else
      var init := cs[..|cs| - 1];
      var o := GroupOrder(init);
      assert forall i :: 0 <= i < |init| ==> init[i] == cs[i];
      if cs[|cs| - 1].group in o then o else o + [cs[|cs| - 1].group]
  }

  /** One more command adds its group at the end, unless it is there already. */
  lemma GroupOrderSnoc(cs: seq<Command>, i: nat)
    requires i < |cs|
    ensures GroupOrder(cs[..i + 1]) ==
      if cs[i].group in GroupOrder(cs[..i]) then GroupOrder(cs[..i]) else GroupOrder(cs[..i]) + [cs[i].group]
  {
    assert cs[..i + 1][..i] == cs[..i];
  }

  /** A group's list, empty while the group has no key. */
  function GroupOf(groups: map<Group, seq<Command>>, g: Group): seq<Command> {
    if g in groups then groups[g] else []
  }

  /** One more command extends its own group's list and no other. */
  lemma GroupsSnoc(cs: seq<Command>, i: nat)
    requires i < |cs|
    ensures forall g :: (Filter(cs[..i + 1], GroupTest(g)) ==
      Filter(cs[..i], GroupTest(g)) + (if cs[i].group == g then [cs[i]] else []))
  {
    forall g
      ensures Filter(cs[..i + 1], GroupTest(g)) ==
        Filter(cs[..i], GroupTest(g)) + (if cs[i].group == g then [cs[i]] else [])
    {
      assert cs[..i + 1] == cs[..i] + [cs[i]];
      FilterConcat(cs[..i], [cs[i]], GroupTest(g));
    }
  }

  /** One turn of the grouping loop keeps the invariant on the key order. */
  lemma GroupStepOrder(cs: seq<Command>, i: nat, order: seq<Group>, groups: map<Group, seq<Command>>)
    requires i < |cs|
    requires order == GroupOrder(cs[..i])
    requires forall g :: g in groups <==> g in order
    ensures var order' := if cs[i].group in groups then order else order + [cs[i].group];
      && order' == GroupOrder(cs[..i + 1])
      && (forall g :: g in groups[cs[i].group := []] <==> g in order')
  {
    GroupOrderSnoc(cs, i);
  }

  /** One turn of the grouping loop keeps the invariant on the lists. */
  lemma GroupStepLists(cs: seq<Command>, i: nat, groups: map<Group, seq<Command>>)
    requires i < |cs|
    requires forall g :: GroupOf(groups, g) == Filter(cs[..i], GroupTest(g))
    ensures var groups' := groups[cs[i].group := GroupOf(groups, cs[i].group) + [cs[i]]];
      forall g :: GroupOf(groups', g) == Filter(cs[..i + 1], GroupTest(g))
  {
    GroupsSnoc(cs, i);
  }

  /** `groupedCommands`, built by the loop that pushes each command onto its
      group's list, creating the list at the group's first command. */
  method GroupCommands(filtered: seq<Command>) returns (order: seq<Group>, groups: map<Group, seq<Command>>)
    ensures order == GroupOrder(filtered)
    ensures forall g :: g in groups <==> g in order
    ensures forall g :: GroupOf(groups, g) == Filter(filtered, GroupTest(g))
  {
    order, groups := [], map[];
    var i := 0;
    while i < |filtered|
      invariant 0 <= i <= |filtered|
      invariant order == GroupOrder(filtered[..i])
      invariant forall g :: g in groups <==> g in order
      invariant forall g :: GroupOf(groups, g) == Filter(filtered[..i], GroupTest(g))
    {
      var c := filtered[i];
      GroupStepOrder(filtered, i, order, groups);
      GroupStepLists(filtered, i, groups);
      var list := GroupOf(groups, c.group);
      if c.group !in groups {
        order := order + [c.group];
      }
      groups := groups[c.group := list + [c]];
      i := i + 1;
    }
    assert filtered[..i] == filtered;
  }

  /** Every listed command is shown in its own group and in no other. */
  lemma EachCommandInOneGroup(filtered: seq<Command>, c: Command, g: Group)
    requires c in filtered
    ensures c in Filter(filtered, GroupTest(g)) <==> g == c.group
  {
    var k :| 0 <= k < |filtered| && filtered[k] == c;
    assert GroupTest(c.group)(filtered[k]);
  }

  /** The groups hold the listed commands, each as often as it is listed. */
  lemma GroupsPartition(filtered: seq<Command>)
    ensures multiset(Filter(filtered, GroupTest(Create))) + multiset(Filter(filtered, GroupTest(Navigate)))
      + multiset(Filter(filtered, GroupTest(Search))) == multiset(filtered)
  {
    var notCreate := (c: Command) => c.group != Create;
    var notNavigate := (c: Command) => c.group != Navigate;
    FilterPartition(filtered, GroupTest(Create), notCreate);
    FilterPartition(Filter(filtered, notCreate), GroupTest(Navigate), notNavigate);
    FilterTwice(filtered, notCreate, GroupTest(Navigate), GroupTest(Navigate));
    FilterTwice(filtered, notCreate, notNavigate, GroupTest(Search));
  }

  // ---------------------------------------------------------------------------
  // The selection
  // ---------------------------------------------------------------------------

  /** ArrowDown: one further, but not past the last command. */
  function NextIndex(i: int, n: nat): (r: int)
    ensures r <= n - 1 && r <= i + 1
    ensures r == i + 1 || r == n - 1
  {
    if i + 1 < n - 1 then i + 1 else n - 1
  }

  /** ArrowUp: one back, but not before the first command. */
  function PrevIndex(i: int): (r: int)
    ensures r >= 0 && r >= i - 1
    ensures r == i - 1 || r == 0
  {
    if i - 1 > 0 then i - 1 else 0
  }

  /** From a selection inside a non-empty list, or from -1, the arrow keys
      select a command of the list; with an empty list ArrowDown gives -1,
      which Enter ignores. */
  lemma ArrowsStayInList(i: int, n: nat)
    ensures n > 0 && -1 <= i ==> 0 <= NextIndex(i, n) < n
    ensures 0 < n && i <= n ==> 0 <= PrevIndex(i) < n
    ensures n == 0 && -1 <= i ==> NextIndex(i, n) == -1
  {
  }

  /** The palette's own state. Whether it is open is the store's
      `commandPaletteOpen`. */
  class CommandPalette {
    var query: string
    var selectedIndex: int

    constructor()
      ensures query == "" && selectedIndex == 0
    {
      query, selectedIndex := "", 0;
    }

    /** The commands listed for the current query. */
    function Filtered(): seq<Command>
      reads this
    {
      FilterCommands(Commands, query)
    }

    /** Typing in the search field; a changed query selects the first command. */
    method SetQuery(q: string)
      modifies this
      ensures query == q
      ensures selectedIndex == if q != old(query) then 0 else old(selectedIndex)
    {
      if q != query {
        selectedIndex := 0;
      }
      query := q;
    }

    /** Moving the mouse over the command at position `k` of the list. */
    method Hover(k: nat)
      requires k < |Filtered()|
      modifies this
      ensures selectedIndex == k && query == old(query)
    {
      selectedIndex := k;
    }

    /** The effect that runs when the open flag changes: a closed palette forgets
        its query and its selection. */
    method OnOpenChange(store: AppStore)
      modifies this
      ensures !store.commandPaletteOpen ==> query == "" && selectedIndex == 0
      ensures store.commandPaletteOpen ==> query == old(query) && selectedIndex == old(selectedIndex)
    {
      if !store.commandPaletteOpen {
        query, selectedIndex := "", 0;
      }
    }

    /** Clicking a command. */
    method RunCommand(store: AppStore, c: Command, id: Id, now: Time)
      requires store.Valid() && FreshId(store.notes, NoteId, id) && FreshId(store.docs, DocId, id)
      modifies this, store
      ensures store.Valid() && store.Snapshot() == CommandEffect(old(store.Snapshot()), c, id, now)
      ensures query == "" && selectedIndex == 0
    {
      CommandEffectValid(store.Snapshot(), c, id, now);
      match c.adds {
        case NothingNew =>
        case BlankNote => store.AddNote(BlankNoteData, id, now);
        case UntitledDoc => store.AddDoc(UntitledDocData, id, now);
      }
      store.SetCurrentView(c.view);
      store.SetCommandPaletteOpen(false);
      OnOpenChange(store);
    }

    /** The palette's key handler, with `mod` for Cmd or Ctrl held. It returns
        whether the browser's default action is prevented. */
    method HandleKey(store: AppStore, key: string, mod: bool, id: Id, now: Time) returns (prevented: bool)
      requires store.Valid() && FreshId(store.notes, NoteId, id) && FreshId(store.docs, DocId, id)
      modifies this, store
      ensures store.Valid()
      ensures prevented <==>
        ((mod && key == "k") ||
         (old(store.commandPaletteOpen) &&
          (key == "ArrowDown" || key == "ArrowUp" ||
           (key == "Enter" && 0 <= old(selectedIndex) < |old(Filtered())|))))
      // Cmd/Ctrl+K opens a closed palette and closes an open one.
      ensures mod && key == "k" ==>
        store.Snapshot() == old(store.Snapshot()).(commandPaletteOpen := !old(store.commandPaletteOpen))
      // Keys other than Cmd/Ctrl+K do nothing while the palette is closed.
      ensures !old(store.commandPaletteOpen) && !(mod && key == "k") ==>
        store.Snapshot() == old(store.Snapshot()) && query == old(query) && selectedIndex == old(selectedIndex)
      ensures old(store.commandPaletteOpen) && key == "Escape" ==>
        store.Snapshot() == old(store.Snapshot()).(commandPaletteOpen := false)
      ensures old(store.commandPaletteOpen) && key == "ArrowDown" ==>
        store.Snapshot() == old(store.Snapshot()) && selectedIndex == NextIndex(old(selectedIndex), |old(Filtered())|)
      ensures old(store.commandPaletteOpen) && key == "ArrowUp" ==>
        store.Snapshot() == old(store.Snapshot()) && selectedIndex == PrevIndex(old(selectedIndex))
      ensures old(store.commandPaletteOpen) && key == "Enter" ==>
        (if 0 <= old(selectedIndex) < |old(Filtered())|
         then store.Snapshot() == CommandEffect(old(store.Snapshot()), old(Filtered())[old(selectedIndex)], id, now)
         else store.Snapshot() == old(store.Snapshot()))
      // Whatever closed the palette, it comes back empty next time.
      ensures old(store.commandPaletteOpen) && !store.commandPaletteOpen ==> query == "" && selectedIndex == 0
    {
      var wasOpen := store.commandPaletteOpen;
      var filtered := Filtered();
      prevented := false;
      if mod && key == "k" {
        prevented := true;
        store.SetCommandPaletteOpen(!wasOpen);
      }
      if wasOpen {
        if key == "Escape" {
          store.SetCommandPaletteOpen(false);
        }
        if key == "ArrowDown" {
          prevented := true;
          selectedIndex := NextIndex(selectedIndex, |filtered|);
        }
        if key == "ArrowUp" {
          prevented := true;
          selectedIndex := PrevIndex(selectedIndex);
        }
        if key == "Enter" && 0 <= selectedIndex < |filtered| {
          prevented := true;
          RunCommand(store, filtered[selectedIndex], id, now);
        }
      }
      if wasOpen && !store.commandPaletteOpen {
        OnOpenChange(store);
      }
    }
  }
}
