/** The global keyboard shortcuts (src/hooks/useKeyboardShortcuts.ts): a decision
    table from a key press to at most one store action. The palette's own
    Cmd/Ctrl+K handling is in the Palette module. */
module Shortcuts {
  import opened Common
  import opened Types
  import opened Store

  /** A key press: `mod` is Meta or Ctrl held; `typing` is focus in an input, a
      text area or an editable element. */
  datatype KeyPress = KeyPress(key: string, mod: bool, typing: bool)

  datatype Action = NoAction | ToggleSidebarAction | ShowView(view: ViewType)

  /** What the handler does, and whether it prevents the browser's default. */
  datatype Decision = Decision(action: Action, prevented: bool)

  /** The view a Cmd/Ctrl shortcut selects, by lowercased key. */
  function ViewForKey(key: string): Option<ViewType> {
    if key == "h" then Some(TodayView)
    else if key == "1" then Some(NotesView)
    else if key == "2" then Some(TasksView)
    else if key == "3" then Some(LinksView)
    else if key == "4" then Some(DocsView)
    else if key == "5" then Some(PromptsView)
    else None
  }

  /** `handleKeyDown`. */
  function Decide(e: KeyPress, paletteOpen: bool): (d: Decision)
    ensures d.action != NoAction ==> e.mod && (!e.typing || paletteOpen)
    ensures d.prevented <==> d.action != NoAction || (e.mod && e.key == "k")
  {
    if e.mod && e.key == "k" then Decision(NoAction, true)
    else if e.typing && !paletteOpen then Decision(NoAction, false)
    else
      var key := Lower(e.key);
      if e.mod && key == "/" then Decision(ToggleSidebarAction, true)
      else if e.mod && ViewForKey(key).Some? then Decision(ShowView(ViewForKey(key).value), true)
      else Decision(NoAction, false)
  }

  /** Cmd/Ctrl+K is only swallowed here: the palette opens it. */
  lemma ModKSwallowed(e: KeyPress, paletteOpen: bool)
    requires e.mod && e.key == "k"
    ensures Decide(e, paletteOpen) == Decision(NoAction, true)
  {
  }

  /** While typing with the palette closed, no shortcut fires and no default is
      prevented, except for Cmd/Ctrl+K. */
  lemma TypingBlocksShortcuts(e: KeyPress)
    requires e.typing && !(e.mod && e.key == "k")
    ensures Decide(e, false) == Decision(NoAction, false)
  {
  }

  /** Without Meta or Ctrl nothing happens. */
  lemma NoModifierNoAction(e: KeyPress, paletteOpen: bool)
    requires !e.mod
    ensures Decide(e, paletteOpen) == Decision(NoAction, false)
  {
  }

  /** With Meta or Ctrl held (and not typing, or the palette open) the table is:
      "/" toggles the sidebar, "h" and "1" to "5" select a view, and any other
      key does nothing. */
  lemma ShortcutTable(e: KeyPress, paletteOpen: bool)
    requires e.mod && e.key != "k" && (!e.typing || paletteOpen)
    ensures Lower(e.key) == "/" ==> Decide(e, paletteOpen).action == ToggleSidebarAction
    ensures Lower(e.key) == "h" ==> Decide(e, paletteOpen).action == ShowView(TodayView)
    ensures Lower(e.key) == "1" ==> Decide(e, paletteOpen).action == ShowView(NotesView)
    ensures Lower(e.key) == "2" ==> Decide(e, paletteOpen).action == ShowView(TasksView)
    ensures Lower(e.key) == "3" ==> Decide(e, paletteOpen).action == ShowView(LinksView)
    ensures Lower(e.key) == "4" ==> Decide(e, paletteOpen).action == ShowView(DocsView)
    ensures Lower(e.key) == "5" ==> Decide(e, paletteOpen).action == ShowView(PromptsView)
    ensures Lower(e.key) !in {"/", "h", "1", "2", "3", "4", "5"} ==> Decide(e, paletteOpen) == Decision(NoAction, false)
  {
  }

  /** Keys are lowercased before the table is consulted, so "H" does what "h"
      does. */
  lemma CaseInsensitive(e: KeyPress, key: string, paletteOpen: bool)
    requires Lower(key) == Lower(e.key) && e.key != "k" && key != "k"
    ensures Decide(e.(key := key), paletteOpen) == Decide(e, paletteOpen)
  {
  }

  /** The store after an action. */
  function Perform(st: State, a: Action): (r: State)
    ensures a == NoAction ==> r == st
    ensures a == ToggleSidebarAction ==> r == st.(sidebarOpen := !st.sidebarOpen)
    ensures a.ShowView? ==> r == st.(currentView := a.view)
  {
    match a
    case NoAction => st
    case ToggleSidebarAction => st.(sidebarOpen := !st.sidebarOpen)
    case ShowView(v) => st.(currentView := v)
  }

  /** A shortcut changes only the view or the sidebar, never the persisted
      collections. */
  lemma PerformKeepsCollections(st: State, e: KeyPress)
    ensures var r := Perform(st, Decide(e, st.commandPaletteOpen).action);
      r.notes == st.notes && r.tasks == st.tasks && r.links == st.links &&
      r.docs == st.docs && r.prompts == st.prompts && r.theme == st.theme &&
      r.commandPaletteOpen == st.commandPaletteOpen
  {
  }

  /** The listener: decides with the store's palette flag and carries out the
      action. */
  method HandleKeyDown(store: AppStore, e: KeyPress) returns (prevented: bool)
    requires store.Valid()
    modifies store
    ensures store.Valid()
    ensures var d := Decide(e, old(store.commandPaletteOpen));
      prevented == d.prevented && store.Snapshot() == Perform(old(store.Snapshot()), d.action)
  {
    var d := Decide(e, store.commandPaletteOpen);
    match d.action {
      case NoAction =>
      case ToggleSidebarAction => store.ToggleSidebar();
      case ShowView(v) => store.SetCurrentView(v);
    }
    prevented := d.prevented;
  }
}
