/**
 * The keys of the panels, the menu and the filter prompt against each other and against what is
 * on screen: each menu entry does what the key in its caption does, the view cycle is the order
 * of the digits, the arrows move the highlight, and the prompt builds the filter typed into it.
 */
module KeyRules {
  import opened Prelude
  import opened AgentRecord
  import opened Translate
  import opened Console
  import opened FleetSelection
  import TextEditor
  import Menus

  /** Keys go to the panels. */
  predicate Plain(v: View) {
    v.modal.None? && v.menu.None? && !v.filtering
  }

  ghost function After(lower: string -> string, v: View, key: Key): View
    requires v.modal.None?
  {
    HandleKey(lower, v, key, Accepted).view
  }

  /** No outcome matters and no call is made where no dialog is open. */
  lemma NoCallWithoutDialog(lower: string -> string, v: View, key: Key, outcome: Outcome)
    requires v.modal.None?
    ensures HandleKey(lower, v, key, outcome) == Done(After(lower, v, key), None)
  {
    hide GlobalKey, MenuKey;
  }

  // ----- the menu ------------------------------------------------------------------------------

  /** The keys that the captions of the menu end with. */
  function Shortcut(i: MenuRow): Option<Key> {
    [ Some(Char('1')), Some(Char('2')), Some(Char('3')), Some(Char('4')), Some(Char('5')), Some(Char('6')), None,
      Some(F(4)), Some(F(6)), Some(F(7)), None, Some(F(1)), Some(F(10)) ][i]
  }

  /**
   * Choosing an entry of the menu closes it and does what the key in the entry's caption does on
   * the panels; only the status line of the filter prompt is not set. Separators do nothing.
   */
  lemma MenuMatchesKeys(lower: string -> string, v: View, i: MenuRow)
    requires Plain(v)
    ensures
      var w, key := After(lower, v.(menu := Some(i)), Enter), Shortcut(i);
      if key.None? then w == v
      else if key.value == F(7) then w == After(lower, v, key.value).(status := v.status)
      else w == After(lower, v, key.value)
  {
    hide OpenEditor, ConfirmRestart, Navigate, Menus.Stepped, Menus.Entries, MenuKey;
    EntryActions(i);
    ChosenActs(lower, v, i);
  }

  lemma EntryActions(i: MenuRow)
    ensures Menus.Entries()[i].action ==
      [ Menus.SetView(Menus.Fleet), Menus.SetView(Menus.Config), Menus.SetView(Menus.Pipeline),
        Menus.SetView(Menus.Metrics), Menus.SetView(Menus.Logs), Menus.SetView(Menus.Health), Menus.Separator,
        Menus.Edit, Menus.Restart, Menus.Filter, Menus.Separator, Menus.Help, Menus.Quit ][i]
  {
  }

  lemma ChosenActs(lower: string -> string, v: View, i: MenuRow)
    requires Plain(v)
    ensures After(lower, v.(menu := Some(i)), Enter) == ApplyMenuAction(lower, v, Menus.Entries()[i].action)
  {
    hide OpenEditor, ConfirmRestart, Navigate, Menus.Stepped, Menus.Entries, ApplyMenuAction;
    MenuHasEntries();
    assert v.(menu := Some(i)).(menu := None) == v;
  }

  /** The rows of the menu from top to bottom without the two separators, and from the last to the first. */
  predicate NextRow(i: MenuRow, j: MenuRow) {
    || (j == i + 1 && i != 5 && i != 6 && i != 9 && i != 10)
    || (i == 5 && j == 7) || (i == 9 && j == 11) || (i == 12 && j == 0)
  }

  lemma SelectableRows(t: nat)
    ensures Menus.Selectable(Menus.Entries(), t) <==> t < 13 && t != 6 && t != 10
  {
    if t < 13 { EntryActions(t); }
  }

  lemma NextIsNearest(i: MenuRow, j: MenuRow)
    requires NextRow(i, j)
    ensures Menus.Nearest(Menus.Entries(), 1, i, j) && Menus.Nearest(Menus.Entries(), -1, j, i)
  {
    hide Menus.Entries, Menus.Selectable;
    forall t: nat ensures Menus.Selectable(Menus.Entries(), t) <==> t < 13 && t != 6 && t != 10 { SelectableRows(t); }
  }

  /** Down and j go to the next row, Up and k back from it. */
  lemma MenuKeysStep(lower: string -> string, v: View, i: MenuRow, j: MenuRow, key: Key)
    requires Plain(v) && NextRow(i, j)
    ensures key == Down || key == Char('j') ==> After(lower, v.(menu := Some(i)), key) == v.(menu := Some(j))
    ensures key == Up || key == Char('k') ==> After(lower, v.(menu := Some(j)), key) == v.(menu := Some(i))
  {
    hide Menus.Entries, Menus.Nearest, Menus.Stepped, OpenEditor, ConfirmRestart;
    MenuHasEntries();
    NextIsNearest(i, j);
    Menus.NearestIsUnique(Menus.Entries(), 1, i, j, Menus.Stepped(Menus.Entries(), 1, i));
    Menus.NearestIsUnique(Menus.Entries(), -1, j, i, Menus.Stepped(Menus.Entries(), -1, j));
  }

  /** F2 and F9 pull the menu down on its first entry; Esc and they close it again. */
  lemma MenuOpensAndCloses(lower: string -> string, v: View, key: Key)
    requires Plain(v) && (key == F(2) || key == F(9))
    ensures After(lower, v, key) == v.(menu := Some(0))
    ensures After(lower, After(lower, v, key), key) == v && After(lower, After(lower, v, key), Esc) == v
  {
    hide OpenEditor, ConfirmRestart, Navigate, Menus.Stepped, Menus.Entries, ApplyMenuAction;
    MenuHasEntries();
    assert v.(menu := Some(0)).(menu := None) == v;
  }

  // ----- the panels ----------------------------------------------------------------------------

  /** The digit after this one, and '1' after '6'. */
  predicate Follows(c: char, next: char) {
    ('1' <= c <= '5' && next as int == c as int + 1) || (c == '6' && next == '1')
  }

  /** F3 goes through the views in the order of their digits, and after the last to the first. */
  lemma CycleFollowsDigits(lower: string -> string, v: View, c: char, next: char)
    requires Plain(v) && Follows(c, next)
    ensures After(lower, After(lower, v, Char(c)), F(3)) == After(lower, v, Char(next))
  {
    hide OpenEditor, ConfirmRestart, Navigate, After;
    DigitPanel(lower, v, c);
    DigitPanel(lower, v, next);
    CyclePanel(lower, After(lower, v, Char(c)));
    NextDigit(c, next);
  }

  lemma NextDigit(c: char, next: char)
    requires Follows(c, next)
    ensures ViewOfDigit(c).Some? && ViewOfDigit(next) == Some(NextView(ViewOfDigit(c).value))
  {
    assert c == '1' || c == '2' || c == '3' || c == '4' || c == '5' || c == '6';
  }

  lemma DigitPanel(lower: string -> string, v: View, c: char)
    requires Plain(v) && '1' <= c <= '6'
    ensures ViewOfDigit(c).Some? && After(lower, v, Char(c)) == WithActivePanel(v, Panel(ViewOfDigit(c).value, 0))
  {
    hide OpenEditor, ConfirmRestart, Navigate;
    assert c == '1' || c == '2' || c == '3' || c == '4' || c == '5' || c == '6';
  }

  lemma CyclePanel(lower: string -> string, v: View)
    requires Plain(v)
    ensures After(lower, v, F(3)) == WithActivePanel(v, Panel(NextView(ActivePanel(v).view), 0))
  {
    hide OpenEditor, ConfirmRestart, Navigate, NextView;
  }

  /** A digit shows one of six different views, from the top, and changes nothing else. */
  lemma DigitShowsView(lower: string -> string, v: View, c: char, d: char)
    requires Plain(v) && '1' <= c <= '6' && '1' <= d <= '6'
    ensures
      var w, x := After(lower, v, Char(c)), After(lower, v, Char(d));
      && w.active == v.active && ActivePanel(w).scroll == 0
      && (ActivePanel(w).view == ActivePanel(x).view <==> c == d)
      && w == if v.active.LeftSide? then v.(left := w.left) else v.(right := w.right)
  {
    hide After;
    DigitPanel(lower, v, c);
    DigitPanel(lower, v, d);
  }

  /** Tab and its reverse change sides, so two of them change nothing. */
  lemma TabTwice(lower: string -> string, v: View, a: Key, b: Key)
    requires Plain(v) && (a == Tab || a == BackTab) && (b == Tab || b == BackTab)
    ensures After(lower, v, a).active != v.active && After(lower, After(lower, v, a), b) == v
  {
    hide OpenEditor, ConfirmRestart, Navigate;
  }

  /** What the arrow and page keys, and the letters beside them, ask for. */
  predicate Moves(key: Key, delta: int) {
    || ((key == Up || key == Char('k')) && delta == -1)
    || ((key == Down || key == Char('j')) && delta == 1)
    || (key == PageUp && delta == -10)
    || (key == PageDown && delta == 10)
  }

  lemma MovesNavigate(lower: string -> string, v: View, key: Key, delta: int)
    requires Plain(v) && Moves(key, delta)
    ensures After(lower, v, key) == Navigate(lower, v, delta)
  {
    hide OpenEditor, ConfirmRestart, Navigate;
  }

  /** On the fleet panel they move the highlight that far within the list, and change nothing else. */
  lemma ArrowKeysMoveHighlight(lower: string -> string, v: View, key: Key, delta: int)
    requires Plain(v) && Listed(v) && Moves(key, delta) && ActivePanel(v).view.Fleet?
    ensures
      var list, w := Visible(lower, v), After(lower, v, key);
      && Visible(lower, w) == list && w == v.(selected := w.selected)
      && (list == [] ==> w == v)
      && (list != [] ==>
            var at := Cursor(list, v.selected);
            var to := at + delta;
            SelectedAgent(lower, v) == Some(list[at]) &&
            SelectedAgent(lower, w) == Some(list[if to < 0 then 0 else if to >= |list| then |list| - 1 else to]))
  {
    hide Visible, Listed, Cursor, MoveSelection, SelectedAgent;
    MovesNavigate(lower, v, key, delta);
    MoveSelectionMovesCursor(lower, v, delta);
  }

  /** On any other panel they scroll, never above the top, and change nothing else. */
  lemma ArrowKeysScroll(lower: string -> string, v: View, key: Key, delta: int)
    requires Plain(v) && Moves(key, delta) && !ActivePanel(v).view.Fleet?
    ensures
      var p, w := ActivePanel(v), After(lower, v, key);
      && w.active == v.active && ActivePanel(w).view == p.view
      && (p.scroll + delta < 0 ==> ActivePanel(w).scroll == 0)
      && (0 <= p.scroll + delta < 0x1_0000 ==> ActivePanel(w).scroll == p.scroll + delta)
      && (0x1_0000 <= p.scroll + delta < 0x2_0000 ==> ActivePanel(w).scroll == p.scroll + delta - 0x1_0000)
      && w == if v.active.LeftSide? then v.(left := w.left) else v.(right := w.right)
  {
    MovesNavigate(lower, v, key, delta);
    hide HandleKey;
  }

  /** Enter on the fleet panel, wherever it is, shows the config on the right; F8 the health. */
  lemma RightPanelKeys(lower: string -> string, v: View)
    requires Plain(v)
    ensures After(lower, v, F(8)) == v.(right := Panel(Menus.Health, 0), active := RightSide)
    ensures After(lower, v, Enter) ==
      if (v.active.LeftSide? && v.left.view.Fleet?) || (v.active.RightSide? && v.right.view.Fleet?)
      then v.(right := Panel(Menus.Config, 0), active := RightSide) else v
  {
    hide OpenEditor, ConfirmRestart, Navigate;
  }

  // ----- dialogs --------------------------------------------------------------------------------

  /**
   * F4 and F5 open the editor on the highlighted agent's config, F6 asks for confirmation, each
   * exactly if there is such an agent and it accepts the command; else the status line says why not.
   */
  lemma CommandKeysOpenDialogs(lower: string -> string, v: View, key: Key)
    requires Plain(v)
    ensures
      var w, agent := After(lower, v, key), SelectedAgent(lower, v);
      && (key == F(4) || key == F(5) ==>
            w == if agent.None? then v.(status := NoAgent)
                 else if !Supports(agent.value, "AcceptsRemoteConfig") then v.(status := NoConfig(agent.value.name))
                 else v.(modal := Some(Editing(agent.value.uid, agent.value.name,
                                               TextEditor.Open(agent.value.effectiveConfig)))))
      && (key == F(6) ==>
            w == if agent.None? then v.(status := NoAgent)
                 else if !Supports(agent.value, "AcceptsRestartCommand") then v.(status := NoRestart(agent.value.name))
                 else v.(modal := Some(Confirm(agent.value.name, agent.value.uid))))
      && (key == F(1) ==> w == v.(modal := Some(HelpBox)))
      && (key == F(10) || key == Char('q') ==> w == v.(shouldQuit := true))
  {
    hide SelectedAgent, Supports, Navigate, TextEditor.Open;
  }

  predicate Closes(key: Key, m: Modal) {
    match m
    case Confirm(_, _) => key == Esc || key == Char('n')
    case Editing(_, _, _) => key == Esc
    case _ => key == Esc || key == Enter || key.Char?
  }

  /** Which keys close a dialog without a call, and that no other key takes it away but one that makes the call. */
  lemma KeysCloseDialogs(lower: string -> string, v: View, key: Key, outcome: Outcome)
    requires v.modal.Some? && HandleKey(lower, v, key, outcome).Done?
    ensures
      var m, e := v.modal.value, HandleKey(lower, v, key, outcome);
      && (Closes(key, m) ==> e.call.None? && e.view == v.(modal := None, status := e.view.status))
      && (Closes(key, m) && !m.Editing? ==> e.view.status == v.status)
      && (Closes(key, m) && m.Editing? ==> e.view.status == EditCancelled)
      && (!Closes(key, m) && e.call.None? && !m.Editing? ==> e.view == v)
      && (!Closes(key, m) && e.call.None? && m.Editing? ==> e.view.modal.Some? && e.view.modal.value.Editing?)
  {
    hide Answered, EditorKey, TextEditor.Join, TextEditor.Doc.Step;
  }

  // ----- the filter ----------------------------------------------------------------------------

  /** The text has the needle at offset i. */
  ghost predicate FoundAt(text: string, needle: string, i: nat) {
    i + |needle| <= |text| && forall j :: 0 <= j < |needle| ==> text[i + j] == needle[j]
  }

  /** An agent is listed if its name or its UID, lower-cased, has the lower-cased filter somewhere in it. */
  lemma FilterRule(lower: string -> string, filter: string, a: AgentDetail)
    ensures Shows(lower, filter, a) <==>
      || (exists i: nat :: FoundAt(lower(a.name), lower(filter), i))
      || (exists i: nat :: FoundAt(lower(a.uid), lower(filter), i))
  {
    ContainsRule(lower(a.name), lower(filter));
    ContainsRule(lower(a.uid), lower(filter));
    assert lower(filter) == "" ==> FoundAt(lower(a.name), lower(filter), 0);
  }

  lemma ContainsRule(text: string, needle: string)
    ensures Contains(text, needle) <==> exists i: nat :: FoundAt(text, needle, i)
  {
    if i: nat :| FoundAt(text, needle, i) {
      assert text[i..][..|needle|] == needle;
      assert StartsWith(text[i..], needle);
    }
    if i :| 0 <= i <= |text| && StartsWith(text[i..], needle) {
      forall j | 0 <= j < |needle| ensures text[i + j] == needle[j] {
        assert text[i..][..|needle|][j] == needle[j];
      }
      assert FoundAt(text, needle, i);
    }
  }

  ghost function AfterText(lower: string -> string, v: View, text: string): View
    requires v.modal.None?
    ensures v.menu.None? && v.filtering ==>
      AfterText(lower, v, text) == v.(filter := AfterText(lower, v, text).filter)
  {
    if text == "" then v else
    var w := AfterText(lower, v, text[..|text| - 1]);
    if w.modal.None? then After(lower, w, Char(text[|text| - 1])) else w
  }

  lemma {:induction false} TextIsAppended(lower: string -> string, v: View, text: string)
    requires v.modal.None? && v.menu.None? && v.filtering
    ensures AfterText(lower, v, text) == v.(filter := v.filter + text)
  {
    if text != "" {
      TextIsAppended(lower, v, text[..|text| - 1]);
      assert text == text[..|text| - 1] + [text[|text| - 1]];
    } else {
      assert v.filter + "" == v.filter;
    }
  }

  /**
   * F7, a text and Enter filter the list by that text, behind what the filter was before; F7, any
   * text and Esc, or Esc alone on the panels, clear it; Backspace takes one character back.
   */
  lemma PromptSetsFilter(lower: string -> string, v: View, text: string)
    requires Plain(v)
    ensures
      var prompt := After(lower, v, F(7));
      && prompt.modal.None? && AfterText(lower, prompt, text).modal.None?
      && var typed := AfterText(lower, prompt, text);
      && typed.filter == v.filter + text
      && After(lower, typed, Enter) == v.(filter := v.filter + text, status := FilterApplied(v.filter + text))
      && After(lower, typed, Esc) == v.(filter := "", status := FilterCleared)
      && (typed.filter != "" ==> After(lower, typed, Backspace) == typed.(filter := typed.filter[..|typed.filter| - 1]))
    ensures v.filter != "" ==> After(lower, v, Esc) == v.(filter := "", status := FilterCleared)
    ensures v.filter == "" ==> After(lower, v, Esc) == v
  {
    hide OpenEditor, ConfirmRestart, Navigate, AfterText;
    TextIsAppended(lower, After(lower, v, F(7)), text);
  }
}
