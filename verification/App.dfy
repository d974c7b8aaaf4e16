/**
 * The application object of crates/otelc-tui/src/app.rs: fields updated in place, with the
 * open editor and the open menu as objects of their own. Each handler is proved to do to
 * `View()` what `Console` says; every property of `Console` runs then holds of this object.
 */
module App {
  import opened Prelude
  import opened AgentRecord
  import opened Translate
  import opened TextOrder
  import opened Console
  import opened EditorKeys
  import Menus
  import TextEditor
  import Utf8

  /** An open dialog; the editor is an object that keys change in place. */
  datatype Dialog = Plain(box: Modal) | Editor(editor: TextEditor.Editor)

  class App {
    const lower: string -> string
    var agents: map<string, AgentDetail>
    var telemetry: map<string, TelemetrySnapshot>
    var order: seq<string>
    var selected: Option<string>
    var left: Panel
    var right: Panel
    var active: Side
    var modal: Option<Dialog>
    var menu: Option<Menus.Menu>
    var filter: string
    var filtering: bool
    var status: Status
    var shouldQuit: bool

    /** The editor and the menu, when they are open. */
    ghost function Parts(): set<object>
      reads this`modal, this`menu
    {
      (if modal.Some? && modal.value.Editor? then {modal.value.editor} else {})
        + (if menu.Some? then {menu.value} else {})
    }

    ghost predicate Valid()
      reads this`modal, this`menu, Parts()
    {
      && (modal.Some? ==>
            if modal.value.Editor? then modal.value.editor.Valid() else !modal.value.box.Editing?)
      && (menu.Some? ==> menu.value.Valid() && menu.value.entries == Menus.Entries())
    }

    ghost function ShownModal(): Option<Modal>
      requires Valid()
      reads this`modal, this`menu, Parts()
    {
      if modal.None? then None
      else if modal.value.Plain? then Some(modal.value.box)
      else Some(Editing(modal.value.editor.uid, modal.value.editor.agent, modal.value.editor.doc))
    }

    ghost function ShownMenu(): Option<MenuRow>
      requires Valid()
      reads this`modal, this`menu, Parts()
    {
      if menu.None? then None else Some(menu.value.selected)
    }

    ghost function View(): View
      requires Valid()
      reads this, Parts()
    {
      Console.View(agents, telemetry, order, selected, left, right, active, ShownModal(), ShownMenu(),
                   filter, filtering, status, shouldQuit)
    }

    constructor (lower: string -> string, mode: string, endpoint: string)
      ensures Valid() && fresh(Parts()) && View() == Start(mode, endpoint) && this.lower == lower
    {
      this.lower := lower;
      agents, telemetry, order, selected := map[], map[], [], None;
      left, right, active := Panel(Menus.Fleet, 0), Panel(Menus.Config, 0), LeftSide;
      modal, menu, filter, filtering := None, None, "", false;
      status, shouldQuit := Waiting(mode, endpoint), false;
    }

    // ----- the list ------------------------------------------------------------------------------

    function VisibleAgents(): seq<AgentDetail>
      reads this
    {
      SortBy(NameOf, Matching(lower, filter, agents, order))
    }

    function HighlightedAgent(): Option<AgentDetail>
      reads this
    {
      var visible := VisibleAgents();
      var found := if selected.Some? then Position(visible, selected.value) else None;
      if found.Some? then Some(visible[found.value])
      else if visible == [] then None else Some(visible[0])
    }

    lemma HighlightedIsSelected()
      requires Valid()
      ensures VisibleAgents() == Visible(lower, View()) && HighlightedAgent() == SelectedAgent(lower, View())
    {
    }

    method MoveSelection(delta: int)
      requires Valid()
      modifies this`selected
      ensures Valid() && View() == Console.MoveSelection(lower, old(View()), delta)
    {
      hide Matching, SortBy, Menus.Entries;
      HighlightedIsSelected();
      var visible := VisibleAgents();
      if visible == [] {
        return;
      }
      var found := if selected.Some? then Position(visible, selected.value) else None;
      var current := if found.Some? then found.value else 0;
      var next := Clamp(current + delta, 0, |visible| - 1);
      selected := Some(visible[next].uid);
    }

    // ----- control events ------------------------------------------------------------------------

    method Upsert(detail: AgentDetail)
      requires Valid()
      modifies this`agents, this`order, this`selected, this`status
      ensures Valid() && View() == Console.HandleControl(old(View()), AgentUpserted(detail))
    {
      hide Menus.Entries;
      if detail.uid !in agents {
        order := order + [detail.uid];
        if selected.None? {
          selected := Some(detail.uid);
        }
        status := Connected(detail.name);
      }
      agents := agents[detail.uid := detail];
    }

    method Disconnect(uid: string)
      requires Valid()
      modifies this`agents, this`order, this`telemetry, this`selected, this`status
      ensures Valid() && View() == Console.HandleControl(old(View()), AgentDisconnected(uid))
    {
      hide Without, Menus.Entries;
      agents := agents - {uid};
      order := Without(order, uid);
      telemetry := telemetry - {uid};
      if selected == Some(uid) {
        selected := if order == [] then None else Some(order[0]);
      }
      status := SomeoneLeft;
    }

    method HandleControl(event: ControlEvent)
      requires Valid()
      modifies this`agents, this`order, this`telemetry, this`selected, this`status
      ensures Valid() && View() == Console.HandleControl(old(View()), event)
    {
      hide Without, Menus.Entries;
      match event {
        case AgentUpserted(detail) => Upsert(detail);
        case AgentDisconnected(uid) => Disconnect(uid);
        case Telemetry(uid, snapshot) => telemetry := telemetry[uid := snapshot];
        case Notice(text) => status := Noticed(text);
      }
    }

    // ----- panels ----------------------------------------------------------------------------------

    method SetActivePanel(p: Panel)
      requires Valid()
      modifies this`left, this`right
      ensures Valid() && View() == WithActivePanel(old(View()), p)
    {
      if active.LeftSide? { left := p; } else { right := p; }
    }

    method Navigate(delta: int)
      requires Valid()
      modifies this`left, this`right, this`selected
      ensures Valid() && View() == Console.Navigate(lower, old(View()), delta)
    {
      hide Console.MoveSelection, Menus.Entries;
      var panel := if active.LeftSide? then left else right;
      if panel.view.Fleet? {
        MoveSelection(delta);
      } else {
        var next := panel.scroll + delta;
        SetActivePanel(panel.(scroll := Max(next, 0) % U16));
      }
    }

    // ----- commands ---------------------------------------------------------------------------------

    method OpenEditor()
      requires Valid()
      modifies this`modal, this`status
      ensures Valid() && fresh(Parts() - old(Parts())) && menu == old(menu)
      ensures View() == Console.OpenEditor(lower, old(View()))
    {
      hide SelectedAgent, AcceptsConfig, Menus.Entries;
      HighlightedIsSelected();
      var agent := HighlightedAgent();
      if agent.None? {
        status := NoAgent;
        return;
      }
      if !AcceptsConfig(agent.value) {
        status := NoConfig(agent.value.name);
        return;
      }
      var editor := new TextEditor.Editor(agent.value.uid, agent.value.name, agent.value.effectiveConfig);
      modal := Some(Editor(editor));
    }

    method ConfirmRestart()
      requires Valid()
      modifies this`modal, this`status
      ensures Valid() && fresh(Parts() - old(Parts())) && menu == old(menu)
      ensures View() == Console.ConfirmRestart(lower, old(View()))
    {
      hide SelectedAgent, AcceptsRestart, Menus.Entries;
      HighlightedIsSelected();
      var agent := HighlightedAgent();
      if agent.None? {
        status := NoAgent;
        return;
      }
      if !AcceptsRestart(agent.value) {
        status := NoRestart(agent.value.name);
        return;
      }
      modal := Some(Plain(Confirm(agent.value.name, agent.value.uid)));
    }

    /** `do_restart` and `do_push`: the call goes out and its outcome comes back. */
    method DoCall(call: Call, outcome: Outcome)
      requires Valid() && modal.None?
      modifies this`modal, this`status
      ensures Valid() && Parts() == old(Parts()) && View() == Answered(old(View()), call, outcome)
    {
      var name := if call.uid in agents then agents[call.uid].name else call.uid;
      match outcome {
        case Accepted => status := if call.Restart? then RestartSent(name) else ConfigPushed(name);
        case Refused(e) => modal := Some(Plain(FailureBox(call, e)));
      }
    }

    // ----- keys --------------------------------------------------------------------------------------

    /** The function keys that open something over the panels. */
    method HandleOpeningKey(n: nat)
      requires Valid() && (n == 1 || n == 2 || n == 4 || n == 5 || n == 6 || n == 9)
      modifies this`modal, this`menu, this`status
      ensures Valid() && fresh(Parts() - old(Parts()))
      ensures View() == GlobalKey(lower, old(View()), F(n))
    {
      hide Console.OpenEditor, Console.ConfirmRestart, Menus.Entries;
      if n == 1 {
        modal := Some(Plain(HelpBox));
      } else if n == 2 || n == 9 {
        var pulled := new Menus.Menu();
        menu := Some(pulled);
      } else if n == 6 {
        ConfirmRestart();
      } else {
        OpenEditor();
      }
    }

    method HandleFunctionKey(n: nat)
      requires Valid()
      modifies this
      ensures Valid() && fresh(Parts() - old(Parts()))
      ensures View() == GlobalKey(lower, old(View()), F(n))
    {
      hide Console.OpenEditor, Console.ConfirmRestart, Menus.Entries, NextView;
      if n == 1 || n == 2 || n == 4 || n == 5 || n == 6 || n == 9 {
        HandleOpeningKey(n);
      } else if n == 3 {
        SetActivePanel(Panel(NextView(if active.LeftSide? then left.view else right.view), 0));
      } else if n == 7 {
        filtering := true;
        status := FilterPrompt;
      } else if n == 8 {
        right := Panel(Menus.Health, 0);
        active := RightSide;
      } else if n == 10 {
        shouldQuit := true;
      }
    }

    method HandleCharKey(c: char)
      requires Valid()
      modifies this`shouldQuit, this`left, this`right, this`selected
      ensures Valid() && View() == GlobalKey(lower, old(View()), Char(c))
    {
      hide Console.Navigate, Menus.Entries;
      if c == 'q' {
        shouldQuit := true;
      } else if ViewOfDigit(c).Some? {
        SetActivePanel(Panel(ViewOfDigit(c).value, 0));
      } else if c == 'k' {
        Navigate(-1);
      } else if c == 'j' {
        Navigate(1);
      }
    }

    method SwitchSide()
      requires Valid()
      modifies this`active
      ensures Valid()
      ensures View() == old(View()).(active := if old(active).LeftSide? then RightSide else LeftSide)
    {
      hide Menus.Entries;
      active := match active case LeftSide => RightSide case RightSide => LeftSide;
    }

    method LeaveFleet()
      requires Valid()
      modifies this`active, this`right
      ensures Valid() && View() == GlobalKey(lower, old(View()), Enter)
    {
      hide Menus.Entries;
      if (if active.LeftSide? then left.view else right.view).Fleet? {
        right := Panel(Menus.Config, 0);
        active := RightSide;
      }
    }

    method ClearFilter()
      requires Valid()
      modifies this`filter, this`status
      ensures Valid() && View() == GlobalKey(lower, old(View()), Esc)
    {
      hide Menus.Entries;
      if filter != "" {
        filter := "";
        status := FilterCleared;
      }
    }

    method HandlePlainKey(key: Key)
      requires Valid() && !key.F? && !key.Char?
      modifies this`active, this`left, this`right, this`selected, this`filter, this`status
      ensures Valid() && View() == GlobalKey(lower, old(View()), key)
    {
      hide Console.Navigate, Menus.Entries;
      match key {
        case Tab => SwitchSide();
        case BackTab => SwitchSide();
        case Up => Navigate(-1);
        case Down => Navigate(1);
        case PageUp => Navigate(-10);
        case PageDown => Navigate(10);
        case Enter => LeaveFleet();
        case Esc => ClearFilter();
        case _ =>
      }
    }

    method HandleGlobalKey(key: Key)
      requires Valid()
      modifies this
      ensures Valid() && fresh(Parts() - old(Parts()))
      ensures View() == GlobalKey(lower, old(View()), key)
    {
      hide GlobalKey, Menus.Entries;
      match key {
        case F(n) => HandleFunctionKey(n);
        case Char(c) => HandleCharKey(c);
        case _ => HandlePlainKey(key);
      }
    }

    method HandleFilterKey(key: Key)
      requires Valid()
      modifies this`filter, this`filtering, this`status
      ensures Valid() && View() == FilterKey(old(View()), key)
    {
      hide Menus.Entries;
      match key {
        case Char(c) => filter := filter + [c];
        case Backspace => if filter != "" { filter := filter[..|filter| - 1]; }
        case Enter =>
          filtering := false;
          status := FilterApplied(filter);
        case Esc =>
          filtering := false;
          filter := "";
          status := FilterCleared;
        case _ =>
      }
    }

    method ApplyMenuAction(action: Menus.MenuAction)
      requires Valid()
      modifies this
      ensures Valid() && fresh(Parts() - old(Parts()))
      ensures View() == Console.ApplyMenuAction(lower, old(View()), action)
    {
      hide Console.OpenEditor, Console.ConfirmRestart, SelectedAgent, Menus.Entries;
      match action {
        case SetView(view) => SetActivePanel(Panel(view, 0));
        case Edit => OpenEditor();
        case Restart => ConfirmRestart();
        case Filter => filtering := true;
        case Help => modal := Some(Plain(HelpBox));
        case Quit => shouldQuit := true;
        case Separator =>
      }
    }

    method StepMenu(delta: int)
      requires Valid() && menu.Some? && (delta == 1 || delta == -1)
      requires modal.None?
      modifies menu.value
      ensures Valid() && View() == old(View()).(menu := Some(Menus.Stepped(Menus.Entries(), delta, old(menu.value.selected))))
    {
      hide Menus.Entries, Menus.Nearest, Menus.Stepped;
      MenuHasEntries();
      var at := menu.value.selected;
      menu.value.Step(delta);
      Menus.NearestIsUnique(Menus.Entries(), delta, at, menu.value.selected, Menus.Stepped(Menus.Entries(), delta, at));
    }

    method HandleMenuKey(key: Key)
      requires Valid() && menu.Some? && modal.None?
      modifies this, Parts()
      ensures Valid() && fresh(Parts() - old(Parts()))
      ensures View() == MenuKey(lower, old(View()), key)
    {
      hide Console.ApplyMenuAction, Menus.Entries, Menus.Stepped;
      MenuHasEntries();
      if key == Up || key == Char('k') {
        StepMenu(-1);
      } else if key == Down || key == Char('j') {
        StepMenu(1);
      } else if key == Esc || key == F(2) || key == F(9) {
        menu := None;
      } else if key == Enter {
        var action := menu.value.entries[menu.value.selected].action;
        menu := None;
        ApplyMenuAction(action);
      }
    }

    method CancelEdit()
      requires Valid() && modal.Some? && modal.value.Editor?
      modifies this`modal, this`status
      ensures Valid() && Parts() <= old(Parts())
      ensures View() == old(View()).(modal := None, status := EditCancelled)
    {
      hide Menus.Entries;
      modal := None;
      status := EditCancelled;
    }

    /** F5 in the editor: the decoded text goes out as a push. */
    method SendEdit(outcome: Outcome) returns (call: Call)
      requires Valid() && modal.Some? && modal.value.Editor?
      modifies this`modal, this`status
      ensures Valid() && Parts() <= old(Parts())
      ensures EditorInput(old(View()), F(5), outcome) == Done(View(), Some(call))
    {
      hide Answered, TextEditor.Doc.Step, TextEditor.Join, TextEditor.EncodeAll, Menus.Entries, EditorKey;
      hide Utf8.Encode, Utf8.Decode, Utf8.WellFormed;
      var editor := modal.value.editor;
      var text := editor.Text();
      Utf8.DecodeEncode(TextEditor.Join(editor.doc.lines));
      modal := None;
      call := Push(editor.uid, Utf8.Decode(text));
      DoCall(call, outcome);
    }

    /** A key that the editor handles itself; `panicked` is the editor's. */
    method EditKey(key: TextEditor.Key) returns (panicked: bool)
      requires Valid() && modal.Some? && modal.value.Editor?
      modifies Parts()
      ensures Valid() && Parts() == old(Parts())
      ensures
        var Editing(uid, agent, doc) := old(View()).modal.value;
        if panicked then doc.Step(key).None?
        else doc.Step(key).Some? && View() == old(View()).(modal := Some(Editing(uid, agent, doc.Step(key).value)))
    {
      hide TextEditor.Doc.Step, TextEditor.EncodeAll, Menus.Entries;
      panicked := modal.value.editor.HandleKey(key);
    }

    /** Keys while the editor is open: all but two edit its text, or move its cursor, as they should. */
    method HandleEditorKey(key: Key, outcome: Outcome) returns (panicked: bool, call: Option<Call>)
      requires Valid() && modal.Some? && modal.value.Editor?
      modifies this, Parts()
      ensures Valid() && fresh(Parts() - old(Parts()))
      ensures EditorInput(old(View()), key, outcome) == if panicked then Panic else Done(View(), call)
      ensures
        var doc := old(modal.value.editor.doc);
        key != Esc && key != F(5) ==>
          && (panicked <==> Pressed(doc, key).None?)
          && (!panicked ==> call.None? && modal == old(modal) && Some(modal.value.editor.doc) == Pressed(doc, key))
          && (doc.InSync() && doc.NewlineFree() ==>
                !panicked && (TakesKey(doc, key, modal.value.editor.doc) <==> Faithful(doc, key)))
    {
      hide Answered, TextEditor.Doc.Step, TextEditor.Join, TextEditor.EncodeAll, Menus.Entries, EditorKey;
      hide Menus.Menu.Valid, Menus.Selectable, TextEditor.Editor.Valid, TextEditor.Flatten;
      hide Pressed, TakesKey, Faithful, TextEditor.Doc.InSync, TextEditor.Doc.NewlineFree;
      panicked, call := false, None;
      ghost var view, doc := View(), modal.value.editor.doc;
      if key != Esc && key != F(5) {
        InputIsPressed(view, key, outcome);
        if doc.InSync() && doc.NewlineFree() { PressedEdits(doc, key); }
      }
      if key == Esc {
        CancelEdit();
      } else if key == F(5) {
        var push := SendEdit(outcome);
        call := Some(push);
      } else if EditorKey(key).Some? {
        panicked := EditKey(EditorKey(key).value);
      }
    }

    method HandleModalKey(key: Key, outcome: Outcome) returns (panicked: bool, call: Option<Call>)
      requires Valid() && modal.Some?
      modifies this, Parts()
      ensures Valid() && fresh(Parts() - old(Parts()))
      ensures ModalKey(old(View()), key, outcome) == if panicked then Panic else Done(View(), call)
    {
      hide Answered, EditorInput, Menus.Entries;
      panicked, call := false, None;
      if modal.value.Editor? {
        panicked, call := HandleEditorKey(key, outcome);
      } else if modal.value.box.Confirm? {
        if key == Enter || key == Char('y') {
          call := Some(Restart(modal.value.box.uid));
          modal := None;
          DoCall(call.value, outcome);
        } else if key == Esc || key == Char('n') {
          modal := None;
        }
      } else {
        if key == Esc || key == Enter || key.Char? {
          modal := None;
        }
      }
    }

    method HandleKey(key: Key, outcome: Outcome) returns (panicked: bool, call: Option<Call>)
      requires Valid()
      modifies this, Parts()
      ensures Valid() && fresh(Parts() - old(Parts()))
      ensures Console.HandleKey(lower, old(View()), key, outcome) == if panicked then Panic else Done(View(), call)
    {
      hide ModalKey, MenuKey, FilterKey, GlobalKey, Menus.Entries;
      panicked, call := false, None;
      if modal.Some? {
        panicked, call := HandleModalKey(key, outcome);
      } else if menu.Some? {
        HandleMenuKey(key);
      } else if filtering {
        HandleFilterKey(key);
      } else {
        HandleGlobalKey(key);
      }
    }

    /** One turn of the event loop: a key press or a control event. */
    method Handle(input: Input) returns (panicked: bool, call: Option<Call>)
      requires Valid()
      modifies this, Parts()
      ensures Valid() && fresh(Parts() - old(Parts()))
      ensures Turn(lower, old(View()), input) == if panicked then Panic else Done(View(), call)
    {
      hide Console.HandleKey, Console.HandleControl, Menus.Entries;
      panicked, call := false, None;
      match input {
        case KeyPress(key, outcome) => panicked, call := HandleKey(key, outcome);
        case Event(event) => HandleControl(event);
      }
    }
  }

  /**
   * The event loop, on a new application: inputs are handled until one is left over after a quit
   * or panics. The views and calls it goes through are a run of `Console`, so everything proved of
   * runs - the fleet list, the selection, which calls can be made and what they carry - holds of
   * the object.
   */
  method Run(lower: string -> string, mode: string, endpoint: string, inputs: seq<Input>)
    returns (app: App, n: nat, calls: seq<Option<Call>>, panicked: bool, ghost views: seq<View>)
    ensures n <= |inputs| && IsRun(lower, Trace(inputs[..n], views, calls))
    ensures views[0] == Start(mode, endpoint)
    ensures !panicked ==> app.Valid() && app.View() == views[n]
    ensures n == |inputs| ==> !panicked
    ensures n < |inputs| ==> if panicked then Turn(lower, views[n], inputs[n]).Panic? else views[n].shouldQuit
  {
    hide Turn, IsRun, Start, Menus.Entries, App.ShownModal, App.ShownMenu, App.Valid;
    app := new App(lower, mode, endpoint);
    n, calls, panicked, views := 0, [], false, [app.View()];
    StartIsRun(lower, mode, endpoint);
    assert inputs[..0] == [];
    while n < |inputs| && !app.shouldQuit
      invariant n <= |inputs| && |views| == n + 1 && |calls| == n && !panicked
      invariant fresh(app) && app.Valid() && fresh(app.Parts()) && app.lower == lower
      invariant IsRun(lower, Trace(inputs[..n], views, calls))
      invariant views[n] == app.View() && views[0] == Start(mode, endpoint)
    {
      var call;
      panicked, call := app.Handle(inputs[n]);
      if panicked { return; }
      RunGoesOn(lower, Trace(inputs[..n], views, calls), inputs[n], app.View(), call);
      assert inputs[..n + 1] == inputs[..n] + [inputs[n]];
      views, calls := views + [app.View()], calls + [call];
      n := n + 1;
    }
  }
}
