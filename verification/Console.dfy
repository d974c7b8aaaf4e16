/**
 * What the terminal UI holds and how keys and control events change it
 * (crates/otelc-tui/src/app.rs), on values. `App` is the mutable object proved against it.
 */
module Console {
  import opened Prelude
  import opened AgentRecord
  import opened Translate
  import opened TextOrder
  import TextEditor
  import Menus

  datatype Key =
    | Char(c: char) | F(n: nat) | Tab | BackTab | Enter | Esc | Backspace
    | Left | Right | Up | Down | Home | End | PageUp | PageDown | Other

  /** A row of the menu, and a document whose cursor is on a row. */
  type MenuRow = i: nat | i < 13

  type OpenDoc = d: TextEditor.Doc | d.Valid() witness TextEditor.Doc([[]], 0, 0)

  datatype Panel = Panel(view: Menus.ViewMode, scroll: nat)

  datatype Side = LeftSide | RightSide

  /** A call on the control plane, and what it answered. */
  datatype Call = Restart(uid: string) | Push(uid: string, text: string)

  datatype Outcome = Accepted | Refused(error: string)

  datatype Modal =
    | HelpBox
    | FailureBox(failed: Call, error: string)
    | Confirm(name: string, uid: string)
    | Editing(uid: string, agent: string, doc: OpenDoc)

  /** The status line, by the template that `StatusText` fills in. */
  datatype Status =
    | Waiting(mode: string, endpoint: string)
    | Connected(name: string)
    | SomeoneLeft
    | Noticed(text: string)
    | NoAgent
    | NoConfig(name: string)
    | NoRestart(name: string)
    | FilterPrompt
    | FilterApplied(filter: string)
    | FilterCleared
    | EditCancelled
    | RestartSent(name: string)
    | ConfigPushed(name: string)

  function StatusText(s: Status): string {
    match s
    case Waiting(mode, endpoint) => mode + " mode · " + endpoint + " · waiting for agents to connect…"
    case Connected(name) => "agent " + name + " connected"
    case SomeoneLeft => "an agent disconnected"
    case Noticed(text) => text
    case NoAgent => "no agent selected"
    case NoConfig(name) => name + " does not accept remote config"
    case NoRestart(name) => name + " does not accept restart commands"
    case FilterPrompt => "filter: type to match, Enter to apply, Esc to clear"
    case FilterApplied(filter) => "filter applied: '" + filter + "'"
    case FilterCleared => "filter cleared"
    case EditCancelled => "edit cancelled"
    case RestartSent(name) => "restart command sent to " + name
    case ConfigPushed(name) => "remote config pushed to " + name
  }

  datatype View = View(
    agents: map<string, AgentDetail>,
    telemetry: map<string, TelemetrySnapshot>,
    order: seq<string>,
    selected: Option<string>,
    left: Panel,
    right: Panel,
    active: Side,
    modal: Option<Modal>,
    menu: Option<MenuRow>,
    filter: string,
    filtering: bool,
    status: Status,
    shouldQuit: bool)

  function Start(mode: string, endpoint: string): View {
    View(map[], map[], [], None, Panel(Menus.Fleet, 0), Panel(Menus.Config, 0), LeftSide, None, None, "", false,
         Waiting(mode, endpoint), false)
  }

  // ----- the agent list ------------------------------------------------------------------------

  /** `str::contains` */
  predicate Contains(text: string, needle: string) {
    exists i :: 0 <= i <= |text| && StartsWith(text[i..], needle)
  }

  predicate StartsWith(text: string, needle: string) {
    |needle| <= |text| && text[..|needle|] == needle
  }

  /** The filter, for some lower-casing of strings. */
  predicate Shows(lower: string -> string, filter: string, a: AgentDetail) {
    var needle := lower(filter);
    needle == "" || Contains(lower(a.name), needle) || Contains(lower(a.uid), needle)
  }

  function Matching(lower: string -> string, filter: string, agents: map<string, AgentDetail>, order: seq<string>)
    : seq<AgentDetail>
  {
    if order == [] then [] else
    var u := order[|order| - 1];
    Matching(lower, filter, agents, order[..|order| - 1])
      + if u in agents && Shows(lower, filter, agents[u]) then [agents[u]] else []
  }

  function NameOf(a: AgentDetail): string { a.name }

  function UidOf(a: AgentDetail): string { a.uid }

  function Visible(lower: string -> string, v: View): seq<AgentDetail> {
    SortBy(NameOf, Matching(lower, v.filter, v.agents, v.order))
  }

  /** Where in the list the agent with this UID is. */
  function Position(list: seq<AgentDetail>, uid: string): (p: Option<nat>)
    ensures p.Some? ==> p.value < |list| && list[p.value].uid == uid
    ensures p.None? ==> forall i :: 0 <= i < |list| ==> list[i].uid != uid
  {
    if list == [] then None
    else if list[0].uid == uid then Some(0)
    else
      var p := Position(list[1..], uid);
      if p.Some? then Some(p.value + 1) else None
  }

  /** The index of the highlighted agent: the selected one, or the first if that is not shown. */
  function Cursor(list: seq<AgentDetail>, selected: Option<string>): (i: nat)
    ensures list != [] ==> i < |list|
  {
    if selected.None? then 0 else
    var p := Position(list, selected.value);
    if p.Some? then p.value else 0
  }

  function SelectedAgent(lower: string -> string, v: View): Option<AgentDetail> {
    var list := Visible(lower, v);
    if list == [] then None else Some(list[Cursor(list, v.selected)])
  }

  function MoveSelection(lower: string -> string, v: View, delta: int): View {
    var list := Visible(lower, v);
    if list == [] then v
    else v.(selected := Some(list[Clamp(Cursor(list, v.selected) + delta, 0, |list| - 1)].uid))
  }

  /** `order.retain(|u| u != uid)` */
  function Without(order: seq<string>, uid: string): seq<string> {
    if order == [] then [] else
    var u := order[|order| - 1];
    Without(order[..|order| - 1], uid) + if u == uid then [] else [u]
  }

  // ----- control events --------------------------------------------------------------------------

  function HandleControl(v: View, e: ControlEvent): View {
    match e
    case AgentUpserted(detail) =>
      var v' := v.(agents := v.agents[detail.uid := detail]);
      if detail.uid in v.agents then v'
      else v'.(order := v.order + [detail.uid],
               selected := if v.selected.None? then Some(detail.uid) else v.selected,
               status := Connected(detail.name))
    case AgentDisconnected(uid) =>
      var order := Without(v.order, uid);
      v.(agents := v.agents - {uid},
         order := order,
         telemetry := v.telemetry - {uid},
         selected := if v.selected != Some(uid) then v.selected else if order == [] then None else Some(order[0]),
         status := SomeoneLeft)
    case Telemetry(uid, snapshot) => v.(telemetry := v.telemetry[uid := snapshot])
    case Notice(text) => v.(status := Noticed(text))
  }

  // ----- panels --------------------------------------------------------------------------------------

  function ActivePanel(v: View): Panel {
    if v.active.LeftSide? then v.left else v.right
  }

  function WithActivePanel(v: View, p: Panel): View {
    if v.active.LeftSide? then v.(left := p) else v.(right := p)
  }

  function NextView(m: Menus.ViewMode): Menus.ViewMode {
    match m
    case Fleet => Menus.Config
    case Config => Menus.Pipeline
    case Pipeline => Menus.Metrics
    case Metrics => Menus.Logs
    case Logs => Menus.Health
    case Health => Menus.Fleet
  }

  function ViewOfDigit(c: char): Option<Menus.ViewMode> {
    match c
    case '1' => Some(Menus.Fleet)
    case '2' => Some(Menus.Config)
    case '3' => Some(Menus.Pipeline)
    case '4' => Some(Menus.Metrics)
    case '5' => Some(Menus.Logs)
    case '6' => Some(Menus.Health)
    case _ => None
  }

  const U16 := 0x1_0000

  /** Arrow and page keys: the fleet cursor, or the scroll offset cast to 16 bits. */
  function Navigate(lower: string -> string, v: View, delta: int): View {
    var p := ActivePanel(v);
    if p.view.Fleet? then MoveSelection(lower, v, delta)
    else WithActivePanel(v, p.(scroll := Max(0, p.scroll + delta) % U16))
  }

  // ----- commands --------------------------------------------------------------------------------------

  predicate AcceptsConfig(a: AgentDetail) { Supports(a, "AcceptsRemoteConfig") }

  predicate AcceptsRestart(a: AgentDetail) { Supports(a, "AcceptsRestartCommand") }

  function OpenEditor(lower: string -> string, v: View): View {
    match SelectedAgent(lower, v)
    case None => v.(status := NoAgent)
    case Some(a) =>
      if !AcceptsConfig(a) then v.(status := NoConfig(a.name))
      else v.(modal := Some(Editing(a.uid, a.name, TextEditor.Open(a.effectiveConfig))))
  }

  function ConfirmRestart(lower: string -> string, v: View): View {
    match SelectedAgent(lower, v)
    case None => v.(status := NoAgent)
    case Some(a) =>
      if !AcceptsRestart(a) then v.(status := NoRestart(a.name))
      else v.(modal := Some(Confirm(a.name, a.uid)))
  }

  function AgentName(v: View, uid: string): string {
    if uid in v.agents then v.agents[uid].name else uid
  }

  /** After the control plane has answered a call: a status line, or a message box. */
  function Answered(v: View, call: Call, outcome: Outcome): View {
    match outcome
    case Accepted =>
      v.(status := if call.Restart? then RestartSent(AgentName(v, call.uid)) else ConfigPushed(AgentName(v, call.uid)))
    case Refused(e) => v.(modal := Some(FailureBox(call, e)))
  }

  // ----- keys ----------------------------------------------------------------------------------------------

  /** What a key did: a new view and perhaps one call, or a panic of the editor. */
  datatype Effect = Done(view: View, call: Option<Call>) | Panic

  function GlobalKey(lower: string -> string, v: View, key: Key): View {
    match key
    case F(1) => v.(modal := Some(HelpBox))
    case F(2) => v.(menu := Some(0))
    case F(3) => WithActivePanel(v, Panel(NextView(ActivePanel(v).view), 0))
    case F(4) => OpenEditor(lower, v)
    case F(5) => OpenEditor(lower, v)
    case F(6) => ConfirmRestart(lower, v)
    case F(7) => v.(filtering := true, status := FilterPrompt)
    case F(8) => v.(right := Panel(Menus.Health, 0), active := RightSide)
    case F(9) => v.(menu := Some(0))
    case F(10) => v.(shouldQuit := true)
    case Tab => v.(active := if v.active.LeftSide? then RightSide else LeftSide)
    case BackTab => v.(active := if v.active.LeftSide? then RightSide else LeftSide)
    case Char(c) =>
      if c == 'q' then v.(shouldQuit := true)
      else if ViewOfDigit(c).Some? then WithActivePanel(v, Panel(ViewOfDigit(c).value, 0))
      else if c == 'k' then Navigate(lower, v, -1)
      else if c == 'j' then Navigate(lower, v, 1)
      else v
    case Up => Navigate(lower, v, -1)
    case Down => Navigate(lower, v, 1)
    case PageUp => Navigate(lower, v, -10)
    case PageDown => Navigate(lower, v, 10)
    case Enter =>
      if ActivePanel(v).view.Fleet? then v.(right := Panel(Menus.Config, 0), active := RightSide) else v
    case Esc => if v.filter == "" then v else v.(filter := "", status := FilterCleared)
    case _ => v
  }

  function FilterKey(v: View, key: Key): View {
    match key
    case Char(c) => v.(filter := v.filter + [c])
    case Backspace => if v.filter == "" then v else v.(filter := v.filter[..|v.filter| - 1])
    case Enter => v.(filtering := false, status := FilterApplied(v.filter))
    case Esc => v.(filtering := false, filter := "", status := FilterCleared)
    case _ => v
  }

  function ApplyMenuAction(lower: string -> string, v: View, action: Menus.MenuAction): View {
    match action
    case SetView(view) => WithActivePanel(v, Panel(view, 0))
    case Edit => OpenEditor(lower, v)
    case Restart => ConfirmRestart(lower, v)
    case Filter => v.(filtering := true)
    case Help => v.(modal := Some(HelpBox))
    case Quit => v.(shouldQuit := true)
    case Separator => v
  }

  lemma MenuHasEntries()
    ensures exists t: nat :: Menus.Selectable(Menus.Entries(), t)
  {
    assert Menus.Selectable(Menus.Entries(), 0);
  }

  ghost function MenuKey(lower: string -> string, v: View, key: Key): View
    requires v.menu.Some?
  {
    MenuHasEntries();
    var at := v.menu.value;
    if key == Up || key == Char('k') then v.(menu := Some(Menus.Stepped(Menus.Entries(), -1, at)))
    else if key == Down || key == Char('j') then v.(menu := Some(Menus.Stepped(Menus.Entries(), 1, at)))
    else if key == Esc || key == F(2) || key == F(9) then v.(menu := None)
    else if key == Enter then ApplyMenuAction(lower, v.(menu := None), Menus.Entries()[at].action)
    else v
  }

  /** The keys that the open editor handles itself. */
  function EditorKey(key: Key): Option<TextEditor.Key> {
    match key
    case Char(c) => Some(TextEditor.Char(c))
    case Enter => Some(TextEditor.Enter)
    case Backspace => Some(TextEditor.Backspace)
    case Left => Some(TextEditor.Left)
    case Right => Some(TextEditor.Right)
    case Up => Some(TextEditor.Up)
    case Down => Some(TextEditor.Down)
    case Home => Some(TextEditor.Home)
    case End => Some(TextEditor.End)
    case _ => None
  }

  ghost function EditorInput(v: View, key: Key, outcome: Outcome): Effect
    requires v.modal.Some? && v.modal.value.Editing?
  {
    var Editing(uid, agent, doc) := v.modal.value;
    if key == Esc then Done(v.(modal := None, status := EditCancelled), None)
    else if key == F(5) then
      var call := Push(uid, TextEditor.Join(doc.lines));
      Done(Answered(v.(modal := None), call, outcome), Some(call))
    else if EditorKey(key).None? then Done(v, None)
    else
      var d := doc.Step(EditorKey(key).value);
      if d.None? then Panic else Done(v.(modal := Some(Editing(uid, agent, d.value))), None)
  }

  ghost function ModalKey(v: View, key: Key, outcome: Outcome): Effect
    requires v.modal.Some?
  {
    match v.modal.value
    case Confirm(_, uid) =>
      if key == Enter || key == Char('y') then
        Done(Answered(v.(modal := None), Restart(uid), outcome), Some(Restart(uid)))
      else if key == Esc || key == Char('n') then Done(v.(modal := None), None)
      else Done(v, None)
    case Editing(_, _, _) => EditorInput(v, key, outcome)
    case _ => Done(if key == Esc || key == Enter || key.Char? then v.(modal := None) else v, None)
  }

  ghost function HandleKey(lower: string -> string, v: View, key: Key, outcome: Outcome): Effect
  {
    if v.modal.Some? then ModalKey(v, key, outcome)
    else if v.menu.Some? then Done(MenuKey(lower, v, key), None)
    else if v.filtering then Done(FilterKey(v, key), None)
    else Done(GlobalKey(lower, v, key), None)
  }

  // ----- runs ------------------------------------------------------------------------------------------------

  /** One turn of the event loop; the outcome matters only if the key makes a call. */
  datatype Input = KeyPress(key: Key, outcome: Outcome) | Event(event: ControlEvent)

  ghost function Turn(lower: string -> string, v: View, input: Input): Effect
  {
    match input
    case KeyPress(key, outcome) => HandleKey(lower, v, key, outcome)
    case Event(e) => Done(HandleControl(v, e), None)
  }

  /** A run of the event loop: the views between inputs, and the call each input made. It stops at a quit. */
  datatype Trace = Trace(inputs: seq<Input>, views: seq<View>, calls: seq<Option<Call>>)

  ghost predicate IsRun(lower: string -> string, r: Trace) {
    && |r.views| == |r.inputs| + 1 && |r.calls| == |r.inputs|
    && (exists mode, endpoint :: r.views[0] == Start(mode, endpoint))
    && forall i :: 0 <= i < |r.inputs| ==> IsTurn(lower, r, i)
  }

  ghost predicate IsTurn(lower: string -> string, r: Trace, i: nat)
    requires i < |r.inputs| && |r.views| == |r.inputs| + 1 && |r.calls| == |r.inputs|
  {
    !r.views[i].shouldQuit && Turn(lower, r.views[i], r.inputs[i]) == Done(r.views[i + 1], r.calls[i])
  }

  lemma StartIsRun(lower: string -> string, mode: string, endpoint: string)
    ensures IsRun(lower, Trace([], [Start(mode, endpoint)], []))
  {
  }

  /** A run goes on with any turn that does not panic, as long as the UI has not been told to quit. */
  lemma RunGoesOn(lower: string -> string, r: Trace, input: Input, w: View, call: Option<Call>)
    requires IsRun(lower, r)
    requires !r.views[|r.inputs|].shouldQuit && Turn(lower, r.views[|r.inputs|], input) == Done(w, call)
    ensures IsRun(lower, Trace(r.inputs + [input], r.views + [w], r.calls + [call]))
  {
    hide Turn, Start;
    var r' := Trace(r.inputs + [input], r.views + [w], r.calls + [call]);
    assert r'.views[0] == r.views[0];
    forall i | 0 <= i < |r'.inputs| ensures IsTurn(lower, r', i) {
      if i < |r.inputs| { assert IsTurn(lower, r, i); }
    }
  }
}
