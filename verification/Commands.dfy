/**
 * Which commands the UI can send: over every run of keys and control events, each restart
 * follows one confirmation and each push one editor, opened for that agent while its record
 * accepted the command, and a push carries what was typed since.
 */
module Commands {
  import opened Prelude
  import opened Opamp
  import opened AgentRecord
  import opened Translate
  import opened Console
  import opened FleetSelection
  import opened EditorKeys
  import TextEditor
  import Menus

  // ----- one thing at a time ---------------------------------------------------------------------

  /** At most one of the dialog, the menu and the filter prompt takes keys. */
  predicate OneMode(v: View) {
    && (v.modal.Some? ==> v.menu.None? && !v.filtering)
    && (v.menu.Some? ==> !v.filtering)
  }

  // ----- how a dialog comes about ------------------------------------------------------------------

  /** v shows this agent highlighted with no dialog, and the agent's record has the capability. */
  ghost predicate Offers(lower: string -> string, v: View, a: AgentDetail, capability: string) {
    && v.modal.None?
    && SelectedAgent(lower, v) == Some(a)
    && a.uid in v.agents && v.agents[a.uid] == a
    && Supports(a, capability)
  }

  /** What one turn can do to the dialog, from a view without a command dialog. */
  ghost predicate OpensProperly(lower: string -> string, v: View, w: View) {
    && (w.modal.Some? && w.modal.value.Confirm? ==>
          exists a :: Offers(lower, v, a, "AcceptsRestartCommand") && w.modal.value == Confirm(a.name, a.uid))
    && (w.modal.Some? && w.modal.value.Editing? ==>
          exists a :: Offers(lower, v, a, "AcceptsRemoteConfig")
            && w.modal.value == Editing(a.uid, a.name, TextEditor.Open(a.effectiveConfig)))
  }

  lemma OpenOpensProperly(lower: string -> string, v: View, u: View)
    requires Listed(v) && v.modal.None?
    requires u == v.(menu := u.menu)
    ensures OpensProperly(lower, v, OpenEditor(lower, u)) && OpensProperly(lower, v, ConfirmRestart(lower, u))
    ensures OneMode(v) && u.menu.None? && !u.filtering ==> OneMode(OpenEditor(lower, u)) && OneMode(ConfirmRestart(lower, u))
  {
    hide Supports, Listed, Visible, Cursor, Shows;
    SameVisible(lower, u, v);
    SelectedAgentIsVisible(lower, v);
    if SelectedAgent(lower, v).Some? {
      var a := SelectedAgent(lower, v).value;
      if AcceptsConfig(a) { assert Offers(lower, v, a, "AcceptsRemoteConfig"); }
      if AcceptsRestart(a) { assert Offers(lower, v, a, "AcceptsRestartCommand"); }
    }
  }

  lemma SameVisible(lower: string -> string, u: View, v: View)
    requires u.filter == v.filter && u.agents == v.agents && u.order == v.order
    ensures Visible(lower, u) == Visible(lower, v)
  {
  }

  lemma GlobalKeyOpens(lower: string -> string, v: View, key: Key)
    requires Listed(v) && v.modal.None? && v.menu.None? && !v.filtering
    ensures OpensProperly(lower, v, GlobalKey(lower, v, key)) && OneMode(GlobalKey(lower, v, key))
  {
    hide Navigate, OpenEditor, ConfirmRestart, NextView, ViewOfDigit, ActivePanel, Listed, Offers;
    OpenOpensProperly(lower, v, v);
    NavigateFrame(lower, v, -1);
    NavigateFrame(lower, v, 1);
    NavigateFrame(lower, v, -10);
    NavigateFrame(lower, v, 10);
  }

  lemma NavigateFrame(lower: string -> string, v: View, delta: int)
    ensures var w := Navigate(lower, v, delta);
      w.modal == v.modal && w.menu == v.menu && w.filtering == v.filtering
  {
    hide Visible, Cursor;
  }

  lemma MenuKeyOpens(lower: string -> string, v: View, key: Key)
    requires Listed(v) && v.modal.None? && v.menu.Some? && !v.filtering
    ensures OpensProperly(lower, v, MenuKey(lower, v, key)) && OneMode(MenuKey(lower, v, key))
  {
    hide OpenEditor, ConfirmRestart, ActivePanel, Listed, Offers, Menus.Entries, Menus.Stepped;
    MenuHasEntries();
    OpenOpensProperly(lower, v, v.(menu := None));
  }

  // ----- one turn --------------------------------------------------------------------------------------

  /** No dialog that could make a call is open. */
  predicate NoCommandDialog(v: View) {
    v.modal.Some? ==> v.modal.value.HelpBox? || v.modal.value.FailureBox?
  }

  predicate Confirms(input: Input) {
    input.KeyPress? && (input.key == Enter || input.key == Char('y'))
  }

  predicate Pushes(input: Input) {
    input.KeyPress? && input.key == F(5)
  }

  /** A call is made exactly by confirming a restart or by F5 in the editor, and closes the dialog. */
  ghost predicate CallsProperly(v: View, input: Input, w: View, call: Option<Call>) {
    && (call.Some? <==>
          v.modal.Some? && ((v.modal.value.Confirm? && Confirms(input)) || (v.modal.value.Editing? && Pushes(input))))
    && (call.Some? ==>
          && NoCommandDialog(w)
          && call.value == (if v.modal.value.Confirm? then Restart(v.modal.value.uid)
                            else Push(v.modal.value.uid, TextEditor.Join(v.modal.value.doc.lines))))
  }

  /** An open confirmation is kept as it is or closed; an open editor takes the key or is closed. */
  ghost predicate KeepsDialog(v: View, input: Input, w: View) {
    && (v.modal.Some? && v.modal.value.Confirm? ==> w.modal == v.modal || NoCommandDialog(w))
    && (v.modal.Some? && v.modal.value.Editing? ==>
          || NoCommandDialog(w)
          || (input.Event? && w.modal == v.modal)
          || (&& input.KeyPress? && w.modal.Some? && w.modal.value.Editing?
              && w.modal.value.uid == v.modal.value.uid && w.modal.value.agent == v.modal.value.agent
              && Some(w.modal.value.doc) == Pressed(v.modal.value.doc, input.key)))
    && (v.modal.Some? && NoCommandDialog(v) ==> NoCommandDialog(w))
  }

  lemma AnsweredClosesDialog(v: View, call: Call, outcome: Outcome)
    requires v.modal.None?
    ensures var w := Answered(v, call, outcome);
      NoCommandDialog(w) && w.menu == v.menu && w.filtering == v.filtering
  {
    hide AgentName;
  }

  lemma EditorTurn(v: View, key: Key, outcome: Outcome)
    requires v.modal.Some? && v.modal.value.Editing? && OneMode(v) && EditorInput(v, key, outcome).Done?
    ensures var e := EditorInput(v, key, outcome);
      && OneMode(e.view)
      && KeepsDialog(v, KeyPress(key, outcome), e.view)
      && CallsProperly(v, KeyPress(key, outcome), e.view, e.call)
  {
    hide Answered, TextEditor.Join, TextEditor.Doc.Step, Pressed;
    if key == F(5) {
      AnsweredClosesDialog(v.(modal := None), EditorInput(v, key, outcome).call.value, outcome);
    } else if key != Esc {
      InputIsPressed(v, key, outcome);
    }
  }

  lemma ModalTurn(v: View, key: Key, outcome: Outcome)
    requires v.modal.Some? && OneMode(v) && ModalKey(v, key, outcome).Done?
    ensures var e := ModalKey(v, key, outcome);
      && OneMode(e.view)
      && KeepsDialog(v, KeyPress(key, outcome), e.view)
      && CallsProperly(v, KeyPress(key, outcome), e.view, e.call)
  {
    hide EditorInput, Answered, TextEditor.Join, Pressed;
    match v.modal.value
    case Editing(_, _, _) => EditorTurn(v, key, outcome);
    case Confirm(_, uid) => AnsweredClosesDialog(v.(modal := None), Restart(uid), outcome);
    case _ =>
  }

  lemma KeyTurn(lower: string -> string, v: View, key: Key, outcome: Outcome)
    requires FleetInv(v) && OneMode(v) && HandleKey(lower, v, key, outcome).Done?
    ensures var e := HandleKey(lower, v, key, outcome);
      && OneMode(e.view)
      && KeepsDialog(v, KeyPress(key, outcome), e.view)
      && CallsProperly(v, KeyPress(key, outcome), e.view, e.call)
      && (v.modal.None? ==> OpensProperly(lower, v, e.view))
  {
    hide GlobalKey, MenuKey, ModalKey, Listed, SelectionInv, OpensProperly, KeepsDialog, CallsProperly;
    if v.modal.Some? {
      ModalTurn(v, key, outcome);
    } else {
      QuietTurn(v, KeyPress(key, outcome), HandleKey(lower, v, key, outcome).view);
      if v.menu.Some? {
        MenuKeyOpens(lower, v, key);
      } else if v.filtering {
        FilterTurn(lower, v, key);
      } else {
        GlobalKeyOpens(lower, v, key);
      }
    }
  }

  lemma QuietTurn(v: View, input: Input, w: View)
    requires v.modal.None?
    ensures KeepsDialog(v, input, w) && CallsProperly(v, input, w, None)
  {
    hide TextEditor.Join, Pressed;
  }

  lemma FilterTurn(lower: string -> string, v: View, key: Key)
    requires v.modal.None? && v.menu.None?
    ensures OneMode(FilterKey(v, key)) && OpensProperly(lower, v, FilterKey(v, key))
  {
    hide Offers;
  }

  lemma EventTurn(lower: string -> string, v: View, e: ControlEvent)
    requires OneMode(v)
    ensures var w := HandleControl(v, e);
      && OneMode(w)
      && KeepsDialog(v, Event(e), w)
      && CallsProperly(v, Event(e), w, None)
      && (v.modal.None? ==> OpensProperly(lower, v, w))
  {
    hide Offers, TextEditor.Join, Pressed, Without;
    ControlFrame(v, e);
    hide HandleControl;
  }

  lemma ControlFrame(v: View, e: ControlEvent)
    ensures var w := HandleControl(v, e); w.modal == v.modal && w.menu == v.menu && w.filtering == v.filtering
  {
    hide Without;
  }

  lemma OneTurn(lower: string -> string, v: View, input: Input)
    requires FleetInv(v) && OneMode(v) && Turn(lower, v, input).Done?
    ensures var e := Turn(lower, v, input);
      && OneMode(e.view)
      && KeepsDialog(v, input, e.view)
      && CallsProperly(v, input, e.view, e.call)
      && (v.modal.None? ==> OpensProperly(lower, v, e.view))
  {
    hide HandleKey, HandleControl, FleetInv, OpensProperly, KeepsDialog, CallsProperly;
    match input
    case Event(e) => EventTurn(lower, v, e);
    case KeyPress(key, outcome) => KeyTurn(lower, v, key, outcome);
  }

  /** The only panic is Backspace with the cursor past the last character of its line. */
  lemma OnlyBackspacePanics(lower: string -> string, v: View, key: Key, outcome: Outcome)
    ensures HandleKey(lower, v, key, outcome).Panic? <==>
      && v.modal.Some? && v.modal.value.Editing? && key == Backspace
      && v.modal.value.doc.cx > |v.modal.value.doc.Line()|
  {
    hide GlobalKey, MenuKey, Answered, TextEditor.Join;
  }

  // ----- over a run ---------------------------------------------------------------------------------------

  /** On every run, at most one of dialog, menu and filter prompt is active. */
  lemma {:induction false} RunKeepsOneMode(lower: string -> string, r: Trace, k: nat)
    requires IsRun(lower, r) && k < |r.views|
    ensures OneMode(r.views[k])
  {
    hide Turn, OneMode, FleetInv, KeepsDialog, CallsProperly, OpensProperly;
    if k == 0 {
      RunStartsQuiet(lower, r);
    } else {
      TurnAt(lower, r, k - 1);
    }
  }

  lemma StartsQuiet(mode: string, endpoint: string)
    ensures OneMode(Start(mode, endpoint)) && Start(mode, endpoint).modal.None?
  {
  }

  lemma RunStartsQuiet(lower: string -> string, r: Trace)
    requires IsRun(lower, r)
    ensures OneMode(r.views[0]) && r.views[0].modal.None?
  {
    hide IsTurn;
    var mode, endpoint :| r.views[0] == Start(mode, endpoint);
    StartsQuiet(mode, endpoint);
  }

  /** What is known of the k-th turn of a run. */
  lemma {:induction false} TurnAt(lower: string -> string, r: Trace, k: nat)
    requires IsRun(lower, r) && k < |r.inputs|
    ensures OneMode(r.views[k]) && OneMode(r.views[k + 1])
    ensures KeepsDialog(r.views[k], r.inputs[k], r.views[k + 1])
    ensures CallsProperly(r.views[k], r.inputs[k], r.views[k + 1], r.calls[k])
    ensures r.views[k].modal.None? ==> OpensProperly(lower, r.views[k], r.views[k + 1])
    decreases k, 0
  {
    hide Turn, OneMode, FleetInv, KeepsDialog, CallsProperly, OpensProperly;
    if k == 0 {
      RunStartsQuiet(lower, r);
    } else {
      TurnAt(lower, r, k - 1);
    }
    RunKeepsFleet(lower, r, k);
    assert IsTurn(lower, r, k);
    OneTurn(lower, r.views[k], r.inputs[k]);
  }

  /** The keys among these inputs. */
  ghost function KeysIn(inputs: seq<Input>): seq<Key> {
    if inputs == [] then [] else
    var input := inputs[|inputs| - 1];
    KeysIn(inputs[..|inputs| - 1]) + if input.KeyPress? then [input.key] else []
  }

  /** Turn j opened a confirmation for a, and nothing but it has been on screen up to i. */
  ghost predicate ConfirmOpen(lower: string -> string, r: Trace, j: nat, i: nat, a: AgentDetail)
    requires j < i < |r.views|
  {
    && Offers(lower, r.views[j], a, "AcceptsRestartCommand")
    && forall t :: j < t <= i ==> r.views[t].modal == Some(Confirm(a.name, a.uid))
  }

  /** At t the editor holds a's config as edited by the keys typed since turn j opened it. */
  ghost predicate EditorAt(r: Trace, j: nat, t: nat, a: AgentDetail)
    requires j < t < |r.views| && |r.views| == |r.inputs| + 1
  {
    && r.views[t].modal.Some? && r.views[t].modal.value.Editing?
    && r.views[t].modal.value.uid == a.uid && r.views[t].modal.value.agent == a.name
    && Typed(a.effectiveConfig, KeysIn(r.inputs[j + 1..t])) == Some(r.views[t].modal.value.doc)
  }

  ghost predicate EditorOpen(lower: string -> string, r: Trace, j: nat, i: nat, a: AgentDetail)
    requires j < i < |r.views| && |r.views| == |r.inputs| + 1
  {
    && Offers(lower, r.views[j], a, "AcceptsRemoteConfig")
    && forall t :: j < t <= i ==> EditorAt(r, j, t, a)
  }

  lemma {:induction false} ConfirmHistory(lower: string -> string, r: Trace, i: nat) returns (j: nat, a: AgentDetail)
    requires IsRun(lower, r) && i < |r.views| && r.views[i].modal.Some? && r.views[i].modal.value.Confirm?
    ensures j < i && ConfirmOpen(lower, r, j, i, a)
  {
    hide Turn, OneMode, Offers, IsTurn, CallsProperly;
    RunStartsQuiet(lower, r);
    TurnAt(lower, r, i - 1);
    var v := r.views[i - 1];
    if v.modal.None? {
      j := i - 1;
      a :| Offers(lower, v, a, "AcceptsRestartCommand") && r.views[i].modal.value == Confirm(a.name, a.uid);
    } else {
      j, a := ConfirmHistory(lower, r, i - 1);
    }
  }

  lemma KeysInSnoc(r: Trace, j: nat, i: nat)
    requires j < i < |r.inputs|
    ensures KeysIn(r.inputs[j + 1..i + 1]) ==
      KeysIn(r.inputs[j + 1..i]) + if r.inputs[i].KeyPress? then [r.inputs[i].key] else []
  {
    var inputs := r.inputs[j + 1..i + 1];
    assert inputs[..|inputs| - 1] == r.inputs[j + 1..i];
  }

  lemma TypedSnoc(content: string, keys: seq<Key>, key: Key)
    requires Typed(content, keys).Some?
    ensures Typed(content, keys + [key]) == Pressed(Typed(content, keys).value, key)
  {
    hide Pressed, TextEditor.Open;
    assert (keys + [key])[..|keys|] == keys;
  }

  /** An editor that stays open over a turn has taken the key. */
  lemma EditorStays(r: Trace, j: nat, i: nat, a: AgentDetail)
    requires |r.views| == |r.inputs| + 1 && j < i < |r.inputs|
    requires EditorAt(r, j, i, a) && KeepsDialog(r.views[i], r.inputs[i], r.views[i + 1]) && !NoCommandDialog(r.views[i + 1])
    ensures EditorAt(r, j, i + 1, a)
  {
    hide Pressed, Typed, KeysIn;
    KeysInSnoc(r, j, i);
    if r.inputs[i].KeyPress? {
      TypedSnoc(a.effectiveConfig, KeysIn(r.inputs[j + 1..i]), r.inputs[i].key);
    } else {
      assert KeysIn(r.inputs[j + 1..i + 1]) == KeysIn(r.inputs[j + 1..i]);
    }
  }

  lemma EditorStarts(r: Trace, j: nat, a: AgentDetail)
    requires |r.views| == |r.inputs| + 1 && j < |r.inputs|
    requires r.views[j + 1].modal == Some(Editing(a.uid, a.name, TextEditor.Open(a.effectiveConfig)))
    ensures EditorAt(r, j, j + 1, a)
  {
    assert r.inputs[j + 1..j + 1] == [];
  }

  lemma {:induction false} EditorHistory(lower: string -> string, r: Trace, i: nat) returns (j: nat, a: AgentDetail)
    requires IsRun(lower, r) && i < |r.views| && r.views[i].modal.Some? && r.views[i].modal.value.Editing?
    ensures j < i && EditorOpen(lower, r, j, i, a)
  {
    hide Turn, OneMode, Offers, EditorAt, IsTurn, CallsProperly;
    RunStartsQuiet(lower, r);
    TurnAt(lower, r, i - 1);
    var v := r.views[i - 1];
    if v.modal.None? {
      j := i - 1;
      a :| Offers(lower, v, a, "AcceptsRemoteConfig")
        && r.views[i].modal.value == Editing(a.uid, a.name, TextEditor.Open(a.effectiveConfig));
      EditorStarts(r, j, a);
    } else {
      j, a := EditorHistory(lower, r, i - 1);
      EditorStays(r, j, i - 1, a);
    }
  }

  /** A restart call follows a confirmation opened for that agent under its capability, by Enter or y. */
  lemma RestartFollowsConfirmation(lower: string -> string, r: Trace, k: nat) returns (j: nat, a: AgentDetail)
    requires IsRun(lower, r) && k < |r.calls| && r.calls[k].Some? && r.calls[k].value.Restart?
    ensures j < k && ConfirmOpen(lower, r, j, k, a)
    ensures Confirms(r.inputs[k]) && r.calls[k] == Some(Restart(a.uid))
  {
    hide Turn, OneMode, KeepsDialog, OpensProperly, IsTurn, Offers;
    TurnAt(lower, r, k);
    j, a := ConfirmHistory(lower, r, k);
  }

  /**
   * A push call follows an editor opened for that agent under its capability, by F5, and carries
   * the agent's config as edited by the terminal keys typed since: on the editor's lines for any
   * text and keys, and as the text those keys type where each finds bytes and characters agreeing.
   */
  lemma PushFollowsEditor(lower: string -> string, r: Trace, k: nat) returns (j: nat, a: AgentDetail, after: Flat)
    requires IsRun(lower, r) && k < |r.calls| && r.calls[k].Some? && r.calls[k].value.Push?
    ensures j < k && EditorOpen(lower, r, j, k, a)
    ensures Pushes(r.inputs[k])
    ensures var keys := KeysIn(r.inputs[j + 1..k]);
      && r.calls[k].value.uid == a.uid
      && Typed(a.effectiveConfig, keys).Some?
      && r.calls[k].value.text == TextEditor.Join(Typed(a.effectiveConfig, keys).value.lines)
      && (NoBreaks(keys) && FaithfulThroughout(a.effectiveConfig, keys) ==>
            TypesTo(a.effectiveConfig, keys, after) && r.calls[k].value.text == after.text)
  {
    hide Turn, OneMode, KeepsDialog, OpensProperly, IsTurn, Offers;
    hide TextEditor.Join, Typed, KeysIn, FaithfulThroughout, TypesTo;
    TurnAt(lower, r, k);
    j, a := EditorHistory(lower, r, k);
    assert EditorAt(r, j, k, a);
    var keys := KeysIn(r.inputs[j + 1..k]);
    after := TextEditor.Flat("", 0);
    if NoBreaks(keys) && FaithfulThroughout(a.effectiveConfig, keys) {
      after := TypedText(a.effectiveConfig, keys);
    }
  }

  /**
   * What the user sees of a call: its dialog is gone; if the control plane took it the status line
   * says so, naming the agent by the name in the list or else its UID; if not, a box with the error.
   */
  lemma OutcomeIsShown(lower: string -> string, r: Trace, k: nat)
    requires IsRun(lower, r) && k < |r.calls| && r.calls[k].Some?
    ensures r.inputs[k].KeyPress?
    ensures
      var v, w, call := r.views[k], r.views[k + 1], r.calls[k].value;
      var name := if call.uid in v.agents then v.agents[call.uid].name else call.uid;
      match r.inputs[k].outcome
      case Refused(error) => w == v.(modal := Some(FailureBox(call, error)))
      case Accepted =>
        && w == v.(modal := None, status := w.status)
        && (call.Restart? ==> w.status == RestartSent(name))
        && (call.Push? ==> w.status == ConfigPushed(name))
  {
    hide OneMode, KeepsDialog, OpensProperly, Offers, GlobalKey, MenuKey, Pressed, TextEditor.Join, TextEditor.Doc.Step;
    TurnAt(lower, r, k);
    assert IsTurn(lower, r, k);
  }

  lemma DialogThroughout(lower: string -> string, r: Trace, j: nat, i: nat, a: AgentDetail, t: nat)
    requires |r.views| == |r.inputs| + 1 && j < t <= i < |r.views|
    requires ConfirmOpen(lower, r, j, i, a) || EditorOpen(lower, r, j, i, a)
    ensures !NoCommandDialog(r.views[t])
  {
    hide Typed, KeysIn;
    assert EditorOpen(lower, r, j, i, a) ==> EditorAt(r, j, t, a);
  }

  /** No dialog serves two calls: whatever dialog a later call came from was opened after the earlier one. */
  lemma EachCallHasItsOwnDialog(lower: string -> string, r: Trace, k: nat, later: nat, j: nat, a: AgentDetail)
    requires IsRun(lower, r) && k < later < |r.calls| && r.calls[k].Some?
    requires j < later && (ConfirmOpen(lower, r, j, later, a) || EditorOpen(lower, r, j, later, a))
    ensures k < j
  {
    hide Turn, OneMode, KeepsDialog, OpensProperly, IsTurn, TextEditor.Join, Typed, KeysIn;
    TurnAt(lower, r, k);
    if j <= k {
      DialogThroughout(lower, r, j, later, a, k + 1);
    }
  }

  // ----- down to the bitmask ----------------------------------------------------------------------------

  /** The last message under a UID sets a bit of this mask. */
  ghost predicate LatestHolds(log: seq<OpampEvent>, u: Uid, mask: bv64) {
    Since(log, u) != [] && Since(log, u)[|Since(log, u)| - 1].capabilities & mask != 0
  }

  /**
   * When the control events come from `translate`, a dialog can only be opened for an agent whose
   * latest message held the capability bit of the command.
   */
  lemma OffersOnlyUnderLatestBitmask(lower: string -> string, r: Trace, j: nat, a: AgentDetail, log: seq<OpampEvent>)
    returns (u: Uid)
    requires IsRun(lower, r) && j < |r.views|
    requires Filter(FromAgents, EventsIn(r.inputs[..j])) == ControlOf(log)
    requires a.uid in r.views[j].agents && r.views[j].agents[a.uid] == a
    ensures a.uid == UidText(u)
    ensures Supports(a, "AcceptsRestartCommand") <==> LatestHolds(log, u, 0x400)
    ensures Supports(a, "AcceptsRemoteConfig") <==> LatestHolds(log, u, 0x2)
  {
    hide Supports, UidText, Merge, IsTurn, Filter;
    AgentsFollowEvents(lower, r, j);
    AppliedIgnoresTelemetry(EventsIn(r.inputs[..j]));
    ControlPublishes(log);
    var t := Translated(log);
    u := t.uids[a.uid];
    RecordIsFold(log, u);
    var msgs := Since(log, u);
    SupportsIsLatestBitmask(Accumulate(UidText(u), msgs[..|msgs| - 1]), msgs[|msgs| - 1]);
  }
}
