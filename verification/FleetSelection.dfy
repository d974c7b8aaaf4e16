/**
 * The fleet list: which agents it shows, in which order, and which one is highlighted, over
 * every run of the event loop.
 */
module FleetSelection {
  import opened Prelude
  import opened AgentRecord
  import opened Translate
  import opened TextOrder
  import opened Console

  ghost predicate NoDuplicates(order: seq<string>) {
    forall i, j :: 0 <= i < j < |order| ==> order[i] != order[j]
  }

  /** `order` lists exactly the agents, each once, and each agent is filed under its own UID. */
  ghost predicate Listed(v: View) {
    && NoDuplicates(v.order)
    && (forall i :: 0 <= i < |v.order| ==> v.order[i] in v.agents)
    && (forall u :: u in v.agents ==> u in v.order)
    && (forall u :: u in v.agents ==> v.agents[u].uid == u)
  }

  /** Nothing is selected exactly when there are no agents; what is selected is an agent. */
  ghost predicate SelectionInv(v: View) {
    && (v.selected.None? <==> v.order == [])
    && (v.selected.Some? ==> v.selected.value in v.agents)
  }

  ghost predicate FleetInv(v: View) {
    Listed(v) && SelectionInv(v)
  }

  // ----- removing a UID from the order ----------------------------------------------------------

  /** What is left keeps its order and loses exactly the one UID. */
  lemma {:induction false} WithoutKeeps(order: seq<string>, uid: string)
    requires NoDuplicates(order)
    ensures NoDuplicates(Without(order, uid))
    ensures forall u :: u in Without(order, uid) <==> u in order && u != uid
  {
    if order != [] {
      var most, last := order[..|order| - 1], order[|order| - 1];
      WithoutKeeps(most, uid);
      assert order == most + [last];
      assert last !in most;
      var left := Without(most, uid);
      if last != uid {
        assert Without(order, uid) == left + [last];
        assert forall i :: 0 <= i < |left| ==> left[i] in left && left[i] != last;
      }
    }
  }

  // ----- what is visible ------------------------------------------------------------------------------

  lemma {:induction false} MatchingMembers(
    lower: string -> string, filter: string, agents: map<string, AgentDetail>, order: seq<string>)
    ensures forall a :: a in Matching(lower, filter, agents, order) <==>
      exists i :: 0 <= i < |order| && order[i] in agents && agents[order[i]] == a && Shows(lower, filter, a)
  {
    hide Shows;
    if order != [] {
      var most, last := order[..|order| - 1], order[|order| - 1];
      MatchingMembers(lower, filter, agents, most);
      forall a ensures a in Matching(lower, filter, agents, order) <==>
        exists i :: 0 <= i < |order| && order[i] in agents && agents[order[i]] == a && Shows(lower, filter, a)
      {
        if a in Matching(lower, filter, agents, most) {
          var i :| 0 <= i < |most| && most[i] in agents && agents[most[i]] == a && Shows(lower, filter, a);
          assert order[i] == most[i];
        }
        if i :| 0 <= i < |order| && order[i] in agents && agents[order[i]] == a && Shows(lower, filter, a) {
          if i < |most| { assert most[i] == order[i]; }
        }
      }
    }
  }

  lemma {:induction false} MatchingDistinct(
    lower: string -> string, filter: string, agents: map<string, AgentDetail>, order: seq<string>)
    requires NoDuplicates(order)
    requires forall u :: u in agents ==> agents[u].uid == u
    ensures DistinctKeys(UidOf, Matching(lower, filter, agents, order))
  {
    hide Shows;
    if order != [] {
      var most, last := order[..|order| - 1], order[|order| - 1];
      MatchingDistinct(lower, filter, agents, most);
      MatchingMembers(lower, filter, agents, most);
      var shown := Matching(lower, filter, agents, most);
      forall i | 0 <= i < |shown| ensures shown[i].uid != last {
        assert shown[i] in shown;
      }
    }
  }

  /** The p-th UID of the list is that of agent a. */
  ghost predicate StandsAt(agents: map<string, AgentDetail>, order: seq<string>, p: nat, a: AgentDetail) {
    p < |order| && order[p] in agents && agents[order[p]] == a
  }

  ghost predicate StandsBefore(agents: map<string, AgentDetail>, order: seq<string>, q: nat, a: AgentDetail) {
    exists p: nat :: p < q && StandsAt(agents, order, p, a)
  }

  lemma StandsInLonger(agents: map<string, AgentDetail>, order: seq<string>, q: nat, a: AgentDetail)
    requires order != [] && StandsBefore(agents, order[..|order| - 1], q, a)
    ensures StandsBefore(agents, order, q, a)
  {
    var p: nat :| p < q && StandsAt(agents, order[..|order| - 1], p, a);
    assert StandsAt(agents, order, p, a);
  }

  /** The matching agents are listed in the given order. */
  lemma {:induction false} MatchingInOrder(
    lower: string -> string, filter: string, agents: map<string, AgentDetail>, order: seq<string>, j: nat)
    returns (q: nat)
    requires j < |Matching(lower, filter, agents, order)|
    ensures StandsAt(agents, order, q, Matching(lower, filter, agents, order)[j])
    ensures forall i :: 0 <= i < j ==> StandsBefore(agents, order, q, Matching(lower, filter, agents, order)[i])
  {
    hide Shows, StandsBefore;
    var most := order[..|order| - 1];
    var shown, all := Matching(lower, filter, agents, most), Matching(lower, filter, agents, order);
    if j < |shown| {
      q := MatchingInOrder(lower, filter, agents, most, j);
      forall i | 0 <= i < j ensures StandsBefore(agents, order, q, all[i]) {
        StandsInLonger(agents, order, q, shown[i]);
      }
    } else {
      q := |order| - 1;
      forall i | 0 <= i < j ensures StandsBefore(agents, order, q, all[i]) {
        var p := MatchingInOrder(lower, filter, agents, most, i);
        StandsEarlier(agents, order, p, q, all[i]);
      }
    }
  }

  lemma StandsEarlier(agents: map<string, AgentDetail>, order: seq<string>, p: nat, q: nat, a: AgentDetail)
    requires q < |order| && StandsAt(agents, order[..q], p, a)
    ensures StandsBefore(agents, order, q, a)
  {
    assert StandsAt(agents, order, p, a);
  }

  /** Agents of equal name are shown in the order of the list. */
  lemma VisibleIsStable(lower: string -> string, v: View, i: nat, j: nat)
    requires Listed(v) && i < j < |Visible(lower, v)| && Visible(lower, v)[i].name == Visible(lower, v)[j].name
    ensures Precedes(v.order, Visible(lower, v)[i].uid, Visible(lower, v)[j].uid)
  {
    hide Shows, SortBy, Matching;
    var list, shown := Visible(lower, v), Matching(lower, v.filter, v.agents, v.order);
    SortByStable(NameOf, shown, i, j);
    var m, n :| 0 <= m < n < |shown| && shown[m] == list[i] && shown[n] == list[j];
    var q := MatchingInOrder(lower, v.filter, v.agents, v.order, n);
    assert StandsBefore(v.agents, v.order, q, shown[m]);
    var p: nat :| p < q && StandsAt(v.agents, v.order, p, shown[m]);
    PrecedesAt(v.order, p, q);
  }

  lemma PermutedDistinct<T>(key: T -> string, a: seq<T>, b: seq<T>)
    requires multiset(a) == multiset(b) && DistinctKeys(key, b)
    ensures DistinctKeys(key, a)
  {
    forall i, j | 0 <= i < j < |a| ensures key(a[i]) != key(a[j]) {
      var p := PermutedIndex(a, b, i);
      var q := PermutedIndex(a, b, j);
      if p == q {
        OccursOnce(key, b, p);
        OccursTwice(a, i, j);
      }
    }
  }

  /**
   * The list shows exactly the agents that match the filter, once each, in the order of their
   * names, and agents of equal name in the order in which they arrived.
   */
  lemma VisibleIsSortedMatches(lower: string -> string, v: View)
    requires Listed(v)
    ensures Sorted(NameOf, Visible(lower, v)) && DistinctKeys(UidOf, Visible(lower, v))
    ensures forall a :: a in Visible(lower, v) <==>
      a.uid in v.agents && v.agents[a.uid] == a && Shows(lower, v.filter, a)
    ensures forall i, j :: 0 <= i < j < |Visible(lower, v)| && Visible(lower, v)[i].name == Visible(lower, v)[j].name ==>
      Precedes(v.order, Visible(lower, v)[i].uid, Visible(lower, v)[j].uid)
  {
    hide Shows, SortBy, Matching, Precedes;
    var shown := Matching(lower, v.filter, v.agents, v.order);
    MatchingMembers(lower, v.filter, v.agents, v.order);
    MatchingDistinct(lower, v.filter, v.agents, v.order);
    SortBySorts(NameOf, shown);
    SameMembers(Visible(lower, v), shown);
    PermutedDistinct(UidOf, Visible(lower, v), shown);
    forall i, j | 0 <= i < j < |Visible(lower, v)| && Visible(lower, v)[i].name == Visible(lower, v)[j].name
      ensures Precedes(v.order, Visible(lower, v)[i].uid, Visible(lower, v)[j].uid)
    {
      VisibleIsStable(lower, v, i, j);
    }
  }

  // ----- the cursor ---------------------------------------------------------------------------------------

  lemma CursorFinds(list: seq<AgentDetail>, i: nat)
    requires DistinctKeys(UidOf, list) && i < |list|
    ensures Cursor(list, Some(list[i].uid)) == i
  {
    var p := Position(list, list[i].uid);
    assert p.Some?;
    assert p.value < i ==> UidOf(list[p.value]) != UidOf(list[i]);
    assert i < p.value ==> UidOf(list[i]) != UidOf(list[p.value]);
  }

  lemma VisibleAfterMove(lower: string -> string, v: View, delta: int)
    ensures Visible(lower, MoveSelection(lower, v, delta)) == Visible(lower, v)
  {
    hide SortBy, Matching, Cursor;
  }

  /**
   * Moving by delta takes the highlighted agent to clamp(index + delta) in the list on
   * screen, and leaves everything else alone. The index of a selected agent that the filter
   * hides counts as 0, so from there too the highlight moves from what the list highlights.
   */
  lemma MoveSelectionMovesCursor(lower: string -> string, v: View, delta: int)
    requires Listed(v)
    ensures var list, w := Visible(lower, v), MoveSelection(lower, v, delta);
      && Visible(lower, w) == list && w == v.(selected := w.selected)
      && (list == [] ==> w == v && SelectedAgent(lower, v).None?)
      && (list != [] ==>
            && SelectedAgent(lower, v) == Some(list[Cursor(list, v.selected)])
            && SelectedAgent(lower, w) == Some(list[Clamp(Cursor(list, v.selected) + delta, 0, |list| - 1)]))
  {
    hide Visible, Cursor, Listed, DistinctKeys;
    var list := Visible(lower, v);
    VisibleAfterMove(lower, v, delta);
    VisibleIsSortedMatches(lower, v);
    if list != [] {
      CursorFinds(list, Clamp(Cursor(list, v.selected) + delta, 0, |list| - 1));
    }
  }

  /** What is highlighted is an agent that matches the filter; it is the selected one if that matches. */
  lemma SelectedAgentIsVisible(lower: string -> string, v: View)
    requires Listed(v)
    ensures SelectedAgent(lower, v).None? <==> forall u :: u in v.agents ==> !Shows(lower, v.filter, v.agents[u])
    ensures SelectedAgent(lower, v).Some? ==>
      var a := SelectedAgent(lower, v).value;
      a.uid in v.agents && v.agents[a.uid] == a && Shows(lower, v.filter, a)
    ensures v.selected.Some? && v.selected.value in v.agents && Shows(lower, v.filter, v.agents[v.selected.value]) ==>
      SelectedAgent(lower, v) == Some(v.agents[v.selected.value])
  {
    hide Visible, Cursor, Shows, DistinctKeys, Sorted;
    var list := Visible(lower, v);
    VisibleIsSortedMatches(lower, v);
    if list != [] {
      assert list[Cursor(list, v.selected)] in list;
    }
    forall u | u in v.agents && Shows(lower, v.filter, v.agents[u]) ensures list != [] {
      assert v.agents[u] in list;
    }
    if v.selected.Some? && v.selected.value in v.agents && Shows(lower, v.filter, v.agents[v.selected.value]) {
      var a := v.agents[v.selected.value];
      assert a in list;
      var i :| 0 <= i < |list| && list[i] == a;
      CursorFinds(list, i);
    }
  }

  // ----- over a run -----------------------------------------------------------------------------------------

  lemma UpsertKeepsFleet(v: View, detail: AgentDetail)
    requires FleetInv(v)
    ensures FleetInv(HandleControl(v, AgentUpserted(detail)))
  {
    var w := HandleControl(v, AgentUpserted(detail));
    if detail.uid !in v.agents {
      assert w.order == v.order + [detail.uid];
      forall u | u in w.agents ensures u in w.order {
        if u == detail.uid { assert w.order[|v.order|] == u; }
      }
    }
  }

  lemma DisconnectKeepsFleet(v: View, uid: string)
    requires FleetInv(v)
    ensures FleetInv(HandleControl(v, AgentDisconnected(uid)))
  {
    hide Without;
    WithoutKeeps(v.order, uid);
    var w := HandleControl(v, AgentDisconnected(uid));
    forall i | 0 <= i < |w.order| ensures w.order[i] in w.agents {
      assert w.order[i] in w.order;
    }
    assert w.order != [] ==> w.order[0] in w.order && w.order[0] in w.agents;
    if v.selected.Some? && v.selected.value != uid {
      assert v.selected.value in w.order;
    }
  }

  /** Keys leave the fleet alone; at most they select another agent of it. */
  predicate OnlySelects(v: View, w: View) {
    && w.agents == v.agents && w.order == v.order && w.telemetry == v.telemetry
    && (w.selected == v.selected || (w.selected.Some? && w.selected.value in v.agents))
  }

  lemma MoveOnlySelects(lower: string -> string, v: View, delta: int)
    requires Listed(v)
    ensures OnlySelects(v, Navigate(lower, v, delta))
  {
    hide Visible, Cursor, DistinctKeys, Sorted, Listed, Shows;
    VisibleIsSortedMatches(lower, v);
    var list := Visible(lower, v);
    if list != [] {
      assert list[Clamp(Cursor(list, v.selected) + delta, 0, |list| - 1)] in list;
    }
  }

  lemma PanelOnlySelects(v: View, p: Panel)
    ensures OnlySelects(v, WithActivePanel(v, p))
  {
  }

  lemma OpenOnlySelects(lower: string -> string, v: View)
    ensures OnlySelects(v, OpenEditor(lower, v)) && OnlySelects(v, ConfirmRestart(lower, v))
  {
    hide SelectedAgent, AcceptsConfig, AcceptsRestart;
  }

  lemma GlobalKeyOnlySelects(lower: string -> string, v: View, key: Key)
    requires Listed(v)
    ensures OnlySelects(v, GlobalKey(lower, v, key))
  {
    hide Navigate, OpenEditor, ConfirmRestart, WithActivePanel, ActivePanel, NextView, ViewOfDigit, Listed;
    OpenOnlySelects(lower, v);
    match key
    case Up => MoveOnlySelects(lower, v, -1);
    case Down => MoveOnlySelects(lower, v, 1);
    case PageUp => MoveOnlySelects(lower, v, -10);
    case PageDown => MoveOnlySelects(lower, v, 10);
    case F(n) => PanelOnlySelects(v, Panel(NextView(ActivePanel(v).view), 0));
    case Char(c) =>
      if ViewOfDigit(c).Some? { PanelOnlySelects(v, Panel(ViewOfDigit(c).value, 0)); }
      MoveOnlySelects(lower, v, -1);
      MoveOnlySelects(lower, v, 1);
    case _ =>
  }

  lemma MenuKeyOnlySelects(lower: string -> string, v: View, key: Key)
    requires v.menu.Some?
    ensures OnlySelects(v, MenuKey(lower, v, key))
  {
    hide OpenEditor, ConfirmRestart, WithActivePanel, Menus.Entries, Menus.Stepped;
    MenuHasEntries();
    if key == Enter {
      var w, action := v.(menu := None), Menus.Entries()[v.menu.value].action;
      OpenOnlySelects(lower, w);
      if action.SetView? { PanelOnlySelects(w, Panel(action.view, 0)); }
    }
  }

  lemma AnsweredOnlySelects(v: View, call: Call, outcome: Outcome)
    ensures OnlySelects(v, Answered(v, call, outcome))
  {
    hide AgentName;
  }

  lemma EditorInputOnlySelects(v: View, key: Key, outcome: Outcome)
    requires v.modal.Some? && v.modal.value.Editing? && EditorInput(v, key, outcome).Done?
    ensures OnlySelects(v, EditorInput(v, key, outcome).view)
  {
    hide TextEditor.Doc.Step, TextEditor.Join, EditorKey, Answered;
    if key == F(5) {
      AnsweredOnlySelects(v.(modal := None), EditorInput(v, key, outcome).call.value, outcome);
    }
  }

  lemma ModalKeyOnlySelects(v: View, key: Key, outcome: Outcome)
    requires v.modal.Some? && ModalKey(v, key, outcome).Done?
    ensures OnlySelects(v, ModalKey(v, key, outcome).view)
  {
    hide EditorInput, Answered;
    match v.modal.value
    case Editing(_, _, _) => EditorInputOnlySelects(v, key, outcome);
    case Confirm(_, uid) => AnsweredOnlySelects(v.(modal := None), Restart(uid), outcome);
    case _ =>
  }

  lemma KeyOnlySelects(lower: string -> string, v: View, key: Key, outcome: Outcome)
    requires Listed(v) && HandleKey(lower, v, key, outcome).Done?
    ensures OnlySelects(v, HandleKey(lower, v, key, outcome).view)
  {
    hide GlobalKey, MenuKey, ModalKey, Listed;
    if v.modal.Some? {
      ModalKeyOnlySelects(v, key, outcome);
    } else if v.menu.Some? {
      MenuKeyOnlySelects(lower, v, key);
    } else if !v.filtering {
      GlobalKeyOnlySelects(lower, v, key);
    }
  }

  lemma TurnKeepsFleet(lower: string -> string, v: View, input: Input)
    requires FleetInv(v) && Turn(lower, v, input).Done?
    ensures FleetInv(Turn(lower, v, input).view)
  {
    hide HandleKey, Listed;
    match input
    case Event(AgentUpserted(detail)) => UpsertKeepsFleet(v, detail);
    case Event(AgentDisconnected(uid)) => DisconnectKeepsFleet(v, uid);
    case Event(e) => SameFleet(v, HandleControl(v, e));
    case KeyPress(key, outcome) =>
      KeyOnlySelects(lower, v, key, outcome);
      SameFleet(v, HandleKey(lower, v, key, outcome).view);
  }

  lemma SameFleet(v: View, w: View)
    requires FleetInv(v) && OnlySelects(v, w.(telemetry := v.telemetry))
    ensures FleetInv(w)
  {
    if v.order != [] { assert v.order[0] in v.agents; }
    if v.order == [] { assert forall u :: u in v.agents ==> u in v.order; }
  }

  /** On every run the order, the agents and the selection agree. */
  lemma {:induction false} RunKeepsFleet(lower: string -> string, r: Trace, k: nat)
    requires IsRun(lower, r) && k < |r.views|
    ensures FleetInv(r.views[k])
  {
    hide Turn, FleetInv;
    if k == 0 {
      var mode, endpoint :| r.views[0] == Start(mode, endpoint);
      StartInv(mode, endpoint);
    } else {
      RunKeepsFleet(lower, r, k - 1);
      assert IsTurn(lower, r, k - 1);
      TurnKeepsFleet(lower, r.views[k - 1], r.inputs[k - 1]);
    }
  }

  lemma StartInv(mode: string, endpoint: string)
    ensures FleetInv(Start(mode, endpoint))
  {
  }

  // ----- the agents are what the control events say ---------------------------------------------------------

  /** The control events among the inputs. */
  ghost function EventsIn(inputs: seq<Input>): seq<ControlEvent> {
    if inputs == [] then [] else
    EventsIn(inputs[..|inputs| - 1])
      + if inputs[|inputs| - 1].Event? then [inputs[|inputs| - 1].event] else []
  }

  lemma EventsInSnoc(inputs: seq<Input>, k: nat)
    requires 0 < k <= |inputs|
    ensures EventsIn(inputs[..k]) ==
      EventsIn(inputs[..k - 1]) + if inputs[k - 1].Event? then [inputs[k - 1].event] else []
  {
    assert inputs[..k][..k - 1] == inputs[..k - 1];
  }

  /** What a turn does to the agent map: an event applies to it, a key leaves it alone. */
  lemma TurnAgents(lower: string -> string, v: View, input: Input)
    requires FleetInv(v) && Turn(lower, v, input).Done?
    ensures Turn(lower, v, input).view.agents ==
      if input.Event? then ApplyControl(v.agents, input.event) else v.agents
  {
    hide HandleKey, FleetInv;
    if input.KeyPress? { KeySameAgents(lower, v, input.key, input.outcome); }
  }

  /** Whatever is typed in between, the agent map is the control events applied in order. */
  lemma {:induction false} AgentsFollowEvents(lower: string -> string, r: Trace, k: nat)
    requires IsRun(lower, r) && k < |r.views|
    ensures r.views[k].agents == Applied(EventsIn(r.inputs[..k]))
  {
    hide Turn, FleetInv, ApplyControl, EventsIn;
    if k == 0 {
      assert r.inputs[..0] == [];
      NoEvents();
    } else {
      AgentsFollowEvents(lower, r, k - 1);
      RunKeepsFleet(lower, r, k - 1);
      assert IsTurn(lower, r, k - 1);
      TurnAgents(lower, r.views[k - 1], r.inputs[k - 1]);
      EventsInSnoc(r.inputs, k);
      if r.inputs[k - 1].Event? {
        FoldSnoc(ApplyControl, map[], EventsIn(r.inputs[..k - 1]), r.inputs[k - 1].event);
      } else {
        assert EventsIn(r.inputs[..k]) == EventsIn(r.inputs[..k - 1]);
      }
    }
  }

  lemma NoEvents()
    ensures EventsIn([]) == []
  {
  }

  lemma KeySameAgents(lower: string -> string, v: View, key: Key, outcome: Outcome)
    requires FleetInv(v) && HandleKey(lower, v, key, outcome).Done?
    ensures HandleKey(lower, v, key, outcome).view.agents == v.agents
    ensures HandleKey(lower, v, key, outcome).view.order == v.order
    ensures HandleKey(lower, v, key, outcome).view.telemetry == v.telemetry
  {
    hide HandleKey;
    KeyOnlySelects(lower, v, key, outcome);
  }

  /** The input that last brought this UID in while it was not on the list. */
  ghost function Joined(r: Trace, k: nat, u: string): int
    requires k <= |r.inputs| && |r.views| == |r.inputs| + 1
  {
    if k == 0 then -1
    else if r.inputs[k - 1].Event? && r.inputs[k - 1].event.AgentUpserted?
      && r.inputs[k - 1].event.detail.uid == u && u !in r.views[k - 1].agents then k - 1
    else Joined(r, k - 1, u)
  }

  ghost predicate ByArrival(r: Trace, k: nat, order: seq<string>)
    requires k <= |r.inputs| && |r.views| == |r.inputs| + 1
  {
    && (forall i :: 0 <= i < |order| ==> 0 <= Joined(r, k, order[i]) < k)
    && forall i, j :: 0 <= i < j < |order| ==> Joined(r, k, order[i]) < Joined(r, k, order[j])
  }

  lemma {:induction false} WithoutIsPart(order: seq<string>, uid: string, i: nat) returns (j: nat)
    requires i < |Without(order, uid)|
    ensures j < |order| && order[j] == Without(order, uid)[i]
  {
    var most, last := order[..|order| - 1], order[|order| - 1];
    if i < |Without(most, uid)| {
      j := WithoutIsPart(most, uid, i);
      assert most[j] == order[j];
    } else {
      j := |order| - 1;
    }
  }

  lemma {:induction false} WithoutByArrival(r: Trace, k: nat, order: seq<string>, uid: string)
    requires k <= |r.inputs| && |r.views| == |r.inputs| + 1
    requires ByArrival(r, k, order)
    ensures ByArrival(r, k, Without(order, uid))
  {
    hide Joined;
    if order != [] {
      var most, last := order[..|order| - 1], order[|order| - 1];
      assert forall i :: 0 <= i < |most| ==> most[i] == order[i];
      WithoutByArrival(r, k, most, uid);
      var left := Without(most, uid);
      forall i | 0 <= i < |left| ensures Joined(r, k, left[i]) < Joined(r, k, last) {
        var j := WithoutIsPart(most, uid, i);
        assert most[j] == order[j];
      }
    }
  }

  /** The list is in the order in which the agents last arrived. */
  lemma {:induction false} OrderIsByArrival(lower: string -> string, r: Trace, k: nat)
    requires IsRun(lower, r) && k < |r.views|
    ensures ByArrival(r, k, r.views[k].order)
  {
    hide HandleKey, FleetInv, Without;
    if k > 0 {
      OrderIsByArrival(lower, r, k - 1);
      RunKeepsFleet(lower, r, k - 1);
      assert IsTurn(lower, r, k - 1);
      var v, input := r.views[k - 1], r.inputs[k - 1];
      match input
      case Event(AgentUpserted(detail)) => ArrivalAfterUpsert(r, k, detail);
      case Event(AgentDisconnected(uid)) =>
        WithoutByArrival(r, k - 1, v.order, uid);
        SameArrival(r, k, r.views[k].order);
      case Event(_) => SameArrival(r, k, v.order);
      case KeyPress(key, outcome) =>
        KeySameAgents(lower, v, key, outcome);
        SameArrival(r, k, v.order);
    }
  }

  lemma SameArrival(r: Trace, k: nat, order: seq<string>)
    requires 0 < k <= |r.inputs| && |r.views| == |r.inputs| + 1
    requires !(r.inputs[k - 1].Event? && r.inputs[k - 1].event.AgentUpserted?)
    requires ByArrival(r, k - 1, order)
    ensures ByArrival(r, k, order)
  {
    assert forall u :: Joined(r, k, u) == Joined(r, k - 1, u);
  }

  lemma ArrivalAfterUpsert(r: Trace, k: nat, detail: AgentDetail)
    requires 0 < k <= |r.inputs| && |r.views| == |r.inputs| + 1
    requires r.inputs[k - 1] == Event(AgentUpserted(detail))
    requires r.views[k].order == HandleControl(r.views[k - 1], AgentUpserted(detail)).order
    requires FleetInv(r.views[k - 1]) && ByArrival(r, k - 1, r.views[k - 1].order)
    ensures ByArrival(r, k, r.views[k].order)
  {
    var v := r.views[k - 1];
    forall i | 0 <= i < |v.order| ensures Joined(r, k, v.order[i]) == Joined(r, k - 1, v.order[i]) {
      assert v.order[i] in v.agents;
    }
  }

  // ----- what a control event selects ----------------------------------------------------------------------

  /**
   * A control event moves the selection only when it takes away the selected agent - then to the
   * agent that has been there longest - or when there was none to select.
   */
  lemma EventSelects(lower: string -> string, r: Trace, k: nat)
    requires IsRun(lower, r) && k < |r.inputs| && r.inputs[k].Event?
    ensures
      var v, w, e := r.views[k], r.views[k + 1], r.inputs[k].event;
      if v.selected.None? then
        if e.AgentUpserted? then w.selected == Some(e.detail.uid) else w.selected == None
      else if e != AgentDisconnected(v.selected.value) then w.selected == v.selected
      else
        && (w.selected.None? <==> w.agents.Keys == {})
        && (w.selected.Some? ==>
              && w.selected.value in w.agents
              && forall u :: u in w.agents && u != w.selected.value ==>
                  Joined(r, k + 1, w.selected.value) < Joined(r, k + 1, u))
  {
    hide Turn, Joined, Without;
    RunKeepsFleet(lower, r, k);
    RunKeepsFleet(lower, r, k + 1);
    OrderIsByArrival(lower, r, k + 1);
    assert IsTurn(lower, r, k);
    EventTurnIs(lower, r.views[k], r.inputs[k]);
    NothingListed(r.views[k]);
    NothingListed(r.views[k + 1]);
  }

  lemma EventTurnIs(lower: string -> string, v: View, input: Input)
    requires input.Event?
    ensures Turn(lower, v, input) == Done(HandleControl(v, input.event), None)
  {
  }

  lemma NothingListed(v: View)
    requires FleetInv(v)
    ensures v.order == [] <==> v.agents.Keys == {}
  {
    if v.order != [] { assert v.order[0] in v.agents; }
  }

  // ----- telemetry -------------------------------------------------------------------------------------------

  /** Event i brought this snapshot for a key, and no later one brought another or took the agent away. */
  ghost predicate LatestSnapshot(events: seq<ControlEvent>, key: string, snapshot: TelemetrySnapshot, i: nat) {
    && i < |events| && events[i] == Telemetry(key, snapshot)
    && forall j :: i < j < |events| ==>
        events[j] != AgentDisconnected(key) && (events[j].Telemetry? ==> events[j].key != key)
  }

  ghost predicate HoldsSnapshots(telemetry: map<string, TelemetrySnapshot>, events: seq<ControlEvent>) {
    && (forall key :: key in telemetry ==> exists i: nat :: LatestSnapshot(events, key, telemetry[key], i))
    && (forall key, snapshot, i: nat :: LatestSnapshot(events, key, snapshot, i) ==> key in telemetry)
  }

  lemma SnapshotStays(events: seq<ControlEvent>, e: ControlEvent, key: string, snapshot: TelemetrySnapshot, i: nat)
    requires LatestSnapshot(events, key, snapshot, i)
    requires e != AgentDisconnected(key) && (e.Telemetry? ==> e.key != key)
    ensures LatestSnapshot(events + [e], key, snapshot, i)
  {
  }

  lemma SnapshotBefore(events: seq<ControlEvent>, e: ControlEvent, key: string, snapshot: TelemetrySnapshot, i: nat)
    requires LatestSnapshot(events + [e], key, snapshot, i)
    ensures if i < |events| then LatestSnapshot(events, key, snapshot, i) && e != AgentDisconnected(key)
            else e == Telemetry(key, snapshot)
  {
    if i < |events| {
      assert (events + [e])[|events|] == e;
      forall j | i < j < |events|
        ensures events[j] != AgentDisconnected(key) && (events[j].Telemetry? ==> events[j].key != key)
      {
        assert (events + [e])[j] == events[j];
      }
    }
  }

  lemma SnapshotsNext(v: View, events: seq<ControlEvent>, e: ControlEvent)
    requires HoldsSnapshots(v.telemetry, events)
    ensures HoldsSnapshots(HandleControl(v, e).telemetry, events + [e])
  {
    hide LatestSnapshot, Without;
    var after, all := HandleControl(v, e).telemetry, events + [e];
    forall key | key in after ensures exists i: nat :: LatestSnapshot(all, key, after[key], i) {
      if e.Telemetry? && e.key == key {
        SnapshotLast(events, e);
      } else {
        var i: nat :| LatestSnapshot(events, key, v.telemetry[key], i);
        SnapshotStays(events, e, key, v.telemetry[key], i);
      }
    }
    forall key, snapshot, i: nat | LatestSnapshot(all, key, snapshot, i) ensures key in after {
      SnapshotBefore(events, e, key, snapshot, i);
    }
  }

  lemma SnapshotLast(events: seq<ControlEvent>, e: ControlEvent)
    requires e.Telemetry?
    ensures LatestSnapshot(events + [e], e.key, e.snapshot, |events|)
  {
  }

  /**
   * On every run the telemetry on screen is, for each key, the last snapshot polled for it since
   * its agent last left; keys never touch it.
   */
  lemma {:induction false} TelemetryFollowsEvents(lower: string -> string, r: Trace, k: nat)
    requires IsRun(lower, r) && k < |r.views|
    ensures HoldsSnapshots(r.views[k].telemetry, EventsIn(r.inputs[..k]))
  {
    hide Turn, FleetInv, HoldsSnapshots, EventsIn, HandleControl;
    if k == 0 {
      assert r.inputs[..0] == [];
      NoEvents();
      NoSnapshots(r);
    } else {
      TelemetryFollowsEvents(lower, r, k - 1);
      RunKeepsFleet(lower, r, k - 1);
      assert IsTurn(lower, r, k - 1);
      EventsInSnoc(r.inputs, k);
      var v, input := r.views[k - 1], r.inputs[k - 1];
      if input.Event? {
        EventTurnIs(lower, v, input);
        SnapshotsNext(v, EventsIn(r.inputs[..k - 1]), input.event);
      } else {
        KeyTurnIs(lower, v, input);
        assert EventsIn(r.inputs[..k - 1]) + [] == EventsIn(r.inputs[..k - 1]);
      }
    }
  }

  lemma NoSnapshots(r: Trace)
    requires r.views != [] && exists mode, endpoint :: r.views[0] == Start(mode, endpoint)
    ensures HoldsSnapshots(r.views[0].telemetry, [])
  {
  }

  lemma KeyTurnIs(lower: string -> string, v: View, input: Input)
    requires FleetInv(v) && input.KeyPress? && Turn(lower, v, input).Done?
    ensures Turn(lower, v, input).view.telemetry == v.telemetry
  {
    hide HandleKey, FleetInv;
    KeySameAgents(lower, v, input.key, input.outcome);
  }
}
