/**
 * From the keyboard to the collector and back: the UI's event loop as the UI of the fleet, and
 * the config typed into its editor coming back as the config it shows.
 */
module EndToEnd {
  import opened Prelude
  import opened Opamp
  import opened AgentRecord
  import opened Translate
  import opened Link
  import opened Fleet
  import opened FleetRegistry
  import opened FleetAgreement
  import opened FleetConvergence
  import opened FleetCommands
  import opened FleetRestart
  import opened EditorKeys
  import Console
  import Commands
  import FleetSelection
  import TextEditor

  // ----- one run of the UI inside one run of the fleet ---------------------------------------------------

  /** The turns that made a call, in order. */
  ghost function CallTurns(calls: seq<Option<Console.Call>>): seq<nat> {
    if calls == [] then []
    else CallTurns(calls[..|calls| - 1]) + if calls[|calls| - 1].Some? then [|calls| - 1] else []
  }

  lemma {:induction false} CallTurnsAre(calls: seq<Option<Console.Call>>, k: nat)
    ensures forall n :: 0 <= n < |CallTurns(calls)| ==> CallTurns(calls)[n] < |calls| && calls[CallTurns(calls)[n]].Some?
    ensures forall m, n :: 0 <= m < n < |CallTurns(calls)| ==> CallTurns(calls)[m] < CallTurns(calls)[n]
    ensures k < |calls| && calls[k].Some? ==> k in CallTurns(calls)
  {
    if calls != [] { CallTurnsAre(calls[..|calls| - 1], k); }
  }

  /** The turn's call is the command of the entry, and the answer the UI got is what became of it. */
  ghost predicate Matches(r: Console.Trace, k: nat, e: Entry) {
    && k < |r.calls| && k < |r.inputs| && r.calls[k].Some? && r.inputs[k].KeyPress?
    && e.target == r.calls[k].value.uid
    && e.command == (match r.calls[k].value case Restart(_) => RestartAgent case Push(_, text) => PushConfig(text))
    && (r.inputs[k].outcome.Accepted? <==> e.fate.Taken?)
  }

  /**
   * The trace is what the UI of this fleet run did: it took the same control events, and its calls
   * are the commands issued, each answered by its outcome.
   */
  ghost predicate Drives(lower: string -> string, r: Console.Trace, cfg: Settings, acts: seq<Action>)
    requires Run(cfg, acts).Some?
  {
    var s, ledger, turns := Run(cfg, acts).value, Ledger(cfg, acts), CallTurns(r.calls);
    && Console.IsRun(lower, r)
    && s.control.Valid()
    && FleetSelection.EventsIn(r.inputs) == s.control.sent[..s.control.taken]
    && |turns| == |ledger|
    && forall n :: 0 <= n < |turns| ==> Matches(r, turns[n], ledger[n])
  }

  ghost function Shown(r: Console.Trace): map<string, AgentDetail>
    requires r.views != []
  {
    r.views[|r.views| - 1].agents
  }

  /** The agents on screen are the agents of the fleet's UI. */
  lemma ScreenIsUi(lower: string -> string, r: Console.Trace, cfg: Settings, acts: seq<Action>)
    requires Run(cfg, acts).Some? && Drives(lower, r, cfg, acts)
    ensures r.views != [] && Shown(r) == Run(cfg, acts).value.agents
  {
    hide Run, Ledger, Matches, LinksInv, Routing, Translating, Console.IsTurn;
    RunInv(cfg, acts);
    FleetSelection.AgentsFollowEvents(lower, r, |r.inputs|);
    assert r.inputs[..|r.inputs|] == r.inputs;
  }

  // ----- the last config accepted for a connection ---------------------------------------------------------

  predicate TookConfig(e: Entry, i: nat) {
    e.fate == Taken(i) && e.command.PushConfig?
  }

  /** The last entry whose config connection i took. */
  ghost function LastConfigEntry(ledger: seq<Entry>, i: nat): (n: Option<nat>)
    ensures n.Some? ==> n.value < |ledger| && TookConfig(ledger[n.value], i)
    ensures n.Some? ==> forall m :: n.value < m < |ledger| ==> !TookConfig(ledger[m], i)
    ensures n.None? ==> forall m :: 0 <= m < |ledger| ==> !TookConfig(ledger[m], i)
  {
    if ledger == [] then None
    else if TookConfig(ledger[|ledger| - 1], i) then Some(|ledger| - 1)
    else LastConfigEntry(ledger[..|ledger| - 1], i)
  }

  lemma {:induction false} LastPushedIs(ledger: seq<Entry>, i: nat, base: string)
    ensures
      var n := LastConfigEntry(ledger, i);
      && LastPushed(TakenBy(ledger, i), base) == (if n.Some? then ledger[n.value].command.yaml else base)
      && (AnyPushed(TakenBy(ledger, i)) <==> n.Some?)
  {
    if ledger != [] {
      var most, e := ledger[..|ledger| - 1], ledger[|ledger| - 1];
      LastPushedIs(most, i, base);
      assert ledger == most + [e];
      TakenBySnoc(most, e, i);
      if e.fate == Taken(i) {
        AnyPushedSnoc(TakenBy(most, i), e.command);
        assert (TakenBy(most, i) + [e.command])[..|TakenBy(most, i)|] == TakenBy(most, i);
      } else {
        assert TakenBy(most, i) + [] == TakenBy(most, i);
      }
    }
  }

  /**
   * Convergence in terms of commands: when nothing is in flight, the entry of a connected mock agent
   * shows the config of the last push command its connection took, or the agent's built-in one, and
   * APPLIED exactly when it took one.
   */
  lemma LastCommandIsShown(cfg: Settings, acts: seq<Action>, i: nat)
    requires Run(cfg, acts).Some? && HubQuiet(Run(cfg, acts).value)
    requires i < |Run(cfg, acts).value.links| && LinkQuiet(Run(cfg, acts).value.links[i])
    requires Unshared(Run(cfg, acts).value, i, Run(cfg, acts).value.links[i].peer.agent.uid)
    ensures
      var s, ledger := Run(cfg, acts).value, Ledger(cfg, acts);
      var t, last := UidText(s.links[i].peer.agent.uid), LastConfigEntry(ledger, i);
      && t in s.agents
      && s.agents[t].effectiveConfig ==
           (if last.Some? then ledger[last.value].command.yaml else s.links[i].peer.agent.profile.base)
      && s.agents[t].remoteStatus == (if last.Some? then Some(RemoteStatus("APPLIED", "")) else None)
  {
    hide Run, Ledger, TakenBy, LastConfigEntry, LastPushed, AnyPushed, HubQuiet, Unshared, UidText, MessageFor;
    ConfigConvergence(cfg, acts, i);
    PushesAreCommands(cfg, acts, i);
    var s, ledger := Run(cfg, acts).value, Ledger(cfg, acts);
    var l, base := s.links[i], s.links[i].peer.agent.profile.base;
    LastPushedIs(ledger, i, base);
    if l.push.sent == [] {
      ConfigsOfCommands(cfg, l.peer.agent.uid, l.push.sent, TakenBy(ledger, i), base);
    } else {
      assert l.uid.Some?;
      ConfigsOfCommands(cfg, l.uid.value, l.push.sent, TakenBy(ledger, i), base);
    }
  }

  // ----- from the keys to the screen --------------------------------------------------------------------------

  /** Turn k is a push of this text for t that the control plane accepted. */
  ghost predicate AcceptedPush(r: Console.Trace, k: nat, t: string, text: string) {
    && k < |r.calls| && k < |r.inputs| && r.calls[k] == Some(Console.Push(t, text))
    && r.inputs[k].KeyPress? && r.inputs[k].outcome.Accepted?
  }

  lemma QuietIsRegistered(cfg: Settings, s: State, i: nat)
    requires Inv(cfg, s) && i < |s.links| && LinkQuiet(s.links[i])
    ensures s.links[i].uid == Some(s.links[i].peer.agent.uid)
  {
    hide Inv, LinkInv, MockInv, Mine, Decoded, RepliesFollowReads, EventsFollowReads;
    InvOfLink(cfg, s, i);
    var l := s.links[i];
    MockIsMine(cfg, l);
    QuietAgent(cfg, l);
    QuietIsIdentified(cfg, l);
    MineUid(l, l.peer.agent.uid);
  }

  lemma MineUid(l: Link, u: Uid)
    requires Mine(l, u) && l.uid.Some?
    ensures l.uid.value == u
  {
  }

  lemma QuietIsIdentified(cfg: Settings, l: Link)
    requires LinkInv(cfg, l) && LinkQuiet(l) && SentBy(l) != []
    ensures l.uid.Some?
  {
    hide Decoded, Filter, RepliesFollowReads, EventsFollowReads;
    assert l.up.sent[..l.up.taken] == l.up.sent;
  }

  /** An accepted push for the agent's text was taken by its connection. */
  lemma AcceptedIsTaken(cfg: Settings, acts: seq<Action>, i: nat, n: nat)
    requires Run(cfg, acts).Some? && i < |Run(cfg, acts).value.links| && LinkQuiet(Run(cfg, acts).value.links[i])
    requires Sole(Run(cfg, acts).value, i, Run(cfg, acts).value.links[i].peer.agent.uid)
    requires n < |Ledger(cfg, acts)| && Ledger(cfg, acts)[n].fate.Taken?
    ensures
      var u := Run(cfg, acts).value.links[i].peer.agent.uid;
      Ledger(cfg, acts)[n].target == UidText(u) <==> Ledger(cfg, acts)[n].fate == Taken(i)
  {
    hide Run, Ledger, UidText, Inv, Sole, UnderWay;
    RunInv(cfg, acts);
    LedgerRun(cfg, acts);
    var s, e := Run(cfg, acts).value, Ledger(cfg, acts)[n];
    QuietIsRegistered(cfg, s, i);
    var u, j := s.links[i].peer.agent.uid, e.fate.link;
    assert WellTaken(s, e);
    UidTextInjective(s.links[j].uid.value, u);
    if j != i { SoleElsewhere(s, i, u, j); }
  }

  lemma SoleElsewhere(s: State, i: nat, u: Uid, j: nat)
    requires Sole(s, i, u) && j < |s.links| && j != i
    ensures s.links[j].uid != Some(u)
  {
  }

  /**
   * End to end: when nothing is in flight, what the screen shows as the config of a connected mock
   * agent is the text of the last push for it that the control plane accepted - which is the config
   * an editor was opened on, for that agent and under its capability, as edited by exactly the
   * terminal keys typed since. If no push for it was accepted, it is the agent's built-in config.
   */
  lemma PushedTextIsShown(lower: string -> string, r: Console.Trace, cfg: Settings, acts: seq<Action>, i: nat)
    returns (k: nat, j: nat, a: AgentDetail, after: Flat)
    requires Run(cfg, acts).Some? && Drives(lower, r, cfg, acts) && HubQuiet(Run(cfg, acts).value)
    requires i < |Run(cfg, acts).value.links| && LinkQuiet(Run(cfg, acts).value.links[i])
    requires Unshared(Run(cfg, acts).value, i, Run(cfg, acts).value.links[i].peer.agent.uid)
    requires Sole(Run(cfg, acts).value, i, Run(cfg, acts).value.links[i].peer.agent.uid)
    ensures
      var agent := Run(cfg, acts).value.links[i].peer.agent;
      var t := UidText(agent.uid);
      && r.views != [] && t in Shown(r)
      && var text := Shown(r)[t].effectiveConfig;
      if forall m: nat, other :: !AcceptedPush(r, m, t, other) then
        text == agent.profile.base && Shown(r)[t].remoteStatus == None
      else
        && Shown(r)[t].remoteStatus == Some(RemoteStatus("APPLIED", ""))
        && AcceptedPush(r, k, t, text)
        && (forall m: nat, other :: k < m ==> !AcceptedPush(r, m, t, other))
        && |r.views| == |r.inputs| + 1 && j < k < |r.inputs|
        && a.uid == t && Commands.EditorOpen(lower, r, j, k, a)
        && var content, keys := a.effectiveConfig, Commands.KeysIn(r.inputs[j + 1..k]);
        && Typed(content, keys).Some? && text == TextEditor.Join(Typed(content, keys).value.lines)
        && (NoBreaks(keys) && FaithfulThroughout(content, keys) ==> TypesTo(content, keys, after) && text == after.text)
  {
    hide Run, Ledger, HubQuiet, Unshared, Sole, UidText, Console.IsRun, LastConfigEntry;
    hide TextEditor.Join, Typed, FaithfulThroughout, TypesTo, Commands.KeysIn, Commands.EditorOpen;
    ScreenIsUi(lower, r, cfg, acts);
    LastCommandIsShown(cfg, acts, i);
    var ledger, turns := Ledger(cfg, acts), CallTurns(r.calls);
    var u := Run(cfg, acts).value.links[i].peer.agent.uid;
    var last := LastConfigEntry(ledger, i);
    forall m: nat, other | AcceptedPush(r, m, UidText(u), other)
      ensures last.Some? && m <= turns[last.value]
    {
      PushHasEntry(lower, r, cfg, acts, i, m, other);
    }
    k, j := 0, 0;
    a := NewDetail("");
    after := TextEditor.Flat("", 0);
    if last.Some? {
      CallTurnsAre(r.calls, 0);
      k := turns[last.value];
      assert Matches(r, k, ledger[last.value]);
      AcceptedIsTaken(cfg, acts, i, last.value);
      assert AcceptedPush(r, k, UidText(u), ledger[last.value].command.yaml);
      j, a, after := Commands.PushFollowsEditor(lower, r, k);
      RunShape(lower, r);
    }
  }

  lemma RunShape(lower: string -> string, r: Console.Trace)
    requires Console.IsRun(lower, r)
    ensures |r.views| == |r.inputs| + 1 && |r.calls| == |r.inputs|
  {
  }

  /** An accepted push for the agent is an entry that its connection took, so not after the last one. */
  lemma PushHasEntry(lower: string -> string, r: Console.Trace, cfg: Settings, acts: seq<Action>, i: nat, m: nat, text: string)
    requires Run(cfg, acts).Some? && Drives(lower, r, cfg, acts)
    requires i < |Run(cfg, acts).value.links| && LinkQuiet(Run(cfg, acts).value.links[i])
    requires Sole(Run(cfg, acts).value, i, Run(cfg, acts).value.links[i].peer.agent.uid)
    requires AcceptedPush(r, m, UidText(Run(cfg, acts).value.links[i].peer.agent.uid), text)
    ensures
      var last := LastConfigEntry(Ledger(cfg, acts), i);
      last.Some? && last.value < |CallTurns(r.calls)| && m <= CallTurns(r.calls)[last.value]
  {
    hide Run, Ledger, LinkQuiet, Sole, UidText, Console.IsRun, LastConfigEntry;
    var ledger, turns := Ledger(cfg, acts), CallTurns(r.calls);
    CallTurnsAre(r.calls, m);
    var n :| 0 <= n < |turns| && turns[n] == m;
    assert Matches(r, m, ledger[n]);
    AcceptedIsTaken(cfg, acts, i, n);
    assert TookConfig(ledger[n], i);
  }

  // ----- restarts --------------------------------------------------------------------------------------------

  /** The restarts of t among the first n turns that the control plane accepted. */
  ghost function AcceptedRestarts(r: Console.Trace, t: string, n: nat): nat
    requires n <= |r.calls| == |r.inputs|
  {
    if n == 0 then 0 else
    AcceptedRestarts(r, t, n - 1)
      + if r.calls[n - 1] == Some(Console.Restart(t)) && r.inputs[n - 1].KeyPress? && r.inputs[n - 1].outcome.Accepted?
        then 1 else 0
  }

  lemma {:induction false} CallTurnsPrefix(calls: seq<Option<Console.Call>>, n: nat)
    requires n <= |calls|
    ensures CallTurns(calls[..n]) <= CallTurns(calls)
  {
    if n == |calls| {
      assert calls[..n] == calls;
    } else {
      CallTurnsPrefix(calls[..|calls| - 1], n);
      assert calls[..|calls| - 1][..n] == calls[..n];
    }
  }

  lemma RestartsSnoc(ledger: seq<Entry>, e: Entry, i: nat)
    ensures Restarts(TakenBy(ledger + [e], i)) ==
      Restarts(TakenBy(ledger, i)) + if e.fate == Taken(i) && e.command.RestartAgent? then 1 else 0
  {
    TakenBySnoc(ledger, e, i);
    if e.fate == Taken(i) {
      assert (TakenBy(ledger, i) + [e.command])[..|TakenBy(ledger, i)|] == TakenBy(ledger, i);
    } else {
      assert TakenBy(ledger, i) + [] == TakenBy(ledger, i);
    }
  }

  /** Turn by turn, the restarts accepted for an agent are those its connection took. */
  lemma {:induction false} RestartsAreTaken(lower: string -> string, r: Console.Trace, cfg: Settings, acts: seq<Action>, i: nat, n: nat)
    requires Run(cfg, acts).Some? && Drives(lower, r, cfg, acts)
    requires i < |Run(cfg, acts).value.links| && LinkQuiet(Run(cfg, acts).value.links[i])
    requires Sole(Run(cfg, acts).value, i, Run(cfg, acts).value.links[i].peer.agent.uid)
    requires n <= |r.calls| == |r.inputs|
    ensures |CallTurns(r.calls[..n])| <= |Ledger(cfg, acts)|
    ensures AcceptedRestarts(r, UidText(Run(cfg, acts).value.links[i].peer.agent.uid), n)
         == Restarts(TakenBy(Ledger(cfg, acts)[..|CallTurns(r.calls[..n])|], i))
  {
    hide Run, Ledger, LinkQuiet, Sole, UidText, Console.IsRun, TakenBy, Restarts;
    var ledger, turns := Ledger(cfg, acts), CallTurns(r.calls);
    CallTurnsPrefix(r.calls, n);
    if n == 0 {
      NothingTaken(i);
      assert ledger[..0] == [];
    } else {
      RestartsAreTaken(lower, r, cfg, acts, i, n - 1);
      assert r.calls[..n] == r.calls[..n - 1] + [r.calls[n - 1]];
      CallTurnsNext(r.calls[..n - 1], r.calls[n - 1]);
      if r.calls[n - 1].Some? {
        var m := |CallTurns(r.calls[..n - 1])|;
        assert turns[m] == n - 1;
        assert Matches(r, turns[m], ledger[m]);
        assert ledger[..m + 1] == ledger[..m] + [ledger[m]];
        RestartsSnoc(ledger[..m], ledger[m], i);
        if ledger[m].fate.Taken? { AcceptedIsTaken(cfg, acts, i, m); }
      }
    }
  }

  lemma CallTurnsNext(calls: seq<Option<Console.Call>>, call: Option<Console.Call>)
    ensures CallTurns(calls + [call]) == CallTurns(calls) + if call.Some? then [|calls|] else []
  {
    assert (calls + [call])[..|calls|] == calls;
  }

  lemma NothingTaken(i: nat)
    ensures Restarts(TakenBy([], i)) == 0
  {
  }

  /**
   * From the keyboard to the process: when nothing is in flight, a connected mock agent has been
   * restarted exactly as often as a restart of it was accepted - each behind a confirmation of its
   * own - and the screen shows when it last started.
   */
  lemma RestartsAreShown(lower: string -> string, r: Console.Trace, cfg: Settings, acts: seq<Action>, i: nat)
    requires Run(cfg, acts).Some? && Drives(lower, r, cfg, acts) && HubQuiet(Run(cfg, acts).value)
    requires i < |Run(cfg, acts).value.links| && LinkQuiet(Run(cfg, acts).value.links[i])
    requires Unshared(Run(cfg, acts).value, i, Run(cfg, acts).value.links[i].peer.agent.uid)
    requires Sole(Run(cfg, acts).value, i, Run(cfg, acts).value.links[i].peer.agent.uid)
    ensures
      var t, starts := UidText(Run(cfg, acts).value.links[i].peer.agent.uid), StartsOf(acts, i);
      && |r.calls| == |r.inputs| && r.views != []
      && |starts| == 1 + AcceptedRestarts(r, t, |r.calls|)
      && t in Shown(r) && Shown(r)[t].startTime == starts[|starts| - 1]
  {
    hide Run, Ledger, HubQuiet, Unshared, Sole, UidText, Console.IsRun, TakenBy, Restarts, StartsOf, AcceptedRestarts;
    RunShape(lower, r);
    ScreenIsUi(lower, r, cfg, acts);
    RestartConvergence(cfg, acts, i);
    RestartsAreTaken(lower, r, cfg, acts, i, |r.calls|);
    assert r.calls[..|r.calls|] == r.calls;
    assert Ledger(cfg, acts)[..|Ledger(cfg, acts)|] == Ledger(cfg, acts);
  }
}
