/**
 * Restarts over whole runs: since when an agent runs follows from the actions alone, every health
 * group it sends says so, and with nothing in flight the UI shows it, after as many restarts as
 * the agent's connection took restart commands.
 */
module FleetRestart {
  import opened Prelude
  import opened Opamp
  import opened AgentRecord
  import opened MockAgent
  import opened Translate
  import opened Link
  import opened Fleet
  import opened FleetRegistry
  import opened FleetAgreement
  import opened FleetConvergence
  import opened FleetCommands

  // ----- what the actions say --------------------------------------------------------------------

  /** How many connections there have been. */
  ghost function Connections(acts: seq<Action>): nat {
    if acts == [] then 0
    else Connections(acts[..|acts| - 1]) + if acts[|acts| - 1].Accept? then 1 else 0
  }

  /** When the agent of connection i started: on connecting, and then on each restart. */
  ghost function StartsOf(acts: seq<Action>, i: nat): seq<nat> {
    if acts == [] then [] else
    var most, a := acts[..|acts| - 1], acts[|acts| - 1];
    StartsOf(most, i) +
      match a
      case Accept(Mock(agent)) => if Connections(most) == i then [agent.startTime] else []
      case OnLink(k, MockRestart(now)) => if k == i then [now] else []
      case _ => []
  }

  /** The restart orders among these messages. */
  ghost function RestartOrders(ms: seq<ServerToAgent>): nat {
    if ms == [] then 0
    else RestartOrders(ms[..|ms| - 1]) + if ms[|ms| - 1].command == Some(0) then 1 else 0
  }

  lemma RestartOrdersSnoc(ms: seq<ServerToAgent>, m: ServerToAgent)
    ensures RestartOrders(ms + [m]) == RestartOrders(ms) + if m.command == Some(0) then 1 else 0
  {
    assert (ms + [m])[..|ms|] == ms;
  }

  // ----- the invariant ---------------------------------------------------------------------------

  /** The restart that the agent has read of and not yet made. */
  function Due(pc: Pc): nat {
    if pc.Restarting? || (pc.Applying? && pc.restart) then 1 else 0
  }

  /** The agent runs since its last start, and has restarted once for each order it has read. */
  ghost predicate Clocked(l: Link, starts: seq<nat>) {
    l.peer.Mock? ==>
      && starts != [] && l.peer.agent.startTime == starts[|starts| - 1]
      && l.down.Valid()
      && (!l.peer.agent.pc.Gone? ==>
            |starts| - 1 + Due(l.peer.agent.pc) == RestartOrders(l.down.sent[..l.down.taken]))
  }

  ghost function StartsNext(starts: seq<nat>, step: LinkAction): seq<nat> {
    starts + if step.MockRestart? then [step.now] else []
  }

  lemma ClockedReceive(l: Link, starts: seq<nat>)
    requires Clocked(l, starts) && CanStep(l, MockReceive)
    ensures
      var l' := l.(down := l.down.Take(), peer := Mock(Received(l.peer.agent, l.down.Head())));
      Clocked(l', starts)
  {
    hide OfferedFile, RestartOrders;
    RestartOrdersSnoc(l.down.sent[..l.down.taken], l.down.Head());
    assert l.down.sent[..l.down.taken + 1] == l.down.sent[..l.down.taken] + [l.down.Head()];
  }

  lemma ClockedStep(cfg: Settings, l: Link, step: LinkAction, starts: seq<nat>)
    requires Clocked(l, starts) && l.down.Valid() && CanStep(l, step)
    ensures Clocked(LinkStep(cfg, l, step), StartsNext(starts, step))
  {
    hide RestartOrders, Reply, FullStatus, HealthReport, ConfigApplied, Answer, Received;
    assert starts + [] == starts;
    if l.peer.Mock? {
      match step
      case MockReceive => ClockedReceive(l, starts);
      case ServeReply => assert LinkStep(cfg, l, step).down.sent[..l.down.taken] == l.down.sent[..l.down.taken];
      case ServePush => assert LinkStep(cfg, l, step).down.sent[..l.down.taken] == l.down.sent[..l.down.taken];
      case _ =>
    }
  }

  lemma {:induction false} NoStartsYet(cfg: Settings, acts: seq<Action>, i: nat)
    requires Run(cfg, acts).Some?
    ensures Connections(acts) == |Run(cfg, acts).value.links|
    ensures i >= |Run(cfg, acts).value.links| ==> StartsOf(acts, i) == []
  {
    hide Enabled, Apply;
    if acts != [] {
      var most, a := acts[..|acts| - 1], acts[|acts| - 1];
      NoStartsYet(cfg, most, i);
      LinksGrow(cfg, Run(cfg, most).value, a);
    }
  }

  lemma LinksGrow(cfg: Settings, s: State, a: Action)
    requires Enabled(s, a)
    ensures |Apply(cfg, s, a).links| == |s.links| + if a.Accept? then 1 else 0
    ensures a.OnLink? ==> a.i < |s.links|
  {
    hide LinkStep, CanStep, RegistryAfter, Merge, UidText, ConfigOffer, RestartOrder;
  }

  /** One action, on the links. */
  lemma ClockedApply(cfg: Settings, s: State, a: Action, i: nat, starts: seq<nat>)
    requires Inv(cfg, s) && Enabled(s, a) && i < |Apply(cfg, s, a).links|
    requires if i < |s.links| then Clocked(s.links[i], starts) else starts == []
    ensures
      var more :=
        match a
        case Accept(Mock(agent)) => if |s.links| == i then [agent.startTime] else []
        case OnLink(k, MockRestart(now)) => if k == i then [now] else []
        case _ => [];
      Clocked(Apply(cfg, s, a).links[i], starts + more)
  {
    hide LinkStep, CanStep, RegistryAfter, Merge, UidText, MessageFor, Inv, LinkInv, Clocked;
    assert starts + [] == starts;
    match a
    case Accept(peer) =>
      if i == |s.links| {
        ClockedOpened(peer, starts);
        if peer.Mock? { assert starts + [peer.agent.startTime] == [peer.agent.startTime]; }
      }
    case OnLink(k, step) =>
      if k == i {
        InvOfLink(cfg, s, i);
        LinkInvChannels(cfg, s.links[i]);
        ClockedStep(cfg, s.links[i], step, starts);
      }
    case UiTrySend => ClockedPushed(s.links[s.ui.link], s.ui.msg, starts);
    case _ =>
  }

  lemma ClockedOpened(peer: Peer, starts: seq<nat>)
    ensures peer.Mock? && peer.agent.pc.Greeting? ==> Clocked(Opened(peer), [peer.agent.startTime])
    ensures peer.Foreign? ==> Clocked(Opened(peer), starts)
  {
  }

  lemma ClockedPushed(l: Link, m: ServerToAgent, starts: seq<nat>)
    ensures Clocked(l, starts) ==> Clocked(Pushed(l, m), starts)
  {
  }

  lemma {:induction false} ClockedRun(cfg: Settings, acts: seq<Action>, i: nat)
    requires Run(cfg, acts).Some? && i < |Run(cfg, acts).value.links|
    ensures Clocked(Run(cfg, acts).value.links[i], StartsOf(acts, i))
  {
    hide Enabled, Apply, Inv, Clocked;
    if acts != [] {
      var most, a := acts[..|acts| - 1], acts[|acts| - 1];
      var s := Run(cfg, most).value;
      RunInv(cfg, most);
      NoStartsYet(cfg, most, i);
      if i < |s.links| { ClockedRun(cfg, most, i); }
      ClockedApply(cfg, s, a, i, StartsOf(most, i));
    }
  }

  // ----- what it says ----------------------------------------------------------------------------

  /** What the agent of connection i has sent, if there is one yet. */
  ghost function SentOn(s: State, i: nat): seq<AgentToServer> {
    if i < |s.links| then SentBy(s.links[i]) else []
  }

  /** What one step sends of an agent's messages. */
  lemma StepSends(cfg: Settings, l: Link, step: LinkAction)
    requires MockInv(cfg, l) && CanStep(l, step) && l.peer.Mock?
    ensures LinkStep(cfg, l, step).peer.Mock?
    ensures
      var l' := LinkStep(cfg, l, step);
      var before, after := SentBy(l), SentBy(l');
      && (after == before || (|after| == |before| + 1 && after[..|before|] == before))
      && (step.MockRestart? ==> |after| == |before| + 1 && after[|before|].health.Some?)
      && (after != before && after[|before|].health.Some? ==>
            after[|before|].health.value.startTime == l'.peer.agent.startTime)
  {
    hide Decoded, Reply, FullStatus, HealthReport, ConfigApplied, Answer, Received, AgentInv;
    var agent := l.peer.agent;
    match step
    case MockGreet =>
      DecodedSnoc(l.up.sent, Binary(Some(FullStatus(agent))));
      GroupsOfMessages(agent, [], 0);
    case MockReceive =>
      AnswerHasNoHealth(agent, l.down.Head());
      if Answer(agent, l.down.Head()).Some? { DecodedSnoc(l.up.sent, Binary(Some(Answer(agent, l.down.Head()).value))); }
    case MockApply =>
      DecodedSnoc(l.up.sent, Binary(Some(ConfigApplied(agent, agent.pc.hash))));
      GroupsOfMessages(agent, agent.pc.hash, 0);
    case MockRestart(now) =>
      DecodedSnoc(l.up.sent, Binary(Some(HealthReport(Restarted(agent, now)))));
      GroupsOfMessages(Restarted(agent, now), [], 0);
    case MockTick =>
      DecodedSnoc(l.up.sent, Binary(Some(HealthReport(agent))));
      GroupsOfMessages(agent, [], 0);
    case _ =>
  }

  lemma AnswerHasNoHealth(a: Agent, m: ServerToAgent)
    ensures Answer(a, m).Some? ==> Answer(a, m).value.health.None?
  {
  }

  /**
   * On every run: whatever an agent sends of its health says that it runs since its last start -
   * its connection, or the last restart it made - and each restart is followed by such a report.
   */
  lemma HealthCarriesLastStart(cfg: Settings, acts: seq<Action>, a: Action, i: nat)
    requires Run(cfg, acts + [a]).Some? && Run(cfg, acts).Some?
    requires i < |Run(cfg, acts + [a]).value.links| && Run(cfg, acts + [a]).value.links[i].peer.Mock?
    ensures
      var before, after := SentOn(Run(cfg, acts).value, i), SentOn(Run(cfg, acts + [a]).value, i);
      var starts := StartsOf(acts + [a], i);
      && starts != []
      && (after == before || (|after| == |before| + 1 && after[..|before|] == before))
      && (a.OnLink? && a.i == i && a.step.MockRestart? ==>
            && starts == StartsOf(acts, i) + [a.step.now]
            && |after| == |before| + 1 && after[|before|].health.Some?)
      && (after != before && after[|before|].health.Some? ==>
            after[|before|].health.value.startTime == starts[|starts| - 1])
  {
    hide Run, Enabled, Apply, LinkStep, CanStep, Decoded, LinkInv, Addressed, MockInv;
    RunSnoc(cfg, acts, a);
    RunInv(cfg, acts);
    ClockedRun(cfg, acts + [a], i);
    assert (acts + [a])[..|acts|] == acts;
    var s := Run(cfg, acts).value;
    if a.OnLink? && a.i == i {
      EnabledStep(cfg, s, i, a.step);
      StepSends(cfg, s.links[i], a.step);
    } else {
      SentElsewhere(cfg, s, a, i);
    }
  }

  lemma EnabledStep(cfg: Settings, s: State, i: nat, step: LinkAction)
    requires Enabled(s, OnLink(i, step)) && LinksInv(cfg, s)
    ensures i < |s.links| && CanStep(s.links[i], step) && MockInv(cfg, s.links[i])
    ensures |Apply(cfg, s, OnLink(i, step)).links| == |s.links|
    ensures Apply(cfg, s, OnLink(i, step)).links[i] == LinkStep(cfg, s.links[i], step)
    ensures LinkStep(cfg, s.links[i], step).peer.Mock? ==> s.links[i].peer.Mock?
  {
    hide LinkInv, Addressed, MockInv, RegistryAfter, Reply, FullStatus, HealthReport, ConfigApplied, Answer, Received, Resolve;
  }

  lemma SentElsewhere(cfg: Settings, s: State, a: Action, i: nat)
    requires Enabled(s, a) && i < |Apply(cfg, s, a).links| && !(a.OnLink? && a.i == i)
    ensures SentOn(Apply(cfg, s, a), i) == SentOn(s, i)
  {
    hide LinkStep, CanStep, RegistryAfter, Merge, UidText, MessageFor;
  }

  /** The restarts among these commands. */
  ghost function Restarts(commands: seq<Command>): nat {
    if commands == [] then 0
    else Restarts(commands[..|commands| - 1]) + if commands[|commands| - 1].RestartAgent? then 1 else 0
  }

  lemma {:induction false} OrdersArePushes(down: seq<ServerToAgent>)
    ensures RestartOrders(down) == RestartOrders(Filter(IsPush, down))
  {
    if down != [] {
      var most, m := down[..|down| - 1], down[|down| - 1];
      OrdersArePushes(most);
      assert down == most + [m];
      FilterSnoc(IsPush, most, m);
      if IsPush(m) {
        RestartOrdersSnoc(Filter(IsPush, most), m);
      } else {
        assert Filter(IsPush, most) + [] == Filter(IsPush, most);
      }
    }
  }

  lemma {:induction false} OrdersOfCommands(cfg: Settings, uid: Uid, sent: seq<ServerToAgent>, commands: seq<Command>)
    requires |sent| == |commands|
    requires forall k :: 0 <= k < |sent| ==> sent[k] == MessageFor(cfg, uid, commands[k])
    ensures RestartOrders(sent) == Restarts(commands)
  {
    if sent != [] { OrdersOfCommands(cfg, uid, sent[..|sent| - 1], commands[..|commands| - 1]); }
  }

  lemma QuietOrders(cfg: Settings, l: Link, starts: seq<nat>)
    requires LinkInv(cfg, l) && LinkQuiet(l) && Clocked(l, starts)
    ensures starts != [] && |starts| == 1 + RestartOrders(l.push.sent)
  {
    hide Decoded, Filter, RepliesFollowReads, EventsFollowReads, PcFollowsReads, RestartOrders;
    assert l.down.sent[..l.down.taken] == l.down.sent && l.push.sent[..l.push.taken] == l.push.sent;
    OrdersArePushes(l.down.sent);
  }

  /**
   * Restart convergence, on every interleaving: once nothing is in flight, a connected mock agent
   * has started once on connecting and once more for each restart command that its connection
   * took, and the UI shows the time of the last of these.
   */
  lemma RestartConvergence(cfg: Settings, acts: seq<Action>, i: nat)
    requires Run(cfg, acts).Some? && HubQuiet(Run(cfg, acts).value)
    requires i < |Run(cfg, acts).value.links| && LinkQuiet(Run(cfg, acts).value.links[i])
    requires Unshared(Run(cfg, acts).value, i, Run(cfg, acts).value.links[i].peer.agent.uid)
    ensures
      var s, starts := Run(cfg, acts).value, StartsOf(acts, i);
      var t := UidText(s.links[i].peer.agent.uid);
      && |starts| == 1 + Restarts(TakenBy(Ledger(cfg, acts), i))
      && t in s.agents && s.agents[t].startTime == starts[|starts| - 1]
  {
    hide Run, HubQuiet, Unshared, UidText, TakenBy, Ledger, Inv, LinkInv, Restarts, RestartOrders, MessageFor;
    RunInv(cfg, acts);
    ClockedRun(cfg, acts, i);
    ConfigConvergence(cfg, acts, i);
    PushesAreCommands(cfg, acts, i);
    var s := Run(cfg, acts).value;
    var l := s.links[i];
    InvOfLink(cfg, s, i);
    QuietOrders(cfg, l, StartsOf(acts, i));
    OrdersOfCommands(cfg, if l.uid.Some? then l.uid.value else l.peer.agent.uid, l.push.sent, TakenBy(Ledger(cfg, acts), i));
  }
}
