/**
 * The whole system as one state machine: every connection, the routing registry, the event
 * channel, the `translate` task, the control channel, and the UI with its commands. One
 * action is one step of one task between two points where another task can run.
 */
module Fleet {
  import opened Prelude
  import opened Opamp
  import opened AgentRecord
  import opened MockAgent
  import opened Translate
  import opened Link

  const EVENT_BOUND := 256
  const CONTROL_BOUND := 256

  /** A command on its way: UID found, then the push sender found, then the send. */
  datatype Ui = Ready | Routed(uid: Uid, msg: ServerToAgent) | Holding(link: nat, msg: ServerToAgent)

  datatype Command = PushConfig(yaml: string) | RestartAgent

  datatype State = State(
    links: seq<Link>,
    registry: map<Uid, nat>,
    events: Channel<OpampEvent>,
    translator: Translator,
    outbox: Option<ControlEvent>,
    control: Channel<ControlEvent>,
    agents: map<string, AgentDetail>,
    ui: Ui)

  const START := State([], map[], Channel([], 0), IDLE_TRANSLATOR, None, Channel([], 0), map[], Ready)

  datatype Action =
    | Accept(peer: Peer)
    | OnLink(i: nat, step: LinkAction)
    | TranslateTake
    | TranslateSend
    | Poll(key: string, snapshot: TelemetrySnapshot)
    | UiControl
    | UiCommand(target: string, command: Command)
    | UiLookup
    | UiTrySend

  /** A new connection: any peer, or a mock agent under a UID no earlier mock agent drew. */
  predicate CanAccept(s: State, peer: Peer) {
    peer.Mock? ==>
      && peer.agent == Fresh(peer.agent.uid, peer.agent.profile, peer.agent.startTime)
      && forall i :: 0 <= i < |s.links| && s.links[i].peer.Mock? ==> s.links[i].peer.agent.uid != peer.agent.uid
  }

  predicate Emits(a: LinkAction) {
    a.ServeEmit? || a.ServeAnnounce?
  }

  predicate Enabled(s: State, a: Action) {
    match a
    case Accept(peer) => CanAccept(s, peer)
    case OnLink(i, step) =>
      i < |s.links| && CanStep(s.links[i], step) && (Emits(step) ==> s.events.Queued() < EVENT_BOUND)
    case TranslateTake => s.outbox.None? && s.events.taken < |s.events.sent|
    case TranslateSend => s.outbox.Some? && s.control.Queued() < CONTROL_BOUND
    case Poll(_, _) => s.control.Queued() < CONTROL_BOUND
    case UiControl => s.ui.Ready? && s.control.taken < |s.control.sent|
    case UiCommand(_, _) => s.ui.Ready?
    case UiLookup => s.ui.Routed?
    case UiTrySend => s.ui.Holding? && s.ui.link < |s.links|
  }

  function RegistryAfter(s: State, i: nat, step: LinkAction): map<Uid, nat>
    requires i < |s.links| && CanStep(s.links[i], step)
  {
    var l := s.links[i];
    if step.ServeTake? && Registers(l) then
      s.registry[Resolve(l.up.Head().payload.value.instanceUid, step.spare) := i]
    else if step.ServeDeregister? && l.uid.Some? then s.registry - {l.uid.value}
    else s.registry
  }

  function EventOf(l: Link, step: LinkAction): OpampEvent
    requires CanStep(l, step) && Emits(step)
  {
    if step.ServeEmit? then Message(l.pc.uid, l.pc.msg) else Disconnected(l.uid.value)
  }

  function MessageFor(cfg: Settings, uid: Uid, command: Command): ServerToAgent {
    match command
    case PushConfig(yaml) => ConfigOffer(cfg, uid, yaml)
    case RestartAgent => RestartOrder(uid)
  }

  function Apply(cfg: Settings, s: State, a: Action): State
    requires Enabled(s, a)
  {
    match a
    case Accept(peer) => s.(links := s.links + [Opened(peer)])
    case OnLink(i, step) =>
      s.(links := s.links[i := LinkStep(cfg, s.links[i], step)],
         registry := RegistryAfter(s, i, step),
         events := if Emits(step) then s.events.Send(EventOf(s.links[i], step)) else s.events)
    case TranslateTake =>
      var e := s.events.Head();
      var t := s.translator.Step(e);
      s.(events := s.events.Take(), translator := t, outbox := Some(t.Output(e)))
    case TranslateSend => s.(control := s.control.Send(s.outbox.value), outbox := None)
    case Poll(key, snapshot) => s.(control := s.control.Send(Telemetry(key, snapshot)))
    case UiControl => s.(control := s.control.Take(), agents := ApplyControl(s.agents, s.control.Head()))
    case UiCommand(target, command) =>
      if target in s.translator.uids then
        var uid := s.translator.uids[target];
        s.(ui := Routed(uid, MessageFor(cfg, uid, command)))
      else s
    case UiLookup =>
      s.(ui := if s.ui.uid in s.registry then Holding(s.registry[s.ui.uid], s.ui.msg) else Ready)
    case UiTrySend =>
      var l := s.links[s.ui.link];
      s.(links := if CanPush(l) then s.links[s.ui.link := Pushed(l, s.ui.msg)] else s.links, ui := Ready)
  }

  /** The state after a list of actions from the start, if each was enabled when it was taken. */
  ghost function Run(cfg: Settings, acts: seq<Action>): Option<State> {
    if acts == [] then Some(START)
    else
      var before, a := Run(cfg, acts[..|acts| - 1]), acts[|acts| - 1];
      if before.Some? && Enabled(before.value, a) then Some(Apply(cfg, before.value, a)) else None
  }

  // ----- one action at a time -----------------------------------------------------------------------

  lemma RunSnoc(cfg: Settings, acts: seq<Action>, a: Action)
    ensures Run(cfg, acts + [a]).Some? <==> Run(cfg, acts).Some? && Enabled(Run(cfg, acts).value, a)
    ensures Run(cfg, acts + [a]).Some? ==> Run(cfg, acts + [a]).value == Apply(cfg, Run(cfg, acts).value, a)
  {
    hide Enabled, Apply;
    assert (acts + [a])[..|acts|] == acts;
  }

  lemma RunStart(cfg: Settings)
    ensures Run(cfg, []) == Some(START)
  {
  }

  lemma StepTo(cfg: Settings, acts: seq<Action>, k: nat, s: State, s': State)
    requires k < |acts| && Run(cfg, acts[..k]) == Some(s)
    requires Enabled(s, acts[k]) && Apply(cfg, s, acts[k]) == s'
    ensures Run(cfg, acts[..k + 1]) == Some(s')
  {
    hide Enabled, Apply;
    RunSnoc(cfg, acts[..k], acts[k]);
    assert acts[..k + 1] == acts[..k] + [acts[k]];
  }

  // ----- the invariant ----------------------------------------------------------------------------

  ghost predicate LinksInv(cfg: Settings, s: State) {
    forall i :: 0 <= i < |s.links| ==>
      LinkInv(cfg, s.links[i]) && Addressed(cfg, s.links[i]) && MockInv(cfg, s.links[i])
  }

  ghost predicate Bounded(s: State) {
    && s.events.Valid() && s.events.Queued() <= EVENT_BOUND
    && s.control.Valid() && s.control.Queued() <= CONTROL_BOUND
  }

  /** Registry entries and commands under way point at connections that registered under that UID. */
  ghost predicate Routing(cfg: Settings, s: State) {
    && (forall u :: u in s.registry ==> s.registry[u] < |s.links| && s.links[s.registry[u]].uid == Some(u))
    && (s.ui.Routed? ==> IsCommand(cfg, s.ui.uid, s.ui.msg))
    && (s.ui.Holding? ==>
          && s.ui.link < |s.links| && s.links[s.ui.link].uid.Some?
          && IsCommand(cfg, s.links[s.ui.link].uid.value, s.ui.msg))
  }

  ghost function OutboxSeq(s: State): seq<ControlEvent> {
    if s.outbox.Some? then [s.outbox.value] else []
  }

  /** `translate` holds the fold of what it took, and has sent (or is sending) one event for each. */
  ghost predicate Translating(s: State)
    requires s.events.Valid()
  {
    var taken := s.events.sent[..s.events.taken];
    && s.translator == Translated(taken)
    && Filter(FromAgents, s.control.sent) + OutboxSeq(s) == ControlOf(taken)
    && (s.outbox.Some? ==> FromAgents(s.outbox.value))
  }

  ghost predicate Showing(s: State)
    requires s.control.Valid()
  {
    s.agents == Applied(s.control.sent[..s.control.taken])
  }

  ghost predicate Inv(cfg: Settings, s: State) {
    LinksInv(cfg, s) && Bounded(s) && Routing(cfg, s) && Translating(s) && Showing(s)
  }

  lemma LinksInvStep(cfg: Settings, s: State, a: Action)
    requires LinksInv(cfg, s) && Routing(cfg, s) && Enabled(s, a)
    ensures LinksInv(cfg, Apply(cfg, s, a))
  {
    hide LinkInv, Addressed, MockInv, LinkStep, CanStep, RegistryAfter, IsCommand;
    match a
    case Accept(peer) =>
      OpenedInv(cfg, peer);
      OpenedAddressed(cfg, peer);
      if peer.Mock? { OpenedMockInv(cfg, peer.agent.uid, peer.agent.profile, peer.agent.startTime); }
    case OnLink(i, step) =>
      LinkStepInv(cfg, s.links[i], step);
      AddressedStep(cfg, s.links[i], step);
      LinkInvChannels(cfg, s.links[i]);
      MockStepInv(cfg, s.links[i], step);
    case UiTrySend => if CanPush(s.links[s.ui.link]) { PushedKeeps(cfg, s.links[s.ui.link], s.ui.msg); }
    case _ =>
  }

  lemma OpenedAddressed(cfg: Settings, peer: Peer)
    ensures Addressed(cfg, Opened(peer)) && (peer.Foreign? ==> MockInv(cfg, Opened(peer)))
  {
  }

  lemma PushedKeeps(cfg: Settings, l: Link, m: ServerToAgent)
    requires LinkInv(cfg, l) && Addressed(cfg, l) && MockInv(cfg, l)
    requires l.uid.Some? && IsCommand(cfg, l.uid.value, m) && CanPush(l)
    ensures LinkInv(cfg, Pushed(l, m)) && Addressed(cfg, Pushed(l, m)) && MockInv(cfg, Pushed(l, m))
  {
    hide LinkInv, IsCommand, WellHashed, AgentInv;
    CommandIsPush(cfg, l.uid.value, m);
    PushedInv(cfg, l, m);
  }

  lemma BoundedStep(cfg: Settings, s: State, a: Action)
    requires Bounded(s) && Enabled(s, a)
    ensures Bounded(Apply(cfg, s, a))
  {
    hide LinkStep, CanStep, RegistryAfter;
  }

  /** A connection's UID, once known, stays. */
  lemma UidStays(cfg: Settings, l: Link, step: LinkAction)
    requires CanStep(l, step)
    ensures l.uid.Some? ==> LinkStep(cfg, l, step).uid == l.uid
    ensures step.ServeTake? && Registers(l) ==>
      LinkStep(cfg, l, step).uid == Some(Resolve(l.up.Head().payload.value.instanceUid, step.spare))
    ensures !(step.ServeTake? && Registers(l)) ==> LinkStep(cfg, l, step).uid == l.uid
  {
    hide Reply, FullStatus, HealthReport, ConfigApplied, Answer, Received, Resolve;
  }

  lemma RoutingStep(cfg: Settings, s: State, a: Action)
    requires Routing(cfg, s) && Enabled(s, a)
    ensures Routing(cfg, Apply(cfg, s, a))
  {
    hide LinkStep, CanStep, IsCommand, Resolve, ConfigOffer, RestartOrder;
    match a
    case OnLink(i, step) => UidStays(cfg, s.links[i], step);
    case UiCommand(target, command) =>
      if target in s.translator.uids {
        OfferIsCommand(cfg, s.translator.uids[target], if command.PushConfig? then command.yaml else "");
      }
    case _ =>
  }

  lemma TranslatingStep(cfg: Settings, s: State, a: Action)
    requires Bounded(s) && Translating(s) && Enabled(s, a)
    ensures s.events.Valid() && Apply(cfg, s, a).events.Valid() && Translating(Apply(cfg, s, a))
  {
    hide LinkStep, CanStep, RegistryAfter, Translated, ControlOf, Filter, UidText, Merge;
    var s', taken := Apply(cfg, s, a), s.events.sent[..s.events.taken];
    match a
    case OnLink(i, step) => assert s'.events.sent[..s.events.taken] == taken;
    case TranslateTake =>
      var e := s.events.Head();
      assert s'.events.sent[..s.events.taken + 1] == taken + [e];
      TranslatedSnoc(taken, e);
    case TranslateSend =>
      FilterSnoc(FromAgents, s.control.sent, s.outbox.value);
      assert OutboxSeq(s) == [s.outbox.value] && OutboxSeq(s') == [];
    case Poll(key, snapshot) => FilterSnoc(FromAgents, s.control.sent, Telemetry(key, snapshot));
    case _ =>
  }

  lemma ShowingStep(cfg: Settings, s: State, a: Action)
    requires Bounded(s) && Showing(s) && Enabled(s, a)
    ensures Apply(cfg, s, a).control.Valid() && Showing(Apply(cfg, s, a))
  {
    hide LinkStep, CanStep, RegistryAfter, Fold, UidText, Merge, ApplyControl;
    var s', seen := Apply(cfg, s, a), s.control.sent[..s.control.taken];
    match a
    case TranslateSend => assert s'.control.sent[..s.control.taken] == seen;
    case Poll(key, snapshot) => assert s'.control.sent[..s.control.taken] == seen;
    case UiControl =>
      assert s'.control.sent[..s.control.taken + 1] == seen + [s.control.Head()];
      FoldSnoc(ApplyControl, map[], seen, s.control.Head());
    case _ => assert s'.control == s.control;
  }

  lemma InvStep(cfg: Settings, s: State, a: Action)
    requires Inv(cfg, s) && Enabled(s, a)
    ensures Inv(cfg, Apply(cfg, s, a))
  {
    hide LinksInv, Routing, Translating, Showing, Apply;
    LinksInvStep(cfg, s, a);
    BoundedStep(cfg, s, a);
    RoutingStep(cfg, s, a);
    TranslatingStep(cfg, s, a);
    ShowingStep(cfg, s, a);
  }

  lemma StartInv(cfg: Settings)
    ensures Inv(cfg, START)
  {
    assert START.events.sent[..0] == [] && START.control.sent[..0] == [];
  }

  /** Every reachable state satisfies the invariant. */
  lemma {:induction false} RunInv(cfg: Settings, acts: seq<Action>)
    ensures Run(cfg, acts).Some? ==> Inv(cfg, Run(cfg, acts).value)
  {
    hide Inv, Enabled, Apply;
    if acts == [] {
      StartInv(cfg);
    } else if Run(cfg, acts).Some? {
      RunInv(cfg, acts[..|acts| - 1]);
      InvStep(cfg, Run(cfg, acts[..|acts| - 1]).value, acts[|acts| - 1]);
    }
  }

  // ----- the UI against the event log -------------------------------------------------------------

  /** How many OpAMP events the UI's agent map reflects. */
  ghost function Seen(s: State): nat
    requires s.control.Valid()
  {
    |Filter(FromAgents, s.control.sent[..s.control.taken])|
  }

  /** The UI always shows exactly what `translate` held after the first `Seen` events. */
  lemma UiShowsPrefix(cfg: Settings, s: State)
    requires Inv(cfg, s)
    ensures Seen(s) <= s.events.taken
    ensures
      var log := s.events.sent[..Seen(s)];
      Translated(log).Valid() && s.agents == Translated(log).Published()
  {
    hide LinksInv, Routing, Translated, ControlOf, Filter, Fold;
    var seen, taken := s.control.sent[..s.control.taken], s.events.sent[..s.events.taken];
    var shown, all := Filter(FromAgents, seen), Filter(FromAgents, s.control.sent);
    FilterPrefix(FromAgents, s.control.sent, s.control.taken);
    PrefixOfSum(shown, all, OutboxSeq(s));
    var n := |shown|;
    assert n <= |taken|;
    ControlPrefix(taken, n);
    assert taken[..n] == s.events.sent[..n];
    assert ControlOf(s.events.sent[..n]) == shown;
    ControlPublishes(s.events.sent[..n]);
    AppliedIgnoresTelemetry(seen);
  }

  lemma PrefixOfSum<T>(a: seq<T>, b: seq<T>, c: seq<T>)
    requires a <= b
    ensures |a| <= |b + c| && (b + c)[..|a|] == a
  {
  }

  /** Nothing is lost on the way: applying what is still queued gives the translator's own maps. */
  lemma QueueCommutes(cfg: Settings, s: State)
    requires Inv(cfg, s)
    ensures s.translator.Valid()
    ensures Fold(ApplyControl, s.agents, s.control.sent[s.control.taken..] + OutboxSeq(s)) == s.translator.Published()
  {
    hide LinksInv, Routing, Translated, ControlOf, Filter, Fold;
    var taken := s.events.sent[..s.events.taken];
    var seen, queued, last := s.control.sent[..s.control.taken], s.control.sent[s.control.taken..], OutboxSeq(s);
    ControlPublishes(taken);
    assert s.control.sent == seen + queued;
    FoldConcat(ApplyControl, map[], seen, queued + last);
    assert s.control.sent + last == seen + (queued + last);
    AppliedIgnoresTelemetry(s.control.sent + last);
    FilterConcat(FromAgents, s.control.sent, last);
    OutboxFilter(s);
  }

  lemma OutboxFilter(s: State)
    requires s.outbox.Some? ==> FromAgents(s.outbox.value)
    ensures Filter(FromAgents, OutboxSeq(s)) == OutboxSeq(s)
  {
    if s.outbox.Some? {
      var out := OutboxSeq(s);
      assert out == [] + [s.outbox.value] && out[..0] == [];
    }
  }

  /** With no assumption on UIDs: each record is the merge of its messages since the last disconnect. */
  lemma RecordsAreFolds(cfg: Settings, s: State, u: Uid)
    requires Inv(cfg, s)
    ensures
      var since := Since(s.events.sent[..s.events.taken], u);
      && (u in s.translator.details <==> since != [])
      && (u in s.translator.details ==> s.translator.details[u] == Accumulate(UidText(u), since))
    ensures s.translator.Valid() && s.translator.Published().Keys == s.translator.uids.Keys
  {
    RecordIsFold(s.events.sent[..s.events.taken], u);
    TranslatedValid(s.events.sent[..s.events.taken]);
  }

  // ----- the wire, on every run -------------------------------------------------------------------

  /**
   * One connection's output on every run: an interleaving of one reply per decoded message, in
   * order, with a prefix of the accepted pushes; a reply first; the telemetry offer only in that
   * first reply, and there exactly if the message sets one of the bits 0x20, 0x40 and 0x80; at most
   * 64 pushes waiting; and every push
   * addressed to the UID the connection registered under.
   */
  lemma WireDiscipline(cfg: Settings, acts: seq<Action>, i: nat)
    requires Run(cfg, acts).Some? && i < |Run(cfg, acts).value.links|
    ensures
      var l := Run(cfg, acts).value.links[i];
      && ChannelsValid(l)
      && |Replies(l)| <= |Read(l)|
      && (l.pc.Idle? || l.pc.Done? ==> |Replies(l)| == |Read(l)|)
      && (forall j :: 0 <= j < |Replies(l)| ==>
            && (|Read(l)[j].instanceUid| == 16 ==> Replies(l)[j].instanceUid == Read(l)[j].instanceUid)
            && Replies(l)[j].telemetryOffer ==
                 if j == 0 && Read(l)[j].capabilities & 0xE0 != 0 then cfg.offer else None)
      && Deliveries(l) <= l.push.sent
      && (!l.pc.Failed? ==> Deliveries(l) + l.push.sent[l.push.taken..] == l.push.sent)
      && l.push.Queued() <= 64
      && (l.down.sent != [] ==> IsReply(l.down.sent[0]))
      && (forall j :: 0 <= j < |l.push.sent| ==> l.uid.Some? && l.push.sent[j].instanceUid == l.uid.value)
  {
    RunInv(cfg, acts);
    var l := Run(cfg, acts).value.links[i];
    assert LinkInv(cfg, l) && Addressed(cfg, l);
    forall j | 0 <= j < |l.push.sent| ensures l.uid.Some? && l.push.sent[j].instanceUid == l.uid.value {
      assert CommandFor(cfg, l.uid, l.push.sent[j]);
      CommandIsPush(cfg, l.uid.value, l.push.sent[j]);
    }
    WireOfLink(cfg, l);
  }

  lemma WireOfLink(cfg: Settings, l: Link)
    requires LinkInv(cfg, l)
    ensures |Replies(l)| <= |Read(l)|
    ensures l.pc.Idle? || l.pc.Done? ==> |Replies(l)| == |Read(l)|
    ensures forall j :: 0 <= j < |Replies(l)| ==>
      && (|Read(l)[j].instanceUid| == 16 ==> Replies(l)[j].instanceUid == Read(l)[j].instanceUid)
      && Replies(l)[j].telemetryOffer ==
           if j == 0 && Read(l)[j].capabilities & 0xE0 != 0 then cfg.offer else None
    ensures Deliveries(l) <= l.push.sent
    ensures !l.pc.Failed? ==> Deliveries(l) + l.push.sent[l.push.taken..] == l.push.sent
  {
    hide Decoded, Filter, ReportsOwnTelemetry;
    forall j | 0 <= j < |Replies(l)|
      ensures ReportsOwnTelemetry(Read(l)[j].capabilities) <==> Read(l)[j].capabilities & 0xE0 != 0
    {
      ReportsOwnTelemetryBits(Read(l)[j].capabilities);
    }
  }

  /** On every run: a mock agent that got its first reply got the telemetry offer in it, and in no other. */
  lemma MockGetsOffer(cfg: Settings, acts: seq<Action>, i: nat)
    requires Run(cfg, acts).Some?
    requires i < |Run(cfg, acts).value.links| && Run(cfg, acts).value.links[i].peer.Mock?
    ensures
      var l := Run(cfg, acts).value.links[i];
      forall j :: 0 <= j < |Replies(l)| ==> Replies(l)[j].telemetryOffer == if j == 0 then cfg.offer else None
  {
    hide Replies, Decoded, LinkInv, Addressed, Tells, LastConfig;
    RunInv(cfg, acts);
    WireDiscipline(cfg, acts, i);
    var l := Run(cfg, acts).value.links[i];
    assert MockInv(cfg, l);
    DecodedPrefix(l.up.sent, l.up.taken);
    BothBits();
  }

  /**
   * Back-pressure: the 256 events and 256 control events that may wait, and the 64 pushes; the
   * senders of the first two wait for room, the sender of the third is turned away.
   */
  lemma BackPressure(s: State, i: nat, key: string, snapshot: TelemetrySnapshot)
    requires i < |s.links|
    ensures s.links[i].pc.Emitting? ==> (Enabled(s, OnLink(i, ServeEmit)) <==> |s.events.sent| - s.events.taken < 256)
    ensures s.links[i].pc.Announcing? && s.links[i].uid.Some? ==>
      (Enabled(s, OnLink(i, ServeAnnounce)) <==> |s.events.sent| - s.events.taken < 256)
    ensures s.outbox.Some? ==> (Enabled(s, TranslateSend) <==> |s.control.sent| - s.control.taken < 256)
    ensures Enabled(s, Poll(key, snapshot)) <==> |s.control.sent| - s.control.taken < 256
    ensures CanPush(s.links[i]) <==>
      && !s.links[i].pc.Done? && !s.links[i].pc.Failed?
      && |s.links[i].push.sent| - s.links[i].push.taken < 64
  {
  }
}
