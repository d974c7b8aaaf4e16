/**
 * Drain: once no new connection, frame from outside, tick, poll or key arrives, something can
 * always move until nothing is in flight - in spite of the channel bounds - and not forever.
 */
module FleetDrain {
  import opened Prelude
  import opened Opamp
  import opened AgentRecord
  import opened MockAgent
  import opened Translate
  import opened Link
  import opened Fleet
  import opened FleetRegistry
  import opened FleetAgreement
  import opened FleetConvergence

  /** What brings new work in. */
  predicate Stimulus(a: Action) {
    match a
    case Accept(_) => true
    case OnLink(_, step) => step.ForeignSend? || step.MockTick?
    case Poll(_, _) => true
    case UiCommand(_, _) => true
    case _ => false
  }

  /** What may also happen, but drain does not need: a peer that vanishes, an error exit. */
  predicate Mishap(a: Action) {
    a.OnLink? && (a.step.PeerClose? || a.step.ServeFail?)
  }

  predicate Internal(a: Action) {
    !Stimulus(a) && !Mishap(a)
  }

  // ----- quiet states ---------------------------------------------------------------------------------

  predicate ServeAtRest(l: Link) {
    || Returned(l)
    || (l.pc.Idle? && l.up.taken == |l.up.sent| && l.push.taken == |l.push.sent| && !l.upClosed)
  }

  predicate PeerAtRest(l: Link) {
    l.peer.Mock? ==>
      || l.peer.agent.pc.Gone?
      || (l.peer.agent.pc.Listening? && l.down.taken == |l.down.sent| && !Returned(l))
  }

  ghost predicate AtRest(l: Link) {
    ServeAtRest(l) && PeerAtRest(l)
  }

  ghost predicate Quiet(s: State) {
    && s.events.Empty() && s.outbox.None? && s.control.Empty() && s.ui.Ready?
    && forall i :: 0 <= i < |s.links| ==> AtRest(s.links[i])
  }

  /** The step a connection can take when it is not at rest. */
  lemma LinkMoves(cfg: Settings, l: Link) returns (step: LinkAction)
    requires LinkInv(cfg, l) && !AtRest(l)
    ensures CanStep(l, step) && Internal(OnLink(0, step))
  {
    hide Decoded, Filter, RepliesFollowReads, EventsFollowReads;
    if !ServeAtRest(l) {
      match l.pc
      case Idle =>
        step := if l.push.taken < |l.push.sent| then ServePush
                else if l.up.taken < |l.up.sent| then ServeTake(seq(16, _ => 0))
                else ServeClosed;
      case Emitting(_, _) => step := ServeEmit;
      case Replying(_, _, _) => step := ServeReply;
      case Deregistering => step := ServeDeregister;
      case Announcing => step := ServeAnnounce;
    } else {
      match l.peer.agent.pc
      case Greeting => step := MockGreet;
      case Listening => step := if l.down.taken < |l.down.sent| then MockReceive else MockEnd;
      case Applying(_, _) => step := MockApply;
      case Restarting => step := MockRestart(0);
    }
  }

  lemma RestingLinkIsStuck(l: Link, step: LinkAction)
    requires AtRest(l) && Internal(OnLink(0, step))
    ensures !CanStep(l, step)
  {
  }

  /** The hub can move whenever a channel of it holds something. */
  lemma HubMoves(cfg: Settings, s: State) returns (a: Action)
    requires Inv(cfg, s)
    requires !(s.events.Empty() && s.outbox.None? && s.control.Empty() && s.ui.Ready?)
    ensures Internal(a) && Enabled(s, a)
  {
    hide LinksInv, Translating, Showing;
    if s.ui.Routed? {
      a := UiLookup;
    } else if s.ui.Holding? {
      a := UiTrySend;
    } else if !s.control.Empty() {
      a := UiControl;
    } else if s.outbox.Some? {
      a := TranslateSend;
    } else {
      a := TranslateTake;
    }
  }

  /** Progress, in both directions: an internal step is enabled exactly when something is in flight. */
  lemma DrainProgress(cfg: Settings, s: State)
    requires Inv(cfg, s)
    ensures (exists a :: Internal(a) && Enabled(s, a)) <==> !Quiet(s)
  {
    hide AtRest, CanStep, LinkInv;
    if Quiet(s) {
      forall a | Internal(a) ensures !Enabled(s, a) {
        if a.OnLink? && a.i < |s.links| {
          assert AtRest(s.links[a.i]);
          RestingLinkIsStuck(s.links[a.i], a.step);
        }
      }
    } else {
      var a := SomeMove(cfg, s);
      assert Internal(a) && Enabled(s, a);
    }
  }

  lemma SomeMove(cfg: Settings, s: State) returns (a: Action)
    requires Inv(cfg, s) && !Quiet(s)
    ensures Internal(a) && Enabled(s, a)
  {
    hide AtRest, CanStep, LinkInv;
    if s.events.Empty() && s.outbox.None? && s.control.Empty() && s.ui.Ready? {
      var i :| 0 <= i < |s.links| && !AtRest(s.links[i]);
      var step := LinkMoves(cfg, s.links[i]);
      a := OnLink(i, step);
    } else {
      a := HubMoves(cfg, s);
    }
  }

  // ----- the measure --------------------------------------------------------------------------------

  /** What a message to an agent still causes: an offer two messages, a restart one, a reply none. */
  function Effect(m: ServerToAgent): nat {
    var restart := m.command == Some(COMMAND_RESTART);
    if m.remoteConfig.Some? then (if restart then 24 else 16) else if restart then 9 else 1
  }

  ghost function EffectOf(ms: seq<ServerToAgent>, extra: nat): nat {
    if ms == [] then 0 else EffectOf(ms[..|ms| - 1], extra) + Effect(ms[|ms| - 1]) + extra
  }

  lemma {:induction false} EffectOfPrefix(ms: seq<ServerToAgent>, n: nat, extra: nat)
    requires n <= |ms|
    ensures EffectOf(ms[..n], extra) <= EffectOf(ms, extra)
  {
    if n < |ms| {
      EffectOfPrefix(ms[..|ms| - 1], n, extra);
      assert ms[..|ms| - 1][..n] == ms[..n];
    } else {
      assert ms[..n] == ms;
    }
  }

  /** The effect of what is still queued. */
  ghost function Waiting(c: Channel<ServerToAgent>, extra: nat): (w: nat)
    requires c.Valid()
  {
    EffectOfPrefix(c.sent, c.taken, extra);
    EffectOf(c.sent, extra) - EffectOf(c.sent[..c.taken], extra)
  }

  lemma WaitingSend(c: Channel<ServerToAgent>, m: ServerToAgent, extra: nat)
    requires c.Valid()
    ensures c.Send(m).Valid() && Waiting(c.Send(m), extra) == Waiting(c, extra) + Effect(m) + extra
  {
    hide Effect;
    assert c.Send(m).sent[..c.taken] == c.sent[..c.taken];
    assert (c.sent + [m])[..|c.sent|] == c.sent;
  }

  lemma WaitingTake(c: Channel<ServerToAgent>, extra: nat)
    requires c.Valid() && c.taken < |c.sent|
    ensures c.Take().Valid() && Waiting(c.Take(), extra) + Effect(c.Head()) + extra == Waiting(c, extra)
  {
    hide Effect;
    var head := c.sent[..c.taken];
    assert c.sent[..c.taken + 1] == head + [c.Head()];
    assert (head + [c.Head()])[..|head|] == head;
  }

  function ServeWeight(pc: ServePc): nat {
    match pc
    case Idle => 6
    case Emitting(_, _) => 12
    case Replying(_, _, _) => 8
    case Deregistering => 5
    case Announcing => 4
    case Done => 0
    case Failed => 0
  }

  function PeerWeight(peer: Peer): nat {
    if peer.Foreign? then 0 else
    match peer.agent.pc
    case Greeting => 9
    case Listening => 1
    case Applying(_, restart) => if restart then 17 else 9
    case Restarting => 9
    case Gone => 0
  }

  ghost function LinkWeight(l: Link): nat
    requires ChannelsValid(l)
  {
    7 * l.up.Queued() + Waiting(l.down, 0) + Waiting(l.push, 1)
    + ServeWeight(l.pc) + PeerWeight(l.peer) + (if l.upClosed then 0 else 1)
  }

  /** What the peer sends weighs less than what made it send. */
  lemma PeerGetsLighter(cfg: Settings, l: Link, step: LinkAction)
    requires ChannelsValid(l) && CanStep(l, step) && !Stimulus(OnLink(0, step))
    requires step.PeerClose? || step.MockGreet? || step.MockReceive? || step.MockApply? || step.MockRestart? || step.MockEnd?
    ensures ChannelsValid(LinkStep(cfg, l, step)) && LinkWeight(LinkStep(cfg, l, step)) < LinkWeight(l)
  {
    hide Waiting, FullStatus, HealthReport, ConfigApplied, OfferedFile, Effect, Answer, Received;
    if step.MockReceive? {
      WaitingTake(l.down, 0);
      ReceiveEffect(l);
    }
  }

  /** What `serve` writes weighs less than what it took. */
  lemma ServeMovesLighter(cfg: Settings, l: Link, step: LinkAction)
    requires ChannelsValid(l) && CanStep(l, step)
    requires step.ServeReply? || step.ServePush? || step.ServeFail?
    ensures ChannelsValid(LinkStep(cfg, l, step)) && LinkWeight(LinkStep(cfg, l, step)) < LinkWeight(l)
  {
    hide Waiting, Reply, Effect;
    match step
    case ServeReply =>
      WaitingSend(l.down, Reply(cfg, l.pc.uid, l.pc.caps, l.first), 0);
      ReplyEffect(cfg, l.pc.uid, l.pc.caps, l.first);
    case ServePush =>
      WaitingTake(l.push, 1);
      WaitingSend(l.down, l.push.Head(), 0);
    case ServeFail(lost) => if lost { WaitingTake(l.push, 1); }
  }

  /** Taking a frame, announcing it and ending the loop weigh nothing on the channels to the peer. */
  lemma ServeTakesLighter(cfg: Settings, l: Link, step: LinkAction)
    requires ChannelsValid(l) && CanStep(l, step)
    requires step.ServeTake? || step.ServeClosed?
    ensures ChannelsValid(LinkStep(cfg, l, step)) && LinkWeight(LinkStep(cfg, l, step)) < LinkWeight(l)
  {
    hide Waiting, Effect, Resolve, PeerWeight;
  }

  lemma ServeAnnouncesLighter(cfg: Settings, l: Link, step: LinkAction)
    requires ChannelsValid(l) && CanStep(l, step)
    requires step.ServeEmit? || step.ServeDeregister? || step.ServeAnnounce?
    ensures ChannelsValid(LinkStep(cfg, l, step))
    ensures LinkWeight(LinkStep(cfg, l, step)) + (if Emits(step) then 3 else 0) < LinkWeight(l)
  {
    hide Waiting, Effect, PeerWeight;
  }

  /** A step that brings nothing in makes its connection lighter, by more than the event it sends. */
  lemma LinkGetsLighter(cfg: Settings, l: Link, step: LinkAction)
    requires LinkInv(cfg, l) && CanStep(l, step) && !Stimulus(OnLink(0, step))
    ensures ChannelsValid(l) && ChannelsValid(LinkStep(cfg, l, step))
    ensures LinkWeight(LinkStep(cfg, l, step)) + (if Emits(step) then 3 else 0) < LinkWeight(l)
  {
    hide LinkInv, LinkStep, CanStep, LinkWeight, ChannelsValid;
    LinkInvChannels(cfg, l);
    if step.ServeEmit? || step.ServeDeregister? || step.ServeAnnounce? {
      ServeAnnouncesLighter(cfg, l, step);
    } else if step.ServeTake? || step.ServeClosed? {
      ServeTakesLighter(cfg, l, step);
    } else if step.ServeReply? || step.ServePush? || step.ServeFail? {
      ServeMovesLighter(cfg, l, step);
    } else {
      PeerGetsLighter(cfg, l, step);
    }
  }

  lemma ReplyEffect(cfg: Settings, uid: Uid, caps: bv64, first: bool)
    ensures Effect(Reply(cfg, uid, caps, first)) == 1
  {
  }

  lemma ReceiveEffect(l: Link)
    requires CanStep(l, MockReceive)
    ensures
      var m, a := l.down.Head(), l.peer.agent;
      PeerWeight(Mock(Received(a, m))) + (if Answer(a, m).Some? then 7 else 0) < PeerWeight(l.peer) + Effect(m)
  {
    hide OfferedFile;
  }

  ghost function TotalWeight(links: seq<Link>): nat
    requires forall i :: 0 <= i < |links| ==> ChannelsValid(links[i])
  {
    if links == [] then 0 else TotalWeight(links[..|links| - 1]) + LinkWeight(links[|links| - 1])
  }

  lemma {:induction false} TotalWeightUpdate(links: seq<Link>, i: nat, l: Link)
    requires forall k :: 0 <= k < |links| ==> ChannelsValid(links[k])
    requires i < |links| && ChannelsValid(l)
    ensures TotalWeight(links[i := l]) == TotalWeight(links) - LinkWeight(links[i]) + LinkWeight(l)
  {
    hide LinkWeight, ChannelsValid;
    var n := |links| - 1;
    if i == n {
      assert links[i := l][..n] == links[..n];
    } else {
      TotalWeightUpdate(links[..n], i, l);
      assert links[i := l][..n] == links[..n][i := l];
    }
  }

  ghost function UiWeight(ui: Ui): nat {
    match ui
    case Ready => 0
    case Routed(_, m) => Effect(m) + 3
    case Holding(_, m) => Effect(m) + 2
  }

  ghost predicate ChannelsOk(s: State) {
    && s.events.Valid() && s.control.Valid()
    && forall i :: 0 <= i < |s.links| ==> ChannelsValid(s.links[i])
  }

  ghost function Measure(s: State): nat
    requires ChannelsOk(s)
  {
    TotalWeight(s.links) + 3 * s.events.Queued() + (if s.outbox.Some? then 2 else 0) + s.control.Queued() + UiWeight(s.ui)
  }

  lemma InvChannels(cfg: Settings, s: State)
    requires Inv(cfg, s)
    ensures ChannelsOk(s)
  {
    hide ChannelsValid, LinkInv, Routing, Translating, Showing;
    forall i | 0 <= i < |s.links| ensures ChannelsValid(s.links[i]) {
      LinkInvChannels(cfg, s.links[i]);
    }
  }

  /** Every step that is not a stimulus - mishaps included - makes the state lighter. */
  lemma MeasureFalls(cfg: Settings, s: State, a: Action)
    requires Inv(cfg, s) && Enabled(s, a) && !Stimulus(a)
    ensures ChannelsOk(s) && ChannelsOk(Apply(cfg, s, a)) && Measure(Apply(cfg, s, a)) < Measure(s)
  {
    hide LinkStep, CanStep, RegistryAfter, LinkWeight, TotalWeight, ChannelsValid, LinkInv;
    hide Effect, Merge, UidText, Translating, Showing, IsCommand;
    InvStep(cfg, s, a);
    InvChannels(cfg, s);
    InvChannels(cfg, Apply(cfg, s, a));
    match a
    case OnLink(i, step) =>
      LinkGetsLighter(cfg, s.links[i], step);
      TotalWeightUpdate(s.links, i, LinkStep(cfg, s.links[i], step));
    case UiTrySend =>
      if CanPush(s.links[s.ui.link]) {
        PushedWeight(s.links[s.ui.link], s.ui.msg);
        TotalWeightUpdate(s.links, s.ui.link, Pushed(s.links[s.ui.link], s.ui.msg));
      }
    case _ =>
  }

  lemma PushedWeight(l: Link, m: ServerToAgent)
    requires ChannelsValid(l) && CanPush(l)
    ensures ChannelsValid(Pushed(l, m)) && LinkWeight(Pushed(l, m)) == LinkWeight(l) + Effect(m) + 1
  {
    hide Waiting, Effect;
    WaitingSend(l.push, m, 1);
  }

  // ----- runs without stimulus ------------------------------------------------------------------------

  ghost predicate Undisturbed(acts: seq<Action>) {
    forall k :: 0 <= k < |acts| ==> !Stimulus(acts[k])
  }

  /** Without stimulus no run is longer than the measure where it starts. */
  lemma {:induction false} DrainTerminates(cfg: Settings, before: seq<Action>, acts: seq<Action>)
    requires Run(cfg, before).Some? && Run(cfg, before + acts).Some? && Undisturbed(acts)
    ensures ChannelsOk(Run(cfg, before).value) && ChannelsOk(Run(cfg, before + acts).value)
    ensures |acts| + Measure(Run(cfg, before + acts).value) <= Measure(Run(cfg, before).value)
  {
    hide Inv, Enabled, Apply, Measure, ChannelsOk, Run;
    RunInv(cfg, before);
    InvChannels(cfg, Run(cfg, before).value);
    if acts == [] {
      assert before + acts == before;
    } else {
      var most, a := acts[..|acts| - 1], acts[|acts| - 1];
      assert before + acts == (before + most) + [a];
      RunSnoc(cfg, before + most, a);
      RunInv(cfg, before + most);
      DrainTerminates(cfg, before, most);
      MeasureFalls(cfg, Run(cfg, before + most).value, a);
    }
  }

  /** From every reachable state internal steps alone lead to one with nothing in flight. */
  lemma {:induction false} DrainReachesQuiet(cfg: Settings, before: seq<Action>) returns (acts: seq<Action>)
    requires Run(cfg, before).Some?
    ensures forall k :: 0 <= k < |acts| ==> Internal(acts[k])
    ensures Run(cfg, before + acts).Some? && Quiet(Run(cfg, before + acts).value)
    decreases MeasureAfter(cfg, before)
  {
    hide Inv, Enabled, Apply, Measure, ChannelsOk, Run, Quiet;
    RunInv(cfg, before);
    var s := Run(cfg, before).value;
    if Quiet(s) {
      acts := [];
      assert before + acts == before;
    } else {
      var a := SomeMove(cfg, s);
      RunSnoc(cfg, before, a);
      RunInv(cfg, before + [a]);
      MeasureFalls(cfg, s, a);
      MeasureAfterIs(cfg, before);
      MeasureAfterIs(cfg, before + [a]);
      var rest := DrainReachesQuiet(cfg, before + [a]);
      acts := [a] + rest;
      assert before + acts == before + [a] + rest;
    }
  }

  ghost function MeasureAfter(cfg: Settings, acts: seq<Action>): nat {
    if Run(cfg, acts).Some? && ChannelsOk(Run(cfg, acts).value) then Measure(Run(cfg, acts).value) else 0
  }

  lemma MeasureAfterIs(cfg: Settings, acts: seq<Action>)
    requires Run(cfg, acts).Some? && ChannelsOk(Run(cfg, acts).value)
    ensures MeasureAfter(cfg, acts) == Measure(Run(cfg, acts).value)
  {
    hide Measure, Run, ChannelsOk;
  }

  lemma QuietLinks(cfg: Settings, s: State, i: nat)
    requires Quiet(s)
    ensures HubQuiet(s)
    ensures i < |s.links| && s.links[i].peer.Mock? && !s.links[i].peer.agent.pc.Gone? && !s.links[i].upClosed ==>
      LinkQuiet(s.links[i])
  {
    if i < |s.links| { assert AtRest(s.links[i]); }
  }

  /**
   * Put together: wherever a run without stimulus cannot go on, the UI shows for every mock agent
   * still there the config last accepted for it, APPLIED exactly when one was - whatever foreign
   * peers there are, as long as none has announced itself under the agent's UID.
   */
  lemma StuckMeansConverged(cfg: Settings, acts: seq<Action>, i: nat)
    requires Run(cfg, acts).Some?
    requires forall a :: Internal(a) ==> !Enabled(Run(cfg, acts).value, a)
    requires i < |Run(cfg, acts).value.links| && Run(cfg, acts).value.links[i].peer.Mock?
    requires !Run(cfg, acts).value.links[i].peer.agent.pc.Gone? && !Run(cfg, acts).value.links[i].upClosed
    requires forall j :: 0 <= j < |Run(cfg, acts).value.links| && Run(cfg, acts).value.links[j].peer.Foreign? ==>
      Silent(Run(cfg, acts).value.links[j], Run(cfg, acts).value.links[i].peer.agent.uid)
    ensures
      var s := Run(cfg, acts).value;
      var l := s.links[i];
      var t := UidText(l.peer.agent.uid);
      && t in s.agents
      && s.agents[t].effectiveConfig == LastAccepted(l)
      && s.agents[t].remoteStatus == if AnyConfig(l.push.sent) then Some(RemoteStatus("APPLIED", "")) else None
  {
    hide Inv, Enabled, Run, Quiet, HubQuiet, LinkQuiet, Silent, Unshared, UidText, LastAccepted, AnyConfig;
    var s := Run(cfg, acts).value;
    RunInv(cfg, acts);
    DrainProgress(cfg, s);
    QuietLinks(cfg, s, i);
    MocksDoNotShare(cfg, acts, i);
    ConfigConvergence(cfg, acts, i);
  }
}
