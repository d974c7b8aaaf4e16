/**
 * What the UI shows for a mock agent: at every moment the merge of the first n messages it
 * sent, and with nothing in flight the config last accepted for it.
 */
module FleetConvergence {
  import opened Prelude
  import opened Opamp
  import opened AgentRecord
  import opened MockAgent
  import opened Translate
  import opened Link
  import opened Fleet
  import opened FleetRegistry
  import opened FleetAgreement

  ghost function SentBy(l: Link): seq<AgentToServer> {
    Decoded(l.up.sent)
  }

  /** The events under u that the UI's agent map reflects. */
  ghost function SeenOf(s: State, u: Uid): seq<OpampEvent>
    requires s.control.Valid() && Seen(s) <= |s.events.sent|
  {
    EventsOf(s.events.sent[..Seen(s)], u)
  }

  lemma InvSeen(cfg: Settings, s: State)
    requires Inv(cfg, s)
    ensures s.control.Valid() && s.events.Valid() && Seen(s) <= s.events.taken <= |s.events.sent|
  {
    hide LinksInv, Routing, Translating, Showing, Seen;
    UiShowsPrefix(cfg, s);
  }

  /** The UI's entry under u is the merge of u's messages among the events it reflects. */
  lemma UiEntryIsFold(cfg: Settings, s: State, u: Uid)
    requires Inv(cfg, s) && UidText(u) in s.agents
    ensures s.control.Valid() && Seen(s) <= |s.events.sent|
    ensures
      var since := Since(SeenOf(s, u), u);
      since != [] && s.agents[UidText(u)] == Accumulate(UidText(u), since)
  {
    hide LinksInv, Routing, Translating, Showing, Seen, Translated, Fold, UidText;
    InvSeen(cfg, s);
    UiShowsPrefix(cfg, s);
    var log := s.events.sent[..Seen(s)];
    UidTextInjective(u, Translated(log).uids[UidText(u)]);
    RecordIsFold(log, u);
    SinceSeesOwnEvents(log, u);
  }

  lemma SequenceOfFold(hash: string -> seq<byte>, a: Agent, sent: seq<AgentToServer>, received: seq<ServerToAgent>, n: nat)
    requires AgentInv(hash, a, sent, received) && 0 < n <= |sent|
    ensures Accumulate(UidText(a.uid), sent[..n]).sequenceNum == n
  {
    hide Tells, LastConfig, UidText, Merge;
    var most := sent[..n][..n - 1];
    MergeKeepsUid(Accumulate(UidText(a.uid), most), sent[n - 1]);
  }

  /**
   * Prefix consistency, in every reachable state: the UI's entry for a mock agent is exactly the
   * merge of the first n messages that agent sent, where n is the entry's own sequence number.
   * All it takes of the other connections is that they do not announce under the agent's UID.
   */
  lemma PrefixConsistency(cfg: Settings, acts: seq<Action>, i: nat)
    requires Run(cfg, acts).Some?
    requires i < |Run(cfg, acts).value.links| && Run(cfg, acts).value.links[i].peer.Mock?
    requires Unshared(Run(cfg, acts).value, i, Run(cfg, acts).value.links[i].peer.agent.uid)
    requires UidText(Run(cfg, acts).value.links[i].peer.agent.uid) in Run(cfg, acts).value.agents
    ensures
      var s := Run(cfg, acts).value;
      var u := s.links[i].peer.agent.uid;
      var entry, sent := s.agents[UidText(u)], SentBy(s.links[i]);
      && 0 < entry.sequenceNum <= |sent|
      && entry == Accumulate(UidText(u), sent[..entry.sequenceNum])
      && s.control.Valid() && Seen(s) <= |s.events.sent|
      && entry.sequenceNum == |SeenOf(s, u)|
  {
    hide Inv, Unshared, UidText, EventsOf, LinkInv, Decoded, Fold, Seen, AgentInv, Run, Mine;
    RunInv(cfg, acts);
    var s := Run(cfg, acts).value;
    InvOfLink(cfg, s, i);
    var l, u := s.links[i], s.links[i].peer.agent.uid;
    UiEntryIsFold(cfg, s, u);
    MockIsMine(cfg, l);
    EventsAreOwn(cfg, acts, i, u);
    MineAll(l, u);
    EventsOfPrefix(s.events.sent, Seen(s), u);
    var events := SeenOf(s, u);
    SinceOfConnection(cfg, l, u, events);
    ReadIsPrefix(l);
    assert Read(l)[..|events|] == SentBy(l)[..|events|];
    SequenceOfFold(cfg.hash, l.peer.agent, SentBy(l), l.down.sent[..l.down.taken], |events|);
  }

  /** That entry is the agent's own: its host name, its version, and both commands on offer. */
  lemma MockIsListed(cfg: Settings, acts: seq<Action>, i: nat)
    requires Run(cfg, acts).Some?
    requires i < |Run(cfg, acts).value.links| && Run(cfg, acts).value.links[i].peer.Mock?
    requires Unshared(Run(cfg, acts).value, i, Run(cfg, acts).value.links[i].peer.agent.uid)
    requires UidText(Run(cfg, acts).value.links[i].peer.agent.uid) in Run(cfg, acts).value.agents
    ensures
      var s := Run(cfg, acts).value;
      var profile := s.links[i].peer.agent.profile;
      var entry := s.agents[UidText(s.links[i].peer.agent.uid)];
      && entry.uid == UidText(s.links[i].peer.agent.uid)
      && entry.name == profile.host && entry.version == profile.version && entry.healthy == !profile.degraded
      && Supports(entry, "AcceptsRemoteConfig") && Supports(entry, "AcceptsRestartCommand")
  {
    hide Unshared, UidText, LinkInv, Decoded, Fold, AgentInv, Run, Supports, Addressed;
    RunInv(cfg, acts);
    PrefixConsistency(cfg, acts, i);
    var s := Run(cfg, acts).value;
    var l := s.links[i];
    assert MockInv(cfg, l);
    EntryShowsAgent(cfg.hash, l.peer.agent, SentBy(l), l.down.sent[..l.down.taken],
                    s.agents[UidText(l.peer.agent.uid)].sequenceNum);
  }

  lemma MineAll(l: Link, u: Uid)
    requires Mine(l, u)
    ensures EventsOf(l.emitted, u) == l.emitted
  {
    AllOfMine(l.emitted, u);
  }

  /** And n never decreases while the entry exists. */
  lemma SequenceNeverDecreases(cfg: Settings, acts: seq<Action>, a: Action, i: nat, u: Uid)
    requires Run(cfg, acts + [a]).Some? && Run(cfg, acts).Some?
    requires i < |Run(cfg, acts).value.links| && Run(cfg, acts).value.links[i].peer.Mock?
    requires Run(cfg, acts).value.links[i].peer.agent.uid == u && Unshared(Run(cfg, acts + [a]).value, i, u)
    requires UidText(u) in Run(cfg, acts).value.agents && UidText(u) in Run(cfg, acts + [a]).value.agents
    ensures Run(cfg, acts).value.agents[UidText(u)].sequenceNum
         <= Run(cfg, acts + [a]).value.agents[UidText(u)].sequenceNum
  {
    hide Inv, Unshared, UidText, EventsOf, LinkInv, Decoded, Fold, Seen, LinkStep, CanStep, Enabled, Apply;
    var s, s' := Run(cfg, acts).value, Run(cfg, acts + [a]).value;
    RunSnoc(cfg, acts, a);
    UnsharedStep(cfg, s, a, i, u);
    LinkPersists(cfg, s, a, i);
    PrefixConsistency(cfg, acts, i);
    PrefixConsistency(cfg, acts + [a], i);
    LogsGrow(cfg, s, a);
    SeenGrows(cfg, acts, a);
    var m, m' := Seen(s), Seen(s');
    assert s'.events.sent[..m'][..m] == s.events.sent[..m];
    EventsOfPrefix(s'.events.sent[..m'], m, u);
  }

  lemma LinkPersists(cfg: Settings, s: State, a: Action, i: nat)
    requires Enabled(s, a) && i < |s.links| && s.links[i].peer.Mock?
    ensures
      var s' := Apply(cfg, s, a);
      && i < |s'.links| && s'.links[i].peer.Mock? && s'.links[i].peer.agent.uid == s.links[i].peer.agent.uid
  {
    hide LinkStep, CanStep, RegistryAfter, Merge, UidText, ConfigOffer, RestartOrder;
    if a.OnLink? { PeerStays(cfg, s.links[a.i], a.step); }
  }

  lemma LogsGrow(cfg: Settings, s: State, a: Action)
    requires Enabled(s, a)
    ensures s.events.sent <= Apply(cfg, s, a).events.sent
    ensures s.control.sent <= Apply(cfg, s, a).control.sent && s.control.taken <= Apply(cfg, s, a).control.taken
  {
    hide LinkStep, CanStep, RegistryAfter, Merge, UidText, ConfigOffer, RestartOrder;
  }

  lemma SeenGrows(cfg: Settings, acts: seq<Action>, a: Action)
    requires Run(cfg, acts + [a]).Some? && Run(cfg, acts).Some?
    ensures
      var s, s' := Run(cfg, acts).value, Run(cfg, acts + [a]).value;
      && s.control.Valid() && s'.control.Valid()
      && Seen(s) <= Seen(s') <= |s'.events.sent| && s.events.sent <= s'.events.sent && Seen(s) <= |s.events.sent|
  {
    hide Inv, Filter, Enabled, Apply;
    RunSnoc(cfg, acts, a);
    RunInv(cfg, acts);
    RunInv(cfg, acts + [a]);
    var s, s' := Run(cfg, acts).value, Run(cfg, acts + [a]).value;
    InvSeen(cfg, s);
    InvSeen(cfg, s');
    LogsGrow(cfg, s, a);
    var c, c' := s.control.sent[..s.control.taken], s'.control.sent[..s'.control.taken];
    assert c'[..s.control.taken] == c;
    FilterPrefix(FromAgents, c', s.control.taken);
  }

  // ----- convergence --------------------------------------------------------------------------------

  /** The YAML of the last config accepted for the connection, or the agent's built-in one. */
  ghost function LastAccepted(l: Link): string
    requires l.peer.Mock?
  {
    LastConfig(l.push.sent, l.peer.agent.profile.base)
  }

  /** Nothing is in flight on the connection, and it is still up on both sides. */
  predicate LinkQuiet(l: Link) {
    && l.peer.Mock? && l.peer.agent.pc.Listening? && !l.upClosed
    && l.up.taken == |l.up.sent| && l.down.taken == |l.down.sent| && l.push.taken == |l.push.sent|
    && l.pc.Idle?
  }

  /** Replies carry no config, so what the agent read of configs is what was pushed. */
  lemma {:induction false} ConfigsArePushes(down: seq<ServerToAgent>, base: string)
    ensures LastConfig(down, base) == LastConfig(Filter(IsPush, down), base)
    ensures AnyConfig(down) <==> AnyConfig(Filter(IsPush, down))
  {
    hide OfferedFile;
    if down != [] {
      var most, m := down[..|down| - 1], down[|down| - 1];
      assert down == most + [m];
      ConfigsArePushes(most, base);
      ReceivedSnoc(most, m, base);
      ReceivedSnoc(Filter(IsPush, most), m, base);
      FilterSnoc(IsPush, most, m);
      if IsPush(m) {
        assert Filter(IsPush, down) == Filter(IsPush, most) + [m];
      } else {
        assert Filter(IsPush, down) == Filter(IsPush, most);
      }
    }
  }

  lemma QuietAgent(cfg: Settings, l: Link)
    requires LinkInv(cfg, l) && MockInv(cfg, l) && LinkQuiet(l)
    ensures SentBy(l) != []
    ensures
      var d := Accumulate(UidText(l.peer.agent.uid), SentBy(l));
      && d.startTime == l.peer.agent.startTime
      && d.effectiveConfig == LastAccepted(l)
      && d.remoteStatus == if AnyConfig(l.push.sent) then Some(RemoteStatus("APPLIED", "")) else None
  {
    hide Decoded, UidText, Fold, RepliesFollowReads, EventsFollowReads, PcFollowsReads, LastConfig, AnyConfig, Filter;
    assert l.down.sent[..l.down.taken] == l.down.sent && l.push.sent[..l.push.taken] == l.push.sent;
    ConfigsArePushes(l.down.sent, l.peer.agent.profile.base);
  }

  /**
   * Config-push convergence, on every interleaving: once no message is in flight, the UI holds
   * an entry for every mock agent still connected; its config is the last one accepted for that
   * agent (or the built-in one), and its status is APPLIED exactly when one was accepted.
   */
  lemma ConfigConvergence(cfg: Settings, acts: seq<Action>, i: nat)
    requires Run(cfg, acts).Some? && HubQuiet(Run(cfg, acts).value)
    requires i < |Run(cfg, acts).value.links| && LinkQuiet(Run(cfg, acts).value.links[i])
    requires Unshared(Run(cfg, acts).value, i, Run(cfg, acts).value.links[i].peer.agent.uid)
    ensures
      var s := Run(cfg, acts).value;
      var l := s.links[i];
      var t := UidText(l.peer.agent.uid);
      && t in s.agents
      && s.agents[t] == Accumulate(t, SentBy(l))
      && s.agents[t].startTime == l.peer.agent.startTime
      && s.agents[t].effectiveConfig == LastAccepted(l)
      && s.agents[t].remoteStatus == if AnyConfig(l.push.sent) then Some(RemoteStatus("APPLIED", "")) else None
  {
    hide Inv, Unshared, UidText, EventsOf, LinkInv, Decoded, Fold, LastConfig, AnyConfig, AgentInv, Translated, Run, Mine;
    RunInv(cfg, acts);
    var s := Run(cfg, acts).value;
    InvOfLink(cfg, s, i);
    var l, u := s.links[i], s.links[i].peer.agent.uid;
    QuietAgent(cfg, l);
    QuietUi(cfg, s);
    MockIsMine(cfg, l);
    EventsAreOwn(cfg, acts, i, u);
    MineAll(l, u);
    AllEmitted(cfg, l);
    SinceOfConnection(cfg, l, u, l.emitted);
    SinceSeesOwnEvents(s.events.sent, u);
    RecordIsFold(s.events.sent, u);
  }

  lemma AllEmitted(cfg: Settings, l: Link)
    requires LinkInv(cfg, l) && LinkQuiet(l)
    ensures |l.emitted| == |SentBy(l)| && Read(l)[..|l.emitted|] == SentBy(l)
  {
    hide Decoded, Filter, RepliesFollowReads, PcFollowsReads;
    assert l.up.sent[..l.up.taken] == l.up.sent;
  }

  /** Every APPLIED status a mock agent ever sends names the hash of the config it reports with it. */
  lemma AppliedEchoesTheOffer(cfg: Settings, acts: seq<Action>, i: nat, j: nat)
    requires Run(cfg, acts).Some? && i < |Run(cfg, acts).value.links| && Run(cfg, acts).value.links[i].peer.Mock?
    requires j < |SentBy(Run(cfg, acts).value.links[i])|
    ensures EchoesHash(SentBy(Run(cfg, acts).value.links[i])[j], cfg.hash)
  {
    hide Decoded, EchoesHash, LinkInv, Addressed, Enveloped, LastConfig, Tells;
    RunInv(cfg, acts);
    assert MockInv(cfg, Run(cfg, acts).value.links[i]);
  }

  /** On every run: a config is answered by APPLYING and then at once APPLIED, both under its hash. */
  lemma OffersAreAnsweredInPairs(cfg: Settings, acts: seq<Action>, i: nat, j: nat)
    requires Run(cfg, acts).Some? && i < |Run(cfg, acts).value.links| && Run(cfg, acts).value.links[i].peer.Mock?
    requires j < |SentBy(Run(cfg, acts).value.links[i])|
    ensures
      var l := Run(cfg, acts).value.links[i];
      && AnsweredInPairs(l.peer.agent.pc, SentBy(l), j)
      && (l.peer.agent.pc.Applying? ==> l.peer.agent.pc.hash == cfg.hash(l.peer.agent.effective))
  {
    hide Decoded, EchoesHash, AnsweredInPairs, LinkInv, Addressed, Enveloped, LastConfig, Tells;
    RunInv(cfg, acts);
    assert MockInv(cfg, Run(cfg, acts).value.links[i]);
  }

  // ----- an error exit leaves its agent behind ---------------------------------------------------------

  /** One agent greets; its first reply cannot be written. */
  ghost function LeakyRun(uid: Uid, profile: Profile): seq<Action> {
    [ Accept(Mock(Fresh(uid, profile, 0))), OnLink(0, MockGreet), OnLink(0, ServeTake(uid)), OnLink(0, ServeEmit),
      OnLink(0, ServeFail(false)), OnLink(0, PeerClose), TranslateTake, TranslateSend, UiControl ]
  }

  lemma OneLinkStep(cfg: Settings, s: State, l: Link, step: LinkAction, l': Link)
    requires s.links == [l] && CanStep(l, step) && LinkStep(cfg, l, step) == l' && s.events.Queued() < EVENT_BOUND
    ensures Enabled(s, OnLink(0, step))
    ensures Apply(cfg, s, OnLink(0, step)) ==
      s.(links := [l'], registry := RegistryAfter(s, 0, step),
         events := if Emits(step) then s.events.Send(EventOf(l, step)) else s.events)
  {
    hide CanStep, LinkStep, RegistryAfter;
    assert [l][0 := l'] == [l'];
  }

  /** The connection of `LeakyRun` just before its first reply. */
  ghost function LeakyLink(uid: Uid, profile: Profile): Link {
    var agent := Fresh(uid, profile, 0);
    var m := FullStatus(agent);
    Link(Mock(Sent(agent, Listening)), Channel([Binary(Some(m))], 1), false, Channel([], 0), Channel([], 0),
         Some(uid), true, Replying(uid, m.capabilities, m.disconnect), [Message(uid, m)])
  }

  ghost function GreetedLink(uid: Uid, profile: Profile): Link {
    var agent := Fresh(uid, profile, 0);
    Say(Opened(Mock(agent)), FullStatus(agent), Sent(agent, Listening))
  }

  ghost function TakenLink(uid: Uid, profile: Profile): Link {
    var l, m := GreetedLink(uid, profile), FullStatus(Fresh(uid, profile, 0));
    l.(up := l.up.Take(), uid := Some(uid), pc := Emitting(uid, m))
  }

  lemma LeakyGreets(cfg: Settings, uid: Uid, profile: Profile)
    ensures
      var l0 := Opened(Mock(Fresh(uid, profile, 0)));
      CanStep(l0, MockGreet) && LinkStep(cfg, l0, MockGreet) == GreetedLink(uid, profile)
  {
    hide FullStatus;
  }

  lemma LeakyTakes(cfg: Settings, uid: Uid, profile: Profile)
    ensures
      var l1 := GreetedLink(uid, profile);
      CanStep(l1, ServeTake(uid)) && LinkStep(cfg, l1, ServeTake(uid)) == TakenLink(uid, profile)
  {
    hide FullStatus;
    var m := FullStatus(Fresh(uid, profile, 0));
    FullStatusEnvelope(Fresh(uid, profile, 0));
    assert [] + [Binary(Some(m))] == [Binary(Some(m))];
  }

  lemma LeakyEmits(cfg: Settings, uid: Uid, profile: Profile)
    ensures
      var l2 := TakenLink(uid, profile);
      CanStep(l2, ServeEmit) && LinkStep(cfg, l2, ServeEmit) == LeakyLink(uid, profile)
  {
    hide FullStatus;
    var m := FullStatus(Fresh(uid, profile, 0));
    assert [] + [Binary(Some(m))] == [Binary(Some(m))] && [] + [Message(uid, m)] == [Message(uid, m)];
  }

  lemma LeakyRegistry(s: State, uid: Uid, profile: Profile)
    requires s.links == [GreetedLink(uid, profile)] && s.registry == map[]
    requires CanStep(GreetedLink(uid, profile), ServeTake(uid))
    ensures RegistryAfter(s, 0, ServeTake(uid)) == map[uid := 0]
  {
    hide FullStatus;
    FullStatusEnvelope(Fresh(uid, profile, 0));
  }

  lemma LeakStarts(cfg: Settings, uid: Uid, profile: Profile)
    ensures
      Run(cfg, LeakyRun(uid, profile)[..4]) == Some(START.(
        links := [LeakyLink(uid, profile)], registry := map[uid := 0],
        events := Channel([Message(uid, FullStatus(Fresh(uid, profile, 0)))], 0)))
  {
    hide FullStatus, Run, Enabled, Apply, LinkStep, CanStep, RegistryAfter;
    var acts, agent := LeakyRun(uid, profile), Fresh(uid, profile, 0);
    var m, l0 := FullStatus(agent), Opened(Mock(agent));
    var l1, l2, l3 := GreetedLink(uid, profile), TakenLink(uid, profile), LeakyLink(uid, profile);
    LeakyGreets(cfg, uid, profile);
    LeakyTakes(cfg, uid, profile);
    LeakyEmits(cfg, uid, profile);
    AcceptFirst(cfg, Mock(agent));
    RunStart(cfg);
    assert acts[..0] == [];
    var s1 := START.(links := [l0]);
    StepTo(cfg, acts, 0, START, s1);
    var s2 := s1.(links := [l1]);
    OneLinkStep(cfg, s1, l0, MockGreet, l1);
    RegistryUntouched(s1, MockGreet);
    StepTo(cfg, acts, 1, s1, s2);
    var s3 := s2.(links := [l2], registry := map[uid := 0]);
    OneLinkStep(cfg, s2, l1, ServeTake(uid), l2);
    LeakyRegistry(s2, uid, profile);
    StepTo(cfg, acts, 2, s2, s3);
    OneLinkStep(cfg, s3, l2, ServeEmit, l3);
    RegistryUntouched(s3, ServeEmit);
    assert [] + [Message(uid, m)] == [Message(uid, m)];
    StepTo(cfg, acts, 3, s3, s3.(links := [l3], events := Channel([Message(uid, m)], 0)));
  }

  lemma RegistryUntouched(s: State, step: LinkAction)
    requires |s.links| == 1 && CanStep(s.links[0], step) && !step.ServeTake? && !step.ServeDeregister?
    ensures RegistryAfter(s, 0, step) == s.registry
  {
    hide CanStep;
  }

  lemma AcceptFirst(cfg: Settings, peer: Peer)
    requires CanAccept(START, peer)
    ensures Enabled(START, Accept(peer)) && Apply(cfg, START, Accept(peer)) == START.(links := [Opened(peer)])
  {
    assert [] + [Opened(peer)] == [Opened(peer)];
  }

  lemma FullStatusEnvelope(a: Agent)
    ensures FullStatus(a).instanceUid == a.uid
  {
  }

  /** The event of the greeting reaches the UI. */
  lemma GreetingReachesUi(cfg: Settings, s: State, uid: Uid, m: AgentToServer)
    requires s.translator == IDLE_TRANSLATOR && s.outbox.None? && s.ui.Ready? && s.agents == map[]
    requires s.events == Channel([Message(uid, m)], 0) && s.control == Channel([], 0)
    ensures
      var t := IDLE_TRANSLATOR.Step(Message(uid, m));
      var out := AgentUpserted(t.details[uid]);
      var s1 := s.(events := Channel([Message(uid, m)], 1), translator := t, outbox := Some(out));
      var s2 := s1.(control := Channel([out], 0), outbox := None);
      var s3 := s2.(control := Channel([out], 1), agents := map[UidText(uid) := t.details[uid]]);
      && Enabled(s, TranslateTake) && Apply(cfg, s, TranslateTake) == s1
      && Enabled(s1, TranslateSend) && Apply(cfg, s1, TranslateSend) == s2
      && Enabled(s2, UiControl) && Apply(cfg, s2, UiControl) == s3
  {
    hide UidText, Merge;
    StepKeepsValid(IDLE_TRANSLATOR, Message(uid, m));
    var out := AgentUpserted(IDLE_TRANSLATOR.Step(Message(uid, m)).details[uid]);
    assert [] + [out] == [out];
  }

  /** The connection of `LeakyRun` once both sides are gone. */
  ghost function DeadLink(uid: Uid, profile: Profile): Link {
    var l := LeakyLink(uid, profile);
    l.(pc := Failed, upClosed := true, peer := Mock(l.peer.agent.(pc := Gone)))
  }

  lemma LeakyDies(cfg: Settings, uid: Uid, profile: Profile)
    ensures
      var l4, l5 := LeakyLink(uid, profile), LeakyLink(uid, profile).(pc := Failed);
      && CanStep(l4, ServeFail(false)) && LinkStep(cfg, l4, ServeFail(false)) == l5
      && CanStep(l5, PeerClose) && LinkStep(cfg, l5, PeerClose) == DeadLink(uid, profile)
  {
    hide FullStatus, Sent;
  }

  ghost function DeadState(uid: Uid, profile: Profile): State {
    START.(links := [DeadLink(uid, profile)], registry := map[uid := 0],
           events := Channel([Message(uid, FullStatus(Fresh(uid, profile, 0)))], 0))
  }

  lemma LeakEnds(cfg: Settings, uid: Uid, profile: Profile)
    ensures Run(cfg, LeakyRun(uid, profile)[..6]) == Some(DeadState(uid, profile))
  {
    hide FullStatus, Run, Enabled, Apply, LinkStep, CanStep, RegistryAfter, LeakyLink, DeadLink;
    var acts, m := LeakyRun(uid, profile), FullStatus(Fresh(uid, profile, 0));
    LeakStarts(cfg, uid, profile);
    LeakyDies(cfg, uid, profile);
    var l4 := LeakyLink(uid, profile);
    var l5 := l4.(pc := Failed);
    var s4 := START.(links := [l4], registry := map[uid := 0], events := Channel([Message(uid, m)], 0));
    var s5 := s4.(links := [l5]);
    OneLinkStep(cfg, s4, l4, ServeFail(false), l5);
    RegistryUntouched(s4, ServeFail(false));
    StepTo(cfg, acts, 4, s4, s5);
    OneLinkStep(cfg, s5, l5, PeerClose, DeadLink(uid, profile));
    RegistryUntouched(s5, PeerClose);
    StepTo(cfg, acts, 5, s5, s5.(links := [DeadLink(uid, profile)]));
  }

  lemma DeadIsQuiet(s: State, uid: Uid, profile: Profile)
    requires s.links == [DeadLink(uid, profile)]
    requires s.events.Empty() && s.outbox.None? && s.control.Empty() && s.ui.Ready?
    ensures HubQuiet(s) && !Live(s.links[0])
  {
    hide FullStatus, Sent;
  }

  /** With nothing in flight and no live connection, the UI still lists the agent. */
  lemma ErrorExitLeavesAgentListed(cfg: Settings, uid: Uid, profile: Profile)
    ensures Run(cfg, LeakyRun(uid, profile)).Some?
    ensures
      var s := Run(cfg, LeakyRun(uid, profile)).value;
      HubQuiet(s) && |s.links| == 1 && !Live(s.links[0]) && s.agents.Keys == {UidText(uid)}
  {
    hide UidText, Merge, FullStatus, Run, Enabled, Apply, HubQuiet, Live, DeadLink, Translator.Step, NewDetail;
    var acts, s6 := LeakyRun(uid, profile), DeadState(uid, profile);
    LeakEnds(cfg, uid, profile);
    GreetingReachesUi(cfg, s6, uid, FullStatus(Fresh(uid, profile, 0)));
    var s7 := Apply(cfg, s6, TranslateTake);
    StepTo(cfg, acts, 6, s6, s7);
    var s8 := Apply(cfg, s7, TranslateSend);
    StepTo(cfg, acts, 7, s7, s8);
    var s9 := Apply(cfg, s8, UiControl);
    StepTo(cfg, acts, 8, s8, s9);
    assert acts[..9] == acts;
    DeadIsQuiet(s9, uid, profile);
  }
}
