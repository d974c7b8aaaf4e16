/**
 * One connection: the peer, the WebSocket in both directions, the push channel and the
 * `serve` task (crates/otelc-opamp/src/server/ws.rs) cut at every point where another task
 * can run. What a step does to shared state (registry, event channel) is in `Fleet`.
 */
module Link {
  import opened Prelude
  import opened Opamp
  import opened MockAgent

  /** A WebSocket frame from the peer; a binary frame carries the message it decodes to, if any. */
  datatype Frame = Binary(payload: Option<AgentToServer>) | Ping | Close | Other

  /** An arbitrary peer, or one that runs the mock agent. */
  datatype Peer = Foreign | Mock(agent: Agent)

  /** Where `serve` stands. */
  datatype ServePc =
    | Idle                                                  // in select!
    | Emitting(uid: Uid, msg: AgentToServer)                // about to send the event
    | Replying(uid: Uid, caps: bv64, closing: bool)         // event sent, reply not yet written
    | Deregistering                                         // loop left by break
    | Announcing                                            // registry entry removed
    | Done
    | Failed                                                // left through `?`: no cleanup

  const PUSH_BOUND := 64

  datatype Link = Link(
    peer: Peer,
    up: Channel<Frame>,
    upClosed: bool,
    down: Channel<ServerToAgent>,
    push: Channel<ServerToAgent>,
    uid: Option<Uid>,
    first: bool,
    pc: ServePc,
    emitted: seq<OpampEvent>)

  function Opened(peer: Peer): Link {
    Link(peer, Channel([], 0), false, Channel([], 0), Channel([], 0), None, true, Idle, [])
  }

  datatype LinkAction =
    // the peer
    | ForeignSend(frame: Frame)
    | PeerClose
    | MockGreet | MockReceive | MockApply | MockRestart(now: nat) | MockTick | MockEnd
    // the serve task
    | ServeTake(spare: Uid)
    | ServeEmit | ServeReply | ServePush | ServeClosed
    | ServeFail(lost: bool)
    | ServeDeregister | ServeAnnounce

  /** The server side of the socket is gone once `serve` has returned. */
  predicate Returned(l: Link) {
    l.pc.Done? || l.pc.Failed?
  }

  /** A connection that left through an error after registering: `serve` never cleans up after it. */
  predicate Leaked(l: Link) {
    l.pc.Failed? && l.uid.Some?
  }

  predicate CanStep(l: Link, a: LinkAction) {
    match a
    case ForeignSend(_) => l.peer.Foreign? && !l.upClosed
    case PeerClose => !l.upClosed
    case MockGreet => l.peer.Mock? && l.peer.agent.pc.Greeting?
    case MockReceive => l.peer.Mock? && l.peer.agent.pc.Listening? && l.down.taken < |l.down.sent|
    case MockApply => l.peer.Mock? && l.peer.agent.pc.Applying?
    case MockRestart(_) => l.peer.Mock? && l.peer.agent.pc.Restarting?
    case MockTick => l.peer.Mock? && l.peer.agent.pc.Listening?
    case MockEnd => l.peer.Mock? && l.peer.agent.pc.Listening? && Returned(l) && l.down.taken == |l.down.sent|
    case ServeTake(_) => l.pc.Idle? && l.up.taken < |l.up.sent|
    case ServeEmit => l.pc.Emitting?
    case ServeReply => l.pc.Replying?
    case ServePush => l.pc.Idle? && l.push.taken < |l.push.sent|
    case ServeClosed => l.pc.Idle? && l.upClosed && l.up.taken == |l.up.sent|
    case ServeFail(lost) =>
      || (l.pc.Idle? && (lost ==> l.push.taken < |l.push.sent|))
      || (l.pc.Replying? && !lost)
    case ServeDeregister => l.pc.Deregistering?
    case ServeAnnounce => l.pc.Announcing? && l.uid.Some?
  }

  /** Leaving the loop by `break`: cleanup only if the connection was identified. */
  function Break(l: Link): Link {
    l.(pc := if l.uid.Some? then Deregistering else Done)
  }

  /** Whether taking this frame registers the connection. */
  predicate Registers(l: Link) {
    && l.pc.Idle? && l.uid.None? && l.up.taken < |l.up.sent|
    && l.up.Head().Binary? && l.up.Head().payload.Some?
  }

  function TakeFrame(l: Link, spare: Uid): Link
    requires l.up.taken < |l.up.sent|
  {
    var l' := l.(up := l.up.Take());
    match l.up.Head()
    case Binary(None) => l'
    case Binary(Some(m)) =>
      var uid := Resolve(m.instanceUid, spare);
      l'.(uid := if l.uid.None? then Some(uid) else l.uid, pc := Emitting(uid, m))
    case Ping => l'
    case Close => Break(l')
    case Other => l'
  }

  function Say(l: Link, m: AgentToServer, agent: Agent): Link {
    l.(peer := Mock(agent), up := l.up.Send(Binary(Some(m))))
  }

  function LinkStep(cfg: Settings, l: Link, a: LinkAction): Link
    requires CanStep(l, a)
  {
    match a
    case ForeignSend(frame) => l.(up := l.up.Send(frame))
    case PeerClose =>
      l.(upClosed := true,
         peer := if l.peer.Mock? then Mock(l.peer.agent.(pc := Gone)) else l.peer)
    case MockGreet => Say(l, FullStatus(l.peer.agent), Sent(l.peer.agent, Listening))
    case MockReceive =>
      var m := l.down.Head();
      var answer := Answer(l.peer.agent, m);
      var l' := l.(down := l.down.Take(), peer := Mock(Received(l.peer.agent, m)));
      if answer.Some? then l'.(up := l.up.Send(Binary(Some(answer.value)))) else l'
    case MockApply =>
      var agent := l.peer.agent;
      Say(l, ConfigApplied(agent, agent.pc.hash), Sent(agent, if agent.pc.restart then Restarting else Listening))
    case MockRestart(now) =>
      var agent := Restarted(l.peer.agent, now);
      Say(l, HealthReport(agent), Sent(agent, Listening))
    case MockTick => Say(l, HealthReport(l.peer.agent), Sent(l.peer.agent, Listening))
    case MockEnd => l.(upClosed := true, peer := Mock(l.peer.agent.(pc := Gone)))
    case ServeTake(spare) => TakeFrame(l, spare)
    case ServeEmit =>
      l.(emitted := l.emitted + [Message(l.pc.uid, l.pc.msg)],
         pc := Replying(l.pc.uid, l.pc.msg.capabilities, l.pc.msg.disconnect))
    case ServeReply =>
      var l' := l.(down := l.down.Send(Reply(cfg, l.pc.uid, l.pc.caps, l.first)), first := false);
      if l.pc.closing then Break(l') else l'.(pc := Idle)
    case ServePush => l.(down := l.down.Send(l.push.Head()), push := l.push.Take())
    case ServeClosed => Break(l)
    case ServeFail(lost) => l.(pc := Failed, push := if lost then l.push.Take() else l.push)
    case ServeDeregister => l.(pc := Announcing)
    case ServeAnnounce => l.(pc := Done, emitted := l.emitted + [Disconnected(l.uid.value)])
  }

  /** `try_send` on the connection's push channel: fails when it is full or its receiver is gone. */
  predicate CanPush(l: Link) {
    !Returned(l) && l.push.Queued() < PUSH_BOUND
  }

  function Pushed(l: Link, m: ServerToAgent): Link {
    l.(push := l.push.Send(m))
  }

  // ----- decoded frames -------------------------------------------------------------------------

  /** The messages that decode, in order. */
  ghost function Decoded(frames: seq<Frame>): seq<AgentToServer> {
    if frames == [] then []
    else
      var f := frames[|frames| - 1];
      Decoded(frames[..|frames| - 1]) + if f.Binary? && f.payload.Some? then [f.payload.value] else []
  }

  lemma DecodedSnoc(frames: seq<Frame>, f: Frame)
    ensures Decoded(frames + [f]) == Decoded(frames) + if f.Binary? && f.payload.Some? then [f.payload.value] else []
  {
    assert (frames + [f])[..|frames|] == frames;
  }

  lemma {:induction false} DecodedPrefix(frames: seq<Frame>, n: nat)
    requires n <= |frames|
    ensures Decoded(frames[..n]) <= Decoded(frames)
  {
    if n == |frames| {
      assert frames[..n] == frames;
    } else {
      DecodedPrefix(frames[..|frames| - 1], n);
      assert frames[..|frames| - 1][..n] == frames[..n];
    }
  }

  /** What `serve` has decoded so far. */
  ghost function Read(l: Link): seq<AgentToServer>
    requires l.up.Valid()
  {
    Decoded(l.up.sent[..l.up.taken])
  }

  lemma ReadNext(l: Link)
    requires l.up.Valid() && l.up.taken < |l.up.sent|
    ensures Read(l.(up := l.up.Take())) ==
      Read(l) + if l.up.Head().Binary? && l.up.Head().payload.Some? then [l.up.Head().payload.value] else []
  {
    assert l.up.sent[..l.up.taken + 1] == l.up.sent[..l.up.taken] + [l.up.Head()];
    DecodedSnoc(l.up.sent[..l.up.taken], l.up.Head());
  }

  lemma ReadUnchangedBySend(l: Link, f: Frame)
    requires l.up.Valid()
    ensures Read(l.(up := l.up.Send(f))) == Read(l)
  {
    assert l.up.Send(f).sent[..l.up.taken] == l.up.sent[..l.up.taken];
  }

  ghost predicate ChannelsValid(l: Link) {
    l.up.Valid() && l.down.Valid() && l.push.Valid() && l.push.Queued() <= PUSH_BOUND
  }

  // ----- the wire discipline --------------------------------------------------------------------

  ghost function Replies(l: Link): seq<ServerToAgent> {
    Filter(IsReply, l.down.sent)
  }

  ghost function Deliveries(l: Link): seq<ServerToAgent> {
    Filter(IsPush, l.down.sent)
  }

  /** How many decoded messages have been announced as events, and how many answered. */
  ghost function Announced(l: Link): int
    requires l.up.Valid()
  {
    |Read(l)| - if l.pc.Emitting? then 1 else 0
  }

  /** The event for each decoded message, under its own UID when it has one, then the goodbye. */
  ghost predicate EventsFollowReads(l: Link)
    requires l.up.Valid()
  {
    var k := Announced(l);
    && 0 <= k
    && |l.emitted| == k + (if l.pc.Done? && l.uid.Some? then 1 else 0)
    && (l.pc.Done? && l.uid.Some? ==> l.emitted[k] == Disconnected(l.uid.value))
    && forall j :: 0 <= j < k ==>
        && l.emitted[j].Message? && l.emitted[j].msg == Read(l)[j]
        && (|Read(l)[j].instanceUid| == 16 ==> l.emitted[j].uid == Read(l)[j].instanceUid)
  }

  /** The pc agrees with the frame being worked on, and the UID is the first one seen. */
  ghost predicate PcFollowsReads(l: Link)
    requires l.up.Valid()
  {
    var d := Read(l);
    && (l.uid.None? <==> d == [])
    && (l.pc.Emitting? ==>
          && d != [] && l.pc.msg == d[|d| - 1]
          && (|l.pc.msg.instanceUid| == 16 ==> l.pc.uid == l.pc.msg.instanceUid))
    && (l.pc.Replying? ==>
          && d != [] && l.pc.caps == d[|d| - 1].capabilities
          && l.pc.closing == d[|d| - 1].disconnect
          && |l.emitted| >= 1 && l.emitted[|l.emitted| - 1].uid == l.pc.uid)
    && (l.pc.Deregistering? || l.pc.Announcing? ==> l.uid.Some?)
    && (d != [] && |d[0].instanceUid| == 16 ==> l.uid == Some(d[0].instanceUid))
  }

  /** One reply per announced message, in order; only the first can carry the telemetry offer. */
  ghost predicate RepliesFollowReads(cfg: Settings, l: Link)
    requires l.up.Valid() && EventsFollowReads(l)
  {
    var r := Replies(l);
    && |r| <= Announced(l)
    && (l.pc.Replying? ==> |r| == Announced(l) - 1)
    && (l.pc.Failed? ==> Announced(l) - 1 <= |r|)
    && (!l.pc.Replying? && !l.pc.Failed? ==> |r| == Announced(l))
    && (!l.pc.Failed? ==> (l.first <==> r == []))
    && forall j :: 0 <= j < |r| ==> r[j] == Reply(cfg, l.emitted[j].uid, Read(l)[j].capabilities, j == 0)
  }

  /** Deliveries are the accepted pushes, in order, up to the cursor; a failing write loses one at most. */
  ghost predicate DeliveriesFollowPushes(l: Link)
    requires l.push.Valid()
  {
    && (forall j :: 0 <= j < |l.push.sent| ==> IsPush(l.push.sent[j]))
    && (!l.pc.Failed? ==> Deliveries(l) == l.push.sent[..l.push.taken])
    && Deliveries(l) <= l.push.sent
    && (l.push.sent != [] ==> l.uid.Some?)
    && (l.down.sent != [] ==> IsReply(l.down.sent[0]))
  }

  ghost predicate LinkInv(cfg: Settings, l: Link) {
    && ChannelsValid(l)
    && EventsFollowReads(l)
    && PcFollowsReads(l)
    && RepliesFollowReads(cfg, l)
    && DeliveriesFollowPushes(l)
  }

  lemma OpenedInv(cfg: Settings, peer: Peer)
    ensures LinkInv(cfg, Opened(peer))
  {
  }

  /** Steps that only append to `up`, move `down`'s cursor or touch the peer. */
  lemma PeerStepInv(cfg: Settings, l: Link, l': Link, f: Option<Frame>)
    requires LinkInv(cfg, l)
    requires l'.down.sent == l.down.sent && l'.down.Valid()
    requires l'.push == l.push && l'.uid == l.uid && l'.first == l.first && l'.pc == l.pc && l'.emitted == l.emitted
    requires l'.up == if f.Some? then l.up.Send(f.value) else l.up
    ensures LinkInv(cfg, l')
  {
    hide Decoded, Filter, Reply;
    if f.Some? { ReadUnchangedBySend(l, f.value); }
    assert Read(l') == Read(l);
  }

  lemma TakeInv(cfg: Settings, l: Link, spare: Uid)
    requires LinkInv(cfg, l) && CanStep(l, ServeTake(spare))
    ensures LinkInv(cfg, LinkStep(cfg, l, ServeTake(spare)))
  {
    hide LinkInv;
    LinkInvChannels(cfg, l);
    if l.up.Head().Binary? && l.up.Head().payload.Some? {
      TakeMessageInv(cfg, l, spare);
    } else {
      TakeOtherInv(cfg, l, spare);
    }
  }

  lemma TakeMessageInv(cfg: Settings, l: Link, spare: Uid)
    requires LinkInv(cfg, l) && CanStep(l, ServeTake(spare))
    requires l.up.Head().Binary? && l.up.Head().payload.Some?
    ensures LinkInv(cfg, TakeFrame(l, spare))
  {
    hide Decoded, Filter, Reply;
    ReadNext(l);
    var l' := TakeFrame(l, spare);
    assert Read(l') == Read(l.(up := l.up.Take()));
  }

  lemma TakeOtherInv(cfg: Settings, l: Link, spare: Uid)
    requires LinkInv(cfg, l) && CanStep(l, ServeTake(spare))
    requires !(l.up.Head().Binary? && l.up.Head().payload.Some?)
    ensures LinkInv(cfg, TakeFrame(l, spare))
  {
    hide Decoded, Filter, Reply, Resolve;
    ReadNext(l);
    var l' := TakeFrame(l, spare);
    assert Read(l') == Read(l);
  }

  lemma EmitInv(cfg: Settings, l: Link)
    requires LinkInv(cfg, l) && l.pc.Emitting?
    ensures LinkInv(cfg, LinkStep(cfg, l, ServeEmit))
  {
    hide Decoded, Filter, Reply;
    var l' := LinkStep(cfg, l, ServeEmit);
    assert Read(l') == Read(l);
  }

  lemma ReplyInv(cfg: Settings, l: Link)
    requires LinkInv(cfg, l) && l.pc.Replying?
    ensures LinkInv(cfg, LinkStep(cfg, l, ServeReply))
  {
    hide Decoded, Filter;
    var l' := LinkStep(cfg, l, ServeReply);
    var m := Reply(cfg, l.pc.uid, l.pc.caps, l.first);
    FilterSnoc(IsReply, l.down.sent, m);
    FilterSnoc(IsPush, l.down.sent, m);
    assert Read(l') == Read(l);
  }

  lemma PushInv(cfg: Settings, l: Link)
    requires LinkInv(cfg, l) && CanStep(l, ServePush)
    ensures LinkInv(cfg, LinkStep(cfg, l, ServePush))
  {
    hide Decoded, Filter, Reply;
    var l' := LinkStep(cfg, l, ServePush);
    var m := l.push.Head();
    FilterSnoc(IsReply, l.down.sent, m);
    FilterSnoc(IsPush, l.down.sent, m);
    assert Read(l') == Read(l);
    assert l.push.sent[..l.push.taken + 1] == l.push.sent[..l.push.taken] + [m];
    assert Replies(l) != [];
    if l.down.sent == [] { FilterEmpty(IsReply, l.down.sent); }
  }

  lemma FilterEmpty<T>(p: T -> bool, s: seq<T>)
    requires s == []
    ensures Filter(p, s) == []
  {
  }

  lemma EndInv(cfg: Settings, l: Link, a: LinkAction)
    requires LinkInv(cfg, l) && CanStep(l, a)
    requires a.ServeClosed? || a.ServeFail? || a.ServeDeregister? || a.ServeAnnounce?
    ensures LinkInv(cfg, LinkStep(cfg, l, a))
  {
    hide Decoded, Filter, Reply;
    var l' := LinkStep(cfg, l, a);
    assert Read(l') == Read(l);
  }

  lemma PushedInv(cfg: Settings, l: Link, m: ServerToAgent)
    requires LinkInv(cfg, l) && CanPush(l) && l.uid.Some? && IsPush(m)
    ensures LinkInv(cfg, Pushed(l, m))
  {
    hide Decoded, Filter, Reply;
    var l' := Pushed(l, m);
    assert Read(l') == Read(l);
    assert l'.push.sent[..l.push.taken] == l.push.sent[..l.push.taken];
  }

  lemma LinkStepInv(cfg: Settings, l: Link, a: LinkAction)
    requires LinkInv(cfg, l) && CanStep(l, a)
    ensures LinkInv(cfg, LinkStep(cfg, l, a))
  {
    hide LinkInv, Reply, FullStatus, HealthReport, ConfigApplied, Answer, Received, Restarted, Sent;
    var l' := LinkStep(cfg, l, a);
    match a
    case ForeignSend(f) => LinkInvChannels(cfg, l); PeerStepInv(cfg, l, l', Some(f));
    case PeerClose => LinkInvChannels(cfg, l); PeerStepInv(cfg, l, l', None);
    case MockGreet => LinkInvChannels(cfg, l); PeerStepInv(cfg, l, l', Some(l'.up.sent[|l.up.sent|]));
    case MockReceive =>
      LinkInvChannels(cfg, l);
      PeerStepInv(cfg, l, l', if l'.up == l.up then None else Some(l'.up.sent[|l.up.sent|]));
    case MockApply => LinkInvChannels(cfg, l); PeerStepInv(cfg, l, l', Some(l'.up.sent[|l.up.sent|]));
    case MockRestart(_) => LinkInvChannels(cfg, l); PeerStepInv(cfg, l, l', Some(l'.up.sent[|l.up.sent|]));
    case MockTick => LinkInvChannels(cfg, l); PeerStepInv(cfg, l, l', Some(l'.up.sent[|l.up.sent|]));
    case MockEnd => LinkInvChannels(cfg, l); PeerStepInv(cfg, l, l', None);
    case ServeTake(spare) => TakeInv(cfg, l, spare);
    case ServeEmit => EmitInv(cfg, l);
    case ServeReply => ReplyInv(cfg, l);
    case ServePush => PushInv(cfg, l);
    case _ => EndInv(cfg, l, a);
  }

  lemma LinkInvChannels(cfg: Settings, l: Link)
    requires LinkInv(cfg, l)
    ensures ChannelsValid(l)
  {
  }

  // ----- what the pushes are ----------------------------------------------------------------------

  /** A restart order or a config offer, addressed to the UID and under the hash of its file. */
  predicate IsCommand(cfg: Settings, uid: Uid, m: ServerToAgent) {
    || m == RestartOrder(uid)
    || (&& m.remoteConfig.Some? && OfferedFile(m.remoteConfig.value.config).Some?
        && m == ConfigOffer(cfg, uid, OfferedFile(m.remoteConfig.value.config).value))
  }

  lemma OfferIsCommand(cfg: Settings, uid: Uid, yaml: string)
    ensures IsCommand(cfg, uid, ConfigOffer(cfg, uid, yaml)) && IsCommand(cfg, uid, RestartOrder(uid))
    ensures OfferedFile(Some(YamlConfigMap(yaml))) == Some(yaml)
  {
  }

  lemma CommandIsPush(cfg: Settings, uid: Uid, m: ServerToAgent)
    requires IsCommand(cfg, uid, m)
    ensures IsPush(m) && WellHashed(m, cfg.hash) && m.instanceUid == uid
  {
  }

  predicate CommandFor(cfg: Settings, uid: Option<Uid>, m: ServerToAgent) {
    uid.Some? && IsCommand(cfg, uid.value, m)
  }

  /** Everything accepted for a connection is a command addressed to its UID. */
  ghost predicate Addressed(cfg: Settings, l: Link) {
    && (forall j :: 0 <= j < |l.push.sent| ==> CommandFor(cfg, l.uid, l.push.sent[j]))
    && (forall j :: 0 <= j < |l.down.sent| ==> WellHashed(l.down.sent[j], cfg.hash))
  }

  lemma AddressedStep(cfg: Settings, l: Link, a: LinkAction)
    requires LinkInv(cfg, l) && Addressed(cfg, l) && CanStep(l, a)
    ensures Addressed(cfg, LinkStep(cfg, l, a))
  {
    hide Decoded, Filter, IsCommand, ConfigOffer, RestartOrder, LinkInv, WellHashed;
    hide FullStatus, HealthReport, ConfigApplied, Received, Answer;
    LinkInvChannels(cfg, l);
    var l' := LinkStep(cfg, l, a);
    match a
    case ServePush =>
      assert l.push.Head() == l.push.sent[l.push.taken];
      CommandIsPush(cfg, l.uid.value, l.push.Head());
    case ServeReply => ReplyWellHashed(cfg, l.pc.uid, l.pc.caps, l.first);
    case _ => AddressedSame(cfg, l, l');
  }

  lemma AddressedSame(cfg: Settings, l: Link, l': Link)
    requires Addressed(cfg, l)
    requires l'.push.sent == l.push.sent && l'.down.sent == l.down.sent && (l.uid.Some? ==> l'.uid == l.uid)
    ensures Addressed(cfg, l')
  {
    forall j | 0 <= j < |l'.push.sent| ensures CommandFor(cfg, l'.uid, l'.push.sent[j]) {
      assert l'.push.sent[j] == l.push.sent[j];
    }
    forall j | 0 <= j < |l'.down.sent| ensures WellHashed(l'.down.sent[j], cfg.hash) {
      assert l'.down.sent[j] == l.down.sent[j];
    }
  }

  lemma ReplyWellHashed(cfg: Settings, uid: Uid, caps: bv64, first: bool)
    ensures WellHashed(Reply(cfg, uid, caps, first), cfg.hash)
  {
  }

  // ----- a connection to a mock agent ---------------------------------------------------------------

  /** Every frame is a message of the agent's, and the agent has read a prefix of what it was sent. */
  ghost predicate MockInv(cfg: Settings, l: Link) {
    l.peer.Mock? ==>
      && l.down.Valid()
      && |Decoded(l.up.sent)| == |l.up.sent|
      && AgentInv(cfg.hash, l.peer.agent, Decoded(l.up.sent), l.down.sent[..l.down.taken])
      && (!l.upClosed ==> !l.peer.agent.pc.Gone?)
  }

  lemma SaidInv(cfg: Settings, l: Link, m: AgentToServer, agent: Agent)
    requires l.peer.Mock? && MockInv(cfg, l)
    requires AgentInv(cfg.hash, agent, Decoded(l.up.sent) + [m], l.down.sent[..l.down.taken])
    requires !agent.pc.Gone?
    ensures MockInv(cfg, Say(l, m, agent))
  {
    hide AgentInv;
    DecodedSnoc(l.up.sent, Binary(Some(m)));
  }

  lemma GoneInv(hash: string -> seq<byte>, a: Agent, sent: seq<AgentToServer>, received: seq<ServerToAgent>)
    requires AgentInv(hash, a, sent, received)
    ensures AgentInv(hash, a.(pc := Gone), sent, received)
  {
    AnsweringSame(a.pc, sent, Gone);
  }

  lemma MockReceiveInv(cfg: Settings, l: Link)
    requires MockInv(cfg, l) && Addressed(cfg, l) && CanStep(l, MockReceive)
    ensures MockInv(cfg, LinkStep(cfg, l, MockReceive))
  {
    hide AgentInv, Decoded, WellHashed;
    var m, a, sent := l.down.Head(), l.peer.agent, Decoded(l.up.sent);
    var received := l.down.sent[..l.down.taken];
    ReceiveInv(cfg.hash, a, sent, received, m);
    assert l.down.sent[..l.down.taken + 1] == received + [m];
    if Answer(a, m).Some? {
      DecodedSnoc(l.up.sent, Binary(Some(Answer(a, m).value)));
    } else {
      assert sent + [] == sent;
    }
  }

  lemma MockStepInv(cfg: Settings, l: Link, a: LinkAction)
    requires MockInv(cfg, l) && Addressed(cfg, l) && l.down.Valid() && CanStep(l, a)
    ensures MockInv(cfg, LinkStep(cfg, l, a))
  {
    hide AgentInv, Decoded, Reply, FullStatus, HealthReport, ConfigApplied, Answer, Received, Addressed;
    if l.peer.Mock? {
      var agent, sent, received := l.peer.agent, Decoded(l.up.sent), l.down.sent[..l.down.taken];
      var l' := LinkStep(cfg, l, a);
      match a
      case MockGreet =>
        GreetingIsSilent(cfg.hash, agent, sent, received);
        GreetInv(cfg.hash, agent, received);
        assert sent + [FullStatus(agent)] == [FullStatus(agent)];
        SaidInv(cfg, l, FullStatus(agent), Sent(agent, Listening));
      case MockReceive => MockReceiveInv(cfg, l);
      case MockApply =>
        var pc := if agent.pc.restart then Restarting else Listening;
        ApplyInv(cfg.hash, agent, sent, received, pc);
        SaidInv(cfg, l, ConfigApplied(agent, agent.pc.hash), Sent(agent, pc));
      case MockRestart(now) =>
        RestartInv(cfg.hash, agent, now, sent, received);
        SaidInv(cfg, l, HealthReport(Restarted(agent, now)), Sent(Restarted(agent, now), Listening));
      case MockTick =>
        TickInv(cfg.hash, agent, sent, received);
        SaidInv(cfg, l, HealthReport(agent), Sent(agent, Listening));
      case PeerClose => GoneInv(cfg.hash, agent, sent, received);
      case MockEnd => GoneInv(cfg.hash, agent, sent, received);
      case ServeReply => assert l'.down.sent[..l.down.taken] == received;
      case ServePush => assert l'.down.sent[..l.down.taken] == received;
      case _ =>
    }
  }

  lemma GreetingIsSilent(hash: string -> seq<byte>, a: Agent, sent: seq<AgentToServer>, received: seq<ServerToAgent>)
    requires AgentInv(hash, a, sent, received) && a.pc.Greeting?
    ensures sent == []
  {
  }

  lemma OpenedMockInv(cfg: Settings, uid: Uid, profile: Profile, now: nat)
    ensures MockInv(cfg, Opened(Mock(Fresh(uid, profile, now))))
    ensures Addressed(cfg, Opened(Mock(Fresh(uid, profile, now))))
  {
    FreshInv(cfg.hash, uid, profile, now);
  }
}
