/**
 * The server's own code: the routing registry, the bounded push channels behind it, the command
 * handle, and the `serve` loop of one connection. `Link` cuts that loop into atomic steps; here
 * the loop runs whole and is proved to be a sequence of those steps, with its effects in order.
 */
module Server {
  import opened Prelude
  import opened Opamp
  import opened Link

  // ----- push channels and the registry -----------------------------------------------------------

  /** The sending side of `mpsc::channel(64)`: what is queued, and whether the receiver is gone. */
  class PushChannel {
    var queue: seq<ServerToAgent>
    var closed: bool

    constructor ()
      ensures queue == [] && !closed
    {
      queue, closed := [], false;
    }

    method TrySend(msg: ServerToAgent) returns (ok: bool)
      modifies this`queue
      ensures ok <==> !closed && |old(queue)| < PUSH_BOUND
      ensures queue == if ok then old(queue) + [msg] else old(queue)
    {
      ok := !closed && |queue| < PUSH_BOUND;
      if ok { queue := queue + [msg]; }
    }
  }

  /** The channel object of a connection of the step machine. */
  ghost predicate Represents(ch: PushChannel, l: Link)
    requires l.push.Valid()
    reads ch
  {
    ch.queue == l.push.sent[l.push.taken..] && (ch.closed <==> Returned(l))
  }

  /** `try_send` succeeds exactly when the step machine can push, and then queues the same message. */
  lemma TrySendIsPushed(ch: PushChannel, l: Link, msg: ServerToAgent)
    requires l.push.Valid() && Represents(ch, l)
    ensures !ch.closed && |ch.queue| < PUSH_BOUND <==> CanPush(l)
    ensures ch.queue + [msg] == Pushed(l, msg).push.sent[Pushed(l, msg).push.taken..]
  {
  }

  /** The map from UIDs to push channels behind the registry's mutex. */
  class Registry {
    var senders: map<Uid, PushChannel>

    constructor ()
      ensures senders == map[]
    {
      senders := map[];
    }

    method Insert(uid: Uid, tx: PushChannel)
      modifies this
      ensures senders == old(senders)[uid := tx]
    {
      senders := senders[uid := tx];
    }

    method Remove(uid: Uid)
      modifies this
      ensures senders == old(senders) - {uid}
    {
      senders := senders - {uid};
    }

    method Sender(uid: Uid) returns (tx: Option<PushChannel>)
      ensures tx == if uid in senders then Some(senders[uid]) else None
    {
      tx := if uid in senders then Some(senders[uid]) else None;
    }

    method Count() returns (n: nat)
      ensures n == |senders.Keys|
    {
      n := |senders|;
    }
  }

  // ----- the command handle ---------------------------------------------------------------------------

  datatype SendResult<T> = Sent(value: T) | NotConnected | ChannelFull

  class ServerHandle {
    const registry: Registry
    const cfg: Settings

    constructor (registry: Registry, cfg: Settings)
      ensures this.registry == registry && this.cfg == cfg
    {
      this.registry, this.cfg := registry, cfg;
    }

    /** The channel that a command to this UID would go to. */
    ghost function Target(uid: Uid): set<object>
      reads registry
    {
      if uid in registry.senders then {registry.senders[uid]} else {}
    }

    /** What a command does: nothing when it fails, one message at the end of the UID's queue when not. */
    twostate predicate Delivered<T>(uid: Uid, msg: ServerToAgent, new r: SendResult<T>)
      reads registry, Target(uid)
    {
      && registry.senders == old(registry.senders)
      && (r.NotConnected? <==> uid !in registry.senders)
      && (uid in registry.senders ==>
            var ch := registry.senders[uid];
            && (r.Sent? <==> !old(ch.closed) && |old(ch.queue)| < PUSH_BOUND)
            && ch.closed == old(ch.closed)
            && ch.queue == if r.Sent? then old(ch.queue) + [msg] else old(ch.queue))
    }

    method Push(uid: Uid, msg: ServerToAgent) returns (r: SendResult<()>)
      modifies Target(uid)
      ensures Delivered(uid, msg, r)
    {
      var tx := registry.Sender(uid);
      if tx.None? { return NotConnected; }
      var ok := tx.value.TrySend(msg);
      r := if ok then Sent(()) else ChannelFull;
    }

    /** On success the caller gets the hash that the agent has to echo. */
    method OfferRemoteConfig(uid: Uid, yaml: string) returns (r: SendResult<seq<byte>>)
      modifies Target(uid)
      ensures Delivered(uid, ConfigOffer(cfg, uid, yaml), r)
      ensures r.Sent? ==> r.value == cfg.hash(yaml)
    {
      var hash := cfg.hash(yaml);
      var pushed := Push(uid, ServerToAgent(uid, Some(RemoteConfig(Some(YamlConfigMap(yaml)), hash)), None, None));
      r := match pushed case Sent(_) => Sent(hash) case NotConnected => NotConnected case ChannelFull => ChannelFull;
    }

    method SendRestart(uid: Uid) returns (r: SendResult<()>)
      modifies Target(uid)
      ensures Delivered(uid, RestartOrder(uid), r)
    {
      r := Push(uid, ServerToAgent(uid, None, Some(COMMAND_RESTART), None));
    }
  }

  /** The UI's side: agents are named by the text of their UIDs, as `translate` recorded it. */
  class EmbeddedControlPlane {
    const handle: ServerHandle
    var uids: map<string, Uid>

    constructor (handle: ServerHandle)
      ensures this.handle == handle && uids == map[]
    {
      this.handle, uids := handle, map[];
    }

    ghost function Target(uid: string): set<object>
      reads this, handle.registry
    {
      if uid in uids then handle.Target(uids[uid]) else {}
    }

    /** Fails without effect on a text that `uids` does not hold; else offers the config to that UID. */
    method PushConfig(uid: string, yaml: string) returns (r: SendResult<()>)
      modifies Target(uid)
      ensures uid !in uids ==> r.NotConnected?
      ensures uid in uids ==> handle.Delivered(uids[uid], ConfigOffer(handle.cfg, uids[uid], yaml), r)
    {
      if uid !in uids { return NotConnected; }
      var offered := handle.OfferRemoteConfig(uids[uid], yaml);
      r := match offered case Sent(_) => Sent(()) case NotConnected => NotConnected case ChannelFull => ChannelFull;
    }

    method Restart(uid: string) returns (r: SendResult<()>)
      modifies Target(uid)
      ensures uid !in uids ==> r.NotConnected?
      ensures uid in uids ==> handle.Delivered(uids[uid], RestartOrder(uids[uid]), r)
    {
      if uid !in uids { return NotConnected; }
      r := handle.SendRestart(uids[uid]);
    }
  }

  // ----- one connection ---------------------------------------------------------------------------------

  /** What one turn of `select!` yields, and whether the write that follows it succeeds. */
  datatype Arrival =
    | Incoming(frame: Frame, spare: Uid, writeOk: bool)
    | Outgoing(msg: ServerToAgent, writeOk: bool)
    | StreamEnd
    | ReadError

  /** What `serve` does to the rest of the system, in order. */
  datatype Effect =
    | Registered(uid: Uid)
    | Deregistered(uid: Uid)
    | Announced(event: OpampEvent)
    | Wrote(msg: ServerToAgent)

  datatype Progress = Progress(link: Link, log: seq<Effect>)

  /** The effect of a step of `serve`. */
  function EffectOf(cfg: Settings, l: Link, a: LinkAction): seq<Effect>
    requires CanStep(l, a)
  {
    match a
    case ServeTake(spare) =>
      if Registers(l) then [Registered(Resolve(l.up.Head().payload.value.instanceUid, spare))] else []
    case ServeEmit => [Announced(Message(l.pc.uid, l.pc.msg))]
    case ServeReply => [Wrote(Reply(cfg, l.pc.uid, l.pc.caps, l.first))]
    case ServePush => [Wrote(l.push.Head())]
    case ServeDeregister => if l.uid.Some? then [Deregistered(l.uid.value)] else []
    case ServeAnnounce => [Announced(Disconnected(l.uid.value))]
    case _ => []
  }

  function Do(cfg: Settings, p: Progress, a: LinkAction): Progress
    requires CanStep(p.link, a)
  {
    Progress(LinkStep(cfg, p.link, a), p.log + EffectOf(cfg, p.link, a))
  }

  /** Between two turns: the loop waits, and everything that arrived has been dealt with. */
  predicate Waiting(l: Link) {
    && l.pc.Idle? && l.peer.Foreign? && !l.upClosed
    && l.up.taken == |l.up.sent| && l.push.taken == |l.push.sent|
  }

  /** Between two turns or after return: the push channel has been emptied, by reading or by dropping it. */
  predicate Settled(l: Link) {
    Waiting(l) || (Returned(l) && l.push.taken == |l.push.sent|)
  }

  /** After `break`: the rest of the function. */
  function Cleanup(cfg: Settings, p: Progress): Progress
    requires p.link.pc.Deregistering? ==> p.link.uid.Some?
  {
    if p.link.pc.Deregistering? then Do(cfg, Do(cfg, p, ServeDeregister), ServeAnnounce) else p
  }

  /** One turn of the loop as steps of the connection. */
  function Turn(cfg: Settings, p: Progress, a: Arrival): Progress
    requires Waiting(p.link)
  {
    match a
    case Incoming(frame, spare, writeOk) =>
      var taken := Do(cfg, p.(link := LinkStep(cfg, p.link, ForeignSend(frame))), ServeTake(spare));
      if taken.link.pc.Emitting? then
        var announced := Do(cfg, taken, ServeEmit);
        if writeOk then Cleanup(cfg, Do(cfg, announced, ServeReply)) else Do(cfg, announced, ServeFail(false))
      else if frame.Ping? && !writeOk then Do(cfg, taken, ServeFail(false))
      else Cleanup(cfg, taken)
    case Outgoing(msg, writeOk) =>
      Do(cfg, p.(link := Pushed(p.link, msg)), if writeOk then ServePush else ServeFail(true))
    case StreamEnd => Cleanup(cfg, Do(cfg, p.(link := LinkStep(cfg, p.link, PeerClose)), ServeClosed))
    case ReadError => Do(cfg, p, ServeFail(false))
  }

  lemma CleanupSettles(cfg: Settings, p: Progress)
    requires p.link.pc.Deregistering? ==> p.link.uid.Some?
    requires Settled(p.link) || (p.link.pc.Deregistering? && p.link.push.taken == |p.link.push.sent|)
    ensures Settled(Cleanup(cfg, p).link)
  {
    hide EffectOf;
  }

  lemma MessageSettles(cfg: Settings, p: Progress, a: Arrival)
    requires Waiting(p.link) && a.Incoming? && a.frame.Binary? && a.frame.payload.Some?
    ensures Settled(Turn(cfg, p, a).link)
  {
    hide Reply, Resolve, EffectOf, Cleanup;
    var taken := Do(cfg, p.(link := LinkStep(cfg, p.link, ForeignSend(a.frame))), ServeTake(a.spare));
    var announced := Do(cfg, taken, ServeEmit);
    if a.writeOk { CleanupSettles(cfg, Do(cfg, announced, ServeReply)); }
  }

  lemma FrameSettles(cfg: Settings, p: Progress, a: Arrival)
    requires Waiting(p.link) && a.Incoming? && !(a.frame.Binary? && a.frame.payload.Some?)
    ensures Settled(Turn(cfg, p, a).link)
  {
    hide Reply, Resolve, EffectOf, Cleanup;
    CleanupSettles(cfg, Do(cfg, p.(link := LinkStep(cfg, p.link, ForeignSend(a.frame))), ServeTake(a.spare)));
  }

  lemma TurnSettles(cfg: Settings, p: Progress, a: Arrival)
    requires Waiting(p.link)
    ensures Settled(Turn(cfg, p, a).link)
  {
    hide Reply, Resolve, EffectOf, Cleanup;
    match a
    case Incoming(frame, _, _) =>
      if frame.Binary? && frame.payload.Some? { MessageSettles(cfg, p, a); } else { FrameSettles(cfg, p, a); }
    case StreamEnd => CleanupSettles(cfg, Do(cfg, p.(link := LinkStep(cfg, p.link, PeerClose)), ServeClosed));
    case _ =>
  }

  /** The turns of a connection; what arrives after `serve` has returned is not seen. */
  ghost function Served(cfg: Settings, arrivals: seq<Arrival>): (p: Progress)
    ensures Settled(p.link)
  {
    if arrivals == [] then Progress(Opened(Foreign), []) else
    var before := Served(cfg, arrivals[..|arrivals| - 1]);
    if Returned(before.link) then before
    else
      TurnSettles(cfg, before, arrivals[|arrivals| - 1]);
      Turn(cfg, before, arrivals[|arrivals| - 1])
  }

  lemma ServedSnoc(cfg: Settings, arrivals: seq<Arrival>, k: nat)
    requires k < |arrivals|
    ensures var before := Served(cfg, arrivals[..k]);
      Served(cfg, arrivals[..k + 1]) == if Returned(before.link) then before else Turn(cfg, before, arrivals[k])
  {
    assert arrivals[..k + 1][..k] == arrivals[..k];
  }

  lemma {:induction false} ServedStays(cfg: Settings, arrivals: seq<Arrival>, k: nat)
    requires k <= |arrivals| && Returned(Served(cfg, arrivals[..k]).link)
    ensures Served(cfg, arrivals) == Served(cfg, arrivals[..k])
  {
    hide Turn, Opened, Waiting;
    if k == |arrivals| {
      assert arrivals[..k] == arrivals;
    } else {
      assert arrivals[..|arrivals| - 1][..k] == arrivals[..k];
      ServedStays(cfg, arrivals[..|arrivals| - 1], k);
    }
  }

  /** The registry's senders after one effect of a connection with push channel tx... */
  ghost function SendersStep(senders: map<Uid, PushChannel>, e: Effect, tx: PushChannel): map<Uid, PushChannel> {
    match e
    case Registered(uid) => senders[uid := tx]
    case Deregistered(uid) => senders - {uid}
    case _ => senders
  }

  /** ...and after all of them. */
  ghost function SendersAfter(senders: map<Uid, PushChannel>, log: seq<Effect>, tx: PushChannel): map<Uid, PushChannel> {
    if log == [] then senders
    else SendersStep(SendersAfter(senders, log[..|log| - 1], tx), log[|log| - 1], tx)
  }

  lemma SendersSnoc(senders: map<Uid, PushChannel>, log: seq<Effect>, e: Effect, tx: PushChannel)
    ensures SendersAfter(senders, log + [e], tx) == SendersStep(SendersAfter(senders, log, tx), e, tx)
  {
    assert (log + [e])[..|log|] == log;
  }

  // ----- the loop as the source runs it ---------------------------------------------------------------------

  /** How `serve` stands: still in the loop, returned `Ok`, or left through `?`. */
  datatype Exit = Running | Finished | Errored

  /** The steps that one decoded message goes through, up to where the reply is due. */
  ghost function Heard(cfg: Settings, p: Progress, msg: AgentToServer, spare: Uid): Progress
    requires Waiting(p.link)
  {
    Do(cfg, Do(cfg, p.(link := LinkStep(cfg, p.link, ForeignSend(Binary(Some(msg))))), ServeTake(spare)), ServeEmit)
  }

  lemma HeardEffects(cfg: Settings, p: Progress, msg: AgentToServer, spare: Uid)
    requires Waiting(p.link)
    ensures var uid, h := Resolve(msg.instanceUid, spare), Heard(cfg, p, msg, spare);
      && h.log == p.log + (if p.link.uid.None? then [Registered(uid)] else []) + [Announced(Message(uid, msg))]
      && h.link.uid == Some(if p.link.uid.None? then uid else p.link.uid.value)
      && h.link.first == p.link.first
      && h.link.pc == Replying(uid, msg.capabilities, msg.disconnect)
  {
    hide Resolve;
  }

  lemma IncomingTurn(cfg: Settings, p: Progress, msg: AgentToServer, spare: Uid, writeOk: bool)
    requires Waiting(p.link)
    ensures var h, t := Heard(cfg, p, msg, spare), Turn(cfg, p, Incoming(Binary(Some(msg)), spare, writeOk));
      && h.link.pc.Replying?
      && (writeOk ==> t == Cleanup(cfg, Do(cfg, h, ServeReply)))
      && (!writeOk ==> t == Do(cfg, h, ServeFail(false)))
  {
    hide Resolve, Cleanup, Reply;
  }

  /** The goodbye of a loop left by `break`. */
  function Goodbye(uid: Option<Uid>): seq<Effect> {
    if uid.None? then [] else [Deregistered(uid.value), Announced(Disconnected(uid.value))]
  }

  lemma CleanupEffects(cfg: Settings, p: Progress)
    requires p.link.pc == (if p.link.uid.Some? then Deregistering else ServePc.Done)
    ensures var c := Cleanup(cfg, p);
      c.log == p.log + Goodbye(p.link.uid) && c.link.uid == p.link.uid && c.link.pc.Done?
  {
  }

  lemma AnsweredEffects(cfg: Settings, h: Progress)
    requires h.link.pc.Replying? && h.link.uid.Some?
    ensures var a := Do(cfg, h, ServeReply);
      && a.log == h.log + [Wrote(Reply(cfg, h.link.pc.uid, h.link.pc.caps, h.link.first))]
      && a.link.uid == h.link.uid && !a.link.first
      && a.link.pc == (if h.link.pc.closing then Deregistering else Idle)
    ensures Do(cfg, h, ServeFail(false)).log == h.log && Do(cfg, h, ServeFail(false)).link.pc.Failed?
    ensures Do(cfg, h, ServeFail(false)).link.uid == h.link.uid
  {
    hide Reply;
  }

  /** Frames other than messages: a close ends the loop, a pong may fail, the rest is ignored. */
  lemma OtherFrameEffects(cfg: Settings, p: Progress, frame: Frame, spare: Uid, writeOk: bool)
    requires Waiting(p.link) && !(frame.Binary? && frame.payload.Some?)
    ensures var t := Turn(cfg, p, Incoming(frame, spare, writeOk));
      && t.link.uid == p.link.uid && (Waiting(t.link) ==> t.link.first == p.link.first)
      && t.log == p.log + (if frame.Close? then Goodbye(p.link.uid) else [])
      && (frame.Close? ==> t.link.pc.Done?)
      && (frame.Ping? && !writeOk ==> t.link.pc.Failed?)
      && (!frame.Close? && (frame.Ping? ==> writeOk) ==> Waiting(t.link))
  {
    hide Cleanup, Goodbye;
    var taken := Do(cfg, p.(link := LinkStep(cfg, p.link, ForeignSend(frame))), ServeTake(spare));
    assert taken.log == p.log;
    if frame.Close? {
      CleanupEffects(cfg, taken);
    } else {
      NothingToClean(cfg, taken);
    }
  }

  lemma NothingToClean(cfg: Settings, p: Progress)
    requires !p.link.pc.Deregistering?
    ensures Cleanup(cfg, p) == p
  {
  }

  lemma OtherTurnEffects(cfg: Settings, p: Progress, a: Arrival)
    requires Waiting(p.link) && !a.Incoming?
    ensures var t := Turn(cfg, p, a);
      && t.link.uid == p.link.uid && (Waiting(t.link) ==> t.link.first == p.link.first)
      && t.log == p.log + (match a
                           case Outgoing(msg, writeOk) => if writeOk then [Wrote(msg)] else []
                           case StreamEnd => Goodbye(p.link.uid)
                           case _ => [])
      && (a.StreamEnd? ==> t.link.pc.Done?)
      && (a.ReadError? || (a.Outgoing? && !a.writeOk) ==> t.link.pc.Failed?)
      && (a.Outgoing? && a.writeOk ==> Waiting(t.link))
  {
    hide Cleanup, Goodbye;
    if a.StreamEnd? {
      CleanupEffects(cfg, Do(cfg, p.(link := LinkStep(cfg, p.link, PeerClose)), ServeClosed));
    }
  }

  /** The locals of `serve` against the connection: which UID it has registered, and the effects so far. */
  ghost predicate Mirrors(p: Progress, uid: Option<Uid>, first: bool, log: seq<Effect>) {
    p.link.uid == uid && p.link.first == first && p.log == log
  }

  /** Where the loop stands after a turn. */
  ghost predicate Stands(cfg: Settings, arrivals: seq<Arrival>, uid: Option<Uid>, log: seq<Effect>, exit: Exit) {
    var p := Served(cfg, arrivals);
    && p.link.uid == uid && p.log == log
    && (exit.Running? <==> Waiting(p.link))
    && (exit.Finished? <==> p.link.pc.Done?)
    && (exit.Errored? <==> p.link.pc.Failed?)
  }

  /** Between turns the channel object is empty; once `serve` has returned its receiver is gone. */
  lemma SettledChannel(l: Link)
    requires Settled(l)
    ensures l.push.Valid() && l.push.sent[l.push.taken..] == []
    ensures Returned(l) <==> !Waiting(l)
  {
  }

  lemma StandsFinally(cfg: Settings, arrivals: seq<Arrival>, k: nat, uid: Option<Uid>, log: seq<Effect>, exit: Exit)
    requires k <= |arrivals| && Stands(cfg, arrivals[..k], uid, log, exit)
    requires !exit.Running? || k == |arrivals|
    ensures Stands(cfg, arrivals, uid, log, exit)
  {
    hide Served, Turn;
    if exit.Running? {
      assert arrivals[..k] == arrivals;
    } else {
      ServedStays(cfg, arrivals, k);
    }
  }

  /** A decoded message: register on the first one, announce it, answer it, and stop if it says goodbye. */
  method HearMessage(cfg: Settings, registry: Registry, tx: PushChannel, msg: AgentToServer, spare: Uid, writeOk: bool,
                     oldUid: Option<Uid>, oldFirst: bool, oldLog: seq<Effect>,
                     ghost before: map<Uid, PushChannel>, ghost p: Progress)
    returns (uid: Option<Uid>, first: bool, log: seq<Effect>, closing: bool)
    requires Waiting(p.link) && Mirrors(p, oldUid, oldFirst, oldLog)
    requires registry.senders == SendersAfter(before, oldLog, tx)
    modifies registry
    ensures registry.senders == SendersAfter(before, log, tx)
    ensures var t := Turn(cfg, p, Incoming(Binary(Some(msg)), spare, writeOk));
      && t.link.uid == uid && uid.Some?
      && t.log == log + (if writeOk && closing then Goodbye(uid) else [])
      && (!writeOk ==> t.link.pc.Failed?)
      && (writeOk && closing ==> t.link.pc.Done?)
      && (writeOk && !closing ==> Waiting(t.link) && t.link.first == first)
  {
    hide Turn, Heard, Do, Cleanup, Resolve, Reply, SendersAfter, Goodbye, Waiting;
    ghost var h := Heard(cfg, p, msg, spare);
    HeardEffects(cfg, p, msg, spare);
    IncomingTurn(cfg, p, msg, spare, writeOk);
    AnsweredEffects(cfg, h);
    TurnSettles(cfg, p, Incoming(Binary(Some(msg)), spare, writeOk));
    uid, first, log, closing := oldUid, oldFirst, oldLog, msg.disconnect;
    var agentUid := Resolve(msg.instanceUid, spare);
    if uid.None? {
      uid := Some(agentUid);
      registry.Insert(agentUid, tx);
      SendersSnoc(before, log, Registered(agentUid), tx);
      log := log + [Registered(agentUid)];
    }
    SendersSnoc(before, log, Announced(Message(agentUid, msg)), tx);
    log := log + [Announced(Message(agentUid, msg))];
    assert log == h.log;
    if !writeOk { return; }
    var reply := Reply(cfg, agentUid, msg.capabilities, first);
    first := false;
    SendersSnoc(before, log, Wrote(reply), tx);
    log := log + [Wrote(reply)];
    if closing {
      CleanupEffects(cfg, Do(cfg, h, ServeReply));
    } else {
      NothingToClean(cfg, Do(cfg, h, ServeReply));
    }
  }

  /** `serve`: one connection from accept to return, or as far as the arrivals go. */
  method Serve(cfg: Settings, registry: Registry, arrivals: seq<Arrival>)
    returns (tx: PushChannel, uid: Option<Uid>, log: seq<Effect>, exit: Exit)
    modifies registry
    ensures fresh(tx) && Represents(tx, Served(cfg, arrivals).link)
    ensures Stands(cfg, arrivals, uid, log, exit)
    ensures registry.senders == SendersAfter(old(registry.senders), log, tx)
  {
    hide Turn, Do, Cleanup, Served, SendersAfter, Goodbye, Resolve, Reply;
    tx := new PushChannel();
    uid, log, exit := None, [], Running;
    var firstMessage := true;
    ghost var before := registry.senders;
    var i, broke := 0, false;
    NothingServed(cfg, arrivals, before, tx);
    SettledChannel(Served(cfg, arrivals).link);
    while i < |arrivals|
      invariant i <= |arrivals| && exit.Running? && !broke
      invariant Waiting(Served(cfg, arrivals[..i]).link)
      invariant Mirrors(Served(cfg, arrivals[..i]), uid, firstMessage, log)
      invariant registry.senders == SendersAfter(before, log, tx)
      invariant tx.queue == [] && !tx.closed
    {
      ghost var p := Served(cfg, arrivals[..i]);
      ServedSnoc(cfg, arrivals, i);
      var arrival := arrivals[i];
      i := i + 1;
      match arrival {
        case Incoming(frame, spare, writeOk) =>
          if frame.Binary? && frame.payload.Some? {
            var closing: bool;
            uid, firstMessage, log, closing :=
              HearMessage(cfg, registry, tx, frame.payload.value, spare, writeOk, uid, firstMessage, log, before, p);
            if !writeOk {
              exit := Errored;
              tx.closed := true;
              StandsFinally(cfg, arrivals, i, uid, log, exit);
              return;
            }
            if closing {
              broke := true;
              break;
            }
          } else {
            OtherFrameEffects(cfg, p, frame, spare, writeOk);
            if frame.Ping? && !writeOk {
              exit := Errored;
              tx.closed := true;
              StandsFinally(cfg, arrivals, i, uid, log, exit);
              return;
            } else if frame.Close? {
              broke := true;
              break;
            }
          }
        case Outgoing(msg, writeOk) =>
          OtherTurnEffects(cfg, p, arrival);
          if !writeOk {
            exit := Errored;
            tx.closed := true;
            StandsFinally(cfg, arrivals, i, uid, log, exit);
            return;
          }
          SendersSnoc(before, log, Wrote(msg), tx);
          log := log + [Wrote(msg)];
        case StreamEnd =>
          OtherTurnEffects(cfg, p, arrival);
          broke := true;
          break;
        case ReadError =>
          OtherTurnEffects(cfg, p, arrival);
          exit := Errored;
          tx.closed := true;
          StandsFinally(cfg, arrivals, i, uid, log, exit);
          return;
      }
    }
    if broke {
      ghost var goodbye := log + Goodbye(uid);
      if uid.Some? {
        registry.Remove(uid.value);
        SendersSnoc(before, log, Deregistered(uid.value), tx);
        log := log + [Deregistered(uid.value)];
        SendersSnoc(before, log, Announced(Disconnected(uid.value)), tx);
        log := log + [Announced(Disconnected(uid.value))];
      }
      GoodbyeIs(uid);
      assert log == goodbye;
      exit := Finished;
      tx.closed := true;
    }
    StandsFinally(cfg, arrivals, i, uid, log, exit);
  }

  lemma GoodbyeIs(uid: Option<Uid>)
    ensures uid.None? ==> Goodbye(uid) == []
    ensures uid.Some? ==> Goodbye(uid) == [Deregistered(uid.value)] + [Announced(Disconnected(uid.value))]
  {
  }

  lemma NothingServed(cfg: Settings, arrivals: seq<Arrival>, senders: map<Uid, PushChannel>, tx: PushChannel)
    ensures Waiting(Served(cfg, arrivals[..0]).link)
    ensures Mirrors(Served(cfg, arrivals[..0]), None, true, [])
    ensures SendersAfter(senders, [], tx) == senders
  {
  }
}
