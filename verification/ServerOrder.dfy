/**
 * What the whole `serve` loop guarantees to the rest of the system: the order of its effects,
 * its registry entry, and the wire discipline of `Link` for the connection it drives.
 */
module ServerOrder {
  import opened Prelude
  import opened Opamp
  import opened Link
  import opened Server

  // ----- the order of effects ------------------------------------------------------------------

  /** Where a connection stands, judged by its effects alone. */
  datatype Phase =
    | Unknown                                                            // no message yet
    | Serving(uid: Uid, greeted: bool)                                      // registered; some reply written?
    | Owing(uid: Uid, sender: Uid, msg: AgentToServer, first: bool)      // announced, reply due
    | Leaving(uid: Uid)                                                  // goodbye answered
    | Left(uid: Uid)                                                     // registry entry removed
    | Over

  /**
   * Which effect may come next: the registry entry before the first event, each event directly
   * before the reply to the same message, pushes only between replies and after the first, and
   * at the end the registry entry removed before the disconnect is announced.
   */
  ghost function Next(cfg: Settings, ph: Phase, e: Effect): Option<Phase> {
    match (ph, e)
    case (Unknown, Registered(u)) => Some(Serving(u, false))
    case (Serving(u, greeted), Announced(Message(v, m))) =>
      if greeted || v == u then Some(Owing(u, v, m, !greeted)) else None
    case (Serving(u, greeted), Wrote(m)) => if greeted && IsPush(m) then Some(ph) else None
    case (Serving(u, greeted), Deregistered(v)) => if greeted && v == u then Some(Left(u)) else None
    case (Owing(u, v, m, first), Wrote(r)) =>
      if r != Reply(cfg, v, m.capabilities, first) then None
      else Some(if m.disconnect then Leaving(u) else Serving(u, true))
    case (Leaving(u), Deregistered(v)) => if v == u then Some(Left(u)) else None
    case (Left(u), Announced(Disconnected(v))) => if v == u then Some(Over) else None
    case _ => None
  }

  ghost function PhaseAfter(cfg: Settings, log: seq<Effect>): Option<Phase> {
    if log == [] then Some(Unknown) else
    var before := PhaseAfter(cfg, log[..|log| - 1]);
    if before.None? then None else Next(cfg, before.value, log[|log| - 1])
  }

  lemma PhaseSnoc(cfg: Settings, log: seq<Effect>, e: Effect)
    ensures PhaseAfter(cfg, log + [e]) ==
      if PhaseAfter(cfg, log).None? then None else Next(cfg, PhaseAfter(cfg, log).value, e)
  {
    assert (log + [e])[..|log|] == log;
  }

  lemma PhaseGoodbye(cfg: Settings, log: seq<Effect>, uid: Option<Uid>)
    requires uid.Some? ==> PhaseAfter(cfg, log) in {Some(Serving(uid.value, true)), Some(Leaving(uid.value))}
    requires uid.None? ==> PhaseAfter(cfg, log) == Some(Unknown)
    ensures PhaseAfter(cfg, log + Goodbye(uid)) == Some(if uid.Some? then Over else Unknown)
  {
    hide PhaseAfter;
    GoodbyeIs(uid);
    if uid.Some? {
      PhaseSnoc(cfg, log, Deregistered(uid.value));
      PhaseSnoc(cfg, log + [Deregistered(uid.value)], Announced(Disconnected(uid.value)));
      assert log + Goodbye(uid) == log + [Deregistered(uid.value)] + [Announced(Disconnected(uid.value))];
    } else {
      assert log + Goodbye(uid) == log;
    }
  }

  /** Other tasks push only commands, and only to a registered connection. */
  ghost predicate Proper(cfg: Settings, arrivals: seq<Arrival>) {
    forall k :: 0 <= k < |arrivals| && arrivals[k].Outgoing? ==>
      IsPush(arrivals[k].msg) && Served(cfg, arrivals[..k]).link.uid.Some?
  }

  lemma ProperPrefix(cfg: Settings, arrivals: seq<Arrival>)
    requires arrivals != [] && Proper(cfg, arrivals)
    ensures Proper(cfg, arrivals[..|arrivals| - 1])
  {
    hide Served;
    var most := arrivals[..|arrivals| - 1];
    forall k | 0 <= k < |most| && most[k].Outgoing?
      ensures IsPush(most[k].msg) && Served(cfg, most[..k]).link.uid.Some?
    {
      assert most[..k] == arrivals[..k] && most[k] == arrivals[k];
    }
  }

  /** The effects of a message's turn. */
  lemma MessageTurn(cfg: Settings, p: Progress, msg: AgentToServer, spare: Uid, writeOk: bool)
    requires Waiting(p.link)
    ensures
      var t := Turn(cfg, p, Incoming(Binary(Some(msg)), spare, writeOk));
      var u := Resolve(msg.instanceUid, spare);
      var uid := if p.link.uid.None? then Some(u) else p.link.uid;
      var heard := p.log + (if p.link.uid.None? then [Registered(u)] else []) + [Announced(Message(u, msg))];
      && t.link.uid == uid
      && t.log == (if !writeOk then heard else
                   heard + [Wrote(Reply(cfg, u, msg.capabilities, p.link.first))] + if msg.disconnect then Goodbye(uid) else [])
      && (!writeOk ==> t.link.pc.Failed?)
      && (writeOk && msg.disconnect ==> t.link.pc.Done?)
      && (writeOk && !msg.disconnect ==> Waiting(t.link) && !t.link.first)
  {
    hide Turn, Heard, Do, Cleanup, Resolve, Reply, Goodbye, Waiting;
    var h := Heard(cfg, p, msg, spare);
    HeardEffects(cfg, p, msg, spare);
    IncomingTurn(cfg, p, msg, spare, writeOk);
    AnsweredEffects(cfg, h);
    TurnSettles(cfg, p, Incoming(Binary(Some(msg)), spare, writeOk));
    if msg.disconnect {
      CleanupEffects(cfg, Do(cfg, h, ServeReply));
    } else {
      NothingToClean(cfg, Do(cfg, h, ServeReply));
    }
  }

  /** The phase agrees with where the loop stands. */
  ghost predicate InPhase(cfg: Settings, p: Progress) {
    var ph := PhaseAfter(cfg, p.log);
    && ph.Some?
    && (Waiting(p.link) ==>
          && (p.link.uid.None? ==> ph.value == Unknown && p.link.first)
          && (p.link.uid.Some? ==> ph.value == Serving(p.link.uid.value, true) && !p.link.first))
    && (p.link.pc.Done? ==> ph.value == if p.link.uid.Some? then Over else Unknown)
  }

  lemma MessageInPhase(cfg: Settings, p: Progress, msg: AgentToServer, spare: Uid, writeOk: bool)
    requires Waiting(p.link) && InPhase(cfg, p)
    ensures InPhase(cfg, Turn(cfg, p, Incoming(Binary(Some(msg)), spare, writeOk)))
  {
    hide Turn, PhaseAfter, Resolve, Reply, Goodbye;
    MessageTurn(cfg, p, msg, spare, writeOk);
    var u := Resolve(msg.instanceUid, spare);
    var uid := if p.link.uid.None? then Some(u) else p.link.uid;
    var registered := p.log + if p.link.uid.None? then [Registered(u)] else [];
    if p.link.uid.None? { PhaseSnoc(cfg, p.log, Registered(u)); } else { assert registered == p.log; }
    var announced := registered + [Announced(Message(u, msg))];
    PhaseSnoc(cfg, registered, Announced(Message(u, msg)));
    var reply := Wrote(Reply(cfg, u, msg.capabilities, p.link.first));
    PhaseSnoc(cfg, announced, reply);
    if msg.disconnect {
      PhaseGoodbye(cfg, announced + [reply], uid);
    } else {
      assert announced + [reply] + [] == announced + [reply];
    }
  }

  lemma OtherInPhase(cfg: Settings, p: Progress, a: Arrival)
    requires Waiting(p.link) && InPhase(cfg, p)
    requires a.Incoming? ==> !(a.frame.Binary? && a.frame.payload.Some?)
    requires a.Outgoing? ==> IsPush(a.msg) && p.link.uid.Some?
    ensures InPhase(cfg, Turn(cfg, p, a))
  {
    hide Turn, PhaseAfter, Goodbye;
    if a.Incoming? {
      OtherFrameEffects(cfg, p, a.frame, a.spare, a.writeOk);
    } else {
      OtherTurnEffects(cfg, p, a);
    }
    PhaseGoodbye(cfg, p.log, p.link.uid);
    assert p.log + [] == p.log;
    if a.Outgoing? { PhaseSnoc(cfg, p.log, Wrote(a.msg)); }
  }

  /** On every run of the loop the effects come in the order that `Next` allows. */
  lemma {:induction false} EffectsInOrder(cfg: Settings, arrivals: seq<Arrival>)
    requires Proper(cfg, arrivals)
    ensures InPhase(cfg, Served(cfg, arrivals))
  {
    hide Turn, InPhase, Waiting;
    if arrivals == [] {
      NothingInPhase(cfg);
    } else {
      var most, a := arrivals[..|arrivals| - 1], arrivals[|arrivals| - 1];
      ProperPrefix(cfg, arrivals);
      EffectsInOrder(cfg, most);
      var p := Served(cfg, most);
      if !Returned(p.link) {
        if a.Incoming? && a.frame.Binary? && a.frame.payload.Some? {
          MessageInPhase(cfg, p, a.frame.payload.value, a.spare, a.writeOk);
        } else {
          OtherInPhase(cfg, p, a);
        }
      }
    }
  }

  lemma NothingInPhase(cfg: Settings)
    ensures InPhase(cfg, Served(cfg, []))
  {
  }

  // ----- the registry entry -----------------------------------------------------------------------

  /**
   * The connection's entry is in the registry under its UID from its first message until it leaves
   * the loop by `break`; an error exit leaves it there. Nothing else in the registry changes.
   */
  ghost predicate EntryIs(p: Progress, senders: map<Uid, PushChannel>, after: map<Uid, PushChannel>, tx: PushChannel) {
    after == (if p.link.uid.None? then senders
              else if p.link.pc.Done? then senders - {p.link.uid.value}
              else senders[p.link.uid.value := tx])
  }

  lemma SendersGoodbye(senders: map<Uid, PushChannel>, log: seq<Effect>, uid: Option<Uid>, tx: PushChannel)
    ensures SendersAfter(senders, log + Goodbye(uid), tx) ==
      var before := SendersAfter(senders, log, tx);
      if uid.Some? then before - {uid.value} else before
  {
    hide SendersAfter;
    GoodbyeIs(uid);
    if uid.Some? {
      SendersSnoc(senders, log, Deregistered(uid.value), tx);
      SendersSnoc(senders, log + [Deregistered(uid.value)], Announced(Disconnected(uid.value)), tx);
      assert log + Goodbye(uid) == log + [Deregistered(uid.value)] + [Announced(Disconnected(uid.value))];
    } else {
      assert log + Goodbye(uid) == log;
    }
  }

  lemma MessageEntry(cfg: Settings, p: Progress, msg: AgentToServer, spare: Uid, writeOk: bool,
                     senders: map<Uid, PushChannel>, tx: PushChannel)
    requires Waiting(p.link) && EntryIs(p, senders, SendersAfter(senders, p.log, tx), tx)
    ensures var t := Turn(cfg, p, Incoming(Binary(Some(msg)), spare, writeOk));
      EntryIs(t, senders, SendersAfter(senders, t.log, tx), tx)
  {
    hide Turn, SendersAfter, Resolve, Reply, Goodbye;
    MessageTurn(cfg, p, msg, spare, writeOk);
    var u := Resolve(msg.instanceUid, spare);
    var uid := if p.link.uid.None? then Some(u) else p.link.uid;
    var registered := p.log + if p.link.uid.None? then [Registered(u)] else [];
    if p.link.uid.None? { SendersSnoc(senders, p.log, Registered(u), tx); } else { assert registered == p.log; }
    var announced := registered + [Announced(Message(u, msg))];
    SendersSnoc(senders, registered, Announced(Message(u, msg)), tx);
    var reply := Wrote(Reply(cfg, u, msg.capabilities, p.link.first));
    SendersSnoc(senders, announced, reply, tx);
    SendersGoodbye(senders, announced + [reply], uid, tx);
    assert announced + [reply] + [] == announced + [reply];
  }

  lemma OtherEntry(cfg: Settings, p: Progress, a: Arrival, senders: map<Uid, PushChannel>, tx: PushChannel)
    requires Waiting(p.link) && EntryIs(p, senders, SendersAfter(senders, p.log, tx), tx)
    requires a.Incoming? ==> !(a.frame.Binary? && a.frame.payload.Some?)
    ensures var t := Turn(cfg, p, a);
      EntryIs(t, senders, SendersAfter(senders, t.log, tx), tx)
  {
    hide Turn, SendersAfter, Goodbye;
    if a.Incoming? {
      OtherFrameEffects(cfg, p, a.frame, a.spare, a.writeOk);
    } else {
      OtherTurnEffects(cfg, p, a);
    }
    SendersGoodbye(senders, p.log, p.link.uid, tx);
    assert p.log + [] == p.log;
    if a.Outgoing? { SendersSnoc(senders, p.log, Wrote(a.msg), tx); }
  }

  lemma {:induction false} ServedEntry(cfg: Settings, arrivals: seq<Arrival>, senders: map<Uid, PushChannel>, tx: PushChannel)
    ensures EntryIs(Served(cfg, arrivals), senders, SendersAfter(senders, Served(cfg, arrivals).log, tx), tx)
  {
    hide Turn, EntryIs, Waiting, SendersAfter;
    if arrivals == [] {
      NothingEntered(cfg, senders, tx);
    } else {
      var most, a := arrivals[..|arrivals| - 1], arrivals[|arrivals| - 1];
      ServedEntry(cfg, most, senders, tx);
      var p := Served(cfg, most);
      if !Returned(p.link) {
        if a.Incoming? && a.frame.Binary? && a.frame.payload.Some? {
          MessageEntry(cfg, p, a.frame.payload.value, a.spare, a.writeOk, senders, tx);
        } else {
          OtherEntry(cfg, p, a, senders, tx);
        }
      }
    }
  }

  // ----- when the loop ends ----------------------------------------------------------------------

  /** A close frame, the end of the stream, or a last message that was answered. */
  predicate Leaves(a: Arrival) {
    || a.StreamEnd?
    || (a.Incoming? && a.frame.Close?)
    || (a.Incoming? && a.frame.Binary? && a.frame.payload.Some? && a.frame.payload.value.disconnect && a.writeOk)
  }

  /** A read error, or a reply, a pong or a push that cannot be written. */
  predicate Fails(a: Arrival) {
    || a.ReadError?
    || (a.Outgoing? && !a.writeOk)
    || (a.Incoming? && a.frame.Ping? && !a.writeOk)
    || (a.Incoming? && a.frame.Binary? && a.frame.payload.Some? && !a.writeOk)
  }

  /** Arrival k is the first that ends the loop. */
  ghost predicate EndsAt(arrivals: seq<Arrival>, k: nat) {
    && k < |arrivals| && (Leaves(arrivals[k]) || Fails(arrivals[k]))
    && forall j :: 0 <= j < k ==> !Leaves(arrivals[j]) && !Fails(arrivals[j])
  }

  lemma OneEnd(arrivals: seq<Arrival>, j: nat, k: nat)
    requires EndsAt(arrivals, j) && EndsAt(arrivals, k)
    ensures j == k
  {
  }

  lemma EndStays(most: seq<Arrival>, a: Arrival, k: nat)
    requires EndsAt(most, k)
    ensures EndsAt(most + [a], k) && (most + [a])[k] == most[k]
  {
    hide Leaves, Fails;
  }

  lemma TurnEnds(cfg: Settings, p: Progress, a: Arrival)
    requires Waiting(p.link)
    ensures
      var t := Turn(cfg, p, a);
      && (t.link.pc.Done? <==> Leaves(a)) && (t.link.pc.Failed? <==> Fails(a))
      && (Waiting(t.link) <==> !Leaves(a) && !Fails(a))
  {
    hide Turn, Resolve, Reply, Goodbye;
    if a.Incoming? && a.frame.Binary? && a.frame.payload.Some? {
      MessageTurn(cfg, p, a.frame.payload.value, a.spare, a.writeOk);
    } else if a.Incoming? {
      OtherFrameEffects(cfg, p, a.frame, a.spare, a.writeOk);
    } else {
      OtherTurnEffects(cfg, p, a);
    }
  }

  /**
   * By what arrived alone: the loop has returned `Ok`, with its cleanup done, exactly if the first
   * arrival that ends it leaves it; it has returned an error exactly if that one fails; and it
   * still waits exactly if there is none.
   */
  lemma {:induction false} LoopEnds(cfg: Settings, arrivals: seq<Arrival>)
    ensures
      var l := Served(cfg, arrivals).link;
      && (l.pc.Done? <==> exists k: nat :: EndsAt(arrivals, k) && Leaves(arrivals[k]))
      && (l.pc.Failed? <==> exists k: nat :: EndsAt(arrivals, k) && Fails(arrivals[k]))
      && (Waiting(l) <==> forall k :: 0 <= k < |arrivals| ==> !Leaves(arrivals[k]) && !Fails(arrivals[k]))
  {
    hide Turn, Leaves, Fails;
    if arrivals != [] {
      var n: nat := |arrivals| - 1;
      var most, a := arrivals[..n], arrivals[n];
      LoopEnds(cfg, most);
      assert arrivals == most + [a];
      var p := Served(cfg, most);
      if Returned(p.link) {
        var k: nat :| EndsAt(most, k);
        EndStays(most, a, k);
        forall j: nat | EndsAt(arrivals, j) ensures j == k { OneEnd(arrivals, j, k); }
        NotBoth(most[k]);
      } else {
        TurnEnds(cfg, p, a);
        assert forall j :: 0 <= j < n ==> arrivals[j] == most[j];
        NotBoth(a);
      }
    }
  }

  lemma NotBoth(a: Arrival)
    ensures !(Leaves(a) && Fails(a))
  {
  }

  /**
   * A command to a connection, wherever its `serve` stands: delivered while the loop runs, refused
   * as not connected after a clean exit, and refused by the dropped receiver when an error exit
   * left the entry behind.
   */
  method CommandAfterServe(cfg: Settings, handle: ServerHandle, arrivals: seq<Arrival>, msg: ServerToAgent)
    returns (uid: Option<Uid>, exit: Exit, r: Option<SendResult<()>>)
    modifies handle.registry
    ensures uid == Served(cfg, arrivals).link.uid && (uid.Some? <==> r.Some?)
    ensures uid.Some? ==> (r.value.Sent? <==> exit.Running?)
    ensures uid.Some? ==> (r.value.NotConnected? <==> exit.Finished?)
    ensures uid.Some? ==> (r.value.ChannelFull? <==> exit.Errored?)
    ensures uid.Some? ==> (exit.Errored? <==> Leaked(Served(cfg, arrivals).link))
  {
    hide Served, SendersAfter;
    ghost var before := handle.registry.senders;
    var tx, log;
    tx, uid, log, exit := Serve(cfg, handle.registry, arrivals);
    ServedEntry(cfg, arrivals, before, tx);
    SettledChannel(Served(cfg, arrivals).link);
    r := None;
    if uid.Some? {
      var answer := handle.Push(uid.value, msg);
      r := Some(answer);
    }
  }

  lemma NothingEntered(cfg: Settings, senders: map<Uid, PushChannel>, tx: PushChannel)
    ensures EntryIs(Served(cfg, []), senders, SendersAfter(senders, Served(cfg, []).log, tx), tx)
  {
  }

  // ----- the loop is a run of the step machine ----------------------------------------------------------

  lemma CleanupInv(cfg: Settings, p: Progress)
    requires LinkInv(cfg, p.link) && (p.link.pc.Deregistering? ==> p.link.uid.Some?)
    ensures LinkInv(cfg, Cleanup(cfg, p).link)
  {
    hide LinkInv, EffectOf;
    if p.link.pc.Deregistering? {
      LinkStepInv(cfg, p.link, ServeDeregister);
      LinkStepInv(cfg, LinkStep(cfg, p.link, ServeDeregister), ServeAnnounce);
    }
  }

  lemma IncomingInv(cfg: Settings, p: Progress, a: Arrival)
    requires Waiting(p.link) && LinkInv(cfg, p.link) && a.Incoming?
    ensures LinkInv(cfg, Turn(cfg, p, a).link)
  {
    hide LinkInv, Reply, Resolve, EffectOf, Cleanup;
    LinkStepInv(cfg, p.link, ForeignSend(a.frame));
    var sent := LinkStep(cfg, p.link, ForeignSend(a.frame));
    LinkStepInv(cfg, sent, ServeTake(a.spare));
    var taken := Do(cfg, p.(link := sent), ServeTake(a.spare));
    if taken.link.pc.Emitting? {
      LinkStepInv(cfg, taken.link, ServeEmit);
      var announced := Do(cfg, taken, ServeEmit);
      if a.writeOk {
        LinkStepInv(cfg, announced.link, ServeReply);
        CleanupInv(cfg, Do(cfg, announced, ServeReply));
      } else {
        LinkStepInv(cfg, announced.link, ServeFail(false));
      }
    } else if a.frame.Ping? && !a.writeOk {
      LinkStepInv(cfg, taken.link, ServeFail(false));
    } else {
      CleanupInv(cfg, taken);
    }
  }

  lemma TurnInv(cfg: Settings, p: Progress, a: Arrival)
    requires Waiting(p.link) && LinkInv(cfg, p.link)
    requires a.Outgoing? ==> IsPush(a.msg) && p.link.uid.Some?
    ensures LinkInv(cfg, Turn(cfg, p, a).link)
  {
    hide LinkInv, Reply, Resolve, EffectOf, Cleanup;
    match a
    case Incoming(_, _, _) => IncomingInv(cfg, p, a);
    case Outgoing(msg, writeOk) =>
      PushedInv(cfg, p.link, msg);
      LinkStepInv(cfg, Pushed(p.link, msg), if writeOk then ServePush else ServeFail(true));
    case StreamEnd =>
      LinkStepInv(cfg, p.link, PeerClose);
      var closed := LinkStep(cfg, p.link, PeerClose);
      LinkStepInv(cfg, closed, ServeClosed);
      CleanupInv(cfg, Do(cfg, p.(link := closed), ServeClosed));
    case ReadError => LinkStepInv(cfg, p.link, ServeFail(false));
  }

  /** The wire discipline that `Link` proves for any interleaving of steps holds of the loop. */
  lemma {:induction false} ServedInv(cfg: Settings, arrivals: seq<Arrival>)
    requires Proper(cfg, arrivals)
    ensures LinkInv(cfg, Served(cfg, arrivals).link)
  {
    hide Turn, LinkInv, Waiting;
    if arrivals == [] {
      OpenedInv(cfg, Foreign);
    } else {
      ProperPrefix(cfg, arrivals);
      ServedInv(cfg, arrivals[..|arrivals| - 1]);
      var p := Served(cfg, arrivals[..|arrivals| - 1]);
      if !Returned(p.link) {
        TurnInv(cfg, p, arrivals[|arrivals| - 1]);
      }
    }
  }
}
