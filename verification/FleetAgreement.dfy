/**
 * Agreement between the copies of the fleet - registry, translator, UI, open connections.
 * First for one connection whose UID no other connection uses, whatever the others do; then for
 * fleets in which every connection speaks under one UID of its own.
 */
module FleetAgreement {
  import opened Prelude
  import opened Opamp
  import opened AgentRecord
  import opened MockAgent
  import opened Translate
  import opened Link
  import opened Fleet
  import opened FleetRegistry

  // ----- whose events they are --------------------------------------------------------------------------

  /** The connection has announced nothing under u. */
  ghost predicate Silent(l: Link, u: Uid) {
    forall k :: 0 <= k < |l.emitted| ==> l.emitted[k].uid != u
  }

  /** The connection has registered and announced nothing but under u. */
  ghost predicate Mine(l: Link, u: Uid) {
    && (l.uid.Some? ==> l.uid.value == u)
    && forall k :: 0 <= k < |l.emitted| ==> l.emitted[k].uid == u
  }

  /** No connection but i, open or closed, has announced anything under u. */
  ghost predicate Unshared(s: State, i: nat, u: Uid) {
    forall j :: 0 <= j < |s.links| && j != i ==> Silent(s.links[j], u)
  }

  ghost function EmittedBy(s: State, i: nat, u: Uid): seq<OpampEvent> {
    if i < |s.links| then EventsOf(s.links[i].emitted, u) else []
  }

  lemma StepEmits(cfg: Settings, l: Link, step: LinkAction)
    requires CanStep(l, step)
    ensures LinkStep(cfg, l, step).emitted == l.emitted + if Emits(step) then [EventOf(l, step)] else []
  {
    hide Reply, FullStatus, HealthReport, ConfigApplied, Answer, Received, Resolve;
  }

  lemma SilentPrefix(l: Link, l': Link, u: Uid)
    requires l.emitted <= l'.emitted && Silent(l', u)
    ensures Silent(l, u)
  {
    forall k | 0 <= k < |l.emitted| ensures l.emitted[k].uid != u {
      assert l'.emitted[k] == l.emitted[k];
    }
  }

  lemma SilentLast(l: Link, before: seq<OpampEvent>, e: OpampEvent, u: Uid)
    requires Silent(l, u) && l.emitted == before + [e]
    ensures e.uid != u
  {
    assert l.emitted[|before|] == e;
  }

  lemma UnsharedLink(cfg: Settings, s: State, k: nat, step: LinkAction, i: nat, u: Uid)
    requires Enabled(s, OnLink(k, step)) && Unshared(Apply(cfg, s, OnLink(k, step)), i, u)
    ensures Unshared(s, i, u)
    ensures
      var s' := Apply(cfg, s, OnLink(k, step));
      EventsOf(s.events.sent, u) == EmittedBy(s, i, u) ==> EventsOf(s'.events.sent, u) == EmittedBy(s', i, u)
  {
    hide LinkStep, CanStep, RegistryAfter, EventsOf, Silent;
    var s' := Apply(cfg, s, OnLink(k, step));
    StepEmits(cfg, s.links[k], step);
    forall j | 0 <= j < |s.links| && j != i ensures Silent(s.links[j], u) {
      SilentPrefix(s.links[j], s'.links[j], u);
    }
    if Emits(step) {
      var e := EventOf(s.links[k], step);
      EventsOfSnoc(s.events.sent, e, u);
      EventsOfSnoc(s.links[k].emitted, e, u);
      if k != i { SilentLast(s'.links[k], s.links[k].emitted, e, u); }
    } else {
      assert s.links[k].emitted + [] == s.links[k].emitted;
    }
  }

  lemma UnsharedElsewhere(s: State, s': State, i: nat, u: Uid)
    requires s'.events.sent == s.events.sent && |s.links| <= |s'.links|
    requires forall j :: 0 <= j < |s.links| ==> s'.links[j].emitted == s.links[j].emitted
    requires forall j :: |s.links| <= j < |s'.links| ==> s'.links[j].emitted == []
    requires Unshared(s', i, u)
    ensures Unshared(s, i, u) && EmittedBy(s', i, u) == EmittedBy(s, i, u)
  {
    forall j | 0 <= j < |s.links| && j != i ensures Silent(s.links[j], u) {
      SilentPrefix(s.links[j], s'.links[j], u);
    }
  }

  lemma UnsharedStep(cfg: Settings, s: State, a: Action, i: nat, u: Uid)
    requires Enabled(s, a) && Unshared(Apply(cfg, s, a), i, u)
    ensures Unshared(s, i, u)
    ensures
      var s' := Apply(cfg, s, a);
      EventsOf(s.events.sent, u) == EmittedBy(s, i, u) ==> EventsOf(s'.events.sent, u) == EmittedBy(s', i, u)
  {
    hide LinkStep, CanStep, RegistryAfter, Merge, UidText, ConfigOffer, RestartOrder, EventsOf, Unshared, EmittedBy;
    if a.OnLink? {
      UnsharedLink(cfg, s, a.i, a.step, i, u);
    } else {
      UnsharedElsewhere(s, Apply(cfg, s, a), i, u);
    }
  }

  /** While no other connection uses u, the events under u are those of connection i, in its order. */
  lemma {:induction false} EventsAreOwn(cfg: Settings, acts: seq<Action>, i: nat, u: Uid)
    requires Run(cfg, acts).Some? && Unshared(Run(cfg, acts).value, i, u)
    ensures EventsOf(Run(cfg, acts).value.events.sent, u) == EmittedBy(Run(cfg, acts).value, i, u)
  {
    hide Enabled, Apply, Unshared;
    if acts != [] {
      UnsharedStep(cfg, Run(cfg, acts[..|acts| - 1]).value, acts[|acts| - 1], i, u);
      EventsAreOwn(cfg, acts[..|acts| - 1], i, u);
    }
  }

  lemma {:induction false} AllOfMine(events: seq<OpampEvent>, u: Uid)
    requires forall k :: 0 <= k < |events| ==> events[k].uid == u
    ensures EventsOf(events, u) == events
  {
    if events != [] { AllOfMine(events[..|events| - 1], u); }
  }

  lemma ReadIsPrefix(l: Link)
    requires l.up.Valid()
    ensures Read(l) <= Decoded(l.up.sent)
  {
    DecodedPrefix(l.up.sent, l.up.taken);
  }

  // ----- what the event log says about one connection ---------------------------------------------------

  /** The connection said goodbye: cleanup ran to its end. */
  predicate SaidGoodbye(l: Link) {
    l.pc.Done? && l.uid.Some?
  }

  lemma {:induction false} SinceOfMessages(events: seq<OpampEvent>, u: Uid)
    requires forall k :: 0 <= k < |events| ==> events[k].Message? && events[k].uid == u
    ensures |Since(events, u)| == |events|
    ensures forall k :: 0 <= k < |events| ==> Since(events, u)[k] == events[k].msg
  {
    if events != [] { SinceOfMessages(events[..|events| - 1], u); }
  }

  /**
   * Up to any point of its events a connection's messages since the last disconnect are the
   * first ones it was read - or none, once it said goodbye.
   */
  lemma SinceOfConnection(cfg: Settings, l: Link, u: Uid, events: seq<OpampEvent>)
    requires LinkInv(cfg, l) && Mine(l, u) && events <= l.emitted
    ensures l.up.Valid()
    ensures SaidGoodbye(l) && |events| == |l.emitted| ==> Since(events, u) == []
    ensures !(SaidGoodbye(l) && |events| == |l.emitted|) ==>
      |events| <= |Read(l)| && Since(events, u) == Read(l)[..|events|]
  {
    hide Decoded, Filter, RepliesFollowReads, PcFollowsReads;
    if SaidGoodbye(l) && |events| == |l.emitted| {
      assert events == l.emitted && events[|events| - 1] == Disconnected(u);
    } else {
      forall k | 0 <= k < |events| ensures events[k].Message? && events[k].uid == u && events[k].msg == Read(l)[k] {
        assert events[k] == l.emitted[k];
      }
      SinceOfMessages(events, u);
    }
  }

  // ----- one connection -----------------------------------------------------------------------------------

  /** What the translator and the UI will hold once every event has been consumed. */
  ghost function Drained(s: State): Translator {
    Translated(s.events.sent)
  }

  /** Between a change of the registry and the event that tells of it. */
  predicate InBetween(l: Link) {
    l.pc.Announcing? || (l.pc.Emitting? && l.emitted == [])
  }

  /**
   * The other copies of the fleet under one connection's UID, at any moment, as long as no other
   * connection registers or announces under it. Nothing is assumed of the other connections'
   * own UIDs.
   */
  lemma CopiesOfConnection(cfg: Settings, acts: seq<Action>, i: nat, u: Uid)
    requires Run(cfg, acts).Some? && i < |Run(cfg, acts).value.links|
    requires Mine(Run(cfg, acts).value.links[i], u)
    requires Unshared(Run(cfg, acts).value, i, u) && Sole(Run(cfg, acts).value, i, u)
    ensures
      var s := Run(cfg, acts).value;
      var l := s.links[i];
      && (u in s.registry <==> Live(l) || Leaked(l))
      && (u in s.registry ==> s.registry[u] == i)
      && (u in Drained(s).details <==> l.emitted != [] && !SaidGoodbye(l))
      && (UidText(u) in Drained(s).uids <==> u in Drained(s).details)
  {
    hide Inv, UidText, EventsOf, LinkInv, Sole, Unshared, Run;
    RunInv(cfg, acts);
    var s := Run(cfg, acts).value;
    var l := s.links[i];
    InvOfLink(cfg, s, i);
    SoleEntry(cfg, acts, i, u);
    EventsAreOwn(cfg, acts, i, u);
    AllOfMine(l.emitted, u);
    SinceSeesOwnEvents(s.events.sent, u);
    RecordIsFold(s.events.sent, u);
    SinceOfConnection(cfg, l, u, l.emitted);
    assert l.emitted != [] && !SaidGoodbye(l) ==> |Since(l.emitted, u)| == |l.emitted|;
    TranslatedValid(s.events.sent);
    if UidText(u) in Drained(s).uids {
      UidTextInjective(u, Drained(s).uids[UidText(u)]);
    }
    PcCases(l);
  }

  lemma PcCases(l: Link)
    ensures HoldsEntry(l) && l.uid.Some? <==> Live(l) || Leaked(l)
  {
  }

  lemma InvOfLink(cfg: Settings, s: State, i: nat)
    requires Inv(cfg, s) && i < |s.links|
    ensures LinkInv(cfg, s.links[i]) && MockInv(cfg, s.links[i]) && s.links[i].up.Valid()
  {
    LinkInvChannels(cfg, s.links[i]);
  }

  /** Once a connection is identified, its first message becomes an event before anything else. */
  lemma EmitsFirst(cfg: Settings, l: Link)
    requires LinkInv(cfg, l) && l.uid.Some? && !l.pc.Emitting?
    ensures l.emitted != []
  {
    hide Decoded, Filter, RepliesFollowReads;
  }

  lemma UnidentifiedIsSilent(cfg: Settings, l: Link)
    requires LinkInv(cfg, l) && l.uid.None?
    ensures l.emitted == []
  {
    hide Decoded, Filter, RepliesFollowReads;
  }

  /** The three copies of one connection agree, outside the gap between two effects and error exits. */
  lemma ConnectionAgrees(cfg: Settings, acts: seq<Action>, i: nat, u: Uid)
    requires Run(cfg, acts).Some? && i < |Run(cfg, acts).value.links|
    requires Mine(Run(cfg, acts).value.links[i], u)
    requires Unshared(Run(cfg, acts).value, i, u) && Sole(Run(cfg, acts).value, i, u)
    requires !InBetween(Run(cfg, acts).value.links[i])
    ensures
      var s := Run(cfg, acts).value;
      var l := s.links[i];
      && (u in s.registry <==> Live(l) || Leaked(l))
      && (u in Drained(s).details <==> Live(l) || Leaked(l))
      && (UidText(u) in Drained(s).uids <==> Live(l) || Leaked(l))
  {
    hide Inv, UidText, LinkInv, Sole, Unshared, Run, Mine;
    RunInv(cfg, acts);
    var s := Run(cfg, acts).value;
    InvOfLink(cfg, s, i);
    CopiesOfConnection(cfg, acts, i, u);
    if s.links[i].uid.None? {
      UnidentifiedIsSilent(cfg, s.links[i]);
    } else if !s.links[i].pc.Emitting? {
      EmitsFirst(cfg, s.links[i]);
    }
  }

  // ----- draining the queues into the UI ---------------------------------------------------------------------

  /** What `translate` will send for these events. */
  ghost function Outputs(t: Translator, events: seq<OpampEvent>): seq<ControlEvent>
    decreases |events|
  {
    if events == [] then []
    else [t.Step(events[0]).Output(events[0])] + Outputs(t.Step(events[0]), events[1..])
  }

  /** The UI's agent map once everything queued has been translated and applied. */
  ghost function DrainedAgents(s: State): map<string, AgentDetail>
    requires s.control.Valid() && s.events.Valid()
  {
    Fold(ApplyControl, s.agents,
         s.control.sent[s.control.taken..] + OutboxSeq(s) + Outputs(s.translator, s.events.sent[s.events.taken..]))
  }

  lemma {:induction false} OutputsPublish(t: Translator, events: seq<OpampEvent>, log: seq<OpampEvent>)
    requires t == Translated(log)
    ensures t.Valid() && Translated(log + events).Valid()
    ensures Fold(ApplyControl, t.Published(), Outputs(t, events)) == Translated(log + events).Published()
    decreases |events|
  {
    hide Translated, Fold, ApplyControl, UidText, Merge, NewDetail, Translator.Published;
    TranslatedValid(log);
    if events == [] {
      assert log + events == log;
      NothingFolded(t.Published());
    } else {
      var e := events[0];
      TranslatedSnoc(log, e);
      PublishStep(t, e);
      assert log + events == (log + [e]) + events[1..];
      OutputsPublish(t.Step(e), events[1..], log + [e]);
      FoldConcat(ApplyControl, t.Published(), [t.Step(e).Output(e)], Outputs(t.Step(e), events[1..]));
      FoldOne(t.Published(), t.Step(e).Output(e));
    }
  }

  lemma NothingFolded(agents: map<string, AgentDetail>)
    ensures Fold(ApplyControl, agents, []) == agents
  {
  }

  lemma FoldOne(agents: map<string, AgentDetail>, e: ControlEvent)
    ensures Fold(ApplyControl, agents, [e]) == ApplyControl(agents, e)
  {
    NothingFolded(agents);
    FoldSnoc(ApplyControl, agents, [], e);
    assert [] + [e] == [e];
  }

  /** Drained, the UI publishes the drained translator: the queues lose and invent nothing. */
  lemma DrainedUi(cfg: Settings, s: State)
    requires Inv(cfg, s)
    ensures s.control.Valid() && s.events.Valid() && Drained(s).Valid()
    ensures DrainedAgents(s) == Drained(s).Published()
    ensures DrainedAgents(s).Keys == Drained(s).uids.Keys
  {
    hide LinksInv, Routing, Showing, Translated, ControlOf, Fold, Outputs, Filter;
    QueueCommutes(cfg, s);
    var taken, rest := s.events.sent[..s.events.taken], s.events.sent[s.events.taken..];
    assert taken + rest == s.events.sent;
    OutputsPublish(s.translator, rest, taken);
    FoldConcat(ApplyControl, s.agents, s.control.sent[s.control.taken..] + OutboxSeq(s), Outputs(s.translator, rest));
  }

  // ----- fleets with one UID per connection --------------------------------------------------------------------

  ghost predicate Distinct(ids: seq<Uid>) {
    forall i, j :: 0 <= i < j < |ids| ==> ids[i] != ids[j]
  }

  ghost predicate Speaks(l: Link, u: Uid) {
    forall j :: 0 <= j < |Decoded(l.up.sent)| ==> Decoded(l.up.sent)[j].instanceUid == u
  }

  /** Connection i carries the one UID ids[i], and no other connection carries it. */
  ghost predicate Disciplined(s: State, ids: seq<Uid>) {
    && |s.links| <= |ids| && Distinct(ids)
    && forall i :: 0 <= i < |s.links| ==> Speaks(s.links[i], ids[i])
  }

  lemma SpeaksIsMine(cfg: Settings, l: Link, u: Uid)
    requires LinkInv(cfg, l) && Speaks(l, u)
    ensures Mine(l, u)
  {
    hide Decoded, Filter, RepliesFollowReads;
    ReadIsPrefix(l);
    var d := Read(l);
    assert forall j :: 0 <= j < |d| ==> d[j] == Decoded(l.up.sent)[j] && d[j].instanceUid == u;
    assert l.uid.Some? ==> d != [];
  }

  lemma MineElsewhere(l: Link, u: Uid, v: Uid)
    requires Mine(l, u) && u != v
    ensures Silent(l, v) && l.uid != Some(v)
  {
  }

  /** In such a fleet every connection meets the conditions of the results on one connection. */
  lemma DisciplinedIsLocal(cfg: Settings, s: State, ids: seq<Uid>, i: nat)
    requires Inv(cfg, s) && Disciplined(s, ids) && i < |ids|
    ensures Unshared(s, i, ids[i]) && Sole(s, i, ids[i]) && (i < |s.links| ==> Mine(s.links[i], ids[i]))
  {
    hide Inv, LinkInv, MockInv, Speaks, Mine, Silent;
    forall j | 0 <= j < |s.links| ensures Mine(s.links[j], ids[j]) {
      InvOfLink(cfg, s, j);
      SpeaksIsMine(cfg, s.links[j], ids[j]);
    }
    forall j | 0 <= j < |s.links| && j != i ensures Silent(s.links[j], ids[i]) && s.links[j].uid != Some(ids[i]) {
      assert ids[j] != ids[i];
      MineElsewhere(s.links[j], ids[j], ids[i]);
    }
  }

  /** No copy of the fleet holds a UID that no connection speaks under. */
  lemma OnlyOwnUids(cfg: Settings, acts: seq<Action>, ids: seq<Uid>, u: Uid)
    requires Run(cfg, acts).Some? && Disciplined(Run(cfg, acts).value, ids)
    requires u in Run(cfg, acts).value.registry || u in Drained(Run(cfg, acts).value).details
    ensures exists i :: 0 <= i < |Run(cfg, acts).value.links| && ids[i] == u
  {
    hide Inv, LinkInv, UidText, Run, Mine, Silent, EventsOf, Since, Disciplined;
    RunInv(cfg, acts);
    var s := Run(cfg, acts).value;
    var n := |s.links|;
    DisciplinedSize(s, ids);
    if forall i :: 0 <= i < n ==> ids[i] != u {
      forall j | 0 <= j < n ensures Silent(s.links[j], u) && s.links[j].uid != Some(u) {
        DisciplinedIsLocal(cfg, s, ids, j);
        MineElsewhere(s.links[j], ids[j], u);
      }
      SoleEntry(cfg, acts, n, u);
      EventsAreOwn(cfg, acts, n, u);
      SinceSeesOwnEvents(s.events.sent, u);
      RecordIsFold(s.events.sent, u);
      NothingSince(u);
    }
  }

  lemma DisciplinedSize(s: State, ids: seq<Uid>)
    requires Disciplined(s, ids)
    ensures |s.links| <= |ids|
  {
  }

  lemma NothingSince(u: Uid)
    ensures Since([], u) == []
  {
  }

  /**
   * Fleet agreement: outside the gap between a registry change and its event, and without error
   * exits, the registry, the drained translator, the drained UI and the live connections agree on
   * every UID; and they hold no other.
   */
  lemma FleetAgrees(cfg: Settings, acts: seq<Action>, ids: seq<Uid>)
    requires Run(cfg, acts).Some? && Disciplined(Run(cfg, acts).value, ids)
    ensures
      var s := Run(cfg, acts).value;
      && s.control.Valid() && s.events.Valid()
      && (forall i :: 0 <= i < |s.links| && !InBetween(s.links[i]) && !s.links[i].pc.Failed? ==>
            && (ids[i] in s.registry <==> Live(s.links[i]))
            && (ids[i] in Drained(s).details <==> Live(s.links[i]))
            && (UidText(ids[i]) in Drained(s).uids <==> Live(s.links[i]))
            && (UidText(ids[i]) in DrainedAgents(s) <==> Live(s.links[i])))
      && (forall u :: u in s.registry || u in Drained(s).details ==> exists i :: 0 <= i < |s.links| && ids[i] == u)
      && (forall t :: t in DrainedAgents(s) ==> exists i :: 0 <= i < |s.links| && UidText(ids[i]) == t)
  {
    hide Inv, Disciplined, UidText, Run, Translated, DrainedAgents, Mine, Unshared, Sole;
    var s := Run(cfg, acts).value;
    RunInv(cfg, acts);
    DisciplinedSize(s, ids);
    DrainedUi(cfg, s);
    forall i | 0 <= i < |s.links| && !InBetween(s.links[i]) && !s.links[i].pc.Failed?
      ensures ids[i] in s.registry <==> Live(s.links[i])
      ensures ids[i] in Drained(s).details <==> Live(s.links[i])
      ensures UidText(ids[i]) in Drained(s).uids <==> Live(s.links[i])
    {
      DisciplinedIsLocal(cfg, s, ids, i);
      ConnectionAgrees(cfg, acts, i, ids[i]);
    }
    forall u | u in s.registry || u in Drained(s).details ensures exists i :: 0 <= i < |s.links| && ids[i] == u {
      OnlyOwnUids(cfg, acts, ids, u);
    }
    forall t | t in DrainedAgents(s) ensures exists i :: 0 <= i < |s.links| && UidText(ids[i]) == t {
      OnlyOwnUids(cfg, acts, ids, Drained(s).uids[t]);
    }
  }

  /** Nothing on its way: no event, no control event, no command, and no serve task mid-frame or in cleanup. */
  ghost predicate HubQuiet(s: State) {
    && s.events.Empty() && s.outbox.None? && s.control.Empty() && s.ui.Ready?
    && forall i :: 0 <= i < |s.links| ==> s.links[i].pc.Idle? || s.links[i].pc.Done? || s.links[i].pc.Failed?
  }

  lemma QuietUi(cfg: Settings, s: State)
    requires Inv(cfg, s) && HubQuiet(s)
    ensures Seen(s) == |s.events.sent| && Translated(s.events.sent).Valid()
    ensures s.translator == Drained(s) && s.agents == s.translator.Published()
  {
    hide Filter, LinksInv, Routing, Translated;
    assert s.control.sent[..s.control.taken] == s.control.sent;
    assert s.events.sent[..s.events.taken] == s.events.sent;
    assert Filter(FromAgents, s.control.sent) == ControlOf(s.events.sent);
    UiShowsPrefix(cfg, s);
    assert s.events.sent[..Seen(s)] == s.events.sent;
  }

  ghost predicate UiIsLiveFleet(s: State, ids: seq<Uid>)
    requires |s.links| <= |ids|
  {
    forall t :: t in s.agents <==> exists i :: 0 <= i < |s.links| && Live(s.links[i]) && UidText(ids[i]) == t
  }

  /**
   * The exact condition: with nothing in flight, the UI lists exactly the live connections if
   * and only if no identified connection left through an error exit.
   */
  lemma UiAgreesUnlessLeaked(cfg: Settings, acts: seq<Action>, ids: seq<Uid>)
    requires Run(cfg, acts).Some? && Disciplined(Run(cfg, acts).value, ids) && HubQuiet(Run(cfg, acts).value)
    ensures
      var s := Run(cfg, acts).value;
      UiIsLiveFleet(s, ids) <==> forall i :: 0 <= i < |s.links| ==> !Leaked(s.links[i])
  {
    hide Inv, UidText, Speaks, Translated, Run, Mine, Unshared, Sole;
    var s := Run(cfg, acts).value;
    RunInv(cfg, acts);
    QuietUi(cfg, s);
    forall i | 0 <= i < |s.links| ensures UidText(ids[i]) in s.agents <==> Live(s.links[i]) || Leaked(s.links[i]) {
      DisciplinedIsLocal(cfg, s, ids, i);
      ConnectionAgrees(cfg, acts, i, ids[i]);
    }
    forall t | t in s.agents ensures exists i :: 0 <= i < |s.links| && UidText(ids[i]) == t {
      OnlyOwnUids(cfg, acts, ids, s.translator.uids[t]);
    }
    if i :| 0 <= i < |s.links| && Leaked(s.links[i]) {
      forall j | 0 <= j < |s.links| && UidText(ids[j]) == UidText(ids[i]) ensures j == i {
        UidTextInjective(ids[i], ids[j]);
      }
      assert UidText(ids[i]) in s.agents;
      assert !UiIsLiveFleet(s, ids);
    }
  }

  // ----- mock agents --------------------------------------------------------------------------------------

  ghost predicate AllMock(s: State) {
    forall i :: 0 <= i < |s.links| ==> s.links[i].peer.Mock?
  }

  ghost function MockIds(s: State): (ids: seq<Uid>)
    requires AllMock(s)
    ensures |ids| == |s.links|
  {
    seq(|s.links|, i requires 0 <= i < |s.links| => s.links[i].peer.agent.uid)
  }

  ghost predicate MocksDiffer(s: State) {
    forall i, j :: 0 <= i < j < |s.links| && s.links[i].peer.Mock? && s.links[j].peer.Mock? ==>
      s.links[i].peer.agent.uid != s.links[j].peer.agent.uid
  }

  lemma PeerStays(cfg: Settings, l: Link, step: LinkAction)
    requires CanStep(l, step)
    ensures LinkStep(cfg, l, step).peer.Mock? <==> l.peer.Mock?
    ensures l.peer.Mock? ==> LinkStep(cfg, l, step).peer.agent.uid == l.peer.agent.uid
  {
    hide Reply, FullStatus, HealthReport, ConfigApplied, Answer, Resolve, OfferedFile;
  }

  lemma MocksDifferStep(cfg: Settings, s: State, a: Action)
    requires MocksDiffer(s) && Enabled(s, a)
    ensures MocksDiffer(Apply(cfg, s, a))
  {
    hide LinkStep, CanStep, RegistryAfter, Merge, UidText, ConfigOffer, RestartOrder;
    if a.OnLink? { PeerStays(cfg, s.links[a.i], a.step); }
  }

  lemma {:induction false} MocksDifferRun(cfg: Settings, acts: seq<Action>)
    ensures Run(cfg, acts).Some? ==> MocksDiffer(Run(cfg, acts).value)
  {
    hide Enabled, Apply, MocksDiffer;
    if acts == [] {
      NoLinksDiffer();
    } else if Run(cfg, acts).Some? {
      MocksDifferRun(cfg, acts[..|acts| - 1]);
      MocksDifferStep(cfg, Run(cfg, acts[..|acts| - 1]).value, acts[|acts| - 1]);
    }
  }

  lemma NoLinksDiffer()
    ensures MocksDiffer(START)
  {
  }

  lemma MockSpeaks(cfg: Settings, l: Link)
    requires l.peer.Mock? && MockInv(cfg, l)
    ensures Speaks(l, l.peer.agent.uid)
  {
    hide Tells, LastConfig, Decoded;
  }

  lemma MockIsMine(cfg: Settings, l: Link)
    requires LinkInv(cfg, l) && MockInv(cfg, l) && l.peer.Mock?
    ensures Mine(l, l.peer.agent.uid)
  {
    hide LinkInv, MockInv, Speaks, Mine;
    MockSpeaks(cfg, l);
    SpeaksIsMine(cfg, l, l.peer.agent.uid);
  }

  /** Only a foreign peer can use a mock agent's UID. */
  lemma MocksDoNotShare(cfg: Settings, acts: seq<Action>, i: nat)
    requires Run(cfg, acts).Some? && i < |Run(cfg, acts).value.links| && Run(cfg, acts).value.links[i].peer.Mock?
    ensures
      var s := Run(cfg, acts).value;
      var u := s.links[i].peer.agent.uid;
      Unshared(s, i, u) <==> forall j :: 0 <= j < |s.links| && s.links[j].peer.Foreign? ==> Silent(s.links[j], u)
  {
    hide Inv, LinkInv, MockInv, Run, Mine, Silent;
    RunInv(cfg, acts);
    MocksDifferRun(cfg, acts);
    var s := Run(cfg, acts).value;
    var u := s.links[i].peer.agent.uid;
    forall j | 0 <= j < |s.links| && j != i && s.links[j].peer.Mock? ensures Silent(s.links[j], u) {
      InvOfLink(cfg, s, j);
      MockIsMine(cfg, s.links[j]);
      MineElsewhere(s.links[j], s.links[j].peer.agent.uid, u);
    }
  }

  /** A fleet of mock agents alone meets the condition of the fleet-wide results on every run. */
  lemma MockFleetIsDisciplined(cfg: Settings, acts: seq<Action>)
    requires Run(cfg, acts).Some? && AllMock(Run(cfg, acts).value)
    ensures Disciplined(Run(cfg, acts).value, MockIds(Run(cfg, acts).value))
  {
    hide Inv, Speaks, LinkInv, MockInv, Run;
    RunInv(cfg, acts);
    MocksDifferRun(cfg, acts);
    var s := Run(cfg, acts).value;
    forall i | 0 <= i < |s.links| ensures Speaks(s.links[i], MockIds(s)[i]) {
      InvOfLink(cfg, s, i);
      MockSpeaks(cfg, s.links[i]);
    }
  }
}
