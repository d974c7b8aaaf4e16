/**
 * The registry over whole runs, with no assumption on UIDs: it is what its log of changes says,
 * and a connection is found under its UID exactly as long as no other connection has touched it.
 */
module FleetRegistry {
  import opened Prelude
  import opened Opamp
  import opened AgentRecord
  import opened MockAgent
  import opened Translate
  import opened Link
  import opened Fleet

  /** One change of the registry: a connection enters under a UID, or its cleanup removes the UID. */
  datatype Touch = Touch(link: nat, uid: Uid, enters: bool)

  ghost function TouchOf(s: State, a: Action): seq<Touch>
    requires Enabled(s, a)
  {
    if !a.OnLink? then [] else
    var l := s.links[a.i];
    if a.step.ServeTake? && Registers(l) then
      [Touch(a.i, Resolve(l.up.Head().payload.value.instanceUid, a.step.spare), true)]
    else if a.step.ServeDeregister? && l.uid.Some? then [Touch(a.i, l.uid.value, false)]
    else []
  }

  /** Every change of the registry so far, in order. */
  ghost function Touches(cfg: Settings, acts: seq<Action>): seq<Touch> {
    if acts == [] then [] else
    var before, a := Run(cfg, acts[..|acts| - 1]), acts[|acts| - 1];
    Touches(cfg, acts[..|acts| - 1])
      + if before.Some? && Enabled(before.value, a) then TouchOf(before.value, a) else []
  }

  ghost function RegistryOf(ts: seq<Touch>): map<Uid, nat> {
    if ts == [] then map[] else
    var before, t := RegistryOf(ts[..|ts| - 1]), ts[|ts| - 1];
    if t.enters then before[t.uid := t.link] else before - {t.uid}
  }

  lemma RegistryOfSnoc(ts: seq<Touch>, t: Touch)
    ensures RegistryOf(ts + [t]) ==
      if t.enters then RegistryOf(ts)[t.uid := t.link] else RegistryOf(ts) - {t.uid}
  {
    assert (ts + [t])[..|ts|] == ts;
  }

  /** The last change under a UID decides. */
  ghost predicate LastUnder(ts: seq<Touch>, k: nat, t: Touch) {
    k < |ts| && ts[k] == t && forall m :: k < m < |ts| ==> ts[m].uid != t.uid
  }

  lemma {:induction false} RegistryOfLast(ts: seq<Touch>, u: Uid, i: nat)
    ensures u in RegistryOf(ts) && RegistryOf(ts)[u] == i <==> exists k: nat :: LastUnder(ts, k, Touch(i, u, true))
  {
    if ts != [] {
      var most, t := ts[..|ts| - 1], ts[|ts| - 1];
      RegistryOfLast(most, u, i);
      if t.uid == u {
        if t == Touch(i, u, true) { assert LastUnder(ts, |most|, t); }
        forall k: nat | LastUnder(ts, k, Touch(i, u, true)) ensures k == |most| {
        }
      } else {
        if k: nat :| LastUnder(most, k, Touch(i, u, true)) { assert LastUnder(ts, k, Touch(i, u, true)); }
        if k: nat :| LastUnder(ts, k, Touch(i, u, true)) { assert LastUnder(most, k, Touch(i, u, true)); }
      }
    }
  }

  // ----- one connection's changes -----------------------------------------------------------------

  /** The connection has entered the registry and its cleanup has not removed the UID. */
  predicate HoldsEntry(l: Link) {
    l.uid.Some? && !l.pc.Announcing? && !l.pc.Done?
  }

  ghost function TouchesBy(ts: seq<Touch>, i: nat): seq<Touch> {
    if ts == [] then []
    else TouchesBy(ts[..|ts| - 1], i) + if ts[|ts| - 1].link == i then [ts[|ts| - 1]] else []
  }

  lemma TouchesBySnoc(ts: seq<Touch>, t: Touch, i: nat)
    ensures TouchesBy(ts + [t], i) == TouchesBy(ts, i) + if t.link == i then [t] else []
  {
    assert (ts + [t])[..|ts|] == ts;
  }

  /** A connection enters once, when its first message arrives, and leaves at most once, in its cleanup. */
  ghost function Expected(l: Link, i: nat): seq<Touch> {
    if l.uid.None? then []
    else [Touch(i, l.uid.value, true)] + if HoldsEntry(l) then [] else [Touch(i, l.uid.value, false)]
  }

  ghost predicate TouchInv(s: State, ts: seq<Touch>) {
    && s.registry == RegistryOf(ts)
    && (forall k :: 0 <= k < |ts| ==> ts[k].link < |s.links|)
    && forall i :: 0 <= i < |s.links| ==> TouchesBy(ts, i) == Expected(s.links[i], i)
  }

  lemma StepTouches(cfg: Settings, l: Link, step: LinkAction, i: nat)
    requires LinkInv(cfg, l) && CanStep(l, step)
    ensures
      var l' := LinkStep(cfg, l, step);
      Expected(l', i) == Expected(l, i) +
        if step.ServeTake? && Registers(l) then
          [Touch(i, Resolve(l.up.Head().payload.value.instanceUid, step.spare), true)]
        else if step.ServeDeregister? && l.uid.Some? then [Touch(i, l.uid.value, false)]
        else []
  {
    hide LinkInv, Reply, FullStatus, HealthReport, ConfigApplied, Answer, Received, Resolve;
    LeavesUnderUid(cfg, l);
  }

  lemma LeavesUnderUid(cfg: Settings, l: Link)
    requires LinkInv(cfg, l)
    ensures l.pc.Deregistering? || l.pc.Announcing? ==> l.uid.Some?
  {
    hide Decoded, Filter, RepliesFollowReads, EventsFollowReads;
  }

  lemma {:induction false} NoTouchesBy(ts: seq<Touch>, i: nat)
    requires forall k :: 0 <= k < |ts| ==> ts[k].link != i
    ensures TouchesBy(ts, i) == []
  {
    if ts != [] { NoTouchesBy(ts[..|ts| - 1], i); }
  }

  lemma LinkTouchInv(cfg: Settings, s: State, i: nat, step: LinkAction, ts: seq<Touch>)
    requires LinksInv(cfg, s) && TouchInv(s, ts) && Enabled(s, OnLink(i, step))
    ensures TouchInv(Apply(cfg, s, OnLink(i, step)), ts + TouchOf(s, OnLink(i, step)))
  {
    hide LinkInv, Addressed, MockInv, LinkStep, CanStep, Expected, Resolve, TouchesBy, RegistryOf;
    var new', s' := TouchOf(s, OnLink(i, step)), Apply(cfg, s, OnLink(i, step));
    StepTouches(cfg, s.links[i], step, i);
    assert ts + [] == ts && TouchesBy(ts, i) + [] == TouchesBy(ts, i);
    if new' != [] {
      RegistryOfSnoc(ts, new'[0]);
      assert new' == [new'[0]];
    }
    forall j | 0 <= j < |s.links| ensures TouchesBy(ts + new', j) == Expected(s'.links[j], j) {
      if new' != [] { TouchesBySnoc(ts, new'[0], j); }
      assert TouchesBy(ts, j) + [] == TouchesBy(ts, j) && Expected(s.links[j], j) + [] == Expected(s.links[j], j);
    }
  }

  lemma AcceptTouchInv(s: State, s': State, peer: Peer, ts: seq<Touch>)
    requires TouchInv(s, ts) && s' == s.(links := s.links + [Opened(peer)])
    ensures TouchInv(s', ts)
  {
    NoTouchesBy(ts, |s.links|);
  }

  lemma OtherTouchInv(s: State, s': State, ts: seq<Touch>)
    requires TouchInv(s, ts) && s'.registry == s.registry && |s'.links| == |s.links|
    requires forall i :: 0 <= i < |s.links| ==> s'.links[i].uid == s.links[i].uid && s'.links[i].pc == s.links[i].pc
    ensures TouchInv(s', ts)
  {
    hide TouchesBy, RegistryOf;
  }

  lemma TouchInvStep(cfg: Settings, s: State, a: Action, ts: seq<Touch>)
    requires LinksInv(cfg, s) && TouchInv(s, ts) && Enabled(s, a)
    ensures TouchInv(Apply(cfg, s, a), ts + TouchOf(s, a))
  {
    hide TouchInv, LinksInv, LinkStep, CanStep, RegistryAfter, Merge, UidText, ConfigOffer, RestartOrder;
    var s' := Apply(cfg, s, a);
    match a
    case OnLink(i, step) => LinkTouchInv(cfg, s, i, step, ts);
    case Accept(peer) =>
      AcceptTouchInv(s, s', peer, ts);
      assert ts + [] == ts;
    case _ =>
      OtherTouchInv(s, s', ts);
      assert ts + [] == ts;
  }

  /** On every run the registry is what its changes say, and each connection changed it as it should. */
  lemma {:induction false} RegistryFollowsTouches(cfg: Settings, acts: seq<Action>)
    requires Run(cfg, acts).Some?
    ensures TouchInv(Run(cfg, acts).value, Touches(cfg, acts))
  {
    hide Enabled, Apply, TouchInv, Inv, LinksInv, TouchOf;
    if acts == [] {
      NothingTouched();
    } else {
      var most := acts[..|acts| - 1];
      RegistryFollowsTouches(cfg, most);
      RunInv(cfg, most);
      InvHasLinks(cfg, Run(cfg, most).value);
      TouchInvStep(cfg, Run(cfg, most).value, acts[|acts| - 1], Touches(cfg, most));
    }
  }

  lemma NothingTouched()
    ensures TouchInv(START, [])
  {
  }

  lemma InvHasLinks(cfg: Settings, s: State)
    requires Inv(cfg, s)
    ensures LinksInv(cfg, s)
  {
  }

  // ----- finding a connection under its UID ---------------------------------------------------------

  lemma {:induction false} TouchBy(ts: seq<Touch>, i: nat, n: nat) returns (k: nat)
    requires n < |TouchesBy(ts, i)|
    ensures k < |ts| && ts[k] == TouchesBy(ts, i)[n] && ts[k].link == i
  {
    var most := ts[..|ts| - 1];
    if n < |TouchesBy(most, i)| {
      k := TouchBy(most, i, n);
    } else {
      k := |ts| - 1;
    }
  }

  lemma {:induction false} TouchCounts(ts: seq<Touch>, k: nat)
    requires k < |ts|
    ensures exists n :: 0 <= n < |TouchesBy(ts, ts[k].link)| && TouchesBy(ts, ts[k].link)[n] == ts[k]
  {
    var i, most := ts[k].link, ts[..|ts| - 1];
    if k < |most| {
      TouchCounts(most, k);
      var n :| 0 <= n < |TouchesBy(most, i)| && TouchesBy(most, i)[n] == ts[k];
      assert TouchesBy(ts, i)[n] == ts[k];
    } else {
      assert TouchesBy(ts, i)[|TouchesBy(most, i)|] == ts[k];
    }
  }

  lemma {:induction false} TouchedTwice(ts: seq<Touch>, k: nat, m: nat)
    requires k < m < |ts| && ts[k].link == ts[m].link
    ensures |TouchesBy(ts, ts[k].link)| >= 2
  {
    var most := ts[..|ts| - 1];
    if m < |most| { TouchedTwice(most, k, m); } else { TouchCounts(most, k); }
  }

  /** A change under a UID was made by a connection registered under it. */
  lemma TouchIsOwn(s: State, ts: seq<Touch>, k: nat)
    requires TouchInv(s, ts) && k < |ts|
    ensures ts[k].link < |s.links| && s.links[ts[k].link].uid == Some(ts[k].uid)
  {
    hide TouchesBy, RegistryOf;
    TouchCounts(ts, k);
    assert TouchesBy(ts, ts[k].link) == Expected(s.links[ts[k].link], ts[k].link);
  }

  /**
   * The exact condition, with no assumption on UIDs: a connection that entered the registry and
   * has not cleaned up is found under its UID if and only if no other connection has entered or
   * left under that UID since it entered.
   */
  lemma FoundUnlessTouched(cfg: Settings, acts: seq<Action>, i: nat) returns (k: nat)
    requires Run(cfg, acts).Some? && i < |Run(cfg, acts).value.links| && HoldsEntry(Run(cfg, acts).value.links[i])
    ensures
      var s, ts := Run(cfg, acts).value, Touches(cfg, acts);
      var u := s.links[i].uid.value;
      && k < |ts| && ts[k] == Touch(i, u, true)
      && (forall m :: 0 <= m < |ts| && m != k ==> ts[m].link != i)
      && (u in s.registry && s.registry[u] == i <==> forall m :: k < m < |ts| ==> ts[m].uid != u)
  {
    hide Run, Touches, TouchesBy, RegistryOf;
    RegistryFollowsTouches(cfg, acts);
    var s, ts := Run(cfg, acts).value, Touches(cfg, acts);
    var u := s.links[i].uid.value;
    assert TouchesBy(ts, i) == [Touch(i, u, true)];
    k := TouchBy(ts, i, 0);
    forall m | 0 <= m < |ts| && m != k ensures ts[m].link != i {
      if ts[m].link == i { if m < k { TouchedTwice(ts, m, k); } else { TouchedTwice(ts, k, m); } }
    }
    RegistryOfLast(ts, u, i);
    if n: nat :| LastUnder(ts, n, Touch(i, u, true)) { assert n == k; }
    if forall m :: k < m < |ts| ==> ts[m].uid != u { assert LastUnder(ts, k, Touch(i, u, true)); }
  }

  /** No other connection, open or closed, has registered under u. */
  ghost predicate Sole(s: State, i: nat, u: Uid) {
    forall j :: 0 <= j < |s.links| && j != i ==> s.links[j].uid != Some(u)
  }

  /** Under a UID that only connection i registered, the registry has exactly its entry. */
  lemma SoleEntry(cfg: Settings, acts: seq<Action>, i: nat, u: Uid)
    requires Run(cfg, acts).Some? && Sole(Run(cfg, acts).value, i, u)
    ensures
      var s := Run(cfg, acts).value;
      && (u in s.registry <==> i < |s.links| && s.links[i].uid == Some(u) && HoldsEntry(s.links[i]))
      && (u in s.registry ==> s.registry[u] == i)
  {
    hide Run, Touches, TouchesBy, RegistryOf, Expected;
    RegistryFollowsTouches(cfg, acts);
    var s, ts := Run(cfg, acts).value, Touches(cfg, acts);
    if u in s.registry {
      RegistryOfLast(ts, u, s.registry[u]);
      var k: nat :| LastUnder(ts, k, Touch(s.registry[u], u, true));
      TouchIsOwn(s, ts, k);
      assert s.registry[u] == i;
      StillHolds(s, ts, k);
    }
    if i < |s.links| && s.links[i].uid == Some(u) && HoldsEntry(s.links[i]) {
      var k := FoundUnlessTouched(cfg, acts, i);
      forall m | k < m < |ts| ensures ts[m].uid != u { TouchIsOwn(s, ts, m); }
    }
  }

  /** If a connection's entry is the last change under its UID, it has not left. */
  lemma StillHolds(s: State, ts: seq<Touch>, k: nat)
    requires TouchInv(s, ts) && k < |ts| && ts[k].enters && LastUnder(ts, k, ts[k])
    ensures ts[k].link < |s.links| && HoldsEntry(s.links[ts[k].link])
  {
    hide TouchesBy, RegistryOf;
    TouchIsOwn(s, ts, k);
    var i := ts[k].link;
    assert TouchesBy(ts, i) == Expected(s.links[i], i);
    if !HoldsEntry(s.links[i]) {
      LeavesAfterEntering(ts, i, k);
    }
  }

  lemma {:induction false} LeavesAfterEntering(ts: seq<Touch>, i: nat, k: nat)
    requires k < |ts| && ts[k].link == i && ts[k].enters
    requires |TouchesBy(ts, i)| == 2 && TouchesBy(ts, i)[0].uid == TouchesBy(ts, i)[1].uid
    requires TouchesBy(ts, i)[0].enters && !TouchesBy(ts, i)[1].enters
    ensures exists m :: k < m < |ts| && ts[m].uid == ts[k].uid
  {
    var most, last := ts[..|ts| - 1], ts[|ts| - 1];
    if last.link == i {
      assert TouchesBy(ts, i) == TouchesBy(most, i) + [last];
      assert last == TouchesBy(ts, i)[1] && TouchesBy(most, i) == [TouchesBy(ts, i)[0]];
      assert k < |most|;
      TouchCounts(most, k);
      assert ts[k] == TouchesBy(ts, i)[0];
    } else {
      assert TouchesBy(ts, i) == TouchesBy(most, i);
      LeavesAfterEntering(most, i, k);
      var m :| k < m < |most| && most[m].uid == most[k].uid;
      assert ts[m] == most[m];
    }
  }

  /** Identified, and its socket still served. */
  predicate Live(l: Link) {
    l.uid.Some? && (l.pc.Idle? || l.pc.Emitting? || l.pc.Replying? || l.pc.Deregistering?)
  }

  /**
   * Error exits included: a live connection is never missing from the registry while no other
   * connection has registered under its UID.
   */
  lemma LiveIsRegistered(cfg: Settings, acts: seq<Action>, i: nat)
    requires Run(cfg, acts).Some? && i < |Run(cfg, acts).value.links| && Live(Run(cfg, acts).value.links[i])
    requires Sole(Run(cfg, acts).value, i, Run(cfg, acts).value.links[i].uid.value)
    ensures
      var s := Run(cfg, acts).value;
      var u := s.links[i].uid.value;
      u in s.registry && s.registry[u] == i
  {
    hide Run, Sole;
    SoleEntry(cfg, acts, i, Run(cfg, acts).value.links[i].uid.value);
  }

  // ----- a connection can lose its entry ----------------------------------------------------------------

  /**
   * Two connections speak under one UID; the second registers over the first, and then the first
   * says goodbye and its cleanup removes the UID.
   */
  ghost function TakeoverRun(u: Uid, m: AgentToServer, n: AgentToServer): seq<Action> {
    [ Accept(Foreign), Accept(Foreign), OnLink(0, ForeignSend(Binary(Some(m)))), OnLink(1, ForeignSend(Binary(Some(n)))),
      OnLink(0, ServeTake(u)), OnLink(1, ServeTake(u)), OnLink(0, ServeEmit), OnLink(0, ServeReply),
      OnLink(0, ServeDeregister) ]
  }

  lemma PairStep(cfg: Settings, s: State, i: nat, step: LinkAction, l: Link)
    requires |s.links| == 2 && i < 2 && s.events.Queued() < EVENT_BOUND
    requires CanStep(s.links[i], step) && LinkStep(cfg, s.links[i], step) == l
    ensures Enabled(s, OnLink(i, step))
    ensures Apply(cfg, s, OnLink(i, step)) ==
      s.(links := if i == 0 then [l, s.links[1]] else [s.links[0], l], registry := RegistryAfter(s, i, step),
         events := if Emits(step) then s.events.Send(EventOf(s.links[i], step)) else s.events)
  {
    hide CanStep, LinkStep, RegistryAfter;
    assert s.links[i := l] == if i == 0 then [l, s.links[1]] else [s.links[0], l];
  }

  ghost function Spoken(m: AgentToServer): Link {
    Opened(Foreign).(up := Channel([Binary(Some(m))], 0))
  }

  ghost function Heard(u: Uid, m: AgentToServer): Link {
    Opened(Foreign).(up := Channel([Binary(Some(m))], 1), uid := Some(u), pc := Emitting(u, m))
  }

  ghost function Told(u: Uid, m: AgentToServer): Link {
    Heard(u, m).(emitted := [Message(u, m)], pc := Replying(u, m.capabilities, m.disconnect))
  }

  ghost function Parting(cfg: Settings, u: Uid, m: AgentToServer): Link {
    Told(u, m).(down := Channel([Reply(cfg, u, m.capabilities, true)], 0), first := false, pc := Deregistering)
  }

  lemma PartingSteps(cfg: Settings, u: Uid, m: AgentToServer)
    requires m.instanceUid == u && m.disconnect
    ensures
      var l0, l1, l2, l3, l4 := Opened(Foreign), Spoken(m), Heard(u, m), Told(u, m), Parting(cfg, u, m);
      && CanStep(l0, ForeignSend(Binary(Some(m)))) && LinkStep(cfg, l0, ForeignSend(Binary(Some(m)))) == l1
      && CanStep(l2, ServeEmit) && LinkStep(cfg, l2, ServeEmit) == l3
      && CanStep(l3, ServeReply) && LinkStep(cfg, l3, ServeReply) == l4
      && CanStep(l4, ServeDeregister) && LinkStep(cfg, l4, ServeDeregister) == l4.(pc := Announcing)
  {
    hide Reply;
    var reply := Reply(cfg, u, m.capabilities, true);
    assert [] + [Binary(Some(m))] == [Binary(Some(m))] && [] + [Message(u, m)] == [Message(u, m)] && [] + [reply] == [reply];
  }

  lemma SpokenSteps(cfg: Settings, u: Uid, m: AgentToServer)
    requires m.instanceUid == u
    ensures
      var l0, l1, l2 := Opened(Foreign), Spoken(m), Heard(u, m);
      && CanStep(l0, ForeignSend(Binary(Some(m)))) && LinkStep(cfg, l0, ForeignSend(Binary(Some(m)))) == l1
      && CanStep(l1, ServeTake(u)) && LinkStep(cfg, l1, ServeTake(u)) == l2 && Registers(l1)
  {
    assert [] + [Binary(Some(m))] == [Binary(Some(m))];
  }

  lemma EnterAndLeave(s: State, i: nat, u: Uid, m: AgentToServer)
    requires i < |s.links|
    ensures s.links[i] == Spoken(m) && m.instanceUid == u ==>
      CanStep(s.links[i], ServeTake(u)) && RegistryAfter(s, i, ServeTake(u)) == s.registry[u := i]
    ensures s.links[i].pc.Deregistering? && s.links[i].uid == Some(u) ==>
      CanStep(s.links[i], ServeDeregister) && RegistryAfter(s, i, ServeDeregister) == s.registry - {u}
    ensures CanStep(s.links[i], ServeEmit) ==> RegistryAfter(s, i, ServeEmit) == s.registry
    ensures CanStep(s.links[i], ServeReply) ==> RegistryAfter(s, i, ServeReply) == s.registry
    ensures CanStep(s.links[i], ForeignSend(Binary(Some(m)))) ==>
      RegistryAfter(s, i, ForeignSend(Binary(Some(m)))) == s.registry
  {
  }

  lemma BothSpeak(cfg: Settings, u: Uid, m: AgentToServer, n: AgentToServer)
    requires m.instanceUid == u == n.instanceUid
    ensures Run(cfg, TakeoverRun(u, m, n)[..4]) == Some(START.(links := [Spoken(m), Spoken(n)]))
  {
    hide Run, Enabled, Apply, LinkStep, CanStep, RegistryAfter, Resolve, Registers, Spoken, Heard;
    var acts, o := TakeoverRun(u, m, n), Opened(Foreign);
    SpokenSteps(cfg, u, m);
    SpokenSteps(cfg, u, n);
    RunStart(cfg);
    assert acts[..0] == [];
    var s1, s2 := START.(links := [o]), START.(links := [o, o]);
    AcceptForeign(cfg, START);
    assert [] + [o] == [o] && [o] + [o] == [o, o];
    StepTo(cfg, acts, 0, START, s1);
    AcceptForeign(cfg, s1);
    StepTo(cfg, acts, 1, s1, s2);
    var s3, s4 := s2.(links := [Spoken(m), o]), s2.(links := [Spoken(m), Spoken(n)]);
    PairStep(cfg, s2, 0, ForeignSend(Binary(Some(m))), Spoken(m));
    EnterAndLeave(s2, 0, u, m);
    StepTo(cfg, acts, 2, s2, s3);
    PairStep(cfg, s3, 1, ForeignSend(Binary(Some(n))), Spoken(n));
    EnterAndLeave(s3, 1, u, n);
    StepTo(cfg, acts, 3, s3, s4);
  }

  lemma SecondRegistersOver(cfg: Settings, u: Uid, m: AgentToServer, n: AgentToServer)
    requires m.instanceUid == u == n.instanceUid
    ensures
      Run(cfg, TakeoverRun(u, m, n)[..6]) == Some(START.(links := [Heard(u, m), Heard(u, n)], registry := map[u := 1]))
  {
    hide Run, Enabled, Apply, LinkStep, CanStep, RegistryAfter, Resolve, Registers, Spoken, Heard;
    var acts := TakeoverRun(u, m, n);
    BothSpeak(cfg, u, m, n);
    SpokenSteps(cfg, u, m);
    SpokenSteps(cfg, u, n);
    var s4 := START.(links := [Spoken(m), Spoken(n)]);
    var s5 := s4.(links := [Heard(u, m), Spoken(n)], registry := map[u := 0]);
    PairStep(cfg, s4, 0, ServeTake(u), Heard(u, m));
    EnterAndLeave(s4, 0, u, m);
    StepTo(cfg, acts, 4, s4, s5);
    PairStep(cfg, s5, 1, ServeTake(u), Heard(u, n));
    EnterAndLeave(s5, 1, u, n);
    StepTo(cfg, acts, 5, s5, s5.(links := [Heard(u, m), Heard(u, n)], registry := map[u := 1]));
  }

  lemma AcceptForeign(cfg: Settings, s: State)
    ensures Enabled(s, Accept(Foreign)) && Apply(cfg, s, Accept(Foreign)) == s.(links := s.links + [Opened(Foreign)])
  {
  }

  /** So a live, identified connection can be missing from the registry: commands to it are refused. */
  lemma TakeoverHidesLive(cfg: Settings, u: Uid, m: AgentToServer, n: AgentToServer)
    requires m.instanceUid == u == n.instanceUid && m.disconnect
    ensures Run(cfg, TakeoverRun(u, m, n)).Some?
    ensures
      var s := Run(cfg, TakeoverRun(u, m, n)).value;
      |s.links| == 2 && Live(s.links[1]) && s.links[1].uid == Some(u) && u !in s.registry
  {
    hide Run, Enabled, Apply, LinkStep, CanStep, RegistryAfter, Resolve, Reply;
    var acts, b := TakeoverRun(u, m, n), Heard(u, n);
    SecondRegistersOver(cfg, u, m, n);
    PartingSteps(cfg, u, m);
    var event := Message(u, m);
    assert [] + [event] == [event];
    var s6 := START.(links := [Heard(u, m), b], registry := map[u := 1]);
    var s7 := s6.(links := [Told(u, m), b], events := Channel([event], 0));
    PairStep(cfg, s6, 0, ServeEmit, Told(u, m));
    EnterAndLeave(s6, 0, u, m);
    StepTo(cfg, acts, 6, s6, s7);
    var s8 := s7.(links := [Parting(cfg, u, m), b]);
    PairStep(cfg, s7, 0, ServeReply, Parting(cfg, u, m));
    EnterAndLeave(s7, 0, u, m);
    StepTo(cfg, acts, 7, s7, s8);
    var left := Parting(cfg, u, m).(pc := Announcing);
    PairStep(cfg, s8, 0, ServeDeregister, left);
    EnterAndLeave(s8, 0, u, m);
    StepTo(cfg, acts, 8, s8, s8.(links := [left, b], registry := map[u := 1] - {u}));
    assert acts[..9] == acts;
  }
}
