/**
 * The `translate` task (control/embedded.rs): sparse OpAMP events in, accumulated
 * `ControlEvent`s out, and the UI's agent map that those events drive.
 */
module Translate {
  import opened Prelude
  import opened Opamp
  import opened AgentRecord

  datatype MetricRow = MetricRow(name: string, value: real, unit: string)

  datatype LogRow = LogRow(time: nat, severity: string, body: string)

  datatype TelemetrySnapshot = TelemetrySnapshot(metrics: seq<MetricRow>, logs: seq<LogRow>, spanCount: nat)

  datatype ControlEvent =
    | AgentUpserted(detail: AgentDetail)
    | AgentDisconnected(uid: string)
    | Telemetry(key: string, snapshot: TelemetrySnapshot)
    | Notice(text: string)

  /** The two maps of `translate`: records by UID, and UIDs by their text (shared with the UI's commands). */
  datatype Translator = Translator(details: map<Uid, AgentDetail>, uids: map<string, Uid>) {

    function Step(e: OpampEvent): Translator {
      match e
      case Message(uid, msg) =>
        var detail := if uid in details then details[uid] else NewDetail(UidText(uid));
        Translator(details[uid := Merge(detail, msg)], uids[UidText(uid) := uid])
      case Disconnected(uid) =>
        Translator(details - {uid}, uids - {UidText(uid)})
    }

    /** What `translate` sends after stepping on e. */
    function Output(e: OpampEvent): ControlEvent
      requires e.Message? ==> e.uid in details
    {
      match e
      case Message(uid, _) => AgentUpserted(details[uid])
      case Disconnected(uid) => AgentDisconnected(UidText(uid))
    }

    /** The two maps describe the same agents, each under its own UID. */
    ghost predicate Valid() {
      && (forall u :: u in details ==> UidText(u) in uids && uids[UidText(u)] == u && details[u].uid == UidText(u))
      && (forall t :: t in uids ==> uids[t] in details && UidText(uids[t]) == t)
    }

    /** The records under the text of their UIDs: what the UI should hold. */
    ghost function Published(): map<string, AgentDetail>
      requires Valid()
    {
      map t | t in uids :: details[uids[t]]
    }
  }

  const IDLE_TRANSLATOR := Translator(map[], map[])

  ghost function Translated(log: seq<OpampEvent>): Translator {
    if log == [] then IDLE_TRANSLATOR else Translated(log[..|log| - 1]).Step(log[|log| - 1])
  }

  /** One control event per OpAMP event, in order. */
  ghost function ControlOf(log: seq<OpampEvent>): (out: seq<ControlEvent>)
    ensures |out| == |log|
  {
    if log == [] then []
    else ControlOf(log[..|log| - 1]) + [Translated(log).Output(log[|log| - 1])]
  }

  lemma TranslatedSnoc(log: seq<OpampEvent>, e: OpampEvent)
    ensures Translated(log + [e]) == Translated(log).Step(e)
    ensures ControlOf(log + [e]) == ControlOf(log) + [Translated(log + [e]).Output(e)]
  {
    assert (log + [e])[..|log|] == log;
  }

  lemma {:induction false} ControlPrefix(log: seq<OpampEvent>, n: nat)
    requires n <= |log|
    ensures ControlOf(log[..n]) == ControlOf(log)[..n]
  {
    if n < |log| {
      var most := log[..|log| - 1];
      ControlPrefix(most, n);
      assert most[..n] == log[..n];
      assert ControlOf(log)[..|most|] == ControlOf(most);
    } else {
      assert log[..n] == log;
    }
  }

  lemma StepKeepsValid(t: Translator, e: OpampEvent)
    requires t.Valid()
    ensures t.Step(e).Valid()
  {
    hide UidText, Merge;
    var t' := t.Step(e);
    if e.Message? {
      MergeKeepsUid(if e.uid in t.details then t.details[e.uid] else NewDetail(UidText(e.uid)), e.msg);
    }
    forall u | u in t'.details
      ensures UidText(u) in t'.uids && t'.uids[UidText(u)] == u && t'.details[u].uid == UidText(u)
    {
      UidTextInjective(u, e.uid);
    }
    forall k | k in t'.uids ensures t'.uids[k] in t'.details && UidText(t'.uids[k]) == k {
      if k != UidText(e.uid) { UidTextInjective(t.uids[k], e.uid); }
    }
  }

  lemma {:induction false} TranslatedValid(log: seq<OpampEvent>)
    ensures Translated(log).Valid()
  {
    if log != [] {
      TranslatedValid(log[..|log| - 1]);
      StepKeepsValid(Translated(log[..|log| - 1]), log[|log| - 1]);
    }
  }

  /** The loop of `translate`: it keeps the two maps and sends as it goes. */
  method TranslateAll(events: seq<OpampEvent>)
    returns (sent: seq<ControlEvent>, details: map<Uid, AgentDetail>, uids: map<string, Uid>)
    ensures sent == ControlOf(events)
    ensures Translator(details, uids) == Translated(events)
  {
    hide UidText, Merge, NewDetail;
    sent, details, uids := [], map[], map[];
    for i := 0 to |events|
      invariant sent == ControlOf(events[..i])
      invariant Translator(details, uids) == Translated(events[..i])
    {
      assert events[..i + 1] == events[..i] + [events[i]];
      TranslatedSnoc(events[..i], events[i]);
      match events[i] {
        case Message(uid, msg) =>
          uids := uids[UidText(uid) := uid];
          if uid !in details {
            details := details[uid := NewDetail(UidText(uid))];
          }
          var detail := MergeInto(details[uid], msg);
          details := details[uid := detail];
          sent := sent + [AgentUpserted(detail)];
        case Disconnected(uid) =>
          details := details - {uid};
          uids := uids - {UidText(uid)};
          sent := sent + [AgentDisconnected(UidText(uid))];
      }
    }
    assert events[..|events|] == events;
  }

  // ----- the UI's agent map -----------------------------------------------------------------

  /** What `handle_control` does to the agent map. */
  function ApplyControl(agents: map<string, AgentDetail>, e: ControlEvent): map<string, AgentDetail> {
    match e
    case AgentUpserted(detail) => agents[detail.uid := detail]
    case AgentDisconnected(uid) => agents - {uid}
    case Telemetry(_, _) => agents
    case Notice(_) => agents
  }

  ghost function Applied(events: seq<ControlEvent>): map<string, AgentDetail> {
    Fold(ApplyControl, map[], events)
  }

  /** One event: applying the output is publishing the stepped maps. */
  lemma PublishStep(t: Translator, e: OpampEvent)
    requires t.Valid()
    ensures t.Step(e).Valid()
    ensures ApplyControl(t.Published(), t.Step(e).Output(e)) == t.Step(e).Published()
  {
    hide UidText, Merge;
    StepKeepsValid(t, e);
    var a, t' := ApplyControl(t.Published(), t.Step(e).Output(e)), t.Step(e);
    assert a.Keys == t'.uids.Keys;
    forall k | k in a ensures a[k] == t'.Published()[k] {
      if k != UidText(e.uid) { UidTextInjective(t.uids[k], e.uid); }
    }
  }

  /** The control queue and the translator's maps commute: applying everything sent publishes the maps. */
  lemma {:induction false} ControlPublishes(log: seq<OpampEvent>)
    ensures Translated(log).Valid() && Applied(ControlOf(log)) == Translated(log).Published()
  {
    TranslatedValid(log);
    if log != [] {
      var most, e := log[..|log| - 1], log[|log| - 1];
      ControlPublishes(most);
      PublishStep(Translated(most), e);
      FoldSnoc(ApplyControl, map[], ControlOf(most), Translated(log).Output(e));
    }
  }

  predicate FromAgents(e: ControlEvent) {
    e.AgentUpserted? || e.AgentDisconnected?
  }

  /** Telemetry and notices between them change nothing. */
  lemma {:induction false} AppliedIgnoresTelemetry(events: seq<ControlEvent>)
    ensures Applied(Filter(FromAgents, events)) == Applied(events)
  {
    if events != [] {
      var most, e := events[..|events| - 1], events[|events| - 1];
      AppliedIgnoresTelemetry(most);
      assert events == most + [e];
      FoldSnoc(ApplyControl, map[], most, e);
      if FromAgents(e) {
        FoldSnoc(ApplyControl, map[], Filter(FromAgents, most), e);
      } else {
        assert Filter(FromAgents, events) == Filter(FromAgents, most);
      }
    }
  }

  // ----- what one agent's record is made of ---------------------------------------------------

  /** The messages under a UID since its last disconnect. */
  ghost function Since(log: seq<OpampEvent>, u: Uid): seq<AgentToServer> {
    if log == [] then []
    else
      var e := log[|log| - 1];
      if e.uid != u then Since(log[..|log| - 1], u)
      else if e.Message? then Since(log[..|log| - 1], u) + [e.msg]
      else []
  }

  /** Each record is the merge of exactly those messages, and there is none when there are none. */
  lemma {:induction false} RecordIsFold(log: seq<OpampEvent>, u: Uid)
    ensures u in Translated(log).details <==> Since(log, u) != []
    ensures u in Translated(log).details ==>
      Translated(log).details[u] == Accumulate(UidText(u), Since(log, u))
  {
    hide UidText, Merge;
    if log != [] {
      var most, e := log[..|log| - 1], log[|log| - 1];
      RecordIsFold(most, u);
      if e.Message? && e.uid == u {
        FoldSnoc(Merge, NewDetail(UidText(u)), Since(most, u), e.msg);
      }
    }
  }

  /** The events that carry one UID. */
  ghost function EventsOf(log: seq<OpampEvent>, u: Uid): seq<OpampEvent> {
    if log == [] then []
    else EventsOf(log[..|log| - 1], u) + if log[|log| - 1].uid == u then [log[|log| - 1]] else []
  }

  lemma EventsOfSnoc(log: seq<OpampEvent>, e: OpampEvent, u: Uid)
    ensures EventsOf(log + [e], u) == EventsOf(log, u) + if e.uid == u then [e] else []
  {
    assert (log + [e])[..|log|] == log;
  }

  lemma {:induction false} EventsOfPrefix(log: seq<OpampEvent>, n: nat, u: Uid)
    requires n <= |log|
    ensures EventsOf(log[..n], u) <= EventsOf(log, u)
  {
    if n == |log| {
      assert log[..n] == log;
    } else {
      EventsOfPrefix(log[..|log| - 1], n, u);
      assert log[..|log| - 1][..n] == log[..n];
    }
  }

  lemma {:induction false} SinceSeesOwnEvents(log: seq<OpampEvent>, u: Uid)
    ensures Since(log, u) == Since(EventsOf(log, u), u)
  {
    if log != [] {
      var most, e := log[..|log| - 1], log[|log| - 1];
      SinceSeesOwnEvents(most, u);
      var own := EventsOf(most, u);
      if e.uid == u {
        assert EventsOf(log, u) == own + [e];
        assert (own + [e])[..|own|] == own;
      } else {
        assert EventsOf(log, u) == own;
      }
    }
  }
}
