/**
 * The mock agent (examples/mock-agent/src/main.rs, run_agent): an agent that reports its
 * status, applies remote configs in two messages and answers a restart with a health report.
 */
module MockAgent {
  import opened Prelude
  import opened HealthTree
  import opened Opamp
  import opened AgentRecord

  /** What one simulated agent is configured with; `base` is its built-in config. */
  datatype Profile = Profile(
    name: string, version: string, host: string, degraded: bool, os: string, arch: string, base: string)

  /** Where the loop stands between two sends. */
  datatype Pc =
    | Greeting
    | Listening
    | Applying(hash: seq<byte>, restart: bool)
    | Restarting
    | Gone

  datatype Agent = Agent(uid: Uid, profile: Profile, seqNum: nat, effective: string, startTime: nat, pc: Pc)

  function Fresh(uid: Uid, profile: Profile, now: nat): Agent {
    Agent(uid, profile, 0, profile.base, now, Greeting)
  }

  const MOCK_CAPS: bv64 :=
    REPORTS_STATUS | ACCEPTS_REMOTE_CONFIG | REPORTS_EFFECTIVE_CONFIG | REPORTS_HEALTH
    | REPORTS_REMOTE_CONFIG | ACCEPTS_RESTART_COMMAND | REPORTS_OWN_METRICS | REPORTS_OWN_LOGS
    | ACCEPTS_OPAMP_CONNECTION_SETTINGS

  // ----- message builders -------------------------------------------------------------------

  function SubHealth(healthy: bool, status: string, error: string): ComponentHealth {
    ComponentHealth(healthy, 0, error, status, [])
  }

  function HealthOf(profile: Profile, startTime: nat): ComponentHealth {
    var ok, degraded := "StatusOK", "StatusRecoverableError";
    ComponentHealth(
      !profile.degraded, startTime,
      if profile.degraded then "1 pipeline reporting recoverable errors" else "",
      if profile.degraded then degraded else ok,
      [ Part("pipeline:traces", SubHealth(true, ok, "")),
        Part("pipeline:metrics", SubHealth(true, ok, "")),
        Part("pipeline:logs", SubHealth(
          !profile.degraded,
          if profile.degraded then degraded else ok,
          if profile.degraded then "exporter otlphttp: connection refused" else "")),
        Part("extension:health_check", SubHealth(true, ok, "")) ])
  }

  function DescriptionOf(uid: Uid, profile: Profile): AgentDescription {
    AgentDescription(
      [ KeyValue("service.name", Some("io.opentelemetry.collector")),
        KeyValue("service.version", Some(profile.version)),
        KeyValue("service.instance.id", Some(UidText(uid))) ],
      [ KeyValue("os.type", Some(profile.os)),
        KeyValue("host.name", Some(profile.host)),
        KeyValue("host.arch", Some(profile.arch)) ])
  }

  /** An envelope with the next sequence number and no group. */
  function Envelope(a: Agent): AgentToServer {
    AgentToServer(a.uid, a.seqNum + 1, MOCK_CAPS, None, None, None, None, false)
  }

  function FullStatus(a: Agent): AgentToServer {
    Envelope(a).(description := Some(DescriptionOf(a.uid, a.profile)),
                 health := Some(HealthOf(a.profile, a.startTime)),
                 effectiveConfig := Some(EffectiveConfig(Some(YamlConfigMap(a.effective)))))
  }

  function HealthReport(a: Agent): AgentToServer {
    Envelope(a).(health := Some(HealthOf(a.profile, a.startTime)))
  }

  function ConfigStatus(a: Agent, hash: seq<byte>, status: int): AgentToServer {
    Envelope(a).(remoteConfigStatus := Some(RemoteConfigStatus(hash, status, "")))
  }

  function ConfigApplied(a: Agent, hash: seq<byte>): AgentToServer {
    ConfigStatus(a, hash, STATUS_APPLIED).(
      effectiveConfig := Some(EffectiveConfig(Some(YamlConfigMap(a.effective)))))
  }

  // ----- one send at a time -------------------------------------------------------------------

  function Sent(a: Agent, pc: Pc): Agent {
    a.(seqNum := a.seqNum + 1, pc := pc)
  }

  /** The file an offer names: the one under "", or else the first of the map. */
  function OfferedFile(config: Option<ConfigMap>): Option<string> {
    if config.None? then None
    else
      var main := Lookup(config.value, "");
      if main.Some? then main
      else if config.value == [] then None
      else Some(config.value[0].1)
  }

  /** An offer without files names nothing; any other one names the unnamed file, or else its first. */
  lemma OfferedFileRule(files: ConfigMap, i: nat)
    ensures OfferedFile(None) == None && OfferedFile(Some([])) == None
    ensures FirstFile(files, "", i) ==> OfferedFile(Some(files)) == Some(files[i].1)
    ensures files != [] && (forall j :: 0 <= j < |files| ==> files[j].0 != "") ==>
      OfferedFile(Some(files)) == Some(files[0].1)
  {
    LookupRule(files, "", i);
  }

  function Received(a: Agent, m: ServerToAgent): Agent {
    var restart := m.command == Some(COMMAND_RESTART);
    if m.remoteConfig.Some? then
      var offer := m.remoteConfig.value;
      var file := OfferedFile(offer.config);
      a.(effective := if file.Some? then file.value else a.effective,
         seqNum := a.seqNum + 1,
         pc := Applying(offer.hash, restart))
    else if restart then a.(pc := Restarting)
    else a
  }

  /** The APPLYING status that a config offer is answered with at once. */
  function Answer(a: Agent, m: ServerToAgent): Option<AgentToServer> {
    if m.remoteConfig.Some? then Some(ConfigStatus(a, m.remoteConfig.value.hash, STATUS_APPLYING)) else None
  }

  function Restarted(a: Agent, now: nat): Agent {
    a.(startTime := now)
  }

  // ----- the loop -----------------------------------------------------------------------------

  /** `Closed` also stands for a read error and for a pong that cannot be written: all end the loop. */
  datatype Input = Arrived(m: ServerToAgent, now: nat) | Ticked | Closed

  /** The agent and everything it has sent. */
  datatype Session = Session(agent: Agent, sent: seq<AgentToServer>) {

    function Say(m: AgentToServer, pc: Pc): Session {
      Session(Sent(agent, pc), sent + [m])
    }

    function Greet(): Session {
      Say(FullStatus(agent), Listening)
    }

    function Receive(m: ServerToAgent): Session {
      var answer := Answer(agent, m);
      Session(Received(agent, m), sent + if answer.Some? then [answer.value] else [])
    }

    function Apply(): Session {
      if agent.pc.Applying?
      then Say(ConfigApplied(agent, agent.pc.hash), if agent.pc.restart then Restarting else Listening)
      else this
    }

    function Restart(now: nat): Session {
      if agent.pc.Restarting?
      then Session(Restarted(agent, now), sent).Say(HealthReport(Restarted(agent, now)), Listening)
      else this
    }

    function Tick(): Session {
      Say(HealthReport(agent), Listening)
    }

    /** One pass of the loop, once it listens. */
    function Step(input: Input): Session {
      if !agent.pc.Listening? then this
      else match input
        case Arrived(m, now) => Receive(m).Apply().Restart(now)
        case Ticked => Tick()
        case Closed => Session(agent.(pc := Gone), sent)
    }
  }

  function Next(s: Session, input: Input): Session {
    s.Step(input)
  }

  ghost function SessionAfter(uid: Uid, profile: Profile, now: nat, inputs: seq<Input>): Session {
    Fold(Next, Session(Fresh(uid, profile, now), []).Greet(), inputs)
  }

  lemma StatusIgnoresConfig(a: Agent, config: string, hash: seq<byte>, status: int)
    ensures ConfigStatus(a.(effective := config), hash, status) == ConfigStatus(a, hash, status)
  {
  }

  lemma {:induction false} SentGrows(s0: Session, inputs: seq<Input>, n: nat)
    requires n <= |inputs|
    ensures Fold(Next, s0, inputs[..n]).sent <= Fold(Next, s0, inputs).sent
  {
    hide FullStatus, HealthReport, ConfigStatus, ConfigApplied, Received;
    if n == |inputs| {
      assert inputs[..n] == inputs;
    } else {
      var most := inputs[..|inputs| - 1];
      SentGrows(s0, most, n);
      assert most[..n] == inputs[..n] && inputs == most + [inputs[|inputs| - 1]];
      FoldSnoc(Next, s0, most, inputs[|inputs| - 1]);
    }
  }

  /** A loop whose next write fails has sent the first messages of the session, and no more. */
  lemma CutOff(s0: Session, inputs: seq<Input>, n: nat, sent: seq<AgentToServer>)
    requires n <= |inputs| && sent <= Fold(Next, s0, inputs[..n]).sent
    ensures |sent| <= |Fold(Next, s0, inputs).sent|
    ensures sent == Fold(Next, s0, inputs).sent[..|sent|]
  {
    hide Fold;
    SentGrows(s0, inputs, n);
  }

  lemma NothingNext(s0: Session)
    ensures Fold(Next, s0, []) == s0
  {
  }

  // ----- start times ------------------------------------------------------------------------------

  /** The start times that messages report, one for each health group. */
  ghost function ReportedStarts(sent: seq<AgentToServer>): seq<nat> {
    if sent == [] then [] else
    var m := sent[|sent| - 1];
    ReportedStarts(sent[..|sent| - 1]) + if m.health.Some? then [m.health.value.startTime] else []
  }

  lemma ReportedSnoc(sent: seq<AgentToServer>, m: AgentToServer)
    ensures ReportedStarts(sent + [m]) == ReportedStarts(sent) + if m.health.Some? then [m.health.value.startTime] else []
  {
    assert (sent + [m])[..|sent|] == sent;
  }

  lemma {:induction false} ReportedPrefix(sent: seq<AgentToServer>, n: nat)
    requires n <= |sent|
    ensures ReportedStarts(sent[..n]) <= ReportedStarts(sent)
  {
    if n == |sent| {
      assert sent[..n] == sent;
    } else {
      ReportedPrefix(sent[..|sent| - 1], n);
      assert sent[..|sent| - 1][..n] == sent[..n];
    }
  }

  /**
   * What an agent that connects now has to report: that time in its greeting, the time of arrival
   * for each restart order, and on each tick the latest of these again.
   */
  ghost function ExpectedStarts(now: nat, inputs: seq<Input>): (starts: seq<nat>)
    ensures starts != []
  {
    if inputs == [] then [now] else
    var before, input := ExpectedStarts(now, inputs[..|inputs| - 1]), inputs[|inputs| - 1];
    if Closed in inputs[..|inputs| - 1] then before
    else match input
      case Arrived(m, later) => if m.command == Some(0) then before + [later] else before
      case Ticked => before + [before[|before| - 1]]
      case Closed => before
  }

  /** The start time in force is the one last reported, in every state between two passes. */
  ghost predicate UpToDate(s: Session, starts: seq<nat>) {
    starts != [] && ReportedStarts(s.sent) == starts && s.agent.startTime == starts[|starts| - 1]
  }

  lemma GroupsOfMessages(a: Agent, hash: seq<byte>, status: int)
    ensures FullStatus(a).health.Some? && FullStatus(a).health.value.startTime == a.startTime
    ensures HealthReport(a).health.Some? && HealthReport(a).health.value.startTime == a.startTime
    ensures ConfigStatus(a, hash, status).health.None? && ConfigApplied(a, hash).health.None?
  {
    hide DescriptionOf;
    HealthFields(a.profile, a.startTime);
  }

  lemma ReceiveKeepsStarts(s: Session, m: ServerToAgent, starts: seq<nat>)
    requires s.agent.pc.Listening? && UpToDate(s, starts)
    ensures
      var s' := s.Receive(m).Apply();
      && UpToDate(s', starts)
      && s'.agent.pc == if m.command == Some(0) then Restarting else Listening
  {
    hide FullStatus, HealthReport, ConfigStatus, ConfigApplied, OfferedFile, ReportedStarts;
    if m.remoteConfig.Some? {
      var t, hash := s.Receive(m), m.remoteConfig.value.hash;
      var first, second := ConfigStatus(s.agent, hash, STATUS_APPLYING), ConfigApplied(t.agent, hash);
      GroupsOfMessages(s.agent, hash, STATUS_APPLYING);
      GroupsOfMessages(t.agent, hash, STATUS_APPLYING);
      ReportedSnoc(s.sent, first);
      ReportedSnoc(s.sent + [first], second);
    } else {
      assert s.sent + [] == s.sent;
    }
  }

  lemma StepReports(s: Session, input: Input, starts: seq<nat>)
    requires s.agent.pc.Listening? && UpToDate(s, starts)
    ensures
      var s' := s.Step(input);
      && UpToDate(s', match input
           case Arrived(m, later) => if m.command == Some(0) then starts + [later] else starts
           case Ticked => starts + [starts[|starts| - 1]]
           case Closed => starts)
      && s'.agent.pc == if input.Closed? then Gone else Listening
  {
    hide FullStatus, HealthReport, Received, Answer, Session.Receive, Session.Apply, ReportedStarts;
    match input
    case Arrived(m, later) =>
      ReceiveKeepsStarts(s, m, starts);
      var t := s.Receive(m).Apply();
      GroupsOfMessages(Restarted(t.agent, later), [], 0);
      ReportedSnoc(t.sent, HealthReport(Restarted(t.agent, later)));
    case Ticked =>
      GroupsOfMessages(s.agent, [], 0);
      ReportedSnoc(s.sent, HealthReport(s.agent));
    case Closed =>
  }

  /** Over a whole session, and so for as much of it as is ever written: the start times reported are those. */
  lemma {:induction false} SessionStarts(uid: Uid, profile: Profile, now: nat, inputs: seq<Input>)
    ensures UpToDate(SessionAfter(uid, profile, now, inputs), ExpectedStarts(now, inputs))
    ensures SessionAfter(uid, profile, now, inputs).agent.pc == if Closed in inputs then Gone else Listening
  {
    hide FullStatus, Session.Step;
    var s0 := Session(Fresh(uid, profile, now), []);
    if inputs == [] {
      GroupsOfMessages(s0.agent, [], 0);
      ReportedSnoc([], FullStatus(s0.agent));
      NothingNext(s0.Greet());
    } else {
      var most, input := inputs[..|inputs| - 1], inputs[|inputs| - 1];
      SessionStarts(uid, profile, now, most);
      assert inputs == most + [input];
      FoldSnoc(Next, s0.Greet(), most, input);
      var s := SessionAfter(uid, profile, now, most);
      if s.agent.pc.Listening? { StepReports(s, input, ExpectedStarts(now, most)); } else { GoneIsOver(s, input); }
    }
  }

  lemma GoneIsOver(s: Session, input: Input)
    requires s.agent.pc.Gone?
    ensures s.Step(input) == s
  {
  }

  lemma WrittenStarts(uid: Uid, profile: Profile, now: nat, inputs: seq<Input>, writes: nat)
    ensures
      var all := SessionAfter(uid, profile, now, inputs).sent;
      var sent := all[..Min(writes, |all|)];
      && ReportedStarts(sent) <= ExpectedStarts(now, inputs)
      && (|sent| < writes ==> ReportedStarts(sent) == ExpectedStarts(now, inputs))
  {
    hide SessionAfter;
    SessionStarts(uid, profile, now, inputs);
    var all := SessionAfter(uid, profile, now, inputs).sent;
    ReportedPrefix(all, Min(writes, |all|));
    assert all[..|all|] == all;
  }

  /** One server message: adopt and confirm an offered config, then restart if told to; `failed` at the write that does. */
  method HandleMessage(agent: Agent, before: seq<AgentToServer>, m: ServerToAgent, now: nat, writes: nat)
    returns (seqNum: nat, effective: string, startTime: nat, sent: seq<AgentToServer>, failed: bool)
    requires agent.pc.Listening? && |before| <= writes
    ensures
      var next := Session(agent, before).Step(Arrived(m, now));
      if failed then sent <= next.sent && |sent| == writes
      else next == Session(Agent(agent.uid, agent.profile, seqNum, effective, startTime, Listening), sent) && |sent| <= writes
  {
    hide FullStatus, HealthReport, ConfigStatus, ConfigApplied, Envelope;
    var uid, profile := agent.uid, agent.profile;
    seqNum, effective, startTime, sent, failed := agent.seqNum, agent.effective, agent.startTime, before, true;
    if m.remoteConfig.Some? {
      var rc := m.remoteConfig.value;
      var file := OfferedFile(rc.config);
      StatusIgnoresConfig(agent, if file.Some? then file.value else effective, rc.hash, STATUS_APPLYING);
      if file.Some? {
        effective := file.value;
      }
      if |sent| == writes { return; }
      var listening := Agent(uid, profile, seqNum, effective, startTime, Listening);
      sent := sent + [ConfigStatus(listening, rc.hash, STATUS_APPLYING)];
      seqNum := seqNum + 1;
      if |sent| == writes { return; }
      var applying := Applying(rc.hash, m.command == Some(COMMAND_RESTART));
      sent := sent + [ConfigApplied(Agent(uid, profile, seqNum, effective, startTime, applying), rc.hash)];
      seqNum := seqNum + 1;
    }
    if m.command == Some(COMMAND_RESTART) {
      startTime := now;
      if |sent| == writes { return; }
      sent := sent + [HealthReport(Agent(uid, profile, seqNum, effective, startTime, Restarting))];
      seqNum := seqNum + 1;
    }
    failed := false;
  }

  /**
   * `run_agent`, given what its `select!` yields, the clock at each arrival, and how many writes
   * succeed: the first one that fails ends the loop, whatever the agent was doing. What has been
   * sent is then a prefix of the whole session, and the start times it reports are the expected ones.
   */
  method RunAgent(uid: Uid, profile: Profile, now: nat, inputs: seq<Input>, writes: nat) returns (sent: seq<AgentToServer>)
    ensures
      var all := SessionAfter(uid, profile, now, inputs).sent;
      sent == all[..Min(writes, |all|)]
    ensures ReportedStarts(sent) <= ExpectedStarts(now, inputs)
    ensures |sent| < writes ==> ReportedStarts(sent) == ExpectedStarts(now, inputs)
  {
    hide FullStatus, HealthReport, ConfigStatus, ConfigApplied, Envelope, Received, OfferedFile, Answer, Fold;
    hide Session.Receive, Session.Apply, Session.Restart, ReportedStarts, ExpectedStarts;
    WrittenStarts(uid, profile, now, inputs, writes);
    var startTime, seqNum: nat, effective := now, 0, profile.base;
    ghost var s0 := Session(Fresh(uid, profile, now), []).Greet();
    assert inputs[..0] == [];
    NothingNext(s0);
    sent := [];
    if |sent| == writes { CutOff(s0, inputs, 0, sent); return; }
    sent := sent + [FullStatus(Agent(uid, profile, seqNum, effective, startTime, Greeting))];
    seqNum := seqNum + 1;
    var i := 0;
    while i < |inputs|
      invariant i <= |inputs| && |sent| <= writes
      invariant Fold(Next, s0, inputs[..i])
             == Session(Agent(uid, profile, seqNum, effective, startTime, Listening), sent)
    {
      var agent := Agent(uid, profile, seqNum, effective, startTime, Listening);
      assert inputs[..i + 1] == inputs[..i] + [inputs[i]];
      FoldSnoc(Next, s0, inputs[..i], inputs[i]);
      match inputs[i] {
        case Arrived(m, later) =>
          var failed: bool;
          seqNum, effective, startTime, sent, failed := HandleMessage(agent, sent, m, later, writes);
          if failed { CutOff(s0, inputs, i + 1, sent); return; }
        case Ticked =>
          if |sent| == writes { CutOff(s0, inputs, i + 1, sent); return; }
          sent := sent + [HealthReport(agent)];
          seqNum := seqNum + 1;
        case Closed =>
          ClosedStays(s0, inputs, i + 1);
          return;
      }
      i := i + 1;
    }
    assert inputs[..|inputs|] == inputs;
  }

  lemma {:induction false} ClosedStays(s0: Session, inputs: seq<Input>, n: nat)
    requires n <= |inputs|
    requires Fold(Next, s0, inputs[..n]).agent.pc == Gone
    ensures Fold(Next, s0, inputs)
         == Fold(Next, s0, inputs[..n])
    decreases |inputs| - n
  {
    if n < |inputs| {
      assert inputs[..n + 1] == inputs[..n] + [inputs[n]];
      FoldSnoc(Next, s0, inputs[..n], inputs[n]);
      ClosedStays(s0, inputs, n + 1);
    } else {
      assert inputs[..n] == inputs;
    }
  }

  // ----- what the sends add up to ---------------------------------------------------------------

  /** The config last offered, or the built-in one. */
  ghost function LastConfig(received: seq<ServerToAgent>, base: string): string {
    if received == [] then base
    else
      var m := received[|received| - 1];
      if m.remoteConfig.Some? && OfferedFile(m.remoteConfig.value.config).Some?
      then OfferedFile(m.remoteConfig.value.config).value
      else LastConfig(received[..|received| - 1], base)
  }

  ghost predicate AnyConfig(received: seq<ServerToAgent>) {
    exists i :: 0 <= i < |received| && received[i].remoteConfig.Some?
  }

  ghost predicate Enveloped(a: Agent, sent: seq<AgentToServer>) {
    && |sent| == a.seqNum
    && forall j :: 0 <= j < |sent| ==>
        && sent[j].instanceUid == a.uid
        && sent[j].sequenceNum == j + 1
        && sent[j].capabilities == MOCK_CAPS
        && !sent[j].disconnect
  }

  /** The first message describes the agent and reports its health; no later one describes it again. */
  ghost predicate Introduced(a: Agent, sent: seq<AgentToServer>) {
    forall j :: 0 <= j < |sent| ==>
      && sent[j].description == (if j == 0 then Some(DescriptionOf(a.uid, a.profile)) else None)
      && (j == 0 ==> sent[j].health.Some?)
      && (sent[j].health.Some? ==> sent[j].health.value.healthy == !a.profile.degraded)
  }

  /** An APPLIED status comes with the config it is about, and echoes the hash of the offer. */
  ghost predicate EchoesHash(m: AgentToServer, hash: string -> seq<byte>) {
    m.remoteConfigStatus.Some? && m.remoteConfigStatus.value.status == STATUS_APPLIED ==>
      && m.effectiveConfig.Some?
      && m.remoteConfigStatus.value.lastHash == hash(ExtractConfig(m.effectiveConfig.value))
  }

  /**
   * A config is answered in two messages under one hash, first APPLYING and then APPLIED, with
   * nothing between them; only an APPLYING sent last can still be waiting for the second.
   */
  ghost predicate AnsweredInPairs(pc: Pc, sent: seq<AgentToServer>, j: nat)
    requires j < |sent|
  {
    sent[j].remoteConfigStatus.Some? ==>
      var s := sent[j].remoteConfigStatus.value;
      && (s.status == 1 || s.status == 2) && s.error == ""
      && (s.status == 1 ==> j > 0 && sent[j - 1].remoteConfigStatus == Some(RemoteConfigStatus(s.lastHash, 2, "")))
      && (s.status == 2 ==>
            if j + 1 < |sent| then sent[j + 1].remoteConfigStatus == Some(RemoteConfigStatus(s.lastHash, 1, ""))
            else pc.Gone? || (pc.Applying? && pc.hash == s.lastHash))
  }

  ghost predicate Answering(pc: Pc, sent: seq<AgentToServer>) {
    && (forall j: nat :: j < |sent| ==> AnsweredInPairs(pc, sent, j))
    && (pc.Applying? ==>
          sent != [] && sent[|sent| - 1].remoteConfigStatus == Some(RemoteConfigStatus(pc.hash, 2, "")))
  }

  /** One more message: without a status or APPLYING after nothing pending, or APPLIED after its APPLYING. */
  lemma AnsweringNext(pc: Pc, sent: seq<AgentToServer>, m: AgentToServer, pc': Pc)
    requires Answering(pc, sent) && !pc.Gone?
    requires
      || (!pc.Applying? && !pc'.Applying? && m.remoteConfigStatus.None?)
      || (!pc.Applying? && pc'.Applying? && m.remoteConfigStatus == Some(RemoteConfigStatus(pc'.hash, 2, "")))
      || (pc.Applying? && !pc'.Applying? && m.remoteConfigStatus == Some(RemoteConfigStatus(pc.hash, 1, "")))
    ensures Answering(pc', sent + [m])
  {
    var all := sent + [m];
    forall j: nat | j < |all| ensures AnsweredInPairs(pc', all, j) {
      if j < |sent| { assert AnsweredInPairs(pc, sent, j); }
    }
  }

  lemma AnsweringSame(pc: Pc, sent: seq<AgentToServer>, pc': Pc)
    requires Answering(pc, sent) && !pc'.Applying? && (pc.Applying? ==> pc'.Gone?) && (pc.Gone? ==> pc'.Gone?)
    ensures Answering(pc', sent)
  {
    forall j: nat | j < |sent| ensures AnsweredInPairs(pc', sent, j) {
      assert AnsweredInPairs(pc, sent, j);
    }
  }

  /** Offers made by the server: one file, under its hash. */
  ghost predicate WellHashed(m: ServerToAgent, hash: string -> seq<byte>) {
    m.remoteConfig.Some? ==>
      && OfferedFile(m.remoteConfig.value.config).Some?
      && m.remoteConfig.value.hash == hash(OfferedFile(m.remoteConfig.value.config).value)
  }

  /** What everything sent so far merges to, at each point of the loop. */
  ghost predicate Tells(a: Agent, sent: seq<AgentToServer>, received: seq<ServerToAgent>) {
    var d := Accumulate(UidText(a.uid), sent);
    match a.pc
    case Greeting => sent == [] && received == []
    case Applying(_, _) =>
      && sent != [] && AnyConfig(received)
      && d.startTime == a.startTime
      && d.remoteStatus == Some(RemoteStatus("APPLYING", ""))
    case Gone => true
    case _ =>
      && sent != []
      && d.startTime == a.startTime
      && d.effectiveConfig == a.effective
      && d.remoteStatus == if AnyConfig(received) then Some(RemoteStatus("APPLIED", "")) else None
  }

  ghost predicate AgentInv(hash: string -> seq<byte>, a: Agent, sent: seq<AgentToServer>, received: seq<ServerToAgent>) {
    && Enveloped(a, sent)
    && Introduced(a, sent)
    && a.effective == LastConfig(received, a.profile.base)
    && Tells(a, sent, received)
    && Answering(a.pc, sent)
    && (forall j :: 0 <= j < |sent| ==> EchoesHash(sent[j], hash))
    && (a.pc.Applying? ==> a.pc.hash == hash(a.effective))
  }

  lemma FreshInv(hash: string -> seq<byte>, uid: Uid, profile: Profile, now: nat)
    ensures AgentInv(hash, Fresh(uid, profile, now), [], [])
  {
  }

  lemma ExtractYaml(yaml: string)
    ensures ExtractConfig(EffectiveConfig(Some(YamlConfigMap(yaml)))) == yaml
  {
  }

  /** Adding one message to the fold, for the two groups the convergence is about. */
  lemma AccumulateNext(uid: string, sent: seq<AgentToServer>, m: AgentToServer)
    ensures
      var d, d' := Accumulate(uid, sent), Accumulate(uid, sent + [m]);
      && d'.startTime == (if m.health.Some? then m.health.value.startTime else d.startTime)
      && d'.effectiveConfig == (if m.effectiveConfig.Some? then ExtractConfig(m.effectiveConfig.value) else d.effectiveConfig)
      && d'.remoteStatus == (if m.remoteConfigStatus.Some? then Some(StatusOf(m.remoteConfigStatus.value)) else d.remoteStatus)
  {
    hide ExtractConfig, NodeOf;
    FoldSnoc(Merge, NewDetail(uid), sent, m);
  }

  /** What an agent reports of its health: whether it is degraded, and since when it runs. */
  lemma HealthFields(profile: Profile, startTime: nat)
    ensures HealthOf(profile, startTime).startTime == startTime
    ensures HealthOf(profile, startTime).healthy <==> !profile.degraded
    ensures HealthOf(profile, startTime).status == if profile.degraded then "StatusRecoverableError" else "StatusOK"
  {
  }

  lemma GreetInv(hash: string -> seq<byte>, a: Agent, received: seq<ServerToAgent>)
    requires a.pc == Greeting && AgentInv(hash, a, [], received)
    ensures AgentInv(hash, Sent(a, Listening), [FullStatus(a)], received)
  {
    hide Answering, DescriptionOf, HealthOf, UidText, Merge;
    HealthFields(a.profile, a.startTime);
    AccumulateNext(UidText(a.uid), [], FullStatus(a));
    ExtractYaml(a.effective);
    assert [] + [FullStatus(a)] == [FullStatus(a)];
    AnsweringNext(Greeting, [], FullStatus(a), Listening);
  }

  lemma TickInv(hash: string -> seq<byte>, a: Agent, sent: seq<AgentToServer>, received: seq<ServerToAgent>)
    requires a.pc == Listening && AgentInv(hash, a, sent, received)
    ensures AgentInv(hash, Sent(a, Listening), sent + [HealthReport(a)], received)
  {
    hide Answering, DescriptionOf, HealthOf, UidText, Merge, LastConfig;
    HealthFields(a.profile, a.startTime);
    AccumulateNext(UidText(a.uid), sent, HealthReport(a));
    AnsweringNext(a.pc, sent, HealthReport(a), Listening);
  }

  /** A restart renews the start time and reports it in one step. */
  lemma RestartInv(hash: string -> seq<byte>, a: Agent, now: nat, sent: seq<AgentToServer>, received: seq<ServerToAgent>)
    requires a.pc == Restarting && AgentInv(hash, a, sent, received)
    ensures AgentInv(hash, Sent(Restarted(a, now), Listening), sent + [HealthReport(Restarted(a, now))], received)
  {
    hide Answering, DescriptionOf, HealthOf, UidText, Merge, LastConfig;
    HealthFields(a.profile, now);
    AccumulateNext(UidText(a.uid), sent, HealthReport(Restarted(a, now)));
    AnsweringNext(a.pc, sent, HealthReport(Restarted(a, now)), Listening);
  }

  lemma ApplyInv(hash: string -> seq<byte>, a: Agent, sent: seq<AgentToServer>, received: seq<ServerToAgent>, pc: Pc)
    requires a.pc.Applying? && AgentInv(hash, a, sent, received)
    requires pc == Listening || pc == Restarting
    ensures AgentInv(hash, Sent(a, pc), sent + [ConfigApplied(a, a.pc.hash)], received)
  {
    hide Answering, UidText, Merge, LastConfig, YamlConfigMap, ExtractConfig;
    AccumulateNext(UidText(a.uid), sent, ConfigApplied(a, a.pc.hash));
    ExtractYaml(a.effective);
    AnsweringNext(a.pc, sent, ConfigApplied(a, a.pc.hash), pc);
  }

  lemma ReceivedSnoc(received: seq<ServerToAgent>, m: ServerToAgent, base: string)
    ensures AnyConfig(received + [m]) <==> AnyConfig(received) || m.remoteConfig.Some?
    ensures LastConfig(received + [m], base) ==
      if m.remoteConfig.Some? && OfferedFile(m.remoteConfig.value.config).Some?
      then OfferedFile(m.remoteConfig.value.config).value
      else LastConfig(received, base)
  {
    assert (received + [m])[..|received|] == received;
    if AnyConfig(received) {
      var i :| 0 <= i < |received| && received[i].remoteConfig.Some?;
      assert (received + [m])[i].remoteConfig.Some?;
    }
    if m.remoteConfig.Some? { assert (received + [m])[|received|].remoteConfig.Some?; }
  }

  lemma ReceiveInv(hash: string -> seq<byte>, a: Agent, sent: seq<AgentToServer>, received: seq<ServerToAgent>, m: ServerToAgent)
    requires a.pc == Listening && AgentInv(hash, a, sent, received) && WellHashed(m, hash)
    ensures AgentInv(hash, Received(a, m),
                     sent + if Answer(a, m).Some? then [Answer(a, m).value] else [], received + [m])
  {
    hide Answering, UidText, Merge, LastConfig, AnyConfig, OfferedFile;
    ReceivedSnoc(received, m, a.profile.base);
    if m.remoteConfig.Some? {
      AccumulateNext(UidText(a.uid), sent, Answer(a, m).value);
      AnsweringNext(a.pc, sent, Answer(a, m).value, Received(a, m).pc);
    } else {
      assert sent + [] == sent;
      AnsweringSame(a.pc, sent, Received(a, m).pc);
    }
  }

  // ----- the agent in the list ------------------------------------------------------------------

  /** An entry that is this agent's: under its host name, and open to both commands. */
  ghost predicate ShowsAgent(d: AgentDetail, a: Agent) {
    && d.uid == UidText(a.uid) && d.name == a.profile.host && d.version == a.profile.version
    && d.healthy == !a.profile.degraded
    && Supports(d, "AcceptsRemoteConfig") && Supports(d, "AcceptsRestartCommand")
  }

  lemma NameOfAgent(uid: Uid, profile: Profile, text: string, name: string, version: string)
    requires NamedBy(DescriptionOf(uid, profile), text, name) && VersionedBy(DescriptionOf(uid, profile), version)
    ensures name == profile.host && version == profile.version
  {
    hide UidText, IsTail;
    var desc := DescriptionOf(uid, profile);
    DifferentKeys();
    assert FirstUnder(desc.nonIdentifying, "host.name", 1);
    assert FirstUnder(desc.identifying, "service.version", 1);
  }

  lemma DifferentKeys()
    ensures "os.type" != "host.name" && "service.name" != "service.version"
  {
    assert |"os.type"| == 7 && |"host.name"| == 9 && |"service.name"| == 12 && |"service.version"| == 15;
  }

  lemma Described(d: AgentDetail, m: AgentToServer)
    ensures Merge(d, m).uid == d.uid
    ensures m.health.Some? ==> Merge(d, m).healthy == m.health.value.healthy
    ensures m.health.None? ==> Merge(d, m).healthy == d.healthy
    ensures m.description.None? ==> Merge(d, m).name == d.name && Merge(d, m).version == d.version
    ensures m.description.Some? ==>
      NamedBy(m.description.value, d.uid, Merge(d, m).name) && VersionedBy(m.description.value, Merge(d, m).version)
  {
    hide DisplayName, Version, KvPairs, ExtractConfig, Describe, NodeOf, NamedBy, VersionedBy;
    if m.description.Some? {
      DisplayNameRule(m.description.value, d.uid);
      VersionRule(m.description.value);
    }
  }

  /** After any number of the agent's messages, its entry shows it. */
  lemma {:induction false} EntryShowsAgent(
      hash: string -> seq<byte>, a: Agent, sent: seq<AgentToServer>, received: seq<ServerToAgent>, n: nat)
    requires AgentInv(hash, a, sent, received) && 0 < n <= |sent|
    ensures ShowsAgent(Accumulate(UidText(a.uid), sent[..n]), a)
  {
    hide Tells, LastConfig, UidText, Merge, Supports, DescriptionOf, NamedBy, VersionedBy, EchoesHash;
    var most, m := sent[..n - 1], sent[n - 1];
    var d := Accumulate(UidText(a.uid), most);
    assert sent[..n] == most + [m];
    FoldSnoc(Merge, NewDetail(UidText(a.uid)), most, m);
    Described(d, m);
    SupportsIsLatestBitmask(d, m);
    BothBits();
    if n > 1 {
      EntryShowsAgent(hash, a, sent, received, n - 1);
    } else {
      assert most == [];
      NameOfAgent(a.uid, a.profile, d.uid, Merge(d, m).name, Merge(d, m).version);
    }
  }

  lemma BothBits()
    ensures MOCK_CAPS & 0x2 != 0 && MOCK_CAPS & 0x400 != 0 && MOCK_CAPS & 0xE0 != 0
  {
  }
}
