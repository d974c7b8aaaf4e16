/**
 * OpAMP messages as far as this server reads and writes them, instance UIDs and their text,
 * and the capability bitmask (crates/otelc-opamp). Frame decoding is abstract: a
 * binary frame carries the message it decodes to, or none.
 */
module Opamp {
  import opened Prelude
  import opened HealthTree

  type Uid = u: seq<byte> | |u| == 16 witness seq(16, _ => 0)

  // ----- instance UIDs --------------------------------------------------------------------

  function HexDigit(n: nat): char
    requires n < 16
  {
    if n < 10 then '0' + n as char else 'a' + (n - 10) as char
  }

  function Hex(b: seq<byte>): (t: string)
    ensures |t| == 2 * |b|
  {
    if b == [] then [] else [HexDigit(b[0] / 16), HexDigit(b[0] % 16)] + Hex(b[1..])
  }

  /** The hyphenated lower-case text of section 4 of RFC 9562. */
  function UidText(u: Uid): string {
    Hex(u[..4]) + "-" + Hex(u[4..6]) + "-" + Hex(u[6..8]) + "-" + Hex(u[8..10]) + "-" + Hex(u[10..])
  }

  lemma HexParts(b: seq<byte>)
    requires b != []
    ensures Hex(b)[0] == HexDigit(b[0] / 16) && Hex(b)[1] == HexDigit(b[0] % 16)
    ensures Hex(b)[2..] == Hex(b[1..])
  {
  }

  lemma {:induction false} HexInjective(a: seq<byte>, b: seq<byte>)
    requires Hex(a) == Hex(b)
    ensures a == b
  {
    assert |Hex(a)| == |Hex(b)|;
    if a != [] {
      HexParts(a);
      HexParts(b);
      HexInjective(a[1..], b[1..]);
      assert a == [a[0]] + a[1..] && b == [b[0]] + b[1..];
    }
  }

  /** Different UIDs print differently, so keying the UI by text loses nothing. */
  lemma UidTextInjective(a: Uid, b: Uid)
    ensures UidText(a) == UidText(b) <==> a == b
  {
    if UidText(a) == UidText(b) {
      var t := UidText(a);
      UidTextFields(a);
      UidTextFields(b);
      HexInjective(a[..4], b[..4]);
      HexInjective(a[4..6], b[4..6]);
      HexInjective(a[6..8], b[6..8]);
      HexInjective(a[8..10], b[8..10]);
      HexInjective(a[10..], b[10..]);
      assert a == a[..4] + a[4..6] + a[6..8] + a[8..10] + a[10..];
      assert b == b[..4] + b[4..6] + b[6..8] + b[8..10] + b[10..];
    }
  }

  function HexValue(c: char): int {
    if '0' <= c <= '9' then c as int - '0' as int
    else if 'a' <= c <= 'f' then c as int - 'a' as int + 10
    else -1
  }

  /** Two lower-case digits for each byte, the high one first. */
  lemma {:induction false} HexReads(b: seq<byte>, i: nat)
    requires i < |b|
    ensures HexValue(Hex(b)[2 * i]) >= 0 && HexValue(Hex(b)[2 * i + 1]) >= 0
    ensures HexValue(Hex(b)[2 * i]) * 16 + HexValue(Hex(b)[2 * i + 1]) == b[i]
  {
    HexParts(b);
    if i > 0 {
      HexReads(b[1..], i - 1);
      assert Hex(b)[2..][2 * i - 2] == Hex(b)[2 * i] && Hex(b)[2..][2 * i - 1] == Hex(b)[2 * i + 1];
    }
  }

  lemma UidTextFields(u: Uid)
    ensures |UidText(u)| == 36
    ensures UidText(u)[..8] == Hex(u[..4]) && UidText(u)[9..13] == Hex(u[4..6])
    ensures UidText(u)[14..18] == Hex(u[6..8]) && UidText(u)[19..23] == Hex(u[8..10])
    ensures UidText(u)[24..] == Hex(u[10..])
  {
    hide Hex;
    Fields(Hex(u[..4]), Hex(u[4..6]), Hex(u[6..8]), Hex(u[8..10]), Hex(u[10..]));
  }

  lemma Fields(a: string, b: string, c: string, d: string, e: string)
    requires |a| == 8 && |b| == 4 && |c| == 4 && |d| == 4
    ensures
      var text := a + "-" + b + "-" + c + "-" + d + "-" + e;
      && text[..8] == a && text[9..13] == b && text[14..18] == c && text[19..23] == d && text[24..] == e
  {
  }

  /** `InstanceUid::from_bytes(..).unwrap_or_else(new_v7)`: only 16 bytes are a UID. */
  function Resolve(raw: seq<byte>, spare: Uid): Uid {
    if |raw| == 16 then raw else spare
  }

  // ----- capabilities ---------------------------------------------------------------------

  const REPORTS_STATUS: bv64 := 0x1
  const ACCEPTS_REMOTE_CONFIG: bv64 := 0x2
  const REPORTS_EFFECTIVE_CONFIG: bv64 := 0x4
  const REPORTS_OWN_TRACES: bv64 := 0x20
  const REPORTS_OWN_METRICS: bv64 := 0x40
  const REPORTS_OWN_LOGS: bv64 := 0x80
  const ACCEPTS_OPAMP_CONNECTION_SETTINGS: bv64 := 0x100
  const ACCEPTS_RESTART_COMMAND: bv64 := 0x400
  const REPORTS_HEALTH: bv64 := 0x800
  const REPORTS_REMOTE_CONFIG: bv64 := 0x1000
  const REPORTS_AVAILABLE_COMPONENTS: bv64 := 0x4000

  predicate Has(caps: bv64, bit: bv64) {
    bit != 0 && caps & bit == bit
  }

  function Describe(caps: bv64): seq<(string, bool)> {
    [ ("ReportsStatus", Has(caps, REPORTS_STATUS)),
      ("AcceptsRemoteConfig", Has(caps, ACCEPTS_REMOTE_CONFIG)),
      ("ReportsEffectiveConfig", Has(caps, REPORTS_EFFECTIVE_CONFIG)),
      ("ReportsHealth", Has(caps, REPORTS_HEALTH)),
      ("ReportsRemoteConfig", Has(caps, REPORTS_REMOTE_CONFIG)),
      ("ReportsOwnMetrics", Has(caps, REPORTS_OWN_METRICS)),
      ("ReportsOwnLogs", Has(caps, REPORTS_OWN_LOGS)),
      ("ReportsOwnTraces", Has(caps, REPORTS_OWN_TRACES)),
      ("AcceptsRestartCommand", Has(caps, ACCEPTS_RESTART_COMMAND)),
      ("AcceptsOpAMPConnectionSettings", Has(caps, ACCEPTS_OPAMP_CONNECTION_SETTINGS)),
      ("ReportsAvailableComponents", Has(caps, REPORTS_AVAILABLE_COMPONENTS)) ]
  }

  predicate ReportsOwnTelemetry(caps: bv64) {
    || Has(caps, REPORTS_OWN_METRICS)
    || Has(caps, REPORTS_OWN_LOGS)
    || Has(caps, REPORTS_OWN_TRACES)
  }

  /** Each bit of the OpAMP specification's AgentCapabilities that the server or the UI looks at. */
  lemma BitsOfCapabilities(caps: bv64)
    ensures Has(caps, REPORTS_STATUS) <==> caps & 0x1 != 0
    ensures Has(caps, ACCEPTS_REMOTE_CONFIG) <==> caps & 0x2 != 0
    ensures Has(caps, REPORTS_EFFECTIVE_CONFIG) <==> caps & 0x4 != 0
    ensures Has(caps, REPORTS_OWN_TRACES) <==> caps & 0x20 != 0
    ensures Has(caps, REPORTS_OWN_METRICS) <==> caps & 0x40 != 0
    ensures Has(caps, REPORTS_OWN_LOGS) <==> caps & 0x80 != 0
    ensures Has(caps, ACCEPTS_OPAMP_CONNECTION_SETTINGS) <==> caps & 0x100 != 0
    ensures Has(caps, ACCEPTS_RESTART_COMMAND) <==> caps & 0x400 != 0
    ensures Has(caps, REPORTS_HEALTH) <==> caps & 0x800 != 0
    ensures Has(caps, REPORTS_REMOTE_CONFIG) <==> caps & 0x1000 != 0
    ensures Has(caps, REPORTS_AVAILABLE_COMPONENTS) <==> caps & 0x4000 != 0
  {
  }

  /** The label list, in its order, with the flag of each label's bit. */
  lemma DescribeRule(caps: bv64)
    ensures Describe(caps) ==
      [ ("ReportsStatus", caps & 0x1 != 0), ("AcceptsRemoteConfig", caps & 0x2 != 0),
        ("ReportsEffectiveConfig", caps & 0x4 != 0), ("ReportsHealth", caps & 0x800 != 0),
        ("ReportsRemoteConfig", caps & 0x1000 != 0), ("ReportsOwnMetrics", caps & 0x40 != 0),
        ("ReportsOwnLogs", caps & 0x80 != 0), ("ReportsOwnTraces", caps & 0x20 != 0),
        ("AcceptsRestartCommand", caps & 0x400 != 0), ("AcceptsOpAMPConnectionSettings", caps & 0x100 != 0),
        ("ReportsAvailableComponents", caps & 0x4000 != 0) ]
  {
    hide Has;
    BitsOfCapabilities(caps);
  }

  /** An agent reports telemetry of its own if any of the three bits 0x20, 0x40 and 0x80 is set. */
  lemma ReportsOwnTelemetryBits(caps: bv64)
    ensures ReportsOwnTelemetry(caps) <==> caps & 0xE0 != 0
  {
    BitsOfCapabilities(caps);
    ThreeBits(caps);
  }

  lemma ThreeBits(caps: bv64)
    ensures caps & 0xE0 != 0 <==> caps & 0x20 != 0 || caps & 0x40 != 0 || caps & 0x80 != 0
  {
  }

  // ----- agent to server ------------------------------------------------------------------

  /** An attribute with its value already rendered as text, if it has one. */
  datatype KeyValue = KeyValue(key: string, value: Option<string>)

  datatype AgentDescription = AgentDescription(identifying: seq<KeyValue>, nonIdentifying: seq<KeyValue>)

  /** A config map in some iteration order: file names and bodies. */
  type ConfigMap = seq<(string, string)>

  datatype EffectiveConfig = EffectiveConfig(configMap: Option<ConfigMap>)

  const STATUS_APPLIED := 1
  const STATUS_APPLYING := 2
  const STATUS_FAILED := 3

  datatype RemoteConfigStatus = RemoteConfigStatus(lastHash: seq<byte>, status: int, error: string)

  datatype AgentToServer = AgentToServer(
    instanceUid: seq<byte>,
    sequenceNum: nat,
    capabilities: bv64,
    description: Option<AgentDescription>,
    health: Option<ComponentHealth>,
    effectiveConfig: Option<EffectiveConfig>,
    remoteConfigStatus: Option<RemoteConfigStatus>,
    disconnect: bool)

  /** `yaml_config_map` */
  function YamlConfigMap(yaml: string): ConfigMap {
    [("", yaml)]
  }

  /** `map.get(name)` */
  function Lookup(files: ConfigMap, name: string): Option<string> {
    if files == [] then None
    else if files[0].0 == name then Some(files[0].1)
    else Lookup(files[1..], name)
  }

  /** i is the first file of this name. */
  ghost predicate FirstFile(files: ConfigMap, name: string, i: nat) {
    i < |files| && files[i].0 == name && forall j :: 0 <= j < i ==> files[j].0 != name
  }

  lemma {:induction false} LookupRule(files: ConfigMap, name: string, i: nat)
    ensures FirstFile(files, name, i) ==> Lookup(files, name) == Some(files[i].1)
    ensures (forall j :: 0 <= j < |files| ==> files[j].0 != name) ==> Lookup(files, name) == None
  {
    if files != [] && files[0].0 != name {
      assert forall j :: 0 <= j < |files| - 1 ==> files[1..][j] == files[j + 1];
      LookupRule(files[1..], name, if i > 0 then i - 1 else 0);
    }
  }

  // ----- server to agent ------------------------------------------------------------------

  const COMMAND_RESTART := 0

  datatype RemoteConfig = RemoteConfig(config: Option<ConfigMap>, hash: seq<byte>)

  datatype ServerToAgent = ServerToAgent(
    instanceUid: Uid,
    remoteConfig: Option<RemoteConfig>,
    command: Option<int>,
    telemetryOffer: Option<string>)

  /** What the embedder fixes: the telemetry endpoint to offer, and the config hash (SHA-256). */
  datatype Settings = Settings(offer: Option<string>, hash: string -> seq<byte>)

  function Reply(cfg: Settings, uid: Uid, caps: bv64, first: bool): ServerToAgent {
    ServerToAgent(uid, None, None, if first && ReportsOwnTelemetry(caps) then cfg.offer else None)
  }

  function ConfigOffer(cfg: Settings, uid: Uid, yaml: string): ServerToAgent {
    ServerToAgent(uid, Some(RemoteConfig(Some(YamlConfigMap(yaml)), cfg.hash(yaml))), None, None)
  }

  function RestartOrder(uid: Uid): ServerToAgent {
    ServerToAgent(uid, None, Some(COMMAND_RESTART), None)
  }

  /** Pushes carry a config or a command; replies carry neither. */
  predicate IsPush(m: ServerToAgent) {
    m.remoteConfig.Some? || m.command.Some?
  }

  predicate IsReply(m: ServerToAgent) {
    !IsPush(m)
  }

  // ----- server events --------------------------------------------------------------------

  datatype OpampEvent =
    | Message(uid: Uid, msg: AgentToServer)
    | Disconnected(uid: Uid)
}
