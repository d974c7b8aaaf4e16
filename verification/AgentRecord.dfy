/**
 * The UI's record of one agent, and how sparse messages accumulate into it
 * (control/mod.rs AgentDetail, control/embedded.rs merge).
 */
module AgentRecord {
  import opened Prelude
  import opened HealthTree
  import opened Opamp

  datatype RemoteStatus = RemoteStatus(state: string, error: string)

  datatype AgentDetail = AgentDetail(
    uid: string,
    name: string,
    version: string,
    healthy: bool,
    status: string,
    identifying: seq<(string, string)>,
    nonIdentifying: seq<(string, string)>,
    capabilities: seq<(string, bool)>,
    effectiveConfig: string,
    health: Option<HealthNode>,
    remoteStatus: Option<RemoteStatus>,
    startTime: nat,
    sequenceNum: nat)

  function NewDetail(uid: string): AgentDetail {
    AgentDetail(uid, uid, "", true, "", [], [], [], "", None, None, 0, 0)
  }

  // ----- the parts of merge -----------------------------------------------------------------

  function KvPairs(attrs: seq<KeyValue>): seq<(string, string)> {
    seq(|attrs|, i requires 0 <= i < |attrs| =>
      (attrs[i].key, if attrs[i].value.Some? then attrs[i].value.value else ""))
  }

  function Attr(pairs: seq<(string, string)>, key: string): Option<string> {
    if pairs == [] then None
    else if pairs[0].0 == key then Some(pairs[0].1)
    else Attr(pairs[1..], key)
  }

  /** `rsplit('-').next()`: what follows the last dash. */
  function AfterLastDash(s: string): string {
    if '-' !in s then s else AfterLastDash(s[1..])
  }

  function DisplayName(identifying: seq<(string, string)>, nonIdentifying: seq<(string, string)>, uid: string): string {
    var host, service := Attr(nonIdentifying, "host.name"), Attr(identifying, "service.name");
    if host.Some? then host.value else if service.Some? then service.value else AfterLastDash(uid)
  }

  function Version(identifying: seq<(string, string)>): string {
    var version := Attr(identifying, "service.version");
    if version.Some? then version.value else ""
  }

  function JoinBodies(files: ConfigMap): string {
    if files == [] then ""
    else if |files| == 1 then files[0].1
    else files[0].1 + "\n---\n" + JoinBodies(files[1..])
  }

  function ExtractConfig(effective: EffectiveConfig): string {
    if effective.configMap.None? then ""
    else
      var main := Lookup(effective.configMap.value, "");
      if main.Some? then main.value else JoinBodies(effective.configMap.value)
  }

  function StatusLabel(status: int): string {
    if status == STATUS_APPLIED then "APPLIED"
    else if status == STATUS_APPLYING then "APPLYING"
    else if status == STATUS_FAILED then "FAILED"
    else "UNSET"
  }

  function StatusOf(remote: RemoteConfigStatus): RemoteStatus {
    RemoteStatus(StatusLabel(remote.status), remote.error)
  }

  // ----- what those parts mean, stated on the attributes and files themselves ---------------------

  /** The rendered value of an attribute; one without a value reads as empty. */
  ghost predicate Reads(kv: KeyValue, text: string) {
    text == match kv.value case Some(value) => value case None => ""
  }

  /** i is the first attribute under this key. */
  ghost predicate FirstUnder(attrs: seq<KeyValue>, key: string, i: nat) {
    i < |attrs| && attrs[i].key == key && forall j :: 0 <= j < i ==> attrs[j].key != key
  }

  ghost predicate NoneUnder(attrs: seq<KeyValue>, key: string) {
    forall j :: 0 <= j < |attrs| ==> attrs[j].key != key
  }

  /** What follows the last dash of s, or all of s if it has none. */
  ghost predicate IsTail(s: string, tail: string) {
    '-' !in tail && (tail == s || exists k :: 0 <= k < |s| && s[k] == '-' && tail == s[k + 1..])
  }

  /** The first host name, else the first service name, else the tail of the UID. */
  ghost predicate NamedBy(desc: AgentDescription, uid: string, name: string) {
    && (forall i: nat :: FirstUnder(desc.nonIdentifying, "host.name", i) ==> Reads(desc.nonIdentifying[i], name))
    && (NoneUnder(desc.nonIdentifying, "host.name") ==>
          && (forall i: nat :: FirstUnder(desc.identifying, "service.name", i) ==> Reads(desc.identifying[i], name))
          && (NoneUnder(desc.identifying, "service.name") ==> IsTail(uid, name)))
  }

  /** The first service version, else nothing. */
  ghost predicate VersionedBy(desc: AgentDescription, version: string) {
    && (forall i: nat :: FirstUnder(desc.identifying, "service.version", i) ==> Reads(desc.identifying[i], version))
    && (NoneUnder(desc.identifying, "service.version") ==> version == "")
  }

  /** Every attribute is listed, in order, under its key. */
  ghost predicate ListedAs(attrs: seq<KeyValue>, pairs: seq<(string, string)>) {
    && |pairs| == |attrs|
    && forall i :: 0 <= i < |attrs| ==> pairs[i].0 == attrs[i].key && Reads(attrs[i], pairs[i].1)
  }

  /** The unnamed file if there is one, else all bodies with a separator between them. */
  ghost predicate ConfiguredBy(effective: EffectiveConfig, text: string) {
    match effective.configMap
    case None => text == ""
    case Some(files) =>
      && (forall i: nat :: FirstFile(files, "", i) ==> text == files[i].1)
      && ((forall i :: 0 <= i < |files| ==> files[i].0 != "") ==> text == JoinBodies(files))
  }

  ghost predicate LabelledBy(remote: RemoteConfigStatus, status: RemoteStatus) {
    && status.error == remote.error
    && (remote.status == 1 ==> status.state == "APPLIED")
    && (remote.status == 2 ==> status.state == "APPLYING")
    && (remote.status == 3 ==> status.state == "FAILED")
    && (remote.status != 1 && remote.status != 2 && remote.status != 3 ==> status.state == "UNSET")
  }

  lemma SomeUnder(attrs: seq<KeyValue>, key: string) returns (i: nat)
    ensures FirstUnder(attrs, key, i) || NoneUnder(attrs, key)
  {
    i := 0;
    while i < |attrs| && attrs[i].key != key
      invariant i <= |attrs| && forall j :: 0 <= j < i ==> attrs[j].key != key
    {
      i := i + 1;
    }
  }

  lemma KvPairsRule(attrs: seq<KeyValue>)
    ensures ListedAs(attrs, KvPairs(attrs))
  {
  }

  lemma {:induction false} AttrRule(pairs: seq<(string, string)>, key: string, i: nat)
    ensures i < |pairs| && pairs[i].0 == key && (forall j :: 0 <= j < i ==> pairs[j].0 != key) ==>
      Attr(pairs, key) == Some(pairs[i].1)
    ensures (forall j :: 0 <= j < |pairs| ==> pairs[j].0 != key) ==> Attr(pairs, key) == None
  {
    if pairs != [] && pairs[0].0 != key {
      assert forall j :: 0 <= j < |pairs| - 1 ==> pairs[1..][j] == pairs[j + 1];
      AttrRule(pairs[1..], key, if i > 0 then i - 1 else 0);
    }
  }

  /** On attributes: `attr` after `kv_pairs` reads the first one under the key. */
  lemma AttrReads(attrs: seq<KeyValue>, key: string, i: nat)
    ensures FirstUnder(attrs, key, i) ==>
      Attr(KvPairs(attrs), key).Some? && Reads(attrs[i], Attr(KvPairs(attrs), key).value)
    ensures NoneUnder(attrs, key) ==> Attr(KvPairs(attrs), key) == None
  {
    hide Attr;
    KvPairsRule(attrs);
    AttrRule(KvPairs(attrs), key, i);
  }

  lemma {:induction false} AfterLastDashRule(s: string)
    ensures IsTail(s, AfterLastDash(s))
  {
    if '-' in s {
      AfterLastDashRule(s[1..]);
      var tail := AfterLastDash(s[1..]);
      if tail == s[1..] {
        assert s[0] == '-' && tail == s[0 + 1..];
      } else {
        var k :| 0 <= k < |s[1..]| && s[1..][k] == '-' && tail == s[1..][k + 1..];
        assert s[k + 1] == '-' && tail == s[k + 2..];
      }
    }
  }

  lemma TailUnique(s: string, a: string, b: string)
    requires IsTail(s, a) && IsTail(s, b)
    ensures a == b
  {
    if a != s && b != s {
      var j :| 0 <= j < |s| && s[j] == '-' && a == s[j + 1..];
      var k :| 0 <= k < |s| && s[k] == '-' && b == s[k + 1..];
      DashBehind(s, j, k);
      DashBehind(s, k, j);
    }
  }

  lemma DashBehind(s: string, j: int, k: int)
    requires 0 <= j < |s| && 0 <= k < |s| && s[k] == '-'
    ensures j < k ==> '-' in s[j + 1..]
  {
    if j < k { assert s[j + 1..][k - j - 1] == '-'; }
  }

  /** The list's name for an agent follows the rule... */
  lemma DisplayNameRule(desc: AgentDescription, uid: string)
    ensures NamedBy(desc, uid, DisplayName(KvPairs(desc.identifying), KvPairs(desc.nonIdentifying), uid))
  {
    hide Attr, KvPairs, FirstUnder, NoneUnder, Reads, AfterLastDash, IsTail;
    var i := SomeUnder(desc.nonIdentifying, "host.name");
    var j := SomeUnder(desc.identifying, "service.name");
    AttrReads(desc.nonIdentifying, "host.name", i);
    AttrReads(desc.identifying, "service.name", j);
    AfterLastDashRule(uid);
    forall k: nat | FirstUnder(desc.nonIdentifying, "host.name", k)
      ensures FirstUnder(desc.nonIdentifying, "host.name", i) && k == i
    {
      FirstIsOne(desc.nonIdentifying, "host.name", i, k);
    }
    forall k: nat | FirstUnder(desc.identifying, "service.name", k)
      ensures FirstUnder(desc.identifying, "service.name", j) && k == j
    {
      FirstIsOne(desc.identifying, "service.name", j, k);
    }
    if FirstUnder(desc.nonIdentifying, "host.name", i) { FirstIsSome(desc.nonIdentifying, "host.name", i); }
    if FirstUnder(desc.identifying, "service.name", j) { FirstIsSome(desc.identifying, "service.name", j); }
  }

  lemma FirstIsOne(attrs: seq<KeyValue>, key: string, i: nat, k: nat)
    requires FirstUnder(attrs, key, k) && (FirstUnder(attrs, key, i) || NoneUnder(attrs, key))
    ensures FirstUnder(attrs, key, i) && k == i
  {
  }

  lemma FirstIsSome(attrs: seq<KeyValue>, key: string, i: nat)
    requires FirstUnder(attrs, key, i)
    ensures !NoneUnder(attrs, key)
  {
  }

  /** ...and so does its version. */
  lemma VersionRule(desc: AgentDescription)
    ensures VersionedBy(desc, Version(KvPairs(desc.identifying)))
  {
    hide Attr, KvPairs, FirstUnder, NoneUnder, Reads;
    var i := SomeUnder(desc.identifying, "service.version");
    AttrReads(desc.identifying, "service.version", i);
    forall k: nat | FirstUnder(desc.identifying, "service.version", k)
      ensures FirstUnder(desc.identifying, "service.version", i) && k == i
    {
      FirstIsOne(desc.identifying, "service.version", i, k);
    }
  }

  /** The rules leave one name and one version. */
  lemma NameUnique(desc: AgentDescription, uid: string, a: string, b: string)
    requires NamedBy(desc, uid, a) && NamedBy(desc, uid, b)
    ensures a == b
  {
    hide FirstUnder, NoneUnder, IsTail;
    var i := SomeUnder(desc.nonIdentifying, "host.name");
    var j := SomeUnder(desc.identifying, "service.name");
    if NoneUnder(desc.nonIdentifying, "host.name") && NoneUnder(desc.identifying, "service.name") {
      TailUnique(uid, a, b);
    }
  }

  lemma VersionUnique(desc: AgentDescription, a: string, b: string)
    requires VersionedBy(desc, a) && VersionedBy(desc, b)
    ensures a == b
  {
    hide FirstUnder, NoneUnder;
    var i := SomeUnder(desc.identifying, "service.version");
  }

  lemma ListedUnique(attrs: seq<KeyValue>, a: seq<(string, string)>, b: seq<(string, string)>)
    requires ListedAs(attrs, a) && ListedAs(attrs, b)
    ensures a == b
  {
  }

  lemma SomeFile(files: ConfigMap, name: string) returns (i: nat)
    ensures FirstFile(files, name, i) || forall j :: 0 <= j < |files| ==> files[j].0 != name
  {
    i := 0;
    while i < |files| && files[i].0 != name
      invariant i <= |files| && forall j :: 0 <= j < i ==> files[j].0 != name
    {
      i := i + 1;
    }
  }

  lemma ConfigRule(effective: EffectiveConfig)
    ensures ConfiguredBy(effective, ExtractConfig(effective))
  {
    hide JoinBodies, Lookup;
    if effective.configMap.Some? {
      var files := effective.configMap.value;
      var i := SomeFile(files, "");
      LookupRule(files, "", i);
    }
  }

  lemma ConfigUnique(effective: EffectiveConfig, a: string, b: string)
    requires ConfiguredBy(effective, a) && ConfiguredBy(effective, b)
    ensures a == b
  {
    hide JoinBodies, FirstFile;
    if effective.configMap.Some? { var i := SomeFile(effective.configMap.value, ""); }
  }

  /** Joining bodies puts the separator between any two parts, and nothing else. */
  lemma {:induction false} JoinBodiesRule(a: ConfigMap, b: ConfigMap, name: string, body: string)
    requires a != [] && b != []
    ensures JoinBodies([]) == "" && JoinBodies([(name, body)]) == body
    ensures JoinBodies(a + b) == JoinBodies(a) + "\n---\n" + JoinBodies(b)
  {
    if |a| == 1 {
      assert (a + b)[0] == a[0] && (a + b)[1..] == b;
    } else {
      JoinBodiesRule(a[1..], b, name, body);
      assert (a + b)[0] == a[0] && (a + b)[1..] == a[1..] + b;
      JoinAssociates(a[0].1 + "\n---\n", JoinBodies(a[1..]), "\n---\n", JoinBodies(b));
    }
  }

  lemma JoinAssociates(a: string, b: string, c: string, d: string)
    ensures a + (b + c + d) == (a + b) + c + d
  {
  }

  lemma StatusRule(remote: RemoteConfigStatus)
    ensures LabelledBy(remote, StatusOf(remote))
  {
  }

  // ----- merge --------------------------------------------------------------------------------

  function Merge(detail: AgentDetail, msg: AgentToServer): AgentDetail {
    var d := detail.(sequenceNum := msg.sequenceNum, capabilities := Describe(msg.capabilities));
    var d := if msg.description.None? then d else
      var identifying := KvPairs(msg.description.value.identifying);
      var nonIdentifying := KvPairs(msg.description.value.nonIdentifying);
      d.(identifying := identifying, nonIdentifying := nonIdentifying,
         name := DisplayName(identifying, nonIdentifying, d.uid), version := Version(identifying));
    var d := if msg.health.None? then d else
      var health := msg.health.value;
      d.(healthy := health.healthy, status := health.status, startTime := health.startTime,
         health := Some(NodeOf("agent", health)));
    var d := if msg.effectiveConfig.None? then d
      else d.(effectiveConfig := ExtractConfig(msg.effectiveConfig.value));
    if msg.remoteConfigStatus.None? then d
      else d.(remoteStatus := Some(StatusOf(msg.remoteConfigStatus.value)))
  }

  /** `merge` as the source runs it, field by field. */
  method MergeInto(detail: AgentDetail, msg: AgentToServer) returns (d: AgentDetail)
    ensures d == Merge(detail, msg)
    ensures msg.description.Some? ==>
      NamedBy(msg.description.value, detail.uid, d.name) && VersionedBy(msg.description.value, d.version)
    ensures msg.effectiveConfig.Some? ==> ConfiguredBy(msg.effectiveConfig.value, d.effectiveConfig)
  {
    hide DisplayName, Version, KvPairs, ExtractConfig, NamedBy, VersionedBy, ConfiguredBy, Describe, NodeOf;
    if msg.description.Some? {
      DisplayNameRule(msg.description.value, detail.uid);
      VersionRule(msg.description.value);
    }
    if msg.effectiveConfig.Some? { ConfigRule(msg.effectiveConfig.value); }
    d := detail;
    d := d.(sequenceNum := msg.sequenceNum);
    d := d.(capabilities := Describe(msg.capabilities));
    if msg.description.Some? {
      var desc := msg.description.value;
      d := d.(identifying := KvPairs(desc.identifying));
      d := d.(nonIdentifying := KvPairs(desc.nonIdentifying));
      d := d.(name := DisplayName(d.identifying, d.nonIdentifying, d.uid));
      d := d.(version := Version(d.identifying));
    }
    if msg.health.Some? {
      var health := msg.health.value;
      d := d.(healthy := health.healthy);
      d := d.(status := health.status);
      d := d.(startTime := health.startTime);
      d := d.(health := Some(NodeOf("agent", health)));
    }
    if msg.effectiveConfig.Some? {
      d := d.(effectiveConfig := ExtractConfig(msg.effectiveConfig.value));
    }
    if msg.remoteConfigStatus.Some? {
      d := d.(remoteStatus := Some(StatusOf(msg.remoteConfigStatus.value)));
    }
  }

  lemma MergeKeepsUid(detail: AgentDetail, msg: AgentToServer)
    ensures Merge(detail, msg).uid == detail.uid
    ensures Merge(detail, msg).sequenceNum == msg.sequenceNum
  {
  }

  /** A new record after a list of messages. */
  ghost function Accumulate(uid: string, msgs: seq<AgentToServer>): AgentDetail {
    Fold(Merge, NewDetail(uid), msgs)
  }

  // ----- the last writer of each group ----------------------------------------------------------

  datatype Group = Description | Health | Config | Remote

  predicate Carries(m: AgentToServer, g: Group) {
    match g
    case Description => m.description.Some?
    case Health => m.health.Some?
    case Config => m.effectiveConfig.Some?
    case Remote => m.remoteConfigStatus.Some?
  }

  /** The index of the last message that carries the group. */
  ghost function LastCarrier(msgs: seq<AgentToServer>, g: Group): (i: Option<nat>)
    ensures i.Some? ==> i.value < |msgs| && Carries(msgs[i.value], g)
    ensures i.Some? ==> forall j :: i.value < j < |msgs| ==> !Carries(msgs[j], g)
    ensures i.None? ==> forall j :: 0 <= j < |msgs| ==> !Carries(msgs[j], g)
  {
    if msgs == [] then None
    else if Carries(msgs[|msgs| - 1], g) then Some(|msgs| - 1)
    else LastCarrier(msgs[..|msgs| - 1], g)
  }

  ghost predicate EnvelopeIsLast(d: AgentDetail, uid: string, msgs: seq<AgentToServer>) {
    && d.uid == uid
    && (msgs == [] ==> d.sequenceNum == 0 && d.capabilities == [])
    && (msgs != [] ==>
          && d.sequenceNum == msgs[|msgs| - 1].sequenceNum
          && d.capabilities == Describe(msgs[|msgs| - 1].capabilities))
  }

  ghost predicate DescriptionIsLast(d: AgentDetail, uid: string, msgs: seq<AgentToServer>) {
    match LastCarrier(msgs, Description)
    case None => d.name == uid && d.version == "" && d.identifying == [] && d.nonIdentifying == []
    case Some(i) =>
      var desc := msgs[i].description.value;
      && ListedAs(desc.identifying, d.identifying)
      && ListedAs(desc.nonIdentifying, d.nonIdentifying)
      && NamedBy(desc, uid, d.name)
      && VersionedBy(desc, d.version)
  }

  ghost predicate HealthIsLast(d: AgentDetail, msgs: seq<AgentToServer>) {
    match LastCarrier(msgs, Health)
    case None => d.healthy && d.status == "" && d.startTime == 0 && d.health.None?
    case Some(i) =>
      var h := msgs[i].health.value;
      && d.healthy == h.healthy && d.status == h.status && d.startTime == h.startTime
      && d.health == Some(NodeOf("agent", h))
  }

  ghost predicate ConfigIsLast(d: AgentDetail, msgs: seq<AgentToServer>) {
    && (match LastCarrier(msgs, Config)
        case None => d.effectiveConfig == ""
        case Some(i) => ConfiguredBy(msgs[i].effectiveConfig.value, d.effectiveConfig))
    && (match LastCarrier(msgs, Remote)
        case None => d.remoteStatus.None?
        case Some(i) => d.remoteStatus.Some? && LabelledBy(msgs[i].remoteConfigStatus.value, d.remoteStatus.value))
  }

  /** Each group as its last carrier left it, or as a new record has it. */
  ghost predicate IsLastWriter(d: AgentDetail, uid: string, msgs: seq<AgentToServer>) {
    EnvelopeIsLast(d, uid, msgs) && DescriptionIsLast(d, uid, msgs) && HealthIsLast(d, msgs) && ConfigIsLast(d, msgs)
  }

  lemma MergeEnvelope(d: AgentDetail, uid: string, msgs: seq<AgentToServer>, m: AgentToServer)
    requires EnvelopeIsLast(d, uid, msgs)
    ensures EnvelopeIsLast(Merge(d, m), uid, msgs + [m])
  {
  }

  lemma CarrierSnoc(msgs: seq<AgentToServer>, m: AgentToServer, g: Group)
    ensures LastCarrier(msgs + [m], g) == if Carries(m, g) then Some(|msgs|) else LastCarrier(msgs, g)
  {
    assert (msgs + [m])[..|msgs|] == msgs;
  }

  lemma MergeDescription(d: AgentDetail, uid: string, msgs: seq<AgentToServer>, m: AgentToServer)
    requires d.uid == uid && DescriptionIsLast(d, uid, msgs)
    ensures DescriptionIsLast(Merge(d, m), uid, msgs + [m])
  {
    hide DisplayName, Version, KvPairs, ListedAs, NamedBy, VersionedBy, Describe, ExtractConfig, NodeOf, StatusOf;
    CarrierSnoc(msgs, m, Description);
    if m.description.Some? {
      KvPairsRule(m.description.value.identifying);
      KvPairsRule(m.description.value.nonIdentifying);
      DisplayNameRule(m.description.value, uid);
      VersionRule(m.description.value);
    }
  }

  lemma MergeHealth(d: AgentDetail, msgs: seq<AgentToServer>, m: AgentToServer)
    requires HealthIsLast(d, msgs)
    ensures HealthIsLast(Merge(d, m), msgs + [m])
  {
    CarrierSnoc(msgs, m, Health);
  }

  lemma MergeConfigFields(d: AgentDetail, m: AgentToServer)
    ensures Merge(d, m).effectiveConfig ==
      if m.effectiveConfig.Some? then ExtractConfig(m.effectiveConfig.value) else d.effectiveConfig
    ensures Merge(d, m).remoteStatus ==
      if m.remoteConfigStatus.Some? then Some(StatusOf(m.remoteConfigStatus.value)) else d.remoteStatus
  {
    hide DisplayName, Version, KvPairs, Describe, ExtractConfig, NodeOf, StatusOf;
  }

  lemma MergeConfig(d: AgentDetail, msgs: seq<AgentToServer>, m: AgentToServer)
    requires ConfigIsLast(d, msgs)
    ensures ConfigIsLast(Merge(d, m), msgs + [m])
  {
    hide Merge, ExtractConfig, ConfiguredBy, LabelledBy, StatusOf, LastCarrier;
    MergeConfigFields(d, m);
    CarrierSnoc(msgs, m, Config);
    CarrierSnoc(msgs, m, Remote);
    if m.effectiveConfig.Some? { ConfigRule(m.effectiveConfig.value); }
    if m.remoteConfigStatus.Some? { StatusRule(m.remoteConfigStatus.value); }
  }

  /** Folding any message list leaves every group as its last carrier set it... */
  lemma {:induction false} MergeIsLastWriter(uid: string, msgs: seq<AgentToServer>)
    ensures IsLastWriter(Accumulate(uid, msgs), uid, msgs)
  {
    hide Merge, Describe;
    if msgs != [] {
      var most, m := msgs[..|msgs| - 1], msgs[|msgs| - 1];
      MergeIsLastWriter(uid, most);
      var d := Accumulate(uid, most);
      assert msgs == most + [m];
      MergeEnvelope(d, uid, most, m);
      MergeDescription(d, uid, most, m);
      MergeHealth(d, most, m);
      MergeConfig(d, most, m);
    }
  }

  /** ...and that determines the record. */
  lemma LastWriterDetermines(d: AgentDetail, e: AgentDetail, uid: string, msgs: seq<AgentToServer>)
    requires IsLastWriter(d, uid, msgs) && IsLastWriter(e, uid, msgs)
    ensures d == e
  {
    hide ListedAs, NamedBy, VersionedBy, ConfiguredBy, LabelledBy, Describe, NodeOf, LastCarrier;
    var i, j, k := LastCarrier(msgs, Description), LastCarrier(msgs, Config), LastCarrier(msgs, Remote);
    if i.Some? {
      var desc := msgs[i.value].description.value;
      ListedUnique(desc.identifying, d.identifying, e.identifying);
      ListedUnique(desc.nonIdentifying, d.nonIdentifying, e.nonIdentifying);
      NameUnique(desc, uid, d.name, e.name);
      VersionUnique(desc, d.version, e.version);
    }
    if j.Some? { ConfigUnique(msgs[j.value].effectiveConfig.value, d.effectiveConfig, e.effectiveConfig); }
    if k.Some? { StatusUnique(msgs[k.value].remoteConfigStatus.value, d.remoteStatus.value, e.remoteStatus.value); }
  }

  lemma StatusUnique(remote: RemoteConfigStatus, a: RemoteStatus, b: RemoteStatus)
    requires LabelledBy(remote, a) && LabelledBy(remote, b)
    ensures a == b
  {
  }

  predicate CarriesAll(m: AgentToServer) {
    Carries(m, Description) && Carries(m, Health) && Carries(m, Config) && Carries(m, Remote)
  }

  lemma FullMergeIgnoresState(d: AgentDetail, e: AgentDetail, m: AgentToServer)
    requires d.uid == e.uid && CarriesAll(m)
    ensures Merge(d, m) == Merge(e, m)
  {
  }

  /** After a message that carries every group, earlier history no longer matters. */
  lemma FullMessageErasesHistory(uid: string, a: seq<AgentToServer>, b: seq<AgentToServer>,
                                 m: AgentToServer, later: seq<AgentToServer>)
    requires CarriesAll(m)
    ensures Accumulate(uid, a + [m] + later) == Accumulate(uid, b + [m] + later)
  {
    MergeIsLastWriter(uid, a);
    MergeIsLastWriter(uid, b);
    FullMergeIgnoresState(Accumulate(uid, a), Accumulate(uid, b), m);
    FoldSnoc(Merge, NewDetail(uid), a, m);
    FoldSnoc(Merge, NewDetail(uid), b, m);
    FoldConcat(Merge, NewDetail(uid), a + [m], later);
    FoldConcat(Merge, NewDetail(uid), b + [m], later);
  }

  // ----- capabilities as the UI sees them -------------------------------------------------------

  /** `agent_supports` */
  predicate Supports(agent: AgentDetail, capability: string) {
    exists i :: 0 <= i < |agent.capabilities| && agent.capabilities[i] == (capability, true)
  }

  /** A list of labelled flags that names a capability once supports it by that flag. */
  lemma SupportsAt(agent: AgentDetail, capability: string, k: nat)
    requires k < |agent.capabilities| && agent.capabilities[k].0 == capability
    requires forall i :: 0 <= i < |agent.capabilities| && i != k ==> agent.capabilities[i].0 != capability
    ensures Supports(agent, capability) <==> agent.capabilities[k].1
  {
    assert agent.capabilities[k].1 ==> agent.capabilities[k] == (capability, true);
  }

  lemma RemoteConfigIsNamedOnce(caps: bv64)
    ensures |Describe(caps)| == 11
    ensures Describe(caps)[1] == ("AcceptsRemoteConfig", caps & 0x2 != 0)
    ensures forall i :: 0 <= i < 11 && i != 1 ==> Describe(caps)[i].0 != "AcceptsRemoteConfig"
  {
    hide Has;
    BitsOfCapabilities(caps);
    var d := Describe(caps);
    assert forall i :: 0 <= i < 11 && i != 1 ==> |d[i].0| != |d[1].0| || d[i].0[0] != d[1].0[0];
  }

  lemma RestartIsNamedOnce(caps: bv64)
    ensures |Describe(caps)| == 11
    ensures Describe(caps)[8] == ("AcceptsRestartCommand", caps & 0x400 != 0)
    ensures forall i :: 0 <= i < 11 && i != 8 ==> Describe(caps)[i].0 != "AcceptsRestartCommand"
  {
    hide Has;
    BitsOfCapabilities(caps);
    var d := Describe(caps);
    assert forall i :: 0 <= i < 11 && i != 8 ==> |d[i].0| != |d[8].0| || d[i].0[0] != d[8].0[0];
  }

  lemma MergeDescribes(d: AgentDetail, m: AgentToServer)
    ensures Merge(d, m).capabilities == Describe(m.capabilities)
  {
  }

  /** After a message, the record supports exactly what the bits 1 and 10 of its bitmask say. */
  lemma SupportsIsLatestBitmask(d: AgentDetail, m: AgentToServer)
    ensures Supports(Merge(d, m), "AcceptsRemoteConfig") <==> m.capabilities & 0x2 != 0
    ensures Supports(Merge(d, m), "AcceptsRestartCommand") <==> m.capabilities & 0x400 != 0
  {
    hide Merge, Describe, Has, Supports;
    MergeDescribes(d, m);
    RemoteConfigIsNamedOnce(m.capabilities);
    RestartIsNamedOnce(m.capabilities);
    SupportsAt(Merge(d, m), "AcceptsRemoteConfig", 1);
    SupportsAt(Merge(d, m), "AcceptsRestartCommand", 8);
  }
}
