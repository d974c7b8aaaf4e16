/**
 * The bounded telemetry store (crates/otelc-otlp/src/store.rs, model.rs) against the unbounded
 * history of everything it was sent, and the snapshots that polling takes of it.
 */
module Telemetry {
  import opened Prelude

  const MAX_METRICS: nat := 4000
  const MAX_LOGS: nat := 2000
  const POLLED_LOGS: nat := 300
  const U64: nat := 0x1_0000_0000_0000_0000

  // ----- OTLP requests, as far as the store reads them --------------------------------------------

  /** An attribute or body value; a double comes with the text it prints as. */
  datatype AnyValue =
    | StringValue(s: string) | BoolValue(b: bool) | IntValue(i: int) | DoubleValue(printed: string)
    | BytesValue | ArrayValue | KvlistValue | OtherValue | Unset

  datatype Attribute = Attribute(key: string, value: Option<AnyValue>)

  type Resource = Option<seq<Attribute>>

  datatype Number = AsDouble(d: real) | AsInt(i: int) | NoNumber

  datatype DataPoint = DataPoint(value: Number, time: nat)

  datatype MetricData = Gauge(points: seq<DataPoint>) | Sum(points: seq<DataPoint>) | OtherData

  datatype Metric = Metric(name: string, unit: string, data: MetricData)

  datatype ResourceMetrics = ResourceMetrics(resource: Resource, scopes: seq<seq<Metric>>)

  datatype LogRecord = LogRecord(time: nat, severityText: string, severityNumber: int, body: Option<AnyValue>)

  datatype ResourceLogs = ResourceLogs(resource: Resource, scopes: seq<seq<LogRecord>>)

  /** Spans are only counted: how many each scope brings. */
  datatype ResourceSpans = ResourceSpans(resource: Resource, scopes: seq<nat>)

  // ----- what the store keeps --------------------------------------------------------------------------

  datatype MetricPoint = MetricPoint(name: string, value: real, unit: string, time: nat)

  datatype LogLine = LogLine(time: nat, severity: string, body: string)

  datatype AgentTelemetry = AgentTelemetry(metrics: seq<MetricPoint>, logs: seq<LogLine>, spanCount: nat)

  const EMPTY := AgentTelemetry([], [], 0)

  function NumberValue(dp: DataPoint): real {
    match dp.value
    case AsDouble(d) => d
    case AsInt(i) => i as real
    case NoNumber => 0.0
  }

  function Digits(n: nat): string {
    (if n < 10 then "" else Digits(n / 10)) + ['0' + (n % 10) as char]
  }

  function AnyValueString(value: AnyValue): string {
    match value
    case StringValue(s) => s
    case BoolValue(b) => if b then "true" else "false"
    case IntValue(i) => if i < 0 then "-" + Digits(-i) else Digits(i)
    case DoubleValue(printed) => printed
    case BytesValue => "<bytes>"
    case ArrayValue => "<array>"
    case KvlistValue => "<kvlist>"
    case OtherValue => "<value>"
    case Unset => ""
  }

  function SeverityLabel(number: int): string {
    if 1 <= number <= 4 then "TRACE"
    else if 5 <= number <= 8 then "DEBUG"
    else if 9 <= number <= 12 then "INFO"
    else if 13 <= number <= 16 then "WARN"
    else if 17 <= number <= 20 then "ERROR"
    else if 21 <= number <= 24 then "FATAL"
    else "UNSET"
  }

  // ----- which agent a resource belongs to ---------------------------------------------------------------

  function InstanceId(): string { "service.instance.id" }

  function ServiceName(): string { "service.name" }

  function UnknownKey(): string { "unknown" }

  predicate Names(a: Attribute, key: string) {
    a.key == key && a.value.Some?
  }

  ghost predicate FirstNamed(attrs: seq<Attribute>, name: string, i: nat) {
    i < |attrs| && Names(attrs[i], name) && forall j :: 0 <= j < i ==> !Names(attrs[j], name)
  }

  ghost predicate LastNamed(attrs: seq<Attribute>, name: string, i: nat) {
    i < |attrs| && Names(attrs[i], name) && forall j :: i < j < |attrs| ==> !Names(attrs[j], name)
  }

  ghost predicate Unnamed(attrs: seq<Attribute>, name: string) {
    forall j :: 0 <= j < |attrs| ==> !Names(attrs[j], name)
  }

  /** `name` is the text of the last service name before these attributes, or "unknown". */
  function KeyFrom(attrs: seq<Attribute>, name: string): string {
    if attrs == [] then name
    else if Names(attrs[0], InstanceId()) then AnyValueString(attrs[0].value.value)
    else KeyFrom(attrs[1..], if Names(attrs[0], ServiceName()) then AnyValueString(attrs[0].value.value) else name)
  }

  function ResourceKey(resource: Resource): string {
    if resource.None? then UnknownKey() else KeyFrom(resource.value, UnknownKey())
  }

  lemma {:induction false} KeyFromNamed(attrs: seq<Attribute>, name: string, i: nat)
    requires FirstNamed(attrs, InstanceId(), i) || (Unnamed(attrs, InstanceId()) && LastNamed(attrs, ServiceName(), i))
    ensures KeyFrom(attrs, name) == AnyValueString(attrs[i].value.value)
  {
    hide AnyValueString, InstanceId, ServiceName;
    if !Names(attrs[0], InstanceId()) {
      var next := if Names(attrs[0], ServiceName()) then AnyValueString(attrs[0].value.value) else name;
      if i > 0 {
        assert forall j :: 0 <= j < |attrs| - 1 ==> attrs[1..][j] == attrs[j + 1];
        KeyFromNamed(attrs[1..], next, i - 1);
      } else {
        KeyFromUnnamed(attrs[1..], next);
      }
    }
  }

  lemma {:induction false} KeyFromUnnamed(attrs: seq<Attribute>, name: string)
    requires Unnamed(attrs, InstanceId()) && Unnamed(attrs, ServiceName())
    ensures KeyFrom(attrs, name) == name
  {
    hide AnyValueString, InstanceId, ServiceName;
    if attrs != [] {
      assert forall j :: 0 <= j < |attrs| - 1 ==> attrs[1..][j] == attrs[j + 1];
      KeyFromUnnamed(attrs[1..], name);
    }
  }

  /**
   * A resource belongs to the text of its first instance id with a value; without one, to that of
   * its last service name with a value; without either, or without a resource, to "unknown".
   */
  lemma ResourceKeyRule(attrs: seq<Attribute>, i: nat)
    ensures ResourceKey(None) == "unknown"
    ensures FirstNamed(attrs, "service.instance.id", i) ==> ResourceKey(Some(attrs)) == AnyValueString(attrs[i].value.value)
    ensures Unnamed(attrs, "service.instance.id") && LastNamed(attrs, "service.name", i) ==>
      ResourceKey(Some(attrs)) == AnyValueString(attrs[i].value.value)
    ensures Unnamed(attrs, "service.instance.id") && Unnamed(attrs, "service.name") ==>
      ResourceKey(Some(attrs)) == "unknown"
  {
    hide AnyValueString, FirstNamed, LastNamed, Unnamed, KeyFrom;
    if FirstNamed(attrs, InstanceId(), i) || (Unnamed(attrs, InstanceId()) && LastNamed(attrs, ServiceName(), i)) {
      KeyFromNamed(attrs, UnknownKey(), i);
    }
    if Unnamed(attrs, InstanceId()) && Unnamed(attrs, ServiceName()) {
      KeyFromUnnamed(attrs, UnknownKey());
    }
  }

  /** `resource_key` */
  method FindResourceKey(resource: Resource) returns (key: string)
    ensures key == ResourceKey(resource)
  {
    hide InstanceId, ServiceName, UnknownKey, AnyValueString;
    if resource.None? { return UnknownKey(); }
    var attrs := resource.value;
    var name := None;
    for i := 0 to |attrs|
      invariant KeyFrom(attrs, UnknownKey()) == KeyFrom(attrs[i..], if name.Some? then name.value else UnknownKey())
    {
      var kv := attrs[i];
      assert attrs[i..][1..] == attrs[i + 1..];
      if kv.value.Some? {
        var text := AnyValueString(kv.value.value);
        if kv.key == InstanceId() {
          return text;
        } else if kv.key == ServiceName() {
          name := Some(text);
        }
      }
    }
    key := if name.Some? then name.value else UnknownKey();
  }

  // ----- what a request adds ---------------------------------------------------------------------------

  function PointOf(m: Metric, dp: DataPoint): MetricPoint {
    MetricPoint(m.name, NumberValue(dp), m.unit, dp.time)
  }

  function DataPoints(m: Metric): seq<DataPoint> {
    match m.data
    case Gauge(points) => points
    case Sum(points) => points
    case OtherData => []
  }

  ghost predicate Measures(n: Number, value: real) {
    && (n.AsDouble? ==> value == n.d)
    && (n.AsInt? ==> value == n.i as real)
    && (n.NoNumber? ==> value == 0.0)
  }

  ghost predicate IsPoint(m: Metric, dp: DataPoint, p: MetricPoint) {
    p.name == m.name && p.unit == m.unit && p.time == dp.time && Measures(dp.value, p.value)
  }

  ghost predicate ArePoints(m: Metric, data: seq<DataPoint>, points: seq<MetricPoint>) {
    |points| == |data| && forall i :: 0 <= i < |data| ==> IsPoint(m, data[i], points[i])
  }

  /** A gauge or a sum gives one point for each data point, in order; other data gives none. */
  ghost predicate PointsFrom(m: Metric, points: seq<MetricPoint>) {
    && (m.data.Gauge? ==> ArePoints(m, m.data.points, points))
    && (m.data.Sum? ==> ArePoints(m, m.data.points, points))
    && (m.data.OtherData? ==> points == [])
  }

  /** The points of a metric, of a scope and of a resource, in the order they arrive. */
  ghost function MetricPoints(m: Metric): seq<MetricPoint> {
    FlatMap(dp => [PointOf(m, dp)], DataPoints(m))
  }

  ghost function ScopePoints(metrics: seq<Metric>): seq<MetricPoint> {
    FlatMap(MetricPoints, metrics)
  }

  ghost function PointsIn(rm: ResourceMetrics): seq<MetricPoint> {
    FlatMap(ScopePoints, rm.scopes)
  }

  function LineOf(record: LogRecord): LogLine {
    LogLine(record.time,
            if record.severityText == "" then SeverityLabel(record.severityNumber) else record.severityText,
            if record.body.Some? then AnyValueString(record.body.value) else "")
  }

  ghost function ScopeLines(records: seq<LogRecord>): seq<LogLine> {
    FlatMap(r => [LineOf(r)], records)
  }

  ghost function LinesIn(rl: ResourceLogs): seq<LogLine> {
    FlatMap(ScopeLines, rl.scopes)
  }

  function SpansIn(scopes: seq<nat>): nat {
    if scopes == [] then 0 else SpansIn(scopes[..|scopes| - 1]) + scopes[|scopes| - 1]
  }

  // ----- ingestion, resource by resource -----------------------------------------------------------------

  /** One resource's worth of a request. */
  datatype Batch =
    | OfMetrics(metrics: ResourceMetrics)
    | OfLogs(logs: ResourceLogs)
    | OfSpans(spans: ResourceSpans)

  function KeyOf(b: Batch): string {
    match b
    case OfMetrics(rm) => ResourceKey(rm.resource)
    case OfLogs(rl) => ResourceKey(rl.resource)
    case OfSpans(rs) => ResourceKey(rs.resource)
  }

  function EntryOf(store: map<string, AgentTelemetry>, key: string): AgentTelemetry {
    if key in store then store[key] else EMPTY
  }

  /** An entry after one more batch: append, then keep the newest; spans count modulo 2^64. */
  ghost function Absorb(entry: AgentTelemetry, b: Batch): AgentTelemetry {
    match b
    case OfMetrics(rm) => entry.(metrics := Last(entry.metrics + PointsIn(rm), MAX_METRICS))
    case OfLogs(rl) => entry.(logs := Last(entry.logs + LinesIn(rl), MAX_LOGS))
    case OfSpans(rs) => entry.(spanCount := (entry.spanCount + SpansIn(rs.scopes)) % U64)
  }

  ghost function Ingest(store: map<string, AgentTelemetry>, b: Batch): map<string, AgentTelemetry> {
    store[KeyOf(b) := Absorb(EntryOf(store, KeyOf(b)), b)]
  }

  ghost function IngestAll(store: map<string, AgentTelemetry>, batches: seq<Batch>): map<string, AgentTelemetry> {
    Fold(Ingest, store, batches)
  }

  // ----- the unbounded history ------------------------------------------------------------------------------

  ghost function PointHistory(batches: seq<Batch>, key: string): seq<MetricPoint> {
    FlatMap(b => if KeyOf(b) == key && b.OfMetrics? then PointsIn(b.metrics) else [], batches)
  }

  ghost function LineHistory(batches: seq<Batch>, key: string): seq<LogLine> {
    FlatMap(b => if KeyOf(b) == key && b.OfLogs? then LinesIn(b.logs) else [], batches)
  }

  ghost function SpanTotal(batches: seq<Batch>, key: string): nat {
    if batches == [] then 0 else
    var b := batches[|batches| - 1];
    SpanTotal(batches[..|batches| - 1], key) + if KeyOf(b) == key && b.OfSpans? then SpansIn(b.spans.scopes) else 0
  }

  ghost predicate Mentioned(batches: seq<Batch>, key: string) {
    exists i :: 0 <= i < |batches| && KeyOf(batches[i]) == key
  }

  /** The window the store promises over a history. */
  ghost function Window(batches: seq<Batch>, key: string): AgentTelemetry {
    AgentTelemetry(Last(PointHistory(batches, key), MAX_METRICS), Last(LineHistory(batches, key), MAX_LOGS),
                   SpanTotal(batches, key) % U64)
  }

  lemma ModAdd(x: nat, y: nat, m: nat)
    requires m > 0
    ensures (x % m + y) % m == (x + y) % m
  {
    var q, r := x / m, x % m;
    assert x == q * m + r;
    var p, t := (r + y) / m, (r + y) % m;
    assert r + y == p * m + t;
    assert x + y == (q + p) * m + t;
    EuclidUnique(x + y, m, q + p, t);
  }

  lemma HistorySnoc(batches: seq<Batch>, b: Batch, key: string)
    ensures PointHistory(batches + [b], key) ==
      PointHistory(batches, key) + if KeyOf(b) == key && b.OfMetrics? then PointsIn(b.metrics) else []
    ensures LineHistory(batches + [b], key) ==
      LineHistory(batches, key) + if KeyOf(b) == key && b.OfLogs? then LinesIn(b.logs) else []
    ensures SpanTotal(batches + [b], key) ==
      SpanTotal(batches, key) + if KeyOf(b) == key && b.OfSpans? then SpansIn(b.spans.scopes) else 0
  {
    hide KeyOf, PointsIn, LinesIn, SpansIn;
    assert (batches + [b])[..|batches|] == batches;
  }

  lemma MentionedSnoc(batches: seq<Batch>, b: Batch, key: string)
    ensures Mentioned(batches + [b], key) <==> Mentioned(batches, key) || KeyOf(b) == key
  {
    hide KeyOf;
    var all := batches + [b];
    if i :| 0 <= i < |batches| && KeyOf(batches[i]) == key { assert all[i] == batches[i]; }
    if i :| 0 <= i < |all| && KeyOf(all[i]) == key { if i < |batches| { assert batches[i] == all[i]; } }
    assert all[|batches|] == b;
  }

  lemma AbsorbWindow(batches: seq<Batch>, b: Batch, key: string)
    requires KeyOf(b) == key
    ensures Absorb(Window(batches, key), b) == Window(batches + [b], key)
  {
    hide KeyOf, PointsIn, LinesIn, SpansIn, PointHistory, LineHistory, SpanTotal, Last;
    HistorySnoc(batches, b, key);
    var points, lines, spans := PointHistory(batches, key), LineHistory(batches, key), SpanTotal(batches, key);
    match b
    case OfMetrics(rm) =>
      LastAppend(points, PointsIn(rm), MAX_METRICS);
      assert lines + [] == lines;
    case OfLogs(rl) =>
      LastAppend(lines, LinesIn(rl), MAX_LOGS);
      assert points + [] == points;
    case OfSpans(rs) =>
      ModAdd(spans, SpansIn(rs.scopes), U64);
      assert points + [] == points && lines + [] == lines;
  }

  lemma SameWindow(batches: seq<Batch>, b: Batch, key: string)
    requires KeyOf(b) != key
    ensures Window(batches + [b], key) == Window(batches, key)
  {
    hide KeyOf, PointsIn, LinesIn, SpansIn, PointHistory, LineHistory, SpanTotal, Last;
    HistorySnoc(batches, b, key);
    assert PointHistory(batches, key) + [] == PointHistory(batches, key);
    assert LineHistory(batches, key) + [] == LineHistory(batches, key);
  }

  /**
   * After any ingests, each key holds the newest 4000 points and 2000 log lines of its whole
   * history and its span total modulo 2^64; a key is there exactly if some resource had it.
   */
  lemma {:induction false} StoreIsWindow(batches: seq<Batch>, key: string)
    ensures key in IngestAll(map[], batches) <==> Mentioned(batches, key)
    ensures EntryOf(IngestAll(map[], batches), key) == Window(batches, key)
  {
    hide KeyOf, Absorb, Window, Mentioned;
    if batches == [] {
      NoHistory(key);
    } else {
      var most, b := batches[..|batches| - 1], batches[|batches| - 1];
      assert batches == most + [b];
      StoreIsWindow(most, key);
      FoldSnoc(Ingest, map[], most, b);
      MentionedSnoc(most, b, key);
      if KeyOf(b) == key { AbsorbWindow(most, b, key); } else { SameWindow(most, b, key); }
    }
  }

  lemma NoHistory(key: string)
    ensures Window([], key) == EMPTY && !Mentioned([], key) && IngestAll(map[], []) == map[]
  {
  }

  /** How the points were grouped into requests, resources and scopes does not show. */
  lemma GroupingDoesNotShow(a: seq<Batch>, b: seq<Batch>, key: string)
    requires PointHistory(a, key) == PointHistory(b, key) && LineHistory(a, key) == LineHistory(b, key)
    requires SpanTotal(a, key) == SpanTotal(b, key)
    ensures EntryOf(IngestAll(map[], a), key) == EntryOf(IngestAll(map[], b), key)
  {
    StoreIsWindow(a, key);
    StoreIsWindow(b, key);
  }

  // ----- the store itself -------------------------------------------------------------------------------------

  function MetricBatches(req: seq<ResourceMetrics>): seq<Batch> {
    seq(|req|, i requires 0 <= i < |req| => OfMetrics(req[i]))
  }

  function LogBatches(req: seq<ResourceLogs>): seq<Batch> {
    seq(|req|, i requires 0 <= i < |req| => OfLogs(req[i]))
  }

  function SpanBatches(req: seq<ResourceSpans>): seq<Batch> {
    seq(|req|, i requires 0 <= i < |req| => OfSpans(req[i]))
  }

  lemma IngestNext(store: map<string, AgentTelemetry>, batches: seq<Batch>, i: nat)
    requires i < |batches|
    ensures IngestAll(store, batches[..i + 1]) == Ingest(IngestAll(store, batches[..i]), batches[i])
  {
    hide Ingest;
    assert batches[..i + 1] == batches[..i] + [batches[i]];
    FoldSnoc(Ingest, store, batches[..i], batches[i]);
  }

  /** The two inner loops of `ingest_metrics`. */
  method AppendPoints(before: seq<MetricPoint>, scopes: seq<seq<Metric>>) returns (buffer: seq<MetricPoint>)
    ensures buffer == before + FlatMap(ScopePoints, scopes)
  {
    hide PointOf, DataPoints, ScopePoints, MetricPoints, FlatMap;
    buffer := before;
    NothingMapped(ScopePoints);
    assert scopes[..0] == [];
    for i := 0 to |scopes|
      invariant buffer == before + FlatMap(ScopePoints, scopes[..i])
    {
      var metrics := scopes[i];
      ghost var atScope := buffer;
      ScopeUnfold(metrics);
      NothingMapped(MetricPoints);
      assert metrics[..0] == [];
      for j := 0 to |metrics|
        invariant buffer == atScope + FlatMap(MetricPoints, metrics[..j])
      {
        buffer := AppendMetric(buffer, metrics[j]);
        FlatMapNext(MetricPoints, metrics, j);
      }
      assert metrics[..|metrics|] == metrics;
      FlatMapNext(ScopePoints, scopes, i);
    }
    assert scopes[..|scopes|] == scopes;
  }

  lemma ScopeUnfold(metrics: seq<Metric>)
    ensures ScopePoints(metrics) == FlatMap(MetricPoints, metrics)
  {
  }

  lemma {:induction false} SingletonsMap<T, U>(f: T -> seq<U>, xs: seq<T>)
    requires forall x :: |f(x)| == 1
    ensures |FlatMap(f, xs)| == |xs|
    ensures forall i :: 0 <= i < |xs| ==> FlatMap(f, xs)[i] == f(xs[i])[0]
  {
    if xs != [] {
      SingletonsMap(f, xs[..|xs| - 1]);
    }
  }

  lemma PointsOfMetric(m: Metric)
    ensures |MetricPoints(m)| == |DataPoints(m)|
    ensures forall i :: 0 <= i < |DataPoints(m)| ==> MetricPoints(m)[i] == PointOf(m, DataPoints(m)[i])
  {
    SingletonsMap(dp => [PointOf(m, dp)], DataPoints(m));
  }

  lemma MetricPointsRule(m: Metric)
    ensures PointsFrom(m, MetricPoints(m))
  {
    hide MetricPoints;
    PointsOfMetric(m);
  }

  lemma PointsAreThose(m: Metric, a: seq<MetricPoint>, b: seq<MetricPoint>)
    requires PointsFrom(m, a) && PointsFrom(m, b)
    ensures a == b
  {
    if !m.data.OtherData? {
      assert forall i :: 0 <= i < |a| ==> a[i] == b[i] by {
        forall i | 0 <= i < |a| ensures a[i] == b[i] {
          assert IsPoint(m, m.data.points[i], a[i]) && IsPoint(m, m.data.points[i], b[i]);
        }
      }
    }
  }

  method AppendMetric(before: seq<MetricPoint>, m: Metric) returns (buffer: seq<MetricPoint>)
    ensures buffer == before + MetricPoints(m)
    ensures |before| <= |buffer| && buffer[..|before|] == before && PointsFrom(m, buffer[|before|..])
  {
    hide MetricPoints, PointsFrom;
    PointsOfMetric(m);
    MetricPointsRule(m);
    assert (before + MetricPoints(m))[|before|..] == MetricPoints(m);
    buffer := before;
    var points := match m.data case Gauge(points) => points case Sum(points) => points case OtherData => [];
    for i := 0 to |points|
      invariant buffer == before + MetricPoints(m)[..i]
    {
      buffer := buffer + [MetricPoint(m.name, NumberValue(points[i]), m.unit, points[i].time)];
    }
  }

  lemma LinesOfScope(records: seq<LogRecord>)
    ensures |ScopeLines(records)| == |records|
    ensures forall i :: 0 <= i < |records| ==> ScopeLines(records)[i] == LineOf(records[i])
  {
    SingletonsMap(r => [LineOf(r)], records);
  }

  /** The inner loops of `ingest_logs`. */
  method AppendLines(before: seq<LogLine>, scopes: seq<seq<LogRecord>>) returns (buffer: seq<LogLine>)
    ensures buffer == before + FlatMap(ScopeLines, scopes)
  {
    hide ScopeLines, FlatMap, SeverityLabel, AnyValueString;
    buffer := before;
    NothingMapped(ScopeLines);
    assert scopes[..0] == [];
    for i := 0 to |scopes|
      invariant buffer == before + FlatMap(ScopeLines, scopes[..i])
    {
      var records := scopes[i];
      ghost var atScope := buffer;
      LinesOfScope(records);
      for j := 0 to |records|
        invariant buffer == atScope + ScopeLines(records)[..j]
      {
        var record := records[j];
        var severity := if record.severityText == "" then SeverityLabel(record.severityNumber) else record.severityText;
        var body := if record.body.Some? then AnyValueString(record.body.value) else "";
        buffer := buffer + [LogLine(record.time, severity, body)];
      }
      FlatMapNext(ScopeLines, scopes, i);
    }
    assert scopes[..|scopes|] == scopes;
  }

  /** `while len > bound { pop_front }` */
  method Evict<T>(before: seq<T>, bound: nat) returns (buffer: seq<T>)
    ensures buffer == Last(before, bound)
  {
    buffer := before;
    while |buffer| > bound
      invariant Last(buffer, bound) == Last(before, bound)
    {
      buffer := buffer[1..];
    }
  }

  /** An export request of one of the three OTLP services. */
  datatype Request =
    | MetricsRequest(metrics: seq<ResourceMetrics>)
    | LogsRequest(logs: seq<ResourceLogs>)
    | TracesRequest(spans: seq<ResourceSpans>)

  function BatchesOf(req: Request): seq<Batch> {
    match req
    case MetricsRequest(metrics) => MetricBatches(metrics)
    case LogsRequest(logs) => LogBatches(logs)
    case TracesRequest(spans) => SpanBatches(spans)
  }

  ghost function AllBatches(reqs: seq<Request>): seq<Batch> {
    FlatMap(BatchesOf, reqs)
  }

  lemma IngestConcat(store: map<string, AgentTelemetry>, a: seq<Batch>, b: seq<Batch>)
    ensures IngestAll(IngestAll(store, a), b) == IngestAll(store, a + b)
  {
    FoldConcat(Ingest, store, a, b);
  }

  /** The store never forgets a key. */
  lemma {:induction false} KeysStay(store: map<string, AgentTelemetry>, batches: seq<Batch>, key: string)
    requires key in store
    ensures key in IngestAll(store, batches)
  {
    hide KeyOf, Absorb;
    if batches != [] {
      KeysStay(store, batches[..|batches| - 1], key);
      FoldSnoc(Ingest, store, batches[..|batches| - 1], batches[|batches| - 1]);
    }
  }

  class TelemetryStore {
    var agents: map<string, AgentTelemetry>

    constructor ()
      ensures agents == map[]
    {
      agents := map[];
    }

    method IngestMetrics(req: seq<ResourceMetrics>)
      modifies this
      ensures agents == IngestAll(old(agents), MetricBatches(req))
    {
      hide ResourceKey, PointsIn, Last, Ingest;
      ghost var batches := MetricBatches(req);
      for i := 0 to |req|
        invariant agents == IngestAll(old(agents), batches[..i])
      {
        var rm := req[i];
        var key := FindResourceKey(rm.resource);
        var entry := EntryOf(agents, key);
        var points := AppendPoints(entry.metrics, rm.scopes);
        points := Evict(points, MAX_METRICS);
        IngestNext(old(agents), batches, i);
        MetricsIngested(agents, rm);
        agents := agents[key := entry.(metrics := points)];
      }
      assert batches[..|batches|] == batches;
    }

    method IngestLogs(req: seq<ResourceLogs>)
      modifies this
      ensures agents == IngestAll(old(agents), LogBatches(req))
    {
      hide ResourceKey, LinesIn, Last, Ingest;
      ghost var batches := LogBatches(req);
      for i := 0 to |req|
        invariant agents == IngestAll(old(agents), batches[..i])
      {
        var rl := req[i];
        var key := FindResourceKey(rl.resource);
        var entry := EntryOf(agents, key);
        var lines := AppendLines(entry.logs, rl.scopes);
        lines := Evict(lines, MAX_LOGS);
        IngestNext(old(agents), batches, i);
        LogsIngested(agents, rl);
        agents := agents[key := entry.(logs := lines)];
      }
      assert batches[..|batches|] == batches;
    }

    method IngestTraces(req: seq<ResourceSpans>)
      modifies this
      ensures agents == IngestAll(old(agents), SpanBatches(req))
    {
      hide ResourceKey, SpansIn;
      ghost var batches := SpanBatches(req);
      for i := 0 to |req|
        invariant agents == IngestAll(old(agents), batches[..i])
      {
        var rs := req[i];
        var key := FindResourceKey(rs.resource);
        var entry := EntryOf(agents, key);
        IngestNext(old(agents), batches, i);
        agents := agents[key := entry.(spanCount := (entry.spanCount + SpansIn(rs.scopes)) % U64)];
      }
      assert batches[..|batches|] == batches;
    }
  }

  lemma NoneIngested(store: map<string, AgentTelemetry>)
    ensures IngestAll(store, []) == store
  {
  }

  /** Requests arriving one after another. */
  method IngestRequests(store: TelemetryStore, reqs: seq<Request>)
    modifies store
    ensures store.agents == IngestAll(old(store.agents), AllBatches(reqs))
  {
    hide IngestAll, FlatMap, BatchesOf;
    NothingMapped(BatchesOf);
    NoneIngested(store.agents);
    assert reqs[..0] == [];
    for i := 0 to |reqs|
      invariant store.agents == IngestAll(old(store.agents), FlatMap(BatchesOf, reqs[..i]))
    {
      RequestBatches(reqs[i]);
      FlatMapNext(BatchesOf, reqs, i);
      IngestConcat(old(store.agents), FlatMap(BatchesOf, reqs[..i]), BatchesOf(reqs[i]));
      match reqs[i] {
        case MetricsRequest(metrics) => store.IngestMetrics(metrics);
        case LogsRequest(logs) => store.IngestLogs(logs);
        case TracesRequest(spans) => store.IngestTraces(spans);
      }
    }
    assert reqs[..|reqs|] == reqs;
  }

  lemma RequestBatches(req: Request)
    ensures req.MetricsRequest? ==> BatchesOf(req) == MetricBatches(req.metrics)
    ensures req.LogsRequest? ==> BatchesOf(req) == LogBatches(req.logs)
    ensures req.TracesRequest? ==> BatchesOf(req) == SpanBatches(req.spans)
  {
  }

  lemma MetricsIngested(store: map<string, AgentTelemetry>, rm: ResourceMetrics)
    ensures var key := ResourceKey(rm.resource); var entry := EntryOf(store, key);
      Ingest(store, OfMetrics(rm)) ==
        store[key := entry.(metrics := Last(entry.metrics + FlatMap(ScopePoints, rm.scopes), MAX_METRICS))]
  {
    hide ResourceKey, Last, FlatMap, ScopePoints;
  }

  lemma LogsIngested(store: map<string, AgentTelemetry>, rl: ResourceLogs)
    ensures var key := ResourceKey(rl.resource); var entry := EntryOf(store, key);
      Ingest(store, OfLogs(rl)) ==
        store[key := entry.(logs := Last(entry.logs + FlatMap(ScopeLines, rl.scopes), MAX_LOGS))]
  {
    hide ResourceKey, Last, FlatMap, ScopeLines;
  }
}
