/**
 * What the telemetry store keeps of a request, stated on the request itself: the lines of log
 * records, the newest of a history, and that a history is the points and lines in arrival order
 * however they were grouped.
 */
module TelemetryRules {
  import opened Prelude
  import opened Telemetry

  // ----- lines ---------------------------------------------------------------------------------

  /** The severity numbers of OTLP in groups of four from 1 to 24. */
  ghost predicate Labels(number: int, text: string) {
    && (1 <= number <= 4 ==> text == "TRACE") && (5 <= number <= 8 ==> text == "DEBUG")
    && (9 <= number <= 12 ==> text == "INFO") && (13 <= number <= 16 ==> text == "WARN")
    && (17 <= number <= 20 ==> text == "ERROR") && (21 <= number <= 24 ==> text == "FATAL")
    && (number < 1 || number > 24 ==> text == "UNSET")
  }

  /** The number that a text of decimal digits stands for. */
  ghost function Decimal(digits: string): int {
    if digits == [] then 0
    else Decimal(digits[..|digits| - 1]) * 10 + (digits[|digits| - 1] as int - '0' as int)
  }

  lemma {:induction false} DigitsRead(n: nat)
    ensures Decimal(Digits(n)) == n && Digits(n) != []
    ensures forall i :: 0 <= i < |Digits(n)| ==> '0' <= Digits(n)[i] <= '9'
    ensures n > 0 ==> Digits(n)[0] != '0'
  {
    if n >= 10 { DigitsRead(n / 10); }
    var front, c := if n < 10 then "" else Digits(n / 10), '0' + (n % 10) as char;
    assert (front + [c])[..|front|] == front;
  }

  /** The text of a value; an integer as its sign and decimal digits. */
  ghost predicate Spells(value: AnyValue, text: string) {
    match value
    case StringValue(s) => text == s
    case BoolValue(b) => text == if b then "true" else "false"
    case IntValue(i) =>
      if i < 0 then text != [] && text[0] == '-' && IsDecimal(text[1..], -i) else IsDecimal(text, i)
    case DoubleValue(printed) => text == printed
    case BytesValue => text == "<bytes>"
    case ArrayValue => text == "<array>"
    case KvlistValue => text == "<kvlist>"
    case OtherValue => text == "<value>"
    case Unset => text == ""
  }

  ghost predicate IsDecimal(digits: string, n: nat) {
    && Decimal(digits) == n && digits != []
    && (forall i :: 0 <= i < |digits| ==> '0' <= digits[i] <= '9')
    && (n > 0 ==> digits[0] != '0')
  }

  lemma ValueTextRule(value: AnyValue)
    ensures Spells(value, AnyValueString(value))
  {
    hide Digits;
    if value.IntValue? { DigitsRead(if value.i < 0 then -value.i else value.i); }
  }

  /** The record's own severity text, or else the label of its number; its body as text, if any. */
  ghost predicate IsLine(record: LogRecord, line: LogLine) {
    && line.time == record.time
    && (record.severityText != "" ==> line.severity == record.severityText)
    && (record.severityText == "" ==> Labels(record.severityNumber, line.severity))
    && (record.body.Some? ==> Spells(record.body.value, line.body))
    && (record.body.None? ==> line.body == "")
  }

  lemma LineRule(record: LogRecord)
    ensures IsLine(record, LineOf(record))
  {
    hide AnyValueString, Spells, Labels, SeverityLabel;
    if record.body.Some? { ValueTextRule(record.body.value); }
    LabelRule(record.severityNumber);
  }

  lemma LabelRule(number: int)
    ensures Labels(number, SeverityLabel(number))
  {
  }

  ghost predicate AreLines(records: seq<LogRecord>, lines: seq<LogLine>) {
    |lines| == |records| && forall i :: 0 <= i < |records| ==> IsLine(records[i], lines[i])
  }

  // ----- histories -------------------------------------------------------------------------------

  /** Histories add up, batch after batch. */
  lemma {:induction false} HistoryAdds(a: seq<Batch>, b: seq<Batch>, key: string)
    ensures PointHistory(a + b, key) == PointHistory(a, key) + PointHistory(b, key)
    ensures LineHistory(a + b, key) == LineHistory(a, key) + LineHistory(b, key)
    ensures SpanTotal(a + b, key) == SpanTotal(a, key) + SpanTotal(b, key)
  {
    hide KeyOf, PointsIn, LinesIn, SpansIn, PointHistory, LineHistory, SpanTotal;
    if b == [] {
      assert a + b == a;
      NothingYet(key);
    } else {
      var most, last := b[..|b| - 1], b[|b| - 1];
      HistoryAdds(a, most, key);
      assert b == most + [last] && a + b == (a + most) + [last];
      HistorySnoc(a + most, last, key);
      HistorySnoc(most, last, key);
    }
  }

  lemma NothingYet(key: string)
    ensures PointHistory([], key) == [] && LineHistory([], key) == [] && SpanTotal([], key) == 0
  {
  }

  lemma {:induction false} FlatMapConcat<T, U>(f: T -> seq<U>, a: seq<T>, b: seq<T>)
    ensures FlatMap(f, a + b) == FlatMap(f, a) + FlatMap(f, b)
  {
    if b == [] {
      assert a + b == a;
    } else {
      var most := b[..|b| - 1];
      FlatMapConcat(f, a, most);
      assert (a + b)[..|a + b| - 1] == a + most;
    }
  }

  lemma FlatMapOne<T, U>(f: T -> seq<U>, x: T)
    ensures FlatMap(f, [x]) == f(x)
  {
    assert [x][..0] == [];
  }

  /** How metrics are split over scopes of a resource, or over resources, does not matter. */
  lemma PointsAdd(resource: Resource, a: seq<seq<Metric>>, b: seq<seq<Metric>>, m: seq<Metric>, n: seq<Metric>)
    ensures PointsIn(ResourceMetrics(resource, a + b))
         == PointsIn(ResourceMetrics(resource, a)) + PointsIn(ResourceMetrics(resource, b))
    ensures ScopePoints(m + n) == ScopePoints(m) + ScopePoints(n)
    ensures PointsIn(ResourceMetrics(resource, [m])) == ScopePoints(m)
  {
    FlatMapConcat(ScopePoints, a, b);
    FlatMapConcat(MetricPoints, m, n);
    FlatMapOne(ScopePoints, m);
  }

  lemma LinesAdd(resource: Resource, a: seq<seq<LogRecord>>, b: seq<seq<LogRecord>>, records: seq<LogRecord>)
    ensures LinesIn(ResourceLogs(resource, a + b))
         == LinesIn(ResourceLogs(resource, a)) + LinesIn(ResourceLogs(resource, b))
    ensures AreLines(records, LinesIn(ResourceLogs(resource, [records])))
  {
    hide IsLine, LineOf;
    FlatMapConcat(ScopeLines, a, b);
    FlatMapOne(ScopeLines, records);
    LinesOfScope(records);
    forall i | 0 <= i < |records| ensures IsLine(records[i], ScopeLines(records)[i]) { LineRule(records[i]); }
  }

  lemma {:induction false} SpansAdd(a: seq<nat>, b: seq<nat>, n: nat)
    ensures SpansIn(a + b) == SpansIn(a) + SpansIn(b)
    ensures SpansIn([n]) == n
  {
    if b == [] {
      assert a + b == a;
    } else {
      var most := b[..|b| - 1];
      SpansAdd(a, most, n);
      assert (a + b)[..|a + b| - 1] == a + most;
    }
  }

  // ----- what one metric does to the store ---------------------------------------------------------

  /** The newest n of a history. */
  ghost predicate IsWindow<T>(w: seq<T>, history: seq<T>, n: nat) {
    |w| == (if |history| < n then |history| else n) && w == history[|history| - |w|..]
  }

  /** Each key holds the newest 4000 points and 2000 lines of its history, and its spans modulo 2^64. */
  lemma StoreHoldsNewest(batches: seq<Batch>, key: string)
    ensures
      var entry := EntryOf(IngestAll(map[], batches), key);
      && IsWindow(entry.metrics, PointHistory(batches, key), 4000)
      && IsWindow(entry.logs, LineHistory(batches, key), 2000)
      && entry.spanCount == SpanTotal(batches, key) % 0x1_0000_0000_0000_0000
  {
    hide IngestAll, PointHistory, LineHistory, SpanTotal;
    StoreIsWindow(batches, key);
  }

  /**
   * One more metric for a resource: under the resource's key the history grows by exactly the
   * metric's points, and under no other key by anything.
   */
  lemma MetricExtendsHistory(batches: seq<Batch>, resource: Resource, m: Metric, key: string)
    ensures
      var before := PointHistory(batches, key);
      var after := PointHistory(batches + [OfMetrics(ResourceMetrics(resource, [[m]]))], key);
      if ResourceKey(resource) == key then
        |before| <= |after| && after[..|before|] == before && PointsFrom(m, after[|before|..])
      else after == before
  {
    hide MetricPoints, PointsFrom, ResourceKey, PointHistory, ScopePoints, PointsIn;
    HistorySnoc(batches, OfMetrics(ResourceMetrics(resource, [[m]])), key);
    PointsAdd(resource, [], [], [m], []);
    ScopeUnfold([m]);
    FlatMapOne(MetricPoints, m);
    MetricPointsRule(m);
    var before := PointHistory(batches, key);
    assert before + [] == before;
    assert (before + MetricPoints(m))[|before|..] == MetricPoints(m);
  }
}
