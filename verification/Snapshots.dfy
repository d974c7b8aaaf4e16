/**
 * What the UI is shown of the telemetry store: the newest point of each metric and the newest
 * log lines (crates/otelc-otlp/src/model.rs, `poll_telemetry` in control/embedded.rs), against
 * the whole history.
 */
module Snapshots {
  import opened Prelude
  import opened TextOrder
  import opened Telemetry
  import Translate

  function PointName(p: MetricPoint): string { p.name }

  /** No later point has the name of point i. */
  ghost predicate NewestAt(points: seq<MetricPoint>, i: nat) {
    i < |points| && forall j :: i < j < |points| ==> points[j].name != points[i].name
  }

  /** The newest point of each name, in the order they arrived. */
  ghost function NewestPoints(points: seq<MetricPoint>): seq<MetricPoint> {
    if points == [] then []
    else (if NewestAt(points, 0) then [points[0]] else []) + NewestPoints(points[1..])
  }

  /** `latest_metrics` */
  ghost function LatestOf(points: seq<MetricPoint>): seq<MetricPoint> {
    SortBy(PointName, NewestPoints(points))
  }

  lemma NewestInTail(points: seq<MetricPoint>, i: nat)
    requires i + 1 < |points|
    ensures NewestAt(points, i + 1) <==> NewestAt(points[1..], i)
  {
    assert forall j :: 0 <= j < |points| - 1 ==> points[1..][j] == points[j + 1];
  }

  lemma {:induction false} NewestMembers(points: seq<MetricPoint>, p: MetricPoint)
    ensures p in NewestPoints(points) <==> exists i: nat :: NewestAt(points, i) && points[i] == p
  {
    if points != [] {
      NewestMembers(points[1..], p);
      if i: nat :| NewestAt(points[1..], i) && points[1..][i] == p {
        NewestInTail(points, i);
      }
      if i: nat :| NewestAt(points, i) && points[i] == p {
        if i > 0 { NewestInTail(points, i - 1); }
      }
    }
  }

  lemma {:induction false} NewestDistinct(points: seq<MetricPoint>)
    ensures DistinctKeys(PointName, NewestPoints(points))
  {
    if points != [] {
      var rest := NewestPoints(points[1..]);
      NewestDistinct(points[1..]);
      if NewestAt(points, 0) {
        forall k | 0 <= k < |rest| ensures rest[k].name != points[0].name {
          NewestMembers(points[1..], rest[k]);
          var i: nat :| NewestAt(points[1..], i) && points[1..][i] == rest[k];
          assert points[i + 1] == rest[k];
        }
      }
    }
  }

  /** One entry for each name, strictly sorted by name, and each the newest point of its name. */
  lemma LatestIsNewestPerName(points: seq<MetricPoint>)
    ensures StrictlySorted(PointName, LatestOf(points))
    ensures forall p :: p in LatestOf(points) <==> exists i: nat :: NewestAt(points, i) && points[i] == p
  {
    hide NewestPoints, SortBy;
    NewestDistinct(points);
    SortByDistinct(PointName, NewestPoints(points));
    SortBySorts(PointName, NewestPoints(points));
    SameMembers(LatestOf(points), NewestPoints(points));
    forall p ensures p in LatestOf(points) <==> exists i: nat :: NewestAt(points, i) && points[i] == p {
      NewestMembers(points, p);
    }
  }

  // ----- the window against the whole history --------------------------------------------------------

  lemma LastIsSuffix<T>(s: seq<T>, n: nat)
    ensures var w := Last(s, n);
      |w| == Min(|s|, n) && forall i :: 0 <= i < |w| ==> w[i] == s[i + |s| - |w|]
  {
  }

  /** The newest of its name in the window is the newest in the history. */
  lemma NewestInWindow(history: seq<MetricPoint>, n: nat, i: nat)
    requires i < |Last(history, n)|
    ensures |history| >= |Last(history, n)|
    ensures var at := i + |history| - |Last(history, n)|;
      Last(history, n)[i] == history[at] && (NewestAt(Last(history, n), i) <==> NewestAt(history, at))
  {
    hide Last;
    LastIsSuffix(history, n);
    NewestInSuffix(history, Last(history, n), i);
  }

  lemma NewestInSuffix(history: seq<MetricPoint>, w: seq<MetricPoint>, i: nat)
    requires i < |w| <= |history| && forall k :: 0 <= k < |w| ==> w[k] == history[k + |history| - |w|]
    ensures NewestAt(w, i) <==> NewestAt(history, i + |history| - |w|)
  {
    var gone := |history| - |w|;
    if NewestAt(w, i) {
      forall j | i + gone < j < |history| ensures history[j].name != history[i + gone].name {
        assert w[j - gone] == history[j];
      }
    }
    if NewestAt(history, i + gone) {
      forall j | i < j < |w| ensures w[j].name != w[i].name {
        assert w[j] == history[j + gone];
      }
    }
  }

  lemma {:induction false} HasNewest(points: seq<MetricPoint>, k: nat) returns (i: nat)
    requires k < |points|
    ensures k <= i && NewestAt(points, i) && points[i].name == points[k].name
    decreases |points| - k
  {
    if NewestAt(points, k) {
      i := k;
    } else {
      var j :| k < j < |points| && points[j].name == points[k].name;
      i := HasNewest(points, j);
    }
  }

  /** Among the last n points of a history, point i has this name. */
  ghost predicate RecentlyNamed(history: seq<MetricPoint>, n: nat, name: string, i: nat) {
    |history| - n <= i < |history| && history[i].name == name
  }

  /**
   * `latest_metrics` on the window agrees with the history: a name is listed exactly when one of
   * its points is among the last n, and then with its newest point in the whole history.
   */
  lemma LatestAgreesWithHistory(history: seq<MetricPoint>, n: nat, name: string)
    ensures
      (exists p :: p in LatestOf(Last(history, n)) && p.name == name) <==>
      (exists i: nat :: RecentlyNamed(history, n, name, i))
    ensures forall p :: p in LatestOf(Last(history, n)) ==> exists i: nat :: NewestAt(history, i) && history[i] == p
  {
    hide LatestOf, StrictlySorted, Last;
    var w := Last(history, n);
    LastIsSuffix(history, n);
    var gone := |history| - |w|;
    LatestIsNewestPerName(w);
    forall p | p in LatestOf(w)
      ensures exists i: nat :: NewestAt(history, i) && history[i] == p && (p.name == name ==> RecentlyNamed(history, n, name, i))
    {
      var i: nat :| NewestAt(w, i) && w[i] == p;
      NewestInWindow(history, n, i);
      assert NewestAt(history, i + gone) && history[i + gone] == p;
    }
    if i: nat :| RecentlyNamed(history, n, name, i) {
      var j := HasNewest(w, i - gone);
      assert w[j] in LatestOf(w);
    }
  }

  // ----- the method -----------------------------------------------------------------------------------

  /** `seen` after the first k points: for each name so far, its newest point. */
  ghost predicate Sees(seen: map<string, MetricPoint>, points: seq<MetricPoint>) {
    && (forall i :: 0 <= i < |points| ==> points[i].name in seen)
    && forall name :: name in seen ==>
        seen[name].name == name && exists i: nat :: NewestAt(points, i) && points[i] == seen[name]
  }

  lemma SeesNext(seen: map<string, MetricPoint>, points: seq<MetricPoint>, p: MetricPoint)
    requires Sees(seen, points)
    ensures Sees(seen[p.name := p], points + [p])
  {
    var seen', points' := seen[p.name := p], points + [p];
    forall i | 0 <= i < |points'| ensures points'[i].name in seen' {
      if i < |points| { assert points[i] == points'[i]; }
    }
    forall name | name in seen'
      ensures seen'[name].name == name && exists i: nat :: NewestAt(points', i) && points'[i] == seen'[name]
    {
      if name == p.name {
        assert NewestAt(points', |points|);
      } else {
        var i: nat :| NewestAt(points, i) && points[i] == seen[name];
        assert points'[i] == points[i];
        assert NewestAt(points', i);
      }
    }
  }

  /** The seen points are exactly the newest ones. */
  lemma SeenIsNewest(seen: map<string, MetricPoint>, points: seq<MetricPoint>, p: MetricPoint)
    requires Sees(seen, points)
    ensures (exists i: nat :: NewestAt(points, i) && points[i] == p) <==> p.name in seen && seen[p.name] == p
  {
    if i: nat :| NewestAt(points, i) && points[i] == p {
      assert points[i].name in seen;
      var j: nat :| NewestAt(points, j) && points[j] == seen[p.name];
      assert i == j;
    }
  }

  /** The values of the map, in whatever order it iterates. */
  ghost predicate Collected(seen: map<string, MetricPoint>, left: set<string>, out: seq<MetricPoint>) {
    && left <= seen.Keys
    && DistinctKeys(PointName, out)
    && (forall i :: 0 <= i < |out| ==> out[i].name in seen && out[i].name !in left && seen[out[i].name] == out[i])
    && (forall name :: name in seen && name !in left ==> seen[name] in out)
  }

  lemma CollectNext(seen: map<string, MetricPoint>, left: set<string>, out: seq<MetricPoint>, name: string)
    requires Collected(seen, left, out) && name in left && seen[name].name == name
    ensures Collected(seen, left - {name}, out + [seen[name]])
  {
    var out' := out + [seen[name]];
    forall k | k in seen && k !in left - {name} ensures seen[k] in out' {
      if k == name { assert out'[|out|] == seen[k]; } else { assert seen[k] in out; }
    }
  }

  /** `latest_metrics`: the result does not depend on how the hash map iterates. */
  method LatestMetrics(points: seq<MetricPoint>) returns (out: seq<MetricPoint>)
    ensures out == LatestOf(points)
  {
    hide Sees, Collected, NewestAt, NewestPoints;
    var seen: map<string, MetricPoint> := map[];
    NothingSeen(points);
    for i := 0 to |points|
      invariant Sees(seen, points[..i])
    {
      SeesNext(seen, points[..i], points[i]);
      assert points[..i + 1] == points[..i] + [points[i]];
      seen := seen[points[i].name := points[i]];
    }
    assert points[..|points|] == points;
    out := [];
    var left := seen.Keys;
    NothingCollected(seen);
    while left != {}
      invariant Collected(seen, left, out)
      decreases left
    {
      var name :| name in left;
      SeenNames(seen, points, left, out, name);
      CollectNext(seen, left, out, name);
      out := out + [seen[name]];
      left := left - {name};
    }
    CollectedIsLatest(seen, points, out);
    out := SortBy(PointName, out);
  }

  lemma NothingSeen(points: seq<MetricPoint>)
    ensures Sees(map[], points[..0])
  {
  }

  lemma NothingCollected(seen: map<string, MetricPoint>)
    ensures Collected(seen, seen.Keys, [])
  {
  }

  lemma SeenNames(seen: map<string, MetricPoint>, points: seq<MetricPoint>, left: set<string>,
                  out: seq<MetricPoint>, name: string)
    requires Sees(seen, points) && Collected(seen, left, out) && name in left
    ensures name in seen && seen[name].name == name
  {
  }

  lemma CollectedIsLatest(seen: map<string, MetricPoint>, points: seq<MetricPoint>, out: seq<MetricPoint>)
    requires Sees(seen, points) && Collected(seen, {}, out)
    ensures SortBy(PointName, out) == LatestOf(points)
  {
    hide NewestAt, NewestPoints, SortBy, Sees;
    NewestDistinct(points);
    forall p ensures p in out <==> p in NewestPoints(points) {
      NewestMembers(points, p);
      SeenIsNewest(seen, points, p);
      if p in out { var i :| 0 <= i < |out| && out[i] == p; }
    }
    SortByCanonical(PointName, out, NewestPoints(points));
  }

  // ----- polling -----------------------------------------------------------------------------------------

  function MetricRowOf(p: MetricPoint): Translate.MetricRow {
    Translate.MetricRow(p.name, p.value, p.unit)
  }

  function LogRowOf(l: LogLine): Translate.LogRow {
    Translate.LogRow(l.time, l.severity, l.body)
  }

  function MetricRows(points: seq<MetricPoint>): seq<Translate.MetricRow> {
    seq(|points|, i requires 0 <= i < |points| => MetricRowOf(points[i]))
  }

  /** `logs.iter().rev().take(300)` */
  function LogRows(logs: seq<LogLine>): seq<Translate.LogRow> {
    seq(Min(|logs|, POLLED_LOGS), i requires 0 <= i < Min(|logs|, POLLED_LOGS) => LogRowOf(logs[|logs| - 1 - i]))
  }

  /** One row for each point. */
  ghost predicate ShowPoints(rows: seq<Translate.MetricRow>, points: seq<MetricPoint>) {
    && |rows| == |points|
    && forall i :: 0 <= i < |rows| ==>
        rows[i].name == points[i].name && rows[i].value == points[i].value && rows[i].unit == points[i].unit
  }

  /** The newest 300 lines, or all there are, newest first. */
  ghost predicate ShowLines(rows: seq<Translate.LogRow>, lines: seq<LogLine>) {
    && |rows| == (if |lines| < 300 then |lines| else 300)
    && forall i :: 0 <= i < |rows| ==>
        && rows[i].time == lines[|lines| - 1 - i].time
        && rows[i].severity == lines[|lines| - 1 - i].severity && rows[i].body == lines[|lines| - 1 - i].body
  }

  lemma RowsRule(points: seq<MetricPoint>, lines: seq<LogLine>)
    ensures ShowPoints(MetricRows(points), points) && ShowLines(LogRows(lines), lines)
  {
    var rows := LogRows(lines);
    forall i | 0 <= i < |rows| ensures rows[i] == LogRowOf(lines[|lines| - 1 - i]) {
    }
  }

  ghost function SnapshotOf(agent: AgentTelemetry): Translate.TelemetrySnapshot {
    Translate.TelemetrySnapshot(MetricRows(LatestOf(agent.metrics)), LogRows(agent.logs), agent.spanCount)
  }

  /** The store's keys, in whatever order the hash map iterates. */
  method Keys(agents: map<string, AgentTelemetry>) returns (keys: seq<string>)
    ensures |keys| == |agents.Keys|
    ensures forall key :: key in keys <==> key in agents
  {
    keys := [];
    var left := agents.Keys;
    while left != {}
      invariant left <= agents.Keys && |keys| == |agents.Keys| - |left|
      invariant forall key :: key in keys <==> key in agents.Keys - left
      decreases left
    {
      var key :| key in left;
      keys := keys + [key];
      left := left - {key};
    }
  }

  /** What has been ingested by the time the first n snapshots have been taken. */
  ghost function Meanwhile(arrivals: seq<seq<Request>>, n: nat): seq<Batch> {
    if n == 0 then [] else
    Meanwhile(arrivals, n - 1) + if n <= |arrivals| then AllBatches(arrivals[n - 1]) else []
  }

  lemma MeanwhileStarts(arrivals: seq<seq<Request>>)
    ensures Meanwhile(arrivals, 0) == []
  {
  }

  lemma MeanwhileNext(arrivals: seq<seq<Request>>, n: nat)
    ensures n < |arrivals| ==> Meanwhile(arrivals, n + 1) == Meanwhile(arrivals, n) + AllBatches(arrivals[n])
    ensures n >= |arrivals| ==> Meanwhile(arrivals, n + 1) == Meanwhile(arrivals, n)
  {
    hide AllBatches;
  }

  /** The event for a key: its snapshot in this state of the store. */
  ghost predicate IsPolled(agents: map<string, AgentTelemetry>, key: string, e: Translate.ControlEvent) {
    key in agents && e == Translate.Telemetry(key, SnapshotOf(agents[key]))
  }

  method PollKey(store: TelemetryStore, key: string) returns (e: Translate.ControlEvent)
    requires key in store.agents
    ensures IsPolled(store.agents, key, e)
  {
    hide LatestOf, LogRows, MetricRows;
    var agent := store.agents[key];
    var latest := LatestMetrics(agent.metrics);
    e := Translate.Telemetry(key,
           Translate.TelemetrySnapshot(MetricRows(latest), LogRows(agent.logs), agent.spanCount));
  }

  /**
   * One round of `poll_telemetry`, while requests keep arriving: `arrivals[i]` come in between the
   * snapshots before key i and the one of key i. One event per key that the store held when the
   * round began, each with that key's snapshot at its own moment.
   */
  method Poll(store: TelemetryStore, arrivals: seq<seq<Request>>)
    returns (keys: seq<string>, sent: seq<Translate.ControlEvent>)
    modifies store
    ensures |sent| == |keys| == |old(store.agents).Keys|
    ensures forall key :: key in old(store.agents) <==> key in keys
    ensures forall i :: 0 <= i < |keys| ==>
      IsPolled(IngestAll(old(store.agents), Meanwhile(arrivals, i + 1)), keys[i], sent[i])
    ensures store.agents == IngestAll(old(store.agents), Meanwhile(arrivals, |keys|))
  {
    hide IngestAll, AllBatches, IsPolled, Meanwhile;
    ghost var start := store.agents;
    keys := Keys(store.agents);
    sent := [];
    NoneIngested(start);
    MeanwhileStarts(arrivals);
    for n := 0 to |keys|
      invariant |sent| == n && store.agents == IngestAll(start, Meanwhile(arrivals, n))
      invariant forall i :: 0 <= i < n ==> IsPolled(IngestAll(start, Meanwhile(arrivals, i + 1)), keys[i], sent[i])
    {
      MeanwhileNext(arrivals, n);
      if n < |arrivals| {
        IngestConcat(start, Meanwhile(arrivals, n), AllBatches(arrivals[n]));
        IngestRequests(store, arrivals[n]);
      }
      assert keys[n] in keys;
      KeysStay(start, Meanwhile(arrivals, n + 1), keys[n]);
      var e := PollKey(store, keys[n]);
      sent := sent + [e];
    }
  }

  lemma LogRowsOfWindow(history: seq<LogLine>, n: nat)
    requires n >= POLLED_LOGS
    ensures LogRows(Last(history, n)) == LogRows(history)
  {
    LastIsSuffix(history, n);
  }

  /**
   * A polled snapshot in terms of everything the store was ever sent: the newest 300 log lines,
   * newest first; the newest point of every metric that is among the last 4000 points, by name;
   * all spans, modulo 2^64.
   */
  lemma SnapshotShowsHistory(batches: seq<Batch>, key: string)
    ensures var shown := SnapshotOf(EntryOf(IngestAll(map[], batches), key));
      && ShowLines(shown.logs, LineHistory(batches, key))
      && ShowPoints(shown.metrics, LatestOf(Last(PointHistory(batches, key), 4000)))
      && shown.spanCount == SpanTotal(batches, key) % 0x1_0000_0000_0000_0000
  {
    hide LatestOf, LogRows, MetricRows, IngestAll, PointHistory, LineHistory, SpanTotal, Last, ShowLines, ShowPoints;
    StoreIsWindow(batches, key);
    LogRowsOfWindow(LineHistory(batches, key), MAX_LOGS);
    RowsRule(LatestOf(Last(PointHistory(batches, key), 4000)), LineHistory(batches, key));
  }
}
