/**
 * The collector's pipeline graph (crates/otelc-tui/src/pipeline.rs) from the decoded YAML
 * onward, and the connector bridges between its pipelines.
 */
module Pipelines {
  import opened Prelude
  import opened TextOrder

  // ----- the raw configuration ---------------------------------------------------------------------

  /** A YAML value where `connectors` is expected: a mapping, of which the keys matter, or anything else. */
  datatype Yaml = Mapping(keys: set<YamlKey>) | OtherYaml

  datatype YamlKey = Text(text: string) | NotText(id: nat)

  datatype RawPipeline = RawPipeline(receivers: seq<string>, processors: seq<string>, exporters: seq<string>)

  datatype RawConfig = RawConfig(connectors: Option<Yaml>, service: Option<map<string, RawPipeline>>)

  // ----- the graph -----------------------------------------------------------------------------------

  datatype Pipeline = Pipeline(name: string, receivers: seq<string>, processors: seq<string>, exporters: seq<string>)

  datatype PipelineGraph = PipelineGraph(pipelines: seq<Pipeline>, connectors: set<string>)

  datatype Bridge = Bridge(connector: string, source: string, target: string)

  function Itself(s: string): string { s }

  /** How a B-tree set or map iterates: its keys in strictly increasing order. */
  ghost predicate IsIteration(s: set<string>, keys: seq<string>) {
    StrictlySorted(Itself, keys) && forall k :: k in keys <==> k in s
  }

  ghost function Iteration(s: set<string>): seq<string> {
    if s == {} then [] else
    var x :| x in s;
    Insert(Itself, x, Iteration(s - {x}))
  }

  lemma InsertIteration(s: set<string>, keys: seq<string>, x: string)
    requires IsIteration(s, keys) && x !in s
    ensures IsIteration(s + {x}, Insert(Itself, x, keys))
  {
    hide Insert, StrictlySorted;
    var all := Insert(Itself, x, keys);
    InsertKeeps(Itself, x, keys);
    assert multiset(all) == multiset(keys + [x]);
    SameMembers(all, keys + [x]);
    StrictIsSorted(keys);
    InsertSorted(Itself, x, keys);
    SortedDistinct(all, keys, x);
  }

  lemma StrictIsSorted(keys: seq<string>)
    ensures StrictlySorted(Itself, keys) <==> Sorted(Itself, keys) && DistinctKeys(Itself, keys)
  {
  }

  lemma SortedDistinct(all: seq<string>, keys: seq<string>, x: string)
    requires multiset(all) == multiset(keys + [x]) && StrictlySorted(Itself, keys) && x !in keys && Sorted(Itself, all)
    ensures StrictlySorted(Itself, all)
  {
    StrictIsSorted(keys);
    StrictIsSorted(all);
    forall i, j | 0 <= i < j < |all| ensures all[i] != all[j] {
      var p := PermutedIndex(all, keys + [x], i);
      var q := PermutedIndex(all, keys + [x], j);
      assert DistinctKeys(Itself, keys + [x]);
      if p == q {
        OccursOnce(Itself, keys + [x], p);
        OccursTwice(all, i, j);
      }
    }
  }

  lemma {:induction false} IterationIs(s: set<string>)
    ensures IsIteration(s, Iteration(s))
  {
    if s != {} {
      var x :| x in s && Iteration(s) == Insert(Itself, x, Iteration(s - {x}));
      IterationIs(s - {x});
      InsertIteration(s - {x}, Iteration(s - {x}), x);
      assert s - {x} + {x} == s;
    }
  }

  /** The B-tree's own work: the same list whatever order the elements were inserted in. */
  method Iterate(s: set<string>) returns (keys: seq<string>)
    ensures keys == Iteration(s)
  {
    hide IsIteration, Insert;
    keys := [];
    var left := s;
    NothingIterated();
    assert s - left == {};
    while left != {}
      invariant left <= s && IsIteration(s - left, keys)
      decreases left
    {
      var x :| x in left;
      InsertIteration(s - left, keys, x);
      assert s - left + {x} == s - (left - {x});
      keys := Insert(Itself, x, keys);
      left := left - {x};
    }
    assert s - left == s;
    IterationIs(s);
    IterationUnique(s, keys, Iteration(s));
  }

  lemma NothingIterated()
    ensures IsIteration({}, [])
  {
  }

  lemma IterationUnique(s: set<string>, a: seq<string>, b: seq<string>)
    requires IsIteration(s, a) && IsIteration(s, b)
    ensures a == b
  {
    StrictlySortedUnique(Itself, a, b);
  }

  // ----- parse -----------------------------------------------------------------------------------------

  ghost function PipelinesOf(names: seq<string>, raw: map<string, RawPipeline>): seq<Pipeline>
    requires forall n :: n in names ==> n in raw
  {
    seq(|names|, i requires 0 <= i < |names| =>
      var p := raw[names[i]]; Pipeline(names[i], p.receivers, p.processors, p.exporters))
  }

  /** `parse`, after the YAML has been decoded. */
  ghost function Parse(raw: RawConfig): PipelineGraph {
    var connectors := if raw.connectors.Some? && raw.connectors.value.Mapping?
      then set k | k in raw.connectors.value.keys && k.Text? :: k.text else {};
    var pipelines := if raw.service.Some? then raw.service.value else map[];
    IterationIs(pipelines.Keys);
    PipelineGraph(PipelinesOf(Iteration(pipelines.Keys), pipelines), connectors)
  }

  function PipelineName(p: Pipeline): string { p.name }

  /** The pipelines come sorted by name, one for each entry; the connectors are the textual keys of a mapping. */
  lemma ParsedGraph(raw: RawConfig, p: Pipeline, c: string)
    ensures StrictlySorted(PipelineName, Parse(raw).pipelines)
    ensures p in Parse(raw).pipelines <==>
      raw.service.Some? && p.name in raw.service.value
      && raw.service.value[p.name] == RawPipeline(p.receivers, p.processors, p.exporters)
    ensures c in Parse(raw).connectors <==>
      raw.connectors.Some? && raw.connectors.value.Mapping? && Text(c) in raw.connectors.value.keys
  {
    hide Iteration;
    var raws := if raw.service.Some? then raw.service.value else map[];
    var names, ps := Iteration(raws.Keys), Parse(raw).pipelines;
    IterationIs(raws.Keys);
    forall i, j | 0 <= i < j < |ps| ensures Less(ps[i].name, ps[j].name) {
      assert Less(Itself(names[i]), Itself(names[j]));
    }
    if p in ps { var i :| 0 <= i < |ps| && ps[i] == p; assert names[i] in names; }
    if p.name in raws && raws[p.name] == RawPipeline(p.receivers, p.processors, p.exporters) {
      assert p.name in names;
      var i :| 0 <= i < |names| && names[i] == p.name;
      assert ps[i] == p;
    }
  }

  // ----- bridges -----------------------------------------------------------------------------------------

  predicate Exports(p: Pipeline, c: string) { c in p.exporters }

  predicate Receives(p: Pipeline, c: string) { c in p.receivers }

  /** The names of the pipelines that export (or receive) a connector, in their order. */
  function Ends(ps: seq<Pipeline>, c: string, exporting: bool): seq<string> {
    if ps == [] then [] else
    var p := ps[|ps| - 1];
    Ends(ps[..|ps| - 1], c, exporting)
      + if (if exporting then Exports(p, c) else Receives(p, c)) then [p.name] else []
  }

  /** The bridges of one connector out of one pipeline, of one connector, and of the whole graph. */
  ghost function Fan(c: string, f: string, to: seq<string>): seq<Bridge> {
    seq(|to|, i requires 0 <= i < |to| => Bridge(c, f, to[i]))
  }

  ghost function BridgesOf(ps: seq<Pipeline>, c: string): seq<Bridge> {
    FlatMap(f => Fan(c, f, Ends(ps, c, false)), Ends(ps, c, true))
  }

  ghost function AllBridges(g: PipelineGraph): seq<Bridge> {
    FlatMap(c => BridgesOf(g.pipelines, c), Iteration(g.connectors))
  }

  /** `bridges` */
  method Bridges(g: PipelineGraph) returns (out: seq<Bridge>)
    ensures out == AllBridges(g)
  {
    hide Ends, FlatMap, Iteration, Fan, BridgesOf;
    out := [];
    var connectors := Iterate(g.connectors);
    ghost var each := c => BridgesOf(g.pipelines, c);
    NothingMapped(each);
    assert connectors[..0] == [];
    for i := 0 to |connectors|
      invariant out == FlatMap(each, connectors[..i])
    {
      var connector := connectors[i];
      var from := Ends(g.pipelines, connector, true);
      var to := Ends(g.pipelines, connector, false);
      ghost var before := out;
      ghost var fan := f => Fan(connector, f, to);
      NothingMapped(fan);
      assert from[..0] == [];
      for j := 0 to |from|
        invariant out == before + FlatMap(fan, from[..j])
      {
        var f := from[j];
        ghost var atPipeline := out;
        FanIs(connector, f, to);
        for k := 0 to |to|
          invariant out == atPipeline + Fan(connector, f, to)[..k]
        {
          out := out + [Bridge(connector, f, to[k])];
        }
        FlatMapNext(fan, from, j);
      }
      assert from[..|from|] == from;
      BridgesUnfold(g.pipelines, connector);
      FlatMapNext(each, connectors, i);
    }
    assert connectors[..|connectors|] == connectors;
  }

  lemma FanIs(c: string, f: string, to: seq<string>)
    ensures |Fan(c, f, to)| == |to| && forall i :: 0 <= i < |to| ==> Fan(c, f, to)[i] == Bridge(c, f, to[i])
  {
  }

  lemma BridgesUnfold(ps: seq<Pipeline>, c: string)
    ensures BridgesOf(ps, c) == FlatMap(f => Fan(c, f, Ends(ps, c, false)), Ends(ps, c, true))
  {
  }

  // ----- which bridges there are -----------------------------------------------------------------------------

  lemma {:induction false} MappedMembers<T, U>(f: T -> seq<U>, xs: seq<T>, y: U)
    ensures y in FlatMap(f, xs) <==> exists i :: 0 <= i < |xs| && y in f(xs[i])
  {
    if xs != [] {
      var most := xs[..|xs| - 1];
      MappedMembers(f, most, y);
      if i :| 0 <= i < |most| && y in f(most[i]) { assert y in f(xs[i]); }
      if i :| 0 <= i < |xs| && y in f(xs[i]) { if i < |most| { assert y in f(most[i]); } }
    }
  }

  ghost predicate IsEnd(ps: seq<Pipeline>, c: string, exporting: bool, name: string, i: nat) {
    i < |ps| && ps[i].name == name && if exporting then c in ps[i].exporters else c in ps[i].receivers
  }

  lemma {:induction false} EndsMembers(ps: seq<Pipeline>, c: string, exporting: bool, name: string)
    ensures name in Ends(ps, c, exporting) <==> exists i: nat :: IsEnd(ps, c, exporting, name, i)
  {
    if ps != [] {
      var most := ps[..|ps| - 1];
      EndsMembers(most, c, exporting, name);
      assert name in Ends(ps, c, exporting) && name !in Ends(most, c, exporting) ==> IsEnd(ps, c, exporting, name, |most|);
      if i: nat :| IsEnd(most, c, exporting, name, i) { assert IsEnd(ps, c, exporting, name, i); }
      if i: nat :| IsEnd(ps, c, exporting, name, i) {
        if i < |most| {
          assert IsEnd(most, c, exporting, name, i);
        } else {
          assert Ends(ps, c, exporting) == Ends(most, c, exporting) + [name];
        }
      }
    } else {
      assert forall i: nat :: !IsEnd(ps, c, exporting, name, i);
    }
  }

  lemma FanMembers(c: string, f: string, to: seq<string>, b: Bridge)
    ensures b in Fan(c, f, to) <==> b.connector == c && b.source == f && b.target in to
  {
    if b.connector == c && b.source == f && b.target in to {
      var i :| 0 <= i < |to| && to[i] == b.target;
      assert Fan(c, f, to)[i] == b;
    }
  }

  lemma BridgesMembers(ps: seq<Pipeline>, c: string, b: Bridge)
    ensures b in BridgesOf(ps, c) <==>
      b.connector == c && b.source in Ends(ps, c, true) && b.target in Ends(ps, c, false)
  {
    hide Ends, Fan, FlatMap;
    var from, to := Ends(ps, c, true), Ends(ps, c, false);
    MappedMembers(f => Fan(c, f, to), from, b);
    forall i | 0 <= i < |from|
      ensures b in Fan(c, from[i], to) <==> b.connector == c && b.source == from[i] && b.target in to
    {
      FanMembers(c, from[i], to, b);
    }
  }

  /** A bridge is listed exactly when its connector is declared, exported by the one and received by the other. */
  lemma BridgesAreExact(g: PipelineGraph, b: Bridge)
    ensures b in AllBridges(g) <==>
      && b.connector in g.connectors
      && (exists i: nat :: IsEnd(g.pipelines, b.connector, true, b.source, i))
      && (exists i: nat :: IsEnd(g.pipelines, b.connector, false, b.target, i))
  {
    hide Ends, BridgesOf, FlatMap, Iteration, IsEnd;
    var cs := Iteration(g.connectors);
    IterationIs(g.connectors);
    MappedMembers(c => BridgesOf(g.pipelines, c), cs, b);
    forall i | 0 <= i < |cs|
      ensures b in BridgesOf(g.pipelines, cs[i]) <==>
        b.connector == cs[i] && b.source in Ends(g.pipelines, cs[i], true) && b.target in Ends(g.pipelines, cs[i], false)
    {
      BridgesMembers(g.pipelines, cs[i], b);
    }
    EndsMembers(g.pipelines, b.connector, true, b.source);
    EndsMembers(g.pipelines, b.connector, false, b.target);
    if b.connector in g.connectors { assert b.connector in cs; }
  }

  // ----- in which order ------------------------------------------------------------------------------------------

  /** Lexicographic: by connector, then source, then target. */
  predicate Before(a: Bridge, b: Bridge) {
    || Less(a.connector, b.connector)
    || (a.connector == b.connector && Less(a.source, b.source))
    || (a.connector == b.connector && a.source == b.source && Less(a.target, b.target))
  }

  ghost predicate Increasing(s: seq<Bridge>) {
    forall i, j :: 0 <= i < j < |s| ==> Before(s[i], s[j])
  }

  lemma IncreasingConcat(a: seq<Bridge>, b: seq<Bridge>)
    requires Increasing(a) && Increasing(b)
    requires forall i, j :: 0 <= i < |a| && 0 <= j < |b| ==> Before(a[i], b[j])
    ensures Increasing(a + b)
  {
  }

  lemma {:induction false} EndsSorted(ps: seq<Pipeline>, c: string, exporting: bool)
    requires StrictlySorted(PipelineName, ps)
    ensures StrictlySorted(Itself, Ends(ps, c, exporting))
  {
    if ps != [] {
      var most, last := ps[..|ps| - 1], ps[|ps| - 1];
      EndsSorted(most, c, exporting);
      var ends := Ends(most, c, exporting);
      forall i | 0 <= i < |ends| ensures Less(ends[i], last.name) {
        EndsMembers(most, c, exporting, ends[i]);
        var k: nat :| IsEnd(most, c, exporting, ends[i], k);
        assert Less(PipelineName(ps[k]), PipelineName(last));
      }
    }
  }

  lemma {:induction false} FansIncrease(c: string, from: seq<string>, to: seq<string>)
    requires StrictlySorted(Itself, from) && StrictlySorted(Itself, to)
    ensures Increasing(FlatMap(f => Fan(c, f, to), from))
  {
    hide Fan;
    if from != [] {
      var most, last := from[..|from| - 1], from[|from| - 1];
      var fans := FlatMap(f => Fan(c, f, to), most);
      FansIncrease(c, most, to);
      FanIncreases(c, last, to);
      forall i, j | 0 <= i < |fans| && 0 <= j < |Fan(c, last, to)| ensures Before(fans[i], Fan(c, last, to)[j]) {
        MappedMembers(f => Fan(c, f, to), most, fans[i]);
        var k :| 0 <= k < |most| && fans[i] in Fan(c, most[k], to);
        FanMembers(c, most[k], to, fans[i]);
        FanMembers(c, last, to, Fan(c, last, to)[j]);
        assert Less(Itself(from[k]), Itself(last));
      }
      IncreasingConcat(fans, Fan(c, last, to));
    }
  }

  lemma FanIncreases(c: string, f: string, to: seq<string>)
    requires StrictlySorted(Itself, to)
    ensures Increasing(Fan(c, f, to))
  {
    forall i, j | 0 <= i < j < |to| ensures Less(to[i], to[j]) {
      assert Less(Itself(to[i]), Itself(to[j]));
    }
  }

  lemma {:induction false} ConnectorsIncrease(ps: seq<Pipeline>, cs: seq<string>)
    requires StrictlySorted(PipelineName, ps) && StrictlySorted(Itself, cs)
    ensures Increasing(FlatMap(c => BridgesOf(ps, c), cs))
  {
    hide BridgesOf, Ends;
    if cs != [] {
      var most, last := cs[..|cs| - 1], cs[|cs| - 1];
      var before, after := FlatMap(c => BridgesOf(ps, c), most), BridgesOf(ps, last);
      ConnectorsIncrease(ps, most);
      EndsSorted(ps, last, true);
      EndsSorted(ps, last, false);
      BridgesUnfold(ps, last);
      FansIncrease(last, Ends(ps, last, true), Ends(ps, last, false));
      forall i, j | 0 <= i < |before| && 0 <= j < |after| ensures Before(before[i], after[j]) {
        MappedMembers(c => BridgesOf(ps, c), most, before[i]);
        var k :| 0 <= k < |most| && before[i] in BridgesOf(ps, most[k]);
        BridgesMembers(ps, most[k], before[i]);
        BridgesMembers(ps, last, after[j]);
        assert Less(Itself(cs[k]), Itself(last));
      }
      IncreasingConcat(before, after);
    }
  }

  /** The bridges of a parsed graph are strictly increasing, so none is listed twice. */
  lemma BridgesIncrease(g: PipelineGraph)
    requires StrictlySorted(PipelineName, g.pipelines)
    ensures Increasing(AllBridges(g))
    ensures forall i, j :: 0 <= i < j < |AllBridges(g)| ==> AllBridges(g)[i] != AllBridges(g)[j]
  {
    hide FlatMap, Iteration, BridgesOf, StrictlySorted;
    IterationIs(g.connectors);
    ConnectorsIncrease(g.pipelines, Iteration(g.connectors));
    NotBeforeItself(AllBridges(g));
  }

  lemma NotBeforeItself(s: seq<Bridge>)
    requires Increasing(s)
    ensures forall i, j :: 0 <= i < j < |s| ==> s[i] != s[j]
  {
  }

  // ----- how many ------------------------------------------------------------------------------------------------

  /** Exporting times receiving pipelines, summed over connectors. */
  ghost function ExpectedCount(ps: seq<Pipeline>, cs: seq<string>): nat {
    if cs == [] then 0 else
    var c := cs[|cs| - 1];
    ExpectedCount(ps, cs[..|cs| - 1]) + |Ends(ps, c, true)| * |Ends(ps, c, false)|
  }

  lemma {:induction false} FansCount(c: string, from: seq<string>, to: seq<string>)
    ensures |FlatMap(f => Fan(c, f, to), from)| == |from| * |to|
  {
    if from != [] {
      FansCount(c, from[..|from| - 1], to);
      assert |from| * |to| == (|from| - 1) * |to| + |to|;
    }
  }

  lemma {:induction false} BridgesCount(g: PipelineGraph, cs: seq<string>)
    ensures |FlatMap(c => BridgesOf(g.pipelines, c), cs)| == ExpectedCount(g.pipelines, cs)
  {
    hide Ends, BridgesOf;
    if cs != [] {
      var c := cs[|cs| - 1];
      BridgesCount(g, cs[..|cs| - 1]);
      BridgesUnfold(g.pipelines, c);
      FansCount(c, Ends(g.pipelines, c, true), Ends(g.pipelines, c, false));
    }
  }

  lemma AllBridgesCount(g: PipelineGraph)
    ensures |AllBridges(g)| == ExpectedCount(g.pipelines, Iteration(g.connectors))
  {
    hide FlatMap, Iteration, BridgesOf, ExpectedCount;
    BridgesCount(g, Iteration(g.connectors));
  }
}
