/**
 * The component-health tree: built from nested hash maps (control/embedded.rs, health_node)
 * and listed with one depth-indented row per component (views.rs, health_lines).
 */
module HealthTree {
  import opened TextOrder

  /** A component as an agent reports it; `parts` is its hash map in some iteration order. */
  datatype ComponentHealth = ComponentHealth(
    healthy: bool, startTime: nat, lastError: string, status: string, parts: seq<Part>)

  datatype Part = Part(name: string, health: ComponentHealth)

  datatype HealthNode = HealthNode(
    name: string, healthy: bool, status: string, lastError: string, children: seq<HealthNode>)

  const NodeName: HealthNode -> string := (n: HealthNode) => n.name

  function NodeOf(name: string, health: ComponentHealth): HealthNode
    decreases health, 1
  {
    HealthNode(name, health.healthy, health.status, health.lastError,
               SortBy(NodeName, NodesOf(health.parts)))
  }

  function NodesOf(parts: seq<Part>): (nodes: seq<HealthNode>)
    ensures |nodes| == |parts|
    decreases parts, 0
  {
    if parts == [] then []
    else [NodeOf(parts[0].name, parts[0].health)] + NodesOf(parts[1..])
  }

  lemma {:induction false} NodeAt(parts: seq<Part>, i: nat)
    requires i < |parts|
    ensures NodesOf(parts)[i] == NodeOf(parts[i].name, parts[i].health)
  {
    if i > 0 { NodeAt(parts[1..], i - 1); }
  }

  // ----- one tree for every iteration order ---------------------------------------------

  /** What an agent reports, without an order: nested maps as values. */
  datatype HealthValue = HealthValue(healthy: bool, lastError: string, status: string, parts: map<string, HealthValue>)

  ghost function ValueOf(health: ComponentHealth): HealthValue
    decreases health, 1
  {
    HealthValue(health.healthy, health.lastError, health.status, MapOf(health.parts))
  }

  ghost function MapOf(parts: seq<Part>): map<string, HealthValue>
    decreases parts, 0
  {
    if parts == [] then map[] else MapOf(parts[1..])[parts[0].name := ValueOf(parts[0].health)]
  }

  ghost predicate DistinctNames(parts: seq<Part>) {
    forall i, j :: 0 <= i < j < |parts| ==> parts[i].name != parts[j].name
  }

  /** Hash-map keys are distinct, at every level. */
  ghost predicate MapsEverywhere(health: ComponentHealth) {
    DistinctNames(health.parts) && forall i :: 0 <= i < |health.parts| ==> MapsEverywhere(health.parts[i].health)
  }

  lemma {:induction false} MapHolds(parts: seq<Part>, i: nat)
    requires DistinctNames(parts) && i < |parts|
    ensures parts[i].name in MapOf(parts) && MapOf(parts)[parts[i].name] == ValueOf(parts[i].health)
  {
    if i > 0 { MapHolds(parts[1..], i - 1); }
  }

  lemma {:induction false} MapHasIndex(parts: seq<Part>, name: string) returns (i: nat)
    requires name in MapOf(parts)
    ensures i < |parts| && parts[i].name == name
  {
    if parts[0].name == name {
      i := 0;
    } else {
      i := MapHasIndex(parts[1..], name);
      i := i + 1;
    }
  }

  /** Where the second map keeps the entry that the first one has at i. */
  lemma Partner(a: seq<Part>, b: seq<Part>, i: nat) returns (j: nat)
    requires DistinctNames(a) && DistinctNames(b) && MapOf(a) == MapOf(b) && i < |a|
    ensures j < |b| && b[j].name == a[i].name && ValueOf(b[j].health) == ValueOf(a[i].health)
  {
    MapHolds(a, i);
    j := MapHasIndex(b, a[i].name);
    MapHolds(b, j);
  }

  /** The tree does not depend on the iteration order of any of the maps. */
  lemma {:induction false} TreeIgnoresIterationOrder(name: string, a: ComponentHealth, b: ComponentHealth)
    requires ValueOf(a) == ValueOf(b) && MapsEverywhere(a) && MapsEverywhere(b)
    ensures NodeOf(name, a) == NodeOf(name, b)
    decreases a, 1
  {
    NodesAmong(a, b);
    NodesCover(a, b);
    NodesDistinct(a.parts);
    NodesDistinct(b.parts);
    SortByCanonical(NodeName, NodesOf(a.parts), NodesOf(b.parts));
  }

  lemma {:induction false} NodesAmong(a: ComponentHealth, b: ComponentHealth)
    requires ValueOf(a) == ValueOf(b) && MapsEverywhere(a) && MapsEverywhere(b)
    ensures forall y :: y in NodesOf(a.parts) ==> y in NodesOf(b.parts)
    decreases a, 0
  {
    forall i | 0 <= i < |a.parts| ensures NodesOf(a.parts)[i] in NodesOf(b.parts) {
      var j := Partner(a.parts, b.parts, i);
      TreeIgnoresIterationOrder(a.parts[i].name, a.parts[i].health, b.parts[j].health);
      NodeAt(a.parts, i);
      NodeAt(b.parts, j);
    }
  }

  lemma {:induction false} NodesCover(a: ComponentHealth, b: ComponentHealth)
    requires ValueOf(a) == ValueOf(b) && MapsEverywhere(a) && MapsEverywhere(b)
    ensures forall y :: y in NodesOf(b.parts) ==> y in NodesOf(a.parts)
    decreases a, 0
  {
    forall j | 0 <= j < |b.parts| ensures NodesOf(b.parts)[j] in NodesOf(a.parts) {
      var i := Partner(b.parts, a.parts, j);
      TreeIgnoresIterationOrder(a.parts[i].name, a.parts[i].health, b.parts[j].health);
      NodeAt(a.parts, i);
      NodeAt(b.parts, j);
    }
  }

  lemma NodesDistinct(parts: seq<Part>)
    requires DistinctNames(parts)
    ensures DistinctKeys(NodeName, NodesOf(parts))
  {
    forall i, j | 0 <= i < j < |parts| ensures NodesOf(parts)[i].name != NodesOf(parts)[j].name {
      NodeAt(parts, i);
      NodeAt(parts, j);
    }
  }

  /** Children are listed strictly by name, at every level. */
  ghost predicate Ordered(node: HealthNode) {
    && StrictlySorted(NodeName, node.children)
    && forall i :: 0 <= i < |node.children| ==> Ordered(node.children[i])
  }

  lemma {:induction false} TreeIsOrdered(name: string, health: ComponentHealth)
    requires MapsEverywhere(health)
    ensures Ordered(NodeOf(name, health))
    decreases health
  {
    var nodes, node := NodesOf(health.parts), NodeOf(name, health);
    NodesDistinct(health.parts);
    SortByDistinct(NodeName, nodes);
    SortBySorts(NodeName, nodes);
    forall i | 0 <= i < |node.children| ensures Ordered(node.children[i]) {
      var j := PermutedIndex(node.children, nodes, i);
      TreeIsOrdered(health.parts[j].name, health.parts[j].health);
      NodeAt(health.parts, j);
    }
  }

  // ----- nothing is lost in the tree -----------------------------------------------------

  /** The report that a tree shows: its fields, and its children under their names. */
  ghost function ReportOf(node: HealthNode): HealthValue
    decreases node, 1
  {
    HealthValue(node.healthy, node.lastError, node.status, ReportsOf(node.children))
  }

  ghost function ReportsOf(nodes: seq<HealthNode>): map<string, HealthValue>
    decreases nodes, 0
  {
    if nodes == [] then map[] else ReportsOf(nodes[1..])[nodes[0].name := ReportOf(nodes[0])]
  }

  lemma {:induction false} ReportsHold(nodes: seq<HealthNode>, i: nat)
    requires DistinctKeys(NodeName, nodes) && i < |nodes|
    ensures nodes[i].name in ReportsOf(nodes) && ReportsOf(nodes)[nodes[i].name] == ReportOf(nodes[i])
  {
    if i > 0 {
      assert forall j :: 0 <= j < |nodes| - 1 ==> nodes[1..][j] == nodes[j + 1];
      ReportsHold(nodes[1..], i - 1);
      assert nodes[0].name != nodes[i].name by { assert NodeName(nodes[0]) != NodeName(nodes[i]); }
    }
  }

  lemma {:induction false} ReportsHaveIndex(nodes: seq<HealthNode>, name: string) returns (i: nat)
    requires name in ReportsOf(nodes)
    ensures i < |nodes| && nodes[i].name == name
  {
    if nodes[0].name == name {
      i := 0;
    } else {
      i := ReportsHaveIndex(nodes[1..], name);
      i := i + 1;
    }
  }

  lemma SortedAreDistinct(nodes: seq<HealthNode>)
    requires StrictlySorted(NodeName, nodes)
    ensures DistinctKeys(NodeName, nodes)
  {
  }

  /** Where the tree lists the part at i. */
  lemma ChildOf(name: string, health: ComponentHealth, i: nat) returns (j: nat)
    requires MapsEverywhere(health) && i < |health.parts|
    ensures DistinctKeys(NodeName, NodeOf(name, health).children)
    ensures j < |NodeOf(name, health).children|
    ensures NodeOf(name, health).children[j] == NodeOf(health.parts[i].name, health.parts[i].health)
  {
    hide SortBy, DistinctKeys;
    var nodes := NodesOf(health.parts);
    NodesDistinct(health.parts);
    SortByDistinct(NodeName, nodes);
    SortBySorts(NodeName, nodes);
    SortedAreDistinct(SortBy(NodeName, nodes));
    NodeAt(health.parts, i);
    j := PermutedIndex(nodes, SortBy(NodeName, nodes), i);
  }

  /** The part that the tree lists at j. */
  lemma PartOf(name: string, health: ComponentHealth, j: nat) returns (i: nat)
    requires j < |NodeOf(name, health).children|
    ensures i < |health.parts|
    ensures NodeOf(name, health).children[j] == NodeOf(health.parts[i].name, health.parts[i].health)
  {
    hide SortBy;
    SortBySorts(NodeName, NodesOf(health.parts));
    i := PermutedIndex(SortBy(NodeName, NodesOf(health.parts)), NodesOf(health.parts), j);
    NodeAt(health.parts, i);
  }

  /** The tree shows the report it was built from: every component, under its name, with its own fields. */
  lemma {:induction false} TreeShowsReport(name: string, health: ComponentHealth)
    requires MapsEverywhere(health)
    ensures NodeOf(name, health).name == name
    ensures ReportOf(NodeOf(name, health)) == ValueOf(health)
    decreases health
  {
    hide SortBy;
    var parts, children := health.parts, NodeOf(name, health).children;
    forall i | 0 <= i < |parts|
      ensures parts[i].name in ReportsOf(children) && ReportsOf(children)[parts[i].name] == ValueOf(parts[i].health)
    {
      var j := ChildOf(name, health, i);
      TreeShowsReport(parts[i].name, parts[i].health);
      ReportsHold(children, j);
    }
    forall k | k in MapOf(parts) ensures k in ReportsOf(children) && ReportsOf(children)[k] == MapOf(parts)[k] {
      var i := MapHasIndex(parts, k);
      MapHolds(parts, i);
    }
    forall k | k in ReportsOf(children) ensures k in MapOf(parts) {
      var j := ReportsHaveIndex(children, k);
      var i := PartOf(name, health, j);
      NodeNamed(parts[i].name, parts[i].health);
      MapHolds(parts, i);
    }
  }

  lemma NodeNamed(name: string, health: ComponentHealth)
    ensures NodeOf(name, health).name == name
  {
  }

  // ----- the listing and its parser -----------------------------------------------------

  datatype Row = Row(depth: nat, name: string, healthy: bool, status: string, lastError: string)

  function RowOf(node: HealthNode, depth: nat): Row {
    Row(depth, node.name, node.healthy, node.status, node.lastError)
  }

  function Rows(node: HealthNode, depth: nat): seq<Row>
    decreases node, 1
  {
    [RowOf(node, depth)] + RowsOf(node.children, depth + 1)
  }

  function RowsOf(nodes: seq<HealthNode>, depth: nat): seq<Row>
    decreases nodes, 0
  {
    if nodes == [] then [] else Rows(nodes[0], depth) + RowsOf(nodes[1..], depth)
  }

  datatype Color = Unstyled | Okay | Error | Foreground | Dim

  datatype Span = Span(text: string, color: Color)

  /** A rendered line: its spans, left to right. */
  type Line = seq<Span>

  function Spaces(n: nat): string {
    seq(n, _ => ' ')
  }

  /** Indent and bullet, the name, and the status and the last error if there are any. */
  function LineOf(row: Row): Line {
    [ Span(Spaces(2 * (row.depth + 1)), Unstyled),
      Span("●", if row.healthy then Okay else Error),
      Span(" " + row.name, Foreground) ]
    + (if row.status == "" then [] else [Span("  [" + row.status + "]", Dim)])
    + (if row.lastError == "" then [] else [Span("  " + row.lastError, Error)])
  }

  function Lines(rows: seq<Row>): seq<Line> {
    seq(|rows|, i requires 0 <= i < |rows| => LineOf(rows[i]))
  }

  lemma LinesConcat(a: seq<Row>, b: seq<Row>)
    ensures Lines(a + b) == Lines(a) + Lines(b)
  {
  }

  /** Appends one rendered line per component, parents before children. */
  method HealthLines(node: HealthNode, depth: nat, before: seq<Line>) returns (out: seq<Line>)
    ensures out == before + Lines(Rows(node, depth))
    decreases node
  {
    hide Lines, Spaces;
    var spans := [ Span(Spaces(2 * (depth + 1)), Unstyled),
                   Span("●", if node.healthy then Okay else Error),
                   Span(" " + node.name, Foreground) ];
    if node.status != "" {
      spans := spans + [Span("  [" + node.status + "]", Dim)];
    }
    if node.lastError != "" {
      spans := spans + [Span("  " + node.lastError, Error)];
    }
    SpansOfRow(RowOf(node, depth), spans);
    out := before + [spans];
    LinesConcat([RowOf(node, depth)], RowsOf(node.children, depth + 1));
    for i := 0 to |node.children|
      invariant out + Lines(RowsOf(node.children[i..], depth + 1)) == before + Lines(Rows(node, depth))
    {
      assert node.children[i..][1..] == node.children[i + 1..];
      LinesConcat(Rows(node.children[i], depth + 1), RowsOf(node.children[i + 1..], depth + 1));
      out := HealthLines(node.children[i], depth + 1, out);
    }
    NoLines();
  }

  lemma NoLines()
    ensures Lines([]) == []
  {
  }

  lemma SpansOfRow(row: Row, spans: Line)
    requires spans == LineOf(row)
    ensures Lines([row]) == [spans]
  {
  }

  lemma Unprefixed(p: string, a: string, b: string)
    requires p + a == p + b
    ensures a == b
  {
    assert a == (p + a)[|p|..] && b == (p + b)[|p|..];
  }

  lemma Unbracketed(p: string, a: string, b: string, q: string)
    requires p + a + q == p + b + q
    ensures a == b
  {
    assert |p + a + q| == |p| + |a| + |q| && |p + b + q| == |p| + |b| + |q|;
    assert a == (p + a + q)[|p|..|p| + |a|] && b == (p + b + q)[|p|..|p| + |b|];
  }

  /** The line shows everything: indent, colours and the order of the spans tell the row. */
  lemma LineDeterminesRow(a: Row, b: Row)
    requires LineOf(a) == LineOf(b)
    ensures a == b
  {
    var l, m := LineOf(a), LineOf(b);
    assert |l[0].text| == |m[0].text| && l[1] == m[1] && l[2] == m[2];
    Unprefixed(" ", a.name, b.name);
    assert a.status != "" <==> |l| > 3 && l[3].color == Dim;
    assert b.status != "" <==> |m| > 3 && m[3].color == Dim;
    if a.status != "" {
      assert l[3] == m[3];
      Unbracketed("  [", a.status, b.status, "]");
    }
    assert a.lastError != "" <==> b.lastError != "";
    if a.lastError != "" {
      assert l[|l| - 1] == m[|m| - 1];
      Unprefixed("  ", a.lastError, b.lastError);
    }
  }

  lemma LinesDetermineRows(a: seq<Row>, b: seq<Row>)
    requires Lines(a) == Lines(b)
    ensures a == b
  {
    hide LineOf;
    assert |a| == |Lines(a)| && |b| == |Lines(b)|;
    forall i | 0 <= i < |a| ensures a[i] == b[i] {
      assert Lines(a)[i] == LineOf(a[i]) && Lines(b)[i] == LineOf(b[i]);
      LineDeterminesRow(a[i], b[i]);
    }
  }

  /** Reads a run of siblings at one depth, and what is left after it. */
  function Parse(rows: seq<Row>, depth: nat): (r: (seq<HealthNode>, seq<Row>))
    ensures |r.1| <= |rows|
    ensures r.1 == [] || r.1[0].depth != depth
    decreases |rows|
  {
    if rows == [] || rows[0].depth != depth then ([], rows)
    else
      var head := rows[0];
      var (children, rest) := Parse(rows[1..], depth + 1);
      var (siblings, rest') := Parse(rest, depth);
      ([HealthNode(head.name, head.healthy, head.status, head.lastError, children)] + siblings, rest')
  }

  /** A listing reads back to the tree it was made from. */
  lemma {:induction false} ParseListing(nodes: seq<HealthNode>, depth: nat, rest: seq<Row>)
    requires rest == [] || rest[0].depth < depth
    ensures Parse(RowsOf(nodes, depth) + rest, depth) == (nodes, rest)
    decreases nodes
  {
    if nodes == [] {
      assert RowsOf(nodes, depth) + rest == rest;
    } else {
      var node, others := nodes[0], nodes[1..];
      var after, below := RowsOf(others, depth) + rest, RowsOf(node.children, depth + 1);
      FirstRowDepth(others, depth, rest);
      ParseListing(node.children, depth + 1, after);
      ParseListing(others, depth, rest);
      assert Rows(node, depth) == [RowOf(node, depth)] + below;
      ConsRows(RowOf(node, depth), below, RowsOf(others, depth), rest);
      ParseCons(node, below + after, depth, after, rest, others);
      assert nodes == [node] + others;
    }
  }

  lemma ConsRows(head: Row, a: seq<Row>, b: seq<Row>, c: seq<Row>)
    ensures ([head] + a) + b + c == [head] + (a + (b + c))
  {
  }

  lemma FirstRowDepth(nodes: seq<HealthNode>, depth: nat, rest: seq<Row>)
    requires rest == [] || rest[0].depth < depth
    ensures
      var rows := RowsOf(nodes, depth) + rest;
      rows == [] || rows[0].depth <= depth
  {
    if nodes != [] { assert Rows(nodes[0], depth)[0] == RowOf(nodes[0], depth); }
  }

  /** One unfolding of the parser, on a row followed by its children and then its siblings. */
  lemma ParseCons(node: HealthNode, rows: seq<Row>, depth: nat, after: seq<Row>, rest: seq<Row>, others: seq<HealthNode>)
    requires Parse(rows, depth + 1) == (node.children, after)
    requires Parse(after, depth) == (others, rest)
    ensures Parse([RowOf(node, depth)] + rows, depth) == ([node] + others, rest)
  {
    assert ([RowOf(node, depth)] + rows)[1..] == rows;
  }

  /** And whatever the parser consumes is the listing of what it returns. */
  lemma {:induction false} ListingOfParse(rows: seq<Row>, depth: nat)
    ensures RowsOf(Parse(rows, depth).0, depth) + Parse(rows, depth).1 == rows
    decreases |rows|
  {
    if rows != [] && rows[0].depth == depth {
      var (children, after) := Parse(rows[1..], depth + 1);
      ListingOfParse(rows[1..], depth + 1);
      ListingOfParse(after, depth);
      var (others, rest) := Parse(after, depth);
      var node := HealthNode(rows[0].name, rows[0].healthy, rows[0].status, rows[0].lastError, children);
      assert rows == [RowOf(node, depth)] + rows[1..];
      ParseCons(node, rows[1..], depth, after, rest, others);
      RowsCons(node, others, depth);
      ConsRows(RowOf(node, depth), RowsOf(children, depth + 1), RowsOf(others, depth), rest);
    }
  }

  lemma RowsCons(node: HealthNode, others: seq<HealthNode>, depth: nat)
    ensures RowsOf([node] + others, depth) == ([RowOf(node, depth)] + RowsOf(node.children, depth + 1)) + RowsOf(others, depth)
  {
    assert ([node] + others)[0] == node && ([node] + others)[1..] == others;
    assert Rows(node, depth) == [RowOf(node, depth)] + RowsOf(node.children, depth + 1);
  }

  /** What is listed of a tree, as it is rendered, determines the tree. */
  lemma ListingInjective(a: HealthNode, b: HealthNode, depth: nat)
    requires Lines(Rows(a, depth)) == Lines(Rows(b, depth))
    ensures a == b
  {
    hide Lines;
    LinesDetermineRows(Rows(a, depth), Rows(b, depth));
    ParseListing([a], depth, []);
    ParseListing([b], depth, []);
    assert [a][1..] == [] && [b][1..] == [];
    assert RowsOf([a], depth) == Rows(a, depth) && RowsOf([b], depth) == Rows(b, depth);
    assert [a][0] == [b][0];
  }

  /** One row per component. */
  function Size(node: HealthNode): nat
    decreases node, 1
  {
    1 + SizeOf(node.children)
  }

  function SizeOf(nodes: seq<HealthNode>): nat
    decreases nodes, 0
  {
    if nodes == [] then 0 else Size(nodes[0]) + SizeOf(nodes[1..])
  }

  lemma {:induction false} OneRowEach(nodes: seq<HealthNode>, depth: nat)
    ensures |RowsOf(nodes, depth)| == SizeOf(nodes)
    decreases nodes
  {
    if nodes != [] {
      OneRowEach(nodes[0].children, depth + 1);
      OneRowEach(nodes[1..], depth);
    }
  }
}
