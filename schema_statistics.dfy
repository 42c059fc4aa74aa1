/** The "Graph Statistics" block of `SchemaBuilder.render`: node and edge
    counts, `nx.is_weakly_connected`, `nx.degree_centrality` and the most
    central node picked by `max(..., key=...)`. */
module SchemaStatistics {
  import opened Wrappers
  import opened Collections
  import opened Text
  import opened SchemaBuilder

  function NodeSet(g: Graph): set<string> {
    set n | n in g.nodes
  }

  // ------------------------------------------------------ weak connectivity

  /** Joined by an edge in either direction. */
  predicate Adjacent(g: Graph, a: string, b: string) {
    (a, b) in g.edges || (b, a) in g.edges
  }

  /** A walk through the graph that ignores edge direction. */
  ghost predicate IsWalk(g: Graph, p: seq<string>) {
    && p != []
    && (forall i :: 0 <= i < |p| ==> p[i] in g.nodes)
    && (forall i :: 0 <= i < |p| - 1 ==> Adjacent(g, p[i], p[i + 1]))
  }

  ghost predicate Joined(g: Graph, a: string, b: string) {
    exists p :: IsWalk(g, p) && p[0] == a && p[|p| - 1] == b
  }

  /** Weak connectivity as networkx defines it: every two nodes are joined
      when direction is ignored. */
  ghost predicate WeaklyConnected(g: Graph) {
    forall a, b :: a in g.nodes && b in g.nodes ==> Joined(g, a, b)
  }

  /** One step of the search: the visited nodes and their neighbours. */
  function Expand(g: Graph, vs: set<string>): (r: set<string>)
    ensures vs <= r
  {
    vs + (set e | e in g.edges && e.0 in vs :: e.1) + (set e | e in g.edges && e.1 in vs :: e.0)
  }

  lemma ExpandWithin(g: Graph, vs: set<string>)
    requires WellFormed(g) && vs <= NodeSet(g)
    ensures Expand(g, vs) <= NodeSet(g)
  {
  }

  lemma StrictSubsetCard(a: set<string>, b: set<string>, u: set<string>)
    requires a < b <= u
    ensures |u - b| < |u - a|
  {
    var x :| x in b && x !in a;
    assert u - a == (u - b) + (b - a);
    assert (u - b) * (b - a) == {};
    assert x in b - a;
  }

  /** The nodes reachable from `vs` when direction is ignored. */
  function Closure(g: Graph, vs: set<string>): set<string>
    requires WellFormed(g) && vs <= NodeSet(g)
    decreases |NodeSet(g) - vs|
  {
    var next := Expand(g, vs);
    ExpandWithin(g, vs);
    if next == vs then vs
    else
      StrictSubsetCard(vs, next, NodeSet(g));
      Closure(g, next)
  }

  /** `nx.is_weakly_connected(G)`; None where it raises on the empty graph. */
  function IsWeaklyConnected(g: Graph): Option<bool>
    requires WellFormed(g)
  {
    if g.nodes == [] then None
    else Some(Closure(g, {g.nodes[0]}) == NodeSet(g))
  }

  /** The closure contains its seeds, stays within the graph, and is closed
      under adjacency. */
  lemma {:induction false} ClosureClosed(g: Graph, vs: set<string>)
    requires WellFormed(g) && vs <= NodeSet(g)
    ensures vs <= Closure(g, vs) <= NodeSet(g)
    ensures forall a, b :: a in Closure(g, vs) && Adjacent(g, a, b) ==> b in Closure(g, vs)
    decreases |NodeSet(g) - vs|
  {
    var next := Expand(g, vs);
    ExpandWithin(g, vs);
    if next == vs {
      forall a, b | a in vs && Adjacent(g, a, b) ensures b in vs {
        if (a, b) in g.edges {
          assert b in (set e | e in g.edges && e.0 in vs :: e.1);
        } else {
          assert b in (set e | e in g.edges && e.1 in vs :: e.0);
        }
      }
    } else {
      StrictSubsetCard(vs, next, NodeSet(g));
      ClosureClosed(g, next);
    }
  }

  /** A node the search step adds is adjacent to a node it started from. */
  lemma ExpandedFrom(g: Graph, vs: set<string>, y: string) returns (s: string)
    requires y in Expand(g, vs) && y !in vs
    ensures s in vs && Adjacent(g, s, y)
  {
    if y in (set e | e in g.edges && e.0 in vs :: e.1) {
      var e :| e in g.edges && e.0 in vs && e.1 == y;
      s := e.0;
    } else {
      var e :| e in g.edges && e.1 in vs && e.0 == y;
      s := e.1;
    }
  }

  lemma PrependWalk(g: Graph, s: string, q: seq<string>) returns (p: seq<string>)
    requires IsWalk(g, q) && s in g.nodes && Adjacent(g, s, q[0])
    ensures IsWalk(g, p) && p[0] == s && p[|p| - 1] == q[|q| - 1]
  {
    p := [s] + q;
    forall i | 0 <= i < |p| - 1 ensures Adjacent(g, p[i], p[i + 1]) {
      if i > 0 { assert p[i] == q[i - 1] && p[i + 1] == q[i]; }
    }
  }

  /** Every node of the closure is reached by a walk from some seed. */
  lemma {:induction false} ClosureReached(g: Graph, vs: set<string>, x: string) returns (p: seq<string>)
    requires WellFormed(g) && vs <= NodeSet(g) && x in Closure(g, vs)
    ensures IsWalk(g, p) && p[0] in vs && p[|p| - 1] == x
    decreases |NodeSet(g) - vs|
  {
    var next := Expand(g, vs);
    ExpandWithin(g, vs);
    if next == vs {
      p := [x];
    } else {
      StrictSubsetCard(vs, next, NodeSet(g));
      var q := ClosureReached(g, next, x);
      if q[0] in vs {
        p := q;
      } else {
        var s := ExpandedFrom(g, vs, q[0]);
        p := PrependWalk(g, s, q);
      }
    }
  }

  /** A set closed under adjacency that holds the start of a walk holds its
      end. */
  lemma {:induction false} ClosedHoldsWalk(g: Graph, c: set<string>, p: seq<string>)
    requires IsWalk(g, p) && p[0] in c
    requires forall a, b :: a in c && Adjacent(g, a, b) ==> b in c
    ensures p[|p| - 1] in c
  {
    if |p| > 1 {
      var q := p[..|p| - 1];
      assert IsWalk(g, q);
      ClosedHoldsWalk(g, c, q);
      assert Adjacent(g, q[|q| - 1], p[|p| - 1]);
    }
  }

  lemma ReverseWalk(g: Graph, p: seq<string>) returns (r: seq<string>)
    requires IsWalk(g, p)
    ensures IsWalk(g, r) && r[0] == p[|p| - 1] && r[|r| - 1] == p[0]
  {
    r := seq(|p|, i requires 0 <= i < |p| => p[|p| - 1 - i]);
    forall i | 0 <= i < |r| - 1 ensures Adjacent(g, r[i], r[i + 1]) {
      assert Adjacent(g, p[|p| - 2 - i], p[|p| - 1 - i]);
    }
  }

  lemma JoinWalks(g: Graph, p: seq<string>, q: seq<string>) returns (r: seq<string>)
    requires IsWalk(g, p) && IsWalk(g, q) && p[|p| - 1] == q[0]
    ensures IsWalk(g, r) && r[0] == p[0] && r[|r| - 1] == q[|q| - 1]
  {
    r := p + q[1..];
    forall i | 0 <= i < |r| - 1 ensures Adjacent(g, r[i], r[i + 1]) {
      if i < |p| - 1 {
        assert r[i] == p[i] && r[i + 1] == p[i + 1];
      } else {
        assert r[i] == q[i - |p| + 1] && r[i + 1] == q[i - |p| + 2];
      }
    }
  }

  /** The search decides weak connectivity: it answers true exactly when
      every two nodes are joined ignoring direction. */
  lemma IsWeaklyConnectedCorrect(g: Graph)
    requires WellFormed(g) && g.nodes != []
    ensures IsWeaklyConnected(g) == Some(true) <==> WeaklyConnected(g)
  {
    var n0 := g.nodes[0];
    var c := Closure(g, {n0});
    ClosureClosed(g, {n0});
    if c == NodeSet(g) {
      forall a, b | a in g.nodes && b in g.nodes ensures Joined(g, a, b) {
        var pa := ClosureReached(g, {n0}, a);
        var pb := ClosureReached(g, {n0}, b);
        var ra := ReverseWalk(g, pa);
        var w := JoinWalks(g, ra, pb);
      }
    }
    if WeaklyConnected(g) {
      forall x | x in NodeSet(g) ensures x in c {
        assert Joined(g, n0, x);
        var p :| IsWalk(g, p) && p[0] == n0 && p[|p| - 1] == x;
        ClosedHoldsWalk(g, c, p);
      }
    }
  }

  // ------------------------------------------------------- degree centrality

  function IsFrom(n: string): ((string, string)) -> bool {
    (e: (string, string)) => e.0 == n
  }

  function IsTo(n: string): ((string, string)) -> bool {
    (e: (string, string)) => e.1 == n
  }

  /** `G.degree(n)` of a DiGraph: out-degree plus in-degree, so a self-loop
      counts twice. */
  function Degree(g: Graph, n: string): nat {
    |Filter(IsFrom(n), g.edges)| + |Filter(IsTo(n), g.edges)|
  }

  /** `nx.degree_centrality(G)[n]`: the degree over n - 1. */
  function Centrality(g: Graph, n: string): real
    requires |g.nodes| > 1
  {
    Degree(g, n) as real / (|g.nodes| - 1) as real
  }

  /** A shared positive divisor keeps the order of the degrees. */
  lemma CentralityOrder(g: Graph, a: string, b: string)
    requires |g.nodes| > 1
    ensures Centrality(g, a) < Centrality(g, b) <==> Degree(g, a) < Degree(g, b)
  {
    var k := (|g.nodes| - 1) as real;
    DivideKeepsOrder(Degree(g, a) as real, Degree(g, b) as real, k);
  }

  lemma DivideKeepsOrder(x: real, y: real, k: real)
    requires k > 0.0
    ensures x / k < y / k <==> x < y
  {
    var d := y / k - x / k;
    assert d * k == y - x;
    if d > 0.0 {
      assert d * k > 0.0;
    }
    if d <= 0.0 {
      assert d * k <= 0.0;
    }
  }

  /** `max(keys, key=f)`: the first of the keys with the greatest value. */
  function FirstMax(ns: seq<string>, f: string -> real): (r: nat)
    requires ns != []
    ensures r < |ns|
    ensures forall i :: 0 <= i < |ns| ==> f(ns[i]) <= f(ns[r])
    ensures forall i :: 0 <= i < r ==> f(ns[i]) < f(ns[r])
  {
    if |ns| == 1 then 0
    else
      var b := FirstMax(ns[..|ns| - 1], f);
      if f(ns[|ns| - 1]) > f(ns[b]) then |ns| - 1 else b
  }

  function CentralityOf(g: Graph): string -> real
    requires |g.nodes| > 1
  {
    (n: string) => Degree(g, n) as real / (|g.nodes| - 1) as real
  }

  /** Lines 209-212: the most central node, computed only for more than one
      node. */
  function MostCentral(g: Graph): Option<string> {
    if |g.nodes| > 1 then Some(g.nodes[FirstMax(g.nodes, CentralityOf(g))]) else None
  }

  /** The most central node is the first node in insertion order whose
      degree is maximal. */
  lemma MostCentralByDegree(g: Graph)
    requires |g.nodes| > 1
    ensures MostCentral(g).Some?
    ensures exists r ::
              (0 <= r < |g.nodes| && MostCentral(g).value == g.nodes[r]
               && (forall i :: 0 <= i < |g.nodes| ==> Degree(g, g.nodes[i]) <= Degree(g, g.nodes[r]))
               && (forall i :: 0 <= i < r ==> Degree(g, g.nodes[i]) < Degree(g, g.nodes[r])))
  {
    var r := FirstMax(g.nodes, CentralityOf(g));
    forall i | 0 <= i < |g.nodes| ensures Degree(g, g.nodes[i]) <= Degree(g, g.nodes[r]) {
      assert CentralityOf(g)(g.nodes[i]) == Centrality(g, g.nodes[i]);
      CentralityOrder(g, g.nodes[r], g.nodes[i]);
    }
    forall i | 0 <= i < r ensures Degree(g, g.nodes[i]) < Degree(g, g.nodes[r]) {
      CentralityOrder(g, g.nodes[i], g.nodes[r]);
    }
  }

  /** Degree centrality of a DiGraph is not bounded by 1: in a two-node
      cycle each node has centrality 2. */
  lemma TwoCycleCentrality()
    ensures var g := Graph(["A", "B"], [("A", "B"), ("B", "A")]);
      WellFormed(g) && Centrality(g, "A") == 2.0
  {
    var g := Graph(["A", "B"], [("A", "B"), ("B", "A")]);
    FilterPair(IsFrom("A"), ("A", "B"), ("B", "A"));
    FilterPair(IsTo("A"), ("A", "B"), ("B", "A"));
    assert Degree(g, "A") == 2;
  }

  lemma FilterPair<T>(f: T -> bool, x: T, y: T)
    ensures Filter(f, [x, y]) == (if f(x) then [x] else []) + (if f(y) then [y] else [])
  {
    assert [x, y][..1] == [x];
    assert [x][..0] == [];
  }

  // ------------------------------------------------------------ the block

  /** What the expander shows. */
  datatype Statistics = Statistics(totalNodes: nat, totalEdges: nat, isConnected: bool,
                                   mostCentral: Option<string>)

  /** The NetworkXPointlessConcept that `is_weakly_connected` raises on a
      graph without nodes. */
  datatype StatisticsError = PointlessConcept

  /** Lines 203-212. */
  function GraphStatistics(g: Graph): Result<Statistics, StatisticsError>
    requires WellFormed(g)
  {
    match IsWeaklyConnected(g)
    case None => Failure(PointlessConcept)
    case Some(connected) => Success(Statistics(|g.nodes|, |g.edges|, connected, MostCentral(g)))
  }

  /** The block raises exactly for the empty graph; otherwise its counts are
      the graph's, "Is Connected" is weak connectivity, and a most central
      node is named exactly when there are at least two nodes. */
  lemma GraphStatisticsMeaning(g: Graph)
    requires WellFormed(g)
    ensures GraphStatistics(g).Failure? <==> g.nodes == []
    ensures GraphStatistics(g).Success? ==>
      var s := GraphStatistics(g).value;
      && s.totalNodes == |NodeSet(g)| && s.totalEdges == |g.edges|
      && (s.isConnected <==> WeaklyConnected(g))
      && (s.mostCentral.Some? <==> |g.nodes| > 1)
  {
    if g.nodes != [] {
      IsWeaklyConnectedCorrect(g);
      NoDuplicatesCard(g.nodes);
    }
  }

  /** A schema of two entities and one edge between them, such as
      "Customer -> Order": two nodes, one edge, connected, and the source
      wins the tie for most central because it is inserted first. */
  lemma OneEdgeExample(a: string, b: string)
    requires a != b && '>' !in a && '-' !in b && Trimmed(a) && Trimmed(b)
    ensures var schema := Schema(Some([a, b]), Some([a + Arrow + b]), None, 0);
      && GraphOf(schema) == Success(Graph([a, b], [(a, b)]))
      && GraphStatistics(GraphOf(schema).value) == Success(Statistics(2, 1, true, Some(a)))
  {
    OneEdgeGraph(a, b);
    OneEdgeStatistics(a, b);
  }

  /** No whitespace at either end. */
  predicate Trimmed(s: string) {
    s != [] && !IsSpace(s[0]) && !IsSpace(s[|s| - 1])
  }

  lemma OneEdgeGraph(a: string, b: string)
    requires a != b && '>' !in a && '-' !in b && Trimmed(a) && Trimmed(b)
    ensures GraphOf(Schema(Some([a, b]), Some([a + Arrow + b]), None, 0)) == Success(Graph([a, b], [(a, b)]))
  {
    var g := Graph([a, b], []);
    TwoNodes(a, b);
    OneEdgeParse(a, b);
    OneEdgeAdded(g, a + Arrow + b, a, b);
  }

  lemma TwoNodes(a: string, b: string)
    requires a != b
    ensures AddNodes(EmptyGraph, [a, b]) == Graph([a, b], [])
  {
    assert [a, b][..1] == [a] && [a][..0] == [];
    assert AddNodes(EmptyGraph, [a]) == Graph([a], []);
  }

  lemma OneEdgeParse(a: string, b: string)
    requires '>' !in a && '-' !in b && Trimmed(a) && Trimmed(b)
    ensures ParseEdge(a + Arrow + b) == Success(Some((a, b)))
  {
    ParseEdgeOf(a, b);
    StripTrimmed(a);
    StripTrimmed(b);
  }

  lemma StripTrimmed(s: string)
    requires Trimmed(s)
    ensures Strip(s) == s
  {
    assert TrimLeft(s) == s;
    assert TrimRight(s) == s;
  }

  lemma OneEdgeAdded(g: Graph, e: string, a: string, b: string)
    requires ParseEdge(e) == Success(Some((a, b)))
    requires a in g.nodes && b in g.nodes && g.edges == []
    ensures AddEdges(g, [e]) == Success(Graph(g.nodes, [(a, b)]))
  {
    assert [e][..0] == [] && [e][0] == e;
    assert AddEdges(g, [e][..0]) == Success(g);
    assert Append(g.nodes, a) == g.nodes && Append(g.nodes, b) == g.nodes;
    assert WithEdge(g, a, b) == Graph(g.nodes, [(a, b)]);
  }

  lemma OneEdgeStatistics(a: string, b: string)
    requires a != b
    ensures var g := Graph([a, b], [(a, b)]);
      WellFormed(g) && GraphStatistics(g) == Success(Statistics(2, 1, true, Some(a)))
  {
    var g := Graph([a, b], [(a, b)]);
    OneEdgeConnected(a, b);
    OneEdgeMostCentral(a, b);
  }

  lemma OneEdgeConnected(a: string, b: string)
    requires a != b
    ensures var g := Graph([a, b], [(a, b)]);
      WellFormed(g) && IsWeaklyConnected(g) == Some(true)
  {
    var g := Graph([a, b], [(a, b)]);
    var both := {a, b};
    assert Expand(g, both) == both;
    assert Closure(g, both) == both;
    assert Expand(g, {a}) == both && {a} != both;
    assert Closure(g, {a}) == both;
    assert NodeSet(g) == both;
  }

  lemma OneEdgeMostCentral(a: string, b: string)
    requires a != b
    ensures MostCentral(Graph([a, b], [(a, b)])) == Some(a)
  {
    var g := Graph([a, b], [(a, b)]);
    OneEdgeDegrees(a, b);
    assert g.nodes[..1] == [a];
    assert FirstMax(g.nodes, CentralityOf(g)) == 0;
  }

  lemma OneEdgeDegrees(a: string, b: string)
    requires a != b
    ensures Degree(Graph([a, b], [(a, b)]), a) == 1
    ensures Degree(Graph([a, b], [(a, b)]), b) == 1
  {
    assert [(a, b)][..0] == [];
  }
}
