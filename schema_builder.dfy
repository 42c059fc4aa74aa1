/** `SchemaBuilder.create_graph` and the row extraction of
    `render_properties_table`: an already-parsed schema record becomes a
    directed graph (a networkx `DiGraph`, modelled by its node and edge
    insertion orders) and a table of entity properties. */
module SchemaBuilder {
  import opened Wrappers
  import opened Collections
  import opened Text

  /** The record `yaml.safe_load` returns, with its three keys present or
      absent; `properties` is a dict from entity to property strings, listed
      in its key order. `otherKeys` counts the top-level keys besides these
      three, which only the truth value of the record depends on. */
  datatype Schema = Schema(nodes: Option<seq<string>>, edges: Option<seq<string>>,
                           properties: Option<seq<(string, seq<string>)>>,
                           otherKeys: nat)

  /** `not schema`: the record is the empty dict. */
  predicate IsEmptyRecord(schema: Schema) {
    schema.nodes.None? && schema.edges.None? && schema.properties.None? && schema.otherKeys == 0
  }

  const Arrow: string := " -> "

  /** The ValueError of `source, target = edge.split(' -> ')` when the edge
      string holds two or more separators. */
  datatype BuildError = TooManyValuesToUnpack(edge: string)

  // ---------------------------------------------------------- graph values

  /** A directed graph as networkx stores it: its nodes in insertion order
      and its edge set, each node and edge at most once. The edges are kept
      in the order they were added; networkx lists them grouped by source
      node instead, and nothing here depends on their order. */
  datatype Graph = Graph(nodes: seq<string>, edges: seq<(string, string)>)

  ghost predicate WellFormed(g: Graph) {
    && NoDuplicates(g.nodes)
    && NoDuplicates(g.edges)
    && (forall e :: e in g.edges ==> e.0 in g.nodes && e.1 in g.nodes)
  }

  const EmptyGraph := Graph([], [])

  /** `G.add_node(n)`. */
  function WithNode(g: Graph, n: string): Graph {
    Graph(Append(g.nodes, n), g.edges)
  }

  /** `G.add_edge(u, v)`: the endpoints that are new are added as nodes, `u`
      first, and a repeated edge changes nothing. */
  function WithEdge(g: Graph, u: string, v: string): Graph {
    Graph(Append(Append(g.nodes, u), v), Append(g.edges, (u, v)))
  }

  lemma AppendKeepsNoDuplicates<T>(s: seq<T>, x: T)
    requires NoDuplicates(s)
    ensures NoDuplicates(Append(s, x)) && forall y :: y in Append(s, x) <==> y in s || y == x
  {
  }

  lemma WithEdgeWellFormed(g: Graph, u: string, v: string)
    requires WellFormed(g)
    ensures WellFormed(WithEdge(g, u, v))
  {
    AppendKeepsNoDuplicates(g.nodes, u);
    AppendKeepsNoDuplicates(Append(g.nodes, u), v);
    AppendKeepsNoDuplicates(g.edges, (u, v));
  }

  // ------------------------------------------------------- the DiGraph class

  class DiGraph {
    var nodes: seq<string>
    var edges: seq<(string, string)>

    function Model(): Graph
      reads this
    {
      Graph(nodes, edges)
    }

    ghost predicate Valid()
      reads this
    {
      WellFormed(Model())
    }

    /** `nx.DiGraph()`. */
    constructor ()
      ensures Valid() && Model() == EmptyGraph
    {
      nodes := [];
      edges := [];
    }

    method AddNode(n: string)
      requires Valid()
      modifies this
      ensures Valid() && Model() == WithNode(old(Model()), n)
    {
      AppendKeepsNoDuplicates(nodes, n);
      if n !in nodes {
        nodes := nodes + [n];
      }
    }

    method AddEdge(u: string, v: string)
      requires Valid()
      modifies this
      ensures Valid() && Model() == WithEdge(old(Model()), u, v)
    {
      WithEdgeWellFormed(Model(), u, v);
      if u !in nodes {
        nodes := nodes + [u];
      }
      if v !in nodes {
        nodes := nodes + [v];
      }
      if (u, v) !in edges {
        edges := edges + [(u, v)];
      }
    }
  }

  // ----------------------------------------------------------- edge strings

  /** One entry of `schema['edges']` at lines 62-64: skipped (None) without a
      separator, a trimmed (source, target) pair with exactly one, and the
      unpacking error with more. */
  function ParseEdge(e: string): Result<Option<(string, string)>, BuildError> {
    if !Contains(e, Arrow) then Success(None)
    else
      var parts := SplitOn(e, Arrow);
      if |parts| == 2 then Success(Some((Strip(parts[0]), Strip(parts[1]))))
      else Failure(TooManyValuesToUnpack(e))
  }

  /** What each outcome of `ParseEdge` means in terms of separators: the
      string is skipped exactly when it has none, fails exactly when a second
      one follows the first, and otherwise splits around its only one. */
  lemma ParseEdgeMeaning(e: string)
    ensures ParseEdge(e) == Success(None) <==> !Contains(e, Arrow)
    ensures ParseEdge(e).Failure? <==> Contains(e, Arrow) && Contains(SplitFirst(e, Arrow).1, Arrow)
    ensures ParseEdge(e).Success? && ParseEdge(e).value.Some? ==>
      var (a, b) := SplitFirst(e, Arrow);
      && e == a + Arrow + b
      && !Contains(a, Arrow) && !Contains(b, Arrow)
      && ParseEdge(e).value.value == (Strip(a), Strip(b))
  {
    if Contains(e, Arrow) {
      var (a, b) := SplitFirst(e, Arrow);
      assert SplitOn(e, Arrow) == [a] + SplitOn(b, Arrow);
      SplitOnSingle(b, Arrow);
      if !Contains(b, Arrow) {
        assert SplitOn(e, Arrow) == [a, b];
      }
    }
  }

  /** A source with no '>' and a target with no '-' joined by the separator
      parse back to the trimmed source and target. */
  lemma ParseEdgeOf(a: string, b: string)
    requires '>' !in a && '-' !in b
    ensures ParseEdge(a + Arrow + b) == Success(Some((Strip(a), Strip(b))))
  {
    var e := a + Arrow + b;
    assert OccursAt(e, Arrow, |a|) by { assert e[|a|..|a| + 4] == Arrow; }
    forall j: nat | j < |a| ensures !OccursAt(e, Arrow, j) {
      if j + 4 <= |e| {
        assert e[j..j + 4][2] == e[j + 2];
        if j + 2 < |a| {
          assert e[j + 2] == a[j + 2];
          assert a[j + 2] in a;
        } else {
          assert e[j + 2] == Arrow[j + 2 - |a|];
        }
      }
    }
    assert Find(e, Arrow) == Some(|a|);
    assert e[..|a|] == a;
    assert e[|a| + 4..] == b;
    forall j: nat ensures !OccursAt(b, Arrow, j) {
      if j + 4 <= |b| {
        assert b[j..j + 4][1] == b[j + 1];
        assert b[j + 1] in b;
      }
    }
    assert SplitOn(e, Arrow) == [a] + SplitOn(b, Arrow);
    assert SplitOn(e, Arrow) == [a, b];
  }

  // ------------------------------------------------------------ create_graph

  /** The loop at lines 56-57. */
  function AddNodes(g: Graph, ns: seq<string>): Graph {
    if ns == [] then g else WithNode(AddNodes(g, ns[..|ns| - 1]), ns[|ns| - 1])
  }

  /** The loop at lines 61-64, stopped by the first unpacking error. */
  function AddEdges(g: Graph, es: seq<string>): Result<Graph, BuildError> {
    if es == [] then Success(g)
    else
      match AddEdges(g, es[..|es| - 1])
      case Failure(err) => Failure(err)
      case Success(h) =>
        match ParseEdge(es[|es| - 1])
        case Failure(err) => Failure(err)
        case Success(None) => Success(h)
        case Success(Some((u, v))) => Success(WithEdge(h, u, v))
  }

  function DeclaredNodes(schema: Schema): seq<string> {
    match schema.nodes
    case None => []
    case Some(ns) => ns
  }

  function EdgeStrings(schema: Schema): seq<string> {
    match schema.edges
    case None => []
    case Some(es) => es
  }

  /** `create_graph`; a missing key contributes nothing. */
  function GraphOf(schema: Schema): Result<Graph, BuildError> {
    AddEdges(AddNodes(EmptyGraph, DeclaredNodes(schema)), EdgeStrings(schema))
  }

  /** Lines 50-66. */
  method CreateGraph(schema: Schema) returns (r: Result<DiGraph, BuildError>)
    ensures r.Success? <==> GraphOf(schema).Success?
    ensures r.Success? ==> fresh(r.value) && r.value.Valid() && r.value.Model() == GraphOf(schema).value
    ensures r.Failure? ==> r.error == GraphOf(schema).error
  {
    var g := new DiGraph();
    if schema.nodes.Some? {
      var ns := schema.nodes.value;
      for i := 0 to |ns|
        invariant g.Valid() && g.Model() == AddNodes(EmptyGraph, ns[..i])
      {
        assert ns[..i + 1][..i] == ns[..i];
        g.AddNode(ns[i]);
      }
      assert ns[..|ns|] == ns;
    }
    ghost var base := AddNodes(EmptyGraph, DeclaredNodes(schema));
    assert g.Model() == base;
    if schema.edges.Some? {
      var es := schema.edges.value;
      for i := 0 to |es|
        invariant g.Valid() && AddEdges(base, es[..i]) == Success(g.Model())
      {
        var edge := es[i];
        AddEdgesSnoc(base, es, i, g.Model());
        if Contains(edge, Arrow) {
          var parts := SplitOn(edge, Arrow);
          if |parts| != 2 {
            assert ParseEdge(edge) == Failure(TooManyValuesToUnpack(edge));
            AddEdgesFailurePersists(base, es, i + 1);
            return Failure(TooManyValuesToUnpack(edge));
          }
          var source, target := parts[0], parts[1];
          assert ParseEdge(edge) == Success(Some((Strip(source), Strip(target))));
          g.AddEdge(Strip(source), Strip(target));
        } else {
          assert ParseEdge(edge) == Success(None);
        }
      }
      assert es[..|es|] == es;
    } else {
      assert AddEdges(base, EdgeStrings(schema)) == Success(base);
    }
    r := Success(g);
  }

  /** One more edge string: the loop body of lines 62-64 on the graph built
      so far. */
  lemma AddEdgesSnoc(g: Graph, es: seq<string>, i: nat, h: Graph)
    requires i < |es| && AddEdges(g, es[..i]) == Success(h)
    ensures AddEdges(g, es[..i + 1])
            == match ParseEdge(es[i])
               case Failure(err) => Failure(err)
               case Success(None) => Success(h)
               case Success(Some((u, v))) => Success(WithEdge(h, u, v))
  {
    assert es[..i + 1][..i] == es[..i];
  }

  lemma {:induction false} AddEdgesFailurePersists(g: Graph, es: seq<string>, n: nat)
    requires n <= |es| && AddEdges(g, es[..n]).Failure?
    ensures AddEdges(g, es) == AddEdges(g, es[..n])
    decreases |es| - n
  {
    if n < |es| {
      var p := es[..|es| - 1];
      assert p[..n] == es[..n];
      AddEdgesFailurePersists(g, p, n);
    } else {
      assert es[..n] == es;
    }
  }

  // ------------------------------------------------ a reference description

  /** The (source, target) pairs of the accepted edge strings, in order. */
  function AcceptedEdges(es: seq<string>): Result<seq<(string, string)>, BuildError> {
    if es == [] then Success([])
    else AcceptStep(AcceptedEdges(es[..|es| - 1]), es[|es| - 1])
  }

  /** The outcome after one more edge string. */
  function AcceptStep(r: Result<seq<(string, string)>, BuildError>, e: string)
    : Result<seq<(string, string)>, BuildError>
  {
    match r
    case Failure(err) => Failure(err)
    case Success(ps) =>
      match ParseEdge(e)
      case Failure(err) => Failure(err)
      case Success(None) => Success(ps)
      case Success(Some(p)) => Success(ps + [p])
  }

  /** The endpoints of the pairs, each source before its target. */
  function Endpoints(ps: seq<(string, string)>): seq<string> {
    if ps == [] then [] else Endpoints(ps[..|ps| - 1]) + [ps[|ps| - 1].0, ps[|ps| - 1].1]
  }

  lemma {:induction false} AddNodesDistinct(ns: seq<string>)
    ensures AddNodes(EmptyGraph, ns) == Graph(Distinct(ns), [])
  {
    if ns != [] {
      AddNodesDistinct(ns[..|ns| - 1]);
      assert ns == ns[..|ns| - 1] + [ns[|ns| - 1]];
      DistinctSnoc(ns[..|ns| - 1], ns[|ns| - 1]);
    }
  }

  /** Adding the edges to the declared nodes is de-duplication of the
      declared nodes followed by the endpoints, and of the pairs. */
  lemma {:induction false} AddEdgesDistinct(ds: seq<string>, es: seq<string>)
    ensures AddEdges(Graph(Distinct(ds), []), es).Success? <==> AcceptedEdges(es).Success?
    ensures AcceptedEdges(es).Success? ==>
      AddEdges(Graph(Distinct(ds), []), es).value
        == Graph(Distinct(ds + Endpoints(AcceptedEdges(es).value)), Distinct(AcceptedEdges(es).value))
  {
    if es != [] {
      var p := es[..|es| - 1];
      AddEdgesDistinct(ds, p);
      if AcceptedEdges(p).Success? {
        var ps := AcceptedEdges(p).value;
        var h := AddEdges(Graph(Distinct(ds), []), p).value;
        assert h == Graph(Distinct(ds + Endpoints(ps)), Distinct(ps));
        match ParseEdge(es[|es| - 1])
        case Failure(_) =>
        case Success(None) =>
          assert AcceptedEdges(es) == Success(ps);
          assert AddEdges(Graph(Distinct(ds), []), es) == Success(h);
        case Success(Some(q)) =>
          assert AcceptedEdges(es) == Success(ps + [q]);
          assert AddEdges(Graph(Distinct(ds), []), es) == Success(WithEdge(h, q.0, q.1));
          EdgeStepDistinct(ds, ps, q);
      }
    } else {
      assert ds + Endpoints([]) == ds;
    }
  }

  /** Adding one accepted pair to the de-duplicated graph de-duplicates the
      longer lists. */
  lemma EdgeStepDistinct(ds: seq<string>, ps: seq<(string, string)>, q: (string, string))
    ensures WithEdge(Graph(Distinct(ds + Endpoints(ps)), Distinct(ps)), q.0, q.1)
         == Graph(Distinct(ds + Endpoints(ps + [q])), Distinct(ps + [q]))
  {
    var (u, v) := q;
    assert Endpoints(ps + [q]) == Endpoints(ps) + [u, v] by {
      assert (ps + [q])[..|ps|] == ps;
    }
    var m := ds + Endpoints(ps);
    assert ds + Endpoints(ps + [q]) == (m + [u]) + [v];
    DistinctSnoc(m, u);
    DistinctSnoc(m + [u], v);
    DistinctSnoc(ps, q);
  }

  /** `create_graph` succeeds exactly when every edge string parses, and
      then its nodes are the declared nodes followed by the new endpoints,
      each once at its first mention, and its edges are the distinct pairs. */
  lemma GraphOfReference(schema: Schema)
    ensures GraphOf(schema).Success? <==> AcceptedEdges(EdgeStrings(schema)).Success?
    ensures GraphOf(schema).Success? ==>
      var ps := AcceptedEdges(EdgeStrings(schema)).value;
      GraphOf(schema).value
        == Graph(Distinct(DeclaredNodes(schema) + Endpoints(ps)), Distinct(ps))
  {
    AddNodesDistinct(DeclaredNodes(schema));
    AddEdgesDistinct(DeclaredNodes(schema), EdgeStrings(schema));
  }

  /** An edge string without the separator is skipped and nothing else
      changes, wherever it stands. */
  lemma {:induction false} SkipEdge(a: seq<string>, e: string, b: seq<string>)
    requires !Contains(e, Arrow)
    ensures AcceptedEdges(a + [e] + b) == AcceptedEdges(a + b)
  {
    assert (a + [e])[..|a|] == a;
    AcceptedEdgesCongruent(a + [e], a, b);
    assert a + [e] + b == (a + [e]) + b;
  }

  /** Edge strings with the same outcome stay alike when the same strings
      follow both. */
  lemma {:induction false} AcceptedEdgesCongruent(x: seq<string>, y: seq<string>, b: seq<string>)
    requires AcceptedEdges(x) == AcceptedEdges(y)
    ensures AcceptedEdges(x + b) == AcceptedEdges(y + b)
  {
    if b == [] {
      assert x + b == x && y + b == y;
    } else {
      var n := |b| - 1;
      AcceptedEdgesCongruent(x, y, b[..n]);
      assert b == b[..n] + [b[n]];
      CongruentStep(x + b[..n], y + b[..n], b[n]);
      assert x + b == (x + b[..n]) + [b[n]];
      assert y + b == (y + b[..n]) + [b[n]];
    }
  }

  lemma CongruentStep(s: seq<string>, t: seq<string>, e: string)
    requires AcceptedEdges(s) == AcceptedEdges(t)
    ensures AcceptedEdges(s + [e]) == AcceptedEdges(t + [e])
  {
    AcceptedEdgesLast(s, e);
    AcceptedEdgesLast(t, e);
  }

  lemma AcceptedEdgesLast(s: seq<string>, e: string)
    ensures AcceptedEdges(s + [e]) == AcceptStep(AcceptedEdges(s), e)
  {
    assert (s + [e])[..|s|] == s;
  }

  /** An edge string with a second separator after its first. */
  predicate Overfull(e: string) {
    Contains(e, Arrow) && Contains(SplitFirst(e, Arrow).1, Arrow)
  }

  /** `create_graph` raises exactly when some edge string holds a second
      separator after its first. */
  lemma {:induction false} AcceptedEdgesFault(es: seq<string>)
    ensures AcceptedEdges(es).Failure? <==> exists i :: 0 <= i < |es| && Overfull(es[i])
  {
    if es != [] {
      var n := |es| - 1;
      AcceptedEdgesFault(es[..n]);
      ParseEdgeMeaning(es[n]);
      OverfullSnoc(es, es[..n]);
    }
  }

  lemma OverfullSnoc(es: seq<string>, p: seq<string>)
    requires es != [] && p == es[..|es| - 1]
    ensures (exists i :: 0 <= i < |es| && Overfull(es[i]))
        <==> (exists i :: 0 <= i < |p| && Overfull(p[i])) || Overfull(es[|es| - 1])
  {
    assert forall i :: 0 <= i < |p| ==> p[i] == es[i];
  }

  /** An accepted pair is in the graph as an edge, with both endpoints as
      nodes; a declared node is a node; the graph has no other nodes. */
  lemma GraphMembers(schema: Schema)
    requires AcceptedEdges(EdgeStrings(schema)).Success?
    ensures GraphOf(schema).Success?
    ensures GraphOf(schema).Success? ==>
      var g := GraphOf(schema).value;
      var ps := AcceptedEdges(EdgeStrings(schema)).value;
      && (forall n :: n in g.nodes <==> n in DeclaredNodes(schema) || n in Endpoints(ps))
      && (forall p :: p in g.edges <==> p in ps)
      && WellFormed(g)
  {
    GraphOfReference(schema);
    var ps := AcceptedEdges(EdgeStrings(schema)).value;
    EndpointsMembers(ps);
  }

  lemma {:induction false} EndpointsMembers(ps: seq<(string, string)>)
    ensures forall p :: p in ps ==> p.0 in Endpoints(ps) && p.1 in Endpoints(ps)
  {
    if ps != [] {
      var n := |ps| - 1;
      EndpointsMembers(ps[..n]);
      assert forall p :: p in ps ==> p in ps[..n] || p == ps[n];
    }
  }

  /** The declared nodes come first, in declared order (each at its first
      declaration). */
  lemma DeclaredNodesFirst(schema: Schema)
    requires GraphOf(schema).Success?
    ensures var d := Distinct(DeclaredNodes(schema));
      |d| <= |GraphOf(schema).value.nodes| && GraphOf(schema).value.nodes[..|d|] == d
  {
    GraphOfReference(schema);
    var ps := AcceptedEdges(EdgeStrings(schema)).value;
    DistinctPrefix(DeclaredNodes(schema), Endpoints(ps));
  }

  lemma {:induction false} DistinctPrefix<T>(a: seq<T>, b: seq<T>)
    ensures |Distinct(a)| <= |Distinct(a + b)| && Distinct(a + b)[..|Distinct(a)|] == Distinct(a)
  {
    if b == [] {
      assert a + b == a;
    } else {
      var n := |b| - 1;
      DistinctPrefix(a, b[..n]);
      assert a + b == (a + b[..n]) + [b[n]];
      DistinctSnoc(a + b[..n], b[n]);
    }
  }

  /** Declaring an edge twice gives one edge: the edge count is the number
      of distinct pairs. */
  lemma EdgeCountIsDistinctPairs(schema: Schema)
    requires AcceptedEdges(EdgeStrings(schema)).Success?
    ensures GraphOf(schema).Success?
    ensures GraphOf(schema).Success? ==> |GraphOf(schema).value.edges| == |set p | p in AcceptedEdges(EdgeStrings(schema)).value|
  {
    GraphOfReference(schema);
    var ps := AcceptedEdges(EdgeStrings(schema)).value;
    DistinctCard(ps);
  }

  lemma DistinctCard<T>(s: seq<T>)
    ensures |Distinct(s)| == |set x | x in s|
  {
    NoDuplicatesCard(Distinct(s));
    assert (set x | x in Distinct(s)) == (set x | x in s);
  }

  // ------------------------------------------------------ properties table

  /** One row of the properties table at lines 142-146. */
  datatype PropertyRow = PropertyRow(entity: string, property: string, propertyType: string)

  /** `prop.split(':', 1)` with both halves trimmed. */
  function PropertyRowOf(entity: string, prop: string): PropertyRow
    requires Contains(prop, ":")
  {
    var (name, typ) := SplitFirst(prop, ":");
    PropertyRow(entity, Strip(name), Strip(typ))
  }

  /** The rows of one entity: one per property string that holds a colon. */
  function EntityRows(entity: string, props: seq<string>): seq<PropertyRow> {
    if props == [] then []
    else
      var p := props[|props| - 1];
      EntityRows(entity, props[..|props| - 1]) +
        (if Contains(p, ":") then [PropertyRowOf(entity, p)] else [])
  }

  function AllEntityRows(ps: seq<(string, seq<string>)>): seq<PropertyRow> {
    if ps == [] then []
    else AllEntityRows(ps[..|ps| - 1]) + EntityRows(ps[|ps| - 1].0, ps[|ps| - 1].1)
  }

  /** `properties_data`; a schema without `properties` has none. */
  function PropertyTable(schema: Schema): seq<PropertyRow> {
    match schema.properties
    case None => []
    case Some(ps) => AllEntityRows(ps)
  }

  /** Lines 134-146. */
  method PropertyRows(schema: Schema) returns (rows: seq<PropertyRow>)
    ensures rows == PropertyTable(schema)
  {
    if schema.properties.None? {
      return [];
    }
    var ps := schema.properties.value;
    rows := [];
    for i := 0 to |ps|
      invariant rows == AllEntityRows(ps[..i])
    {
      assert ps[..i + 1][..i] == ps[..i];
      var (entity, props) := ps[i];
      var entityRows := EntityPropertyRows(entity, props);
      rows := rows + entityRows;
    }
    assert ps[..|ps|] == ps;
  }

  /** The inner loop at lines 139-146. */
  method EntityPropertyRows(entity: string, props: seq<string>) returns (rows: seq<PropertyRow>)
    ensures rows == EntityRows(entity, props)
  {
    rows := [];
    for j := 0 to |props|
      invariant rows == EntityRows(entity, props[..j])
    {
      assert props[..j + 1][..j] == props[..j];
      var prop := props[j];
      if Contains(prop, ":") {
        var (name, typ) := SplitFirst(prop, ":");
        rows := rows + [PropertyRow(entity, Strip(name), Strip(typ))];
      }
    }
    assert props[..|props|] == props;
  }

  function HasColon(p: string): bool {
    Contains(p, ":")
  }

  /** `PropertyRowOf` applied to each string, in order. */
  function RowsOf(entity: string, props: seq<string>): seq<PropertyRow>
    requires forall i :: 0 <= i < |props| ==> Contains(props[i], ":")
  {
    if props == [] then []
    else RowsOf(entity, props[..|props| - 1]) + [PropertyRowOf(entity, props[|props| - 1])]
  }

  /** An entity's rows are the colon-holding property strings, in order, each
      split at its first colon. */
  lemma {:induction false} EntityRowsExact(entity: string, props: seq<string>)
    ensures EntityRows(entity, props) == RowsOf(entity, Filter(HasColon, props))
  {
    if props != [] {
      var n := |props| - 1;
      var p, last := props[..n], props[n];
      EntityRowsExact(entity, p);
      var f0 := Filter(HasColon, p);
      assert Filter(HasColon, props) == f0 + (if HasColon(last) then [last] else []);
      if HasColon(last) {
        assert (f0 + [last])[..|f0|] == f0;
      } else {
        assert f0 + [] == f0;
      }
    }
  }

  /** A property written `name: type` appears as its trimmed name and type;
      the type may itself contain colons. */
  lemma PropertyRowSplit(entity: string, name: string, typ: string)
    requires ':' !in name
    ensures Contains(name + ":" + typ, ":")
    ensures PropertyRowOf(entity, name + ":" + typ) == PropertyRow(entity, Strip(name), Strip(typ))
  {
    var s := name + ":" + typ;
    assert OccursAt(s, ":", |name|) by { assert s[|name|..|name| + 1] == ":"; }
    forall j: nat | j < |name| ensures !OccursAt(s, ":", j) {
      assert s[j..j + 1] == [name[j]];
      assert name[j] in name;
    }
    assert Find(s, ":") == Some(|name|);
    assert s[..|name|] == name && s[|name| + 1..] == typ;
  }
}
