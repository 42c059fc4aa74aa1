/** The deterministic part of `InferenceEngine` (components/inference_engine.py):
    the keyword classifier `_classify_query`, the context string
    `_prepare_context`, and the guard with which each `generate_*` method
    returns a warning instead of calling the API when no client exists. */
module InferenceEngine {
  import opened Wrappers
  import opened Text
  import opened SchemaBuilder
  import opened Assistant
  import opened Collections

  // ------------------------------------------------------ _classify_query

  /** The five labels the classifier can return. */
  const Labels: set<string> :=
    {"Customer Analysis", "Product Analysis", "Order Analysis", "Category Analysis", "General Analysis"}

  /** Lines 180-193: the first keyword, in a fixed order, that the lower-cased
      query contains decides the label. */
  function ClassifyQuery(query: string): (r: string)
    ensures r in Labels
  {
    var q := Lower(query);
    if Contains(q, "customer") then "Customer Analysis"
    else if Contains(q, "product") then "Product Analysis"
    else if Contains(q, "order") then "Order Analysis"
    else if Contains(q, "category") then "Category Analysis"
    else "General Analysis"
  }

  /** The classifier as a table of keywords and labels, in precedence order. */
  const Rules: seq<(string, string)> :=
    [("customer", "Customer Analysis"), ("product", "Product Analysis"),
     ("order", "Order Analysis"), ("category", "Category Analysis")]

  /** The if/elif chain is the first-match rule over the table, applied to the
      lower-cased query, with "General Analysis" when no keyword occurs. */
  lemma ClassifyQueryFirstMatch(query: string)
    ensures ClassifyQuery(query) == FirstMatch(Rules, "General Analysis", Lower(query))
  {
    var q := Lower(query);
    var f := (rule: (string, string)) => Contains(q, rule.0);
    assert Rules[1..][1..][1..][1..] == [];
    assert FirstWhere(f, Rules[1..][1..][1..][1..]) == None;
  }

  /** Each label comes with exactly the keyword condition that precedence
      gives it: "customer" wins over everything, "order" counts only when
      neither "customer" nor "product" occurs, and so on. */
  lemma ClassifyQueryPrecedence(query: string)
    ensures var q := Lower(query); var r := ClassifyQuery(query);
      && (r == "Customer Analysis" <==> Contains(q, "customer"))
      && (r == "Product Analysis" <==> !Contains(q, "customer") && Contains(q, "product"))
      && (r == "Order Analysis" <==>
            !Contains(q, "customer") && !Contains(q, "product") && Contains(q, "order"))
      && (r == "Category Analysis" <==>
            !Contains(q, "customer") && !Contains(q, "product") && !Contains(q, "order")
            && Contains(q, "category"))
      && (r == "General Analysis" <==>
            !Contains(q, "customer") && !Contains(q, "product") && !Contains(q, "order")
            && !Contains(q, "category"))
  {
  }

  /** Matching ignores case: a query that mentions "customer" in any mix of
      cases, anywhere and next to anything, is a customer analysis. */
  lemma CustomerInAnyCase(before: string, word: string, after: string)
    requires Lower(word) == "customer"
    ensures ClassifyQuery(before + word + after) == "Customer Analysis"
  {
    ContainsLowered(before, word, after, "customer");
  }

  /** Lower-casing the query first changes nothing. */
  lemma ClassifyQueryIgnoresCase(query: string)
    ensures ClassifyQuery(Lower(query)) == ClassifyQuery(query)
  {
    LowerIdempotent(query);
  }

  // ----------------------------------------------------- _prepare_context

  /** `len(schema.get('nodes', []))` and `len(schema.get('edges', []))`. */
  function NodeCount(schema: Schema): nat { |DeclaredNodes(schema)| }

  function EdgeCount(schema: Schema): nat { |EdgeStrings(schema)| }

  /** One line of the context, before it is formatted. */
  datatype Part =
    | SchemaSummary(nodes: nat, edges: nat)
    | QueryType(name: string)
    | ResultsSize(rows: nat, columns: nat)

  /** The position of each kind of line in the context. */
  function Rank(p: Part): nat {
    match p
    case SchemaSummary(_, _) => 0
    case QueryType(_) => 1
    case ResultsSize(_, _) => 2
  }

  /** The f-strings of lines 168, 172 and 176. */
  function Render(p: Part): (r: string) {
    match p
    case SchemaSummary(n, m) =>
      "Schema has " + NatToString(n) + " nodes and " + NatToString(m) + " edges"
    case QueryType(name) => "Query type: " + name
    case ResultsSize(rows, columns) =>
      "Results: " + NatToString(rows) + " rows, " + NatToString(columns) + " columns"
  }

  /** A formatted line is never empty and, for a label without line breaks,
      holds no line break. */
  lemma RenderIsLine(p: Part)
    requires p.QueryType? ==> '\n' !in p.name
    ensures Render(p) != [] && '\n' !in Render(p)
  {
    match p
    case SchemaSummary(n, m) =>
      assert '\n' !in "Schema has " && '\n' !in " nodes and " && '\n' !in " edges";
      DigitsHaveNoNewline(NatToString(n));
      DigitsHaveNoNewline(NatToString(m));
    case QueryType(name) =>
      assert '\n' !in "Query type: ";
    case ResultsSize(rows, columns) =>
      assert '\n' !in "Results: " && '\n' !in " rows, " && '\n' !in " columns";
      DigitsHaveNoNewline(NatToString(rows));
      DigitsHaveNoNewline(NatToString(columns));
  }

  /** The parts `_prepare_context` collects (lines 164-176): a schema summary
      for a non-empty schema, the query type for a non-empty query and the
      result size for a result with a `shape` (None when it has none), in
      that order and each at most once. */
  function ContextParts(schema: Schema, query: string, shape: Option<(nat, nat)>): (r: seq<Part>)
    ensures SchemaSummary(NodeCount(schema), EdgeCount(schema)) in r <==> !IsEmptyRecord(schema)
    ensures QueryType(ClassifyQuery(query)) in r <==> query != ""
    ensures (exists i :: 0 <= i < |r| && r[i].ResultsSize?) <==> shape.Some?
    ensures shape.Some? ==> r[|r| - 1] == ResultsSize(shape.value.0, shape.value.1)
    ensures forall i, j :: 0 <= i < j < |r| ==> Rank(r[i]) < Rank(r[j])
    ensures forall i :: 0 <= i < |r| && r[i].QueryType? ==> r[i].name in Labels
    ensures r == [] <==> IsEmptyRecord(schema) && query == "" && shape.None?
  {
    var front := (if IsEmptyRecord(schema) then [] else [SchemaSummary(NodeCount(schema), EdgeCount(schema))])
                 + (if query == "" then [] else [QueryType(ClassifyQuery(query))]);
    match shape
    case None => front
    case Some((rows, columns)) =>
      var r := front + [ResultsSize(rows, columns)];
      assert r[|front|].ResultsSize?;
      r
  }

  /** Lines 162-178: the lines are appended one by one, then joined with
      line breaks. */
  method PrepareContext(schema: Schema, query: string, shape: Option<(nat, nat)>) returns (context: string)
    ensures context == Context(schema, query, shape)
  {
    var lines: seq<string> := [];
    ghost var parts: seq<Part> := [];
    if !IsEmptyRecord(schema) {
      var part := SchemaSummary(NodeCount(schema), EdgeCount(schema));
      LinesSnoc(parts, part, Render);
      parts := parts + [part];
      lines := lines + [Render(part)];
    }
    if query != "" {
      var part := QueryType(ClassifyQuery(query));
      LinesSnoc(parts, part, Render);
      parts := parts + [part];
      lines := lines + [Render(part)];
    }
    if shape.Some? {
      var part := ResultsSize(shape.value.0, shape.value.1);
      LinesSnoc(parts, part, Render);
      parts := parts + [part];
      lines := lines + [Render(part)];
    }
    assert parts == ContextParts(schema, query, shape);
    context := Join(lines, "\n");
  }

  /** The context string `_prepare_context` returns. */
  function Context(schema: Schema, query: string, shape: Option<(nat, nat)>): string {
    Join(Lines(ContextParts(schema, query, shape), Render), "\n")
  }

  /** A label of the classifier holds no line break. */
  lemma LabelHasNoNewline(l: string)
    requires l in Labels
    ensures '\n' !in l
  {
  }

  lemma LinesAreLines(parts: seq<Part>)
    requires forall i :: 0 <= i < |parts| && parts[i].QueryType? ==> parts[i].name in Labels
    ensures forall p :: p in Lines(parts, Render) ==> p != [] && '\n' !in p
  {
    var lines := Lines(parts, Render);
    forall p | p in lines ensures p != [] && '\n' !in p {
      var i :| 0 <= i < |lines| && lines[i] == p;
      if parts[i].QueryType? {
        LabelHasNoNewline(parts[i].name);
      }
      RenderIsLine(parts[i]);
    }
  }

  /** The context is empty exactly when no part applies; otherwise splitting
      it at line breaks gives back the formatted parts. */
  lemma ContextLines(schema: Schema, query: string, shape: Option<(nat, nat)>)
    ensures Context(schema, query, shape) == "" <==>
              IsEmptyRecord(schema) && query == "" && shape.None?
    ensures Context(schema, query, shape) != "" ==>
              SplitOn(Context(schema, query, shape), "\n") == Lines(ContextParts(schema, query, shape), Render)
  {
    var parts := ContextParts(schema, query, shape);
    LinesAreLines(parts);
    JoinedLines(Lines(parts, Render));
  }

  /** A number written by `str` followed by a non-digit can be read back:
      equal strings of that form hold the same number and the same rest. */
  lemma NumberPrefix(a: nat, b: nat, x: string, y: string)
    requires x != [] && !IsDigit(x[0]) && y != [] && !IsDigit(y[0])
    requires NatToString(a) + x == NatToString(b) + y
    ensures a == b && x == y
  {
    LeadingDigitsOf(NatToString(a), x);
    LeadingDigitsOf(NatToString(b), y);
    NatToStringRoundTrip(a);
    NatToStringRoundTrip(b);
    var n := |NatToString(a)|;
    assert (NatToString(a) + x)[n..] == x;
    assert (NatToString(b) + y)[n..] == y;
  }

  /** The results line determines the shape it reports. */
  lemma ResultsLineInjective(r1: nat, c1: nat, r2: nat, c2: nat)
    requires Render(ResultsSize(r1, c1)) == Render(ResultsSize(r2, c2))
    ensures r1 == r2 && c1 == c2
  {
    ResultsLineSplit(r1, c1);
    ResultsLineSplit(r2, c2);
    var x1, x2 := ColumnsText(c1), ColumnsText(c2);
    DropPrefix("Results: ", NatToString(r1) + x1, NatToString(r2) + x2);
    NumberPrefix(r1, r2, x1, x2);
    DropPrefix(" rows, ", NatToString(c1) + " columns", NatToString(c2) + " columns");
    NumberPrefix(c1, c2, " columns", " columns");
  }

  function ColumnsText(c: nat): string {
    " rows, " + (NatToString(c) + " columns")
  }

  lemma ResultsLineSplit(r: nat, c: nat)
    ensures Render(ResultsSize(r, c)) == "Results: " + (NatToString(r) + ColumnsText(c))
  {
  }

  lemma DropPrefix(p: string, s: string, t: string)
    requires p + s == p + t
    ensures s == t
  {
    assert (p + s)[|p|..] == s;
    assert (p + t)[|p|..] == t;
  }

  /** The context reports the shape: results of different shapes give
      different contexts. */
  lemma ContextShapes(schema: Schema, query: string, a: Option<(nat, nat)>, b: Option<(nat, nat)>)
    requires a != b
    ensures Context(schema, query, a) != Context(schema, query, b)
  {
    if Context(schema, query, a) == Context(schema, query, b) {
      ContextLines(schema, query, a);
      ContextLines(schema, query, b);
      var pa, pb := ContextParts(schema, query, a), ContextParts(schema, query, b);
      var la, lb := Lines(pa, Render), Lines(pb, Render);
      assert la == lb;
      if b.Some? {
        ShapeLine(pa, pb, a, b);
      } else {
        ShapeLine(pb, pa, b, a);
      }
    }
  }

  /** Equal lines with a results line last in `pb` report the same shape. */
  lemma ShapeLine(pa: seq<Part>, pb: seq<Part>, a: Option<(nat, nat)>, b: Option<(nat, nat)>)
    requires Lines(pa, Render) == Lines(pb, Render) && b.Some?
    requires |pb| > 0 && pb[|pb| - 1] == ResultsSize(b.value.0, b.value.1)
    requires (exists i :: 0 <= i < |pa| && pa[i].ResultsSize?) <==> a.Some?
    requires a.Some? ==> pa[|pa| - 1] == ResultsSize(a.value.0, a.value.1)
    ensures a == b
  {
    var k := |pb| - 1;
    assert Lines(pa, Render)[k] == Render(pa[k]) && Lines(pb, Render)[k] == Render(pb[k]);
    assert Render(pb[k])[0] == 'R';
    assert Render(pa[k])[0] == 'R';
    assert pa[k].ResultsSize?;
    ResultsLineInjective(pa[k].rows, pa[k].columns, b.value.0, b.value.1);
  }

  /** For a non-empty query, one line of the context names its label. */
  lemma ContextNamesQueryType(schema: Schema, query: string, shape: Option<(nat, nat)>)
    requires query != ""
    ensures "Query type: " + ClassifyQuery(query) in SplitOn(Context(schema, query, shape), "\n")
  {
    ContextLines(schema, query, shape);
    var parts := ContextParts(schema, query, shape);
    var i :| 0 <= i < |parts| && parts[i] == QueryType(ClassifyQuery(query));
    assert Lines(parts, Render)[i] == "Query type: " + ClassifyQuery(query);
  }

  // ---------------------------------------------------- no-client guards

  /** Lines 17-20: the warning without a client (`client` says whether lines
      8-15 created one). With a client the prompt of lines 27-48 interpolates
      the schema, the query and the printed results; the context computed at
      line 24 is not part of it. */
  function GenerateInsights(client: bool, schema: Schema, query: string, results: Results): Reply {
    if !client then Warning(NotConfigured + " Please add your API key in the sidebar.")
    else Request(Insights, schema, query, results.text, None)
  }

  /** Lines 66-69; the prompt of lines 74-95 (the context of line 72 is not
      used). */
  function GeneratePatternAnalysis(client: bool, schema: Schema, query: string, results: Results): Reply {
    if !client then Warning(NotConfigured) else Request(PatternAnalysis, schema, query, results.text, None)
  }

  /** Lines 112-115; the prompt of lines 120-145 (the context of line 118 is
      not used). */
  function GenerateRecommendations(client: bool, schema: Schema, query: string, results: Results): Reply {
    if !client then Warning(NotConfigured) else Request(Recommendations, schema, query, results.text, None)
  }

  /** Without a client none of the three methods reaches the API, whatever
      the schema, query and results: each returns its fixed warning, all of
      which open with the same sentence. With a client each sends its own
      prompt over the schema, the query and the printed results. */
  lemma GuardsNeverCall(client: bool, schema: Schema, query: string, results: Results)
    ensures var rs := [GenerateInsights(client, schema, query, results),
                       GeneratePatternAnalysis(client, schema, query, results),
                       GenerateRecommendations(client, schema, query, results)];
      && (!client ==> rs == [Warning(NotConfigured + " Please add your API key in the sidebar."),
                             Warning(NotConfigured), Warning(NotConfigured)])
      && (!client ==> forall r :: r in rs ==> r.Warning? && StartsWith(r.message, NotConfigured))
      && (client ==> rs == [Request(Insights, schema, query, results.text, None),
                            Request(PatternAnalysis, schema, query, results.text, None),
                            Request(Recommendations, schema, query, results.text, None)])
  {
    var w := NotConfigured + " Please add your API key in the sidebar.";
    assert w[..|NotConfigured|] == NotConfigured;
  }

  /** The prepared context never reaches the API: two results that print
      alike get the same reply, whatever their shapes, although the context
      of lines 24, 72 and 118 differs with the shape. */
  lemma PromptIgnoresContext(client: bool, schema: Schema, query: string, a: Results, b: Results)
    requires a.text == b.text
    ensures GenerateInsights(client, schema, query, a) == GenerateInsights(client, schema, query, b)
    ensures GeneratePatternAnalysis(client, schema, query, a) == GeneratePatternAnalysis(client, schema, query, b)
    ensures GenerateRecommendations(client, schema, query, a) == GenerateRecommendations(client, schema, query, b)
    ensures a.shape != b.shape ==> Context(schema, query, a.shape) != Context(schema, query, b.shape)
  {
    if a.shape != b.shape {
      ContextShapes(schema, query, a.shape, b.shape);
    }
  }
}
