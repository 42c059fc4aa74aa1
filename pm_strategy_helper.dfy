/** The deterministic part of `PMStrategyHelper`
    (components/pm_strategy_helper.py): the focus classifier
    `_classify_query_focus`, the context string `_prepare_context`, the
    preview of a saved note, and the no-client guard of each `generate_*`
    method. */
module PmStrategyHelper {
  import opened Wrappers
  import opened Text
  import opened Collections
  import opened SchemaBuilder
  import opened Assistant
  import InferenceEngine

  // ------------------------------------------------- _classify_query_focus

  /** The five focus areas the classifier can return. */
  const Focuses: set<string> :=
    {"Customer Analytics", "Product Analytics", "Transaction Analytics",
     "Categorical Analysis", "General Analytics"}

  /** Lines 197-210: the first keyword, in a fixed order, that the lower-cased
      query contains decides the focus. */
  function ClassifyQueryFocus(query: string): (r: string)
    ensures r in Focuses
  {
    var q := Lower(query);
    if Contains(q, "customer") then "Customer Analytics"
    else if Contains(q, "product") then "Product Analytics"
    else if Contains(q, "order") then "Transaction Analytics"
    else if Contains(q, "category") then "Categorical Analysis"
    else "General Analytics"
  }

  /** The classifier as a table of keywords and focus areas, in precedence
      order. */
  const FocusRules: seq<(string, string)> :=
    [("customer", "Customer Analytics"), ("product", "Product Analytics"),
     ("order", "Transaction Analytics"), ("category", "Categorical Analysis")]

  /** The if/elif chain is the first-match rule over the table, applied to the
      lower-cased query, with "General Analytics" when no keyword occurs. */
  lemma ClassifyQueryFocusFirstMatch(query: string)
    ensures ClassifyQueryFocus(query) == FirstMatch(FocusRules, "General Analytics", Lower(query))
  {
    var q := Lower(query);
    var f := (rule: (string, string)) => Contains(q, rule.0);
    assert FocusRules[1..][1..][1..][1..] == [];
    assert FirstWhere(f, FocusRules[1..][1..][1..][1..]) == None;
  }

  /** The focus area that corresponds to each label of the inference
      engine's classifier. */
  function FocusOf(analysis: string): string {
    if analysis == "Customer Analysis" then "Customer Analytics"
    else if analysis == "Product Analysis" then "Product Analytics"
    else if analysis == "Order Analysis" then "Transaction Analytics"
    else if analysis == "Category Analysis" then "Categorical Analysis"
    else "General Analytics"
  }

  /** Both helpers classify a query by the same keywords in the same order:
      the focus is the inference engine's label renamed, so the precedence
      proved there (customer, then product, then order, then category) holds
      here as well. */
  lemma FocusAgreesWithAnalysis(query: string)
    ensures ClassifyQueryFocus(query) == FocusOf(InferenceEngine.ClassifyQuery(query))
    ensures ClassifyQueryFocus(query) == "General Analytics" <==>
              InferenceEngine.ClassifyQuery(query) == "General Analysis"
  {
  }

  /** Matching ignores case: a query that mentions "order" in any mix of
      cases, and neither "customer" nor "product", is about transactions. */
  lemma OrderInAnyCase(before: string, word: string, after: string)
    requires Lower(word) == "order"
    requires !Contains(Lower(before + word + after), "customer")
    requires !Contains(Lower(before + word + after), "product")
    ensures ClassifyQueryFocus(before + word + after) == "Transaction Analytics"
  {
    ContainsLowered(before, word, after, "order");
  }

  // ----------------------------------------------------- _prepare_context

  /** One line of the context, before it is formatted. */
  datatype Part =
    | Complexity(entities: nat, relationships: nat)
    | Focus(name: string)
    | Volume(records: nat, attributes: nat)

  /** The position of each kind of line in the context. */
  function Rank(p: Part): nat {
    match p
    case Complexity(_, _) => 0
    case Focus(_) => 1
    case Volume(_, _) => 2
  }

  /** The f-strings of lines 185, 189 and 193. */
  function Render(p: Part): string {
    match p
    case Complexity(n, m) =>
      "Schema complexity: " + NatToString(n) + " entities, " + NatToString(m) + " relationships"
    case Focus(name) => "Query focus: " + name
    case Volume(rows, columns) =>
      "Data volume: " + NatToString(rows) + " records, " + NatToString(columns) + " attributes"
  }

  lemma RenderIsLine(p: Part)
    requires p.Focus? ==> '\n' !in p.name
    ensures Render(p) != [] && '\n' !in Render(p)
  {
    match p
    case Complexity(n, m) =>
      assert '\n' !in "Schema complexity: " && '\n' !in " entities, " && '\n' !in " relationships";
      DigitsHaveNoNewline(NatToString(n));
      DigitsHaveNoNewline(NatToString(m));
    case Focus(name) =>
      assert '\n' !in "Query focus: ";
    case Volume(rows, columns) =>
      assert '\n' !in "Data volume: " && '\n' !in " records, " && '\n' !in " attributes";
      DigitsHaveNoNewline(NatToString(rows));
      DigitsHaveNoNewline(NatToString(columns));
  }

  /** The parts `_prepare_context` collects (lines 179-193): the schema
      complexity for a non-empty schema, with the lengths of `nodes` and
      `edges` (0 when absent), the query focus for a non-empty query and the
      data volume for a result with a `shape` (None when it has none), in
      that order and each at most once. */
  function ContextParts(schema: Schema, query: string, shape: Option<(nat, nat)>): (r: seq<Part>)
    ensures Complexity(|DeclaredNodes(schema)|, |EdgeStrings(schema)|) in r <==> !IsEmptyRecord(schema)
    ensures Focus(ClassifyQueryFocus(query)) in r <==> query != ""
    ensures (exists i :: 0 <= i < |r| && r[i].Volume?) <==> shape.Some?
    ensures shape.Some? ==> r[|r| - 1] == Volume(shape.value.0, shape.value.1)
    ensures forall i, j :: 0 <= i < j < |r| ==> Rank(r[i]) < Rank(r[j])
    ensures forall i :: 0 <= i < |r| && r[i].Focus? ==> r[i].name in Focuses
    ensures r == [] <==> IsEmptyRecord(schema) && query == "" && shape.None?
  {
    var front := (if IsEmptyRecord(schema) then []
                  else [Complexity(|DeclaredNodes(schema)|, |EdgeStrings(schema)|)])
                 + (if query == "" then [] else [Focus(ClassifyQueryFocus(query))]);
    match shape
    case None => front
    case Some((rows, columns)) =>
      var r := front + [Volume(rows, columns)];
      assert r[|front|].Volume?;
      r
  }

  /** The context string `_prepare_context` returns. */
  function Context(schema: Schema, query: string, shape: Option<(nat, nat)>): string {
    Join(Lines(ContextParts(schema, query, shape), Render), "\n")
  }

  /** Lines 177-195: the lines are appended one by one, then joined with
      line breaks. The `insights` argument is accepted and not used. */
  method PrepareContext(schema: Schema, query: string, shape: Option<(nat, nat)>, insights: string)
    returns (context: string)
    ensures context == Context(schema, query, shape)
  {
    var lines: seq<string> := [];
    ghost var parts: seq<Part> := [];
    if !IsEmptyRecord(schema) {
      var part := Complexity(|DeclaredNodes(schema)|, |EdgeStrings(schema)|);
      LinesSnoc(parts, part, Render);
      parts := parts + [part];
      lines := lines + [Render(part)];
    }
    if query != "" {
      var part := Focus(ClassifyQueryFocus(query));
      LinesSnoc(parts, part, Render);
      parts := parts + [part];
      lines := lines + [Render(part)];
    }
    if shape.Some? {
      var part := Volume(shape.value.0, shape.value.1);
      LinesSnoc(parts, part, Render);
      parts := parts + [part];
      lines := lines + [Render(part)];
    }
    assert parts == ContextParts(schema, query, shape);
    context := Join(lines, "\n");
  }

  lemma FocusHasNoNewline(f: string)
    requires f in Focuses
    ensures '\n' !in f
  {
  }

  lemma LinesAreLines(parts: seq<Part>)
    requires forall i :: 0 <= i < |parts| && parts[i].Focus? ==> parts[i].name in Focuses
    ensures forall p :: p in Lines(parts, Render) ==> p != [] && '\n' !in p
  {
    var lines := Lines(parts, Render);
    forall p | p in lines ensures p != [] && '\n' !in p {
      var i :| 0 <= i < |lines| && lines[i] == p;
      if parts[i].Focus? {
        FocusHasNoNewline(parts[i].name);
      }
      RenderIsLine(parts[i]);
    }
  }

  /** The context is empty exactly when no part applies. */
  lemma ContextEmpty(schema: Schema, query: string, shape: Option<(nat, nat)>)
    ensures Context(schema, query, shape) == "" <==>
              IsEmptyRecord(schema) && query == "" && shape.None?
  {
    var parts := ContextParts(schema, query, shape);
    LinesAreLines(parts);
    JoinedLines(Lines(parts, Render));
  }

  /** For a non-empty schema the first line of the context gives its entity
      and relationship counts. */
  lemma ContextOpensWithComplexity(schema: Schema, query: string, shape: Option<(nat, nat)>)
    requires !IsEmptyRecord(schema)
    ensures SplitOn(Context(schema, query, shape), "\n")[0]
            == "Schema complexity: " + NatToString(|DeclaredNodes(schema)|) + " entities, "
               + NatToString(|EdgeStrings(schema)|) + " relationships"
  {
    var parts := ContextParts(schema, query, shape);
    LinesAreLines(parts);
    JoinedLines(Lines(parts, Render));
    var c := Complexity(|DeclaredNodes(schema)|, |EdgeStrings(schema)|);
    assert parts[0] == c;
  }

  // ---------------------------------------------------------- note preview

  /** Line 321: a saved note is shown as its first 200 characters followed by
      "..." when it is longer than 200 characters, and unchanged otherwise. */
  function NotePreview(content: string): (r: string)
    ensures |r| <= 203
    ensures |content| <= 200 ==> r == content
    ensures |content| > 200 ==> |r| == 203 && r[..200] == content[..200] && r[200..] == "..."
  {
    if |content| > 200 then content[..200] + "..." else content
  }

  /** A preview always starts with the note's opening characters. It is the
      note itself exactly when the note is short, or when it is 203
      characters long and already ends in "...". */
  lemma NotePreviewPrefix(content: string)
    ensures var n := if |content| < 200 then |content| else 200;
      n <= |NotePreview(content)| && NotePreview(content)[..n] == content[..n]
    ensures NotePreview(content) == content <==>
              |content| <= 200 || (|content| == 203 && content[200..] == "...")
  {
    if |content| > 200 {
      var r := NotePreview(content);
      if |content| == 203 && content[200..] == "..." {
        assert content == content[..200] + content[200..];
      }
    }
  }

  /** Previewing a preview changes nothing: the 203 characters of a truncated
      note are cut back to the same 200 and the same "..." added. */
  lemma NotePreviewIdempotent(content: string)
    ensures NotePreview(NotePreview(content)) == NotePreview(content)
  {
    if |content| > 200 {
      var r := NotePreview(content);
      assert r[..200] == content[..200];
    }
  }

  // ---------------------------------------------------- no-client guards

  /** The insights line of the roadmap prompt (line 47): the insights, or a
      fixed notice when they are empty. */
  function InsightsLine(insights: string): (r: string)
    ensures r != ""
    ensures insights != "" ==> r == insights
  {
    if insights != "" then insights else "No AI insights available"
  }

  /** Lines 25-28: the warning without a client (`client` says whether lines
      8-23 created one). With a client the prompt of lines 34-67 interpolates
      the schema, the query, the printed results and the insights line; the
      context computed at line 32 is not part of it. */
  function GenerateRoadmapSuggestions(client: bool, schema: Schema, query: string,
                                      results: Results, insights: string): Reply {
    if !client then
      Warning(NotConfigured
              + " Please add your API key in Streamlit secrets or environment variables.")
    else Request(RoadmapSuggestions, schema, query, results.text, Some(InsightsLine(insights)))
  }

  /** Lines 84-87; the prompt of lines 92-113 (the context of line 90 is not
      used). */
  function GenerateCompetitiveAnalysis(client: bool, schema: Schema, query: string,
                                       results: Results): Reply {
    if !client then Warning(NotConfigured)
    else Request(CompetitiveAnalysis, schema, query, results.text, None)
  }

  /** Lines 130-133; the prompt of lines 138-160 (the context of line 136 is
      not used). */
  function GenerateUserResearchInsights(client: bool, schema: Schema, query: string,
                                        results: Results): Reply {
    if !client then Warning(NotConfigured)
    else Request(UserResearchInsights, schema, query, results.text, None)
  }

  /** Without a client none of the three methods reaches the API, whatever
      the schema, query, results and insights: each returns its fixed
      warning, all of which open with the same sentence. With a client each
      sends its own prompt over the schema, the query and the printed
      results, and only the roadmap prompt carries the insights, or the
      notice that there are none. */
  lemma GuardsNeverCall(client: bool, schema: Schema, query: string,
                        results: Results, insights: string)
    ensures var rs := [GenerateRoadmapSuggestions(client, schema, query, results, insights),
                       GenerateCompetitiveAnalysis(client, schema, query, results),
                       GenerateUserResearchInsights(client, schema, query, results)];
      && (!client ==>
            rs == [Warning(NotConfigured
                           + " Please add your API key in Streamlit secrets or environment variables."),
                   Warning(NotConfigured), Warning(NotConfigured)])
      && (!client ==> forall r :: r in rs ==> r.Warning? && StartsWith(r.message, NotConfigured))
      && (client ==>
            rs == [Request(RoadmapSuggestions, schema, query, results.text,
                           Some(if insights == "" then "No AI insights available" else insights)),
                   Request(CompetitiveAnalysis, schema, query, results.text, None),
                   Request(UserResearchInsights, schema, query, results.text, None)])
  {
    var w := NotConfigured + " Please add your API key in Streamlit secrets or environment variables.";
    assert w[..|NotConfigured|] == NotConfigured;
  }

  /** The prepared context never reaches the API: two results that print
      alike get the same reply, whatever their shapes (which the context
      reports), and distinct non-empty insights reach the roadmap prompt
      as distinct requests. */
  lemma PromptIgnoresContext(client: bool, schema: Schema, query: string,
                             a: Results, b: Results, i: string, j: string)
    requires a.text == b.text
    ensures GenerateCompetitiveAnalysis(client, schema, query, a)
            == GenerateCompetitiveAnalysis(client, schema, query, b)
    ensures GenerateUserResearchInsights(client, schema, query, a)
            == GenerateUserResearchInsights(client, schema, query, b)
    ensures GenerateRoadmapSuggestions(client, schema, query, a, i)
            == GenerateRoadmapSuggestions(client, schema, query, b, i)
    ensures client && i != "" && j != "" && i != j ==>
              GenerateRoadmapSuggestions(client, schema, query, a, i)
              != GenerateRoadmapSuggestions(client, schema, query, a, j)
  {
  }
}
