/** What the two LLM helpers have in common: the reply of a `generate_*`
    method up to the point where the OpenAI API would be called, the
    ordered keyword rules their query classifiers follow, and the joining of
    a context's lines. */
module Assistant {
  import opened Wrappers
  import opened Collections
  import opened Text
  import opened SchemaBuilder

  /** The `results` argument of the public methods: its `shape` (None when
      it has no such attribute), which is all `_prepare_context` reads, and
      its printed form `results.to_string()` (or `str(results)`), which is
      what a prompt interpolates. Both are computed by pandas. */
  datatype Results = Results(shape: Option<(nat, nat)>, text: string)

  /** The six prompt templates, one per `generate_*` method. */
  datatype Task =
    | Insights | PatternAnalysis | Recommendations
    | RoadmapSuggestions | CompetitiveAnalysis | UserResearchInsights

  /** A `generate_*` method either returns a fixed warning without calling
      the API (no client was created), or sends the prompt of its task. A
      prompt interpolates the schema (through `json.dumps`), the query
      verbatim and the printed results, and the roadmap prompt also an
      insights line; the context string the method prepares just before is
      never used. The API's answer and its error message are outside the
      model. */
  datatype Reply =
    | Warning(message: string)
    | Request(task: Task, schema: Schema, query: string, results: string, insights: Option<string>)

  /** The sentence every no-client warning starts with. */
  const NotConfigured: string := "\U{26A0}\U{FE0F} OpenAI API key not configured."

  predicate StartsWith(s: string, prefix: string) {
    |prefix| <= |s| && s[..|prefix|] == prefix
  }

  /** A classifier written as a rule table: the label of the first rule whose
      keyword occurs in `text`, and `fallback` when none does. */
  function FirstMatch(rules: seq<(string, string)>, fallback: string, text: string): (r: string)
    ensures r == fallback || exists i :: 0 <= i < |rules| && r == rules[i].1
  {
    match FirstWhere((rule: (string, string)) => Contains(text, rule.0), rules)
    case None => fallback
    case Some(i) => rules[i].1
  }

  /** A digit string holds no line break. */
  lemma DigitsHaveNoNewline(s: string)
    requires AllDigits(s)
    ensures '\n' !in s
  {
  }

  // ------------------------------------------------------- context lines

  /** The formatted lines of a context's parts, in order. */
  function Lines<P>(parts: seq<P>, render: P -> string): (r: seq<string>)
    ensures |r| == |parts|
    ensures forall i :: 0 <= i < |r| ==> r[i] == render(parts[i])
  {
    seq(|parts|, i requires 0 <= i < |parts| => render(parts[i]))
  }

  lemma LinesSnoc<P>(parts: seq<P>, p: P, render: P -> string)
    ensures Lines(parts + [p], render) == Lines(parts, render) + [render(p)]
  {
  }

  /** `"\n".join(context_parts)` of lines that are neither empty nor hold a
      line break: empty exactly when there is no line, and split at line
      breaks back into the lines themselves. */
  lemma JoinedLines(lines: seq<string>)
    requires forall l :: l in lines ==> l != [] && '\n' !in l
    ensures Join(lines, "\n") == "" <==> lines == []
    ensures lines != [] ==> SplitOn(Join(lines, "\n"), "\n") == lines
  {
    JoinEmpty(lines, "\n");
    if lines != [] {
      SplitOnJoin(lines, '\n');
    }
  }
}
