# Knowledge-graph sandbox core, modelled in Dafny

The repository is a small Streamlit application. A user declares an
entity-relationship schema in YAML and sees it as a directed graph. The user
types free-text "declarative queries" that are matched to one of a few fixed
intents and run over an in-memory sample dataset of customers, products and
orders. Two assistant components send the schema, the query and the results to an
LLM in a prompt; each also prepares a short text context that the prompt
never uses. This project models the deterministic core of those components:

- `QueryExecutor.parse_query` (module `QueryParser`, `query_parser.dfy`): the
  ordered keyword tests on the lower-cased query and the regular-expression
  number extraction with defaults.
- `QueryExecutor.execute_query` (module `QueryExecutor`,
  `query_executor.dfy`): all five branches. Each is a method with the
  source's loops, proved equal to a specification function. Lemmas then say
  what the resulting table contains.
- `SchemaBuilder.create_graph` and the row extraction of
  `render_properties_table` (module `SchemaBuilder`, `schema_builder.dfy`).
  The networkx `DiGraph` is a class whose node and edge lists are updated in
  place.
- The "Graph Statistics" block of `SchemaBuilder.render` (module
  `SchemaStatistics`, `schema_statistics.dfy`): node and edge counts, weak
  connectivity, degree centrality and the most central node.
- `InferenceEngine._classify_query`, `_prepare_context` and the no-client
  guards of its three generators (module `InferenceEngine`,
  `inference_engine.dfy`).
- `PmStrategyHelper._classify_query_focus`, `_prepare_context`, the guards
  of its three generators and the saved-note preview (module
  `PmStrategyHelper`, `pm_strategy_helper.dfy`).

Support modules model the Python built-ins the core relies on:
- `Wrappers`: Option and Result.
- `Collections`: dict key order as first-appearance de-duplication, filters,
  counts and sums.
- `Text`: `str.lower`, `in`, `find`, `strip`, `split`, `join` and `int()` of
  a digit run.
- `Assistant`: what a generator returns (a warning, or the request its
  prompt describes), the first-match rule tables and the joining of context
  lines, shared by the two assistants.

Conventions of the model:
- Money is whole cents, because the sample generator rounds every amount to
  two decimals.
- Dates are whole microseconds counted from `datetime.min` (0001-01-01),
  the resolution of `datetime`. A date before `datetime.min` or after
  `datetime.max`, and a `timedelta` of more than 999999999 days, raise
  OverflowError, modelled as the fault `DateOutOfRange`.
- `datetime.now()` is a parameter `now`.
- The `random.choice` results of the product-popularity branch are a
  parameter `draws`: one product index per call, in call order.
- A results DataFrame is seen through two values. Its shape,
  `Option<(rows, columns)>`, is all `_prepare_context` reads; `None` means
  the object has no `shape` attribute. Its printed text, `results.to_string()`,
  is what a prompt interpolates.
- A parsed YAML schema is a `Schema` record. Each of its three keys is present
  or absent, and `otherKeys` counts the other top-level keys. Only the
  record's truth value (`if schema:`) depends on those other keys.

Where the code and the written description of the system disagree, the model
follows the code:
- Degree centrality counts in- and out-edges. It can therefore exceed 1:
  `SchemaStatistics.TwoCycleCentrality` gives 2.0 for a two-node cycle.
- An edge string without `" -> "` is skipped without any warning. One with two
  or more separators makes `source, target = ...` raise ValueError
  (`SchemaBuilder.AcceptedEdgesFault`).
- Edge endpoints that were never declared are added as nodes silently.
- The weak-connectivity test raises on a graph without nodes. The model
  reports that case as an error, not as "not applicable".
- The query templates listed at `query_executor.py` lines 12-14 do not all
  parse to their own intent, and those at lines 15-16 name intents that
  `parse_query` never produces. The high-value template has "customer" and
  "order", but no "more than", so it parses to `custom`. The popularity
  template parses to `customer_orders`. The category template parses to
  `custom`, because "categories" does not contain "category". The first two
  are proved.
- Each generator prepares a context string from the schema, the query and
  the results' shape, and then never uses it. Its prompt interpolates
  `json.dumps(schema)`, the query and the printed results instead, and the
  roadmap prompt also the insights (`PromptIgnoresContext` in each
  assistant module).

## Model

| member | source | states |
|---|---|---|
| QueryParser.ParseQuery | components/query_executor.py:62-116 | a query that no rule accepts, or that has "customer" and "order" but not "more than", yields a custom intent carrying the original query text verbatim |
| QueryParser.SearchNumber | components/query_executor.py:71 | the search returns the leftmost index where the prefix is followed by a digit, and None only when there is no such index |
| QueryParser.SearchDays | components/query_executor.py:74 | the search returns the leftmost index matching `last (\d+) days`, and None only when nothing matches |
| QueryParser.CustomerOrderRule | components/query_executor.py:67-81 | with "customer" and "order" present, the result is customer_orders exactly when "more than" also occurs, and otherwise custom; no later rule is tried |
| QueryParser.CustomerOrderParameters | components/query_executor.py:71-75 | the threshold is the first `more than (\d+)` match or 2; the days are the first `last (\d+) days` match or 30 |
| QueryParser.HighValueRule | components/query_executor.py:83-91 | when the first rule fails and "total order value" or "total spent" occurs, the amount is the first `$` number of the original text, or 500 |
| QueryParser.ProductPopularityRule | components/query_executor.py:93-101 | when the first two rules fail and "product" and "ordered by" occur, the count is the first `more than` number, or 3 |
| QueryParser.CategoryRule | components/query_executor.py:103-111 | when the first three rules fail and "category" and "average price" occur, the price is the first `$` number, or 100 |
| QueryParser.RuleKeywords | components/query_executor.py:62-116 | each intent type implies its keywords, and the result is custom exactly when no rule applies or the first rule applies without "more than" |
| QueryParser.NumberAfterIsFirstMatch | components/query_executor.py:71-72 | an extracted number is the value of the maximal digit run at the leftmost match, and no earlier index matches |
| QueryParser.NumberAfterNone | components/query_executor.py:71-72 | the extraction falls back to the default exactly when the pattern matches nowhere |
| QueryParser.DollarAmountIgnoresCase | components/query_executor.py:85 | searching `\$(\d+)` in the original query or in its lower-cased form gives the same amount |
| QueryParser.ParseQueryIgnoresCase | components/query_executor.py:64 | two queries with the same lower-cased text parse to the same intent type, and to the same intent whenever it is not custom |
| QueryParser.HighValueTemplateIsCustom | components/query_executor.py:12 | the high_value_customers template filled with any amount parses to custom |
| QueryParser.ProductPopularityTemplateIsCustomerOrders | components/query_executor.py:13 | the product_popularity template filled with any count parses to customer_orders, with that count as threshold and the default 30 days |
| QueryParser.AsParsedQuery | components/query_executor.py:77-116 | the dict handed to execute_query has the intent's type as its 'type' value |
| QueryExecutor.GroupProductCounts | components/query_executor.py:134-139 | after the loop, the dict keys are the recent orders' distinct customer ids in first-appearance order, and each value is that customer's product total |
| QueryExecutor.GroupStep | components/query_executor.py:135-139 | one iteration (insert with 0 if new, then add the order's product count) keeps the grouping invariant |
| QueryExecutor.ProductsOrderedByAbsent | components/query_executor.py:137-138 | a customer id that has no recent order has a product total of 0 |
| QueryExecutor.Cutoff | components/query_executor.py:127 | `datetime.now() - timedelta(days=days)` is `now` less that many days when both the timedelta and the resulting date are in range, and OverflowError (`DateOutOfRange`) otherwise |
| QueryExecutor.CustomerOrders | components/query_executor.py:122-154 | the branch returns the customer_orders table of the data, clock, threshold and window: OverflowError when the cutoff is out of range, otherwise the rows or the StopIteration of its loop |
| QueryExecutor.CustomerOrdersFault | components/query_executor.py:127-145 | the branch raises OverflowError exactly when the cutoff is out of range; with a valid cutoff it raises exactly when some recent order's customer id is over the threshold and has no customer record |
| QueryExecutor.GroupedFault | components/query_executor.py:134-145 | over the grouped recent orders, the loop raises exactly when some order's customer id has a product total over the threshold and no customer record |
| QueryExecutor.DefaultWindowFits | components/query_executor.py:124-127 | the default 30-day window never overflows for a clock at least 30 days after `datetime.min` |
| QueryExecutor.WindowBeforeCalendarRaises | components/query_executor.py:75-127 | a window reaching before `datetime.min` raises OverflowError, even on an empty dataset; in particular "last 1000000 days" does for any present-day clock |
| QueryExecutor.CustomerOrderResults | components/query_executor.py:142-152 | the loop over the grouped counts yields the rows of the specification, stopping at the first id without a customer |
| QueryExecutor.CustomerOrderRowsFailurePersists | components/query_executor.py:145 | once `next` has raised, later ids no longer change the outcome |
| QueryExecutor.CustomerOrderRowsSound | components/query_executor.py:143-152 | every row has a product total above the threshold, with name, total spent and join date copied from the first customer with that id |
| QueryExecutor.CustomerOrderRowsKeys | components/query_executor.py:143-144 | the row ids are exactly the grouped ids above the threshold, in dict order |
| QueryExecutor.CustomerOrderRowsFault | components/query_executor.py:143-145 | the row loop (after the cutoff) raises exactly when some id over the threshold has no customer record, and it reports the first such id |
| QueryExecutor.CustomerOrdersTotal | components/query_executor.py:127-145 | when every order names an existing customer, as the sample generator ensures, the branch raises exactly when the cutoff is out of range |
| QueryExecutor.HighValueCustomers | components/query_executor.py:156-170 | the branch returns the high_value_customers table of the customers and the amount |
| QueryExecutor.HighValueSnoc | components/query_executor.py:160-168 | one more customer adds its row exactly when its total spent exceeds the amount |
| QueryExecutor.HighValueRowsAt | components/query_executor.py:162-168 | there is one row per selected customer, in order, with the fields copied from its record |
| QueryExecutor.HighValueExact | components/query_executor.py:159-168 | the rows list exactly the customers whose total spent exceeds the amount, in dataset order |
| QueryExecutor.ProductPopularity | components/query_executor.py:172-197 | the branch returns the product_popularity table of the data, the draws and the count |
| QueryExecutor.TallyDraws | components/query_executor.py:176-183 | the loops raise exactly when the catalogue is empty and a draw is needed; otherwise the dict counts every drawn id, keyed in first-draw order |
| QueryExecutor.DrawProducts | components/query_executor.py:179-183 | one order's draws extend the tally by its drawn ids |
| QueryExecutor.PopularityResults | components/query_executor.py:185-195 | the loop over the counted ids yields the rows of the specification |
| QueryExecutor.PickedHaveProducts | components/query_executor.py:186-188 | every drawn id belongs to a catalogue product, so the `next` at line 188 never raises |
| QueryExecutor.PopularityConserves | components/query_executor.py:176-183 | the per-product counts add up to the total product_count of all orders |
| QueryExecutor.PopularityRowsExact | components/query_executor.py:186-195 | the rows are keyed by exactly the ids drawn more than `count` times, in dict order, each with its count, name, price and category |
| QueryExecutor.PopularityEmptyCatalog | components/query_executor.py:180 | with an empty catalogue the branch raises exactly when some order has a product |
| QueryExecutor.GroupPrices | components/query_executor.py:203-208 | after the loop, the dict keys are the categories in first-appearance order, and each value lists that category's prices in dataset order |
| QueryExecutor.PricesStep | components/query_executor.py:204-208 | one iteration (insert [] if new, then append the price) keeps the grouping invariant |
| QueryExecutor.PricesInCount | components/query_executor.py:206-208 | a category has as many prices as it has products |
| QueryExecutor.CategoriesNonEmpty | components/query_executor.py:211-212 | every grouped category has at least one price, so `sum(prices) / len(prices)` never divides by zero |
| QueryExecutor.CategoryAnalysis | components/query_executor.py:199-222 | the branch returns the category_analysis table of the products and the price |
| QueryExecutor.MeanAboveIff | components/query_executor.py:212-213 | for a non-empty category, `sum(prices) / len(prices) > price` holds exactly when the sum exceeds `price` per product, the test the table's specification uses |
| QueryExecutor.MeanBounds | components/query_executor.py:212-219 | the average price lies between the minimum and the maximum price |
| QueryExecutor.CategoryRowsKeys | components/query_executor.py:211-213 | the rows are keyed by exactly the categories whose average is above the price, in dict order |
| QueryExecutor.CategoryRowOfSound | components/query_executor.py:212-220 | a row has the category's product count (at least 1), an average above the price, and lies between its minimum and maximum |
| QueryExecutor.CategoryRowsSound | components/query_executor.py:211-220 | every row of the table has those properties |
| QueryExecutor.AllCustomersUnchanged | components/query_executor.py:224-226 | the fallback table is the customer list unmodified |
| QueryExecutor.ExecuteQuery | components/query_executor.py:118-226 | dispatch on the 'type' value runs the matching branch and returns its table |
| QueryExecutor.DefaultCustomerOrders | components/query_executor.py:123-124 | without parameters, customer_orders uses threshold 2 and 30 days |
| QueryExecutor.DefaultHighValue | components/query_executor.py:157 | without parameters, high_value_customers uses amount 500 |
| QueryExecutor.DefaultPopularity | components/query_executor.py:173 | without parameters, product_popularity uses count 3 |
| QueryExecutor.DefaultCategory | components/query_executor.py:200 | without parameters, category_analysis uses price 100 |
| QueryExecutor.ExecuteFallback | components/query_executor.py:224-226 | a missing, custom or unknown type returns every customer record unchanged |
| QueryExecutor.ExecuteParsed | components/query_executor.py:118-226 | executing a parsed query runs the branch of its intent with its parameters; a custom intent returns all customers |
| SchemaBuilder.DiGraph.constructor | components/schema_builder.py:52 | `nx.DiGraph()` is the empty graph |
| SchemaBuilder.DiGraph.AddNode | components/schema_builder.py:57 | add_node appends a new node and ignores one already present; the graph stays duplicate-free |
| SchemaBuilder.DiGraph.AddEdge | components/schema_builder.py:64 | add_edge adds the missing endpoints (source first) and the edge once; the graph stays well formed |
| SchemaBuilder.ParseEdgeMeaning | components/schema_builder.py:62-63 | an edge string is skipped exactly when it has no separator; it raises exactly when a second separator follows the first; otherwise it splits around its only separator |
| SchemaBuilder.ParseEdgeOf | components/schema_builder.py:62-64 | `a -> b` parses to the trimmed pair when `a` has no '>' and `b` no '-' |
| SchemaBuilder.CreateGraph | components/schema_builder.py:50-66 | create_graph succeeds exactly when the reference fold does, with the same node and edge lists, a fresh graph and the same ValueError otherwise |
| SchemaBuilder.AddEdgesSnoc | components/schema_builder.py:61-64 | one more edge string extends the graph built so far as the loop body does |
| SchemaBuilder.AddEdgesFailurePersists | components/schema_builder.py:63 | once unpacking has raised, later edge strings no longer change the outcome |
| SchemaBuilder.AddNodesDistinct | components/schema_builder.py:55-57 | the node loop yields the declared nodes de-duplicated in declaration order, with no edges |
| SchemaBuilder.AddEdgesDistinct | components/schema_builder.py:60-64 | the edge loop succeeds exactly when every edge string is accepted; then the nodes are the de-duplicated declared nodes and endpoints, and the edges are the de-duplicated pairs |
| SchemaBuilder.GraphOfReference | components/schema_builder.py:50-66 | create_graph equals that reference description for every schema |
| SchemaBuilder.SkipEdge | components/schema_builder.py:62 | an edge string without the separator can be removed from anywhere in the list without changing the outcome |
| SchemaBuilder.AcceptedEdgesFault | components/schema_builder.py:63 | create_graph raises exactly when some edge string holds a second separator after its first |
| SchemaBuilder.GraphMembers | components/schema_builder.py:50-66 | the nodes are exactly the declared nodes and the endpoints, the edges are exactly the accepted pairs, and the graph is well formed |
| SchemaBuilder.DeclaredNodesFirst | components/schema_builder.py:55-57 | the declared nodes come first, in declaration order |
| SchemaBuilder.EdgeCountIsDistinctPairs | components/schema_builder.py:205 | the edge count is the number of distinct accepted pairs |
| SchemaBuilder.PropertyRows | components/schema_builder.py:134-146 | the method returns the properties table of the schema, and nothing when there is no properties key |
| SchemaBuilder.EntityPropertyRows | components/schema_builder.py:139-146 | the inner loop returns the rows of one entity |
| SchemaBuilder.EntityRowsExact | components/schema_builder.py:139-146 | an entity's rows are its colon-holding property strings, in order, each split at the first colon |
| SchemaBuilder.PropertyRowSplit | components/schema_builder.py:140-141 | `name: type` gives the trimmed name and type, even when the type holds more colons |
| SchemaStatistics.IsWeaklyConnectedCorrect | components/schema_builder.py:206 | the closure test answers true exactly when every two nodes are joined by an undirected walk |
| SchemaStatistics.CentralityOrder | components/schema_builder.py:210 | centralities compare as in- plus out-degrees compare |
| SchemaStatistics.FirstMax | components/schema_builder.py:211 | `max(..., key=...)` picks a node of greatest value, and the first one in node order on ties |
| SchemaStatistics.MostCentralByDegree | components/schema_builder.py:209-211 | the most central node has the greatest degree, and every earlier node has a strictly smaller degree |
| SchemaStatistics.TwoCycleCentrality | components/schema_builder.py:210 | in a two-node cycle a node's centrality is 2.0 |
| SchemaStatistics.GraphStatisticsMeaning | components/schema_builder.py:203-212 | the block fails exactly on a graph without nodes; otherwise it reports the node count, the edge count and weak connectivity, and names a most central node exactly when there are two or more nodes |
| SchemaStatistics.OneEdgeExample | components/schema_builder.py:203-212 | the schema of two entities and one edge between them gives 2 nodes, 1 edge, connected, with the source as most central node |
| SchemaStatistics.OneEdgeGraph | components/schema_builder.py:50-66 | that schema builds the graph with both nodes and the one edge |
| SchemaStatistics.OneEdgeStatistics | components/schema_builder.py:203-212 | that graph's statistics are 2, 1, connected, source |
| SchemaStatistics.OneEdgeConnected | components/schema_builder.py:206 | that graph is weakly connected |
| SchemaStatistics.OneEdgeMostCentral | components/schema_builder.py:211 | the source wins the tie because it is inserted first |
| SchemaStatistics.OneEdgeDegrees | components/schema_builder.py:210 | both nodes have degree 1 |
| InferenceEngine.ClassifyQuery | components/inference_engine.py:180-193 | the label is always one of the five analysis labels |
| InferenceEngine.ClassifyQueryFirstMatch | components/inference_engine.py:184-193 | the if/elif chain is the first-match rule over the keyword table customer, product, order, category |
| InferenceEngine.ClassifyQueryPrecedence | components/inference_engine.py:184-193 | each label comes with exactly its keyword condition: its own keyword present and every earlier one absent |
| InferenceEngine.CustomerInAnyCase | components/inference_engine.py:182-185 | a query that contains "customer" in any mix of case is a Customer Analysis |
| InferenceEngine.ClassifyQueryIgnoresCase | components/inference_engine.py:182 | lower-casing the query first changes nothing |
| InferenceEngine.RenderIsLine | components/inference_engine.py:168-176 | each formatted line is non-empty and has no line break |
| InferenceEngine.ContextParts | components/inference_engine.py:164-176 | there is a schema line exactly for a non-empty schema record, a query line exactly for a non-empty query, and a results line (last) exactly when the results have a shape; the lines keep that order |
| InferenceEngine.PrepareContext | components/inference_engine.py:162-178 | the appends and the join produce the context of the schema, query and shape |
| InferenceEngine.LinesAreLines | components/inference_engine.py:168-176 | every collected line is non-empty and has no line break |
| InferenceEngine.ContextLines | components/inference_engine.py:178 | the context is empty exactly when nothing applies; otherwise splitting it at line breaks gives back the collected lines |
| InferenceEngine.ContextShapes | components/inference_engine.py:174-178 | results of different shapes give different contexts |
| InferenceEngine.ContextNamesQueryType | components/inference_engine.py:171-172 | for a non-empty query, one line of the context is "Query type: " followed by its label |
| InferenceEngine.GuardsNeverCall | components/inference_engine.py:17-131 | without a client the three generators return their fixed warnings, each starting with the not-configured notice; with a client each sends its own prompt over the schema, the query and the printed results |
| InferenceEngine.PromptIgnoresContext | components/inference_engine.py:24-131 | the prepared context is discarded: results that print alike get the same reply whatever their shapes, although their contexts differ |
| PmStrategyHelper.ClassifyQueryFocus | components/pm_strategy_helper.py:197-210 | the focus is always one of the five analytics labels |
| PmStrategyHelper.ClassifyQueryFocusFirstMatch | components/pm_strategy_helper.py:201-210 | the if/elif chain is the first-match rule over the same keyword table |
| PmStrategyHelper.FocusAgreesWithAnalysis | components/pm_strategy_helper.py:201-210 | the focus is the renamed label of the inference engine's classifier, and is general exactly when that label is general |
| PmStrategyHelper.OrderInAnyCase | components/pm_strategy_helper.py:205-206 | a query with "order" in any case and no earlier keyword is Transaction Analytics |
| PmStrategyHelper.RenderIsLine | components/pm_strategy_helper.py:185-193 | each formatted line is non-empty and has no line break |
| PmStrategyHelper.ContextParts | components/pm_strategy_helper.py:179-193 | there is a complexity line exactly for a non-empty schema record, a focus line exactly for a non-empty query, and a volume line (last) exactly when the results have a shape; the lines keep that order |
| PmStrategyHelper.PrepareContext | components/pm_strategy_helper.py:177-195 | the appends and the join produce the context of the schema, query and shape, whatever the insights argument |
| PmStrategyHelper.LinesAreLines | components/pm_strategy_helper.py:185-193 | every collected line is non-empty and has no line break |
| PmStrategyHelper.ContextEmpty | components/pm_strategy_helper.py:195 | the context is empty exactly when nothing applies |
| PmStrategyHelper.ContextOpensWithComplexity | components/pm_strategy_helper.py:182-185 | for a non-empty schema record, the first line gives the declared node and edge counts |
| PmStrategyHelper.NotePreview | components/pm_strategy_helper.py:321 | the preview has at most 203 characters; a note of at most 200 characters is shown whole, and a longer one as its first 200 characters followed by "..." |
| PmStrategyHelper.NotePreviewPrefix | components/pm_strategy_helper.py:321 | the preview begins with the note, up to 200 characters; it equals the note exactly when the note is at most 200 characters long, or is 203 characters long and ends in "..." |
| PmStrategyHelper.NotePreviewIdempotent | components/pm_strategy_helper.py:321 | previewing a preview changes nothing |
| PmStrategyHelper.InsightsLine | components/pm_strategy_helper.py:47 | the insights line of the roadmap prompt is never empty, and is the insights themselves when there are any |
| PmStrategyHelper.GuardsNeverCall | components/pm_strategy_helper.py:25-148 | without a client the three generators return their fixed warnings, each starting with the not-configured notice; with a client each sends its own prompt over the schema, the query and the printed results, and the roadmap prompt also the insights or "No AI insights available" |
| PmStrategyHelper.PromptIgnoresContext | components/pm_strategy_helper.py:32-148 | the prepared context is discarded: results that print alike get the same reply whatever their shapes; distinct non-empty insights give distinct roadmap requests |

## Left out

- `parse_schema` and `yaml.safe_load`: YAML parsing is a library call. The model starts from the parsed record. A `nodes`, `edges` or `properties` value that is not a list of strings, or a `None` value, is not modelled.
- The Streamlit UI is not modelled: `render` methods, layouts, buttons and session state. Only the statistics block and the properties rows are taken from `SchemaBuilder.render`.
- `visualize_graph` is not modelled: spring layout, Plotly figures and the neighbour count used for node colours.
- The OpenAI calls are not modelled: the prompt's fixed wording, `chat.completions.create`, its answer, and the "❌ Error ..." strings returned when a call raises. A generator with a client is modelled as a `Request` naming its prompt template and the values the prompt interpolates: the schema, the query, the printed results and, for the roadmap, the insights line. `json.dumps` and `to_string` themselves are not modelled; the printed results are a parameter.
- Client construction in the two `__init__` methods (environment variables, Streamlit secrets) is not modelled. The client's presence is a boolean parameter.
- `_generate_sample_data` is not modelled, because it is random generation. The dataset is a parameter. `QueryExecutor.CustomerOrdersTotal` states the one guarantee of the generator the branches rely on.
- Randomness and the clock are parameters: `draws` stands for the `random.choice` results and `now` for `datetime.now()`.
- Floating point: money is exact cents, the average price is an exact rational, and `round(avg_price, 2)` is not applied.
- `strftime('%Y-%m-%d')` is not modelled: join dates stay timestamps.
- The DataFrame is not modelled: the rows carry the columns as datatype fields.
- `str.lower` and `\d` are modelled on ASCII only. Other alphabets and Unicode digits are not handled. `strip` removes the full `str.isspace` set.
- The templates at `query_executor.py` lines 15-16 are not modelled, since they name intents `parse_query` never produces. The line-14 template parses to `custom`, but that is not proved; only lines 12-13 are.
- ParseQuery: does not model CPython's limit of 4300 digits on `int()` of a decimal string (`sys.int_info.default_max_str_digits`). A digit run longer than that raises ValueError at lines 72, 75, 86, 96 and 106, and the model parses it to its number.
- GraphStatistics: on a graph without nodes the source writes "Total Nodes" and "Total Edges" before `is_weakly_connected` raises. The model's failure result does not carry those two writes.
- Order: `productCount` is a `nat`. A negative `product_count` is not modelled; the sample generator draws it from 1 to 5.
- `PmStrategyHelper.PrepareContext`: takes the `insights` argument and ignores it, as the source does.
- `InferenceEngine.GenerateInsights`, `GeneratePatternAnalysis`, `GenerateRecommendations` and the three `PmStrategyHelper` generators have no contract of their own. `GuardsNeverCall` in each module states what they return.
