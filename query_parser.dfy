/** `QueryExecutor.parse_query`: free query text to a tagged intent, by an
    ordered chain of keyword tests on the lower-cased text, with numbers taken
    from the first match of a regular expression or from a default. */
module QueryParser {
  import opened Wrappers
  import opened Text

  /** The dict `parse_query` returns, as a tagged variant. Numbers are the
      integers `int()` makes of a run of decimal digits. */
  datatype Intent =
    | CustomerOrders(threshold: nat, days: nat)
    | HighValueCustomers(amount: nat)
    | ProductPopularity(count: nat)
    | CategoryAnalysis(price: nat)
    | Custom(query: string)

  const DefaultThreshold: nat := 2
  const DefaultDays: nat := 30
  const DefaultAmount: nat := 500
  const DefaultCount: nat := 3
  const DefaultPrice: nat := 100

  /** The value of the dict's 'type' key. */
  function Kind(intent: Intent): string {
    match intent
    case CustomerOrders(_, _) => "customer_orders"
    case HighValueCustomers(_) => "high_value_customers"
    case ProductPopularity(_) => "product_popularity"
    case CategoryAnalysis(_) => "category_analysis"
    case Custom(_) => "custom"
  }

  // ------------------------------------------- the regular-expression searches

  /** The pattern `prefix(\d+)` matches at index `i` of `s`. */
  predicate NumberAt(s: string, prefix: string, i: nat) {
    OccursAt(s, prefix, i) && i + |prefix| < |s| && IsDigit(s[i + |prefix|])
  }

  /** The leftmost index at or after `i` where `prefix(\d+)` matches, the
      position `re.search` reports. */
  function SearchNumber(s: string, prefix: string, i: nat): (r: Option<nat>)
    requires i <= |s|
    ensures r.Some? ==> i <= r.value && NumberAt(s, prefix, r.value)
    ensures r.Some? ==> forall j: nat :: i <= j < r.value ==> !NumberAt(s, prefix, j)
    ensures r.None? ==> forall j: nat :: i <= j ==> !NumberAt(s, prefix, j)
    decreases |s| - i
  {
    if NumberAt(s, prefix, i) then Some(i)
    else if i == |s| then None
    else SearchNumber(s, prefix, i + 1)
  }

  /** `re.search(prefix + r'(\d+)', s)` and `int(m.group(1))`: the greedy digit
      run after the leftmost match, or None when there is no match. */
  function NumberAfter(s: string, prefix: string): (r: Option<nat>) {
    match SearchNumber(s, prefix, 0)
    case None => None
    case Some(i) => Some(DigitsValue(LeadingDigits(s[i + |prefix|..])))
  }

  /** The pattern `last (\d+) days` matches at index `i` of `s`. A shorter run
      than the greedy one would be followed by a digit instead of " days", so
      the greedy run is the only candidate. */
  predicate DaysAt(s: string, i: nat) {
    OccursAt(s, "last ", i) &&
    var d := LeadingDigits(s[i + 5..]);
    d != [] && OccursAt(s, " days", i + 5 + |d|)
  }

  function SearchDays(s: string, i: nat): (r: Option<nat>)
    requires i <= |s|
    ensures r.Some? ==> i <= r.value && DaysAt(s, r.value)
    ensures r.Some? ==> forall j: nat :: i <= j < r.value ==> !DaysAt(s, j)
    ensures r.None? ==> forall j: nat :: i <= j ==> !DaysAt(s, j)
    decreases |s| - i
  {
    if DaysAt(s, i) then Some(i)
    else if i == |s| then None
    else SearchDays(s, i + 1)
  }

  /** `re.search(r'last (\d+) days', s)` and `int(m.group(1))`. */
  function DaysWindow(s: string): (r: Option<nat>) {
    match SearchDays(s, 0)
    case None => None
    case Some(i) => Some(DigitsValue(LeadingDigits(s[i + 5..])))
  }

  function GetOr(o: Option<nat>, default: nat): nat {
    match o
    case Some(v) => v
    case None => default
  }

  // -------------------------------------------------------------- parse_query

  /** `parse_query`. A text naming both "customer" and "order" is decided by
      the first test alone: without "more than" it falls through to the
      custom fallback and the other rules are never tried. */
  function ParseQuery(query: string): (r: Intent)
    ensures r.Custom? ==> r.query == query
  {
    var q := Lower(query);
    if Contains(q, "customer") && Contains(q, "order") then
      if Contains(q, "more than") then
        CustomerOrders(GetOr(NumberAfter(q, "more than "), DefaultThreshold),
                       GetOr(DaysWindow(q), DefaultDays))
      else
        Custom(query)
    else if Contains(q, "total order value") || Contains(q, "total spent") then
      HighValueCustomers(GetOr(NumberAfter(query, "$"), DefaultAmount))
    else if Contains(q, "product") && Contains(q, "ordered by") then
      ProductPopularity(GetOr(NumberAfter(q, "more than "), DefaultCount))
    else if Contains(q, "category") && Contains(q, "average price") then
      CategoryAnalysis(GetOr(NumberAfter(query, "$"), DefaultPrice))
    else
      Custom(query)
  }

  // ---------------------------------------------------------- the rule chain

  /** Rule 1 and its shadow: once "customer" and "order" both occur, the
      result is customer_orders exactly when "more than" occurs, and custom
      (with the original text) otherwise. */
  lemma CustomerOrderRule(query: string)
    requires Contains(Lower(query), "customer") && Contains(Lower(query), "order")
    ensures ParseQuery(query).CustomerOrders? <==> Contains(Lower(query), "more than")
    ensures !Contains(Lower(query), "more than") ==> ParseQuery(query) == Custom(query)
    ensures ParseQuery(query).CustomerOrders? || ParseQuery(query).Custom?
  {
  }

  /** The parameters of rule 1: the first `more than N` and the first
      `last N days`, each defaulting when its pattern does not match. */
  lemma CustomerOrderParameters(query: string)
    requires ParseQuery(query).CustomerOrders?
    ensures var q := Lower(query);
      && ParseQuery(query).threshold == GetOr(NumberAfter(q, "more than "), 2)
      && ParseQuery(query).days == GetOr(DaysWindow(q), 30)
      && Contains(q, "customer") && Contains(q, "order") && Contains(q, "more than")
  {
  }

  /** Rule 2 is reached only when rule 1's pair of keywords is absent. */
  lemma HighValueRule(query: string)
    requires var q := Lower(query);
      !(Contains(q, "customer") && Contains(q, "order")) &&
      (Contains(q, "total order value") || Contains(q, "total spent"))
    ensures ParseQuery(query) == HighValueCustomers(GetOr(NumberAfter(query, "$"), 500))
  {
  }

  lemma ProductPopularityRule(query: string)
    requires var q := Lower(query);
      !(Contains(q, "customer") && Contains(q, "order")) &&
      !(Contains(q, "total order value") || Contains(q, "total spent")) &&
      Contains(q, "product") && Contains(q, "ordered by")
    ensures ParseQuery(query) == ProductPopularity(GetOr(NumberAfter(Lower(query), "more than "), 3))
  {
  }

  lemma CategoryRule(query: string)
    requires var q := Lower(query);
      !(Contains(q, "customer") && Contains(q, "order")) &&
      !(Contains(q, "total order value") || Contains(q, "total spent")) &&
      !(Contains(q, "product") && Contains(q, "ordered by")) &&
      Contains(q, "category") && Contains(q, "average price")
    ensures ParseQuery(query) == CategoryAnalysis(GetOr(NumberAfter(query, "$"), 100))
  {
  }

  /** Every intent other than custom comes from its own rule's keywords; a
      text none of the rules accepts is custom. */
  lemma RuleKeywords(query: string)
    ensures var q := Lower(query); var r := ParseQuery(query);
      && (r.CustomerOrders? ==> Contains(q, "customer") && Contains(q, "order") && Contains(q, "more than"))
      && (r.HighValueCustomers? ==> Contains(q, "total order value") || Contains(q, "total spent"))
      && (r.ProductPopularity? ==> Contains(q, "product") && Contains(q, "ordered by"))
      && (r.CategoryAnalysis? ==> Contains(q, "category") && Contains(q, "average price"))
      && (r.Custom? <==>
            ((Contains(q, "customer") && Contains(q, "order") && !Contains(q, "more than")) ||
             (!(Contains(q, "customer") && Contains(q, "order")) &&
              !Contains(q, "total order value") && !Contains(q, "total spent") &&
              !(Contains(q, "product") && Contains(q, "ordered by")) &&
              !(Contains(q, "category") && Contains(q, "average price")))))
  {
  }

  // ------------------------------------------------------- number extraction

  /** A number is the greedy digit run after the leftmost match; no earlier
      position matches the pattern, and the run is followed by a non-digit or
      by the end of the text. */
  lemma NumberAfterIsFirstMatch(s: string, prefix: string)
    requires NumberAfter(s, prefix).Some?
    ensures exists i: nat ::
              (NumberAt(s, prefix, i)
               && (forall j: nat :: j < i ==> !NumberAt(s, prefix, j))
               && LeadingDigits(s[i + |prefix|..]) != []
               && NumberAfter(s, prefix) == Some(DigitsValue(LeadingDigits(s[i + |prefix|..]))))
  {
    var i := SearchNumber(s, prefix, 0).value;
    assert NumberAt(s, prefix, i);
  }

  /** No match of the pattern anywhere means the default is used. */
  lemma NumberAfterNone(s: string, prefix: string)
    ensures NumberAfter(s, prefix).None? <==> forall j: nat :: !NumberAt(s, prefix, j)
  {
    if NumberAfter(s, prefix).Some? {
      var i := SearchNumber(s, prefix, 0).value;
      assert NumberAt(s, prefix, i);
    }
  }

  /** The `$` amount is read off the original text, and lower-casing does not
      change it: '$' and the digits are not letters. */
  lemma {:induction false} DollarAmountIgnoresCase(query: string)
    ensures NumberAfter(query, "$") == NumberAfter(Lower(query), "$")
  {
    var q := Lower(query);
    forall j: nat ensures NumberAt(query, "$", j) <==> NumberAt(q, "$", j) {
      if j + 1 < |query| {
        assert query[j..j + 1] == [query[j]] && q[j..j + 1] == [q[j]];
      }
    }
    SearchNumberAgree(query, q, 0);
    match SearchNumber(query, "$", 0)
    case None =>
    case Some(i) =>
      LeadingDigitsLower(query[i + 1..]);
      assert Lower(query[i + 1..]) == q[i + 1..];
  }

  lemma {:induction false} SearchNumberAgree(a: string, b: string, i: nat)
    requires |a| == |b| && i <= |a|
    requires forall j: nat :: NumberAt(a, "$", j) <==> NumberAt(b, "$", j)
    ensures SearchNumber(a, "$", i) == SearchNumber(b, "$", i)
    decreases |a| - i
  {
    if !NumberAt(a, "$", i) && i < |a| {
      SearchNumberAgree(a, b, i + 1);
    }
  }

  lemma {:induction false} LeadingDigitsLower(s: string)
    ensures LeadingDigits(Lower(s)) == LeadingDigits(s)
  {
    if s != [] && IsDigit(s[0]) {
      assert Lower(s)[1..] == Lower(s[1..]);
      LeadingDigitsLower(s[1..]);
    }
  }

  /** Parsing depends on the text only through its lower-cased form, except
      that custom keeps the original text. */
  lemma ParseQueryIgnoresCase(a: string, b: string)
    requires Lower(a) == Lower(b)
    ensures Kind(ParseQuery(a)) == Kind(ParseQuery(b))
    ensures !ParseQuery(a).Custom? ==> ParseQuery(a) == ParseQuery(b)
  {
    DollarAmountIgnoresCase(a);
    DollarAmountIgnoresCase(b);
  }

  // ------------------------------------------------------- the query templates

  /** The "high_value_customers" template of line 12, filled in with an
      amount, names both "customer" and "order" but not "more than", so rule
      1 takes it and it parses as custom: the total-order-value rule is
      never reached. (The template is written in two pieces only to keep
      the literals short.) */
  lemma HighValueTemplateIsCustom(amount: nat)
    ensures var t := "FIND Customers with " + "total order value greater than $" + NatToString(amount);
      ParseQuery(t) == Custom(t)
  {
    var d := NatToString(amount);
    HighValueLower(d);
    HighValueKeywords(d);
    HighValueHasNoMoreThan(d);
  }

  lemma HighValueLower(d: string)
    requires AllDigits(d)
    ensures Lower("FIND Customers with " + "total order value greater than $" + d)
            == "find custo" + "m" + "ers with " + "total order value greater than $" + d
  {
    var u, v := "FIND Customers with ", "total order value greater than $";
    LowerAppend(u + v, d);
    LowerAppend(u, v);
    assert Lower(u) == "find custo" + "m" + "ers with ";
    assert Lower(v) == v;
    assert Lower(d) == d;
  }

  lemma HighValueKeywords(d: string)
    ensures var q := "find custo" + "m" + "ers with " + "total order value greater than $" + d;
      Contains(q, "customer") && Contains(q, "order")
  {
    var l, v := "find custo" + "m" + "ers with ", "total order value greater than $";
    var w := "total order value ";
    assert v == w + "greater than $";
    assert w[6..11] == "order" && v[6..11] == w[6..11];
    var q := l + v + d;
    assert l[5..13] == "customer";
    assert q[5..13] == l[5..13] && q[26..31] == v[6..11];
    OccursAtContains(q, "customer", 5);
    OccursAtContains(q, "order", 26);
  }

  /** The only 'm' of the filled-in template is followed by 'e', so "more than"
      does not occur. */
  lemma HighValueHasNoMoreThan(d: string)
    requires AllDigits(d)
    ensures !Contains("find custo" + "m" + "ers with " + "total order value greater than $" + d, "more than")
  {
    var a, b := "find custo", "ers with " + "total order value greater than $";
    HighValueOnlyM(a, b, d);
    var q := a + "m" + b + d;
    assert q == "find custo" + "m" + "ers with " + "total order value greater than $" + d;
    forall j: nat ensures !OccursAt(q, "more than", j) {
      if j + 9 <= |q| {
        assert q[j..j + 9][0] == q[j] && q[j..j + 9][1] == q[j + 1];
        if j == |a| {
          assert q[j + 1] == b[0];
        }
      }
    }
  }

  lemma HighValueOnlyM(a: string, b: string, d: string)
    requires a == "find custo" && b == "ers with " + "total order value greater than $"
    requires AllDigits(d)
    ensures |a| == 10 && b[0] == 'e'
    ensures forall j :: 0 <= j < |a + "m" + b + d| && j != |a| ==> (a + "m" + b + d)[j] != 'm'
  {
    assert 'm' !in a && 'm' !in "ers with " && 'm' !in "total order value greater than $";
    assert 'm' !in b;
    var q := a + "m" + b + d;
    forall j | 0 <= j < |q| && j != |a| ensures q[j] != 'm' {
      if j < |a| {
        assert q[j] == a[j] && a[j] in a;
      } else if j < |a| + 1 + |b| {
        assert q[j] == b[j - |a| - 1] && b[j - |a| - 1] in b;
      } else {
        assert q[j] == d[j - |a| - 1 - |b|];
      }
    }
  }

  /** The "product_popularity" template of line 13, filled in with a count,
      also names "customer" and "order", and it has "more than": it parses
      as customer_orders, with the count as the threshold and the default
      window, since it has no "last N days". */
  lemma ProductPopularityTemplateIsCustomerOrders(count: nat)
    ensures ParseQuery("FIND Products ordered by more than " + NatToString(count) + " customers")
            == CustomerOrders(count, DefaultDays)
  {
    var d := NatToString(count);
    var q := "find products ordered by more than " + d + " customers";
    PopularityLower(d);
    PopularityKeywords(d);
    PopularityThreshold(d);
    NatToStringRoundTrip(count);
    assert DaysWindow(q) == None by {
      PopularityHasNoL(d);
      CharAbsentNoOccurrence(q, "last ", 0);
    }
  }

  lemma PopularityLower(d: string)
    requires AllDigits(d)
    ensures Lower("FIND Products ordered by more than " + d + " customers")
            == "find products ordered by more than " + d + " customers"
  {
    LowerAppend("FIND Products ordered by more than " + d, " customers");
    LowerAppend("FIND Products ordered by more than ", d);
    assert Lower("FIND Products ordered by more than ") == "find products ordered by more than ";
    assert Lower(" customers") == " customers";
  }

  lemma PopularityKeywords(d: string)
    ensures var q := "find products ordered by more than " + d + " customers";
      Contains(q, "customer") && Contains(q, "order") && Contains(q, "more than")
  {
    var l := "find products ordered by more than ";
    var q := l + d + " customers";
    assert l[14..19] == "order" && l[25..34] == "more than";
    assert q[14..19] == l[14..19] && q[25..34] == l[25..34];
    var n := |l + d|;
    assert q[n + 1..n + 9] == "customer";
    OccursAtContains(q, "customer", n + 1);
    OccursAtContains(q, "order", 14);
    OccursAtContains(q, "more than", 25);
  }

  /** The first "more than " followed by a digit is the template's own, and
      its digit run is the filled-in number. */
  lemma PopularityThreshold(d: string)
    requires d != [] && AllDigits(d)
    ensures NumberAfter("find products ordered by more than " + d + " customers", "more than ")
            == Some(DigitsValue(d))
  {
    var p, m := "find products ordered by ", "more than ";
    assert p + m == "find products ordered by more than ";
    var q := p + m + d + " customers";
    assert 'm' !in p && |p| == 25 && |m| == 10;
    assert q[25..35] == m && q[35] == d[0];
    assert NumberAt(q, m, 25);
    forall j: nat | j < 25 ensures !NumberAt(q, m, j) {
      assert q[j] == p[j] && p[j] in p;
      assert q[j..j + 10][0] == q[j];
    }
    assert SearchNumber(q, m, 0) == Some(25);
    assert q[35..] == d + " customers";
    LeadingDigitsOf(d, " customers");
  }

  lemma PopularityHasNoL(d: string)
    requires AllDigits(d)
    ensures 'l' !in "find products ordered by more than " + d + " customers"
  {
    assert 'l' !in "find products ordered by more than " && 'l' !in " customers";
  }

  // ------------------------------------------------- the dict the executor gets

  /** The dict `parse_query` builds: its 'type' and its numeric entries
      ('query' of a custom intent is carried but never read by the executor). */
  datatype ParsedQuery = ParsedQuery(kind: Option<string>, params: map<string, int>)

  function AsParsedQuery(intent: Intent): (p: ParsedQuery)
    ensures p.kind == Some(Kind(intent))
  {
    match intent
    case CustomerOrders(t, d) =>
      ParsedQuery(Some(Kind(intent)), map["threshold" := t, "days" := d])
    case HighValueCustomers(a) => ParsedQuery(Some(Kind(intent)), map["amount" := a])
    case ProductPopularity(c) => ParsedQuery(Some(Kind(intent)), map["count" := c])
    case CategoryAnalysis(p) => ParsedQuery(Some(Kind(intent)), map["price" := p])
    case Custom(_) => ParsedQuery(Some(Kind(intent)), map[])
  }
}
