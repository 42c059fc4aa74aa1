/** `QueryExecutor.execute_query`: the five branches that turn a parsed query
    into a result table over the sample dataset (customers, products,
    orders). Each branch is a method whose loops fill dicts and append rows
    as the Python code does, proved equal to a specification function over
    the inputs; the lemmas state what those tables contain. */
module QueryExecutor {
  import opened Wrappers
  import opened Collections
  import opened QueryParser

  /** Timestamps are whole microseconds, the resolution of `datetime`,
      counted from `datetime.min` (0001-01-01 00:00). */
  const MicrosPerDay: int := 86_400_000_000

  /** `datetime.max` (9999-12-31 23:59:59.999999): 3652059 days after
      `datetime.min`, less one microsecond. */
  const MaxDatetime: int := 3_652_059 * MicrosPerDay - 1

  /** The largest magnitude of `timedelta(days=...)`. */
  const MaxDeltaDays: int := 999_999_999

  /** Money is whole cents: the dataset rounds every amount to 2 decimals. */
  datatype Customer = Customer(id: string, name: string, email: string,
                               joinDate: int, totalOrders: int, totalSpent: int)

  datatype Product = Product(id: string, name: string, price: int,
                             category: string, ordersCount: int)

  datatype Order = Order(id: string, customerId: string, customerName: string,
                         orderDate: int, totalAmount: int, productCount: nat)

  /** `self.sample_data`. */
  datatype Dataset = Dataset(customers: seq<Customer>, products: seq<Product>,
                             orders: seq<Order>)

  /** One row of the DataFrame each branch returns, with its fixed columns. */
  datatype Row =
    | CustomerOrdersRow(customerId: string, customerName: string, productsOrdered: int,
                        totalSpent: int, joinDate: int)
    | HighValueRow(customerId: string, customerName: string, totalSpent: int,
                   totalOrders: int, joinDate: int)
    | PopularityRow(productId: string, productName: string, ordersCount: nat,
                    price: int, category: string)
    | CategoryRow(category: string, averagePrice: real, productCount: nat,
                  minPrice: int, maxPrice: int)
    | CustomerRecord(customer: Customer)

  /** The exceptions a branch can raise: OverflowError from the date
      arithmetic of a window beyond the calendar, StopIteration from `next`
      when an order names a customer id no customer has, and IndexError from
      `random.choice` on an empty product list. */
  datatype Fault = DateOutOfRange | MissingCustomer(id: string) | EmptyCatalog

  type Table = Result<seq<Row>, Fault>

  /** `parsed_query.get(key, default)`. */
  function Get(params: map<string, int>, key: string, default: int): int {
    if key in params then params[key] else default
  }

  /** The first column of a row, the one each table is keyed by. */
  function RowKey(r: Row): string {
    match r
    case CustomerOrdersRow(id, _, _, _, _) => id
    case HighValueRow(id, _, _, _, _) => id
    case PopularityRow(id, _, _, _, _) => id
    case CategoryRow(c, _, _, _, _) => c
    case CustomerRecord(c) => c.id
  }

  function RowKeys(rows: seq<Row>): (ks: seq<string>)
    ensures |ks| == |rows| && forall i :: 0 <= i < |rows| ==> ks[i] == RowKey(rows[i])
  {
    seq(|rows|, i requires 0 <= i < |rows| => RowKey(rows[i]))
  }

  lemma RowKeysSnoc(rows: seq<Row>, r: Row)
    ensures RowKeys(rows + [r]) == RowKeys(rows) + [RowKey(r)]
  {
  }

  lemma RowKeysAppend(rows: seq<Row>, extra: seq<Row>)
    ensures RowKeys(rows + extra) == RowKeys(rows) + RowKeys(extra)
  {
  }

  // ================================================== customer_orders branch

  function IsRecent(cutoff: int): Order -> bool {
    (o: Order) => o.orderDate >= cutoff
  }

  /** `datetime.now() - timedelta(days=days)` at line 127: `timedelta`
      raises OverflowError beyond 999999999 days either way, and the
      subtraction raises it when the result falls outside the calendar. */
  function Cutoff(now: int, days: int): (r: Result<int, Fault>)
    ensures r.Success? ==> r.value == now - days * MicrosPerDay && 0 <= r.value <= MaxDatetime
    ensures r.Failure? ==> r.error == DateOutOfRange
  {
    if days < -MaxDeltaDays || MaxDeltaDays < days then Failure(DateOutOfRange)
    else if now - days * MicrosPerDay < 0 || MaxDatetime < now - days * MicrosPerDay then Failure(DateOutOfRange)
    else Success(now - days * MicrosPerDay)
  }

  /** The list comprehension at lines 128-131: the orders placed at or after
      the cutoff. */
  function RecentOrders(orders: seq<Order>, cutoff: int): seq<Order> {
    Filter(IsRecent(cutoff), orders)
  }

  function CustomerIds(orders: seq<Order>): (r: seq<string>)
    ensures |r| == |orders| && forall i :: 0 <= i < |orders| ==> r[i] == orders[i].customerId
  {
    seq(|orders|, i requires 0 <= i < |orders| => orders[i].customerId)
  }

  /** The sum of `product_count` over the orders of customer `id`. */
  function ProductsOrderedBy(orders: seq<Order>, id: string): nat {
    if orders == [] then 0
    else
      var o := orders[|orders| - 1];
      ProductsOrderedBy(orders[..|orders| - 1], id) + (if o.customerId == id then o.productCount else 0)
  }

  function HasCustomerId(id: string): Customer -> bool {
    (c: Customer) => c.id == id
  }

  function Exceeds(orders: seq<Order>, threshold: int): string -> bool {
    (id: string) => ProductsOrderedBy(orders, id) > threshold
  }

  /** The rows for the grouped customer ids `keys` (in dict order): an id
      whose product total exceeds `threshold` yields a row built from the
      first customer with that id, or raises when there is none. */
  function CustomerOrderRows(keys: seq<string>, orders: seq<Order>, customers: seq<Customer>,
                             threshold: int): (r: Table)
    ensures r.Failure? ==> r.error.MissingCustomer? && r.error.id in keys
  {
    if keys == [] then Success([])
    else
      var k := keys[|keys| - 1];
      match CustomerOrderRows(keys[..|keys| - 1], orders, customers, threshold)
      case Failure(e) => Failure(e)
      case Success(rows) =>
        var n := ProductsOrderedBy(orders, k);
        if n > threshold then
          match FirstWhere(HasCustomerId(k), customers)
          case None => Failure(MissingCustomer(k))
          case Some(i) =>
            var c := customers[i];
            Success(rows + [CustomerOrdersRow(k, c.name, n, c.totalSpent, c.joinDate)])
        else Success(rows)
  }

  /** The customer_orders table: the rows of the recent orders grouped by
      customer id in first-appearance order, or the error of the cutoff. */
  function CustomerOrdersTable(data: Dataset, now: int, threshold: int, days: int): Table {
    match Cutoff(now, days)
    case Failure(e) => Failure(e)
    case Success(cutoff) =>
      var recent := RecentOrders(data.orders, cutoff);
      CustomerOrderRows(Distinct(CustomerIds(recent)), recent, data.customers, threshold)
  }

  /** `keys` and `counts` are `customer_product_counts` after the loop at
      lines 134-139 has run over `orders`: its keys in insertion order and the
      product total of each. */
  ghost predicate Grouped(orders: seq<Order>, keys: seq<string>, counts: map<string, int>) {
    && keys == Distinct(CustomerIds(orders))
    && (forall k :: k in counts <==> k in keys)
    && (forall k :: k in counts ==> counts[k] == ProductsOrderedBy(orders, k))
  }

  /** The loop at lines 134-139. */
  method GroupProductCounts(orders: seq<Order>) returns (keys: seq<string>, counts: map<string, int>)
    ensures Grouped(orders, keys, counts)
  {
    keys, counts := [], map[];
    for i := 0 to |orders|
      invariant Grouped(orders[..i], keys, counts)
    {
      ghost var keys0, counts0 := keys, counts;
      var id := orders[i].customerId;
      if id !in counts {
        keys := keys + [id];
        counts := counts[id := 0];
      }
      counts := counts[id := counts[id] + orders[i].productCount];
      GroupStep(orders, i, keys0, counts0);
    }
    assert orders[..|orders|] == orders;
  }

  /** One iteration of the loop at lines 135-139 keeps `Grouped`. */
  lemma GroupStep(orders: seq<Order>, i: nat, keys: seq<string>, counts: map<string, int>)
    requires i < |orders| && Grouped(orders[..i], keys, counts)
    ensures var id := orders[i].customerId;
      Grouped(orders[..i + 1],
              if id in counts then keys else keys + [id],
              counts[id := (if id in counts then counts[id] else 0) + orders[i].productCount])
  {
    var id := orders[i].customerId;
    var s0, s1 := orders[..i], orders[..i + 1];
    var ids := CustomerIds(s1);
    assert s1[..i] == s0;
    assert ids[..|ids| - 1] == CustomerIds(s0) && ids[|ids| - 1] == id;
    assert Distinct(ids) == if id in keys then keys else keys + [id];
    forall k ensures ProductsOrderedBy(s1, k) == ProductsOrderedBy(s0, k) + (if k == id then orders[i].productCount else 0) {
      ProductsOrderedBySnoc(orders, i, k);
    }
    if id !in counts {
      ProductsOrderedByAbsent(s0, id);
    }
  }

  lemma ProductsOrderedBySnoc(orders: seq<Order>, i: nat, k: string)
    requires i < |orders|
    ensures ProductsOrderedBy(orders[..i + 1], k)
         == ProductsOrderedBy(orders[..i], k) + (if k == orders[i].customerId then orders[i].productCount else 0)
  {
    assert orders[..i + 1][..i] == orders[..i];
  }

  /** A customer with no order has ordered nothing. */
  lemma {:induction false} ProductsOrderedByAbsent(orders: seq<Order>, id: string)
    requires id !in CustomerIds(orders)
    ensures ProductsOrderedBy(orders, id) == 0
  {
    if orders != [] {
      var n := |orders| - 1;
      assert CustomerIds(orders)[n] == orders[n].customerId;
      assert CustomerIds(orders[..n]) == CustomerIds(orders)[..n];
      ProductsOrderedByAbsent(orders[..n], id);
    }
  }

  /** Lines 122-154. */
  method CustomerOrders(data: Dataset, now: int, threshold: int, days: int) returns (r: Table)
    ensures r == CustomerOrdersTable(data, now, threshold, days)
  {
    var cutoff := Cutoff(now, days);
    if cutoff.Failure? {
      return Failure(cutoff.error);
    }
    var recent := RecentOrders(data.orders, cutoff.value);
    var keys, counts := GroupProductCounts(recent);
    r := CustomerOrderResults(keys, counts, recent, data.customers, threshold);
  }

  /** The loop at lines 142-152 over the grouped counts. */
  method CustomerOrderResults(keys: seq<string>, counts: map<string, int>, orders: seq<Order>,
                              customers: seq<Customer>, threshold: int) returns (r: Table)
    requires forall k :: k in keys ==> k in counts && counts[k] == ProductsOrderedBy(orders, k)
    ensures r == CustomerOrderRows(keys, orders, customers, threshold)
  {
    var results: seq<Row> := [];
    for i := 0 to |keys|
      invariant CustomerOrderRows(keys[..i], orders, customers, threshold) == Success(results)
    {
      assert keys[..i + 1][..i] == keys[..i];
      var id := keys[i];
      var count := counts[id];
      if count > threshold {
        match FirstWhere(HasCustomerId(id), customers)
        case None =>
          CustomerOrderRowsFailurePersists(keys, orders, customers, threshold, i + 1);
          return Failure(MissingCustomer(id));
        case Some(j) =>
          var customer := customers[j];
          results := results + [CustomerOrdersRow(id, customer.name, count,
                                                  customer.totalSpent, customer.joinDate)];
      }
    }
    assert keys[..|keys|] == keys;
    r := Success(results);
  }

  /** Once a prefix of the keys raises, the whole loop raises the same way. */
  lemma {:induction false} CustomerOrderRowsFailurePersists(keys: seq<string>, orders: seq<Order>,
      customers: seq<Customer>, threshold: int, n: nat)
    requires n <= |keys| && CustomerOrderRows(keys[..n], orders, customers, threshold).Failure?
    ensures CustomerOrderRows(keys, orders, customers, threshold)
            == CustomerOrderRows(keys[..n], orders, customers, threshold)
    decreases |keys| - n
  {
    if n < |keys| {
      var p := keys[..|keys| - 1];
      assert p[..n] == keys[..n];
      CustomerOrderRowsFailurePersists(p, orders, customers, threshold, n);
    } else {
      assert keys[..n] == keys;
    }
  }

  /** Every row counts the products of one customer's recent orders, that
      count exceeds the threshold, and the rest of the row is copied from the
      first customer record with that id. */
  lemma {:induction false} CustomerOrderRowsSound(keys: seq<string>, orders: seq<Order>,
                                                 customers: seq<Customer>, threshold: int)
    requires CustomerOrderRows(keys, orders, customers, threshold).Success?
    ensures var rows := CustomerOrderRows(keys, orders, customers, threshold).value;
      forall r :: r in rows ==>
        && r.CustomerOrdersRow?
        && r.productsOrdered == ProductsOrderedBy(orders, r.customerId) > threshold
        && FirstWhere(HasCustomerId(r.customerId), customers).Some?
        && var c := customers[FirstWhere(HasCustomerId(r.customerId), customers).value];
           c.id == r.customerId && r.customerName == c.name
           && r.totalSpent == c.totalSpent && r.joinDate == c.joinDate
  {
    if keys != [] {
      CustomerOrderRowsSound(keys[..|keys| - 1], orders, customers, threshold);
    }
  }

  /** The rows are keyed by exactly the grouped ids whose total exceeds the
      threshold, in the order of `keys`. */
  lemma {:induction false} CustomerOrderRowsKeys(keys: seq<string>, orders: seq<Order>,
                                                customers: seq<Customer>, threshold: int)
    requires CustomerOrderRows(keys, orders, customers, threshold).Success?
    ensures RowKeys(CustomerOrderRows(keys, orders, customers, threshold).value)
            == Filter(Exceeds(orders, threshold), keys)
  {
    if keys != [] {
      var p := keys[..|keys| - 1];
      CustomerOrderRowsKeys(p, orders, customers, threshold);
      var rows := CustomerOrderRows(p, orders, customers, threshold).value;
      var k := keys[|keys| - 1];
      if ProductsOrderedBy(orders, k) > threshold {
        var c := customers[FirstWhere(HasCustomerId(k), customers).value];
        RowKeysSnoc(rows, CustomerOrdersRow(k, c.name, ProductsOrderedBy(orders, k), c.totalSpent, c.joinDate));
      }
    }
  }

  /** The branch raises exactly when some grouped id over the threshold has
      no customer record, and it reports the first such id. */
  lemma {:induction false} CustomerOrderRowsFault(keys: seq<string>, orders: seq<Order>,
                                                 customers: seq<Customer>, threshold: int)
    ensures CustomerOrderRows(keys, orders, customers, threshold).Failure? <==>
            exists i :: 0 <= i < |keys| && Exceeds(orders, threshold)(keys[i])
                        && FirstWhere(HasCustomerId(keys[i]), customers).None?
    ensures CustomerOrderRows(keys, orders, customers, threshold).Failure? ==>
            exists i :: 0 <= i < |keys|
              && CustomerOrderRows(keys, orders, customers, threshold).error == MissingCustomer(keys[i])
              && Exceeds(orders, threshold)(keys[i])
              && FirstWhere(HasCustomerId(keys[i]), customers).None?
              && forall j :: 0 <= j < i && Exceeds(orders, threshold)(keys[j]) ==>
                   FirstWhere(HasCustomerId(keys[j]), customers).Some?
  {
    if keys != [] {
      var n := |keys| - 1;
      var p := keys[..n];
      CustomerOrderRowsFault(p, orders, customers, threshold);
      forall i | 0 <= i < n ensures keys[i] == p[i] { }
    }
  }

  /** When every order names an existing customer (as the sample data
      generator guarantees), the customer_orders branch raises only when the
      window leaves the calendar. */
  lemma CustomerOrdersTotal(data: Dataset, now: int, threshold: int, days: int)
    requires forall o :: o in data.orders ==> exists c :: c in data.customers && c.id == o.customerId
    ensures CustomerOrdersTable(data, now, threshold, days).Success? <==> Cutoff(now, days).Success?
  {
    if Cutoff(now, days).Success? {
      var recent := RecentOrders(data.orders, Cutoff(now, days).value);
      var keys := Distinct(CustomerIds(recent));
      CustomerOrderRowsFault(keys, recent, data.customers, threshold);
      forall i | 0 <= i < |keys| ensures FirstWhere(HasCustomerId(keys[i]), data.customers).Some? {
        var k := keys[i];
        assert k in keys;
        var j :| 0 <= j < |recent| && CustomerIds(recent)[j] == k;
        assert recent[j] in data.orders;
        var c :| c in data.customers && c.id == recent[j].customerId;
        var m :| 0 <= m < |data.customers| && data.customers[m] == c;
        assert HasCustomerId(k)(data.customers[m]);
      }
    }
  }

  /** The branch raises OverflowError exactly when the cutoff leaves the
      calendar; within it, it raises StopIteration exactly when some customer
      id of a recent order has more products than the threshold and no
      customer record. */
  lemma CustomerOrdersFault(data: Dataset, now: int, threshold: int, days: int)
    ensures CustomerOrdersTable(data, now, threshold, days) == Failure(DateOutOfRange)
            <==> Cutoff(now, days).Failure?
    ensures Cutoff(now, days).Success? ==>
      var recent := RecentOrders(data.orders, Cutoff(now, days).value);
      (CustomerOrdersTable(data, now, threshold, days).Failure? <==>
         exists o :: o in recent && ProductsOrderedBy(recent, o.customerId) > threshold
                     && FirstWhere(HasCustomerId(o.customerId), data.customers).None?)
  {
    if Cutoff(now, days).Success? {
      GroupedFault(RecentOrders(data.orders, Cutoff(now, days).value), data.customers, threshold);
    }
  }

  /** The rows of grouped orders fail exactly when some order's customer has
      more products than the threshold and no record. */
  lemma GroupedFault(orders: seq<Order>, customers: seq<Customer>, threshold: int)
    ensures CustomerOrderRows(Distinct(CustomerIds(orders)), orders, customers, threshold).Failure? <==>
            exists o :: o in orders && ProductsOrderedBy(orders, o.customerId) > threshold
                        && FirstWhere(HasCustomerId(o.customerId), customers).None?
  {
    var ids := CustomerIds(orders);
    var keys := Distinct(ids);
    CustomerOrderRowsFault(keys, orders, customers, threshold);
    if CustomerOrderRows(keys, orders, customers, threshold).Failure? {
      var i :| 0 <= i < |keys| && Exceeds(orders, threshold)(keys[i])
               && FirstWhere(HasCustomerId(keys[i]), customers).None?;
      assert keys[i] in ids;
      var j :| 0 <= j < |ids| && ids[j] == keys[i];
      assert orders[j] in orders;
    }
    forall o | o in orders && ProductsOrderedBy(orders, o.customerId) > threshold
               && FirstWhere(HasCustomerId(o.customerId), customers).None?
      ensures CustomerOrderRows(keys, orders, customers, threshold).Failure?
    {
      var j :| 0 <= j < |orders| && orders[j] == o;
      assert ids[j] in keys;
      var i :| 0 <= i < |keys| && keys[i] == ids[j];
      assert Exceeds(orders, threshold)(keys[i]);
    }
  }

  /** The default window of 30 days fits the calendar for any clock at
      least 30 days past `datetime.min`. */
  lemma DefaultWindowFits(now: int)
    requires 30 * MicrosPerDay <= now <= MaxDatetime
    ensures Cutoff(now, 30) == Success(now - 30 * MicrosPerDay)
  {
  }

  /** A window reaching before `datetime.min` raises, as "the last 1000000
      days" does for any clock before the year 2738. */
  lemma WindowBeforeCalendarRaises(now: int, days: int)
    requires 0 <= now <= MaxDatetime && now < days * MicrosPerDay
    ensures CustomerOrdersTable(Dataset([], [], []), now, 2, days) == Failure(DateOutOfRange)
    ensures now < 1_000_000 * MicrosPerDay ==> Cutoff(now, 1_000_000) == Failure(DateOutOfRange)
  {
  }

  // ============================================= high_value_customers branch

  /** `customer['total_spent'] > amount`, in cents. */
  function IsHighValue(amount: int): Customer -> bool {
    (c: Customer) => c.totalSpent > amount * 100
  }

  function HighValueRowOf(c: Customer): Row {
    HighValueRow(c.id, c.name, c.totalSpent, c.totalOrders, c.joinDate)
  }

  function HighValueRows(cs: seq<Customer>): seq<Row> {
    if cs == [] then [] else HighValueRows(cs[..|cs| - 1]) + [HighValueRowOf(cs[|cs| - 1])]
  }

  /** The high_value_customers table: one row per qualifying customer, in
      dataset order. */
  function HighValueTable(customers: seq<Customer>, amount: int): seq<Row> {
    HighValueRows(Filter(IsHighValue(amount), customers))
  }

  /** Lines 156-170. */
  method HighValueCustomers(customers: seq<Customer>, amount: int) returns (results: seq<Row>)
    ensures results == HighValueTable(customers, amount)
  {
    results := [];
    for i := 0 to |customers|
      invariant results == HighValueTable(customers[..i], amount)
    {
      var customer := customers[i];
      HighValueSnoc(customers, i, amount);
      if customer.totalSpent > amount * 100 {
        results := results + [HighValueRowOf(customer)];
      }
    }
    assert customers[..|customers|] == customers;
  }

  /** One more customer adds its row to the table when it qualifies. */
  lemma HighValueSnoc(customers: seq<Customer>, i: nat, amount: int)
    requires i < |customers|
    ensures HighValueTable(customers[..i + 1], amount)
         == HighValueTable(customers[..i], amount)
          + (if IsHighValue(amount)(customers[i]) then [HighValueRowOf(customers[i])] else [])
  {
    var c := customers[i];
    assert customers[..i + 1][..i] == customers[..i];
    var f := Filter(IsHighValue(amount), customers[..i]);
    if IsHighValue(amount)(c) {
      assert Filter(IsHighValue(amount), customers[..i + 1]) == f + [c];
      assert (f + [c])[..|f|] == f;
    } else {
      assert Filter(IsHighValue(amount), customers[..i + 1]) == f + [];
      assert f + [] == f;
    }
  }

  lemma {:induction false} HighValueRowsAt(cs: seq<Customer>)
    ensures |HighValueRows(cs)| == |cs|
    ensures forall i :: 0 <= i < |cs| ==> HighValueRows(cs)[i] == HighValueRowOf(cs[i])
  {
    if cs != [] {
      HighValueRowsAt(cs[..|cs| - 1]);
    }
  }

  /** The table lists exactly the customers whose total spent exceeds the
      amount, in dataset order, each row copied from its record. */
  lemma HighValueExact(customers: seq<Customer>, amount: int)
    ensures var rows := HighValueTable(customers, amount);
      var f := Filter(IsHighValue(amount), customers);
      && |rows| == |f|
      && (forall i :: 0 <= i < |f| ==> rows[i] == HighValueRowOf(f[i]))
      && (forall c :: c in f <==> c in customers && c.totalSpent > amount * 100)
  {
    HighValueRowsAt(Filter(IsHighValue(amount), customers));
  }

  // =============================================== product_popularity branch

  /** The number of `random.choice` calls the loop at lines 177-183 makes. */
  function TotalProductCount(orders: seq<Order>): nat {
    if orders == [] then 0
    else TotalProductCount(orders[..|orders| - 1]) + orders[|orders| - 1].productCount
  }

  lemma {:induction false} TotalProductCountPrefix(orders: seq<Order>, i: nat)
    requires i < |orders|
    ensures TotalProductCount(orders[..i + 1]) == TotalProductCount(orders[..i]) + orders[i].productCount
    ensures TotalProductCount(orders[..i + 1]) <= TotalProductCount(orders)
    decreases |orders| - i
  {
    assert orders[..i + 1][..i] == orders[..i];
    if i + 1 < |orders| {
      TotalProductCountPrefix(orders, i + 1);
    } else {
      assert orders[..i + 1] == orders;
    }
  }

  /** The outcomes of `random.choice(products)`, one product index per call,
      in call order; with an empty catalog the first call raises, whatever
      the draws say. */
  predicate DrawsFit(products: seq<Product>, orders: seq<Order>, draws: seq<nat>) {
    && |draws| == TotalProductCount(orders)
    && (products != [] ==> forall i :: 0 <= i < |draws| ==> draws[i] < |products|)
  }

  /** The ids of the drawn products. */
  function PickedIds(products: seq<Product>, draws: seq<nat>): (r: seq<string>)
    requires forall i :: 0 <= i < |draws| ==> draws[i] < |products|
    ensures |r| == |draws| && forall i :: 0 <= i < |draws| ==> r[i] == products[draws[i]].id
  {
    seq(|draws|, i requires 0 <= i < |draws| => products[draws[i]].id)
  }

  function HasProductId(id: string): Product -> bool {
    (p: Product) => p.id == id
  }

  function Popular(picked: seq<string>, count: int): string -> bool {
    (id: string) => Count(picked, id) > count
  }

  /** The rows for the counted product ids `keys` (in dict order): an id
      drawn more than `count` times yields a row built from the first product
      with that id. */
  function PopularityRows(keys: seq<string>, picked: seq<string>, products: seq<Product>,
                          count: int): seq<Row>
    requires forall k :: k in keys ==> FirstWhere(HasProductId(k), products).Some?
  {
    if keys == [] then []
    else
      var k := keys[|keys| - 1];
      var rows := PopularityRows(keys[..|keys| - 1], picked, products, count);
      var n := Count(picked, k);
      if n > count then
        var p := products[FirstWhere(HasProductId(k), products).value];
        rows + [PopularityRow(k, p.name, n, p.price, p.category)]
      else rows
  }

  /** Every drawn id belongs to a product, so `next` at line 188 finds one. */
  lemma PickedHaveProducts(products: seq<Product>, draws: seq<nat>)
    requires forall i :: 0 <= i < |draws| ==> draws[i] < |products|
    ensures forall k :: k in Distinct(PickedIds(products, draws)) ==>
              FirstWhere(HasProductId(k), products).Some?
  {
    var picked := PickedIds(products, draws);
    forall k | k in Distinct(picked) ensures FirstWhere(HasProductId(k), products).Some? {
      var i :| 0 <= i < |picked| && picked[i] == k;
      assert HasProductId(k)(products[draws[i]]);
    }
  }

  /** The product_popularity table for the given draws. */
  function PopularityTable(data: Dataset, draws: seq<nat>, count: int): Table
    requires DrawsFit(data.products, data.orders, draws)
  {
    if data.products == [] && draws != [] then Failure(EmptyCatalog)
    else
      var picked := PickedIds(data.products, draws);
      PickedHaveProducts(data.products, draws);
      Success(PopularityRows(Distinct(picked), picked, data.products, count))
  }

  /** Lines 172-197. */
  method ProductPopularity(data: Dataset, draws: seq<nat>, count: int) returns (r: Table)
    requires DrawsFit(data.products, data.orders, draws)
    ensures r == PopularityTable(data, draws, count)
  {
    var raised, keys, counts := TallyDraws(data, draws);
    if raised {
      return Failure(EmptyCatalog);
    }
    PickedHaveProducts(data.products, draws);
    var results := PopularityResults(keys, counts, PickedIds(data.products, draws), data.products, count);
    r := Success(results);
  }

  /** Lines 176-183: the loops that count the drawn product ids into the
      dict `product_orders`; `raised` is the IndexError of `random.choice` on
      an empty catalog. */
  method TallyDraws(data: Dataset, draws: seq<nat>)
    returns (raised: bool, keys: seq<string>, counts: map<string, int>)
    requires DrawsFit(data.products, data.orders, draws)
    ensures raised <==> data.products == [] && draws != []
    ensures !raised ==> Tallied(PickedIds(data.products, draws), keys, counts)
  {
    ghost var ids := if data.products == [] then seq(|draws|, _ => "") else PickedIds(data.products, draws);
    keys, counts := [], map[];
    var pos := 0;
    for i := 0 to |data.orders|
      invariant pos == TotalProductCount(data.orders[..i]) <= |draws|
      invariant pos == 0 || data.products != []
      invariant Tallied(ids[..pos], keys, counts)
    {
      TotalProductCountPrefix(data.orders, i);
      var n := data.orders[i].productCount;
      if n > 0 && |data.products| == 0 {
        // The first `random.choice` on the empty catalog raises.
        return true, keys, counts;
      }
      keys, counts := DrawProducts(data.products, draws, ids, pos, n, keys, counts);
      pos := pos + n;
    }
    assert data.orders[..|data.orders|] == data.orders;
    assert ids[..pos] == ids;
    raised := false;
  }

  /** The inner loop at lines 179-183: the `n` draws of one order, counted
      into the dict; `ids` are the ids of the drawn products. */
  method DrawProducts(products: seq<Product>, draws: seq<nat>, ghost ids: seq<string>, pos: nat, n: nat,
                      keys: seq<string>, counts: map<string, int>)
    returns (keys': seq<string>, counts': map<string, int>)
    requires pos + n <= |draws| == |ids|
    requires forall i :: pos <= i < pos + n ==> draws[i] < |products| && ids[i] == products[draws[i]].id
    requires Tallied(ids[..pos], keys, counts)
    ensures Tallied(ids[..pos + n], keys', counts')
  {
    keys', counts' := keys, counts;
    for j := 0 to n
      invariant Tallied(ids[..pos + j], keys', counts')
    {
      var product := products[draws[pos + j]];
      ghost var keys0, counts0 := keys', counts';
      if product.id !in counts' {
        keys' := keys' + [product.id];
        counts' := counts'[product.id := 0];
      }
      counts' := counts'[product.id := counts'[product.id] + 1];
      InsertThenIncrement(counts0, product.id);
      TallyAt(ids, pos + j, keys0, counts0);
    }
  }


  /** The loop at lines 186-195 over the counted ids. */
  method PopularityResults(keys: seq<string>, counts: map<string, int>, picked: seq<string>,
                           products: seq<Product>, count: int) returns (results: seq<Row>)
    requires Tallied(picked, keys, counts)
    requires forall k :: k in keys ==> FirstWhere(HasProductId(k), products).Some?
    ensures results == PopularityRows(keys, picked, products, count)
  {
    results := [];
    for i := 0 to |keys|
      invariant results == PopularityRows(keys[..i], picked, products, count)
    {
      assert keys[..i + 1][..i] == keys[..i];
      var id := keys[i];
      var orderCount := counts[id];
      if orderCount > count {
        var product := products[FirstWhere(HasProductId(id), products).value];
        results := results + [PopularityRow(id, product.name, orderCount, product.price,
                                            product.category)];
      }
    }
    assert keys[..|keys|] == keys;
  }

  /** Conservation: whatever products the draws pick, the per-product counts
      add up to the total `product_count` of all orders. */
  lemma PopularityConserves(data: Dataset, draws: seq<nat>)
    requires DrawsFit(data.products, data.orders, draws)
    requires data.products != []
    ensures var picked := PickedIds(data.products, draws);
      CountsOver(Distinct(picked), picked) == TotalProductCount(data.orders)
  {
    var picked := PickedIds(data.products, draws);
    CountsOverTotal(Distinct(picked), picked);
  }

  /** The rows are keyed by exactly the counted ids drawn more than `count`
      times, in dict order, each with its count and its product's fields. */
  lemma {:induction false} PopularityRowsExact(keys: seq<string>, picked: seq<string>,
                                              products: seq<Product>, count: int)
    requires forall k :: k in keys ==> FirstWhere(HasProductId(k), products).Some?
    ensures var rows := PopularityRows(keys, picked, products, count);
      && RowKeys(rows) == Filter(Popular(picked, count), keys)
      && forall r :: r in rows ==>
           && r.PopularityRow?
           && r.ordersCount == Count(picked, r.productId) > count
           && FirstWhere(HasProductId(r.productId), products).Some?
           && var p := products[FirstWhere(HasProductId(r.productId), products).value];
              p.id == r.productId && r.productName == p.name
              && r.price == p.price && r.category == p.category
  {
    if keys != [] {
      var p := keys[..|keys| - 1];
      PopularityRowsExact(p, picked, products, count);
      var rows := PopularityRows(p, picked, products, count);
      var k := keys[|keys| - 1];
      if Count(picked, k) > count {
        var q := products[FirstWhere(HasProductId(k), products).value];
        RowKeysSnoc(rows, PopularityRow(k, q.name, Count(picked, k), q.price, q.category));
      }
    }
  }

  /** With an empty catalog the branch raises exactly when some order asks
      for a product. */
  lemma PopularityEmptyCatalog(data: Dataset, draws: seq<nat>, count: int)
    requires DrawsFit(data.products, data.orders, draws) && data.products == []
    ensures PopularityTable(data, draws, count).Failure? <==> TotalProductCount(data.orders) > 0
  {
  }

  // ================================================ category_analysis branch

  function Categories(products: seq<Product>): (r: seq<string>)
    ensures |r| == |products| && forall i :: 0 <= i < |products| ==> r[i] == products[i].category
  {
    seq(|products|, i requires 0 <= i < |products| => products[i].category)
  }

  /** `category_prices[c]`: the prices of the products in category `c`, in
      dataset order. */
  function PricesIn(products: seq<Product>, c: string): seq<int> {
    if products == [] then []
    else
      var p := products[|products| - 1];
      PricesIn(products[..|products| - 1], c) + (if p.category == c then [p.price] else [])
  }

  /** A category has as many prices as it has products. */
  lemma {:induction false} PricesInCount(products: seq<Product>, c: string)
    ensures |PricesIn(products, c)| == Count(Categories(products), c)
  {
    if products != [] {
      var n := |products| - 1;
      assert Categories(products)[..n] == Categories(products[..n]);
      PricesInCount(products[..n], c);
    }
  }

  ghost predicate PricesGrouped(products: seq<Product>, keys: seq<string>,
                                prices: map<string, seq<int>>) {
    && keys == Distinct(Categories(products))
    && (forall k :: k in prices <==> k in keys)
    && (forall k :: k in prices ==> prices[k] == PricesIn(products, k))
  }

  /** The loop at lines 203-208. */
  method GroupPrices(products: seq<Product>) returns (keys: seq<string>, prices: map<string, seq<int>>)
    ensures PricesGrouped(products, keys, prices)
  {
    keys, prices := [], map[];
    for i := 0 to |products|
      invariant PricesGrouped(products[..i], keys, prices)
    {
      ghost var keys0, prices0 := keys, prices;
      var cat := products[i].category;
      if cat !in prices {
        keys := keys + [cat];
        prices := prices[cat := []];
      }
      prices := prices[cat := prices[cat] + [products[i].price]];
      PricesStep(products, i, keys0, prices0);
    }
    assert products[..|products|] == products;
  }

  lemma PricesStep(products: seq<Product>, i: nat, keys: seq<string>, prices: map<string, seq<int>>)
    requires i < |products| && PricesGrouped(products[..i], keys, prices)
    ensures var c := products[i].category;
      PricesGrouped(products[..i + 1],
                    if c in prices then keys else keys + [c],
                    prices[c := (if c in prices then prices[c] else []) + [products[i].price]])
  {
    var c := products[i].category;
    var s0, s1 := products[..i], products[..i + 1];
    var cs := Categories(s1);
    assert s1[..i] == s0;
    assert cs[..|cs| - 1] == Categories(s0) && cs[|cs| - 1] == c;
    assert Distinct(cs) == if c in keys then keys else keys + [c];
    forall k ensures PricesIn(s1, k) == PricesIn(s0, k) + (if k == c then [products[i].price] else []) {
      PricesInSnoc(products, i, k);
    }
    if c !in prices {
      PricesInCount(s0, c);
    }
  }

  lemma PricesInSnoc(products: seq<Product>, i: nat, k: string)
    requires i < |products|
    ensures PricesIn(products[..i + 1], k)
         == PricesIn(products[..i], k) + (if k == products[i].category then [products[i].price] else [])
  {
    assert products[..i + 1][..i] == products[..i];
  }

  /** `sum(prices) / len(prices)`, in cents. */
  function MeanPrice(ps: seq<int>): real
    requires ps != []
  {
    Sum(ps) as real / |ps| as real
  }

  /** Whether category `c` passes the test `avg_price > price` of line 213,
      written without the division: its sum of prices exceeds `price`
      dollars for each of its products, which for a non-empty category is
      the same test (`MeanAboveIff`). */
  function MeanAbove(products: seq<Product>, price: int): string -> bool {
    (c: string) => |PricesIn(products, c)| > 0 && Sum(PricesIn(products, c)) > price * 100 * |PricesIn(products, c)|
  }

  /** The mean of a non-empty price list is above `price` dollars exactly
      when its sum is above `price` dollars per price. */
  lemma MeanAboveIff(ps: seq<int>, price: int)
    requires ps != []
    ensures MeanPrice(ps) > (price * 100) as real <==> Sum(ps) > price * 100 * |ps|
  {
    var t, n := price * 100, |ps|;
    assert (t * n) as real == t as real * n as real;
    QuotientAbove(Sum(ps) as real, n as real, t as real);
  }

  lemma QuotientAbove(s: real, n: real, t: real)
    requires n > 0.0
    ensures s / n > t <==> s > t * n
  {
    var q := s / n;
    assert q * n == s;
    assert (q - t) * n == s - t * n;
    if q > t {
      ProductPositive(q - t, n);
    } else {
      ProductNotPositive(q - t, n);
    }
  }

  lemma ProductPositive(a: real, n: real)
    requires a > 0.0 && n > 0.0
    ensures a * n > 0.0
  {
  }

  lemma ProductNotPositive(a: real, n: real)
    requires a <= 0.0 && n > 0.0
    ensures a * n <= 0.0
  {
  }

  /** The row of category `c`: its mean price, its number of products and
      its lowest and highest price. */
  function CategoryRowOf(products: seq<Product>, c: string): (r: Row)
    requires PricesIn(products, c) != []
    ensures RowKey(r) == c
  {
    var ps := PricesIn(products, c);
    CategoryRow(c, MeanPrice(ps), |ps|, Min(ps), Max(ps))
  }

  /** The rows for the grouped categories `keys` (in dict order): a category
      whose mean price is above `price` yields its mean, count, minimum and
      maximum. The mean is taken of a non-empty price list only, which every
      grouped category has (`CategoriesNonEmpty`). */
  function CategoryRows(keys: seq<string>, products: seq<Product>, price: int): seq<Row> {
    if keys == [] then []
    else
      var k := keys[|keys| - 1];
      var rows := CategoryRows(keys[..|keys| - 1], products, price);
      var ps := PricesIn(products, k);
      if MeanAbove(products, price)(k) then
        rows + [CategoryRowOf(products, k)]
      else rows
  }

  /** Every grouped category has at least one product. */
  lemma CategoriesNonEmpty(products: seq<Product>)
    ensures forall k :: k in Distinct(Categories(products)) ==> PricesIn(products, k) != []
  {
    forall k | k in Distinct(Categories(products)) ensures PricesIn(products, k) != [] {
      PricesInCount(products, k);
    }
  }

  /** The category_analysis table. */
  function CategoryTable(products: seq<Product>, price: int): seq<Row> {
    CategoryRows(Distinct(Categories(products)), products, price)
  }

  /** One more category adds its row when its mean is above the price. */
  lemma CategoryRowsSnoc(keys: seq<string>, i: nat, products: seq<Product>, price: int)
    requires i < |keys|
    ensures CategoryRows(keys[..i + 1], products, price)
         == CategoryRows(keys[..i], products, price)
          + (if MeanAbove(products, price)(keys[i]) then [CategoryRowOf(products, keys[i])] else [])
  {
    assert keys[..i + 1][..i] == keys[..i];
  }

  /** One turn of the loop at lines 211-221, in the loop's own terms. */
  lemma CategoryStep(products: seq<Product>, price: int, keys: seq<string>,
                     prices: map<string, seq<int>>, i: nat)
    requires PricesGrouped(products, keys, prices) && i < |keys|
    ensures keys[i] in prices && prices[keys[i]] != []
    ensures var ps := prices[keys[i]]; var avg := Sum(ps) as real / |ps| as real;
      CategoryRows(keys[..i + 1], products, price)
        == CategoryRows(keys[..i], products, price)
         + (if avg > (price * 100) as real
            then [CategoryRow(keys[i], avg, |ps|, Min(ps), Max(ps))] else [])
  {
    CategoriesNonEmpty(products);
    assert keys[i] in keys;
    CategoryRowsSnoc(keys, i, products, price);
    MeanAboveIff(prices[keys[i]], price);
  }

  method CategoryAnalysis(products: seq<Product>, price: int) returns (results: seq<Row>)
    ensures results == CategoryTable(products, price)
  {
    var keys, prices := GroupPrices(products);
    results := [];
    for i := 0 to |keys|
      invariant results == CategoryRows(keys[..i], products, price)
    {
      var category := keys[i];
      var ps := prices[category];
      CategoryStep(products, price, keys, prices, i);
      var avg := Sum(ps) as real / |ps| as real;
      if avg > (price * 100) as real {
        results := results + [CategoryRow(category, avg, |ps|, Min(ps), Max(ps))];
      }
    }
    assert keys[..|keys|] == keys;
  }

  /** The mean of the prices lies between their minimum and maximum. */
  lemma MeanBounds(ps: seq<int>)
    requires ps != []
    ensures Min(ps) as real <= MeanPrice(ps) <= Max(ps) as real
  {
    SumBounds(ps);
    MeanAtLeast(Sum(ps), |ps|, Min(ps));
    MeanAtMost(Sum(ps), |ps|, Max(ps));
  }

  lemma MeanAtLeast(s: int, n: int, lo: int)
    requires n > 0 && n * lo <= s
    ensures lo as real <= s as real / n as real
  {
    var a := n * lo;
    assert a as real == n as real * lo as real;
    var q := s as real / n as real;
    assert q * n as real == s as real;
    assert n as real * (q - lo as real) >= 0.0;
  }

  lemma MeanAtMost(s: int, n: int, hi: int)
    requires n > 0 && s <= n * hi
    ensures s as real / n as real <= hi as real
  {
    var b := n * hi;
    assert b as real == n as real * hi as real;
    var q := s as real / n as real;
    assert q * n as real == s as real;
    assert n as real * (hi as real - q) >= 0.0;
  }

  /** The rows are keyed by exactly the categories whose mean is above the
      price, in dict order. */
  lemma {:induction false} CategoryRowsKeys(keys: seq<string>, products: seq<Product>, price: int)
    ensures RowKeys(CategoryRows(keys, products, price)) == Filter(MeanAbove(products, price), keys)
  {
    if keys != [] {
      var p, k := keys[..|keys| - 1], keys[|keys| - 1];
      CategoryRowsKeys(p, products, price);
      if MeanAbove(products, price)(k) {
        RowKeysSnoc(CategoryRows(p, products, price), CategoryRowOf(products, k));
      }
    }
  }

  /** What a category row states: its category's product count (at least
      one), a mean above the price, between its minimum and maximum price. */
  predicate CategoryRowSound(r: Row, products: seq<Product>, price: int) {
    && r.CategoryRow?
    && r.productCount == Count(Categories(products), r.category) >= 1
    && PricesIn(products, r.category) != []
    && r.averagePrice == MeanPrice(PricesIn(products, r.category)) > (price * 100) as real
    && r.minPrice as real <= r.averagePrice <= r.maxPrice as real
  }

  lemma CategoryRowOfSound(products: seq<Product>, k: string, price: int)
    requires PricesIn(products, k) != []
    requires MeanPrice(PricesIn(products, k)) > (price * 100) as real
    ensures CategoryRowSound(CategoryRowOf(products, k), products, price)
  {
    PricesInCount(products, k);
    MeanBounds(PricesIn(products, k));
  }

  /** Every row of the table is sound in that sense. */
  lemma {:induction false} CategoryRowsSound(keys: seq<string>, products: seq<Product>, price: int)
    ensures forall r :: r in CategoryRows(keys, products, price) ==> CategoryRowSound(r, products, price)
  {
    if keys != [] {
      var p := keys[..|keys| - 1];
      CategoryRowsSound(p, products, price);
      var k := keys[|keys| - 1];
      if MeanAbove(products, price)(k) {
        MeanAboveIff(PricesIn(products, k), price);
        CategoryRowOfSound(products, k, price);
      }
    }
  }

  // ========================================================= default branch

  /** `pd.DataFrame(self.sample_data['customers'])`. */
  function AllCustomers(customers: seq<Customer>): seq<Row> {
    seq(|customers|, i requires 0 <= i < |customers| => CustomerRecord(customers[i]))
  }

  function Records(rows: seq<Row>): seq<Customer>
    requires forall r :: r in rows ==> r.CustomerRecord?
  {
    seq(|rows|, i requires 0 <= i < |rows| => rows[i].customer)
  }

  /** The default table is the customer list itself, unchanged and in order. */
  lemma AllCustomersUnchanged(customers: seq<Customer>)
    ensures forall r :: r in AllCustomers(customers) ==> r.CustomerRecord?
    ensures Records(AllCustomers(customers)) == customers
  {
  }

  // ==================================================================== dispatch

  /** `execute_query`: the branch chosen by the 'type' entry, each number
      read with its default. */
  function Execute(data: Dataset, now: int, draws: seq<nat>, q: ParsedQuery): Table
    requires q.kind == Some("product_popularity") ==> DrawsFit(data.products, data.orders, draws)
  {
    var p := q.params;
    if q.kind == Some("customer_orders") then
      CustomerOrdersTable(data, now, Get(p, "threshold", 2), Get(p, "days", 30))
    else if q.kind == Some("high_value_customers") then
      Success(HighValueTable(data.customers, Get(p, "amount", 500)))
    else if q.kind == Some("product_popularity") then
      PopularityTable(data, draws, Get(p, "count", 3))
    else if q.kind == Some("category_analysis") then
      Success(CategoryTable(data.products, Get(p, "price", 100)))
    else
      Success(AllCustomers(data.customers))
  }

  /** Lines 118-226. */
  method ExecuteQuery(data: Dataset, now: int, draws: seq<nat>, q: ParsedQuery) returns (r: Table)
    requires q.kind == Some("product_popularity") ==> DrawsFit(data.products, data.orders, draws)
    ensures r == Execute(data, now, draws, q)
  {
    var queryType := q.kind;
    if queryType == Some("customer_orders") {
      var threshold := Get(q.params, "threshold", 2);
      var days := Get(q.params, "days", 30);
      r := CustomerOrders(data, now, threshold, days);
    } else if queryType == Some("high_value_customers") {
      var amount := Get(q.params, "amount", 500);
      var rows := HighValueCustomers(data.customers, amount);
      r := Success(rows);
    } else if queryType == Some("product_popularity") {
      var count := Get(q.params, "count", 3);
      r := ProductPopularity(data, draws, count);
    } else if queryType == Some("category_analysis") {
      var price := Get(q.params, "price", 100);
      var rows := CategoryAnalysis(data.products, price);
      r := Success(rows);
    } else {
      r := Success(AllCustomers(data.customers));
    }
  }

  /** Omitted parameters take the defaults: threshold 2 and days 30. */
  lemma DefaultCustomerOrders(data: Dataset, now: int, draws: seq<nat>)
    ensures Execute(data, now, draws, ParsedQuery(Some("customer_orders"), map[]))
            == CustomerOrdersTable(data, now, 2, 30)
  {
  }

  /** Amount 500. */
  lemma DefaultHighValue(data: Dataset, now: int, draws: seq<nat>)
    ensures Execute(data, now, draws, ParsedQuery(Some("high_value_customers"), map[]))
            == Success(HighValueTable(data.customers, 500))
  {
  }

  /** Count 3. */
  lemma DefaultPopularity(data: Dataset, now: int, draws: seq<nat>)
    requires DrawsFit(data.products, data.orders, draws)
    ensures Execute(data, now, draws, ParsedQuery(Some("product_popularity"), map[]))
            == PopularityTable(data, draws, 3)
  {
  }

  /** Price 100. */
  lemma DefaultCategory(data: Dataset, now: int, draws: seq<nat>)
    ensures Execute(data, now, draws, ParsedQuery(Some("category_analysis"), map[]))
            == Success(CategoryTable(data.products, 100))
  {
  }

  /** A missing, custom or unknown type returns the full customer list. */
  lemma ExecuteFallback(data: Dataset, now: int, draws: seq<nat>, q: ParsedQuery)
    requires q.kind !in {Some("customer_orders"), Some("high_value_customers"),
                         Some("product_popularity"), Some("category_analysis")}
    ensures Execute(data, now, draws, q) == Success(AllCustomers(data.customers))
    ensures Records(Execute(data, now, draws, q).value) == data.customers
  {
    AllCustomersUnchanged(data.customers);
  }

  /** Executing a parsed query runs the branch of its intent with the
      numbers the parser extracted; a custom query lists every customer. */
  lemma ExecuteParsed(data: Dataset, now: int, draws: seq<nat>, query: string)
    requires DrawsFit(data.products, data.orders, draws)
    ensures var q := AsParsedQuery(ParseQuery(query));
      match ParseQuery(query)
      case CustomerOrders(t, d) => Execute(data, now, draws, q) == CustomerOrdersTable(data, now, t, d)
      case HighValueCustomers(a) => Execute(data, now, draws, q) == Success(HighValueTable(data.customers, a))
      case ProductPopularity(c) => Execute(data, now, draws, q) == PopularityTable(data, draws, c)
      case CategoryAnalysis(p) => Execute(data, now, draws, q) == Success(CategoryTable(data.products, p))
      case Custom(_) => Execute(data, now, draws, q) == Success(AllCustomers(data.customers))
  {
  }
}
