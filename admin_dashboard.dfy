/**
 * The admin dashboard's order logic: the headline statistics, the status pie
 * chart, per-category sales of completed orders, category colours, the
 * reducer that applies an `orderStatusUpdate` event to the order list, and
 * the rule that a status change is broadcast only after the HTTP update
 * succeeded.
 *
 * Statuses are plain strings: the dashboard stores whatever status an event
 * carries. Amounts and prices are whole numbers.
 */
module AdminDashboard {
  import opened Wrappers

  const PENDING := "PENDING"
  const PREPARING := "PREPARING"
  const READY := "READY"
  const COMPLETED := "COMPLETED"
  const CANCELLED := "CANCELLED"

  datatype OrderLine = OrderLine(id: string, quantity: int, price: int, name: string, category: string)

  datatype Order = Order(id: string, orderNumber: string, status: string, totalAmount: int, items: seq<OrderLine>)

  datatype Stats = Stats(totalOrders: nat, pendingOrders: nat, preparingOrders: nat, readyOrders: nat, totalRevenue: int)

  datatype Slice = Slice(name: string, value: int, color: string)

  datatype CategoryTotal = CategoryTotal(category: string, sales: int)

  // ---------------------------------------------------------------------
  // Statistics

  /** The number of orders whose status is exactly `status`. */
  function CountStatus(orders: seq<Order>, status: string): nat
  {
    if orders == [] then 0
    else CountStatus(orders[..|orders| - 1], status) + (if orders[|orders| - 1].status == status then 1 else 0)
  }

  /** The number of orders that are neither pending, preparing nor ready. */
  function CountRest(orders: seq<Order>): nat
  {
    if orders == [] then 0
    else
      var s := orders[|orders| - 1].status;
      CountRest(orders[..|orders| - 1]) + (if s != PENDING && s != PREPARING && s != READY then 1 else 0)
  }

  /** The sum of `totalAmount` over the completed orders. */
  function Revenue(orders: seq<Order>): int
  {
    if orders == [] then 0
    else
      var o := orders[|orders| - 1];
      Revenue(orders[..|orders| - 1]) + (if o.status == COMPLETED then o.totalAmount else 0)
  }

  /** `calculateStats`: the dashboard's headline counts and revenue. */
  function CalculateStats(orders: seq<Order>): (s: Stats)
    ensures s.pendingOrders + s.preparingOrders + s.readyOrders <= s.totalOrders == |orders|
  {
    StatusCountsPartition(orders);
    Stats(|orders|, CountStatus(orders, PENDING), CountStatus(orders, PREPARING), CountStatus(orders, READY), Revenue(orders))
  }

  /** Every order is pending, preparing, ready, or one of the rest. */
  lemma {:induction false} StatusCountsPartition(orders: seq<Order>)
    ensures CountStatus(orders, PENDING) + CountStatus(orders, PREPARING) + CountStatus(orders, READY) + CountRest(orders) == |orders|
  {
    if orders != [] {
      StatusCountsPartition(orders[..|orders| - 1]);
    }
  }

  /** Completed and cancelled orders are both among the rest. */
  lemma {:induction false} RestHoldsCompletedAndCancelled(orders: seq<Order>)
    ensures CountStatus(orders, COMPLETED) + CountStatus(orders, CANCELLED) <= CountRest(orders)
  {
    if orders != [] {
      RestHoldsCompletedAndCancelled(orders[..|orders| - 1]);
    }
  }

  /** Revenue adds up over a split of the order list. */
  lemma {:induction false} RevenueAppend(a: seq<Order>, b: seq<Order>)
    ensures Revenue(a + b) == Revenue(a) + Revenue(b)
    decreases |b|
  {
    if b == [] {
      assert a + b == a;
    } else {
      assert (a + b)[..|a + b| - 1] == a + b[..|b| - 1];
      RevenueAppend(a, b[..|b| - 1]);
    }
  }

  /**
   * Revenue counts completed orders only: a single order contributes its
   * amount when completed and nothing otherwise, and contributions add up.
   */
  lemma RevenueOnlyCompleted(a: seq<Order>, o: Order, b: seq<Order>)
    ensures Revenue(a + [o] + b) == Revenue(a) + (if o.status == COMPLETED then o.totalAmount else 0) + Revenue(b)
  {
    RevenueAppend(a + [o], b);
    RevenueAppend(a, [o]);
    assert [o][..0] == [];
  }

  // ---------------------------------------------------------------------
  // Status pie chart

  /** `getOrderStatusData`: four slices; the "Completed" slice is what is left after the other three. */
  function OrderStatusData(stats: Stats): (r: seq<Slice>)
    ensures |r| == 4 && r[0].value + r[1].value + r[2].value + r[3].value == stats.totalOrders
    ensures r[0].name == "Pending" && r[0].value == stats.pendingOrders
    ensures r[1].name == "Preparing" && r[1].value == stats.preparingOrders
    ensures r[2].name == "Ready" && r[2].value == stats.readyOrders
    ensures r[3].name == "Completed"
  {
    [ Slice("Pending", stats.pendingOrders, "#eab308"),
      Slice("Preparing", stats.preparingOrders, "#3b82f6"),
      Slice("Ready", stats.readyOrders, "#22c55e"),
      Slice("Completed", stats.totalOrders - stats.pendingOrders - stats.preparingOrders - stats.readyOrders, "#6b7280") ]
  }

  /**
   * For statistics computed from an order list, the "Completed" slice counts
   * every order that is not pending, preparing or ready: it is never
   * negative, and it includes the cancelled orders as well as the completed ones.
   */
  lemma CompletedSliceIsRest(orders: seq<Order>)
    ensures var slice := OrderStatusData(CalculateStats(orders))[3];
      slice.value == CountRest(orders) >= 0
      && slice.value >= CountStatus(orders, COMPLETED) + CountStatus(orders, CANCELLED)
  {
    StatusCountsPartition(orders);
    RestHoldsCompletedAndCancelled(orders);
  }

  // ---------------------------------------------------------------------
  // Sales per category

  /** The category an order line is booked under: its own, or `Other` when empty. */
  function LineCategory(line: OrderLine): (c: string)
    ensures c != ""
    ensures line.category == "" ==> c == "Other"
    ensures line.category != "" ==> c == line.category
  {
    if line.category == "" then "Other" else line.category
  }

  /** A line's sales: price times quantity. */
  function LineTotal(line: OrderLine): int
  {
    line.price * line.quantity
  }

  /** Sales (price times quantity) of the lines booked under `category`. */
  function LinesSales(lines: seq<OrderLine>, category: string): int
  {
    if lines == [] then 0
    else
      var l := lines[|lines| - 1];
      LinesSales(lines[..|lines| - 1], category) + (if LineCategory(l) == category then LineTotal(l) else 0)
  }

  function LinesCategories(lines: seq<OrderLine>): set<string>
  {
    if lines == [] then {} else LinesCategories(lines[..|lines| - 1]) + {LineCategory(lines[|lines| - 1])}
  }

  /** Sales of `category` over the completed orders. */
  function CategorySales(orders: seq<Order>, category: string): int
  {
    if orders == [] then 0
    else
      var o := orders[|orders| - 1];
      CategorySales(orders[..|orders| - 1], category) + (if o.status == COMPLETED then LinesSales(o.items, category) else 0)
  }

  /** The categories that occur in completed orders. */
  function SoldCategories(orders: seq<Order>): set<string>
  {
    if orders == [] then {}
    else
      var o := orders[|orders| - 1];
      SoldCategories(orders[..|orders| - 1]) + (if o.status == COMPLETED then LinesCategories(o.items) else {})
  }

  predicate NonIncreasing(s: seq<CategoryTotal>)
  {
    forall i, j :: 0 <= i < j < |s| ==> s[i].sales >= s[j].sales
  }

  predicate DistinctCategories(s: seq<CategoryTotal>)
  {
    forall i, j :: 0 <= i < j < |s| ==> s[i].category != s[j].category
  }

  /** In a sorted sequence no entry sells more than the first. */
  lemma HeadBound(s: seq<CategoryTotal>)
    requires NonIncreasing(s) && s != []
    ensures forall x :: x in s ==> x.sales <= s[0].sales
  {
    forall x | x in s ensures x.sales <= s[0].sales {
      var k :| 0 <= k < |s| && s[k] == x;
    }
  }

  lemma ConsNonIncreasing(h: CategoryTotal, t: seq<CategoryTotal>)
    requires NonIncreasing(t)
    requires forall x :: x in t ==> x.sales <= h.sales
    ensures NonIncreasing([h] + t)
  {
    forall i, j | 0 <= i < j < |[h] + t| ensures ([h] + t)[i].sales >= ([h] + t)[j].sales {
      if i == 0 {
        assert ([h] + t)[j] == t[j - 1] && t[j - 1] in t;
      }
    }
  }

  /** Inserts `e` after every entry whose sales are at least its own, so equal entries keep their order. */
  function InsertBySales(s: seq<CategoryTotal>, e: CategoryTotal): (r: seq<CategoryTotal>)
    requires NonIncreasing(s)
    ensures |r| == |s| + 1 && multiset(r) == multiset(s) + multiset{e}
    ensures NonIncreasing(r)
  {
    if s == [] then [e]
    else
      HeadBound(s);
      if s[0].sales >= e.sales then
        var rest := InsertBySales(s[1..], e);
        assert s == [s[0]] + s[1..];
        forall x | x in rest ensures x.sales <= s[0].sales {
          assert x in multiset(rest);
          if x != e {
            assert x in s[1..];
          }
        }
        ConsNonIncreasing(s[0], rest);
        [s[0]] + rest
      else
        ConsNonIncreasing(e, s);
        [e] + s
  }

  /** `sort((a, b) => b.sales - a.sales)`: the same entries, highest sales first. */
  function SortBySales(s: seq<CategoryTotal>): (r: seq<CategoryTotal>)
    ensures |r| == |s| && multiset(r) == multiset(s)
    ensures NonIncreasing(r)
  {
    if s == [] then []
    else
      assert s == s[..|s| - 1] + [s[|s| - 1]];
      InsertBySales(SortBySales(s[..|s| - 1]), s[|s| - 1])
  }

  lemma DistinctCons(h: CategoryTotal, t: seq<CategoryTotal>)
    requires DistinctCategories(t)
    requires forall x :: x in t ==> x.category != h.category
    ensures DistinctCategories([h] + t)
  {
    forall i, j | 0 <= i < j < |[h] + t| ensures ([h] + t)[i].category != ([h] + t)[j].category {
      if i == 0 {
        assert ([h] + t)[j] == t[j - 1] && t[j - 1] in t;
      }
    }
  }

  /** Inserting adds `e` and keeps every other entry. */
  lemma InsertMembers(s: seq<CategoryTotal>, e: CategoryTotal)
    requires NonIncreasing(s)
    ensures forall x :: x in InsertBySales(s, e) <==> x == e || x in s
  {
    var r := InsertBySales(s, e);
    forall x ensures x in r <==> x == e || x in s {
      assert x in r <==> x in multiset(r);
      assert x in s <==> x in multiset(s);
    }
  }

  /** The tail of a list with distinct categories has distinct categories, none of them the head's. */
  lemma TailDistinct(s: seq<CategoryTotal>)
    requires DistinctCategories(s) && s != []
    ensures DistinctCategories(s[1..])
    ensures forall x :: x in s[1..] ==> x in s && x.category != s[0].category
  {
    forall x | x in s[1..] ensures x in s && x.category != s[0].category {
      var k :| 0 <= k < |s| - 1 && s[1..][k] == x;
      assert s[k + 1] == x;
    }
  }

  lemma {:induction false} InsertKeepsDistinct(s: seq<CategoryTotal>, e: CategoryTotal)
    requires NonIncreasing(s) && DistinctCategories(s)
    requires forall x :: x in s ==> x.category != e.category
    ensures DistinctCategories(InsertBySales(s, e))
  {
    if s == [] {
    } else if s[0].sales >= e.sales {
      TailDistinct(s);
      assert NonIncreasing(s[1..]);
      InsertKeepsDistinct(s[1..], e);
      InsertMembers(s[1..], e);
      assert s[0] in s;
      DistinctCons(s[0], InsertBySales(s[1..], e));
    } else {
      DistinctCons(e, s);
    }
  }

  /** Sorting keeps categories distinct. */
  lemma {:induction false} SortKeepsDistinct(s: seq<CategoryTotal>)
    requires DistinctCategories(s)
    ensures DistinctCategories(SortBySales(s))
  {
    if s != [] {
      var init := s[..|s| - 1];
      var last := s[|s| - 1];
      SortKeepsDistinct(init);
      var sorted := SortBySales(init);
      forall x | x in sorted ensures x.category != last.category {
        assert x in multiset(sorted);
        var k :| 0 <= k < |init| && init[k] == x;
        assert s[k] == x;
      }
      InsertKeepsDistinct(sorted, last);
    }
  }

  function SalesOr0(sales: map<string, int>, category: string): int
  {
    if category in sales then sales[category] else 0
  }

  /** `keys` lists the keys of `sales` once each, in the order they were first added. */
  predicate KeyOrder(keys: seq<string>, sales: map<string, int>)
  {
    && (forall k :: 0 <= k < |keys| ==> keys[k] in sales)
    && (forall k, m :: 0 <= k < m < |keys| ==> keys[k] != keys[m])
    && (forall c :: c in sales ==> c in keys)
  }

  /** Booking a category keeps `keys` in step with the map: a new category is appended once. */
  lemma BookKeepsKeyOrder(keys: seq<string>, sales: map<string, int>, category: string, amount: int)
    requires KeyOrder(keys, sales)
    ensures KeyOrder(if category in sales then keys else keys + [category], sales[category := amount])
  {
  }

  /** The sales and categories of one more line of an order. */
  lemma LinesSnoc(lines: seq<OrderLine>, j: nat)
    requires j < |lines|
    ensures LinesCategories(lines[..j + 1]) == LinesCategories(lines[..j]) + {LineCategory(lines[j])}
    ensures forall c :: LinesSales(lines[..j + 1], c)
                      == LinesSales(lines[..j], c) + (if LineCategory(lines[j]) == c then LineTotal(lines[j]) else 0)
  {
    assert lines[..j + 1][..j] == lines[..j];
  }

  /** Booking line `j` adds its category to the sold ones. */
  lemma BookKeys(sales0: map<string, int>, sales: map<string, int>, lines: seq<OrderLine>, j: nat)
    requires j < |lines| && sales.Keys == sales0.Keys + LinesCategories(lines[..j])
    ensures var category := LineCategory(lines[j]);
      sales[category := SalesOr0(sales, category) + LineTotal(lines[j])].Keys
        == sales0.Keys + LinesCategories(lines[..j + 1])
  {
    LinesSnoc(lines, j);
  }

  /** Booking line `j` adds its sales to its category's total and to no other. */
  lemma BookSales(sales0: map<string, int>, sales: map<string, int>, lines: seq<OrderLine>, j: nat)
    requires j < |lines| && forall c :: SalesOr0(sales, c) == SalesOr0(sales0, c) + LinesSales(lines[..j], c)
    ensures var category := LineCategory(lines[j]);
      forall c :: SalesOr0(sales[category := SalesOr0(sales, category) + LineTotal(lines[j])], c)
               == SalesOr0(sales0, c) + LinesSales(lines[..j + 1], c)
  {
    LinesSnoc(lines, j);
  }

  /** The inner `forEach` of `getCategoryData`: books every line of one completed order. */
  method AddLines(sales0: map<string, int>, keys0: seq<string>, lines: seq<OrderLine>)
    returns (sales: map<string, int>, keys: seq<string>)
    requires KeyOrder(keys0, sales0)
    ensures KeyOrder(keys, sales)
    ensures sales.Keys == sales0.Keys + LinesCategories(lines)
    ensures forall c :: SalesOr0(sales, c) == SalesOr0(sales0, c) + LinesSales(lines, c)
  {
    sales, keys := sales0, keys0;
    var j := 0;
    while j < |lines|
      invariant 0 <= j <= |lines|
      invariant KeyOrder(keys, sales)
      invariant sales.Keys == sales0.Keys + LinesCategories(lines[..j])
      invariant forall c :: SalesOr0(sales, c) == SalesOr0(sales0, c) + LinesSales(lines[..j], c)
    {
      var item := lines[j];
      var category := if item.category == "" then "Other" else item.category;
      var amount := SalesOr0(sales, category) + item.price * item.quantity;
      assert category == LineCategory(item) && amount == SalesOr0(sales, category) + LineTotal(item);
      BookKeepsKeyOrder(keys, sales, category, amount);
      BookKeys(sales0, sales, lines, j);
      BookSales(sales0, sales, lines, j);
      if category !in sales {
        keys := keys + [category];
      }
      sales := sales[category := amount];
      j := j + 1;
    }
    assert lines[..j] == lines;
  }

  /** The entries of `sales` in the order of `keys`. */
  function Entries(keys: seq<string>, sales: map<string, int>): (r: seq<CategoryTotal>)
    requires KeyOrder(keys, sales)
    ensures |r| == |keys| && DistinctCategories(r)
    ensures forall x :: x in r ==> x.category in sales && x.sales == sales[x.category]
    ensures forall k :: 0 <= k < |keys| ==> r[k].category == keys[k]
  {
    seq(|keys|, k requires 0 <= k < |keys| => CategoryTotal(keys[k], sales[keys[k]]))
  }

  /**
   * `getCategoryData`: one entry per category sold in a completed order, with
   * that category's sales, highest sales first.
   */
  method GetCategoryData(orders: seq<Order>) returns (data: seq<CategoryTotal>)
    ensures forall i :: 0 <= i < |data| ==> data[i].sales == CategorySales(orders, data[i].category)
    ensures forall c :: c in SoldCategories(orders) <==> exists i :: 0 <= i < |data| && data[i].category == c
    ensures DistinctCategories(data) && NonIncreasing(data)
  {
    var sales: map<string, int> := map[];
    var keys: seq<string> := [];
    var i := 0;
    while i < |orders|
      invariant 0 <= i <= |orders|
      invariant KeyOrder(keys, sales)
      invariant sales.Keys == SoldCategories(orders[..i])
      invariant forall c :: SalesOr0(sales, c) == CategorySales(orders[..i], c)
    {
      var order := orders[i];
      assert orders[..i + 1][..i] == orders[..i] && orders[..i + 1][i] == order;
      if order.status == COMPLETED {
        sales, keys := AddLines(sales, keys, order.items);
      }
      i := i + 1;
    }
    assert orders[..i] == orders;
    var entries := Entries(keys, sales);
    data := SortBySales(entries);
    SortKeepsDistinct(entries);
    forall k | 0 <= k < |data| ensures data[k].sales == CategorySales(orders, data[k].category) {
      assert data[k] in multiset(entries);
    }
    forall c | c in SoldCategories(orders) ensures exists i :: 0 <= i < |data| && data[i].category == c {
      var k :| 0 <= k < |keys| && keys[k] == c;
      assert entries[k] in multiset(data);
    }
    forall c | (exists i :: 0 <= i < |data| && data[i].category == c) ensures c in SoldCategories(orders) {
      var i :| 0 <= i < |data| && data[i].category == c;
      assert data[i] in multiset(entries);
    }
  }

  // ---------------------------------------------------------------------
  // Category colours

  const DefaultColor := "#8884d8"

  const CategoryColors: map<string, string> := map[
    "Starters" := "#eab308",
    "Main Course" := "#3b82f6",
    "Desserts" := "#ec4899",
    "Beverages" := "#22c55e",
    "Other" := "#6b7280"
  ]

  /** `getCategoryColor`: the fixed colour of a known category, the default colour for any other. */
  function CategoryColor(category: string): (color: string)
    ensures category in CategoryColors ==> color == CategoryColors[category] && color != DefaultColor
    ensures category !in CategoryColors ==> color == DefaultColor
  {
    if category in CategoryColors then CategoryColors[category] else DefaultColor
  }

  /** Lines without a category are booked under `Other`, which has its own colour. */
  lemma UncategorisedHasOwnColor(line: OrderLine)
    requires line.category == ""
    ensures CategoryColor(LineCategory(line)) == "#6b7280"
  {
  }

  // ---------------------------------------------------------------------
  // Status updates

  /**
   * The `orderStatusUpdate` reducer: the orders whose id is `orderId` take
   * the event's status; every other order, and every other field, is kept.
   */
  function ApplyStatusUpdate(orders: seq<Order>, orderId: string, status: string): (r: seq<Order>)
    ensures |r| == |orders|
    ensures forall i :: 0 <= i < |r| ==>
      r[i] == (if orders[i].id == orderId then orders[i].(status := status) else orders[i])
  {
    if orders == [] then []
    else
      var o := orders[0];
      [if o.id == orderId then o.(status := status) else o] + ApplyStatusUpdate(orders[1..], orderId, status)
  }

  /**
   * Receiving the same update twice (a client in both the order's room and
   * the admin room) leaves the list as receiving it once.
   */
  lemma DuplicateUpdateHarmless(orders: seq<Order>, orderId: string, status: string)
    ensures ApplyStatusUpdate(ApplyStatusUpdate(orders, orderId, status), orderId, status)
         == ApplyStatusUpdate(orders, orderId, status)
  {
  }

  /** An update for an order that is not in the list changes nothing. */
  lemma UpdateOfAbsentOrderIsNoop(orders: seq<Order>, orderId: string, status: string)
    requires forall i :: 0 <= i < |orders| ==> orders[i].id != orderId
    ensures ApplyStatusUpdate(orders, orderId, status) == orders
  {
    var r := ApplyStatusUpdate(orders, orderId, status);
    assert forall i :: 0 <= i < |r| ==> r[i] == orders[i];
  }

  /** The outcome of the HTTP `PUT /api/orders/<id>` request. */
  datatype PutOutcome = PutOk | PutNotOk | PutThrew

  /** A socket `updateOrderStatus` request. */
  datatype StatusRequest = StatusRequest(orderId: string, status: string)

  datatype UpdateEffects = UpdateEffects(emitted: Option<StatusRequest>, toast: string, refetch: bool)

  /**
   * `updateOrderStatus` on the dashboard: the socket request is sent, with the
   * same id and status, only after the HTTP update answered ok; a refused or
   * failed request sends nothing and does not refetch.
   */
  function UpdateOrderStatus(orderId: string, status: string, put: PutOutcome): (r: UpdateEffects)
    ensures r.emitted.Some? <==> put == PutOk
    ensures r.emitted.Some? ==> r.emitted.value == StatusRequest(orderId, status)
    ensures r.refetch <==> put == PutOk
  {
    match put
    case PutOk => UpdateEffects(Some(StatusRequest(orderId, status)), "Order status updated successfully", true)
    case PutNotOk => UpdateEffects(None, "Failed to update order status", false)
    case PutThrew => UpdateEffects(None, "Error updating order status", false)
  }
}
