/**
 * The customer page's order logic: the cart (add, remove, totals), the menu
 * category filter, the guards in front of placing an order, and the filter
 * that applies status events to the customer's current order.
 *
 * Prices are whole numbers. A cart entry is the menu item it was created
 * from plus a quantity.
 */
module Cart {
  import opened Wrappers

  datatype MenuItem = MenuItem(id: string, name: string, price: int, category: string)

  datatype CartItem = CartItem(item: MenuItem, quantity: int)

  /** Ids are unique and every quantity is at least one. */
  predicate ValidCart(cart: seq<CartItem>)
  {
    && (forall i, j :: 0 <= i < j < |cart| ==> cart[i].item.id != cart[j].item.id)
    && (forall i :: 0 <= i < |cart| ==> cart[i].quantity >= 1)
  }

  /** `cart.find(x => x.id === id)`, as the index of the first match. */
  function FindIndex(cart: seq<CartItem>, id: string): (r: Option<nat>)
    ensures r.Some? ==> r.value < |cart| && cart[r.value].item.id == id
    ensures r.Some? ==> forall j :: 0 <= j < r.value ==> cart[j].item.id != id
    ensures r.None? ==> forall j :: 0 <= j < |cart| ==> cart[j].item.id != id
  {
    if cart == [] then None
    else if cart[0].item.id == id then Some(0)
    else match FindIndex(cart[1..], id)
      case None => None
      case Some(k) => Some(k + 1)
  }

  /** `cart.map(x => x.id === id ? {...x, quantity: x.quantity + delta} : x)`. */
  function AdjustQuantity(cart: seq<CartItem>, id: string, delta: int): (r: seq<CartItem>)
    ensures |r| == |cart|
    ensures forall i :: 0 <= i < |cart| ==>
      r[i] == if cart[i].item.id == id then cart[i].(quantity := cart[i].quantity + delta) else cart[i]
  {
    if cart == [] then []
    else
      var x := cart[0];
      [if x.item.id == id then x.(quantity := x.quantity + delta) else x] + AdjustQuantity(cart[1..], id, delta)
  }

  /** `cart.filter(x => x.id !== id)`. */
  function RemoveId(cart: seq<CartItem>, id: string): (r: seq<CartItem>)
    ensures |r| <= |cart|
    ensures forall x :: x in r <==> x in cart && x.item.id != id
  {
    if cart == [] then []
    else if cart[0].item.id == id then RemoveId(cart[1..], id)
    else [cart[0]] + RemoveId(cart[1..], id)
  }

  /**
   * `addToCart`: an item already in the cart gets its quantity raised by one,
   * in place; a new item is appended with quantity one.
   */
  function AddToCart(cart: seq<CartItem>, item: MenuItem): (r: seq<CartItem>)
    ensures FindIndex(cart, item.id).None? ==> r == cart + [CartItem(item, 1)]
    ensures FindIndex(cart, item.id).Some? ==> |r| == |cart| && forall i :: 0 <= i < |cart| ==>
      r[i].item == cart[i].item
      && r[i].quantity == cart[i].quantity + (if cart[i].item.id == item.id then 1 else 0)
  {
    match FindIndex(cart, item.id)
    case Some(_) => AdjustQuantity(cart, item.id, 1)
    case None => cart + [CartItem(item, 1)]
  }

  /**
   * `removeFromCart`: an entry with quantity above one loses one unit; an
   * entry with quantity one (or less) is dropped; an absent id leaves the
   * cart as it is.
   */
  function RemoveFromCart(cart: seq<CartItem>, id: string): (r: seq<CartItem>)
    ensures FindIndex(cart, id).None? ==> r == cart
    ensures FindIndex(cart, id).Some? && cart[FindIndex(cart, id).value].quantity > 1 ==>
      |r| == |cart| && forall i :: 0 <= i < |cart| ==>
        r[i].item == cart[i].item
        && r[i].quantity == cart[i].quantity - (if cart[i].item.id == id then 1 else 0)
    ensures FindIndex(cart, id).Some? && cart[FindIndex(cart, id).value].quantity <= 1 ==>
      r == RemoveId(cart, id) && forall x :: x in r <==> x in cart && x.item.id != id
  {
    match FindIndex(cart, id)
    case Some(k) =>
      if cart[k].quantity > 1 then AdjustQuantity(cart, id, -1) else RemoveId(cart, id)
    case None =>
      RemoveIdAbsent(cart, id);
      RemoveId(cart, id)
  }

  lemma {:induction false} RemoveIdAbsent(cart: seq<CartItem>, id: string)
    requires forall j :: 0 <= j < |cart| ==> cart[j].item.id != id
    ensures RemoveId(cart, id) == cart
  {
    if cart != [] {
      RemoveIdAbsent(cart[1..], id);
      assert cart == [cart[0]] + cart[1..];
    }
  }

  /** Filtering a concatenation is concatenating the filtered parts: the remaining entries keep their order. */
  lemma {:induction false} RemoveIdConcat(a: seq<CartItem>, b: seq<CartItem>, id: string)
    ensures RemoveId(a + b, id) == RemoveId(a, id) + RemoveId(b, id)
  {
    if a == [] {
      assert a + b == b;
    } else {
      assert (a + b)[1..] == a[1..] + b;
      assert (a + b)[0] == a[0];
      RemoveIdConcat(a[1..], b, id);
    }
  }

  /** A single entry is kept exactly when its id differs. */
  lemma RemoveIdOne(x: CartItem, id: string)
    ensures RemoveId([x], id) == if x.item.id != id then [x] else []
  {
    assert [x][1..] == [];
  }

  /** Dropping the id of an entry just appended (and nowhere else) gives back what was there before. */
  lemma {:induction false} RemoveIdAppended(cart: seq<CartItem>, x: CartItem)
    requires forall j :: 0 <= j < |cart| ==> cart[j].item.id != x.item.id
    ensures RemoveId(cart + [x], x.item.id) == cart
  {
    if cart == [] {
      assert RemoveId([x], x.item.id) == RemoveId([], x.item.id);
    } else {
      assert (cart + [x])[1..] == cart[1..] + [x];
      RemoveIdAppended(cart[1..], x);
      assert cart == [cart[0]] + cart[1..];
    }
  }

  /** Adding keeps ids unique and quantities positive. */
  lemma AddKeepsValid(cart: seq<CartItem>, item: MenuItem)
    requires ValidCart(cart)
    ensures ValidCart(AddToCart(cart, item))
  {
  }

  /** Removing keeps ids unique and quantities positive. */
  lemma RemoveKeepsValid(cart: seq<CartItem>, id: string)
    requires ValidCart(cart)
    ensures ValidCart(RemoveFromCart(cart, id))
  {
    var r := RemoveFromCart(cart, id);
    match FindIndex(cart, id)
    case None =>
    case Some(k) =>
      if cart[k].quantity <= 1 {
        RemoveIdKeepsValid(cart, id);
      }
  }

  /** Filtering an id out of a valid cart leaves a valid cart. */
  lemma {:induction false} RemoveIdKeepsValid(cart: seq<CartItem>, id: string)
    requires ValidCart(cart)
    ensures ValidCart(RemoveId(cart, id))
  {
    if cart != [] {
      assert ValidCart(cart[1..]);
      RemoveIdKeepsValid(cart[1..], id);
      if cart[0].item.id != id {
        var rest := RemoveId(cart[1..], id);
        forall x | x in rest ensures x.item.id != cart[0].item.id {
          var k :| 0 <= k < |cart[1..]| && cart[1..][k] == x;
          assert cart[k + 1] == x;
        }
        assert ValidCart([cart[0]] + rest) by {
          forall i, j | 0 <= i < j < |[cart[0]] + rest|
            ensures ([cart[0]] + rest)[i].item.id != ([cart[0]] + rest)[j].item.id
          {
            if i == 0 { assert ([cart[0]] + rest)[j] == rest[j - 1] && rest[j - 1] in rest; }
          }
        }
      }
    }
  }

  /** Adding an item and then removing its id restores the cart. */
  lemma AddThenRemove(cart: seq<CartItem>, item: MenuItem)
    requires ValidCart(cart)
    ensures RemoveFromCart(AddToCart(cart, item), item.id) == cart
  {
    var added := AddToCart(cart, item);
    match FindIndex(cart, item.id)
    case None =>
      var x := CartItem(item, 1);
      assert added[|cart|] == x;
      assert forall j :: 0 <= j < |cart| ==> added[j] == cart[j];
      assert FindIndex(added, item.id) == Some(|cart|);
      RemoveIdAppended(cart, x);
    case Some(k) =>
      assert FindIndex(added, item.id) == Some(k) by {
        var f := FindIndex(added, item.id);
        assert added[k].item.id == item.id;
        assert f.Some? && f.value <= k;
        assert cart[f.value].item.id == added[f.value].item.id;
      }
      var back := AdjustQuantity(added, item.id, -1);
      assert forall i :: 0 <= i < |cart| ==> back[i] == cart[i];
  }

  /** `getTotalItems`: the sum of the quantities. */
  function TotalItems(cart: seq<CartItem>): (n: int)
    ensures (forall i :: 0 <= i < |cart| ==> cart[i].quantity >= 1) ==> n >= |cart|
  {
    if cart == [] then 0 else cart[0].quantity + TotalItems(cart[1..])
  }

  /** `getTotalPrice`: the sum of price times quantity. */
  function TotalPrice(cart: seq<CartItem>): (total: int)
    ensures (forall i :: 0 <= i < |cart| ==> cart[i].item.price >= 0 && cart[i].quantity >= 1) ==> total >= 0
    ensures ((forall i :: 0 <= i < |cart| ==> cart[i].quantity >= 1)
             && (forall i :: 0 <= i < |cart| ==> cart[i].item.price > 0) && cart != []) ==> total > 0
  {
    if cart == [] then 0 else cart[0].item.price * cart[0].quantity + TotalPrice(cart[1..])
  }

  lemma {:induction false} TotalsAppend(a: seq<CartItem>, b: seq<CartItem>)
    ensures TotalItems(a + b) == TotalItems(a) + TotalItems(b)
    ensures TotalPrice(a + b) == TotalPrice(a) + TotalPrice(b)
  {
    if a == [] {
      assert a + b == b;
    } else {
      assert (a + b)[1..] == a[1..] + b;
      TotalsAppend(a[1..], b);
    }
  }

  lemma AdjustAbsent(cart: seq<CartItem>, id: string, delta: int)
    requires forall j :: 0 <= j < |cart| ==> cart[j].item.id != id
    ensures AdjustQuantity(cart, id, delta) == cart
  {
    var r := AdjustQuantity(cart, id, delta);
    assert forall j :: 0 <= j < |cart| ==> r[j] == cart[j];
  }

  /** Changing the quantity of the one entry with id `id` by `delta` moves the totals by `delta` units of its price. */
  lemma {:induction false} TotalsAdjust(cart: seq<CartItem>, id: string, delta: int, k: nat)
    requires k < |cart| && cart[k].item.id == id
    requires forall j :: 0 <= j < |cart| && j != k ==> cart[j].item.id != id
    ensures TotalItems(AdjustQuantity(cart, id, delta)) == TotalItems(cart) + delta
    ensures TotalPrice(AdjustQuantity(cart, id, delta)) == TotalPrice(cart) + delta * cart[k].item.price
  {
    var r := AdjustQuantity(cart, id, delta);
    var head := cart[0];
    assert r[0] == if head.item.id == id then head.(quantity := head.quantity + delta) else head;
    assert r[1..] == AdjustQuantity(cart[1..], id, delta);
    if k == 0 {
      AdjustAbsent(cart[1..], id, delta);
      var p, q := head.item.price, head.quantity;
      assert p * (q + delta) == p * q + delta * p;
    } else {
      TotalsAdjust(cart[1..], id, delta, k - 1);
    }
  }

  /** The unit price adding `item` contributes: that of the entry already carrying its id, or its own. */
  function AddedUnitPrice(cart: seq<CartItem>, item: MenuItem): int
  {
    match FindIndex(cart, item.id)
    case Some(k) => cart[k].item.price
    case None => item.price
  }

  /** Adding raises the item count by one and the price by one unit. Both totals are 0 for an empty cart. */
  lemma AddRaisesTotals(cart: seq<CartItem>, item: MenuItem)
    requires ValidCart(cart)
    ensures TotalItems(AddToCart(cart, item)) == TotalItems(cart) + 1
    ensures TotalPrice(AddToCart(cart, item)) == TotalPrice(cart) + AddedUnitPrice(cart, item)
    ensures TotalItems([]) == 0 && TotalPrice([]) == 0
  {
    match FindIndex(cart, item.id)
    case Some(k) =>
      TotalsAdjust(cart, item.id, 1, k);
    case None =>
      TotalsAppend(cart, [CartItem(item, 1)]);
      assert [CartItem(item, 1)][1..] == [];
  }

  // ---------------------------------------------------------------------
  // Category filter

  function FilterCategory(menu: seq<MenuItem>, category: string): (r: seq<MenuItem>)
    ensures |r| <= |menu|
    ensures forall x :: x in r <==> x in menu && x.category == category
  {
    if menu == [] then []
    else (if menu[0].category == category then [menu[0]] else []) + FilterCategory(menu[1..], category)
  }

  /** `filteredItems`: the whole menu for `All`, otherwise the items of the selected category. */
  function FilteredItems(menu: seq<MenuItem>, selected: string): (r: seq<MenuItem>)
    ensures selected == "All" ==> r == menu
    ensures selected != "All" ==> forall x :: x in r <==> x in menu && x.category == selected
  {
    if selected == "All" then menu else FilterCategory(menu, selected)
  }

  /** Filtering a concatenation is concatenating the filtered parts: the filter keeps the original order. */
  lemma {:induction false} FilterKeepsOrder(a: seq<MenuItem>, b: seq<MenuItem>, category: string)
    ensures FilterCategory(a + b, category) == FilterCategory(a, category) + FilterCategory(b, category)
  {
    if a == [] {
      assert a + b == b;
    } else {
      assert (a + b)[1..] == a[1..] + b;
      assert (a + b)[0] == a[0];
      FilterKeepsOrder(a[1..], b, category);
    }
  }

  /** A single item is kept exactly when it has the category. */
  lemma FilterOne(x: MenuItem, category: string)
    ensures FilterCategory([x], category) == if x.category == category then [x] else []
  {
    assert [x][1..] == [];
  }

  // ---------------------------------------------------------------------
  // Placing an order

  datatype PlaceOrderError = EmptyCart | MissingContact | MissingTable

  datatype LineRequest = LineRequest(menuItemId: string, quantity: int, price: int)

  datatype OrderRequest = OrderRequest(items: seq<LineRequest>, customerName: string, customerPhone: string,
                                       tableId: string, totalAmount: int)

  function LineRequests(cart: seq<CartItem>): (r: seq<LineRequest>)
    ensures |r| == |cart|
    ensures forall i :: 0 <= i < |cart| ==>
      r[i] == LineRequest(cart[i].item.id, cart[i].quantity, cart[i].item.price)
  {
    if cart == [] then [] else [LineRequest(cart[0].item.id, cart[0].quantity, cart[0].item.price)] + LineRequests(cart[1..])
  }

  function RequestedTotal(lines: seq<LineRequest>): int
  {
    if lines == [] then 0 else lines[0].price * lines[0].quantity + RequestedTotal(lines[1..])
  }

  /**
   * The guards of `placeOrder`, in order: an empty cart, then a missing name
   * or phone, then no table; otherwise the body of the `POST /api/orders`
   * request.
   */
  function PlaceOrder(cart: seq<CartItem>, customerName: string, customerPhone: string, selectedTable: string)
    : (r: Result<OrderRequest, PlaceOrderError>)
    ensures r == Err(EmptyCart) <==> cart == []
    ensures r == Err(MissingContact) <==> cart != [] && (customerName == "" || customerPhone == "")
    ensures r == Err(MissingTable) <==> cart != [] && customerName != "" && customerPhone != "" && selectedTable == ""
    ensures r.Ok? ==> r.value.items == LineRequests(cart) && r.value.totalAmount == TotalPrice(cart)
    ensures r.Ok? ==> r.value.customerName == customerName && r.value.customerPhone == customerPhone
                      && r.value.tableId == selectedTable
  {
    if cart == [] then Err(EmptyCart)
    else if customerName == "" || customerPhone == "" then Err(MissingContact)
    else if selectedTable == "" then Err(MissingTable)
    else Ok(OrderRequest(LineRequests(cart), customerName, customerPhone, selectedTable, TotalPrice(cart)))
  }

  /** The total sent with an order is the total of the lines sent with it. */
  lemma {:induction false} RequestTotalMatchesLines(cart: seq<CartItem>)
    ensures RequestedTotal(LineRequests(cart)) == TotalPrice(cart)
  {
    if cart != [] {
      RequestTotalMatchesLines(cart[1..]);
      assert LineRequests(cart)[1..] == LineRequests(cart[1..]);
    }
  }

  // ---------------------------------------------------------------------
  // Status events on the customer side

  datatype CustomerOrder = CustomerOrder(id: string, orderNumber: string, status: string, totalAmount: int)

  datatype StatusEvent = StatusEvent(orderId: string, status: string)

  /** The customer's `orderStatusUpdate` handler: only an event for the current order changes it, and only its status. */
  function OnStatusUpdate(current: Option<CustomerOrder>, e: StatusEvent): (r: Option<CustomerOrder>)
    ensures current.Some? && e.orderId == current.value.id ==> r == Some(current.value.(status := e.status))
    ensures current.None? || e.orderId != current.value.id ==> r == current
  {
    match current
    case Some(order) => if e.orderId == order.id then Some(order.(status := e.status)) else current
    case None => None
  }

  function OnStatusUpdates(current: Option<CustomerOrder>, events: seq<StatusEvent>): Option<CustomerOrder>
    decreases |events|
  {
    if events == [] then current
    else OnStatusUpdates(OnStatusUpdate(current, events[0]), events[1..])
  }

  /**
   * After a run of events the current order carries the status of the last
   * event addressed to it (the last one received wins), or its own status if
   * none was; id and the other fields never change.
   */
  lemma {:induction false} LastEventWins(order: CustomerOrder, events: seq<StatusEvent>)
    ensures var r := OnStatusUpdates(Some(order), events);
      r.Some? && r.value.id == order.id && r.value.orderNumber == order.orderNumber
      && r.value.totalAmount == order.totalAmount
      && r.value.status == (if Mentions(events, order.id) then events[LastFor(events, order.id)].status else order.status)
    decreases |events|
  {
    if events != [] {
      var next := OnStatusUpdate(Some(order), events[0]);
      LastEventWins(next.value, events[1..]);
      var tail := events[1..];
      if Mentions(tail, order.id) {
        var i :| 0 <= i < |tail| && tail[i].orderId == order.id;
        assert events[i + 1].orderId == order.id;
        assert LastFor(events, order.id) == LastFor(tail, order.id) + 1;
      } else if events[0].orderId == order.id {
        assert LastFor(events, order.id) == 0;
      } else {
        forall i | 0 <= i < |events| ensures events[i].orderId != order.id {
          if i > 0 { assert events[i] == tail[i - 1]; }
        }
      }
    }
  }

  /** Some event in `events` is addressed to `orderId`. */
  predicate Mentions(events: seq<StatusEvent>, orderId: string)
  {
    exists i :: 0 <= i < |events| && events[i].orderId == orderId
  }

  /** The index of the last event for `orderId`. */
  function LastFor(events: seq<StatusEvent>, orderId: string): (k: nat)
    requires Mentions(events, orderId)
    ensures k < |events| && events[k].orderId == orderId
    ensures forall j :: k < j < |events| ==> events[j].orderId != orderId
  {
    var tail := events[1..];
    if Mentions(tail, orderId) then
      var k := LastFor(tail, orderId);
      assert forall j :: k + 1 < j < |events| ==> events[j] == tail[j - 1];
      k + 1
    else
      assert forall j :: 0 < j < |events| ==> events[j] == tail[j - 1];
      0
  }
}
