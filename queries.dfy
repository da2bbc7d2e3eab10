/** The read routes of server.js over the table model: GET /api/order/:orderId,
    GET /api/orders/:userId, GET /api/popular-items and the revenue figure of
    GET /api/stats.  Each SQL query is stated as the sequence it returns. */
module Queries {
  import opened Values
  import opened Tables
  import opened Sorting
  import opened Server

  const InvalidUserIdFormat := "Invalid user ID format"

  // ---------------------------------------------------------------------
  // Joins of order_items with menu_items

  /** The menu rows that `JOIN menu_items mi ON oi.item_id = mi.id` pairs
      with an order item naming `itemId`, in table order. */
  function MenuMatches(menu: seq<MenuItemRow>, itemId: real): (r: seq<MenuItemRow>)
    ensures |r| <= |menu|
    ensures forall m :: m in r <==> m in menu && m.id as real == itemId
  {
    if menu == [] then []
    else
      assert forall m :: m in menu <==> m == menu[0] || m in menu[1..];
      (if menu[0].id as real == itemId then [menu[0]] else []) + MenuMatches(menu[1..], itemId)
  }

  /** An id no menu row carries joins to nothing. */
  lemma {:induction false} MenuMatchesNone(menu: seq<MenuItemRow>, itemId: real)
    requires forall m :: m in menu ==> m.id as real != itemId
    ensures MenuMatches(menu, itemId) == []
  {
    if menu != [] {
      assert menu[0] in menu;
      assert forall m :: m in menu[1..] ==> m in menu;
      MenuMatchesNone(menu[1..], itemId);
    }
  }

  /** With AUTOINCREMENT keys a menu id names at most one row, so a joined
      order item that names an existing menu item is paired with it alone. */
  lemma {:induction false} UniqueMenuMatch(menu: seq<MenuItemRow>, next: nat, m: MenuItemRow)
    requires KeysBelow(MenuItemIds(menu), next) && m in menu
    ensures MenuMatches(menu, m.id as real) == [m]
  {
    var ids := MenuItemIds(menu);
    assert ids[0] == menu[0].id;
    var tail := menu[1..];
    assert MenuItemIds(tail) == ids[1..];
    if menu[0] == m {
      forall x | x in tail ensures x.id != m.id {
        var k :| 0 <= k < |tail| && tail[k] == x;
        assert ids[0] < ids[k + 1];
      }
      MenuMatchesNone(tail, m.id as real);
    } else {
      assert m in tail;
      var k :| 0 <= k < |tail| && tail[k] == m;
      assert ids[0] < ids[k + 1];
      UniqueMenuMatch(tail, next, m);
    }
  }

  /** A row of `SELECT oi.*, mi.name, mi.description ... JOIN menu_items`. */
  datatype DetailItem = DetailItem(row: OrderItemRow, name: string, description: Option<string>)

  /** `d` is the joined row of item row `r` and menu row `m`. */
  predicate JoinedFrom(d: DetailItem, r: OrderItemRow, m: MenuItemRow) {
    m.id as real == r.itemId && d == DetailItem(r, m.name, m.description)
  }

  /** `ds` holds exactly the pairs of the inner join of `rows` with `menu`
      restricted to `orderId`: every returned row comes from an item row of
      the order and a menu row it names, and every such pair is returned. */
  predicate IsOrderJoin(ds: seq<DetailItem>, rows: seq<OrderItemRow>, menu: seq<MenuItemRow>, orderId: real) {
    && (forall d :: d in ds ==>
          d.row in rows && d.row.orderId as real == orderId && exists m :: m in menu && JoinedFrom(d, d.row, m))
    && (forall r, m :: r in rows && r.orderId as real == orderId && m in menu && m.id as real == r.itemId ==>
          DetailItem(r, m.name, m.description) in ds)
  }

  /** The joined rows of one order item: one per matching menu row, and none
      when the item belongs to another order. */
  function RowJoin(r: OrderItemRow, menu: seq<MenuItemRow>, orderId: real): (ds: seq<DetailItem>)
    ensures IsOrderJoin(ds, [r], menu, orderId)
    ensures r.orderId as real == orderId ==> |ds| == |MenuMatches(menu, r.itemId)|
  {
    if r.orderId as real == orderId then
      var ms := MenuMatches(menu, r.itemId);
      var ds := seq(|ms|, k requires 0 <= k < |ms| => DetailItem(r, ms[k].name, ms[k].description));
      assert forall d :: d in ds ==> exists m :: m in menu && JoinedFrom(d, r, m) by {
        forall d | d in ds ensures exists m :: m in menu && JoinedFrom(d, r, m) {
          var k :| 0 <= k < |ds| && ds[k] == d;
          assert ms[k] in ms && JoinedFrom(d, r, ms[k]);
        }
      }
      forall m | m in menu && m.id as real == r.itemId ensures DetailItem(r, m.name, m.description) in ds {
        var k :| 0 <= k < |ms| && ms[k] == m;
        assert ds[k] == DetailItem(r, m.name, m.description);
      }
      ds
    else []
  }

  /** `... FROM order_items oi JOIN menu_items mi ON oi.item_id = mi.id
      WHERE oi.order_id = ?`, in order_items order. */
  function OrderItemsJoin(rows: seq<OrderItemRow>, menu: seq<MenuItemRow>, orderId: real): (ds: seq<DetailItem>)
    ensures IsOrderJoin(ds, rows, menu, orderId)
  {
    if rows == [] then []
    else
      var init, last := rows[..|rows| - 1], rows[|rows| - 1];
      var front := OrderItemsJoin(init, menu, orderId);
      var back := RowJoin(last, menu, orderId);
      assert rows == init + [last];
      assert forall r :: r in rows <==> r in init || r == last;
      front + back
  }

  /** The join distributes over appended rows. */
  lemma {:induction false} OrderItemsJoinAppend(a: seq<OrderItemRow>, b: seq<OrderItemRow>, menu: seq<MenuItemRow>, orderId: real)
    ensures OrderItemsJoin(a + b, menu, orderId) == OrderItemsJoin(a, menu, orderId) + OrderItemsJoin(b, menu, orderId)
  {
    if b == [] {
      assert a + b == a;
    } else {
      var front, last := b[..|b| - 1], b[|b| - 1];
      assert (a + b)[..|a + b| - 1] == a + front;
      assert (a + b)[|a + b| - 1] == last;
      var lastJoin := RowJoin(last, menu, orderId);
      assert OrderItemsJoin(a + b, menu, orderId) == OrderItemsJoin(a + front, menu, orderId) + lastJoin;
      assert OrderItemsJoin(b, menu, orderId) == OrderItemsJoin(front, menu, orderId) + lastJoin;
      OrderItemsJoinAppend(a, front, menu, orderId);
      AppendAssoc(OrderItemsJoin(a, menu, orderId), OrderItemsJoin(front, menu, orderId), lastJoin);
    }
  }

  lemma AppendAssoc<T>(x: seq<T>, y: seq<T>, z: seq<T>)
    ensures (x + y) + z == x + (y + z)
  {
  }

  /** An order that no item row names joins to nothing. */
  lemma {:induction false} OrderItemsJoinEmpty(rows: seq<OrderItemRow>, menu: seq<MenuItemRow>, orderId: real)
    requires forall r :: r in rows ==> r.orderId as real != orderId
    ensures OrderItemsJoin(rows, menu, orderId) == []
  {
    if rows != [] {
      assert rows[|rows| - 1] in rows;
      OrderItemsJoinEmpty(rows[..|rows| - 1], menu, orderId);
    }
  }

  /** The order_items part of joined rows. */
  function JoinedRows(ds: seq<DetailItem>): (rs: seq<OrderItemRow>)
    ensures |rs| == |ds| && forall k :: 0 <= k < |ds| ==> rs[k] == ds[k].row
  {
    seq(|ds|, k requires 0 <= k < |ds| => ds[k].row)
  }

  lemma JoinedRowsAppend(ds: seq<DetailItem>, es: seq<DetailItem>)
    ensures JoinedRows(ds + es) == JoinedRows(ds) + JoinedRows(es)
  {
  }

  /** One item row of the order, naming exactly one menu row, joins to one
      row carrying it. */
  lemma JoinOfOneRow(row: OrderItemRow, menu: seq<MenuItemRow>)
    requires |MenuMatches(menu, row.itemId)| == 1
    ensures JoinedRows(OrderItemsJoin([row], menu, row.orderId as real)) == [row]
  {
    assert [row][..0] == [];
    assert OrderItemsJoin([row], menu, row.orderId as real) == RowJoin(row, menu, row.orderId as real);
  }

  /** Rows of one order whose items each name exactly one menu row join to
      exactly themselves, in order. */
  lemma {:induction false} JoinOfItemRows(firstId: nat, orderId: nat, lines: seq<ItemLine>, menu: seq<MenuItemRow>)
    requires forall k :: 0 <= k < |lines| ==> |MenuMatches(menu, lines[k].itemId)| == 1
    ensures JoinedRows(OrderItemsJoin(ItemRows(firstId, orderId, lines), menu, orderId as real))
         == ItemRows(firstId, orderId, lines)
  {
    if lines != [] {
      var front := lines[..|lines| - 1];
      var line := lines[|lines| - 1];
      assert lines == front + [line];
      var row := OrderItemRow(firstId + |front|, orderId, line.itemId, line.quantity, line.price);
      var before := ItemRows(firstId, orderId, front);
      ItemRowsSnoc(firstId, orderId, front, line);
      OrderItemsJoinAppend(before, [row], menu, orderId as real);
      JoinOfItemRows(firstId, orderId, front, menu);
      JoinOfOneRow(row, menu);
      JoinedRowsAppend(OrderItemsJoin(before, menu, orderId as real), OrderItemsJoin([row], menu, orderId as real));
    }
  }

  // ---------------------------------------------------------------------
  // GET /api/order/:orderId

  /** `SELECT * FROM orders WHERE id = ?` through `db.get`: the first match. */
  function FindOrder(orders: seq<OrderRow>, id: real): (r: Option<OrderRow>)
    ensures r.None? <==> !HasOrder(orders, id)
    ensures r.Some? ==> r.value in orders && r.value.id as real == id
  {
    if orders == [] then None
    else if orders[0].id as real == id then Some(orders[0])
    else
      var r := FindOrder(orders[1..], id);
      assert forall k :: 1 <= k < |orders| ==> orders[k] == orders[1..][k - 1];
      assert HasOrder(orders[1..], id) ==> HasOrder(orders, id);
      r
  }

  /** Rows before the first match do not affect the lookup. */
  lemma {:induction false} FindOrderSkips(a: seq<OrderRow>, b: seq<OrderRow>, id: real)
    requires forall o :: o in a ==> o.id as real != id
    ensures FindOrder(a + b, id) == FindOrder(b, id)
  {
    if a != [] {
      assert a[0] in a && (a + b)[0] == a[0];
      assert (a + b)[1..] == a[1..] + b;
      assert forall o :: o in a[1..] ==> o in a;
      FindOrderSkips(a[1..], b, id);
    } else {
      assert a + b == b;
    }
  }

  datatype OrderDetail = OrderDetail(order: OrderRow, items: seq<DetailItem>)

  /** GET /api/order/:orderId (server.js:479-512). */
  function GetOrder(t: Tables, orderId: PathNumber): (r: Reply<OrderDetail>)
    ensures orderId.NaN? ==> r == Failure(400, InvalidOrderIdFormat)
    ensures orderId.Number? && !HasOrder(t.orders, orderId.value) ==> r == Failure(404, OrderNotFound)
    ensures orderId.Number? && HasOrder(t.orders, orderId.value) ==>
      && r.Success? && r.value.order in t.orders && r.value.order.id as real == orderId.value
      && IsOrderJoin(r.value.items, t.orderItems, t.menuItems, orderId.value)
  {
    if orderId.NaN? then Failure(400, InvalidOrderIdFormat)
    else
      match FindOrder(t.orders, orderId.value)
      case None => Failure(404, OrderNotFound)
      case Some(o) => Success(OrderDetail(o, OrderItemsJoin(t.orderItems, t.menuItems, orderId.value)))
  }

  /** Every line's item id is the id of some menu row. */
  predicate NamesMenuItems(lines: seq<ItemLine>, menu: seq<MenuItemRow>) {
    forall k :: 0 <= k < |lines| ==> exists m :: m in menu && m.id as real == lines[k].itemId
  }

  /** The order appended under the counter is the one its id finds. */
  lemma NewOrderFound(orders: seq<OrderRow>, next: nat, header: OrderRow)
    requires KeysBelow(OrderIds(orders), next) && header.id == next
    ensures FindOrder(orders + [header], next as real) == Some(header)
  {
    forall o | o in orders ensures o.id as real != next as real {
      var k :| 0 <= k < |orders| && orders[k] == o;
      assert OrderIds(orders)[k] == o.id;
    }
    FindOrderSkips(orders, [header], next as real);
  }

  /** The item rows appended for a new order are exactly what its id joins
      to, when older rows name older orders and every line names a menu item. */
  lemma NewOrderJoin(older: seq<OrderItemRow>, menu: seq<MenuItemRow>, menuNext: nat,
                     firstId: nat, orderId: nat, lines: seq<ItemLine>)
    requires forall r :: r in older ==> r.orderId < orderId
    requires KeysBelow(MenuItemIds(menu), menuNext)
    requires NamesMenuItems(lines, menu)
    ensures JoinedRows(OrderItemsJoin(older + ItemRows(firstId, orderId, lines), menu, orderId as real))
         == ItemRows(firstId, orderId, lines)
  {
    forall k | 0 <= k < |lines| ensures |MenuMatches(menu, lines[k].itemId)| == 1 {
      var m :| m in menu && m.id as real == lines[k].itemId;
      UniqueMenuMatch(menu, menuNext, m);
    }
    var rows := ItemRows(firstId, orderId, lines);
    OrderItemsJoinAppend(older, rows, menu, orderId as real);
    OrderItemsJoinEmpty(older, menu, orderId as real);
    JoinOfItemRows(firstId, orderId, lines, menu);
    assert [] + OrderItemsJoin(rows, menu, orderId as real) == OrderItemsJoin(rows, menu, orderId as real);
  }

  /** Reading back an order just committed by POST /api/orders gives its
      header, with the client's total and status 'pending', and exactly its
      item rows in submission order, provided each line names a menu item. */
  lemma PlacedOrderReadBack(t: Tables, userId: Json, total: real, now: int, lines: seq<ItemLine>)
    requires TablesValid(t)
    requires NamesMenuItems(lines, t.menuItems)
    ensures var r := GetOrder(WithOrder(t, userId, total, now, lines), Number(t.nextOrderId as real));
      && r.Success?
      && r.value.order == OrderRow(t.nextOrderId, userId, total, PendingStatus, now)
      && JoinedRows(r.value.items) == ItemRows(t.nextOrderItemId, t.nextOrderId, lines)
  {
    var header := OrderRow(t.nextOrderId, userId, total, PendingStatus, now);
    NewOrderFound(t.orders, t.nextOrderId, header);
    forall r | r in t.orderItems ensures r.orderId < t.nextOrderId {
      var k :| 0 <= k < |t.orderItems| && t.orderItems[k] == r;
    }
    NewOrderJoin(t.orderItems, t.menuItems, t.nextMenuItemId, t.nextOrderItemId, t.nextOrderId, lines);
  }

  // ---------------------------------------------------------------------
  // The status update seen through the lookup

  /** The UPDATE leaves an order id that matches nothing alone. */
  lemma WithStatusAbsent(orders: seq<OrderRow>, id: real, status: string)
    requires !HasOrder(orders, id)
    ensures WithStatus(orders, id, status) == orders
  {
    forall k | 0 <= k < |orders| ensures WithStatus(orders, id, status)[k] == orders[k] {
      assert orders[k].id as real != id;
    }
  }

  /** The UPDATE changes the status column only, so every order keeps its id. */
  lemma WithStatusKeepsIds(orders: seq<OrderRow>, id: real, status: string)
    ensures OrderIds(WithStatus(orders, id, status)) == OrderIds(orders)
  {
  }

  /** Looking an order up after `UPDATE orders SET status = ?` finds the same
      row with the new status. */
  lemma {:induction false} FindOrderAfterStatus(orders: seq<OrderRow>, id: real, status: string)
    requires HasOrder(orders, id)
    ensures FindOrder(WithStatus(orders, id, status), id) == Some(FindOrder(orders, id).value.(status := status))
  {
    var u := WithStatus(orders, id, status);
    if orders[0].id as real != id {
      assert u[1..] == WithStatus(orders[1..], id, status);
      var k :| 0 <= k < |orders| && orders[k].id as real == id;
      assert orders[1..][k - 1] == orders[k];
      FindOrderAfterStatus(orders[1..], id, status);
    }
  }

  /** After a successful PUT /api/orders/:orderId/status, GET /api/order/:orderId
      reports the new status and the same items. */
  lemma StatusUpdateReadBack(t: Tables, id: real, status: string)
    requires HasOrder(t.orders, id)
    ensures var before := GetOrder(t, Number(id));
            var after := GetOrder(t.(orders := WithStatus(t.orders, id, status)), Number(id));
      && before.Success? && after.Success?
      && after.value.order == before.value.order.(status := status)
      && after.value.items == before.value.items
  {
    FindOrderAfterStatus(t.orders, id, status);
  }

  // ---------------------------------------------------------------------
  // GET /api/orders/:userId

  /** `WHERE o.user_id = ?` for a numeric path parameter, in table order. */
  function OrdersOf(orders: seq<OrderRow>, userId: real): (r: seq<OrderRow>)
    ensures |r| <= |orders|
    ensures forall o :: o in r <==> o in orders && o.userId == Num(userId)
  {
    if orders == [] then []
    else
      assert forall o :: o in orders <==> o == orders[0] || o in orders[1..];
      (if orders[0].userId == Num(userId) then [orders[0]] else []) + OrdersOf(orders[1..], userId)
  }

  function CreatedAt(o: OrderRow): int { o.createdAt }

  /** One element of an order's `items` array in the listing. */
  datatype ItemSummary = ItemSummary(id: nat, name: string, price: real, quantity: real)

  function Summaries(ds: seq<DetailItem>): (r: seq<ItemSummary>)
    ensures |r| == |ds|
    ensures forall k :: 0 <= k < |ds| ==> r[k] == ItemSummary(ds[k].row.id, ds[k].name, ds[k].row.price, ds[k].row.quantity)
  {
    seq(|ds|, k requires 0 <= k < |ds| => ItemSummary(ds[k].row.id, ds[k].name, ds[k].row.price, ds[k].row.quantity))
  }

  datatype OrderSummary = OrderSummary(order: OrderRow, items: seq<ItemSummary>)

  /** The order rows of a listing, in reply order. */
  function ListedOrders(r: seq<OrderSummary>): (os: seq<OrderRow>)
    ensures |os| == |r| && forall k :: 0 <= k < |r| ==> os[k] == r[k].order
  {
    seq(|r|, k requires 0 <= k < |r| => r[k].order)
  }

  /** GET /api/orders/:userId (server.js:431-476): the user's orders, newest
      first, each with its joined items (`[]` when it has none). */
  function UserOrders(t: Tables, userId: PathNumber): (r: Reply<seq<OrderSummary>>)
    ensures userId.NaN? ==> r == Failure(400, InvalidUserIdFormat)
    ensures userId.Number? ==>
      && r.Success?
      && |r.value| == |OrdersOf(t.orders, userId.value)|
      && multiset(ListedOrders(r.value)) == multiset(OrdersOf(t.orders, userId.value))
      && SortedDesc(ListedOrders(r.value), CreatedAt)
      && (forall k :: 0 <= k < |r.value| ==>
            r.value[k].items == Summaries(OrderItemsJoin(t.orderItems, t.menuItems, r.value[k].order.id as real)))
  {
    if userId.NaN? then Failure(400, InvalidUserIdFormat)
    else
      var sorted := SortDesc(OrdersOf(t.orders, userId.value), CreatedAt);
      var r := seq(|sorted|, k requires 0 <= k < |sorted| =>
        OrderSummary(sorted[k], Summaries(OrderItemsJoin(t.orderItems, t.menuItems, sorted[k].id as real))));
      assert ListedOrders(r) == sorted;
      Success(r)
  }

  /** Every listed order belongs to the user, and every order of the user is
      listed. */
  lemma UserOrdersExact(t: Tables, userId: real, o: OrderRow)
    ensures var r := UserOrders(t, Number(userId)).value;
      (exists k :: 0 <= k < |r| && r[k].order == o) <==> o in t.orders && o.userId == Num(userId)
  {
    var r := UserOrders(t, Number(userId)).value;
    var os := ListedOrders(r);
    assert o in os <==> o in multiset(os);
    if o in os {
      var k :| 0 <= k < |os| && os[k] == o;
      assert r[k].order == o;
    }
  }

  /** An order without item rows is listed with an empty items array. */
  lemma ListedOrderWithoutItems(t: Tables, userId: real, k: nat)
    requires k < |UserOrders(t, Number(userId)).value|
    requires forall r :: r in t.orderItems ==> r.orderId != UserOrders(t, Number(userId)).value[k].order.id
    ensures UserOrders(t, Number(userId)).value[k].items == []
  {
    var o := UserOrders(t, Number(userId)).value[k].order;
    OrderItemsJoinEmpty(t.orderItems, t.menuItems, o.id as real);
  }

  // ---------------------------------------------------------------------
  // GET /api/popular-items

  /** `COUNT(oi.id)` for one menu item: the order_items rows naming it. */
  function OrderCount(rows: seq<OrderItemRow>, menuId: nat): (n: nat)
    ensures n <= |rows|
    ensures n > 0 <==> exists r :: r in rows && r.itemId == menuId as real
  {
    if rows == [] then 0
    else
      assert forall r :: r in rows <==> r == rows[0] || r in rows[1..];
      (if rows[0].itemId == menuId as real then 1 else 0) + OrderCount(rows[1..], menuId)
  }

  /** A row of the popular-items query. */
  datatype PopularItem = PopularItem(item: MenuItemRow, orderCount: nat)

  function OrderCountKey(p: PopularItem): int { p.orderCount }

  /** The groups of `JOIN order_items ... GROUP BY mi.id`: menu items that
      appear in order_items at least once, with their counts. */
  function Ordered(menu: seq<MenuItemRow>, rows: seq<OrderItemRow>): (r: seq<PopularItem>)
    ensures forall p :: p in r <==> p.item in menu && p.orderCount == OrderCount(rows, p.item.id) && p.orderCount > 0
  {
    if menu == [] then []
    else
      var n := OrderCount(rows, menu[0].id);
      assert forall m :: m in menu <==> m == menu[0] || m in menu[1..];
      (if n > 0 then [PopularItem(menu[0], n)] else []) + Ordered(menu[1..], rows)
  }

  const PopularLimit := 5

  /** GET /api/popular-items (server.js:553-571): `ORDER BY order_count DESC
      LIMIT 5` over the groups. */
  function PopularItems(t: Tables): (r: seq<PopularItem>)
    ensures |r| <= PopularLimit
    ensures SortedDesc(r, OrderCountKey)
    ensures forall p :: p in r ==> p.item in t.menuItems && p.orderCount == OrderCount(t.orderItems, p.item.id) > 0
  {
    var sorted := SortDesc(Ordered(t.menuItems, t.orderItems), OrderCountKey);
    var r := if |sorted| <= PopularLimit then sorted else sorted[..PopularLimit];
    assert forall p :: p in r ==> p in multiset(sorted);
    r
  }

  /** A menu item that was ordered but is not among the popular items has
      been ordered no more often than any of them, and is left out only
      because five items were already listed. */
  lemma PopularItemsTop(t: Tables, m: MenuItemRow)
    requires m in t.menuItems && OrderCount(t.orderItems, m.id) > 0
    requires PopularItem(m, OrderCount(t.orderItems, m.id)) !in PopularItems(t)
    ensures |PopularItems(t)| == PopularLimit
    ensures forall p :: p in PopularItems(t) ==> p.orderCount >= OrderCount(t.orderItems, m.id)
  {
    var candidates := Ordered(t.menuItems, t.orderItems);
    var sorted := SortDesc(candidates, OrderCountKey);
    var x := PopularItem(m, OrderCount(t.orderItems, m.id));
    assert x in multiset(candidates);
    assert x in multiset(sorted);
    var j :| 0 <= j < |sorted| && sorted[j] == x;
    var top := PopularItems(t);
    assert |top| == if |sorted| <= PopularLimit then |sorted| else PopularLimit;
    assert forall i :: 0 <= i < |top| ==> top[i] == sorted[i];
    forall p | p in PopularItems(t) ensures p.orderCount >= x.orderCount {
      var i :| 0 <= i < PopularLimit && sorted[i] == p;
      assert OrderCountKey(sorted[i]) >= OrderCountKey(sorted[j]);
    }
  }

  predicate IdsIncrease(s: seq<PopularItem>) {
    forall i, j :: 0 <= i < j < |s| ==> s[i].item.id < s[j].item.id
  }

  /** `GROUP BY mi.id` yields one group per menu item: the groups follow the
      menu's increasing ids. */
  lemma {:induction false} OrderedIdsIncrease(menu: seq<MenuItemRow>, rows: seq<OrderItemRow>)
    requires forall i, j :: 0 <= i < j < |menu| ==> menu[i].id < menu[j].id
    ensures IdsIncrease(Ordered(menu, rows))
  {
    if menu != [] {
      var tail := menu[1..];
      OrderedIdsIncrease(tail, rows);
      var rest := Ordered(tail, rows);
      var n := OrderCount(rows, menu[0].id);
      var head := if n > 0 then [PopularItem(menu[0], n)] else [];
      assert Ordered(menu, rows) == head + rest;
      forall k | 0 <= k < |rest| ensures menu[0].id < rest[k].item.id {
        assert rest[k] in rest;
        var m :| 0 <= m < |tail| && tail[m] == rest[k].item;
        assert menu[m + 1] == rest[k].item;
      }
    }
  }

  /** Rows with increasing ids occur once each. */
  lemma {:induction false} IncreasingOccursOnce(s: seq<PopularItem>, x: PopularItem)
    requires IdsIncrease(s)
    ensures multiset(s)[x] <= 1
  {
    if s != [] {
      var tail := s[1..];
      assert IdsIncrease(tail) by {
        assert forall k :: 0 <= k < |tail| ==> tail[k] == s[k + 1];
      }
      IncreasingOccursOnce(tail, x);
      assert s == [s[0]] + tail;
      if s[0] == x {
        forall k | 0 <= k < |tail| ensures tail[k] != x {
          assert tail[k] == s[k + 1];
        }
      }
    }
  }

  /** Among rows with increasing ids, different rows have different ids. */
  lemma DistinctRowsDistinctIds(s: seq<PopularItem>, p: PopularItem, q: PopularItem)
    requires IdsIncrease(s) && p in s && q in s && p != q
    ensures p.item.id != q.item.id
  {
    var a :| 0 <= a < |s| && s[a] == p;
    var b :| 0 <= b < |s| && s[b] == q;
    assert a < b || b < a;
  }

  /** Two positions of a sequence whose rows occur once hold different rows. */
  lemma OnceMeansDistinct(s: seq<PopularItem>, i: nat, j: nat)
    requires i < j < |s|
    requires multiset(s)[s[i]] <= 1
    ensures s[i] != s[j]
  {
    assert s == s[..j] + s[j..];
    assert s[i] in s[..j] && s[j] in s[j..];
    assert multiset(s)[s[j]] == multiset(s[..j])[s[j]] + multiset(s[j..])[s[j]];
  }

  /** A permutation of rows with increasing ids lists no id twice. */
  lemma PermutationIdsDistinct(s: seq<PopularItem>, p: seq<PopularItem>)
    requires IdsIncrease(s) && multiset(p) == multiset(s)
    ensures forall i, j :: 0 <= i < j < |p| ==> p[i].item.id != p[j].item.id
  {
    forall i, j | 0 <= i < j < |p| ensures p[i].item.id != p[j].item.id {
      IncreasingOccursOnce(s, p[i]);
      OnceMeansDistinct(p, i, j);
      assert p[i] in multiset(p) && p[j] in multiset(p);
      DistinctRowsDistinctIds(s, p[i], p[j]);
    }
  }

  /** AUTOINCREMENT keys make the menu's ids increase. */
  lemma MenuIdsIncrease(t: Tables)
    requires TablesValid(t)
    ensures forall i, j :: 0 <= i < j < |t.menuItems| ==> t.menuItems[i].id < t.menuItems[j].id
  {
    assert forall i :: 0 <= i < |t.menuItems| ==> MenuItemIds(t.menuItems)[i] == t.menuItems[i].id;
  }

  /** No menu item is listed twice among the popular items. */
  lemma PopularItemsDistinct(t: Tables)
    requires TablesValid(t)
    ensures var r := PopularItems(t);
      forall i, j :: 0 <= i < j < |r| ==> r[i].item.id != r[j].item.id
  {
    var candidates := Ordered(t.menuItems, t.orderItems);
    var sorted := SortDesc(candidates, OrderCountKey);
    MenuIdsIncrease(t);
    OrderedIdsIncrease(t.menuItems, t.orderItems);
    PermutationIdsDistinct(candidates, sorted);
    var r := PopularItems(t);
    assert forall i :: 0 <= i < |r| ==> r[i] == sorted[i];
  }

  // ---------------------------------------------------------------------
  // GET /api/stats: total revenue

  const CancelledStatus := "cancelled"

  /** `SUM(total_amount) FROM orders WHERE status != 'cancelled'`, with the
      `|| 0` for an empty sum (server.js:615-618). */
  function Revenue(orders: seq<OrderRow>): real {
    if orders == [] then 0.0
    else
      var last := orders[|orders| - 1];
      Revenue(orders[..|orders| - 1]) + (if last.status != CancelledStatus then last.totalAmount else 0.0)
  }

  /** Revenue adds up over the rows. */
  lemma {:induction false} RevenueAppend(a: seq<OrderRow>, b: seq<OrderRow>)
    ensures Revenue(a + b) == Revenue(a) + Revenue(b)
  {
    if b == [] {
      assert a + b == a;
    } else {
      assert (a + b)[..|a + b| - 1] == a + b[..|b| - 1];
      RevenueAppend(a, b[..|b| - 1]);
    }
  }

  /** A committed order adds its client-sent total to the revenue. */
  lemma PlacedOrderRevenue(t: Tables, userId: Json, total: real, now: int, lines: seq<ItemLine>)
    ensures Revenue(WithOrder(t, userId, total, now, lines).orders) == Revenue(t.orders) + total
  {
    var header := OrderRow(t.nextOrderId, userId, total, PendingStatus, now);
    RevenueAppend(t.orders, [header]);
    assert [header][..0] == [];
  }

  /** The orders an `id` names. */
  function OrdersWithId(orders: seq<OrderRow>, id: real): (r: seq<OrderRow>)
    ensures forall o :: o in r <==> o in orders && o.id as real == id
  {
    if orders == [] then []
    else
      var last := orders[|orders| - 1];
      assert forall o :: o in orders <==> o == last || o in orders[..|orders| - 1];
      OrdersWithId(orders[..|orders| - 1], id) + (if last.id as real == id then [last] else [])
  }

  /** The UPDATE acts row by row. */
  lemma WithStatusSnoc(orders: seq<OrderRow>, id: real, status: string)
    requires orders != []
    ensures var last := orders[|orders| - 1];
      WithStatus(orders, id, status)
      == WithStatus(orders[..|orders| - 1], id, status) + [if last.id as real == id then last.(status := status) else last]
  {
  }

  /** Cancelling an order takes exactly that order's counted total out of
      the revenue. */
  lemma {:induction false} CancelRevenue(orders: seq<OrderRow>, id: real)
    ensures Revenue(WithStatus(orders, id, CancelledStatus)) + Revenue(OrdersWithId(orders, id)) == Revenue(orders)
  {
    if orders != [] {
      var front := orders[..|orders| - 1];
      var last := orders[|orders| - 1];
      var u := WithStatus(orders, id, CancelledStatus);
      WithStatusSnoc(orders, id, CancelledStatus);
      var u' := WithStatus(front, id, CancelledStatus);
      assert u[..|u| - 1] == u';
      CancelRevenue(front, id);
      if last.id as real == id {
        RevenueAppend(OrdersWithId(front, id), [last]);
        assert [last][..0] == [];
      } else {
        assert OrdersWithId(orders, id) == OrdersWithId(front, id);
      }
    }
  }
}
