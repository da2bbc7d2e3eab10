/** The write routes of server.js over an in-memory model of the SQLite
    database: POST /api/orders (the order commit), POST /api/login,
    PUT /api/orders/:orderId/status and POST /api/feedback.  Every sqlite3
    callback runs to completion before the next statement, in submission
    order. */
module Server {
  import opened Values
  import opened Tables

  // ---------------------------------------------------------------------
  // Request validation (pure)

  /** The shape check of server.js:334: a truthy userId, a non-empty array of
      items and a numeric totalAmount. */
  predicate OrderShapeValid(userId: Json, items: Json, totalAmount: Json) {
    !(IsFalsy(userId) || IsFalsy(items) || !items.Arr? || |items.elems| == 0
      || totalAmount.Undefined? || !IsNumber(totalAmount))
  }

  /** One line item as it is written to order_items. */
  datatype ItemLine = ItemLine(itemId: real, quantity: real, price: real)

  /** The per-item check of server.js:357: numeric id, quantity and price and a
      positive quantity; the line to insert when it passes. */
  function ItemCheck(item: Json): (r: Option<ItemLine>)
    ensures r.Some? <==> item.Obj? && Get(item, "id").Num? && Get(item, "quantity").Num?
                         && Get(item, "quantity").n > 0.0 && Get(item, "price").Num?
    ensures r.Some? ==> r.value == ItemLine(Get(item, "id").n, Get(item, "quantity").n, Get(item, "price").n)
  {
    if IsFalsy(item) || !IsNumber(Get(item, "id")) || !IsNumber(Get(item, "quantity"))
       || Get(item, "quantity").n <= 0.0 || !IsNumber(Get(item, "price"))
    then None
    else Some(ItemLine(Get(item, "id").n, Get(item, "quantity").n, Get(item, "price").n))
  }

  /** The lines of a request when every item passes the per-item check. */
  function CheckedLines(items: seq<Json>): (r: Option<seq<ItemLine>>)
    ensures r.Some? <==> forall k :: 0 <= k < |items| ==> ItemCheck(items[k]).Some?
    ensures r.Some? ==> |r.value| == |items|
    ensures r.Some? ==> forall k :: 0 <= k < |items| ==> ItemCheck(items[k]) == Some(r.value[k])
  {
    if items == [] then
      Some([])
    else
      var front := items[..|items| - 1];
      var last := ItemCheck(items[|items| - 1]);
      var prefix := CheckedLines(front);
      assert forall k :: 0 <= k < |front| ==> front[k] == items[k];
      if prefix.Some? && last.Some? then Some(prefix.value + [last.value]) else None
  }

  /** Storage failures the environment may inject into one order commit: the
      header insert, and the item inserts at the given positions. */
  datatype StorageFaults = StorageFaults(orderHeaderFails: bool, failingItemInserts: set<nat>)

  /** Whether an order request that passed the shape check is committed. */
  predicate CommitSucceeds(items: seq<Json>, faults: StorageFaults) {
    && !faults.orderHeaderFails
    && CheckedLines(items).Some?
    && forall k :: 0 <= k < |items| ==> k !in faults.failingItemInserts
  }

  /** The order_items rows of one order: consecutive ids from `firstId`, in
      submission order, each with its submitted quantity and unit price. */
  function ItemRows(firstId: nat, orderId: nat, lines: seq<ItemLine>): seq<OrderItemRow> {
    seq(|lines|, k requires 0 <= k < |lines| =>
      OrderItemRow(firstId + k, orderId, lines[k].itemId, lines[k].quantity, lines[k].price))
  }

  /** Extending a prefix of the request's items by one item extends the
      count and the checked lines by that item. */
  lemma PrefixStep(list: seq<Json>, i: nat)
    requires i < |list|
    ensures AsWrittenItemsProcessed(list[..i + 1])
         == AsWrittenItemsProcessed(list[..i]) + (if ItemCheck(list[i]).Some? then 1 else 0)
    ensures CheckedLines(list[..i + 1])
         == if CheckedLines(list[..i]).Some? && ItemCheck(list[i]).Some?
            then Some(CheckedLines(list[..i]).value + [ItemCheck(list[i]).value]) else None
  {
    assert list[..i + 1][..i] == list[..i];
  }

  /** One more line adds one more row, under the next id. */
  lemma ItemRowsSnoc(firstId: nat, orderId: nat, lines: seq<ItemLine>, line: ItemLine)
    ensures ItemRows(firstId, orderId, lines + [line])
         == ItemRows(firstId, orderId, lines) + [OrderItemRow(firstId + |lines|, orderId, line.itemId, line.quantity, line.price)]
  {
  }

  /** The database after one committed order: the header with the client's
      total and status 'pending' under the next order id, then its items. */
  function WithOrder(t: Tables, userId: Json, total: real, now: int, lines: seq<ItemLine>): Tables {
    t.(orders := t.orders + [OrderRow(t.nextOrderId, userId, total, PendingStatus, now)],
       orderItems := t.orderItems + ItemRows(t.nextOrderItemId, t.nextOrderId, lines),
       nextOrderId := t.nextOrderId + 1,
       nextOrderItemId := t.nextOrderItemId + |lines|)
  }

  /** A committed order keeps the tables valid; the new order id was not in
      use, and no older item row names it. */
  lemma {:induction false} WithOrderValid(t: Tables, userId: Json, total: real, now: int, lines: seq<ItemLine>)
    requires TablesValid(t)
    ensures TablesValid(WithOrder(t, userId, total, now, lines))
    ensures forall o :: o in t.orders ==> o.id != t.nextOrderId
    ensures forall r :: r in t.orderItems ==> r.orderId != t.nextOrderId
  {
    var t' := WithOrder(t, userId, total, now, lines);
    KeysBelowAppend(OrderIds(t.orders), t.nextOrderId);
    assert OrderIds(t.orders + [OrderRow(t.nextOrderId, userId, total, PendingStatus, now)]) == OrderIds(t.orders) + [t.nextOrderId];
    var rows := ItemRows(t.nextOrderItemId, t.nextOrderId, lines);
    forall i, j | 0 <= i < j < |t'.orderItems| ensures t'.orderItems[i].id < t'.orderItems[j].id {
      if j >= |t.orderItems| {
        assert t'.orderItems[j] == rows[j - |t.orderItems|];
        if i < |t.orderItems| {
          assert t'.orderItems[i] == t.orderItems[i];
        } else {
          assert t'.orderItems[i] == rows[i - |t.orderItems|];
        }
      }
    }
    forall i | 0 <= i < |t'.orderItems|
      ensures t'.orderItems[i].id < t'.nextOrderItemId && t'.orderItems[i].orderId < t'.nextOrderId
    {
      if i >= |t.orderItems| {
        assert t'.orderItems[i] == rows[i - |t.orderItems|];
      }
    }
  }

  /** The login check of server.js:241: a falsy name or phone (absent,
      null, false, 0 or ""). */
  predicate LoginFieldMissing(field: Json) {
    IsFalsy(field)
  }

  /** The text a TEXT column holds for a bound value: a string as sent, and
      for any other value the text SQLite converts it to, which is the
      parameter `asText`.  The `phone = ?` comparison applies the column's
      TEXT affinity to the bound value in the same way. */
  function ColumnText(v: Json, asText: Json -> string): (r: string)
    ensures v.Str? ==> r == v.s
  {
    if v.Str? then v.s else asText(v)
  }

  /** `SELECT * FROM users WHERE phone = ?` (server.js:247): the user with
      that phone, if any. */
  function FindUserByPhone(users: seq<UserRow>, phone: string): (r: Option<UserRow>)
    ensures r.Some? ==> r.value in users && r.value.phone == phone
    ensures r.None? ==> forall i :: 0 <= i < |users| ==> users[i].phone != phone
  {
    if users == [] then None
    else if users[0].phone == phone then Some(users[0])
    else
      var r := FindUserByPhone(users[1..], phone);
      assert forall i :: 1 <= i < |users| ==> users[i] == users[1..][i - 1];
      r
  }

  /** The status check of server.js:522: a non-empty string. */
  predicate StatusValid(status: Json) {
    !(IsFalsy(status) || !status.Str?)
  }

  /** Whether some order has the given id (what `this.changes` reports). */
  predicate HasOrder(orders: seq<OrderRow>, id: real) {
    exists k :: 0 <= k < |orders| && orders[k].id as real == id
  }

  /** `UPDATE orders SET status = ? WHERE id = ?` on the orders table. */
  function WithStatus(orders: seq<OrderRow>, id: real, status: string): seq<OrderRow> {
    seq(|orders|, k requires 0 <= k < |orders| =>
      if orders[k].id as real == id then orders[k].(status := status) else orders[k])
  }

  /** The feedback check of server.js:404: a truthy numeric userId and a
      truthy numeric rating between 1 and 5. */
  predicate FeedbackAccepted(userId: Json, rating: Json) {
    !(IsFalsy(userId) || !IsNumber(userId) || IsFalsy(rating) || !IsNumber(rating)
      || rating.n < 1.0 || rating.n > 5.0)
  }

  /** Accepted feedback: a non-zero numeric user id and a numeric rating in
      1..5; the separate truthiness test of the rating adds nothing. */
  lemma FeedbackAcceptedMeans(userId: Json, rating: Json)
    ensures FeedbackAccepted(userId, rating)
        <==> userId.Num? && userId.n != 0.0 && rating.Num? && 1.0 <= rating.n <= 5.0
  {
  }

  /** `comment || ''` (server.js:410). */
  function StoredComment(comment: Json): (r: Json)
    ensures !IsFalsy(comment) ==> r == comment
    ensures IsFalsy(comment) ==> r == Str("")
  {
    if IsFalsy(comment) then Str("") else comment
  }

  // ---------------------------------------------------------------------
  // Reply texts

  const InvalidOrderData := "Invalid order data: User ID, non-empty items array, and total amount are required."
  const OrderRecordFailed := "Failed to create order record"
  const OrderItemsFailed := "Failed to add items to order. Order rolled back."
  const LoginFieldsRequired := "Name and phone number are required"
  const InvalidOrderIdFormat := "Invalid order ID format"
  const StatusRequired := "Status is required and must be a string"
  const OrderNotFound := "Order not found"
  const FeedbackRequired := "User ID and a valid rating (1-5) are required"

  // ---------------------------------------------------------------------
  // The store

  class Store {
    var users: seq<UserRow>
    var categories: seq<CategoryRow>
    var menuItems: seq<MenuItemRow>
    var orders: seq<OrderRow>
    var orderItems: seq<OrderItemRow>
    var feedback: seq<FeedbackRow>
    var nextUserId: nat
    var nextCategoryId: nat
    var nextMenuItemId: nat
    var nextOrderId: nat
    var nextOrderItemId: nat
    var nextFeedbackId: nat
    /** The database as it was at BEGIN TRANSACTION, while one is open. */
    var savepoint: Option<Tables>

    function Snapshot(): Tables
      reads this
    {
      Tables(users, categories, menuItems, orders, orderItems, feedback,
             nextUserId, nextCategoryId, nextMenuItemId, nextOrderId, nextOrderItemId, nextFeedbackId)
    }

    /** Outside a transaction the tables are consistent; inside one, the
        state at BEGIN is, and COMMIT demands that the current one is too. */
    ghost predicate Valid()
      reads this
    {
      if savepoint.Some? then TablesValid(savepoint.value) else TablesValid(Snapshot())
    }

    predicate InTransaction()
      reads this
    {
      savepoint.Some?
    }

    /** A store opened on an existing database (for instance the seeded one). */
    constructor (initial: Tables)
      requires TablesValid(initial)
      ensures Valid() && !InTransaction() && Snapshot() == initial
    {
      users, categories, menuItems := initial.users, initial.categories, initial.menuItems;
      orders, orderItems, feedback := initial.orders, initial.orderItems, initial.feedback;
      nextUserId, nextCategoryId, nextMenuItemId := initial.nextUserId, initial.nextCategoryId, initial.nextMenuItemId;
      nextOrderId, nextOrderItemId, nextFeedbackId := initial.nextOrderId, initial.nextOrderItemId, initial.nextFeedbackId;
      savepoint := None;
    }

    /** BEGIN TRANSACTION. */
    method Begin()
      requires Valid() && !InTransaction()
      modifies this
      ensures Valid() && savepoint == Some(old(Snapshot())) && Snapshot() == old(Snapshot())
    {
      savepoint := Some(Snapshot());
    }

    /** ROLLBACK: every table and counter goes back to its value at BEGIN. */
    method Rollback()
      requires Valid() && InTransaction()
      modifies this
      ensures Valid() && !InTransaction() && Snapshot() == old(savepoint.value)
    {
      var t := savepoint.value;
      users, categories, menuItems := t.users, t.categories, t.menuItems;
      orders, orderItems, feedback := t.orders, t.orderItems, t.feedback;
      nextUserId, nextCategoryId, nextMenuItemId := t.nextUserId, t.nextCategoryId, t.nextMenuItemId;
      nextOrderId, nextOrderItemId, nextFeedbackId := t.nextOrderId, t.nextOrderItemId, t.nextFeedbackId;
      savepoint := None;
      assert Snapshot() == t;
    }

    /** COMMIT: the writes since BEGIN stay. */
    method Commit()
      requires Valid() && InTransaction() && TablesValid(Snapshot())
      modifies this
      ensures Valid() && !InTransaction() && Snapshot() == old(Snapshot())
    {
      savepoint := None;
    }

    /** `INSERT INTO orders (user_id, total_amount) VALUES (?, ?)`; returns
        `this.lastID`, or None when the storage reports an error. */
    method InsertOrderRow(userId: Json, total: real, now: int, fails: bool) returns (id: Option<nat>)
      requires InTransaction()
      modifies this
      ensures savepoint == old(savepoint)
      ensures fails ==> id == None && Snapshot() == old(Snapshot())
      ensures !fails ==> id == Some(old(nextOrderId))
      ensures !fails ==> Snapshot() == old(Snapshot()).(
        orders := old(orders) + [OrderRow(old(nextOrderId), userId, total, PendingStatus, now)],
        nextOrderId := old(nextOrderId) + 1)
    {
      if fails {
        id := None;
      } else {
        orders := orders + [OrderRow(nextOrderId, userId, total, PendingStatus, now)];
        id := Some(nextOrderId);
        nextOrderId := nextOrderId + 1;
      }
    }

    /** `INSERT INTO order_items (order_id, item_id, quantity, price)`. */
    method InsertOrderItemRow(orderId: nat, line: ItemLine, fails: bool) returns (ok: bool)
      requires InTransaction()
      modifies this
      ensures savepoint == old(savepoint)
      ensures ok == !fails
      ensures fails ==> Snapshot() == old(Snapshot())
      ensures !fails ==> Snapshot() == old(Snapshot()).(
        orderItems := old(orderItems) + [OrderItemRow(old(nextOrderItemId), orderId, line.itemId, line.quantity, line.price)],
        nextOrderItemId := old(nextOrderItemId) + 1)
    {
      ok := !fails;
      if ok {
        var row := OrderItemRow(nextOrderItemId, orderId, line.itemId, line.quantity, line.price);
        orderItems := orderItems + [row];
        nextOrderItemId := nextOrderItemId + 1;
      }
    }

    /** One turn of the `items.forEach` of server.js:355-387: the per-item
        check, then the insert for an item that passed it.  `line` is the
        checked line (None for a skipped item); `ok` says a row was written. */
    method InsertItem(orderId: nat, item: Json, fails: bool) returns (line: Option<ItemLine>, ok: bool)
      requires InTransaction()
      modifies this
      ensures savepoint == old(savepoint)
      ensures line == ItemCheck(item) && ok == (line.Some? && !fails)
      ensures !ok ==> Snapshot() == old(Snapshot())
      ensures ok ==> Snapshot() == old(Snapshot()).(
        orderItems := old(orderItems) + [OrderItemRow(old(nextOrderItemId), orderId, line.value.itemId, line.value.quantity, line.value.price)],
        nextOrderItemId := old(nextOrderItemId) + 1)
    {
      line := ItemCheck(item);
      if line.None? {
        // server.js:357-359: recorded and skipped
        ok := false;
      } else {
        ok := InsertOrderItemRow(orderId, line.value, fails);
      }
    }

    /** The `items.forEach` of server.js:355-387, run sequentially inside
        the open transaction: each item that passes the per-item check is
        inserted and counted in itemsProcessed; the position of the first item
        that failed its check or its insert is recorded.  When nothing failed,
        exactly one row per item was appended, in submission order. */
    method InsertItems(orderId: nat, list: seq<Json>, faults: StorageFaults)
      returns (itemsProcessed: nat, transactionError: Option<nat>)
      requires InTransaction()
      modifies this
      ensures savepoint == old(savepoint) && nextOrderId == old(nextOrderId)
      ensures itemsProcessed == AsWrittenItemsProcessed(list)
      ensures transactionError.None? <==>
        CheckedLines(list).Some? && forall k :: 0 <= k < |list| ==> k !in faults.failingItemInserts
      ensures transactionError.Some? ==> transactionError.value < |list|
      ensures transactionError.None? ==>
        Snapshot() == old(Snapshot()).(
          orderItems := old(orderItems) + ItemRows(old(nextOrderItemId), orderId, CheckedLines(list).value),
          nextOrderItemId := old(nextOrderItemId) + |list|)
    {
      ghost var start := Snapshot();
      itemsProcessed := 0;
      transactionError := None;
      var i := 0;
      while i < |list|
        invariant 0 <= i <= |list|
        invariant savepoint == old(savepoint)
        invariant Snapshot().(orderItems := start.orderItems, nextOrderItemId := start.nextOrderItemId) == start
        invariant itemsProcessed == AsWrittenItemsProcessed(list[..i])
        invariant transactionError.None? <==>
          CheckedLines(list[..i]).Some? && forall k :: 0 <= k < i ==> k !in faults.failingItemInserts
        invariant transactionError.Some? ==> transactionError.value < i
        invariant transactionError.None? ==>
          && orderItems == start.orderItems + ItemRows(start.nextOrderItemId, orderId, CheckedLines(list[..i]).value)
          && nextOrderItemId == start.nextOrderItemId + i
      {
        var line, ok := InsertItem(orderId, list[i], i in faults.failingItemInserts);
        PrefixStep(list, i);
        if line.Some? {
          itemsProcessed := itemsProcessed + 1;
        }
        if transactionError.None? {
          if ok {
            ItemRowsSnoc(start.nextOrderItemId, orderId, CheckedLines(list[..i]).value, line.value);
          } else {
            transactionError := Some(i);
          }
        }
        i := i + 1;
      }
      assert list[..|list|] == list;
    }

    /** POST /api/orders (server.js:331-398), run sequentially.  The reply is
        the new order id.  A bad shape is a 400 that writes nothing; otherwise
        the header and then every line are inserted inside one transaction,
        which is committed only when every item passed the per-item check and
        every insert succeeded, and rolled back (a 500) otherwise.  The
        client's totalAmount is stored as sent: it is not compared with the
        lines.

        This is the decision server.js:368-383 evidently intends.  As written,
        an item skipped at server.js:357-359 never increments itemsProcessed,
        so the completion test at server.js:368 cannot fire for that request;
        and the fallback at server.js:389 is evaluated before any insert
        callback has run (see AsWrittenItemsProcessed and
        AsWrittenFallbackFires below). */
    method PlaceOrder(userId: Json, items: Json, totalAmount: Json, now: int, faults: StorageFaults)
      returns (reply: Reply<nat>)
      requires Valid() && !InTransaction()
      modifies this
      ensures Valid() && !InTransaction()
      ensures !OrderShapeValid(userId, items, totalAmount) ==>
        reply == Failure(400, InvalidOrderData) && Snapshot() == old(Snapshot())
      ensures OrderShapeValid(userId, items, totalAmount) && faults.orderHeaderFails ==>
        reply == Failure(500, OrderRecordFailed) && Snapshot() == old(Snapshot())
      ensures OrderShapeValid(userId, items, totalAmount) && !faults.orderHeaderFails && !CommitSucceeds(items.elems, faults) ==>
        reply == Failure(500, OrderItemsFailed) && Snapshot() == old(Snapshot())
      ensures OrderShapeValid(userId, items, totalAmount) && CommitSucceeds(items.elems, faults) ==>
        && reply == Success(old(nextOrderId))
        && Snapshot() == WithOrder(old(Snapshot()), userId, totalAmount.n, now, CheckedLines(items.elems).value)
    {
      if !OrderShapeValid(userId, items, totalAmount) {
        return Failure(400, InvalidOrderData);
      }
      var list := items.elems;
      var total := totalAmount.n;

      Begin();
      var header := InsertOrderRow(userId, total, now, faults.orderHeaderFails);
      if header.None? {
        Rollback();
        return Failure(500, OrderRecordFailed);
      }
      var orderId := header.value;
      var itemsProcessed, transactionError := InsertItems(orderId, list, faults);
      // the completion decision of server.js:368-383, taken once every item was handled
      if transactionError.Some? {
        Rollback();
        reply := Failure(500, OrderItemsFailed);
      } else {
        WithOrderValid(old(Snapshot()), userId, total, now, CheckedLines(list).value);
        Commit();
        reply := Success(orderId);
      }
    }

    /** POST /api/login (server.js:237-288): a known phone logs in as the
        stored user, whatever name is sent; an unknown phone registers one
        new user under the next id.  The UNIQUE constraint on phone cannot
        fire here, because the phone was looked up just before the insert,
        and the store keeps phones unique. */
    method Login(name: Json, phone: Json, asText: Json -> string) returns (reply: Reply<UserRow>)
      requires Valid() && !InTransaction()
      modifies this
      ensures Valid() && !InTransaction()
      ensures LoginFieldMissing(name) || LoginFieldMissing(phone) ==>
        reply == Failure(400, LoginFieldsRequired) && Snapshot() == old(Snapshot())
      ensures !LoginFieldMissing(name) && !LoginFieldMissing(phone)
              && FindUserByPhone(old(users), ColumnText(phone, asText)).Some? ==>
        reply == Success(FindUserByPhone(old(users), ColumnText(phone, asText)).value) && Snapshot() == old(Snapshot())
      ensures !LoginFieldMissing(name) && !LoginFieldMissing(phone)
              && FindUserByPhone(old(users), ColumnText(phone, asText)).None? ==>
        && reply == Success(UserRow(old(nextUserId), ColumnText(name, asText), ColumnText(phone, asText)))
        && Snapshot() == old(Snapshot()).(users := old(users) + [reply.value], nextUserId := old(nextUserId) + 1)
    {
      if LoginFieldMissing(name) || LoginFieldMissing(phone) {
        return Failure(400, LoginFieldsRequired);
      }
      var phoneText := ColumnText(phone, asText);
      var existing := FindUserByPhone(users, phoneText);
      if existing.Some? {
        return Success(existing.value);
      }
      var user := UserRow(nextUserId, ColumnText(name, asText), phoneText);
      KeysBelowAppend(UserIds(users), nextUserId);
      assert UserIds(users + [user]) == UserIds(users) + [nextUserId];
      users := users + [user];
      nextUserId := nextUserId + 1;
      reply := Success(user);
    }

    /** PUT /api/orders/:orderId/status (server.js:515-550).  `this.changes`
        is the number of rows the UPDATE matched. */
    method UpdateOrderStatus(orderId: PathNumber, status: Json) returns (reply: Reply<()>)
      requires Valid() && !InTransaction()
      modifies this
      ensures Valid() && !InTransaction()
      ensures orderId.NaN? ==> reply == Failure(400, InvalidOrderIdFormat) && Snapshot() == old(Snapshot())
      ensures orderId.Number? && !StatusValid(status) ==>
        reply == Failure(400, StatusRequired) && Snapshot() == old(Snapshot())
      ensures orderId.Number? && StatusValid(status) && !HasOrder(old(orders), orderId.value) ==>
        reply == Failure(404, OrderNotFound) && Snapshot() == old(Snapshot())
      ensures orderId.Number? && StatusValid(status) && HasOrder(old(orders), orderId.value) ==>
        && reply == Success(())
        && Snapshot() == old(Snapshot()).(orders := WithStatus(old(orders), orderId.value, status.s))
    {
      if orderId.NaN? {
        return Failure(400, InvalidOrderIdFormat);
      }
      if !StatusValid(status) {
        return Failure(400, StatusRequired);
      }
      var id := orderId.value;
      var updated: seq<OrderRow> := [];
      var changes := 0;
      var i := 0;
      while i < |orders|
        invariant 0 <= i <= |orders|
        invariant |updated| == i
        invariant forall k :: 0 <= k < i ==>
          updated[k] == if orders[k].id as real == id then orders[k].(status := status.s) else orders[k]
        invariant changes == 0 <==> forall k :: 0 <= k < i ==> orders[k].id as real != id
      {
        if orders[i].id as real == id {
          updated := updated + [orders[i].(status := status.s)];
          changes := changes + 1;
        } else {
          updated := updated + [orders[i]];
        }
        i := i + 1;
      }
      if changes == 0 {
        return Failure(404, OrderNotFound);
      }
      assert updated == WithStatus(orders, id, status.s);
      orders := updated;
      reply := Success(());
    }

    /** POST /api/feedback (server.js:401-428); the reply is the new
        feedback id.  Foreign keys are not enforced (SQLite's default), so an
        accepted request is always inserted. */
    method SubmitFeedback(userId: Json, rating: Json, comment: Json) returns (reply: Reply<nat>)
      requires Valid() && !InTransaction()
      modifies this
      ensures Valid() && !InTransaction()
      ensures !FeedbackAccepted(userId, rating) ==>
        reply == Failure(400, FeedbackRequired) && Snapshot() == old(Snapshot())
      ensures FeedbackAccepted(userId, rating) ==>
        && reply == Success(old(nextFeedbackId))
        && Snapshot() == old(Snapshot()).(
             feedback := old(feedback) + [FeedbackRow(old(nextFeedbackId), userId.n, rating.n, StoredComment(comment))],
             nextFeedbackId := old(nextFeedbackId) + 1)
    {
      if !FeedbackAccepted(userId, rating) {
        return Failure(400, FeedbackRequired);
      }
      var row := FeedbackRow(nextFeedbackId, userId.n, rating.n, StoredComment(comment));
      KeysBelowAppend(FeedbackIds(feedback), nextFeedbackId);
      assert FeedbackIds(feedback + [row]) == FeedbackIds(feedback) + [nextFeedbackId];
      feedback := feedback + [row];
      reply := Success(nextFeedbackId);
      nextFeedbackId := nextFeedbackId + 1;
    }
  }

  // ---------------------------------------------------------------------
  // The completion logic of server.js:352-394 as written

  /** How many items reach `itemStmt.run` (server.js:361), and so how large
      itemsProcessed can ever become: skipped items are not counted. */
  function AsWrittenItemsProcessed(items: seq<Json>): (n: nat)
    ensures n <= |items|
  {
    if items == [] then 0
    else AsWrittenItemsProcessed(items[..|items| - 1]) + (if ItemCheck(items[|items| - 1]).Some? then 1 else 0)
  }

  /** A request with an item that fails the per-item check never reaches
      `itemsProcessed === items.length` (server.js:368): neither COMMIT nor
      ROLLBACK is issued and no reply is sent. */
  lemma {:induction false} SkippedItemBlocksCompletion(items: seq<Json>, k: nat)
    requires k < |items| && ItemCheck(items[k]).None?
    ensures AsWrittenItemsProcessed(items) < |items|
  {
    var front := items[..|items| - 1];
    if k < |items| - 1 {
      assert front[k] == items[k];
      SkippedItemBlocksCompletion(front, k);
    }
  }

  /** When every item passes the check, every item is counted. */
  lemma {:induction false} AllValidItemsProcessed(items: seq<Json>)
    requires CheckedLines(items).Some?
    ensures AsWrittenItemsProcessed(items) == |items|
  {
    if items != [] {
      var front := items[..|items| - 1];
      assert forall k :: 0 <= k < |front| ==> front[k] == items[k];
      AllValidItemsProcessed(front);
    }
  }

  /** The fallback test of server.js:389 as the code evaluates it: right after
      `forEach` returns, before any insert callback, so itemsProcessed is still
      0 and transactionError has been set only by skipped items. */
  predicate AsWrittenFallbackFires(items: seq<Json>) {
    var itemsProcessed := 0;
    var transactionErrorSet := CheckedLines(items).None?;
    |items| == 0 || (itemsProcessed == 0 && !transactionErrorSet)
  }

  /** As written, the fallback (ROLLBACK and a 400 "no valid items" reply) is
      scheduled for every request whose items all pass the check, such as
      items = [{id: 1, quantity: 2, price: 150}]. */
  lemma FallbackFiresForValidOrder()
    ensures AsWrittenFallbackFires([Obj(map["id" := Num(1.0), "quantity" := Num(2.0), "price" := Num(150.0)])])
  {
    var item := Obj(map["id" := Num(1.0), "quantity" := Num(2.0), "price" := Num(150.0)]);
    assert ItemCheck(item).Some?;
    assert CheckedLines([item]).Some?;
  }

  /** As written, the fallback test holds for a non-empty request exactly
      when every item passes the per-item check: precisely the requests that
      should be committed are also rolled back. */
  lemma FallbackFiresExactlyForValidOrders(items: seq<Json>)
    requires |items| > 0
    ensures AsWrittenFallbackFires(items) <==> CheckedLines(items).Some?
  {
  }

  /** The same test evaluated once every item has been handled, as intended:
      for a request that passed the shape check it can never hold, which is
      why PlaceOrder has no such branch. */
  lemma SequentialFallbackNeverFires(items: seq<Json>)
    requires |items| > 0
    ensures !(AsWrittenItemsProcessed(items) == 0 && CheckedLines(items).Some?)
  {
    if CheckedLines(items).Some? {
      AllValidItemsProcessed(items);
    }
  }
}
