/** The six SQLite tables of server.js:27-84 as sequences of rows in rowid
    order, with their AUTOINCREMENT counters. */
module Tables {
  import opened Values

  datatype UserRow = UserRow(id: nat, name: string, phone: string)

  datatype CategoryRow = CategoryRow(id: nat, name: string, image: Option<string>)

  datatype MenuItemRow = MenuItemRow(
    id: nat, name: string, price: real, description: Option<string>,
    image: Option<string>, isVeg: bool, categoryId: Option<nat>)

  /** `user_id` holds whatever value the client sent (the column only has
      INTEGER affinity); `created_at` is the clock reading at insertion. */
  datatype OrderRow = OrderRow(id: nat, userId: Json, totalAmount: real, status: string, createdAt: int)

  datatype OrderItemRow = OrderItemRow(id: nat, orderId: nat, itemId: real, quantity: real, price: real)

  datatype FeedbackRow = FeedbackRow(id: nat, userId: real, rating: real, comment: Json)

  datatype Tables = Tables(
    users: seq<UserRow>,
    categories: seq<CategoryRow>,
    menuItems: seq<MenuItemRow>,
    orders: seq<OrderRow>,
    orderItems: seq<OrderItemRow>,
    feedback: seq<FeedbackRow>,
    nextUserId: nat,
    nextCategoryId: nat,
    nextMenuItemId: nat,
    nextOrderId: nat,
    nextOrderItemId: nat,
    nextFeedbackId: nat)

  /** The status a new order gets from the column default (server.js:60). */
  const PendingStatus := "pending"

  /** AUTOINCREMENT keys: increasing in rowid order and below the counter
      that hands out the next one. */
  predicate KeysBelow(ids: seq<nat>, next: nat) {
    && (forall i, j :: 0 <= i < j < |ids| ==> ids[i] < ids[j])
    && (forall i :: 0 <= i < |ids| ==> ids[i] < next)
  }

  function UserIds(rows: seq<UserRow>): (ids: seq<nat>)
    ensures |ids| == |rows| && forall i :: 0 <= i < |rows| ==> ids[i] == rows[i].id
  { seq(|rows|, k requires 0 <= k < |rows| => rows[k].id) }
  function CategoryIds(rows: seq<CategoryRow>): (ids: seq<nat>)
    ensures |ids| == |rows| && forall i :: 0 <= i < |rows| ==> ids[i] == rows[i].id
  { seq(|rows|, k requires 0 <= k < |rows| => rows[k].id) }
  function MenuItemIds(rows: seq<MenuItemRow>): (ids: seq<nat>)
    ensures |ids| == |rows| && forall i :: 0 <= i < |rows| ==> ids[i] == rows[i].id
  { seq(|rows|, k requires 0 <= k < |rows| => rows[k].id) }
  function OrderIds(rows: seq<OrderRow>): (ids: seq<nat>)
    ensures |ids| == |rows| && forall i :: 0 <= i < |rows| ==> ids[i] == rows[i].id
  { seq(|rows|, k requires 0 <= k < |rows| => rows[k].id) }
  function OrderItemIds(rows: seq<OrderItemRow>): (ids: seq<nat>)
    ensures |ids| == |rows| && forall i :: 0 <= i < |rows| ==> ids[i] == rows[i].id
  { seq(|rows|, k requires 0 <= k < |rows| => rows[k].id) }
  function FeedbackIds(rows: seq<FeedbackRow>): (ids: seq<nat>)
    ensures |ids| == |rows| && forall i :: 0 <= i < |rows| ==> ids[i] == rows[i].id
  { seq(|rows|, k requires 0 <= k < |rows| => rows[k].id) }

  /** The UNIQUE constraint on users.phone (server.js:32). */
  predicate PhonesUnique(users: seq<UserRow>) {
    forall i, j :: 0 <= i < j < |users| ==> users[i].phone != users[j].phone
  }

  predicate TablesValid(t: Tables) {
    && KeysBelow(UserIds(t.users), t.nextUserId)
    && KeysBelow(CategoryIds(t.categories), t.nextCategoryId)
    && KeysBelow(MenuItemIds(t.menuItems), t.nextMenuItemId)
    && KeysBelow(OrderIds(t.orders), t.nextOrderId)
    && KeysBelow(OrderItemIds(t.orderItems), t.nextOrderItemId)
    && KeysBelow(FeedbackIds(t.feedback), t.nextFeedbackId)
    && PhonesUnique(t.users)
    // an order item only ever names an order id that had been handed out
    && (forall i :: 0 <= i < |t.orderItems| ==> t.orderItems[i].orderId < t.nextOrderId)
  }

  /** Appending a row under the next key keeps the keys valid. */
  lemma KeysBelowAppend(ids: seq<nat>, next: nat)
    requires KeysBelow(ids, next)
    ensures KeysBelow(ids + [next], next + 1)
  {
  }
}
