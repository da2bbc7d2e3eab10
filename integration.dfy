/** How the page's requests meet the server's checks: the JSON the checkout,
    the feedback form and the login form send, and what the routes of
    server.js make of it. */
module Integration {
  import opened Values
  import opened Tables
  import opened JsText
  import opened Server
  import opened Cart
  import opened Client
  import Feedback

  /** The three body fields POST /api/orders reads. */
  datatype OrderRequest = OrderRequest(userId: Json, items: Json, totalAmount: Json)

  /** `JSON.stringify` of one payload item, as the body parser hands it to
      the route. */
  function ItemJson(x: PayloadItem): Json {
    Obj(map["id" := Num(x.id as real), "quantity" := Num(x.quantity as real), "price" := Num(x.price)])
  }

  function ItemsJson(items: seq<PayloadItem>): (r: seq<Json>)
    ensures |r| == |items| && forall k :: 0 <= k < |items| ==> r[k] == ItemJson(items[k])
  {
    seq(|items|, k requires 0 <= k < |items| => ItemJson(items[k]))
  }

  /** The checkout body as the server receives it. */
  function Serialize(p: OrderPayload): OrderRequest {
    OrderRequest(Num(p.userId as real), Arr(ItemsJson(p.items)), Num(p.totalAmount))
  }

  /** The order lines a cart stands for. */
  function CartLines(cart: seq<CartItem>): (r: seq<ItemLine>)
    ensures |r| == |cart|
    ensures forall k :: 0 <= k < |cart| ==>
      r[k] == ItemLine(cart[k].id as real, cart[k].quantity as real, cart[k].price)
  {
    seq(|cart|, k requires 0 <= k < |cart| => ItemLine(cart[k].id as real, cart[k].quantity as real, cart[k].price))
  }

  /** One payload item passes the per-item check exactly when its quantity
      is positive, and then it is stored as sent. */
  lemma ItemJsonChecked(x: PayloadItem)
    ensures ItemCheck(ItemJson(x)) ==
      if x.quantity > 0 then Some(ItemLine(x.id as real, x.quantity as real, x.price)) else None
  {
    var j := ItemJson(x);
    assert Get(j, "id") == Num(x.id as real);
    assert Get(j, "quantity") == Num(x.quantity as real);
    assert Get(j, "price") == Num(x.price);
  }

  /** A checkout the page sends (it never sends an empty cart) passes the
      shape check of POST /api/orders exactly when the user's id is not 0,
      and carries the cart's total. */
  lemma CheckoutShape(user: UserRow, cart: seq<CartItem>)
    requires cart != []
    ensures var q := Serialize(PayloadOf(user, cart));
      && (OrderShapeValid(q.userId, q.items, q.totalAmount) <==> user.id != 0)
      && q.totalAmount == Num(SumPrice(cart))
  {
    var q := Serialize(PayloadOf(user, cart));
    assert |q.items.elems| == |cart|;
  }

  /** Every entry of a cart the page keeps passes the per-item check, and
      the lines stored are the cart's entries in order. */
  lemma CheckoutLines(user: UserRow, cart: seq<CartItem>)
    requires CartValid(cart)
    ensures CheckedLines(Serialize(PayloadOf(user, cart)).items.elems) == Some(CartLines(cart))
  {
    var elems := Serialize(PayloadOf(user, cart)).items.elems;
    var items := PayloadItems(cart);
    forall k | 0 <= k < |elems|
      ensures ItemCheck(elems[k]) == Some(CartLines(cart)[k])
    {
      assert elems[k] == ItemJson(items[k]);
      ItemJsonChecked(items[k]);
    }
    var r := CheckedLines(elems);
    assert r.Some?;
    assert forall k :: 0 <= k < |cart| ==> r.value[k] == CartLines(cart)[k];
    assert r.value == CartLines(cart);
  }

  /** The Σ quantity × price of a sequence of stored lines. */
  function LinesTotal(lines: seq<ItemLine>): real {
    if lines == [] then 0.0
    else LinesTotal(lines[..|lines| - 1]) + lines[|lines| - 1].price * lines[|lines| - 1].quantity
  }

  /** The server stores the client's totalAmount without recomputing it; for a
      checkout the page built, that total is what the stored lines add up to. */
  lemma {:induction false} CartLinesTotal(cart: seq<CartItem>)
    ensures LinesTotal(CartLines(cart)) == SumPrice(cart)
  {
    if cart != [] {
      var front := cart[..|cart| - 1];
      assert CartLines(cart)[..|cart| - 1] == CartLines(front);
      CartLinesTotal(front);
    }
  }

  /** A checkout from a logged-in user with a non-zero id is committed
      whenever storage does not fail: the order gets the cart's lines and the
      cart's total, and the two agree. */
  lemma CheckoutCommits(user: UserRow, cart: seq<CartItem>)
    requires CartValid(cart) && cart != [] && user.id != 0
    ensures var q := Serialize(PayloadOf(user, cart));
      && OrderShapeValid(q.userId, q.items, q.totalAmount)
      && CommitSucceeds(q.items.elems, StorageFaults(false, {}))
      && CheckedLines(q.items.elems) == Some(CartLines(cart))
      && LinesTotal(CheckedLines(q.items.elems).value) == q.totalAmount.n
  {
    CheckoutShape(user, cart);
    CheckoutLines(user, cart);
    CartLinesTotal(cart);
  }

  /** The feedback body the page sends passes the check of POST
      /api/feedback exactly when the user's id is not 0, and the comment is
      stored as sent (an empty comment as ""). */
  lemma FeedbackReachesServer(user: UserRow, form: Feedback.FeedbackForm)
    requires Feedback.SubmitFeedback(Some(user), form).Send?
    ensures var b := Feedback.SubmitFeedback(Some(user), form).body;
      && (FeedbackAccepted(Num(b.userId as real), Num(b.rating as real)) <==> user.id != 0)
      && StoredComment(Str(b.comment)) == Str(Trim(form.comment))
  {
    var b := Feedback.SubmitFeedback(Some(user), form).body;
    assert b.userId == user.id && 1 <= b.rating <= 5 && b.comment == Trim(form.comment);
    FeedbackAcceptedMeans(Num(b.userId as real), Num(b.rating as real));
  }

  /** A login the page sends never hits the server's missing-field check,
      and the server looks up and stores the trimmed name and phone. */
  lemma LoginReachesServer(nameRaw: string, phoneRaw: string, asText: Json -> string)
    requires LoginInputCheck(nameRaw, phoneRaw).Accepted?
    ensures var q := LoginInputCheck(nameRaw, phoneRaw).request;
      && !LoginFieldMissing(Str(q.name)) && !LoginFieldMissing(Str(q.phone))
      && ColumnText(Str(q.name), asText) == Trim(nameRaw)
      && ColumnText(Str(q.phone), asText) == Trim(phoneRaw)
  {
  }
}
