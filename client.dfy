/** The page state of public/js/main.js: the logged-in user, the cart, the
    veg-only filter, the selected category and the loaded menu items, and the
    handlers that change them.  DOM updates, toasts, localStorage and the
    requests themselves are not modelled; a handler that talks to the server
    takes the server's answer as a parameter. */
module Client {
  import opened Values
  import opened Tables
  import opened JsText
  import opened Cart
  import opened Bill

  // ---------------------------------------------------------------------
  // Login input (public/js/main.js:137-147)

  const EnterBothError := "Please enter both name and phone number."
  const InvalidPhoneError := "Please enter a valid phone number (at least 10 digits)."
  const LoginFailedError := "Login failed. Please check details."
  const LoginCrashedError := "An error occurred during login."

  /** The phone test `/^\d{10,}$/`: ten or more ASCII digits and nothing else. */
  predicate PhoneFormatOk(phone: string) {
    |phone| >= 10 && AllDigits(phone)
  }

  /** The body `{ name, phone }` sent to POST /api/login. */
  datatype LoginRequest = LoginRequest(name: string, phone: string)

  datatype LoginInput = Accepted(request: LoginRequest) | InputError(message: string)

  /** The input checks of `loginUser()` on the raw field values. */
  function LoginInputCheck(nameRaw: string, phoneRaw: string): (r: LoginInput)
    ensures r.Accepted? <==> Trim(nameRaw) != "" && PhoneFormatOk(Trim(phoneRaw))
    ensures r.Accepted? ==> r.request == LoginRequest(Trim(nameRaw), Trim(phoneRaw))
    ensures Trim(nameRaw) == "" || Trim(phoneRaw) == "" ==> r == InputError(EnterBothError)
    ensures Trim(nameRaw) != "" && Trim(phoneRaw) != "" && !PhoneFormatOk(Trim(phoneRaw)) ==>
      r == InputError(InvalidPhoneError)
  {
    var name := Trim(nameRaw);
    var phone := Trim(phoneRaw);
    if name == "" || phone == "" then InputError(EnterBothError)
    else if !PhoneFormatOk(phone) then InputError(InvalidPhoneError)
    else Accepted(LoginRequest(name, phone))
  }

  /** An accepted login request carries what the server needs: a non-empty
      name, and a phone without surrounding whitespace. */
  lemma AcceptedLoginShape(nameRaw: string, phoneRaw: string)
    requires LoginInputCheck(nameRaw, phoneRaw).Accepted?
    ensures var q := LoginInputCheck(nameRaw, phoneRaw).request;
      q.name != "" && q.phone != "" && Trim(q.name) == q.name && Trim(q.phone) == q.phone
  {
    TrimIdempotent(nameRaw);
    TrimIdempotent(phoneRaw);
  }

  /** What the login request came back with: `{success: true, user}`, a body
      without `success` (with its `error`, if any), or a thrown error (with
      its message, if any). */
  datatype LoginAnswer =
    | LoggedIn(user: UserRow)
    | LoginRefused(error: Option<string>)
    | LoginThrew(message: Option<string>)

  // ---------------------------------------------------------------------
  // The veg filter of renderItems (public/js/main.js:242-257)

  /** `menuItemsData.filter(item => !vegOnlyActive || (vegOnlyActive && item.is_veg))`. */
  function VegFilter(items: seq<MenuItemRow>, vegOnly: bool): (r: seq<MenuItemRow>)
    ensures |r| <= |items|
    ensures forall x :: x in r <==> x in items && (!vegOnly || x.isVeg)
  {
    if items == [] then []
    else
      var last := items[|items| - 1];
      assert forall x :: x in items <==> x == last || x in items[..|items| - 1];
      VegFilter(items[..|items| - 1], vegOnly) + (if !vegOnly || last.isVeg then [last] else [])
  }

  /** Without the filter every item is rendered, in order. */
  lemma {:induction false} VegFilterOff(items: seq<MenuItemRow>)
    ensures VegFilter(items, false) == items
  {
    if items != [] {
      VegFilterOff(items[..|items| - 1]);
    }
  }

  /** The filter keeps the original order: it works on each part of the list
      separately. */
  lemma {:induction false} VegFilterAppend(a: seq<MenuItemRow>, b: seq<MenuItemRow>, vegOnly: bool)
    ensures VegFilter(a + b, vegOnly) == VegFilter(a, vegOnly) + VegFilter(b, vegOnly)
  {
    if b == [] {
      assert a + b == a;
    } else {
      assert (a + b)[..|a + b| - 1] == a + b[..|b| - 1];
      VegFilterAppend(a, b[..|b| - 1], vegOnly);
    }
  }

  /** What the items container shows. */
  datatype ItemsView =
    | NoItems                        // "No items found in this category."
    | NoMatch(vegOnly: bool)         // "No [vegetarian ]items match your filter ..."
    | Cards(items: seq<MenuItemRow>) // one card per item, in order

  /** `renderItems()` without the DOM. */
  function RenderItems(menuItems: seq<MenuItemRow>, vegOnly: bool): (v: ItemsView)
    ensures menuItems == [] ==> v == NoItems
    ensures v.Cards? ==> v.items != [] && v.items == VegFilter(menuItems, vegOnly)
    ensures menuItems != [] && VegFilter(menuItems, vegOnly) == [] ==> v == NoMatch(vegOnly)
  {
    if menuItems == [] then NoItems
    else
      var shown := VegFilter(menuItems, vegOnly);
      if shown == [] then NoMatch(vegOnly) else Cards(shown)
  }

  // ---------------------------------------------------------------------
  // Checkout (public/js/main.js:427-483)

  const LoginBeforeCheckout := "Please login before checking out."
  const EmptyCartToast := "Your cart is empty. Add items to checkout."
  const CheckoutFailedToast := "Checkout failed. Please try again."

  /** One element of `cart.map(item => ({ id, quantity, price }))`. */
  datatype PayloadItem = PayloadItem(id: nat, quantity: int, price: real)

  /** The body of POST /api/orders. */
  datatype OrderPayload = OrderPayload(userId: nat, items: seq<PayloadItem>, totalAmount: real)

  function PayloadItems(cart: seq<CartItem>): (r: seq<PayloadItem>)
    ensures |r| == |cart|
    ensures forall k :: 0 <= k < |cart| ==> r[k] == PayloadItem(cart[k].id, cart[k].quantity, cart[k].price)
  {
    seq(|cart|, k requires 0 <= k < |cart| => PayloadItem(cart[k].id, cart[k].quantity, cart[k].price))
  }

  /** The payload `checkoutOrder` builds: the user's id, every cart entry in
      order, and the cart's total price as `calculateCartTotals` reports it. */
  function PayloadOf(user: UserRow, cart: seq<CartItem>): (p: OrderPayload)
    ensures p.userId == user.id && p.items == PayloadItems(cart) && p.totalAmount == SumPrice(cart)
  {
    OrderPayload(user.id, PayloadItems(cart), CartTotals(cart).totalPrice)
  }

  /** What `apiRequest('/orders', ...)` came back with: `{success: true,
      orderId}`, a body without `success` (with its `error`, if any), or a
      thrown error (with its message, if any). */
  datatype OrderAnswer =
    | OrderPlaced(orderId: nat)
    | OrderRefused(error: Option<string>)
    | OrderThrew(message: Option<string>)

  datatype CheckoutOutcome =
    | NotSent(toast: string)
    | Placed(payload: OrderPayload, bill: BillOutcome)
    | NotPlaced(payload: OrderPayload, toast: string)

  /** The toast of a failed checkout. */
  function CheckoutFailureToast(answer: OrderAnswer): string
    requires !answer.OrderPlaced?
  {
    match answer
    case OrderRefused(error) => OrElse(error, CheckoutFailedToast)
    case OrderThrew(message) => "Checkout Error: " + OrElse(message, "Could not place order.")
  }

  class Session {
    var currentUser: Option<UserRow>
    var cart: seq<CartItem>
    var vegOnlyActive: bool
    var currentCategoryId: Option<nat>
    var menuItemsData: seq<MenuItemRow>

    ghost predicate Valid()
      reads this
    {
      CartValid(cart)
    }

    /** Page load: the user and cart saved in localStorage (a cart this page
        saved), no filter, no category, no items loaded. */
    constructor (savedUser: Option<UserRow>, savedCart: seq<CartItem>)
      requires CartValid(savedCart)
      ensures Valid()
      ensures currentUser == savedUser && cart == savedCart
      ensures !vegOnlyActive && currentCategoryId.None? && menuItemsData == []
    {
      currentUser := savedUser;
      cart := savedCart;
      vegOnlyActive := false;
      currentCategoryId := None;
      menuItemsData := [];
    }

    /** `addToCart(item)` (public/js/main.js:313-328). */
    method AddToCart(item: MenuItemRow)
      requires Valid()
      modifies this
      ensures Valid() && cart == CartAdd(old(cart), item)
      ensures currentUser == old(currentUser) && vegOnlyActive == old(vegOnlyActive)
      ensures currentCategoryId == old(currentCategoryId) && menuItemsData == old(menuItemsData)
    {
      var existing := IndexOf(cart, item.id);
      if existing.Some? {
        var i := existing.value;
        cart := cart[i := cart[i].(quantity := cart[i].quantity + 1)];
      } else {
        cart := cart + [CartItem(item.id, item.name, item.price, 1)];
      }
      CartAddValid(old(cart), item);
    }

    /** `removeFromCart(itemId)` (public/js/main.js:331-343). */
    method RemoveFromCart(itemId: nat)
      requires Valid()
      modifies this
      ensures Valid() && cart == CartRemove(old(cart), itemId)
      ensures currentUser == old(currentUser) && vegOnlyActive == old(vegOnlyActive)
      ensures currentCategoryId == old(currentCategoryId) && menuItemsData == old(menuItemsData)
    {
      var itemIndex := IndexOf(cart, itemId);
      if itemIndex.Some? {
        var i := itemIndex.value;
        if cart[i].quantity > 1 {
          cart := cart[i := cart[i].(quantity := cart[i].quantity - 1)];
        } else {
          cart := cart[..i] + cart[i + 1..];
        }
      }
      CartRemoveValid(old(cart), itemId);
    }

    /** `increaseCartItemQuantity(itemId)` (public/js/main.js:346-352). */
    method IncreaseCartItemQuantity(itemId: nat)
      requires Valid()
      modifies this
      ensures Valid() && cart == CartIncrease(old(cart), itemId)
      ensures currentUser == old(currentUser) && vegOnlyActive == old(vegOnlyActive)
      ensures currentCategoryId == old(currentCategoryId) && menuItemsData == old(menuItemsData)
    {
      var found := IndexOf(cart, itemId);
      if found.Some? {
        var i := found.value;
        cart := cart[i := cart[i].(quantity := cart[i].quantity + 1)];
      }
      CartIncreaseValid(old(cart), itemId);
    }

    /** `logoutUser()` (public/js/main.js:170-182): no user, an empty cart,
        no category and no filter; the loaded items stay in memory. */
    method LogoutUser()
      requires Valid()
      modifies this
      ensures Valid()
      ensures currentUser.None? && cart == [] && currentCategoryId.None? && !vegOnlyActive
      ensures menuItemsData == old(menuItemsData)
    {
      currentUser := None;
      cart := [];
      currentCategoryId := None;
      vegOnlyActive := false;
    }

    /** `toggleVegMode(button)` (public/js/main.js:306-310): flips the filter
        and renders the loaded items again. */
    method ToggleVegMode() returns (view: ItemsView)
      requires Valid()
      modifies this
      ensures Valid() && vegOnlyActive == !old(vegOnlyActive)
      ensures view == RenderItems(menuItemsData, vegOnlyActive)
      ensures currentUser == old(currentUser) && cart == old(cart)
      ensures currentCategoryId == old(currentCategoryId) && menuItemsData == old(menuItemsData)
    {
      vegOnlyActive := !vegOnlyActive;
      view := RenderItems(menuItemsData, vegOnlyActive);
    }

    /** `loginUser()` (public/js/main.js:132-168).  `answer` is what the
        server replies when the input passes the checks; `request` is what
        was sent, and `error` the message shown. */
    method LoginUser(nameRaw: string, phoneRaw: string, answer: LoginAnswer)
      returns (request: Option<LoginRequest>, error: Option<string>)
      requires Valid()
      modifies this
      ensures Valid() && cart == old(cart) && vegOnlyActive == old(vegOnlyActive)
      ensures currentCategoryId == old(currentCategoryId) && menuItemsData == old(menuItemsData)
      ensures LoginInputCheck(nameRaw, phoneRaw).InputError? ==>
        && request.None? && error == Some(LoginInputCheck(nameRaw, phoneRaw).message)
        && currentUser == old(currentUser)
      ensures LoginInputCheck(nameRaw, phoneRaw).Accepted? ==>
        request == Some(LoginInputCheck(nameRaw, phoneRaw).request)
      ensures LoginInputCheck(nameRaw, phoneRaw).Accepted? && answer.LoggedIn? ==>
        error.None? && currentUser == Some(answer.user)
      ensures LoginInputCheck(nameRaw, phoneRaw).Accepted? && answer.LoginRefused? ==>
        error == Some(OrElse(answer.error, LoginFailedError)) && currentUser == old(currentUser)
      ensures LoginInputCheck(nameRaw, phoneRaw).Accepted? && answer.LoginThrew? ==>
        error == Some(OrElse(answer.message, LoginCrashedError)) && currentUser == old(currentUser)
    {
      var input := LoginInputCheck(nameRaw, phoneRaw);
      if input.InputError? {
        return None, Some(input.message);
      }
      request := Some(input.request);
      match answer
      case LoggedIn(user) =>
        currentUser := Some(user);
        error := None;
      case LoginRefused(e) =>
        error := Some(OrElse(e, LoginFailedError));
      case LoginThrew(m) =>
        error := Some(OrElse(m, LoginCrashedError));
    }

    /** `checkoutOrder()` (public/js/main.js:427-483).  `answer` is what the
        order request comes back with; `now` and `escape` are what the bill
        needs.  The bill is generated from the cart before it is emptied,
        and the cart is emptied only when the order was placed. */
    method CheckoutOrder(answer: OrderAnswer, now: nat, escape: string -> string)
      returns (outcome: CheckoutOutcome)
      requires Valid()
      modifies this
      ensures Valid() && currentUser == old(currentUser) && vegOnlyActive == old(vegOnlyActive)
      ensures currentCategoryId == old(currentCategoryId) && menuItemsData == old(menuItemsData)
      ensures old(currentUser).None? ==> outcome == NotSent(LoginBeforeCheckout) && cart == old(cart)
      ensures old(currentUser).Some? && old(cart) == [] ==> outcome == NotSent(EmptyCartToast) && cart == old(cart)
      ensures old(currentUser).Some? && old(cart) != [] && answer.OrderPlaced? ==>
        && outcome == Placed(PayloadOf(old(currentUser).value, old(cart)),
                             GenerateBill(old(currentUser), old(cart), Some(answer.orderId), now, escape))
        && cart == []
      ensures old(currentUser).Some? && old(cart) != [] && !answer.OrderPlaced? ==>
        && outcome == NotPlaced(PayloadOf(old(currentUser).value, old(cart)), CheckoutFailureToast(answer))
        && cart == old(cart)
    {
      if currentUser.None? {
        return NotSent(LoginBeforeCheckout);
      }
      if |cart| == 0 {
        return NotSent(EmptyCartToast);
      }
      var totals := CartTotals(cart);
      var payload := OrderPayload(currentUser.value.id, PayloadItems(cart), totals.totalPrice);
      if answer.OrderPlaced? {
        var bill := GenerateBill(currentUser, cart, Some(answer.orderId), now, escape);
        cart := [];
        outcome := Placed(payload, bill);
      } else {
        outcome := NotPlaced(payload, CheckoutFailureToast(answer));
      }
    }
  }

  /** A placed order's bill is produced, lists the cart that was ordered and
      carries the order's invoice number when the id is not 0. */
  lemma PlacedOrderBill(user: UserRow, cart: seq<CartItem>, orderId: nat, now: nat, escape: string -> string)
    requires cart != []
    ensures var b := GenerateBill(Some(user), cart, Some(orderId), now, escape);
      && b.Produced?
      && b.bill.rows == BillRows(cart, escape)
      && b.bill.subtotal == PayloadOf(user, cart).totalAmount
      && (orderId != 0 ==> b.bill.invoiceNumber == "ORD-" + NatToDecimal(orderId))
  {
  }
}
