/** `generateBillPage` of public/js/bill.js: the two guards, the totals, the
    invoice number and the line rows of the bill.  The HTML document and the
    window it is written to are not modelled; the bill is returned as a value. */
module Bill {
  import opened Values
  import opened Tables
  import opened JsText
  import opened Cart

  const NotLoggedInAlert := "Error: Not logged in. Cannot generate bill."
  const NothingToBillAlert := "Cannot generate bill: Cart is empty and no recent order ID provided."

  const TaxRate: real := 0.05
  const ServiceRate: real := 0.10

  /** One `<tr>` of the bill: escaped name, quantity, unit price, line total. */
  datatype BillRow = BillRow(name: string, quantity: int, unitPrice: real, lineTotal: real)

  datatype BillSheet = BillSheet(
    invoiceNumber: string,
    customerName: string,
    customerPhone: string,
    rows: seq<BillRow>,
    subtotal: real,
    tax: real,
    serviceCharge: real,
    grandTotal: real)

  /** An `alert` and no bill, or the bill. */
  datatype BillOutcome = NoBill(alert: string) | Produced(bill: BillSheet)

  /** `orderId` used as a condition: absent (null) and 0 are falsy. */
  predicate OrderIdGiven(orderId: Option<nat>) { orderId.Some? && orderId.value != 0 }

  /** The number of digits of `Date.now().toString().slice(-6)`. */
  const StampDigits: nat := 6

  /** `orderId ? \`ORD-${orderId}\` : \`INV-${Date.now().toString().slice(-6)}\``,
      with `now` the clock reading in milliseconds. */
  function InvoiceNumber(orderId: Option<nat>, now: nat): string {
    if OrderIdGiven(orderId) then "ORD-" + NatToDecimal(orderId.value)
    else "INV-" + LastN(NatToDecimal(now), StampDigits)
  }

  /** `itemsForBill.map(item => \`<tr>...\`)`, one row per cart entry. */
  function BillRows(cart: seq<CartItem>, escape: string -> string): (rows: seq<BillRow>)
    ensures |rows| == |cart|
    ensures forall k :: 0 <= k < |cart| ==>
      rows[k] == BillRow(escape(cart[k].name), cart[k].quantity, cart[k].price, LinePrice(cart[k]))
  {
    seq(|cart|, k requires 0 <= k < |cart| =>
      BillRow(escape(cart[k].name), cart[k].quantity, cart[k].price, LinePrice(cart[k])))
  }

  /** `generateBillPage(orderId)` (public/js/bill.js:6-32, 91-98) over the
      current user and cart.  `escape` is the page's `escapeHTML`, which is
      defined outside these files. */
  function GenerateBill(user: Option<UserRow>, cart: seq<CartItem>, orderId: Option<nat>, now: nat,
                        escape: string -> string): (r: BillOutcome)
    ensures user.None? ==> r == NoBill(NotLoggedInAlert)
    ensures user.Some? && cart == [] && !OrderIdGiven(orderId) ==> r == NoBill(NothingToBillAlert)
    ensures r.Produced? <==> user.Some? && (cart != [] || OrderIdGiven(orderId))
    ensures r.Produced? ==>
      && r.bill.subtotal == SumPrice(cart)
      && r.bill.rows == BillRows(cart, escape)
      && r.bill.customerName == escape(user.value.name)
      && r.bill.customerPhone == escape(user.value.phone)
      && r.bill.invoiceNumber == InvoiceNumber(orderId, now)
  {
    if user.None? then NoBill(NotLoggedInAlert)
    else if cart == [] && !OrderIdGiven(orderId) then NoBill(NothingToBillAlert)
    else
      var total := CartTotals(cart).totalPrice;
      var tax := total * TaxRate;
      var serviceCharge := total * ServiceRate;
      Produced(BillSheet(
        InvoiceNumber(orderId, now),
        escape(user.value.name), escape(user.value.phone),
        BillRows(cart, escape),
        total, tax, serviceCharge, total + tax + serviceCharge))
  }

  /** The bill charges 5% tax and 10% service on the subtotal, so the grand
      total is 115% of it, and never below it when prices and quantities are
      not negative. */
  lemma BillTotals(user: Option<UserRow>, cart: seq<CartItem>, orderId: Option<nat>, now: nat, escape: string -> string)
    requires GenerateBill(user, cart, orderId, now, escape).Produced?
    ensures var b := GenerateBill(user, cart, orderId, now, escape).bill;
      && b.tax == b.subtotal / 20.0
      && b.serviceCharge == b.subtotal / 10.0
      && b.grandTotal == b.subtotal * 1.15
      && (CartValid(cart) && (forall k :: 0 <= k < |cart| ==> cart[k].price >= 0.0) ==> b.grandTotal >= b.subtotal >= 0.0)
  {
    if CartValid(cart) && forall k :: 0 <= k < |cart| ==> cart[k].price >= 0.0 {
      TotalsBounds(cart);
    }
  }

  /** The Σ of the bill's line totals. */
  function RowsTotal(rows: seq<BillRow>): real {
    if rows == [] then 0.0 else RowsTotal(rows[..|rows| - 1]) + rows[|rows| - 1].lineTotal
  }

  /** The line totals add up to the subtotal. */
  lemma {:induction false} RowsAddUp(cart: seq<CartItem>, escape: string -> string)
    ensures RowsTotal(BillRows(cart, escape)) == SumPrice(cart)
  {
    if cart != [] {
      var front := cart[..|cart| - 1];
      assert BillRows(cart, escape)[..|cart| - 1] == BillRows(front, escape);
      RowsAddUp(front, escape);
    }
  }

  /** Bills for different orders carry different invoice numbers. */
  lemma InvoiceNumbersDistinct(a: nat, b: nat, nowA: nat, nowB: nat)
    requires a != b && a != 0 && b != 0
    ensures InvoiceNumber(Some(a), nowA) != InvoiceNumber(Some(b), nowB)
  {
    var da, db := NatToDecimal(a), NatToDecimal(b);
    assert ("ORD-" + da)[4..] == da && ("ORD-" + db)[4..] == db;
  }

  /** Without an order id the invoice number is "INV-" and at most six
      decimal digits, the tail of the clock reading; with one it is "ORD-"
      and the order id in decimal, so the two kinds never coincide. */
  lemma InvoiceShape(orderId: Option<nat>, now: nat)
    ensures var n := InvoiceNumber(orderId, now);
      && |n| > 4
      && (OrderIdGiven(orderId) ==> n[..4] == "ORD-" && DigitsOf(n[4..], orderId.value))
      && (!OrderIdGiven(orderId) ==> n[..4] == "INV-" && StampOf(n[4..], now))
  {
    var n := InvoiceNumber(orderId, now);
    if OrderIdGiven(orderId) {
      var digits := NatToDecimal(orderId.value);
      assert n == "ORD-" + digits;
      assert n[4..] == digits && n[..4] == "ORD-";
    } else {
      var digits := NatToDecimal(now);
      var tail := LastN(digits, StampDigits);
      assert n == "INV-" + tail;
      assert n[4..] == tail && n[..4] == "INV-";
      StampOfLastN(digits, now);
    }
  }

  /** `s` is the decimal rendering of `n`. */
  predicate DigitsOf(s: string, n: nat) {
    s != [] && AllDigits(s) && DigitsValue(s) == n
  }

  /** `s` is a non-empty tail, of at most six digits, of the decimal
      rendering of `now`. */
  predicate StampOf(s: string, now: nat) {
    var digits := NatToDecimal(now);
    && 0 < |s| <= StampDigits && |s| <= |digits|
    && s == digits[|digits| - |s|..]
  }

  lemma StampOfLastN(digits: string, now: nat)
    requires digits == NatToDecimal(now)
    ensures StampOf(LastN(digits, StampDigits), now)
  {
  }
}
