/** The shopping cart of public/js/main.js as a value: an array of
    `{id, name, price, quantity}` entries, the three ways the page changes
    it, and the two sums `calculateCartTotals` reports. */
module Cart {
  import opened Values
  import opened Tables

  datatype CartItem = CartItem(id: nat, name: string, price: real, quantity: int)

  /** The price of one entry's line: `item.price * item.quantity`. */
  function LinePrice(x: CartItem): real { x.price * x.quantity as real }

  /** The shape every cart the page builds keeps: one entry per item id,
      each with a quantity of at least one. */
  predicate CartValid(c: seq<CartItem>) {
    && (forall i, j :: 0 <= i < j < |c| ==> c[i].id != c[j].id)
    && (forall i :: 0 <= i < |c| ==> c[i].quantity >= 1)
  }

  /** `cart.findIndex(cartItem => cartItem.id === id)` (and `cart.find`,
      which returns the entry at that index): the first entry carrying `id`. */
  function IndexOf(c: seq<CartItem>, id: nat): (r: Option<nat>)
    ensures r.Some? ==> r.value < |c| && c[r.value].id == id && forall k :: 0 <= k < r.value ==> c[k].id != id
    ensures r.None? ==> forall k :: 0 <= k < |c| ==> c[k].id != id
  {
    if c == [] then None
    else if c[0].id == id then Some(0)
    else
      var r := IndexOf(c[1..], id);
      assert forall k :: 1 <= k < |c| ==> c[k] == c[1..][k - 1];
      if r.Some? then Some(r.value + 1) else None
  }

  /** How many of item `id` the cart holds (0 when it has no entry). */
  function QuantityOf(c: seq<CartItem>, id: nat): int {
    match IndexOf(c, id)
    case Some(i) => c[i].quantity
    case None => 0
  }

  // ---------------------------------------------------------------------
  // The three operations (public/js/main.js:313-352)

  /** The cart with entry `i` holding `d` more units. */
  function Bump(c: seq<CartItem>, i: nat, d: int): (r: seq<CartItem>)
    requires i < |c|
  {
    c[i := c[i].(quantity := c[i].quantity + d)]
  }

  /** `addToCart(item)`: one more of an item already in the cart, or a new
      entry with quantity 1 at the end. */
  function CartAdd(c: seq<CartItem>, item: MenuItemRow): seq<CartItem> {
    match IndexOf(c, item.id)
    case Some(i) => Bump(c, i, 1)
    case None => c + [CartItem(item.id, item.name, item.price, 1)]
  }

  /** `removeFromCart(itemId)`: one fewer, and the entry goes when its last
      one does; an id not in the cart changes nothing. */
  function CartRemove(c: seq<CartItem>, id: nat): seq<CartItem> {
    match IndexOf(c, id)
    case Some(i) =>
      if c[i].quantity > 1 then Bump(c, i, -1)
      else c[..i] + c[i + 1..]
    case None => c
  }

  /** `increaseCartItemQuantity(itemId)`: one more of an item in the cart;
      an id not in the cart changes nothing. */
  function CartIncrease(c: seq<CartItem>, id: nat): seq<CartItem> {
    match IndexOf(c, id)
    case Some(i) => Bump(c, i, 1)
    case None => c
  }

  // ---------------------------------------------------------------------
  // Validity is kept

  lemma CartAddValid(c: seq<CartItem>, item: MenuItemRow)
    requires CartValid(c)
    ensures CartValid(CartAdd(c, item))
  {
  }

  lemma CartRemoveValid(c: seq<CartItem>, id: nat)
    requires CartValid(c)
    ensures CartValid(CartRemove(c, id))
  {
    var r := CartRemove(c, id);
    if IndexOf(c, id).Some? {
      var i := IndexOf(c, id).value;
      if c[i].quantity <= 1 {
        assert forall k :: 0 <= k < |r| ==> r[k] == if k < i then c[k] else c[k + 1];
      }
    }
  }

  lemma CartIncreaseValid(c: seq<CartItem>, id: nat)
    requires CartValid(c)
    ensures CartValid(CartIncrease(c, id))
  {
  }

  // ---------------------------------------------------------------------
  // The cart as item counts

  /** In a valid cart the entry of an id is its only one, so any index
      carrying the id is the one `findIndex` returns. */
  lemma IndexOfUnique(c: seq<CartItem>, k: nat)
    requires CartValid(c) && k < |c|
    ensures IndexOf(c, c[k].id) == Some(k)
  {
  }

  /** Adding an item counts one more of it and leaves every other count. */
  lemma CartAddQuantity(c: seq<CartItem>, item: MenuItemRow, id: nat)
    requires CartValid(c)
    ensures QuantityOf(CartAdd(c, item), id) == QuantityOf(c, id) + (if id == item.id then 1 else 0)
  {
    if IndexOf(c, item.id).Some? {
      AddToEntryQuantity(c, item, id);
    } else {
      AddEntryQuantity(c, item, id);
    }
  }

  lemma AddToEntryQuantity(c: seq<CartItem>, item: MenuItemRow, id: nat)
    requires CartValid(c) && IndexOf(c, item.id).Some?
    ensures QuantityOf(CartAdd(c, item), id) == QuantityOf(c, id) + (if id == item.id then 1 else 0)
  {
    var r := CartAdd(c, item);
    CartAddValid(c, item);
    if IndexOf(c, id).Some? {
      IndexOfUnique(r, IndexOf(c, id).value);
    } else {
      assert IndexOf(r, id).None?;
    }
  }

  lemma AddEntryQuantity(c: seq<CartItem>, item: MenuItemRow, id: nat)
    requires CartValid(c) && IndexOf(c, item.id).None?
    ensures QuantityOf(CartAdd(c, item), id) == QuantityOf(c, id) + (if id == item.id then 1 else 0)
  {
    var r := CartAdd(c, item);
    CartAddValid(c, item);
    if IndexOf(c, id).Some? {
      IndexOfUnique(r, IndexOf(c, id).value);
    } else if id == item.id {
      IndexOfUnique(r, |c|);
    } else {
      assert IndexOf(r, id).None?;
    }
  }

  /** Removing an item counts one fewer of it, down to none, and leaves every
      other count. */
  lemma CartRemoveQuantity(c: seq<CartItem>, x: nat, id: nat)
    requires CartValid(c)
    ensures QuantityOf(CartRemove(c, x), id)
         == if id == x && QuantityOf(c, id) > 0 then QuantityOf(c, id) - 1 else QuantityOf(c, id)
  {
    match IndexOf(c, x)
    case None =>
    case Some(i) =>
      if c[i].quantity > 1 {
        RemoveUnitQuantity(c, x, i, id);
      } else {
        RemoveEntryQuantity(c, x, i, id);
      }
  }

  lemma RemoveUnitQuantity(c: seq<CartItem>, x: nat, i: nat, id: nat)
    requires CartValid(c) && IndexOf(c, x) == Some(i) && c[i].quantity > 1
    ensures QuantityOf(CartRemove(c, x), id)
         == if id == x && QuantityOf(c, id) > 0 then QuantityOf(c, id) - 1 else QuantityOf(c, id)
  {
    var r := CartRemove(c, x);
    CartRemoveValid(c, x);
    if IndexOf(c, id).Some? {
      IndexOfUnique(r, IndexOf(c, id).value);
    } else {
      assert IndexOf(r, id).None?;
    }
  }

  lemma RemoveEntryQuantity(c: seq<CartItem>, x: nat, i: nat, id: nat)
    requires CartValid(c) && IndexOf(c, x) == Some(i) && c[i].quantity <= 1
    ensures QuantityOf(CartRemove(c, x), id)
         == if id == x && QuantityOf(c, id) > 0 then QuantityOf(c, id) - 1 else QuantityOf(c, id)
  {
    assert CartRemove(c, x) == c[..i] + c[i + 1..];
    assert QuantityOf(c, x) == 1;
    if id == x {
      DeleteDropsId(c, i);
    } else if IndexOf(c, id).Some? {
      var j := IndexOf(c, id).value;
      assert QuantityOf(c, id) == c[j].quantity;
      DeleteKeepsOther(c, i, j);
    } else {
      assert QuantityOf(c, id) == 0;
      DeleteKeepsAbsent(c, i, id);
    }
  }

  /** The entries after the one dropped move up by one. */
  lemma DeleteShifts(c: seq<CartItem>, i: nat)
    requires i < |c|
    ensures var r := c[..i] + c[i + 1..];
      |r| == |c| - 1 && forall k :: 0 <= k < |r| ==> r[k] == if k < i then c[k] else c[k + 1]
  {
  }

  lemma DeleteDropsId(c: seq<CartItem>, i: nat)
    requires CartValid(c) && i < |c|
    ensures QuantityOf(c[..i] + c[i + 1..], c[i].id) == 0
  {
    DeleteShifts(c, i);
  }

  lemma DeleteKeepsOther(c: seq<CartItem>, i: nat, j: nat)
    requires CartValid(c) && i < |c| && j < |c| && i != j
    ensures QuantityOf(c[..i] + c[i + 1..], c[j].id) == c[j].quantity
  {
    var r := c[..i] + c[i + 1..];
    DeleteShifts(c, i);
    assert CartValid(r);
    IndexOfUnique(r, if j < i then j else j - 1);
  }

  lemma DeleteKeepsAbsent(c: seq<CartItem>, i: nat, id: nat)
    requires IndexOf(c, id).None? && i < |c|
    ensures QuantityOf(c[..i] + c[i + 1..], id) == 0
  {
    DeleteShifts(c, i);
  }

  /** Increasing counts one more of an item already in the cart, and nothing
      for one that is not in it. */
  lemma CartIncreaseQuantity(c: seq<CartItem>, x: nat, id: nat)
    requires CartValid(c)
    ensures QuantityOf(CartIncrease(c, x), id)
         == if id == x && QuantityOf(c, id) > 0 then QuantityOf(c, id) + 1 else QuantityOf(c, id)
  {
    var r := CartIncrease(c, x);
    CartIncreaseValid(c, x);
    if IndexOf(c, id).Some? {
      IndexOfUnique(r, IndexOf(c, id).value);
    } else {
      assert IndexOf(r, id).None?;
    }
  }

  /** Adding an item the cart does not hold and removing it again gives the
      cart back. */
  lemma RemoveUndoesAdd(c: seq<CartItem>, item: MenuItemRow)
    requires IndexOf(c, item.id).None?
    ensures CartRemove(CartAdd(c, item), item.id) == c
  {
    var added := c + [CartItem(item.id, item.name, item.price, 1)];
    assert CartAdd(c, item) == added;
    assert IndexOf(added, item.id) == Some(|c|) by {
      IndexOfSnoc(c, CartItem(item.id, item.name, item.price, 1));
    }
    assert added[..|c|] + added[|c| + 1..] == c;
  }

  /** Behind entries that do not carry the id, the first one that does is
      found. */
  lemma {:induction false} IndexOfSnoc(c: seq<CartItem>, x: CartItem)
    requires IndexOf(c, x.id).None?
    ensures IndexOf(c + [x], x.id) == Some(|c|)
  {
    if c != [] {
      assert (c + [x])[1..] == c[1..] + [x];
      assert IndexOf(c[1..], x.id).None?;
      IndexOfSnoc(c[1..], x);
    }
  }

  // ---------------------------------------------------------------------
  // Totals (public/js/main.js:359-362)

  /** Σ quantity, the reference sum. */
  function SumQuantity(c: seq<CartItem>): int {
    if c == [] then 0 else SumQuantity(c[..|c| - 1]) + c[|c| - 1].quantity
  }

  /** Σ price × quantity, the reference sum. */
  function SumPrice(c: seq<CartItem>): real {
    if c == [] then 0.0 else SumPrice(c[..|c| - 1]) + LinePrice(c[|c| - 1])
  }

  lemma {:induction false} SumsAppend(a: seq<CartItem>, b: seq<CartItem>)
    ensures SumQuantity(a + b) == SumQuantity(a) + SumQuantity(b)
    ensures SumPrice(a + b) == SumPrice(a) + SumPrice(b)
  {
    if b == [] {
      assert a + b == a;
    } else {
      assert (a + b)[..|a + b| - 1] == a + b[..|b| - 1];
      SumsAppend(a, b[..|b| - 1]);
    }
  }

  /** `cart.reduce((sum, item) => sum + item.quantity, acc)`. */
  function QuantityFold(c: seq<CartItem>, acc: int): int {
    if c == [] then acc else QuantityFold(c[1..], acc + c[0].quantity)
  }

  /** `cart.reduce((sum, item) => sum + (item.price * item.quantity), acc)`. */
  function PriceFold(c: seq<CartItem>, acc: real): real {
    if c == [] then acc else PriceFold(c[1..], acc + LinePrice(c[0]))
  }

  /** The reduce from the left adds the entries to the start value. */
  lemma {:induction false} FoldsAreSums(c: seq<CartItem>, qa: int, pa: real)
    ensures QuantityFold(c, qa) == qa + SumQuantity(c)
    ensures PriceFold(c, pa) == pa + SumPrice(c)
  {
    if c != [] {
      FoldsAreSums(c[1..], qa + c[0].quantity, pa + LinePrice(c[0]));
      assert c == [c[0]] + c[1..];
      SumsAppend([c[0]], c[1..]);
      assert [c[0]][..0] == [];
    }
  }

  datatype Totals = Totals(totalItems: int, totalPrice: real)

  /** `calculateCartTotals()`: the total quantity and the total price. */
  function CartTotals(c: seq<CartItem>): (r: Totals)
    ensures r == Totals(SumQuantity(c), SumPrice(c))
  {
    FoldsAreSums(c, 0, 0.0);
    Totals(QuantityFold(c, 0), PriceFold(c, 0.0))
  }

  /** The sums split around one entry. */
  lemma SumsSplit(c: seq<CartItem>, i: nat)
    requires i < |c|
    ensures SumQuantity(c) == SumQuantity(c[..i]) + c[i].quantity + SumQuantity(c[i + 1..])
    ensures SumPrice(c) == SumPrice(c[..i]) + LinePrice(c[i]) + SumPrice(c[i + 1..])
  {
    var front := c[..i] + [c[i]];
    assert c == front + c[i + 1..];
    assert front[..|front| - 1] == c[..i];
    SumsAppend(front, c[i + 1..]);
  }

  /** `d` more units of one entry change the sums by the difference of
      its old and new line. */
  lemma SumsBump(c: seq<CartItem>, i: nat, d: int)
    requires i < |c|
    ensures SumQuantity(Bump(c, i, d)) == SumQuantity(c) + d
    ensures SumPrice(Bump(c, i, d)) == SumPrice(c) - LinePrice(c[i]) + LinePrice(Bump(c, i, d)[i])
  {
    var r := Bump(c, i, d);
    assert r[..i] == c[..i] && r[i + 1..] == c[i + 1..];
    SumsSplit(c, i);
    SumsSplit(r, i);
  }

  /** ... and so by `d` units at the entry's price. */
  lemma PriceBump(c: seq<CartItem>, i: nat, d: int)
    requires i < |c| && (d == 1 || d == -1)
    ensures SumQuantity(Bump(c, i, d)) == SumQuantity(c) + d
    ensures SumPrice(Bump(c, i, d)) == SumPrice(c) + (if d == 1 then c[i].price else -c[i].price)
  {
    assert Bump(c, i, d)[i].price == c[i].price && Bump(c, i, d)[i].quantity == c[i].quantity + d;
    LinePriceStep(c[i], Bump(c, i, d)[i], d);
    SumsBump(c, i, d);
  }

  /** Dropping one entry takes its quantity and its line out of the sums. */
  lemma SumsDelete(c: seq<CartItem>, i: nat)
    requires i < |c|
    ensures SumQuantity(c[..i] + c[i + 1..]) == SumQuantity(c) - c[i].quantity
    ensures SumPrice(c[..i] + c[i + 1..]) == SumPrice(c) - LinePrice(c[i])
  {
    SumsSplit(c, i);
    SumsAppend(c[..i], c[i + 1..]);
  }

  /** A line with one unit more or less costs one unit price more or less. */
  lemma LinePriceStep(x: CartItem, y: CartItem, d: int)
    requires y.price == x.price && y.quantity == x.quantity + d && (d == 1 || d == -1)
    ensures LinePrice(y) == LinePrice(x) + (if d == 1 then x.price else -x.price)
  {
  }

  /** The unit price the cart holds for an id (0 when it has no entry). */
  function PriceOf(c: seq<CartItem>, id: nat): real {
    match IndexOf(c, id)
    case Some(i) => c[i].price
    case None => 0.0
  }

  /** One more unit at the price the cart holds for the item: an existing
      entry keeps its own price, a new one takes the menu's. */
  lemma CartAddTotals(c: seq<CartItem>, item: MenuItemRow)
    requires CartValid(c)
    ensures var r := CartAdd(c, item);
      CartTotals(r) == Totals(CartTotals(c).totalItems + 1, CartTotals(c).totalPrice + PriceOf(r, item.id))
  {
    if IndexOf(c, item.id).Some? {
      AddToEntryTotals(c, item, IndexOf(c, item.id).value);
    } else {
      AddEntryTotals(c, item);
    }
  }

  lemma AddToEntryTotals(c: seq<CartItem>, item: MenuItemRow, i: nat)
    requires CartValid(c) && i < |c| && c[i].id == item.id
    ensures var r := CartAdd(c, item);
      SumQuantity(r) == SumQuantity(c) + 1 && SumPrice(r) == SumPrice(c) + PriceOf(r, item.id)
  {
    IndexOfUnique(c, i);
    assert CartAdd(c, item) == Bump(c, i, 1);
    BumpPriceOf(c, i, 1);
    PriceBump(c, i, 1);
  }

  /** An entry whose quantity changed keeps its price. */
  lemma BumpPriceOf(c: seq<CartItem>, i: nat, d: int)
    requires CartValid(c) && i < |c| && c[i].quantity + d >= 1
    ensures PriceOf(Bump(c, i, d), c[i].id) == c[i].price
  {
    var r := Bump(c, i, d);
    assert CartValid(r);
    IndexOfUnique(r, i);
  }

  lemma AddEntryTotals(c: seq<CartItem>, item: MenuItemRow)
    requires CartValid(c) && IndexOf(c, item.id).None?
    ensures var r := CartAdd(c, item);
      SumQuantity(r) == SumQuantity(c) + 1 && SumPrice(r) == SumPrice(c) + PriceOf(r, item.id)
  {
    var x := CartItem(item.id, item.name, item.price, 1);
    var r := CartAdd(c, item);
    assert r == c + [x];
    assert r[..|c|] == c;
    CartAddValid(c, item);
    IndexOfUnique(r, |c|);
  }

  /** Removing takes one unit of the item out of the totals, and nothing
      when the item is not in the cart. */
  lemma CartRemoveTotals(c: seq<CartItem>, id: nat)
    requires CartValid(c)
    ensures var r := CartRemove(c, id);
      if IndexOf(c, id).Some?
      then CartTotals(r) == Totals(CartTotals(c).totalItems - 1, CartTotals(c).totalPrice - PriceOf(c, id))
      else r == c
  {
    match IndexOf(c, id)
    case None =>
    case Some(i) =>
      if c[i].quantity > 1 {
        PriceBump(c, i, -1);
      } else {
        RemoveEntrySums(c, i);
      }
  }

  lemma RemoveEntrySums(c: seq<CartItem>, i: nat)
    requires i < |c| && c[i].quantity == 1
    ensures var r := c[..i] + c[i + 1..];
      SumQuantity(r) == SumQuantity(c) - 1 && SumPrice(r) == SumPrice(c) - c[i].price
  {
    SumsDelete(c, i);
    assert LinePrice(c[i]) == c[i].price;
  }

  /** Increasing adds one unit of an item in the cart to the totals. */
  lemma CartIncreaseTotals(c: seq<CartItem>, id: nat)
    ensures var r := CartIncrease(c, id);
      if IndexOf(c, id).Some?
      then CartTotals(r) == Totals(CartTotals(c).totalItems + 1, CartTotals(c).totalPrice + PriceOf(c, id))
      else r == c
  {
    match IndexOf(c, id)
    case None =>
    case Some(i) =>
      PriceBump(c, i, 1);
  }

  /** With non-negative prices the total price is non-negative, and with
      valid quantities there are at least as many units as entries. */
  lemma {:induction false} TotalsBounds(c: seq<CartItem>)
    requires CartValid(c) && forall k :: 0 <= k < |c| ==> c[k].price >= 0.0
    ensures CartTotals(c).totalPrice >= 0.0 && CartTotals(c).totalItems >= |c|
  {
    if c != [] {
      var front := c[..|c| - 1];
      assert forall k :: 0 <= k < |front| ==> front[k] == c[k];
      TotalsBounds(front);
      assert LinePrice(c[|c| - 1]) >= 0.0;
    }
  }
}
