/**
 * Shopping-cart item lists: the edits the cart handlers make to a cart's
 * items (merge on add, set or remove on update, remove the first match),
 * the quantity bookkeeping they keep, and the handlers themselves over a
 * store of carts indexed by customer.
 */
module Carts {
  import opened Common
  import opened Models

  // ----- item-list edits -----

  /** Position of the first item of product `pid`; `|items|` when there is none. */
  function FirstItem(items: seq<CartItem>, pid: int): (i: nat)
    ensures i <= |items|
    ensures i < |items| ==> items[i].productID == pid
    ensures forall k :: 0 <= k < i ==> items[k].productID != pid
    decreases |items|
  {
    if items == [] then 0
    else if items[0].productID == pid then 0
    else 1 + FirstItem(items[1..], pid)
  }

  /** The loop that looks for the item, stopping at the first match. */
  method FindItem(items: seq<CartItem>, pid: int) returns (i: nat)
    ensures i == FirstItem(items, pid)
  {
    i := 0;
    while i < |items| && items[i].productID != pid
      invariant i <= |items|
      invariant forall k :: 0 <= k < i ==> items[k].productID != pid
    {
      i := i + 1;
    }
    FirstItemUnique(items, pid, i);
  }

  /** A position before which no item matches, and which matches or is the end, is the first match. */
  lemma {:induction false} FirstItemUnique(items: seq<CartItem>, pid: int, i: nat)
    requires i <= |items|
    requires forall k :: 0 <= k < i ==> items[k].productID != pid
    requires i < |items| ==> items[i].productID == pid
    ensures i == FirstItem(items, pid)
    decreases |items|
  {
    if items != [] && i > 0 {
      FirstItemUnique(items[1..], pid, i - 1);
    }
  }

  /** Adding an item: the first item of the product grows by the quantity, else the item is appended. */
  function Merged(items: seq<CartItem>, item: CartItem): seq<CartItem> {
    var i := FirstItem(items, item.productID);
    if i < |items| then items[i := items[i].(quantity := items[i].quantity + item.quantity)]
    else items + [item]
  }

  /** Setting an item's quantity: the first item of the product is removed for a quantity <= 0, else set; no match changes nothing. */
  function SetOrRemoved(items: seq<CartItem>, item: CartItem): seq<CartItem> {
    var i := FirstItem(items, item.productID);
    if i == |items| then items
    else if item.quantity <= 0 then items[..i] + items[i + 1..]
    else items[i := items[i].(quantity := item.quantity)]
  }

  /** Only the first item of the product is removed; the rest keep their order. */
  function RemovedFirst(items: seq<CartItem>, pid: int): seq<CartItem> {
    var i := FirstItem(items, pid);
    if i < |items| then items[..i] + items[i + 1..] else items
  }

  /** Every item of the product is removed; the rest keep their order. */
  function RemovedAll(items: seq<CartItem>, pid: int): (r: seq<CartItem>)
    ensures |r| <= |items|
    ensures forall k :: 0 <= k < |r| ==> r[k].productID != pid
    decreases |items|
  {
    if items == [] then []
    else RemovedAll(items[..|items| - 1], pid)
         + (if items[|items| - 1].productID == pid then [] else [items[|items| - 1]])
  }

  /** The quantity of product `pid` summed over its items. */
  function QuantityOf(items: seq<CartItem>, pid: int): int
    decreases |items|
  {
    if items == [] then 0
    else QuantityOf(items[..|items| - 1], pid) + (if items[|items| - 1].productID == pid then items[|items| - 1].quantity else 0)
  }

  /** The quantities of all items, summed. */
  function TotalQuantity(items: seq<CartItem>): int
    decreases |items|
  {
    if items == [] then 0 else TotalQuantity(items[..|items| - 1]) + items[|items| - 1].quantity
  }

  /** No product has two items. */
  predicate DistinctProducts(items: seq<CartItem>) {
    forall a, b :: 0 <= a < b < |items| ==> items[a].productID != items[b].productID
  }

  // ----- bookkeeping lemmas -----

  lemma {:induction false} QuantityOfConcat(a: seq<CartItem>, b: seq<CartItem>, pid: int)
    ensures QuantityOf(a + b, pid) == QuantityOf(a, pid) + QuantityOf(b, pid)
    decreases |b|
  {
    if b == [] {
      assert a + b == a;
    } else {
      var init := b[..|b| - 1];
      QuantityOfConcat(a, init, pid);
      assert (a + b)[..|a + b| - 1] == a + init;
    }
  }

  lemma {:induction false} TotalQuantityConcat(a: seq<CartItem>, b: seq<CartItem>)
    ensures TotalQuantity(a + b) == TotalQuantity(a) + TotalQuantity(b)
    decreases |b|
  {
    if b == [] {
      assert a + b == a;
    } else {
      var init := b[..|b| - 1];
      TotalQuantityConcat(a, init);
      assert (a + b)[..|a + b| - 1] == a + init;
    }
  }

  /** Splits a list around position `i`. */
  lemma Around(items: seq<CartItem>, i: nat)
    requires i < |items|
    ensures items == items[..i] + [items[i]] + items[i + 1..]
  {
  }

  /** Replacing one item changes the quantities by the difference between the two items. */
  lemma ReplaceQuantities(items: seq<CartItem>, i: nat, x: CartItem, pid: int)
    requires i < |items|
    ensures QuantityOf(items[i := x], pid) == QuantityOf(items, pid)
            - (if items[i].productID == pid then items[i].quantity else 0)
            + (if x.productID == pid then x.quantity else 0)
    ensures TotalQuantity(items[i := x]) == TotalQuantity(items) - items[i].quantity + x.quantity
  {
    var after := items[i := x];
    Around(items, i);
    Around(after, i);
    assert after[..i] == items[..i] && after[i + 1..] == items[i + 1..];
    QuantityOfConcat(items[..i] + [items[i]], items[i + 1..], pid);
    QuantityOfConcat(items[..i], [items[i]], pid);
    QuantityOfConcat(after[..i] + [x], after[i + 1..], pid);
    QuantityOfConcat(after[..i], [x], pid);
    TotalQuantityConcat(items[..i] + [items[i]], items[i + 1..]);
    TotalQuantityConcat(items[..i], [items[i]]);
    TotalQuantityConcat(after[..i] + [x], after[i + 1..]);
    TotalQuantityConcat(after[..i], [x]);
  }

  /** Removing one item takes away exactly its quantity. */
  lemma DropQuantities(items: seq<CartItem>, i: nat, pid: int)
    requires i < |items|
    ensures QuantityOf(items[..i] + items[i + 1..], pid) == QuantityOf(items, pid)
            - (if items[i].productID == pid then items[i].quantity else 0)
    ensures TotalQuantity(items[..i] + items[i + 1..]) == TotalQuantity(items) - items[i].quantity
  {
    Around(items, i);
    QuantityOfConcat(items[..i] + [items[i]], items[i + 1..], pid);
    QuantityOfConcat(items[..i], [items[i]], pid);
    QuantityOfConcat(items[..i], items[i + 1..], pid);
    TotalQuantityConcat(items[..i] + [items[i]], items[i + 1..]);
    TotalQuantityConcat(items[..i], [items[i]]);
    TotalQuantityConcat(items[..i], items[i + 1..]);
  }

  /** With one item per product, the product's quantity is that item's. */
  lemma {:induction false} DistinctQuantity(items: seq<CartItem>, i: nat)
    requires DistinctProducts(items) && i < |items|
    ensures QuantityOf(items, items[i].productID) == items[i].quantity
    decreases |items|
  {
    var init := items[..|items| - 1];
    if i == |items| - 1 {
      AbsentQuantity(init, items[i].productID);
    } else {
      DistinctQuantity(init, i);
    }
  }

  lemma {:induction false} AbsentQuantity(items: seq<CartItem>, pid: int)
    requires forall k :: 0 <= k < |items| ==> items[k].productID != pid
    ensures QuantityOf(items, pid) == 0
    decreases |items|
  {
    if items != [] {
      AbsentQuantity(items[..|items| - 1], pid);
    }
  }

  /**
   * Adding an item adds its quantity to its product and to the total, leaves
   * every other product's quantity as it was, and keeps one item per product.
   */
  lemma MergedQuantities(items: seq<CartItem>, item: CartItem, pid: int)
    ensures QuantityOf(Merged(items, item), pid)
            == QuantityOf(items, pid) + (if pid == item.productID then item.quantity else 0)
    ensures TotalQuantity(Merged(items, item)) == TotalQuantity(items) + item.quantity
    ensures DistinctProducts(items) ==> DistinctProducts(Merged(items, item))
  {
    var i := FirstItem(items, item.productID);
    if i < |items| {
      ReplaceQuantities(items, i, items[i].(quantity := items[i].quantity + item.quantity), pid);
    } else {
      QuantityOfConcat(items, [item], pid);
      TotalQuantityConcat(items, [item]);
      assert [item][..0] == [];
    }
  }

  /**
   * Setting a quantity leaves every other product as it was; with one item
   * per product, the product's quantity becomes the new one, or 0 when the
   * new one is not positive, provided the product was in the cart.
   */
  lemma SetOrRemovedQuantities(items: seq<CartItem>, item: CartItem, pid: int)
    ensures pid != item.productID ==> QuantityOf(SetOrRemoved(items, item), pid) == QuantityOf(items, pid)
    ensures DistinctProducts(items) && FirstItem(items, item.productID) < |items| ==>
      QuantityOf(SetOrRemoved(items, item), item.productID) == (if item.quantity <= 0 then 0 else item.quantity)
    ensures DistinctProducts(items) ==> DistinctProducts(SetOrRemoved(items, item))
    ensures FirstItem(items, item.productID) == |items| ==> SetOrRemoved(items, item) == items
  {
    var i := FirstItem(items, item.productID);
    if i < |items| {
      if item.quantity <= 0 {
        DropQuantities(items, i, pid);
        if DistinctProducts(items) {
          DistinctQuantity(items, i);
          DropQuantities(items, i, item.productID);
        }
      } else {
        ReplaceQuantities(items, i, items[i].(quantity := item.quantity), pid);
        if DistinctProducts(items) {
          DistinctQuantity(items, i);
          ReplaceQuantities(items, i, items[i].(quantity := item.quantity), item.productID);
        }
      }
    }
  }

  /** Removing the first match leaves the items before it in place and shifts those after it down by one. */
  lemma RemovedFirstKeepsOrder(items: seq<CartItem>, pid: int)
    requires FirstItem(items, pid) < |items|
    ensures var i, r := FirstItem(items, pid), RemovedFirst(items, pid);
      && |r| == |items| - 1
      && (forall k :: 0 <= k < i ==> r[k] == items[k])
      && (forall k :: i <= k < |items| - 1 ==> r[k] == items[k + 1])
  {
    var i := FirstItem(items, pid);
    var front, back := items[..i], items[i + 1..];
    assert RemovedFirst(items, pid) == front + back;
    forall k | i <= k < |items| - 1
      ensures (front + back)[k] == items[k + 1]
    {
      assert (front + back)[k] == back[k - i];
    }
  }

  /** With one item per product, removing the first match is removing every match. */
  lemma RemovedFirstIsRemovedAll(items: seq<CartItem>, pid: int)
    requires DistinctProducts(items)
    ensures RemovedFirst(items, pid) == RemovedAll(items, pid)
  {
    var i := FirstItem(items, pid);
    if i < |items| {
      forall k | 0 <= k < |items| && k != i
        ensures items[k].productID != pid
      {
        if k > i {
          assert items[i].productID != items[k].productID;
        }
      }
      RemovedAllSingle(items, i, pid);
    } else {
      RemovedAllNone(items, pid);
    }
  }

  /** A list with exactly one item of the product at `i` loses just that item. */
  lemma RemovedAllSingle(items: seq<CartItem>, i: nat, pid: int)
    requires i < |items| && items[i].productID == pid
    requires forall k :: 0 <= k < |items| && k != i ==> items[k].productID != pid
    ensures RemovedAll(items, pid) == items[..i] + items[i + 1..]
  {
    var front, back := items[..i], items[i + 1..];
    Around(items, i);
    RemovedAllConcat(front + [items[i]], back, pid);
    RemovedAllConcat(front, [items[i]], pid);
    RemovedAllNone(front, pid);
    assert forall k :: 0 <= k < |back| ==> back[k] == items[i + 1 + k];
    RemovedAllNone(back, pid);
    assert [items[i]][..0] == [];
    assert RemovedAll([items[i]], pid) == [];
    assert RemovedAll(front + [items[i]], pid) == front;
  }

  lemma {:induction false} RemovedAllConcat(a: seq<CartItem>, b: seq<CartItem>, pid: int)
    ensures RemovedAll(a + b, pid) == RemovedAll(a, pid) + RemovedAll(b, pid)
    decreases |b|
  {
    if b == [] {
      assert a + b == a;
    } else {
      var init := b[..|b| - 1];
      RemovedAllConcat(a, init, pid);
      assert (a + b)[..|a + b| - 1] == a + init;
    }
  }

  /** Nothing to remove leaves the list as it was. */
  lemma {:induction false} RemovedAllNone(items: seq<CartItem>, pid: int)
    requires forall k :: 0 <= k < |items| ==> items[k].productID != pid
    ensures RemovedAll(items, pid) == items
    decreases |items|
  {
    if items != [] {
      RemovedAllNone(items[..|items| - 1], pid);
    }
  }

  /** Removing every match drops the product's quantity to 0 and keeps every other product's. */
  lemma {:induction false} RemovedAllQuantities(items: seq<CartItem>, pid: int, p: int)
    ensures QuantityOf(RemovedAll(items, pid), p) == (if p == pid then 0 else QuantityOf(items, p))
    decreases |items|
  {
    if items != [] {
      var init := items[..|items| - 1];
      var last := items[|items| - 1];
      RemovedAllQuantities(init, pid, p);
      QuantityOfConcat(RemovedAll(init, pid), if last.productID == pid then [] else [last], p);
      assert [last][..0] == [];
    }
  }

  // ----- the handlers -----

  /** The cart of a customer, created empty when the customer has none. */
  method GetCart(customerParam: string, carts: map<int, Cart>, newKey: int, now: Time)
    returns (r: Result<Cart>, carts': map<int, Cart>)
    ensures ParseInt64(customerParam).None? ==> r == Fail(BadRequest) && carts' == carts
    ensures ParseInt64(customerParam).Some? ==>
      var c := ParseInt64(customerParam).value;
      && (c in carts ==> r == Ok(carts[c]) && carts' == carts)
      && (c !in carts ==> r == Ok(Cart(newKey, c, [], now)) && carts' == carts[c := r.value])
  {
    carts' := carts;
    var parsed := ParseInt64(customerParam);
    if parsed.None? {
      return Fail(BadRequest), carts';
    }
    var customerID := parsed.value;
    if customerID in carts {
      return Ok(carts[customerID]), carts';
    }
    var cart := Cart(newKey, customerID, [], now);
    carts' := carts[customerID := cart];
    r := Ok(cart);
  }

  /**
   * Adds an item (None stands for a body that does not decode): a new cart
   * holds just the item; an existing one merges it and is stamped.
   */
  method AddToCart(customerParam: string, body: Option<CartItem>, carts: map<int, Cart>, newKey: int, now: Time)
    returns (r: Result<Cart>, carts': map<int, Cart>)
    ensures ParseInt64(customerParam).None? || body.None? ==> r == Fail(BadRequest) && carts' == carts
    ensures ParseInt64(customerParam).Some? && body.Some? ==>
      var c := ParseInt64(customerParam).value;
      && r.Ok? && carts' == carts[c := r.value]
      && (c !in carts ==> r.value == Cart(newKey, c, [body.value], now))
      && (c in carts ==> r.value == carts[c].(items := Merged(carts[c].items, body.value), updatedAt := now))
  {
    carts' := carts;
    var parsed := ParseInt64(customerParam);
    if parsed.None? {
      return Fail(BadRequest), carts';
    }
    if body.None? {
      return Fail(BadRequest), carts';
    }
    var customerID, item := parsed.value, body.value;
    var cart;
    if customerID !in carts {
      cart := Cart(newKey, customerID, [item], now);
    } else {
      cart := carts[customerID];
      var i := FindItem(cart.items, item.productID);
      if i < |cart.items| {
        cart := cart.(items := cart.items[i := cart.items[i].(quantity := cart.items[i].quantity + item.quantity)]);
      } else {
        cart := cart.(items := cart.items + [item]);
      }
      cart := cart.(updatedAt := now);
    }
    carts' := carts[customerID := cart];
    r := Ok(cart);
  }

  /** Sets or removes an item of an existing cart; the cart is stamped and saved even without a match. */
  method UpdateCartItem(customerParam: string, body: Option<CartItem>, carts: map<int, Cart>, now: Time)
    returns (r: Result<Cart>, carts': map<int, Cart>)
    ensures ParseInt64(customerParam).None? || body.None? ==> r == Fail(BadRequest) && carts' == carts
    ensures ParseInt64(customerParam).Some? && body.Some? ==>
      var c := ParseInt64(customerParam).value;
      && (c !in carts ==> r == Fail(NotFound) && carts' == carts)
      && (c in carts ==>
            && r == Ok(carts[c].(items := SetOrRemoved(carts[c].items, body.value), updatedAt := now))
            && carts' == carts[c := r.value])
  {
    carts' := carts;
    var parsed := ParseInt64(customerParam);
    if parsed.None? {
      return Fail(BadRequest), carts';
    }
    if body.None? {
      return Fail(BadRequest), carts';
    }
    var customerID, item := parsed.value, body.value;
    if customerID !in carts {
      return Fail(NotFound), carts';
    }
    var cart := carts[customerID];
    var i := FindItem(cart.items, item.productID);
    if i < |cart.items| {
      if item.quantity <= 0 {
        cart := cart.(items := cart.items[..i] + cart.items[i + 1..]);
      } else {
        cart := cart.(items := cart.items[i := cart.items[i].(quantity := item.quantity)]);
      }
    }
    cart := cart.(updatedAt := now);
    carts' := carts[customerID := cart];
    r := Ok(cart);
  }

  /** Removes the first item of the product from an existing cart. */
  method RemoveFromCart(customerParam: string, productParam: string, carts: map<int, Cart>, now: Time)
    returns (r: Result<Cart>, carts': map<int, Cart>)
    ensures ParseInt64(customerParam).None? || ParseInt64(productParam).None? ==> r == Fail(BadRequest) && carts' == carts
    ensures ParseInt64(customerParam).Some? && ParseInt64(productParam).Some? ==>
      var c := ParseInt64(customerParam).value;
      && (c !in carts ==> r == Fail(NotFound) && carts' == carts)
      && (c in carts ==>
            && r == Ok(carts[c].(items := RemovedFirst(carts[c].items, ParseInt64(productParam).value), updatedAt := now))
            && carts' == carts[c := r.value])
  {
    carts' := carts;
    var parsedCustomer := ParseInt64(customerParam);
    if parsedCustomer.None? {
      return Fail(BadRequest), carts';
    }
    var parsedProduct := ParseInt64(productParam);
    if parsedProduct.None? {
      return Fail(BadRequest), carts';
    }
    var customerID, productID := parsedCustomer.value, parsedProduct.value;
    if customerID !in carts {
      return Fail(NotFound), carts';
    }
    var cart := carts[customerID];
    var i := FindItem(cart.items, productID);
    if i < |cart.items| {
      cart := cart.(items := cart.items[..i] + cart.items[i + 1..]);
    }
    cart := cart.(updatedAt := now);
    carts' := carts[customerID := cart];
    r := Ok(cart);
  }

  /** Empties the customer's cart, if there is one; a missing cart is not an error. */
  method ClearCart(customerParam: string, carts: map<int, Cart>) returns (r: Result<()>, carts': map<int, Cart>)
    ensures ParseInt64(customerParam).None? ==> r == Fail(BadRequest) && carts' == carts
    ensures ParseInt64(customerParam).Some? ==>
      var c := ParseInt64(customerParam).value;
      && r == Ok(())
      && (c in carts ==> carts' == carts[c := carts[c].(items := [])])
      && (c !in carts ==> carts' == carts)
  {
    carts' := carts;
    var parsed := ParseInt64(customerParam);
    if parsed.None? {
      return Fail(BadRequest), carts';
    }
    var customerID := parsed.value;
    if customerID in carts {
      carts' := carts[customerID := carts[customerID].(items := [])];
    }
    r := Ok(());
  }
}
