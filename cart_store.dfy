/**
 * The browser-side cart: an in-memory cart object whose every mutation is
 * mirrored into the browser's storage under the key 'cart'. Timestamps are
 * inputs; a missing customer id is None and a missing timestamp ZeroTime.
 */
module ClientCart {
  import opened Common
  import opened Models
  import opened Carts

  /** What the storage entry holds: the cart object as last written. */
  datatype CartState = CartState(items: seq<CartItem>, customerId: Option<int>, updatedAt: Time)

  /**
   * The client update: for a product in the cart, a quantity <= 0 removes
   * every item of it and a positive one sets the first; a product not in
   * the cart changes nothing.
   */
  function ClientUpdated(items: seq<CartItem>, pid: int, quantity: int): seq<CartItem> {
    var i := FirstItem(items, pid);
    if i == |items| then items
    else if quantity <= 0 then RemovedAll(items, pid)
    else items[i := items[i].(quantity := quantity)]
  }

  class CartStore {
    var items: seq<CartItem>
    var customerId: Option<int>
    var updatedAt: Time
    /** The storage entry 'cart'; None when absent. */
    var storage: Option<CartState>

    function Snapshot(): CartState
      reads this
    {
      CartState(items, customerId, updatedAt)
    }

    /** The storage entry mirrors the in-memory cart. */
    predicate Synced()
      reads this
    {
      storage == Some(Snapshot())
    }

    /** Loads the stored cart when there is one, else stores the empty cart. */
    constructor(stored: Option<CartState>)
      ensures stored.Some? ==> Snapshot() == stored.value
      ensures stored.None? ==> Snapshot() == CartState([], None, ZeroTime)
      ensures Synced()
    {
      items, customerId, updatedAt := [], None, ZeroTime;
      storage := stored;
      new;
      if stored.Some? {
        items, customerId, updatedAt := stored.value.items, stored.value.customerId, stored.value.updatedAt;
      } else {
        storage := Some(CartState([], None, ZeroTime));
      }
    }

    /** Writes the in-memory cart to storage. */
    method SyncStorage()
      modifies this
      ensures Snapshot() == old(Snapshot())
      ensures Synced()
    {
      storage := Some(Snapshot());
    }

    method SetCustomerId(id: int)
      modifies this
      ensures Snapshot() == old(Snapshot()).(customerId := Some(id))
      ensures Synced()
    {
      customerId := Some(id);
      SyncStorage();
    }

    /** Adds to the first item of the product, or pushes a new item. */
    method AddItem(pid: int, quantity: int, now: Time)
      modifies this
      ensures Snapshot() == old(Snapshot()).(items := Merged(old(items), CartItem(pid, quantity)), updatedAt := now)
      ensures Synced()
    {
      var i := FindItem(items, pid);
      if i < |items| {
        items := items[i := items[i].(quantity := items[i].quantity + quantity)];
      } else {
        items := items + [CartItem(pid, quantity)];
      }
      updatedAt := now;
      SyncStorage();
    }

    /** `addItem` called without a quantity, which defaults to one. */
    method AddOne(pid: int, now: Time)
      modifies this
      ensures Snapshot() == old(Snapshot()).(items := Merged(old(items), CartItem(pid, 1)), updatedAt := now)
      ensures Synced()
    {
      AddItem(pid, 1, now);
    }

    /** Keeps every item of another product, in order. */
    method RemoveItem(pid: int, now: Time)
      modifies this
      ensures Snapshot() == old(Snapshot()).(items := RemovedAll(old(items), pid), updatedAt := now)
      ensures Synced()
    {
      var kept: seq<CartItem> := [];
      for k := 0 to |items|
        invariant kept == RemovedAll(items[..k], pid)
      {
        assert items[..k + 1][..k] == items[..k];
        if items[k].productID != pid {
          kept := kept + [items[k]];
        }
      }
      assert items[..|items|] == items;
      items := kept;
      updatedAt := now;
      SyncStorage();
    }

    /** Sets the quantity of a product in the cart, removing it for a quantity <= 0; an absent product changes nothing. */
    method UpdateItem(pid: int, quantity: int, now: Time)
      modifies this
      ensures FirstItem(old(items), pid) == |old(items)| ==> Snapshot() == old(Snapshot()) && storage == old(storage)
      ensures FirstItem(old(items), pid) < |old(items)| ==>
        Snapshot() == old(Snapshot()).(items := ClientUpdated(old(items), pid, quantity), updatedAt := now) && Synced()
    {
      var i := FindItem(items, pid);
      if i < |items| {
        if quantity <= 0 {
          RemoveItem(pid, now);
        } else {
          items := items[i := items[i].(quantity := quantity)];
          updatedAt := now;
          SyncStorage();
        }
      }
    }

    /** The sum of the quantities, by a fold from 0. */
    method GetItemCount() returns (n: int)
      ensures n == TotalQuantity(items)
    {
      n := 0;
      for k := 0 to |items|
        invariant n == TotalQuantity(items[..k])
      {
        assert items[..k + 1][..k] == items[..k];
        n := n + items[k].quantity;
      }
      assert items[..|items|] == items;
    }

    method Clear(now: Time)
      modifies this
      ensures Snapshot() == old(Snapshot()).(items := [], updatedAt := now)
      ensures Synced()
    {
      items := [];
      updatedAt := now;
      SyncStorage();
    }
  }

  /**
   * The client update leaves every other product's quantity as it was and
   * gives the product the new quantity, or 0 when the new one is not
   * positive, provided it was in a cart with one item per product.
   */
  lemma ClientUpdatedQuantities(items: seq<CartItem>, pid: int, quantity: int, p: int)
    ensures p != pid ==> QuantityOf(ClientUpdated(items, pid, quantity), p) == QuantityOf(items, p)
    ensures DistinctProducts(items) && FirstItem(items, pid) < |items| ==>
      QuantityOf(ClientUpdated(items, pid, quantity), pid) == (if quantity <= 0 then 0 else quantity)
  {
    var i := FirstItem(items, pid);
    if i < |items| {
      if quantity <= 0 {
        RemovedAllQuantities(items, pid, p);
        RemovedAllQuantities(items, pid, pid);
      } else {
        ReplaceQuantities(items, i, items[i].(quantity := quantity), p);
        if DistinctProducts(items) {
          DistinctQuantity(items, i);
          ReplaceQuantities(items, i, items[i].(quantity := quantity), pid);
        }
      }
    }
  }

  /**
   * On a cart with one item per product the client and server updates agree;
   * they part only when a product has several items and is removed.
   */
  lemma ClientMatchesServer(items: seq<CartItem>, pid: int, quantity: int)
    requires DistinctProducts(items)
    ensures ClientUpdated(items, pid, quantity) == SetOrRemoved(items, CartItem(pid, quantity))
  {
    RemovedFirstIsRemovedAll(items, pid);
  }

  /** Two items of a product: the server removes one, the client both. */
  lemma ClientRemovesEveryDuplicate()
    ensures var items := [CartItem(7, 1), CartItem(7, 2)];
      && ClientUpdated(items, 7, 0) == []
      && SetOrRemoved(items, CartItem(7, 0)) == [CartItem(7, 2)]
  {
    var items := [CartItem(7, 1), CartItem(7, 2)];
    assert FirstItem(items, 7) == 0;
    assert items[..1] == [CartItem(7, 1)];
    assert RemovedAll(items[..1], 7) == [];
  }
}
