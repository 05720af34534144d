/**
 * Client-side consequences of the cart's contracts: each method runs a short
 * sequence of operations and states what holds afterwards, using only the
 * specifications of `Model`.
 */
module Scenarios {
  import opened Model

  /** Adding two equal items leaves one entry carrying both quantities. */
  method AddEqualPair(now: int, a: Item, b: Item) returns (c: Cart)
    requires a.Equals(b)
    modifies a, b
    ensures fresh(c) && c.Valid()
    ensures c.items == [a] && c.CountItems() == 1
    ensures a.quantity == old(a.quantity) + old(b.quantity)
    ensures a != b ==> !c.HasItem(b) && b.cart == old(b.cart) && b.quantity == old(b.quantity)
  {
    c := new Cart(now);
    c.AddItem(a);
    c.AddItem(b);
  }

  /** Adding two items that are not equal keeps both, in order. */
  method AddDistinctPair(now: int, a: Item, b: Item) returns (c: Cart)
    requires !a.Equals(b)
    modifies a, b
    ensures fresh(c) && c.Valid()
    ensures c.items == [a, b] && c.CountItems() == 2
    ensures c.HasItem(a) && c.HasItem(b) && a.cart == c && b.cart == c
  {
    c := new Cart(now);
    c.AddItem(a);
    c.AddItem(b);
  }

  /** Two equal items of quantities 2 and 3 become one item of quantity 5. */
  method MergeTwoAndThree(now: int) returns (c: Cart)
    ensures fresh(c) && c.Valid()
    ensures c.CountItems() == 1 && c.items[0].quantity == 5
  {
    var a := new Item(7, 2);
    var b := new Item(7, 3);
    c := AddEqualPair(now, a, b);
  }

  /** An added and then removed item is gone and points at no cart. */
  method AddThenRemove(now: int, x: Item) returns (c: Cart)
    modifies x
    ensures fresh(c) && c.Valid()
    ensures c.IsEmpty() && !c.HasItem(x) && x.cart == null
  {
    c := new Cart(now);
    c.AddItem(x);
    c.RemoveItem(x);
  }

  /** The lock is advisory: a locked cart still accepts an item. */
  method AddToLockedCart(now: int, x: Item) returns (c: Cart)
    modifies x
    ensures fresh(c) && c.Valid()
    ensures c.IsLocked() && c.HasItem(x) && c.CountItems() == 1
  {
    c := new Cart(now);
    c.SetLocked(true);
    c.AddItem(x);
  }

  /** Clearing a cart keeps the counter and leaves the removed item pointing at the cart. */
  method ClearKeepsBackReference(now: int, x: Item) returns (c: Cart)
    modifies x
    ensures fresh(c) && c.Valid()
    ensures c.IsEmpty() && !c.HasItem(x) && x.cart == c && c.GetTotalItems() == 1
  {
    c := new Cart(now);
    c.AddItem(x);
    c.IncrementTotalItems();
    c.ClearItems();
  }

  /** Renewing an expired cart makes it active again at the renewal time. */
  method RenewExpiredCart(created: int, later: int) returns (c: Cart)
    requires created + ExpiryWindow < later
    ensures fresh(c) && c.Valid()
    ensures !c.IsExpired(later) && c.GetExpiresAt() == Some(later + ExpiryWindow)
  {
    c := new Cart(created);
    assert c.IsExpired(later);
    c.IncrementExpiresAt(later);
  }

  /**
   * An item added to a second cart is re-pointed at it. The first cart still
   * holds the item and still accepts items, but its back-reference invariant
   * no longer holds.
   */
  method MoveItemToSecondCart(now: int, x: Item, y: Item) returns (c1: Cart, c2: Cart)
    modifies x, y
    ensures fresh(c1) && fresh(c2)
    ensures c1.HasItem(x) && c2.HasItem(x) && x.cart == c2 && !c1.Valid()
    ensures !y.Equals(x) ==> c1.HasItem(y)
  {
    c1 := new Cart(now);
    c1.AddItem(x);
    c2 := new Cart(now);
    c2.AddItem(x);
    c1.AddItem(y);
    assert c1.items[0] == x;
  }
}
