/**
 * The cart aggregate of the Sylius cart bundle: an ordered collection of
 * items with merge-on-add, identity-based removal and lookup, a total-items
 * counter, an advisory lock flag and a rolling expiry timestamp.
 *
 * Time is an integer number of seconds supplied by the caller as `now`.
 */
module Model {

  /** An optional value: a search result that may be PHP's `false`, or a timestamp that may be null. */
  datatype Option<T> = None | Some(value: T)

  /** Length of the expiry window in seconds: the interval PT3H. */
  const ExpiryWindow: int := 10800

  /**
   * The part of an item that the cart relies on. Its concrete class is not
   * part of this model: `key` stands for whatever the concrete item compares
   * in `equals`, so `Equals` is an equivalence relation.
   */
  class Item {
    const key: int
    var quantity: int
    var cart: Cart?

    constructor (key: int, quantity: int)
      ensures this.key == key && this.quantity == quantity && cart == null
    {
      this.key := key;
      this.quantity := quantity;
      cart := null;
    }

    /** Merge-matching equality; unlike `==` it does not compare identity. */
    predicate Equals(other: Item)
      ensures this == other ==> Equals(other)
    {
      key == other.key
    }

    function GetQuantity(): int
      reads this`quantity
    {
      quantity
    }

    method IncrementQuantity(amount: int)
      modifies this`quantity
      ensures quantity == old(quantity) + amount
    {
      quantity := quantity + amount;
    }

    method SetCart(c: Cart?)
      modifies this`cart
      ensures cart == c
    {
      cart := c;
    }
  }

  /** With the reflexivity stated by `Equals` itself, this makes it an equivalence relation. */
  lemma EqualsIsEquivalence(a: Item, b: Item, c: Item)
    ensures a.Equals(b) <==> b.Equals(a)
    ensures a.Equals(b) && b.Equals(c) ==> a.Equals(c)
  {
  }

  /** Position of the first entry of `s` that is the object `x` itself. */
  function FindByIdentity(s: seq<Item>, x: Item): (r: Option<nat>)
    ensures r.Some? ==> r.value < |s| && s[r.value] == x
    ensures r.Some? ==> forall j :: 0 <= j < r.value ==> s[j] != x
    ensures r.None? <==> x !in s
  {
    if s == [] then None
    else if s[0] == x then Some(0)
    else match FindByIdentity(s[1..], x)
      case None => None
      case Some(i) => Some(i + 1)
  }

  /** Position of the first entry of `s` that `Equals` `x`. */
  function FindByEquality(s: seq<Item>, x: Item): (r: Option<nat>)
    ensures r.Some? ==> r.value < |s| && s[r.value].Equals(x)
    ensures r.Some? ==> forall j :: 0 <= j < r.value ==> !s[j].Equals(x)
    ensures r.None? <==> forall j :: 0 <= j < |s| ==> !s[j].Equals(x)
  {
    if s == [] then None
    else if s[0].Equals(x) then Some(0)
    else match FindByEquality(s[1..], x)
      case None => None
      case Some(i) => Some(i + 1)
  }

  /** `s` without its entry at `k`, the others keeping their order. */
  function RemoveAt(s: seq<Item>, k: nat): (r: seq<Item>)
    requires k < |s|
    ensures |r| == |s| - 1
    ensures forall j :: 0 <= j < k ==> r[j] == s[j]
    ensures forall j :: k <= j < |r| ==> r[j] == s[j + 1]
  {
    s[..k] + s[k + 1..]
  }

  /** No two entries of `s` are `Equals` to each other. */
  ghost predicate NoDuplicateEquals(s: seq<Item>)
  {
    forall i, j :: 0 <= i < j < |s| ==> !s[i].Equals(s[j])
  }

  /** Since `Equals` is reflexive, a list without equal entries holds each object once. */
  lemma NoDuplicatesAreDistinct(s: seq<Item>)
    requires NoDuplicateEquals(s)
    ensures forall i, j :: 0 <= i < |s| && 0 <= j < |s| && i != j ==> s[i] != s[j]
  {
  }

  /** Appending an item that equals no entry keeps the list free of equal entries. */
  lemma AppendPreservesNoDuplicates(s: seq<Item>, x: Item)
    requires NoDuplicateEquals(s)
    requires FindByEquality(s, x).None?
    ensures NoDuplicateEquals(s + [x])
  {
  }

  /** Removing an entry keeps the list free of equal entries. */
  lemma RemoveAtPreservesNoDuplicates(s: seq<Item>, k: nat)
    requires k < |s|
    requires NoDuplicateEquals(s)
    ensures NoDuplicateEquals(RemoveAt(s, k))
  {
  }

  /** Removing the only occurrence of an object leaves the list without it. */
  lemma RemoveOnlyOccurrence(s: seq<Item>, k: nat)
    requires k < |s|
    requires forall j :: 0 <= j < |s| && j != k ==> s[j] != s[k]
    ensures s[k] !in RemoveAt(s, k)
  {
  }

  /** The set of objects held in `s`. */
  ghost function Elements(s: seq<Item>): set<Item>
  {
    set x | x in s
  }

  /** A list that holds no object twice has as many entries as it holds objects. */
  lemma {:induction false} DistinctLength(s: seq<Item>)
    requires forall i, j :: 0 <= i < j < |s| ==> s[i] != s[j]
    ensures |Elements(s)| == |s|
  {
    if s != [] {
      var t := s[..|s| - 1];
      var x := s[|s| - 1];
      assert forall i, j :: 0 <= i < j < |t| ==> t[i] != t[j] by {
        forall i, j | 0 <= i < j < |t| ensures t[i] != t[j] {
          assert t[i] == s[i] && t[j] == s[j];
        }
      }
      DistinctLength(t);
      assert s == t + [x];
      assert x !in Elements(t) by {
        forall i | 0 <= i < |t| ensures t[i] != x {
          assert t[i] == s[i];
        }
      }
      assert Elements(s) == Elements(t) + {x};
    }
  }

  /** A list without equal entries has as many entries as it holds objects. */
  lemma NoDuplicatesLength(s: seq<Item>)
    ensures NoDuplicateEquals(s) ==> |Elements(s)| == |s|
  {
    if NoDuplicateEquals(s) {
      NoDuplicatesAreDistinct(s);
      DistinctLength(s);
    }
  }

  class Cart {
    var items: seq<Item>
    var totalItems: int
    var locked: bool
    var expiresAt: Option<int>

    /**
     * The cart invariant: no two items are `Equals`, and every item in the
     * cart points back to it.
     */
    ghost predicate Valid()
      reads this`items, items
    {
      && NoDuplicateEquals(items)
      && forall i :: 0 <= i < |items| ==> items[i].cart == this
    }

    /** Totals, lock flag and expiry are as they were. */
    twostate predicate MetadataUnchanged()
      reads this
    {
      totalItems == old(totalItems) && locked == old(locked) && expiresAt == old(expiresAt)
    }

    /** A new cart is empty, unlocked, has no units and expires one window after `now`. */
    constructor (now: int)
      ensures Valid()
      ensures items == [] && totalItems == 0 && !locked
      ensures expiresAt == Some(now + ExpiryWindow)
      ensures IsEmpty() && !IsExpired(now)
    {
      items := [];
      totalItems := 0;
      locked := false;
      expiresAt := None;
      new;
      IncrementExpiresAt(now);
    }

    function GetTotalItems(): int
      reads this`totalItems
    {
      totalItems
    }

    predicate IsLocked()
      reads this`locked
    {
      locked
    }

    function GetExpiresAt(): Option<int>
      reads this`expiresAt
    {
      expiresAt
    }

    /**
     * The number of entries: zero exactly when the cart holds no object and,
     * when no two items are equal, the number of different items it holds.
     */
    function CountItems(): (n: nat)
      reads this`items
      ensures n == 0 <==> Elements(items) == {}
      ensures NoDuplicateEquals(items) ==> n == |Elements(items)|
    {
      assert items != [] ==> items[0] in Elements(items);
      NoDuplicatesLength(items);
      |items|
    }

    /** The lock flag is advisory: it is stored here and read by no other operation. */
    method SetLocked(b: bool)
      modifies this`locked
      ensures IsLocked() == b
    {
      locked := b;
    }

    /** Adds `amount` (by default one) to the unit counter, independently of the items. */
    method IncrementTotalItems(amount: int := 1)
      modifies this`totalItems
      ensures GetTotalItems() == old(GetTotalItems()) + amount
    {
      totalItems := totalItems + amount;
    }

    method SetTotalItems(n: int)
      modifies this`totalItems
      ensures GetTotalItems() == n
    {
      totalItems := n;
    }

    /** True iff the cart holds no item. */
    predicate IsEmpty()
      reads this`items
      ensures IsEmpty() <==> items == []
    {
      CountItems() == 0
    }

    /** The position of `item` itself in the cart, if it is there. */
    function SearchItem(item: Item): (r: Option<nat>)
      reads this`items
      ensures r.Some? ==> r.value < |items| && items[r.value] == item
      ensures r.Some? ==> forall j :: 0 <= j < r.value ==> items[j] != item
      ensures r.None? <==> item !in items
    {
      FindByIdentity(items, item)
    }

    /** True iff `item` itself, not merely an equal item, is in the cart. */
    predicate HasItem(item: Item)
      reads this`items
      ensures HasItem(item) <==> item in items
    {
      SearchItem(item).Some?
    }

    /**
     * Merge-on-add: the first item that `Equals` the argument grows by the
     * argument's quantity and the argument is dropped; otherwise the argument
     * is pointed at this cart and appended.
     */
    method AddItem(item: Item)
      requires NoDuplicateEquals(items)
      modifies this`items, items`quantity, item`cart
      ensures NoDuplicateEquals(items) && (old(Valid()) ==> Valid())
      ensures MetadataUnchanged()
      ensures old(FindByEquality(items, item)).Some? ==>
        var k := old(FindByEquality(items, item)).value;
        && items == old(items)
        && items[k].quantity == old(items[k].quantity) + old(item.quantity)
        && (forall j :: 0 <= j < |items| && j != k ==> items[j].quantity == old(items[j].quantity))
        && item.cart == old(item.cart)
        && (item != items[k] ==> item.quantity == old(item.quantity))
      ensures old(FindByEquality(items, item)).None? ==>
        && items == old(items) + [item]
        && item.cart == this
        && (forall j :: 0 <= j < |old(items)| ==> items[j].quantity == old(items[j].quantity))
        && item.quantity == old(item.quantity)
    {
      var i := 0;
      while i < |items|
        invariant 0 <= i <= |items|
        invariant forall j :: 0 <= j < i ==> !items[j].Equals(item)
      {
        var existing := items[i];
        if existing.Equals(item) {
          existing.IncrementQuantity(item.GetQuantity());
          return;
        }
        i := i + 1;
      }
      AppendPreservesNoDuplicates(items, item);
      item.SetCart(this);
      items := items + [item];
    }

    /**
     * Removes `item` itself, if present, keeping the order of the others, and
     * clears its back-reference; otherwise nothing changes.
     */
    method RemoveItem(item: Item)
      requires NoDuplicateEquals(items)
      modifies this`items, item`cart
      ensures NoDuplicateEquals(items) && (old(Valid()) ==> Valid())
      ensures !HasItem(item) && MetadataUnchanged()
      ensures old(SearchItem(item)).Some? ==>
        && items == RemoveAt(old(items), old(SearchItem(item)).value)
        && item.cart == null
      ensures old(SearchItem(item)).None? ==> items == old(items) && item.cart == old(item.cart)
    {
      var key := SearchItem(item);
      if key.Some? {
        NoDuplicatesAreDistinct(items);
        RemoveAtPreservesNoDuplicates(items, key.value);
        RemoveOnlyOccurrence(items, key.value);
        items := RemoveAt(items, key.value);
        item.SetCart(null);
      }
    }

    /** Empties the cart; the removed items keep their back-references and the counter is kept. */
    method ClearItems()
      modifies this`items
      ensures items == [] && Valid()
      ensures forall x :: x in old(items) ==> x.cart == old(x.cart)
    {
      items := [];
    }

    /** True iff the expiry lies before `now`; a cart with no expiry set counts as expired. */
    predicate IsExpired(now: int)
      reads this`expiresAt
      ensures GetExpiresAt().None? ==> IsExpired(now)
      ensures forall d :: GetExpiresAt() == Some(d) ==> (IsExpired(now) <==> d < now)
    {
      match expiresAt
      case None => true
      case Some(t) => t < now
    }

    /** Sets the expiry; with no argument it clears it, as the source's null default does. */
    method SetExpiresAt(t: Option<int> := None)
      modifies this`expiresAt
      ensures GetExpiresAt() == t
    {
      expiresAt := t;
    }

    /**
     * Resets the expiry to one window after `now`, whatever it was before:
     * the cart is then expired exactly at the times after that.
     */
    method IncrementExpiresAt(now: int)
      modifies this`expiresAt
      ensures GetExpiresAt() == Some(now + ExpiryWindow)
      ensures forall t :: IsExpired(t) <==> now + ExpiryWindow < t
    {
      expiresAt := Some(now + ExpiryWindow);
    }
  }

  /** A cart is empty exactly when there is no item it has. */
  lemma EmptyIffNoItem(c: Cart)
    ensures c.IsEmpty() <==> forall x: Item :: !c.HasItem(x)
  {
    if !c.IsEmpty() {
      assert c.HasItem(c.items[0]);
    }
  }

  /** Once expired, a cart stays expired as time goes on. */
  lemma ExpiredStaysExpired(c: Cart, t1: int, t2: int)
    requires t1 <= t2 && c.IsExpired(t1)
    ensures c.IsExpired(t2)
  {
  }
}
