# Cart aggregate of the Sylius cart bundle, in Dafny

This project models the abstract `Cart` model class of the Sylius cart bundle
(`Model/Cart.php`): a mutable aggregate holding an ordered list of items, a
total-items counter, a lock flag and an expiry timestamp.

`cart.dfy`, module `Model`:

- `Item` stands for the part of `ItemInterface` the cart calls: a mutable
  `quantity`, a mutable `cart` back-reference, `IncrementQuantity`,
  `GetQuantity`, `SetCart` and `Equals`. The concrete item class is not part of
  this model, so `Equals` compares an immutable `key` that stands for whatever
  the concrete item compares. Key equality makes `Equals` an equivalence
  relation.
- `Cart` is a class with the four fields of the source. `items` is a
  `seq<Item>`, `totalItems` an `int`, `locked` a `bool`, and `expiresAt` an
  `Option<int>`, because `setExpiresAt` accepts null.
- `Cart.Valid()` is the invariant the cart keeps: no two items are `Equals`,
  and every item in the cart points back to it. `AddItem` and `RemoveItem`
  require only the first part, `NoDuplicateEquals(items)`, and keep it. They
  keep the back-reference part whenever it held before the call. Another cart
  can break that part by re-pointing a shared item, and the first cart still
  accepts both operations afterwards (`Scenarios.MoveItemToSecondCart`).
- Removal and lookup match by object identity. In Dafny this is `==` on
  references; `FindByIdentity` specifies it. Merging matches by `Equals`;
  `FindByEquality` specifies it. The two searches are kept apart as in the
  source.
- Every mutator has a field-level `modifies` clause, such as `this`items`,
  `items`quantity` or `item`cart`. So what it leaves unchanged follows from its
  frame. `AddItem` and `RemoveItem` also state the untouched fields outright
  with `MetadataUnchanged`.
- Time is an integer `now` in seconds, passed by the caller. The window is the
  constant `ExpiryWindow = 10800`, the source's `PT3H`. The source hard-codes
  this window; it is not a configuration setting. `IncrementExpiresAt` resets
  the expiry and does not extend it.
- `IsExpired(now)` is `expiresAt < now`. When no expiry is set (after
  `SetExpiresAt(None)`), the model treats the cart as expired. That is the
  result PHP's loose comparison gives for `null < DateTime`: both sides become
  booleans, and `false < true`.
- The getters `GetTotalItems`, `IsLocked`, `GetExpiresAt` and
  `Item.GetQuantity` are plain field reads with no contract of their own. The
  setters' postconditions and the lemmas below state what they return.
- The lock flag is advisory, as in the source. No operation reads it, and
  `AddItem` accepts an item on a locked cart.

`scenarios.dfy`, module `Scenarios`: client methods that run short sequences of
operations. Each one states what holds afterwards, derived from the `Model`
contracts alone.

## Model

| member | source | states |
|---|---|---|
| `Model.Item.Equals` | Model/Cart.php:164 | merge-matching equality is reflexive: every item `equals` itself |
| `Model.EqualsIsEquivalence` | Model/Cart.php:164 | `equals` is symmetric and transitive, so with reflexivity it is an equivalence relation |
| `Model.FindByIdentity` | Model/Cart.php:200-203 | the result is the first position holding the object itself (strict `array_search`); it is None exactly when the object is not in the list |
| `Model.FindByEquality` | Model/Cart.php:162-169 | the result is the first position whose entry `equals` the argument, with no earlier entry equal; it is None exactly when no entry equals it |
| `Model.RemoveAt` | Model/Cart.php:182 | removing one entry shortens the list by one; the entries before it stay in place and the later ones shift down by one, keeping their order |
| `Model.NoDuplicatesAreDistinct` | Model/Cart.php:162-172 | when no two entries are `equals`, no object occurs twice, since `equals` is reflexive |
| `Model.AppendPreservesNoDuplicates` | Model/Cart.php:171-172 | appending an item that equals no entry keeps the list free of equal pairs |
| `Model.RemoveAtPreservesNoDuplicates` | Model/Cart.php:180-182 | removing an entry keeps the list free of equal pairs |
| `Model.RemoveOnlyOccurrence` | Model/Cart.php:180-183 | when an object occurs only once, the list no longer holds it after its entry is removed |
| `Model.DistinctLength` | Model/Cart.php:152-155 | a list in which no object repeats has as many entries as it holds distinct objects |
| `Model.NoDuplicatesLength` | Model/Cart.php:152-155 | a list with no equal pair has as many entries as distinct objects |
| `Model.Cart.CountItems` | Model/Cart.php:152-155 | `countItems` is 0 exactly when the cart holds no object; when no two items are equal, it is the number of different items held |
| `Model.EmptyIffNoItem` | Model/Cart.php:128-131 | a cart is empty exactly when `hasItem` is false for every item |
| `Model.ExpiredStaysExpired` | Model/Cart.php:216-219 | a cart expired at some time is still expired at every later time |
| `Model.Item.IncrementQuantity` | Model/Cart.php:165 | the quantity grows by exactly the amount, and nothing else of the item changes |
| `Model.Item.SetCart` | Model/Cart.php:171 | the back-reference becomes the given cart or null, and nothing else of the item changes |
| `Model.Cart.constructor` | Model/Cart.php:61-67 | the new cart is valid and empty, has zero total items, is unlocked, expires at `now + 10800`, and is not expired at `now` |
| `Model.Cart.SetLocked` | Model/Cart.php:96-99 | `isLocked` then returns the given flag; only `locked` changes |
| `Model.Cart.IncrementTotalItems` | Model/Cart.php:104-107 | `getTotalItems` grows by the amount (default 1); only `totalItems` changes, and the items are untouched |
| `Model.Cart.SetTotalItems` | Model/Cart.php:112-115 | `getTotalItems` then returns the given value; only `totalItems` changes |
| `Model.Cart.IsEmpty` | Model/Cart.php:128-131 | `isEmpty` holds exactly when the item list is empty, that is when `countItems` is 0 |
| `Model.Cart.SearchItem` | Model/Cart.php:200-203 | a found position holds the argument itself, and no earlier position does; nothing is found exactly when the argument is not in the cart |
| `Model.Cart.HasItem` | Model/Cart.php:190-193 | `hasItem` holds exactly when the argument itself, by reference, is in the cart |
| `Model.Cart.AddItem` | Model/Cart.php:160-173 | if some item `equals` the argument, the list stays the same, only the first such item's quantity grows by the argument's quantity, and the argument's back-reference is untouched; otherwise the list becomes old list + [argument] and the argument points to this cart; it needs only that no two items are equal, keeps that, and keeps the back-reference invariant when it held; totals, lock and expiry are unchanged |
| `Model.Cart.RemoveItem` | Model/Cart.php:178-185 | if the argument itself is present, its entry is removed, the others keep their order and its back-reference becomes null; otherwise nothing changes; either way `hasItem` is then false; it needs only that no two items are equal, keeps that, and keeps the back-reference invariant when it held; totals, lock and expiry are unchanged |
| `Model.Cart.ClearItems` | Model/Cart.php:208-211 | the list becomes empty; the removed items keep their back-references; totals, lock and expiry are unchanged |
| `Model.Cart.IsExpired` | Model/Cart.php:216-219 | with an expiry `d` set, the cart is expired at `now` exactly when `d < now`; with no expiry set, it counts as expired |
| `Model.Cart.SetExpiresAt` | Model/Cart.php:232-235 | `getExpiresAt` then returns the given timestamp, or none when no argument is given; only `expiresAt` changes |
| `Model.Cart.IncrementExpiresAt` | Model/Cart.php:240-246 | the expiry becomes `now + 10800` whatever it was before; the cart is then expired at exactly the times after that |
| `Scenarios.AddEqualPair` | Model/Cart.php:162-168 | after two equal items are added to a new cart, it holds one entry, the first item, whose quantity is the sum of both; the second item is not held and is untouched |
| `Scenarios.AddDistinctPair` | Model/Cart.php:171-172 | after two items that are not equal are added to a new cart, both are held, in order, and each points back to the cart |
| `Scenarios.MergeTwoAndThree` | Model/Cart.php:164-165 | two equal items of quantities 2 and 3 become one item of quantity 5 |
| `Scenarios.AddThenRemove` | Model/Cart.php:178-185 | an item that is added and then removed is no longer held, its cart is null, and the cart is empty |
| `Scenarios.AddToLockedCart` | Model/Cart.php:160-173 | a locked cart still accepts an item |
| `Scenarios.ClearKeepsBackReference` | Model/Cart.php:208-211 | clearing keeps the counter, and the removed item still points at the cart |
| `Scenarios.MoveItemToSecondCart` | Model/Cart.php:171 | after an item of one cart is added to a second cart, it points at the second cart, both carts hold it, and the first cart no longer satisfies its back-reference invariant; the first cart still accepts an item that equals none of its own |
| `Scenarios.RenewExpiredCart` | Model/Cart.php:240-246 | an expired cart renewed at time `later` is not expired at `later`, and its expiry is `later + 10800` |

## Left out

- `getId` / `setId` (Model/Cart.php:72-83): the id is an opaque value assigned by persistence, and there is no logic in it.
- `getItems` / `setItems` (Model/Cart.php:136-147): these are raw accessors. `setItems` installs any array without merging, so it can break the no-equal-pairs invariant and the back-reference invariant that `Valid()` states.
- The clock and `DateTime` / `DateInterval` arithmetic: the caller passes `now` as integer seconds, and the window is the integer constant 10800.
- Model.Cart.SearchItem: it returns the position in the sequence. After a PHP `unset`, the array can have key gaps, and `array_search` returns the array key instead. The two differ once an earlier entry has been removed; the model keeps the items as a gap-free sequence.
- PHP integer overflow into floats in `incrementTotalItems` and `incrementQuantity` is not modelled, because Dafny integers are unbounded.
- The concrete `ItemInterface` implementation is not part of this model. Its `equals` is abstracted as key equality, and its rule that quantity is at least 1 is neither assumed nor enforced, because `Model/Cart.php` does not check it. `Item.constructor` exists only so that scenarios can create items.
- Null item arguments are not modelled: `Item` is a non-null reference type, so such calls cannot be written.
- Aliasing across carts: `Valid()` is stated for one cart, and no invariant spans several carts. Adding an item of one cart to a second cart re-points its back-reference, as the source does. The first cart then breaks the back-reference part of `Valid()`, and `AddItem`, `RemoveItem` and the other operations still accept it.
- Persistence, Doctrine mapping and framework wiring are outside this core.
