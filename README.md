# Shopping cart state: a verified model

This project models the cart store of a small web shop. The cart is a list
of line items. Each item has a sku, a name, a unit price and a quantity.
A reducer is a pure function from the current cart state and a dispatched
action to the next state. It has four actions, and it throws on malformed
actions:

- ADD merges on sku. Any existing item of that sku is removed. One item is
  appended with the payload's name and price, and with the old quantity
  plus one, or 1 if the sku was not in the cart.
- REMOVE filters the sku out.
- QUANTITY replaces the quantity of an item that must already exist. The
  item moves to the end.
- SUBMIT empties the cart.

On every read, the store also derives three values from the items: the
total item count, the price total, and a display order. The display order
sorts the stored items in place, ascending by the number written in the
last four characters of each sku.

Modules (all files are verified together):

- `wrappers.dfy`, module `Wrappers`: `Option` (an absent payload or no
  match from `find`) and `Result` (a value, or the error the source throws).
- `items.dfy`, module `CartItems`: the line item and the list operations the
  reducer is built from. `FilterOut` is `filter` on the sku and `Find` is
  `find` on the sku. The module also defines the invariant `UniqueSkus`
  ("at most one item per sku") and the lemmas that connect these pieces.
- `reducer.dfy`, module `CartReducer`: the actions, the errors, the
  `Reducer` function, and one lemma per property of each action.
- `totals.dfy`, module `CartTotals`: the `reduce` left fold, a reference
  `Sum`, the item count and the price total, and how each action changes
  the item count.
- `display.dfy`, module `DisplayOrder`: the sku suffix key, the comparator,
  and the in-place sort of an `array` of items. It also has `ReadCart`, one
  read of the cart: totals first, then the in-place sort.

Action tags are strings, as in the source. The REMOVE constant's value is
`"REMOTE"`, so a caller that uses the constant reaches the REMOVE branch.
A caller that writes the literal `"REMOVE"` gets the "unidentified action"
error; `LiteralRemoveRejected` states this. Errors are values of
`CartError`, one per `throw`. A failed transition returns no state, so the
previous state is the one that stays.

The lemmas about ADD, REMOVE and QUANTITY that name an index assume the
cart invariant `UniqueSkus`. `ReducerKeepsUniqueSkus` proves that every
successful transition keeps that invariant, and the initial cart is empty.
`AddOccursOnce` and `RemoveFilters` hold for every cart, even one with
duplicate skus.

The display sort reorders the stored array, so the next reducer call sees
the items in display order. `SortForDisplay` and `ReadCart` prove that the
sort keeps skus unique (through `PermutationUnique`), so the invariant the
index lemmas assume holds of every cart the reducer can be given. `ReadCart` proves that the totals computed before
the sort equal the totals of the sorted items.

Behaviours of the code that the model keeps as they are:

- Every action except SUBMIT checks only that the payload is present. No
  field of the payload is checked.
- QUANTITY accepts any integer quantity, including zero and negative
  values.
- QUANTITY moves the updated item to the end of the cart. The other items
  keep their relative order, but the cart's order does change.
- The error for an unknown tag is also what a caller gets for the literal
  `"REMOVE"`.

## Model

| member | source | states |
|---|---|---|
| CartItems.FilterOut | src/context/CartProvider.tsx:43 | the result holds exactly the cart's items of other skus, no item of the filtered sku, and is no longer than the cart |
| CartItems.FilterOutConcat | src/context/CartProvider.tsx:43 | filtering distributes over concatenation, so kept items keep their original relative order |
| CartItems.FilterOutAbsent | src/context/CartProvider.tsx:59 | filtering out a sku the cart does not hold returns the cart unchanged |
| CartItems.FilterOutAt | src/context/CartProvider.tsx:77 | in a cart with unique skus, filtering the sku at index i yields the cart with exactly item i removed |
| CartItems.FilterOutUnique | src/context/CartProvider.tsx:59 | filtering preserves "at most one item per sku" |
| CartItems.Find | src/context/CartProvider.tsx:46 | no result exactly when no item has the sku; otherwise the first item carrying the sku |
| CartItems.FindAt | src/context/CartProvider.tsx:69 | in a cart with unique skus, find on the sku at index i returns item i |
| CartItems.PermutationUnique | src/context/CartProvider.tsx:107 | any reordering of a cart with unique skus, such as the in-place display sort, still has unique skus |
| CartItems.AppendUnique | src/context/CartProvider.tsx:51 | appending an item whose sku is absent keeps skus unique |
| CartReducer.Reducer | src/context/CartProvider.tsx:33-87 | success exactly when the tag is known, a payload is present for all but SUBMIT, and a QUANTITY target exists; unknown tags give the unidentified-action error; a missing payload gives the payload-missing error naming "ADD", "REMOVE" (for tag "REMOTE") or "QUANTITY"; a QUANTITY on an absent sku gives the item-must-exist error |
| CartReducer.AddAbsent | src/context/CartProvider.tsx:40-51 | ADD of an absent sku returns the old items in order followed by one item with the payload's sku, name and price and qty 1 |
| CartReducer.AddPresent | src/context/CartProvider.tsx:43-51 | ADD of the sku at index i returns the other items in order followed by that sku with qty + 1 and the payload's name and price |
| CartReducer.AddOccursOnce | src/context/CartProvider.tsx:43-51 | after any ADD, on any cart, the added sku occurs exactly once |
| CartReducer.RemoveFilters | src/context/CartProvider.tsx:57-61 | REMOVE succeeds, leaves no item of the sku, keeps exactly the other items, and leaves the cart equal when the sku is absent |
| CartReducer.RemovePresent | src/context/CartProvider.tsx:57-61 | REMOVE of the sku at index i returns the cart with exactly item i removed |
| CartReducer.QuantityPresent | src/context/CartProvider.tsx:67-79 | QUANTITY on the sku at index i returns the other items in order followed by item i with its sku, name and price and the payload's qty, for any integer qty |
| CartReducer.QuantityAbsent | src/context/CartProvider.tsx:69-73 | QUANTITY on an absent sku fails with the item-must-exist error |
| CartReducer.LiteralRemoveRejected | src/context/CartProvider.tsx:18-23 | the tag "REMOVE" is not the REMOVE constant's value ("REMOTE") and is rejected as unidentified |
| CartReducer.SubmitEmpties | src/context/CartProvider.tsx:81-82 | SUBMIT returns the empty cart whatever the prior state and payload |
| CartReducer.ReducerKeepsUniqueSkus | src/context/CartProvider.tsx:42-79 | every successful transition keeps at most one item per sku |
| CartTotals.Reduce | src/context/CartProvider.tsx:97-104 | the reduce left fold with callback `previousValue + weigh(cartItem)`, started at acc, equals acc plus the independently defined recursive sum of weigh over the items |
| CartTotals.TotalItems | src/context/CartProvider.tsx:97-99 | totalItems equals the sum of qty over the cart, and is 0 for an empty cart |
| CartTotals.TotalPriceCents | src/context/CartProvider.tsx:102-104 | the price total equals the sum of qty times price, and is 0 for an empty cart |
| CartTotals.SumPermutation | src/context/CartProvider.tsx:107-111 | any permutation of the items, such as the display sort, has the same sums |
| CartTotals.AddRaisesTotalItems | src/context/CartProvider.tsx:97-99 | on a cart with unique skus, ADD succeeds and raises totalItems by exactly 1 |
| CartTotals.RemoveLowersTotalItems | src/context/CartProvider.tsx:97-99 | REMOVE of the sku at index i lowers totalItems by that item's qty |
| CartTotals.QuantityShiftsTotalItems | src/context/CartProvider.tsx:97-99 | QUANTITY on the sku at index i changes totalItems by the new qty minus the old one |
| DisplayOrder.DecimalValue | src/context/CartProvider.tsx:108-109 | the numeric value of a digit string is below 10 to its length |
| DisplayOrder.SuffixKey | src/context/CartProvider.tsx:108-109 | the sort key of a well-formed sku is a number from 0 to 9999 |
| DisplayOrder.DecimalValueInjective | src/context/CartProvider.tsx:108-109 | two digit strings of equal length have equal value only if they are equal |
| DisplayOrder.SuffixKeyExact | src/context/CartProvider.tsx:108-109 | two well-formed skus have equal keys exactly when their last four characters agree |
| DisplayOrder.CompareBySuffix | src/context/CartProvider.tsx:107-110 | the comparator is negative exactly when the first sku's key is smaller, zero exactly when the keys are equal, and lies strictly between -10000 and 10000 |
| DisplayOrder.CompareConsistent | src/context/CartProvider.tsx:107-110 | on well-formed skus the comparator is antisymmetric and transitive |
| DisplayOrder.InsertAt | src/context/CartProvider.tsx:107-111 | one insertion step makes the prefix up to index i sorted, permutes the array and leaves every element after index i unchanged |
| DisplayOrder.SortForDisplay | src/context/CartProvider.tsx:107-111 | the array is sorted in place ascending by sku suffix, is a permutation of its previous contents, and keeps skus unique when they were |
| DisplayOrder.ReadCart | src/context/CartProvider.tsx:97-111 | the returned totals are the sums over the items both before and after the in-place sort, which leaves the items sorted, permuted and with unique skus when they were |

## Left out

- React wiring is not modelled: `useReducer`, `useMemo`, `createContext`, the `CartProvider` component and the placeholder context value (src/context/CartProvider.tsx:89-95,113-140). It is framework plumbing with no logic. How a thrown error propagates through React is also not modelled.
- The currency formatting of `totalPrice` with `Intl.NumberFormat` is not modelled. It is a locale-dependent library call. Only the number it formats is modelled, with prices as integer cents instead of floating-point numbers.
- The model restricts qty to integers. The source's `number` also admits fractions and NaN, which QUANTITY accepts unchecked; these are not modelled. Quantities and totals in the source are double-precision numbers, exact only below 2^53, while the model's integers are unbounded: from 2^53 on, the source's `qty + 1` and its sums round, and the "+1" of AddRaisesTotalItems no longer holds there.
- SortForDisplay: requires every sku to end in four decimal digits. For other skus `Number(...)` can give NaN, which makes the comparator inconsistent; it can also give an ordinary number that the model does not compute, from an exponent form ("1e10"), a hex form ("0x1F" is 31), a sign ("-123") or an all-digit sku shorter than four characters ("42" is 42). All of these are excluded by the requires.
- ReadCart: requires every sku to end in four decimal digits, for the same reason as SortForDisplay.
- SortForDisplay: does not state stability. `Array.prototype.sort` is stable, but the model proves only that the result is sorted and a permutation. The model sorts by insertion; the JavaScript engine's own algorithm is not modelled.
- ReadCart: does not state stability either. Two items with different skus but the same last four characters (such as "abc0001" and "xyz0001") may end in either order, while the source's stable sort keeps their stored order.
- src/context/ProductsProvider.tsx is not part of this model. It is a fixed three-item catalog behind a state hook and has no operations.
