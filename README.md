# Shopping-cart reducer and its derived view, in Dafny

This project models the state logic of a small web shop's shopping cart
(`src/context/CartProvider.tsx`). The cart is an ordered list of line items
(`sku`, `name`, `price`, `qty`). A reducer maps the current cart and a
dispatched action to the next cart. There are four action types:

- `ADD` inserts an item, or increments its qty if the sku is already present.
- `REMOVE` filters a sku out.
- `QUANTITY` replaces the qty of an existing item.
- `SUBMIT` clears the cart.

Any other type, and a missing payload on `ADD`, `REMOVE` or `QUANTITY`, is an
error. A `QUANTITY` for an absent sku is an error too. The context hook derives
`totalItems` (the sum of qty) and the display cart. The display cart is the
cart sorted ascending by the number that the last four characters of each sku
spell.

Layout, one module per component:

- `cart_items.dfy` (`CartItems`): the line item and state datatypes, plus the two
  list primitives the reducer uses. `Without` is `filter(item => item.sku !== sku)`
  and `Find` is `find(item => item.sku === sku)`. The module also has their lemmas:
  relative order, multiplicities, the effect on unique skus, and first-match
  behaviour.
- `cart_reducer.dfy` (`CartReducer`): the action vocabulary, the `Result` type
  (`Ok(state) | InvalidAction | ItemNotFound`) that replaces the two `throw`s,
  and `Reducer` with its ADD and QUANTITY branches (`AddItem`, `UpdateQuantity`).
  Then one lemma per transition property.
- `cart_totals.dfy` (`CartTotals`): the `reduce` fold, `totalItems`, and the
  integer-cents value of `totalPrice`. It proves that the fold depends only on
  the multiset of items. It also states exactly how ADD, REMOVE, QUANTITY and
  SUBMIT change `totalItems` on a cart with unique skus. Every reachable cart
  has unique skus: the initial cart is empty and `Reducer` keeps skus unique.
- `cart_view.dfy` (`CartView`): the sort key `Number(sku.slice(-4))`, an in-place
  insertion sort over an `array` taking the key as a function, and the hook
  `UseCartContext`. The hook reads the totals and then sorts the cart array in
  place. The module also has the lemmas about sorted arrangements.

The reducer is pure in the source: it builds fresh arrays with `filter`, `find`
and spread. It is therefore modelled with functions over `seq`. The display
sort calls `state.cart.sort(...)`, which reorders the reducer's own state array
in place. It is therefore a method with `modifies` on an array.

The stored cart order after a render is thus the sorted order, not the
insertion order. The model follows the code here. `ReducerIgnoresOrder` shows
that this is harmless when skus are unique: a reordered cart gives the same
success or error and the same items, in a possibly different order.

## Model

| member | source | states |
|---|---|---|
| `CartItems.Without` | src/context/CartProvider.tsx:40-42 | the filtered cart is no longer than the cart and no item in it carries the filtered sku |
| `CartItems.WithoutCounts` | src/context/CartProvider.tsx:60-62 | filtering keeps each item whose sku differs exactly as many times as the cart holds it, and drops every item with the sku |
| `CartItems.WithoutKeepsOrder` | src/context/CartProvider.tsx:60-62 | a surviving item keeps the survivors before it in front and the survivors after it behind (relative order is kept) |
| `CartItems.WithoutConcat` | src/context/CartProvider.tsx:60-62 | filtering distributes over concatenation of carts |
| `CartItems.WithoutAbsent` | src/context/CartProvider.tsx:60-64 | filtering a sku the cart does not hold returns the cart unchanged |
| `CartItems.WithoutKeepsUnique` | src/context/CartProvider.tsx:40-42 | filtering a cart with unique skus leaves them unique |
| `CartItems.WithoutUniqueLength` | src/context/CartProvider.tsx:60-62 | with unique skus and the sku present, filtering removes exactly one item |
| `CartItems.Find` | src/context/CartProvider.tsx:44-46 | `find` gives no item exactly when no item carries the sku; otherwise an item of the cart that carries it |
| `CartItems.FindFirst` | src/context/CartProvider.tsx:44-46 | `find` returns the item at the first index that carries the sku |
| `CartItems.FindUnique` | src/context/CartProvider.tsx:78-80 | with unique skus, `find` returns the one item carrying the sku |
| `CartReducer.Reducer` | src/context/CartProvider.tsx:28-97 | every successful transition from a cart with unique skus yields a cart with unique skus |
| `CartReducer.AddedQty` | src/context/CartProvider.tsx:48 | ADD's new qty is 1 when no item carries the sku, otherwise one more than the qty of the first item that does |
| `CartReducer.AddItem` | src/context/CartProvider.tsx:38-50 | after ADD exactly one item carries the payload's sku, and it is the last one; unique skus stay unique |
| `CartReducer.UpdateQuantity` | src/context/CartProvider.tsx:72-87 | QUANTITY finds nothing exactly when the sku is absent; otherwise exactly one item carries the sku, the last one, and unique skus stay unique |
| `CartReducer.AddNewSku` | src/context/CartProvider.tsx:38-50 | ADD of an absent sku yields the old items in order followed by one new item `{sku, name, price, qty: 1}` |
| `CartReducer.AddExistingSku` | src/context/CartProvider.tsx:38-50 | ADD of a present sku moves it to the end with qty one more than the first match's, name and price from the payload; with unique skus the length is unchanged |
| `CartReducer.AddIgnoresPayloadQty` | src/context/CartProvider.tsx:38 | the payload's own qty has no effect on ADD |
| `CartReducer.RemoveSku` | src/context/CartProvider.tsx:53-65 | REMOVE yields the filtered cart, which holds no item with the sku; an absent sku leaves the state unchanged; with unique skus a present sku shortens the cart by one |
| `CartReducer.QuantityMissingSku` | src/context/CartProvider.tsx:78-83 | QUANTITY on an absent sku fails with ItemNotFound |
| `CartReducer.QuantityExistingSku` | src/context/CartProvider.tsx:72-87 | QUANTITY on a present sku moves the first match to the end with only qty replaced (any value, unchecked); name and price are the item's own, not the payload's |
| `CartReducer.SubmitClears` | src/context/CartProvider.tsx:90-92 | SUBMIT yields an empty cart from any state, with or without a payload |
| `CartReducer.ReducerErrors` | src/context/CartProvider.tsx:32-96 | the reducer fails with InvalidAction exactly on an unknown type or a missing payload on ADD, REMOVE or QUANTITY, and with ItemNotFound exactly on QUANTITY of an absent sku |
| `CartReducer.QuantityExample` | src/context/CartProvider.tsx:85-87 | QUANTITY 7 on a cart holding ITEM0001 with qty 1 yields that item with qty 7 and all else unchanged |
| `CartReducer.AddTwiceExample` | src/context/CartProvider.tsx:44-50 | two ADDs of one sku into an empty cart give one item with qty 2, name and price from the second payload |
| `CartTotals.Sum` | src/context/CartProvider.tsx:106-108 | the `reduce` fold from 0 is 0 on an empty cart and never negative when no term is |
| `CartTotals.TotalItems` | src/context/CartProvider.tsx:106-108 | totalItems is 0 for an empty cart and at least the number of lines when every qty is positive |
| `CartTotals.TotalPriceCents` | src/context/CartProvider.tsx:114-116 | the sum of qty times price is 0 for an empty cart and never negative when no qty or price is |
| `CartTotals.SumConcat` | src/context/CartProvider.tsx:106-108 | the left fold distributes over concatenation |
| `CartTotals.SumPermutation` | src/context/CartProvider.tsx:106-108 | the left fold depends only on the multiset of items, not their order |
| `CartTotals.SumWithout` | src/context/CartProvider.tsx:106-108 | with unique skus the fold is the fold over the filtered cart plus the term of the item `find` returns |
| `CartTotals.AddTotalItems` | src/context/CartProvider.tsx:106-108 | with unique skus, ADD raises totalItems by exactly one |
| `CartTotals.RemoveTotalItems` | src/context/CartProvider.tsx:106-108 | with unique skus, REMOVE lowers totalItems by the removed item's qty, or by 0 when the sku is absent |
| `CartTotals.QuantityTotalItems` | src/context/CartProvider.tsx:106-108 | with unique skus, QUANTITY replaces the old qty by the new one in totalItems |
| `CartTotals.SubmitTotals` | src/context/CartProvider.tsx:90-91 | after SUBMIT totalItems and the price sum are 0 |
| `CartTotals.TotalsPermutation` | src/context/CartProvider.tsx:106-117 | reordering the cart, as the display sort does, changes neither total |
| `CartTotals.TotalsExample` | src/context/CartProvider.tsx:106-117 | lines of qty 2 at 10.00 and qty 1 at 5.50 give 3 items and 2550 cents |
| `CartView.LastFour` | src/context/CartProvider.tsx:120-121 | `slice(-4)` is the suffix of length min(4, length) |
| `CartView.DecimalValue` | src/context/CartProvider.tsx:120-121 | `Number` of a string of d decimal digits is below 10 to the d (and 0 for the empty string) |
| `CartView.DecimalValuePadded` | src/context/CartProvider.tsx:120-121 | reading back a zero-padded digit string gives the number it was written from |
| `CartView.SkuKey` | src/context/CartProvider.tsx:120-121 | the sort key of a sku with a digit suffix is below 10000 |
| `CartView.SkuKeyPadded` | src/context/CartProvider.tsx:120-121 | a sku ending in the four-digit zero-padded form of n has key n, whatever precedes it |
| `CartView.ItemKey` | src/context/CartProvider.tsx:120-121 | the comparator's per-item key, `Number(item.sku.slice(-4))`, is below 10000 |
| `CartView.SortByKey` | src/context/CartProvider.tsx:119-123 | the array is reordered in place into a permutation of its old contents, ascending by key |
| `CartView.UseCartContext` | src/context/CartProvider.tsx:99-126 | the totals are those of the cart before and after the sort; the cart array ends as a sorted permutation; unique skus stay unique |
| `CartView.SortedPermutationUnique` | src/context/CartProvider.tsx:119-123 | with distinct keys there is only one sorted arrangement of a cart, so the display order is determined |
| `CartView.ExampleKeys` | src/context/CartProvider.tsx:120-121 | A0003, B0001 and C0002 have keys 3, 1 and 2 |
| `CartView.SortExample` | src/context/CartProvider.tsx:119-123 | any sorted arrangement of A0003, B0001, C0002 is B0001, C0002, A0003 |
| `CartView.UniqueSkusPermutation` | src/context/CartProvider.tsx:119-123 | reordering a cart with unique skus keeps them unique |
| `CartView.FindPermutation` | src/context/CartProvider.tsx:44-46 | with unique skus, `find` answers alike on any reordering of the cart |
| `CartView.WithoutPermutation` | src/context/CartProvider.tsx:60-62 | filtering a sku out of two reorderings of a cart, then appending one item to each, gives two reorderings of the same items |
| `CartView.AddItemPermutation` | src/context/CartProvider.tsx:38-50 | with unique skus, ADD on two reorderings of a cart yields reorderings of one result |
| `CartView.UpdateQuantityPermutation` | src/context/CartProvider.tsx:72-87 | with unique skus, QUANTITY on two reorderings of a cart fails on both or yields reorderings of one result |
| `CartView.ReducerIgnoresOrder` | src/context/CartProvider.tsx:119-123 | after the in-place sort reorders the state, every action still succeeds or fails as before, with the same error, and leaves the same items |

## Left out

- `totalPrice` formatting: the source sums floating-point `qty * price` and formats the sum with `Intl.NumberFormat("en-US", USD)`. The model keeps prices as integer cents and states only the integer sum (`TotalPriceCents`). Floating-point rounding and the currency string are not modelled.
- JavaScript number semantics for `qty` and `price`: these are unbounded integers here. Fractional quantities, `NaN` and floating-point precision in `qty + 1` are not modelled.
- `SkuKey`: `Number(...)` is modelled only for suffixes made of decimal digits, which is a precondition. Any other suffix is outside the model. For it, `Number` either gives `NaN`, which makes the comparator inconsistent, or gives a value the model does not compute: negative, fractional, hexadecimal or exponent forms, or text with surrounding whitespace. A sku shorter than four characters uses its whole text, and the empty text reads as 0, as in the source.
- `SortByKey`: the engine's sort algorithm and its stability are not modelled. Insertion sort stands in, and only "ascending by key" and "a permutation" are stated.
- React plumbing: `useReducer` and `useMemo` (lines 100-104), `createContext` (138-139), the `CartProvider` component (145-151) and the default context value with its no-op `dispatch` (130-136) have no behaviour to verify.
- Exceptions: each `throw` becomes the error value `InvalidAction` or `ItemNotFound`. The message texts, and the host runtime surfacing the exception as an application fault, are not modelled. A failed transition yields no new state, so the caller keeps the old one.
- Aliasing: the reducer works on values (`seq`), and the hook's sort works on an `array` that stands for the same state list. `ReducerIgnoresOrder` states what the in-place reordering means for later reducer calls.
