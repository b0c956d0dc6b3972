# Cart store of the RocketShoes storefront

A Dafny model of the cart hook `src/hooks/useCart.tsx`. The store keeps an
ordered list of line items (`Product` records with an `id` and an `amount`).
It mirrors that list into a single browser-storage slot under the key
`@RocketShoes:cart`. It changes the list through three operations:

- `addProduct` appends a new item with amount 1, or adds 1 to the amount of
  the item already there, once a stock check passes;
- `removeProduct` filters out the item with the id, or reports an error
  when no item has it;
- `updateProductAmount` writes a new amount into the item with the id. It
  ignores amounts of 0 or less and checks stock first.

The project has two modules:

- `CartItems` (`cart_items.dfy`) holds the line items and the pure parts of
  the hook. These are the stock comparison, the lookup by id (`find`), and
  the three list rewrites (the increment map, the `filter` and the
  set-amount map). The lemmas about them are here too.
- `CartStore` (`cart_store.dfy`) holds the class `CartProvider`. Its fields
  are the in-memory `cart` and the `stored` slot. The constructor is the
  initial load from storage. The three operations are methods that change
  both fields.

Network replies (`products/{id}` and `stock/{id}`) are method parameters of
type `Fetch<T>`, either the data or a rejection. Each toast is the returned
`Notice`. JSON encoding is not modelled: the slot holds the list itself.

Behaviour the model keeps from the code:

- The stock gate rejects when `stock.amount <= quantity`. It is asked about
  the item's current amount, or 0 when the item is absent. For
  `addProduct` this is the same as allowing `current + 1 <= stock`.
- `updateProductAmount` also asks the gate about the *current* amount, not
  the requested one. So an update can set an amount above the stock
  (`UpdateGateIgnoresRequested`). Checking the requested amount instead
  would keep every amount within stock; the code does not.
- The add gate sees only the first item with the id (`find`), while the
  increment map raises every item with it. Nothing guarantees unique ids in
  a cart loaded from storage: `[{id 1, amount 1}, {id 1, amount 5}]` with
  stock 3 passes the gate and ends holding 6 (`DuplicatesExceedStock`).
  So the stock bound (`AddedWithinStock`, `AddProduct`) assumes unique ids.
- In `addProduct`, `data && setCart(newCart)` skips the in-memory update
  only when the product body is falsy. The storage write happens anyway. A
  falsy body spread into `{ ...data, amount: 1 }` gives an item with only
  an `amount` field (`Product.AmountOnly`). Storage then holds one more item
  than the cart.
- `[...cart]` is a shallow copy, and the increment map changes
  `product.amount` on objects it shares with `cart`. So when the id is
  present, the in-memory items change even for a falsy body. The model sets
  `cart` to the new list in that case.
- The appended item takes its id from the product reply, not from the
  requested id. Ids stay unique only when the product reply carries the
  requested id. The lemmas about uniqueness assume this.
- Every operation keeps the amounts of a cart at least 1 (`Positive`). A new
  item starts at 1, an increment only raises an amount, the filter only
  drops items, and an update writes only amounts above 0. A cart loaded from
  storage is not checked, so the invariant is stated as "kept if it held".
- `find` returns the first item with the id, while the maps and the filter
  touch every item with it. With unique ids these are the same item.

## Model

| member | source | states |
|---|---|---|
| `CartItems.HasStock` | src/hooks/useCart.tsx:55-63 | the gate passes exactly when the quantity is strictly below the stock amount; equality is rejected |
| `CartItems.GateIsCandidateBound` | src/hooks/useCart.tsx:74-82 | checking the current amount for add is the same as requiring the candidate amount `current + 1` to be at most the stock |
| `CartItems.Find` | src/hooks/useCart.tsx:65-67 | no result exactly when no item has the id; otherwise the result is an item with the id and no earlier item has it |
| `CartItems.FindUnique` | src/hooks/useCart.tsx:65-67 | with unique ids, the lookup returns the one item that holds the id |
| `CartItems.GateQuantity` | src/hooks/useCart.tsx:76-79 | the quantity asked about is the found item's amount, or 0 when no item was found (the same expression serves the update gate at lines 132-135) |
| `CartItems.Bump` | src/hooks/useCart.tsx:92-97 | an item with the id gets its amount raised by 1 and nothing else; any other item is returned as it was; the id never changes |
| `CartItems.SetAmount` | src/hooks/useCart.tsx:140-142 | an item with the id gets the requested amount and nothing else; any other item is returned as it was; the id never changes |
| `CartItems.NewItem` | src/hooks/useCart.tsx:87-90 | the pushed item has amount 1 and the catalogue fields and id of the product reply, or only an amount for a falsy reply |
| `CartItems.Added` | src/hooks/useCart.tsx:86-98 | the list addProduct builds is one longer exactly when the id was absent; each earlier position holds the old item with the id's amount raised by 1; the new last item is the pushed one |
| `CartItems.AddedPositive` | src/hooks/useCart.tsx:86-98 | an add keeps every amount at least 1 |
| `CartItems.Incremented` | src/hooks/useCart.tsx:92-98 | same length; each item with the id has its amount raised by 1, every other item is unchanged |
| `CartItems.AddedAbsent` | src/hooks/useCart.tsx:86-90 | on an absent id, add appends exactly one item with amount 1 at the end and keeps the earlier items; with a record body the new item has the body's id |
| `CartItems.AddedPresent` | src/hooks/useCart.tsx:91-98 | with unique ids, add on a present id raises only that item's amount by 1; length, order and other items unchanged, ids stay unique |
| `CartItems.AddedKeepsUnique` | src/hooks/useCart.tsx:86-98 | add keeps ids unique when the product reply carries the requested id |
| `CartItems.AddedWithinStock` | src/hooks/useCart.tsx:76-98 | after a passed gate, no item with the id holds more than the stock amount |
| `CartItems.AddedAmount` | src/hooks/useCart.tsx:86-98 | one add raises the amount held for its id by 1 and leaves every other id's amount unchanged |
| `CartItems.AddedAllAmounts` | src/hooks/useCart.tsx:69-107 | a sequence of adds keeps ids unique and raises each id's amount by the number of times it was added |
| `CartItems.AddedAllFromEmpty` | src/hooks/useCart.tsx:69-107 | from an empty cart, a sequence of adds leaves exactly one item per distinct id added, with amount equal to its add count, and no item for any other id |
| `CartItems.AddedWithin` | src/hooks/useCart.tsx:86-98 | an add whose product reply carries the requested id introduces no id outside the given set |
| `CartItems.AddedAllWithin` | src/hooks/useCart.tsx:69-107 | repeated adds of ids from a set leave only items whose ids are in that set |
| `CartItems.DuplicatesExceedStock` | src/hooks/useCart.tsx:74-98 | with a duplicate id the gate checks only the first item, and the second is raised to 6 against stock 3 |
| `CartItems.Removed` | src/hooks/useCart.tsx:115 | the filtered list is no longer than the input and holds no item with the id; membership and order are stated by `RemovedMembers`, `RemovedAppend` and `RemovedPresent` |
| `CartItems.RemovedPositive` | src/hooks/useCart.tsx:115 | the filter keeps every amount at least 1 |
| `CartItems.RemovedMembers` | src/hooks/useCart.tsx:115 | the filter keeps exactly the items without the id, and never grows the list |
| `CartItems.RemovedAppend` | src/hooks/useCart.tsx:115 | the filter keeps relative order: it distributes over concatenation |
| `CartItems.RemovedAbsent` | src/hooks/useCart.tsx:115 | the filter leaves a list without the id unchanged |
| `CartItems.RemovedPresent` | src/hooks/useCart.tsx:111-118 | with unique ids, removing a present id drops exactly the item at its position and keeps the rest in order |
| `CartItems.RemovedKeepsUnique` | src/hooks/useCart.tsx:115 | the filter keeps ids unique |
| `CartItems.WithAmount` | src/hooks/useCart.tsx:140-142 | same length; each item with the id gets the requested amount, every other item is unchanged |
| `CartItems.WithAmountPresent` | src/hooks/useCart.tsx:140-142 | with unique ids, the update writes the amount into the one matching item only; length, order and others unchanged, ids stay unique |
| `CartItems.WithAmountAbsent` | src/hooks/useCart.tsx:140-142 | the update map leaves a list without the id unchanged |
| `CartItems.WithAmountPositive` | src/hooks/useCart.tsx:129-142 | an update with an amount of at least 1 (smaller ones return first) keeps every amount at least 1 |
| `CartItems.UpdateGateIgnoresRequested` | src/hooks/useCart.tsx:129-142 | an update gated on the current amount can write an amount above the stock (cart `[{id 3, amount 1}]`, stock 2, request 5) |
| `CartStore.Load` | src/hooks/useCart.tsx:45-53 | the loaded cart is the stored list, or empty when the key is missing |
| `CartStore.CartProvider.constructor` | src/hooks/useCart.tsx:45-53 | the cart starts as what the slot holds (empty when missing), and the slot is untouched |
| `CartStore.CartProvider.AddProduct` | src/hooks/useCart.tsx:69-107 | a rejected request (AddFailed) or a failed gate (OutOfStock) changes nothing; on success storage gets the new list and the cart does unless a falsy body was appended; with unique ids, no item with the id exceeds the stock, in the cart or in storage; ids stay unique when the product reply carries the requested id; amounts of at least 1 stay at least 1 in the cart and in storage |
| `CartStore.CartProvider.RemoveProduct` | src/hooks/useCart.tsx:109-122 | an absent id reports RemoveFailed and changes nothing; otherwise the cart is the filtered list, storage equals it, no item has the id, ids stay unique and amounts of at least 1 stay at least 1 |
| `CartStore.CartProvider.UpdateProductAmount` | src/hooks/useCart.tsx:124-149 | amount at most 0 is a silent no-op; a failed stock request or gate changes nothing and reports it; on success the cart is the set-amount list and storage equals it; an absent id leaves the content unchanged; ids stay unique and amounts of at least 1 stay at least 1 |

## Left out

- The stock and product requests themselves and their timing. The model does not cover the HTTP client, timeouts or a request that never settles. Each reply is a parameter.
- Concurrency. Two clicks in flight can each read a stale cart, and the later write wins. Each operation is modelled as atomic.
- Toast text, styling and the `console.log` call. Each toast is one `Notice` value.
- JSON encoding and decoding, and failures of the storage slot. The model does not cover a quota error from `setItem` (it would come after `setCart` and show the add error). It also leaves out a malformed stored string, which would make `JSON.parse` throw, and an empty stored string, which loads as an empty cart. The slot holds the list itself, or nothing.
- JavaScript number semantics. Amounts are unbounded integers and prices are reals. NaN, fractional amounts and a stock reply with no `amount` are left out.
- A truthy product body that is not an object. Such a body would spread its own keys into the item.
- The React context and hooks plumbing, and the cart page `src/pages/Cart/index.tsx`. The page does rendering and computes totals with floating-point `price * amount` through a `formatPrice` helper that is not part of this model.
