# Marketplace order engine and shopping cart, in Dafny

This project models the two pieces of logic in a two-sided marketplace
(shop owners list items, customers order them):

- **The order routes of the backend** (`Backend/routes/orderRoutes.js`):
  placing an order, updating an order's status, and cancelling an order.
  Module `OrderRoutes` holds one `Marketplace` object. Its fields are the item
  collection (`id -> {name, price, shop, stock}`), the owner of each shop,
  the order collection, the notification list and the next order id. The
  three routes are the methods `PlaceOrder`, `UpdateStatus` and `Cancel`.
  - Placement loops over the requested lines in input order. Each line
    checks the item against the stock already decremented by the earlier
    lines, decrements it, adds `price * quantity` to the total and appends a
    name/price snapshot.
  - Placement and cancellation work on a copy of the item collection. They
    write it back, together with the order, only when every line went
    through. This is how the model captures the database transaction and its
    abort: a failure leaves every field unchanged.
  - The two loops are the read-only methods `ReserveLines` and
    `RestoreLines`. Each is proved equal to a pure function in module
    `Orders`: `ReserveAll` for placement and `Restore` for cancellation. The
    lemmas in `Orders` state what those functions mean.
- **The shopping cart of the app** (`Frontend/CartContext.js`): pure
  functions over `seq<CartEntry>` in module `Cart`. The React state setter
  only swaps in the new sequence, so the model has no state.

Ids are natural numbers. Prices, quantities and stock are integers in the
smallest currency unit.

Neither the placement route nor the cart checks that a quantity is
positive, and the model keeps that. Two consequences follow:

- Non-negative stock is not an invariant of `Marketplace`.
  - `PlaceOrder` keeps stock non-negative.
  - `Cancel` keeps it non-negative only when the cancelled order's quantities
    are non-negative.
  - `Orders.NegativeQuantityUnderflow` shows the failing case. An order line
    of -5 passes the route's stock check and raises the stock to 5. After
    those 5 units are sold, cancelling the first order leaves the stock at -5.
  - This assumes the order schema (`Backend/models/Order.js`, not part of
    this model) leaves a line's quantity unbounded. A lower bound there would
    make the save at `Backend/routes/orderRoutes.js:56` throw and abort the
    placement.
  - Only a hand-made request can send such a line. The app's quantity picker
    never goes below 1 (`Frontend/app/(customer)/home.js:84`). The cart's
    `updateQuantity` removes an entry whose quantity drops to 0 or below.
- Status updates are not checked against the current status. The source
  accepts any status here, and so does the model. In
  `OrderRoutes.ReopenAndCancelAgain`, the shop's owner sets a cancelled order
  back to pending. Its customer then cancels it again, which gives its stock
  back a second time.

Three more behaviours come straight from the source:

- Cancellation creates no notification. Only a status update does.
- If an item was deleted after the order was placed, cancelling skips that
  item's line. The source's increment-by-id does nothing when the id is
  gone.
- If the order's shop record is missing, a status update fails with
  `ShopNotFound`. The source then reads the owner of a missing shop, which
  throws, and answers with a server error.

`Backend/models/Order.js` is not part of this model, so its default status
is not visible. The model assumes a new order starts as `"pending"`. The
app's screens agree with that:

- The customer's order list offers cancelling only for a `"pending"` order
  (`Frontend/app/(customer)/customerProfile.js:92`).
- The owner's order list starts its status transitions from `"pending"`
  (`Frontend/app/(owner)/orders.js:89`).

## Model

| member | source | states |
|---|---|---|
| `OrderRoutes.Marketplace.PlaceOrder` | Backend/routes/orderRoutes.js:11-68 | A missing shop, or a missing or empty line list, fails with `MissingData` and nothing changes. Any other failure of the line pass returns that error and changes nothing (abort). On success, items become the reserved inventory and one new pending order is stored under a fresh id with the snapshots and total. Non-negative stock stays non-negative, and `Valid()` is kept. |
| `OrderRoutes.Marketplace.UpdateStatus` | Backend/routes/orderRoutes.js:96-129 | Fails with `OrderNotFound`, `ShopNotFound` or `Forbidden`, changing nothing. It succeeds exactly when the actor owns the order's shop. Then only that order's status is replaced, with any value. Lines, total, customer and items stay unchanged, and exactly one unread notification for the customer, naming the order and status, is appended. |
| `OrderRoutes.Marketplace.Cancel` | Backend/routes/orderRoutes.js:132-176 | Fails with `OrderNotFound`, `Forbidden` (actor is not the customer) or `NotPending`, changing nothing. It succeeds exactly for the customer of a pending order. Then items become `Restore` of the order's lines, the status becomes `"cancelled"`, and nothing else changes. |
| `OrderRoutes.Marketplace.ReserveLines` | Backend/routes/orderRoutes.js:22-47 | The placement loop over a copy of the items returns exactly `ReserveAll` of the current items and the requested lines, and writes nothing. |
| `OrderRoutes.Marketplace.RestoreLines` | Backend/routes/orderRoutes.js:155-162 | The cancellation loop over a copy of the items returns exactly `Restore` of the current items and the order's lines, and writes nothing. |
| `OrderRoutes.ReopenAndCancelAgain` | Backend/routes/orderRoutes.js:107-166 | Status updates are not checked against the current status. The shop's owner can set a cancelled order back to pending, and the customer's second cancel then succeeds and restores the order's lines a second time. |
| `OrderRoutes.PlaceThenCancel` | Backend/routes/orderRoutes.js:149-166 | A successful placement followed by the customer's cancel succeeds and leaves every item exactly as before the placement. A failed placement changes nothing. |
| `OrderRoutes.CancelTwice` | Backend/routes/orderRoutes.js:148-153 | After a successful cancel, a second cancel of the same order fails with `NotPending("cancelled")`. |
| `Orders.ReserveAllOkIff` | Backend/routes/orderRoutes.js:26-38 | Placement of the lines succeeds if and only if every line, in input order, names an existing item whose stock, minus what the earlier lines took of it, covers the quantity. |
| `Orders.FirstFailureDecides` | Backend/routes/orderRoutes.js:26-35 | Once a prefix of the lines fails, the whole placement fails with that same error. The first failing line decides. |
| `Orders.ReserveAllFirstError` | Backend/routes/orderRoutes.js:26-35 | When line `k` is the first line that does not fit, placement fails with that line's error. If its item is missing, the error is `ItemNotFound` with that id. Otherwise it is `InsufficientStock` with the item's name, the stock left after the earlier lines, and the requested quantity. |
| `Orders.MissingItemFails` | Backend/routes/orderRoutes.js:27-30 | A line naming an item that does not exist makes placement fail. |
| `Orders.OversellFails` | Backend/routes/orderRoutes.js:31-35 | A line asking for more than what is left of its item after the earlier lines makes placement fail, even when the item appears on several lines. |
| `Orders.ReserveAllNotFound` | Backend/routes/orderRoutes.js:27-30 | `ItemNotFound(id)` is reported only for an id that some line names and that the inventory lacks. |
| `Orders.ReserveAllStock` | Backend/routes/orderRoutes.js:37-38 | After a successful placement the item ids are the same. Each item's record is unchanged except its stock, which dropped by exactly the sum of the quantities its lines requested. |
| `Orders.SumQtyAbsent` | Backend/routes/orderRoutes.js:37-38 | An item that no line names has nothing requested of it, so its record is unchanged. |
| `Orders.ReserveAllNonNegative` | Backend/routes/orderRoutes.js:31-38 | A successful placement over non-negative stock leaves every stock non-negative. |
| `Orders.ReserveAllSnapshots` | Backend/routes/orderRoutes.js:41-46 | There is one order line per requested line, in input order. Each records the item id, the item's name and price before placement, and the requested quantity. |
| `Orders.RequestsOfSnapshots` | Backend/routes/orderRoutes.js:41-46 | The stored lines give back exactly the requested (item, quantity) list. |
| `Orders.ReserveAllTotal` | Backend/routes/orderRoutes.js:22-55 | The accumulated total equals the sum of price * quantity over the line snapshots. |
| `Orders.RestoreStock` | Backend/routes/orderRoutes.js:156-162 | Restoring keeps the item ids, and each item's record changes only in stock. Each existing item gains exactly the sum of its lines' quantities, and lines for deleted items are skipped. |
| `Orders.RestoreNonNegative` | Backend/routes/orderRoutes.js:156-162 | Restoring lines with non-negative quantities keeps every stock non-negative. |
| `Orders.PlaceThenRestore` | Backend/routes/orderRoutes.js:156-166 | Restoring the lines of a successful placement onto its resulting inventory gives back the inventory from before the placement. |
| `Orders.ReserveAllLength` | Backend/routes/orderRoutes.js:41-46 | A successful placement records exactly one order line per requested line. |
| `Orders.PlaceThenCancelExample` | Backend/routes/orderRoutes.js:26-56 | Take one item with stock 5 and price 100. Ordering 3 leaves stock 2 and a total of 300, and restoring that order brings the stock back to 5. Ordering 3 against stock 2 fails with `InsufficientStock("lamp", 2, 3)`. |
| `Orders.NegativeQuantityUnderflow` | Backend/routes/orderRoutes.js:31-37 | A line of quantity -5 against stock 0 is accepted and raises the stock to 5. Selling 5 and then restoring the first order's lines leaves the stock at -5. |
| `Cart.Find` | Frontend/CartContext.js:13-15 | Returns nothing exactly when no entry has the id. Otherwise it returns the position of the first entry with that id. |
| `Cart.AddToCartNew` | Frontend/CartContext.js:20-22 | Adding an item whose id is not in the cart appends `{item, quantity}` at the end and leaves the existing entries unchanged. |
| `Cart.AddToCartExisting` | Frontend/CartContext.js:17-19 | In a cart with one entry per id, adding an item that is already there adds no entry. That entry keeps its item record and gets quantity old + added, or is cut out when that sum is 0 or less. |
| `Cart.SetQuantityAt` | Frontend/CartContext.js:32-38 | A positive update keeps length and order, sets the quantity of the entries with the id, and leaves every other entry as it was. |
| `Cart.UpdateQuantityPositive` | Frontend/CartContext.js:31-39 | In a cart with one entry per id, a positive update changes only that entry's quantity. |
| `Cart.UpdateQuantityAbsent` | Frontend/CartContext.js:31-39 | A positive update for an id not in the cart leaves the cart unchanged. |
| `Cart.UpdateQuantityNonPositive` | Frontend/CartContext.js:28-30 | An update to 0 or less is exactly `removeFromCart`. |
| `Cart.RemoveFromCartMembers` | Frontend/CartContext.js:42-44 | The result holds exactly the cart's entries whose id differs from the removed one. |
| `Cart.RemoveFromCartAppend` | Frontend/CartContext.js:42-44 | Removal distributes over concatenation, so the remaining entries keep their original order. |
| `Cart.RemoveFromCartAbsent` | Frontend/CartContext.js:42-44 | Removing an absent id leaves the cart unchanged. |
| `Cart.RemoveFromCartSplit` | Frontend/CartContext.js:42-44 | Removing the id of an entry that no other entry shares cuts out just that entry, and the entries before and after stay in order. |
| `Cart.RemoveFromCartUnique` | Frontend/CartContext.js:42-44 | In a cart with one entry per id, removing entry k's id yields the cart without entry k. |
| `Cart.AddToCartKeepsUnique` | Frontend/CartContext.js:13-22 | Adding keeps "at most one entry per item id". |
| `Cart.UpdateQuantityKeepsUnique` | Frontend/CartContext.js:27-40 | Updating a quantity keeps "at most one entry per item id". |
| `Cart.RemoveFromCartKeepsUnique` | Frontend/CartContext.js:42-44 | Removing keeps "at most one entry per item id". |
| `Cart.CartTotalAppend` | Frontend/CartContext.js:50-53 | The total of a concatenation is the sum of the totals, so the total is the sum of price * quantity over all entries. |
| `Cart.ClearCartEmpty` | Frontend/CartContext.js:46-48 | Clearing yields the empty cart, whose total is 0. |
| `Cart.AddToCartNewTotal` | Frontend/CartContext.js:50-53 | Adding a new item raises the total by its price times the quantity. |
| `Cart.CartTotalSplit` | Frontend/CartContext.js:50-53 | The total of a cart around one entry is the total before it, plus that entry's price times quantity, plus the total after it. |
| `Cart.CartTotalReplace` | Frontend/CartContext.js:50-53 | Replacing one entry changes the total by exactly the difference of the two entries' amounts. |
| `Cart.RemoveFromCartTotal` | Frontend/CartContext.js:50-53 | Removing an entry lowers the total by exactly that entry's price times quantity. |
| `Cart.UpdateQuantityTotal` | Frontend/CartContext.js:50-53 | A positive update replaces the entry's amount with price times the new quantity. |

## Left out

- HTTP routing, status codes, JSON responses and the token check: the
  acting user is a parameter, and failures are values of `OrderError`.
- Database sessions, transactions and I/O: replaced by computing on a copy
  and committing on success. Concurrency and isolation between simultaneous
  placements are not modelled.
- UpdateStatus: the source saves the status and then the notification as
  two separate writes outside a transaction. The model performs both
  together, so a failure between the two writes is not modelled.
- Order listing (`/my-orders`, `/shop/:shopId`, newest first), notification
  listing and mark-read: plain database queries.
- The exact notification text, which uses the first 8 characters of the
  order id. The message is the abstract value `StatusChanged(order, status)`.
- Timestamps (`createdAt`) and the item fields that the order logic never
  reads (description, image).
- Non-numeric or missing quantities and prices in a request body (JavaScript
  `undefined`/`NaN` arithmetic), fractional prices, and the falsiness of an
  empty-string shop id. A missing shop is `None`.
- A status update whose request body has no `status`
  (`Backend/routes/orderRoutes.js:98`, `113`). The source then writes
  `undefined` into the order. In the model, a status is always a string.
- A strict transition table for status updates (`pending -> confirmed ->
  shipped -> delivered`, `pending -> cancelled`). The source does not have
  one, so no checked variant is modelled.
- The success alert in `addToCart` and all app screens and networking.
