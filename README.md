# book-nest core, modelled in Dafny

book-nest is a small second-hand bookshop. Buyers browse a catalogue, keep a
cart and a wishlist, share their wishlist through a code, and place orders.
Sellers list books and move their orders through a fixed set of statuses.
This project models the parts of it that hold the shop's rules:

- **The order placement transaction** (`POST /orders`), in `orders.dfy`.
  It validates each line, checks stock against what earlier lines of the same
  request already took, and decrements stock. It snapshots each book's price,
  splits the lines into one order per seller (in order of each seller's first
  appearance) and inserts the orders. On any failure it rolls everything back.
- **The seller's status update** (`PATCH /orders/:id/status`), also in `orders.dfy`.
- **The book routes** (list, list by seller, fetch by id, create, update,
  delete), in `books.dfy`. Deletion includes the `ON DELETE CASCADE` that the
  schema puts on order items and wishlist rows.
- **The wishlist routes** (add, remove, check, price-drop flag, share create,
  shared fetch, share list, share delete), in `wishlist.dfy`.
- **The client cart** (`CartContext`), in `cart.dfy`. This file also links the
  cart to the order transaction.
- **The client wishlist cache** (`WishlistContext`: its local updates and the
  effect that runs when sign-in changes), in `wishlist_cache.dfy`.
- **The client's in-memory fallback store** (`MockStorage`), in `mock_storage.dfy`.
- **The two request guards** (`authenticateToken`, `requireRole`), in `auth.dfy`.

`model.dfy` holds the entities and the `Database` class. The class has one
field per table the handlers touch: books keyed by id, orders, wishlist rows
keyed by (user, book), and shares keyed by code.

Each route handler is a method that changes the database. Its `ensures` ties
the new tables to a pure function of the old ones. For example, `PlaceOrder`
is tied to `Checkout`. The lemmas then state what the shop promises about
those functions. `seqs.dfy` holds the generic pieces: `Filter`, `Sum`, and
an insertion sort that stands for `ORDER BY ... DESC`.

Modelling conventions:

- Prices are integer cents.
- Times are integer seconds.
- An order's id is its position in `Database.orders`.
- A JSON field that is missing is `None`.
- `Object.values(ordersBySeller)` is read in insertion order. JavaScript keeps
  insertion order for these keys because seller ids are UUID strings, never
  integer-like keys.
- Generated ids, random share codes and the clock are parameters. When a
  generated id or code is already taken, the handler answers `Internal`, which
  stands for the unique-constraint failure that the code reports as 500.

## Model

| member | source | states |
|---|---|---|
| Model.ParseStatus | backend/routes/orders.js:201-206 | a status is accepted exactly when it is one of the five status names, and the status it yields carries that name |
| Model.ParseStatusName | backend/routes/orders.js:201 | every status's own name is accepted and parses back to that status |
| Model.Database.constructor | backend/scripts/initDatabase.js:22-87 | a fresh database has empty tables and satisfies the catalogue and foreign-key invariant |
| Seqs.SortNewestFirst | backend/routes/books.js:23 | the rows come out newest first, each row exactly as often as it was stored |
| Orders.Reserve | backend/routes/orders.js:24-64 | the validation loop as a function; a success keeps the catalogue's set of books and remembers one line per request line (ReserveSucceedsIff, ReserveStock and ReserveLines give the full meaning) |
| Orders.ReserveSucceedsIff | backend/routes/orders.js:24-45 | the validation loop succeeds exactly when every line is well formed and names a stored book, and each book's stock covers the total quantity of all lines naming it |
| Orders.ReserveStock | backend/routes/orders.js:59-63 | after the loop each book's stock is lowered by exactly the total quantity ordered for it; the set of books is unchanged |
| Orders.ReserveLines | backend/routes/orders.js:47-57 | the loop remembers one line per request line, in order, with the book's title, price and seller at the time of the order |
| Orders.ReserveKeepsCatalogue | backend/routes/orders.js:43-45 | decrementing stock never makes a book's stock negative or breaks the catalogue invariant |
| Orders.GroupBySeller | backend/routes/orders.js:67-79 | the grouping `forEach` as a function; there are never more groups than lines, and at least one for a non-empty order (GroupBySellerCorrect gives the full meaning) |
| Orders.GroupBySellerCorrect | backend/routes/orders.js:67-79 | grouping gives one group per seller; each group holds exactly that seller's lines in input order, with their total; groups are ordered by first appearance of their seller |
| Orders.GroupTotals | backend/routes/orders.js:47-48 | the group totals add up to the sum of all line totals |
| Orders.AddLine | backend/routes/orders.js:68-78 | one step of the loop: the seller's group is opened on first sight and the line is appended with its total added, exactly as the grouping function's step does, and the seller-to-slot index stays exact |
| Orders.GroupLines | backend/routes/orders.js:67-79 | the dictionary-based loop builds the same groups, in insertion order, as the grouping function |
| Orders.Checkout | backend/routes/orders.js:11-13 | a missing or empty item list is refused with "items required" before anything else |
| Orders.CheckoutSucceedsIff | backend/routes/orders.js:11-64 | placing an order succeeds exactly when the list is non-empty, every line is valid and names a stored book, and the stock covers the summed quantity per book |
| Orders.InvalidLineFails | backend/routes/orders.js:27-29 | one malformed line (missing book id, missing or non-positive quantity) makes the whole order fail |
| Orders.UnknownBookFails | backend/routes/orders.js:37-39 | one line naming an unknown book makes the whole order fail |
| Orders.RepeatedLinesCheckedTogether | backend/routes/orders.js:43-45 | two lines for the same book are checked against the stock left by the first, so together they cannot exceed the stock |
| Orders.CheckoutStock | backend/routes/orders.js:59-63 | a successful order lowers each book's stock by the quantity ordered, leaves books not named untouched, and keeps the catalogue invariant |
| Orders.CheckoutSnapshotsPrices | backend/routes/orders.js:47-57 | the stored items carry the book's price and title at order time, one per request line, in order |
| Orders.CheckoutSplitsBySeller | backend/routes/orders.js:67-104 | the created orders are one pending order per distinct seller, for the buyer, each holding exactly that seller's items and totalling them, in order of first appearance |
| Orders.CheckoutTotals | backend/routes/orders.js:108-112 | the reported total equals the sum of the item totals and the sum of the created orders' totals |
| Orders.PlaceOrder | backend/routes/orders.js:8-122 | the handler commits exactly the outcome of `Checkout` (new stock, orders appended) or, on failure, rolls back to the old tables and reports the same error |
| Orders.ReserveAll | backend/routes/orders.js:24-64 | the validation loop leaves the catalogue and the remembered lines that `Reserve` describes, and the running total is the sum of their line totals |
| Orders.InsertOrders | backend/routes/orders.js:84-104 | one order row per seller group is appended, in group order |
| Orders.PlacementKeepsValid | backend/routes/orders.js:94-99 | after placement every stored order item still names a stored book and the catalogue invariant holds |
| Orders.CheckStatusUpdate | backend/routes/orders.js:204-220 | a status update is allowed exactly for a valid status on an existing order of the calling seller; otherwise it is 400, then 404, then 403, in that order |
| Orders.SetStatus | backend/routes/orders.js:222-234 | only the named order changes, and only its status |
| Orders.UpdateOrderStatus | backend/routes/orders.js:197-245 | the handler writes exactly the checked status to that order and returns it, or changes nothing and reports the check's error |
| Orders.AnyTransitionAccepted | backend/routes/orders.js:201-220 | any status may follow any status, including itself: there is no transition order |
| Orders.StatusUpdateIdempotent | backend/routes/orders.js:222-234 | applying the same status twice is the same as once |
| Books.ListBooks | backend/routes/books.js:8-27 | the listing holds exactly the books in stock, each once, newest first |
| Books.ListSellerBooks | backend/routes/books.js:74-95 | a seller's listing holds exactly that seller's books (sold out ones too), each once, newest first |
| Books.GetBook | backend/routes/books.js:148-172 | a book is found exactly when its id is stored; otherwise 404 |
| Books.SoldOutFoundById | backend/routes/books.js:166 | fetching by id does not hide sold-out books |
| Books.CheckNewBook | backend/routes/books.js:233-239 | a missing title, missing or zero price or missing stock is "required fields"; otherwise a non-positive price or negative stock is "invalid"; the input is accepted exactly when all fields are present and in range |
| Books.NewBook | backend/routes/books.js:241-254 | the inserted row belongs to the caller under the caller's name and has a positive price and non-negative stock |
| Books.NewBookOwnedByCaller | backend/routes/books.js:241-254 | a created book belongs to the caller under the caller's name and carries exactly the submitted fields |
| Books.CreateBook | backend/routes/books.js:228-265 | the handler stores the new book under the fresh id, or refuses with the validation error, or 500 on an id collision, changing nothing |
| Books.CheckOwned | backend/routes/books.js:279-285 | an unknown book is 404, another seller's book 403; only the owner passes |
| Books.CheckUpdate | backend/routes/books.js:279-294 | ownership is checked before the values; a given price must be positive and a given stock non-negative |
| Books.ApplyUpdate | backend/routes/books.js:296-316 | each field given replaces the stored one; each field left out keeps its stored value; id, seller and creation time never change |
| Books.EmptyUpdateChangesNothing | backend/routes/books.js:296-316 | an update with no fields leaves the book as it was |
| Books.UpdateIdempotent | backend/routes/books.js:296-316 | repeating the same update changes nothing more |
| Books.UpdateKeepsCatalogue | backend/routes/books.js:288-294 | an accepted update keeps every price positive and every stock non-negative |
| Books.UpdateBook | backend/routes/books.js:268-327 | the handler applies exactly the accepted update to that one book, or changes nothing and reports the check's error |
| Books.DropItems | backend/scripts/initDatabase.js:56 | the cascade removes from every order the items naming the deleted book, keeping the orders and their other items in order |
| Books.DropItemsExactly | backend/scripts/initDatabase.js:56 | after the cascade no item names the book, and every item naming another book survives |
| Books.DropWishes | backend/scripts/initDatabase.js:68 | the cascade removes exactly the wishlist rows for the deleted book |
| Books.DeleteBook | backend/routes/books.js:330-356 | the owner's delete removes the book and cascades to order items and wishlist rows; otherwise 404 or 403 and nothing changes |
| Books.DeletedBookGone | backend/routes/books.js:330-356 | after a delete the book answers 404 and every other book is found as before |
| Wishlist.CheckAdd | backend/routes/wishlist.js:69-85 | an unknown book is 404, a book already wished for 400; otherwise the entry is accepted at the book's current price |
| Wishlist.AddToWishlist | backend/routes/wishlist.js:64-109 | the handler inserts exactly one entry (now, the price then, the flag defaulting to off) or changes nothing and reports the error |
| Wishlist.AddSnapshotsPrice | backend/routes/wishlist.js:88-98 | the entry remembers the book's price at the time it was added |
| Wishlist.AddTwiceRefused | backend/routes/wishlist.js:78-85 | the same book cannot be added twice by one user, and can be added again once removed |
| Wishlist.InWishlist | backend/routes/wishlist.js:134-149 | the check is true exactly when the caller has a row for the book |
| Wishlist.RemoveFromWishlist | backend/routes/wishlist.js:112-131 | removal succeeds exactly when the entry exists and deletes only it; otherwise 404 and nothing changes |
| Wishlist.RemoveOnlyThatEntry | backend/routes/wishlist.js:116-123 | removing one entry leaves every other user's and book's membership unchanged |
| Wishlist.SetPriceDropNotify | backend/routes/wishlist.js:152-181 | only the flag of the caller's entry changes; a missing entry is 404 |
| Wishlist.ExpiryAfter | backend/routes/wishlist.js:189-190 | an expiry a positive number of days ahead lies in the future |
| Wishlist.NewShare | backend/routes/wishlist.js:185-204 | a new share belongs to the caller, is public unless explicitly made private, and expires 30 days ahead unless told otherwise |
| Wishlist.CreateShare | backend/routes/wishlist.js:184-215 | the handler stores the new share under its code, or answers 500 on a code collision and changes nothing |
| Wishlist.CheckShared | backend/routes/wishlist.js:223-247 | an unknown or expired code is 404 and a private share 403; only a live public share is shown |
| Wishlist.ShareLifetime | backend/routes/wishlist.js:189-190 | a share made for d days can be fetched from its creation until just before d days have passed, and not after |
| Wishlist.OwnerRows | backend/routes/wishlist.js:250-266 | the shared rows are exactly the owner's wishlist entries joined with their stored books |
| Wishlist.GetShared | backend/routes/wishlist.js:218-293 | a viewable share is answered with the owner's wished books, each once, most recently added first; otherwise the guard's error |
| Wishlist.ListShares | backend/routes/wishlist.js:296-318 | the caller sees exactly their own unexpired shares, each once, newest first |
| Wishlist.DeleteShare | backend/routes/wishlist.js:321-340 | only the caller's own share with that code is deleted; anyone else's code or an unknown code is 404 and nothing changes |
| Cart.Find | contexts/CartContext.tsx:35 | finds the first cart line for the book, or reports that there is none |
| Cart.Bump | contexts/CartContext.tsx:37-41 | every line for the book gains the quantity; other lines are unchanged |
| Cart.AddToCart | contexts/CartContext.tsx:33-45 | adding a book already in the cart raises its quantity (by 1 by default); a new book is appended as a new line |
| Cart.RemoveFromCart | contexts/CartContext.tsx:47-49 | every line for the book is removed; all other lines are kept |
| Cart.SetQuantity | contexts/CartContext.tsx:56-60 | the book's line takes the new quantity; other lines are unchanged |
| Cart.UpdateQuantity | contexts/CartContext.tsx:51-61 | a quantity of zero or less removes the line; otherwise the quantity is set |
| Cart.ClearCart | contexts/CartContext.tsx:63-65 | after clearing, the cart and both of its totals are zero |
| Cart.RemoveAbsent | contexts/CartContext.tsx:47-49 | removing a book that is not in the cart changes nothing |
| Cart.RemovePresent | contexts/CartContext.tsx:47-49 | in a cart without duplicates, removing a book drops exactly its one line |
| Cart.BumpTotalItems | contexts/CartContext.tsx:71-73 | raising a present book's quantity raises the item count by exactly that amount |
| Cart.TotalPrice | contexts/CartContext.tsx:67-69 | the sum of price times quantity: zero for an empty cart and never negative when prices and quantities are not (AppendTotals and CartCheckoutTotal relate it to the other operations) |
| Cart.TotalItems | contexts/CartContext.tsx:71-73 | the sum of quantities: zero for an empty cart and never negative when quantities are not (BumpTotalItems and AddTotalItems relate it to adding) |
| Cart.AppendTotals | contexts/CartContext.tsx:67-73 | appending a line adds its quantity to the item count and price times quantity to the total price |
| Cart.AddTotalItems | contexts/CartContext.tsx:33-45 | adding a book raises the item count by the added quantity, whether or not it was already there |
| Cart.AddKeepsUnique | contexts/CartContext.tsx:33-45 | adding never creates a second line for the same book |
| Cart.RemoveKeepsUnique | contexts/CartContext.tsx:47-49 | removing keeps lines distinct |
| Cart.UpdateKeepsUnique | contexts/CartContext.tsx:51-61 | updating a quantity keeps lines distinct |
| Cart.NeverDuplicates | contexts/CartContext.tsx:33-65 | any sequence of cart operations keeps one line per book |
| Cart.FromEmptyNeverDuplicates | contexts/CartContext.tsx:33-65 | a cart built from empty never holds two lines for one book |
| Cart.OrderRequest | contexts/CartContext.tsx:77-80 | the order request has one line per cart line, with its book id and quantity |
| Cart.CartAfterOrder | contexts/CartContext.tsx:82-88 | the cart is emptied only when the order call succeeded, and kept otherwise |
| Cart.CartCheckoutTotal | contexts/CartContext.tsx:67-84 | a cart whose lines are in stock at current prices is accepted by the order transaction, and the order's total equals the cart's total price |
| WishlistCache.IsInWishlist | contexts/WishlistContext.tsx:113-115 | true exactly when some cached item is for the book |
| WishlistCache.TotalItems | contexts/WishlistContext.tsx:186-188 | the count is zero exactly when no book is in the cached wishlist |
| WishlistCache.DropBook | contexts/WishlistContext.tsx:98-102 | the book's items go; all other items are kept |
| WishlistCache.DropBookConcat | contexts/WishlistContext.tsx:98-102 | the kept items keep their relative order |
| WishlistCache.RemoveFromWishlist | contexts/WishlistContext.tsx:89-111 | after a successful delete the book's items are dropped locally; after a failed one the list is reloaded (empty if the reload fails) |
| WishlistCache.RemoveThenAbsent | contexts/WishlistContext.tsx:89-111 | after a successful remove the book is no longer wished for and every other book's membership is unchanged |
| WishlistCache.SetNotify | contexts/WishlistContext.tsx:122-128 | the book's items take the new flag; others are unchanged |
| WishlistCache.TogglePriceNotification | contexts/WishlistContext.tsx:117-135 | the flag changes locally only when the server accepted the change |
| WishlistCache.ToggleKeepsMembership | contexts/WishlistContext.tsx:117-135 | toggling changes neither the count nor which books are wished for, and sets the flag on the book's items |
| WishlistCache.CreateWishlistShare | contexts/WishlistContext.tsx:137-154 | the created share goes to the front of the list; the rest follow unchanged |
| WishlistCache.DeleteWishlistShare | contexts/WishlistContext.tsx:156-168 | a successful delete drops the shares with that code; a failed one changes nothing |
| WishlistCache.DeleteShareExactly | contexts/WishlistContext.tsx:137-168 | deleting a share just created restores the previous list |
| WishlistCache.DeleteShareDrops | contexts/WishlistContext.tsx:161 | no share with the code remains and all other shares are kept |
| WishlistCache.OnAuthChange | contexts/WishlistContext.tsx:41-63 | a signed-in buyer gets the loaded lists (empty when a load fails); anyone else gets empty lists |
| WishlistCache.SignedOutEmpty | contexts/WishlistContext.tsx:41-50 | signing out, or signing in as a seller, leaves nothing wished for |
| MockStore.DraftBook | services/mockStorage.ts:70-81 | `addBook`'s new book carries the given id and time; every field is `given || default`, and since each default is the falsy value of its type, every given value (including "" and 0) is kept and every missing one becomes "" or 0 (EmptyDraftDefaults for the all-missing draft) |
| MockStore.OrText | services/mockStorage.ts:73-79 | a missing or empty string gives the fallback; any other string is kept |
| MockStore.OrNumber | services/mockStorage.ts:75-76 | a missing or zero number gives the fallback; any other number is kept |
| MockStore.DraftOrder | services/mockStorage.ts:95-109 | a new mock order is always pending and has quantity 1 when none (or zero) is given |
| MockStore.EmptyDraftDefaults | services/mockStorage.ts:70-81 | an empty book draft gives empty strings and zeros |
| MockStore.DraftStatusIgnored | services/mockStorage.ts:107 | a status supplied in the draft has no effect |
| MockStore.FirstIndex | services/mockStorage.ts:116 | finds the first order with the id, or reports that there is none |
| MockStore.MockStorage.constructor | services/mockStorage.ts:5-56 | the store starts with the three seed books and one pending order |
| MockStore.MockStorage.GetAllBooks | services/mockStorage.ts:59-62 | the copy equals the stored books |
| MockStore.MockStorage.GetBooksBySeller | services/mockStorage.ts:64-68 | exactly the seller's books, in stored order |
| MockStore.MockStorage.AddBook | services/mockStorage.ts:70-86 | the new book goes first and the others follow unchanged |
| MockStore.MockStorage.GetOrdersBySeller | services/mockStorage.ts:89-93 | exactly the seller's orders, in stored order |
| MockStore.MockStorage.AddOrder | services/mockStorage.ts:95-113 | the new order goes first and the others follow unchanged |
| MockStore.MockStorage.UpdateOrderStatus | services/mockStorage.ts:115-123 | only the first order with the id changes, and only its status; with no such order nothing changes and null is returned |
| MockStore.AddedBookListedFirst | services/mockStorage.ts:64-86 | a book just added heads its seller's listing, followed by the seller's earlier books |
| MockStore.StatusUpdateKeepsSellerView | services/mockStorage.ts:89-123 | a status update does not change how many orders a seller sees |
| Auth.StatusCode | backend/middleware/auth.js:11-73 | missing token, unknown user and missing authentication are 401; a bad token and a wrong role are 403 |
| Auth.Split | backend/middleware/auth.js:6 | splitting on single spaces gives space-free fields that join back to the header |
| Auth.SplitJoin | backend/middleware/auth.js:6 | splitting undoes joining space-free fields |
| Auth.Token | backend/middleware/auth.js:5-14 | the token is the header's second space-separated field when that field is non-empty; otherwise there is none |
| Auth.TokenOfFields | backend/middleware/auth.js:6 | a header built from space-free fields yields its second field as the token |
| Auth.AnySchemeAccepted | backend/middleware/auth.js:6 | the first word is never checked: any scheme, or none, in front of the token is accepted |
| Auth.NoSpaceNoToken | backend/middleware/auth.js:6-14 | a header without a space carries no token and is refused with 401 |
| Auth.Authenticate | backend/middleware/auth.js:4-58 | no token is 401; a token that fails verification is 403; a verified id with no user is 401; otherwise the looked-up user is attached |
| Auth.RequireRole | backend/middleware/auth.js:60-78 | no user is 401; a user whose role is not listed is 403; the request proceeds exactly when the user's role is listed |
| Auth.Guard | backend/middleware/auth.js:4-78 | an authentication failure passes through unchanged; after authentication the route proceeds exactly when the role is allowed, and otherwise only 403 is possible |
| Auth.RolesExclusive | backend/middleware/auth.js:70-73 | a buyer cannot pass a seller-only route and a seller cannot pass a buyer-only route |

## Left out

- Prices are integer cents. The source uses `DECIMAL(10,2)` columns and JavaScript floats (`parseFloat`, `price * quantity`). Rounding and the column's range are not modelled.
- Concurrency is not modelled. The order transaction reads stock without a row lock, so two simultaneous orders could oversell. The model runs each handler on its own.
- Database failures other than a key collision are not modelled. Neither are the demo-data fallbacks that the book routes and `authenticateToken` return whenever their query fails (books.js 29-69, 96-144 and 179-224; auth.js 27-44). Any id that is not a UUID makes the query fail. `GET /books/:id` also falls back when no row is found. So an id such as "1" that names a demo book answers that book with 200, where Books.GetBook answers 404.
- Generated UUIDs, `Math.random` share codes, `Date.now` and `NOW()` are parameters, so the model cannot say whether they repeat.
- Orders.PlaceOrder: order ids are positions in the order table rather than UUIDs, and the id of each created order is not part of the response.
- Orders.UpdateOrderStatus: a malformed UUID in the path makes Postgres raise a 500; the model's position ids answer 404 instead.
- Books.UpdateBook, Books.DeleteBook, Wishlist.AddToWishlist, Wishlist.RemoveFromWishlist and Wishlist.SetPriceDropNotify: the same applies to a malformed book id in `PUT /books/:id`, `DELETE /books/:id`, `POST /wishlist`, `DELETE /wishlist/:bookId` and `PATCH /wishlist/:bookId/notify`. The source answers 500 (books.js 323-325 and 352-354; wishlist.js 105-107, 127-129 and 177-179); the model answers 404.
- Orders.PlaceOrder: an `items` body that is neither absent nor an array is read as absent. Line fields that are not numbers are read as missing.
- Quantities and stock are whole numbers in the model (Dafny `int`). The source does not check that JSON numbers are whole before writing them to its `INTEGER` columns. A fractional quantity passes the `quantity <= 0` check in `POST /orders`, and Postgres then rejects it in the stock update, so the order fails with 400. A fractional `stock` passes the `stock < 0` check in `POST /books` and then fails the insert with 500. Neither path is modelled.
- An explicit JSON `null` is treated the same as a missing field throughout. In the source, `null` differs from `undefined` in five places:
  - In `PUT /books/:id`, `price: null` is refused because `null <= 0` is true.
  - In `POST /books`, `stock: null` passes the check and then fails the NOT NULL column with 500.
  - In `POST /wishlist`, the default `notifyOnPriceDrop = false` applies only to `undefined`, so `null` stores NULL where Wishlist.AddToWishlist stores false.
  - In `POST /wishlist/share`, `isPublic: null` stores NULL, and the shared fetch then answers 403 "private". Wishlist.NewShare makes that share public.
  - In `POST /wishlist/share`, `expiresInDays: null` adds no days, so the share expires at once. Wishlist.NewShare gives it 30 days.
- Wishlist.SetPriceDropNotify: the flag is a required boolean. In `PATCH /wishlist/:bookId/notify`, a missing flag and an explicit `null` both write NULL; this is not modelled.
- Wishlist.NewShare: `setDate(getDate() + days)` moves by calendar days. The model moves by 86400 seconds per day, ignoring daylight-saving shifts. A non-numeric `expiresInDays` is not modelled.
- Wishlist.GetShared: the owner's name from the users join is not part of the result, and the join of shares with users is not modelled.
- `updated_at` columns and the books' `seller_name` join are stored values in the model.
- The order listing routes (`GET /orders`, `GET /orders/seller`), `GET /wishlist`, the auth routes, the API client and the screens are not part of this model. Neither are the client's `addToWishlist` and `loadWishlist` HTTP calls; their results are parameters of `WishlistCache.OnAuthChange` and `WishlistCache.RemoveFromWishlist`.
- Cart.CartAfterOrder: the HTTP call itself is a parameter (`succeeded`). The thrown error and the returned server result are not modelled.
- Loading flags, console logging and React state batching are not modelled.
- Token verification (`jwt.verify` with the server secret) and the users query are parameters of `Auth.Authenticate`. Expiry and signature checks are theirs.
- MockStore: `createdAt` is an integer clock reading, not an ISO string, and ids are parameters rather than `Date.now().toString()`.
