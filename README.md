# Shopping cart of demo-dsql, modelled in Dafny

This project models the cart core of the demo-dsql Spring service, which keeps each user's shopping cart in
two SQL tables, `carts` and `cart_items`. It has three layers.

- **The aggregate.** `Cart` holds a list of `CartItem` beans. It adds a product by merging it into the
  first line for that product or by appending a new line. It also sets a line's quantity, removes lines by
  id, clears itself and sums totals.
  - The bean is an imperative class with setters.
  - Its field values form the `ItemState` value, and its `equals`, `hashCode` and `getTotalPrice` are
    functions on that value.
- **The repository.** `CartRepository` loads carts with their items, creates carts and deletes them. It
  also saves a cart by reconciling its in-memory lines with the stored rows. That means inserting lines
  without an id, updating lines that differ from their loaded row, deleting stored rows no line carries,
  and stamping the cart's `updated_at` when anything was written.
  - The store is a `Database` object with one map per table, the database's id generator and the injected
    clock.
  - `save` is specified by the function `SaveSpec` (module Reconcile). The imperative `Save` is proved to
    compute exactly it.
- **The service.** `CartService` runs the use-cases: get-or-create, get by id, add to cart, update a
  quantity, remove an item, clear and delete. Each runs as one transaction under a retry policy for
  optimistic-locking failures.
  - The ghost predicate `UseCases.Effect` states, for each use-case, what one attempt does to a snapshot
    of the store and what it returns. Each service method is proved to have exactly that effect.
  - Lemmas then prove what each effect means: the product ends up in a row of the user's latest cart, the
    row gets the new quantity, exactly the removed row disappears, and other users' carts are never
    touched.
  - The retry policy is a function over the outcomes of successive attempts.

Modules, one file each:

| file | module |
|---|---|
| common.dfy | `Common` |
| items.dfy | `Items` |
| carts.dfy | `Carts` |
| store.dfy | `Store` |
| reconcile.dfy | `Reconcile` |
| repository.dfy | `Repository` |
| usecases.dfy | `UseCases` |
| retry.dfy | `RetryPolicy` |
| service.dfy | `Service` |

Modelling choices:

- **Ids and clock readings.** UUIDs are drawn from a counter, and clock readings are naturals that go up
  by one on each read. A rollback puts both tables back but neither counter: the database's id generator
  and the injected clock keep running, so a retried attempt reads later instants and gets new ids.
- **Prices** are exact `real`s, and quantities are Java `int`.
  - The merge in `addItem` and the sum in `getItemCount` wrap around as Java `int` arithmetic does
    (`Wrap32`).
  - A null `id` is `Option`. Dereferencing a line with a null id is the error `NullPointer`/`NullItemId`.
- **Exceptions** are values of type `Error`: an exception class and a reason standing for the message.
  Operations return `Result`/`Outcome` instead of throwing.

## Model

Source paths are relative to the repository root.

| member | source | states |
|---|---|---|
| Common.Wrap32 | src/main/java/com/example/cart/Cart.java:51 | Java `int` addition: the exact value when it fits in 32 bits, otherwise a value congruent to it modulo 2^32 |
| Items.CartItem.constructor | src/main/java/com/example/cart/CartItem.java:44-50 | the five-argument constructor sets the given cart, product, name, price and quantity, and leaves id and both timestamps null |
| Items.CartItem.Full | src/main/java/com/example/cart/CartItem.java:52-62 | the all-fields constructor sets all eight fields as given |
| Items.CartItem.SetId | src/main/java/com/example/cart/CartItem.java:68-70 | the new state is the old one with only the id replaced |
| Items.CartItem.SetCartId | src/main/java/com/example/cart/CartItem.java:76-78 | only the cart id changes |
| Items.CartItem.SetProductId | src/main/java/com/example/cart/CartItem.java:84-86 | only the product id changes |
| Items.CartItem.SetProductName | src/main/java/com/example/cart/CartItem.java:92-94 | only the product name changes |
| Items.CartItem.SetPrice | src/main/java/com/example/cart/CartItem.java:100-102 | only the price changes |
| Items.CartItem.SetQuantity | src/main/java/com/example/cart/CartItem.java:108-110 | only the quantity changes |
| Items.CartItem.SetCreatedAt | src/main/java/com/example/cart/CartItem.java:116-118 | only createdAt changes |
| Items.CartItem.SetUpdatedAt | src/main/java/com/example/cart/CartItem.java:124-126 | only updatedAt changes |
| Items.SameAsMeansEqualUntimed | src/main/java/com/example/cart/CartItem.java:139-146 | `equals` holds exactly when the two items are identical once both timestamps are erased |
| Items.SameAsIgnoresTimestamps | src/main/java/com/example/cart/CartItem.java:139-146 | changing only the timestamps keeps an item equal to itself, in both directions |
| Items.SameAsIsEquivalence | src/main/java/com/example/cart/CartItem.java:139-146 | `equals` is reflexive, symmetric and transitive |
| Items.SameAsHashCode | src/main/java/com/example/cart/CartItem.java:139-151 | equal items have equal `hashCode` (Objects.hash over the same six fields) |
| Items.TotalPriceOfMerge | src/main/java/com/example/cart/CartItem.java:128-130 | `getTotalPrice` is linear in the quantity: adding `more` units adds price × more when the int sum does not wrap |
| Items.States | src/main/java/com/example/cart/Cart.java:122-124 | the list of line states has one entry per bean, each the bean's current state |
| Carts.FirstWithProduct | src/main/java/com/example/cart/Cart.java:94-96 | the result is the first line with the product: it matches, and no earlier line does; none means no line matches |
| Carts.FindId | src/main/java/com/example/cart/Cart.java:98-100 | the scan stops at the first line with the id (Found), or at a line with a null id before any match (NullAt, the NPE), or finds no line (Missing); every line before the stop has a non-null, different id |
| Carts.AddedNewProduct | src/main/java/com/example/cart/Cart.java:53-57 | adding a product no line has appends exactly one line: no id, this cart, the given name, price and quantity, no timestamps |
| Carts.AddedExistingProduct | src/main/java/com/example/cart/Cart.java:48-52 | adding a product already present adds the quantity (Java int) to the first line for it; the length, the other fields and the other lines are unchanged |
| Carts.TotalUpdate | src/main/java/com/example/cart/Cart.java:78-80 | replacing one line changes getTotalAmount by the difference of the two line totals |
| Carts.QuantitySumUpdate | src/main/java/com/example/cart/Cart.java:82-84 | replacing one line changes the exact quantity sum by the difference of the quantities |
| Carts.TotalAppend | src/main/java/com/example/cart/Cart.java:78-80 | appending a line adds its total to getTotalAmount |
| Carts.AddedTotalNew | src/main/java/com/example/cart/Cart.java:45-58 | adding a new product grows the total by price × quantity |
| Carts.TotalMergeAt | src/main/java/com/example/cart/Cart.java:48-52 | merging units into a line grows the total by that line's price × the units, when the sum does not wrap |
| Carts.AddedTotalMerge | src/main/java/com/example/cart/Cart.java:45-58 | a merging add grows the total by quantity × the price of the existing line; the price passed in plays no part |
| Carts.AddedQuantity | src/main/java/com/example/cart/Cart.java:45-58 | an add that does not wrap grows the exact quantity sum by the quantity added |
| Carts.QuantityMergeAt | src/main/java/com/example/cart/Cart.java:48-52 | merging units into a line grows the quantity sum by the units, when the sum does not wrap |
| Carts.AddAllAppends | src/main/java/com/example/cart/Cart.java:53-57 | successive adds of distinct products not yet in the cart append one new line each, in order |
| Carts.AddAllDistinctTotals | src/main/java/com/example/cart/Cart.java:78-84 | after such adds the total grows by the sum of price × quantity, and the item count by the sum of the quantities |
| Carts.RemovedAbsent | src/main/java/com/example/cart/Cart.java:70-72 | removing an id no line carries leaves the lines unchanged |
| Carts.RemovedConcat | src/main/java/com/example/cart/Cart.java:70-72 | removeItem is a filter: it distributes over concatenation, so the kept lines keep their order |
| Carts.RemovedSingle | src/main/java/com/example/cart/Cart.java:70-72 | on a single line the filter drops it exactly when it carries the id |
| Carts.RemovedMembers | src/main/java/com/example/cart/Cart.java:70-72 | a line is left after removeItem exactly when it was present and does not carry the removed id |
| Carts.KeptLines | src/main/java/com/example/cart/Cart.java:71 | `removeIf` on the beans keeps only beans of the list |
| Carts.KeptLinesStates | src/main/java/com/example/cart/Cart.java:70-72 | the states of the beans `removeIf` keeps are the removeItem filter of the old states |
| Carts.KeptLinesDistinct | src/main/java/com/example/cart/Cart.java:70-72 | the filter takes no bean twice from a list without repeats |
| Carts.Cart.constructor | src/main/java/com/example/cart/Cart.java:38-43 | a new cart has the given id, user and timestamps, and no items |
| Carts.Cart.AddItem | src/main/java/com/example/cart/Cart.java:45-58 | the new line states are `Added` of the old ones (merge into the first line for the product, else append a fresh line); updatedAt is untouched |
| Carts.Cart.SetQuantityAt | src/main/java/com/example/cart/Cart.java:51 | `item.setQuantity` on line k changes only that line's quantity |
| Carts.Cart.AddCartItem | src/main/java/com/example/cart/Cart.java:60-62 | `addItem(CartItem)` appends the given bean at the end |
| Carts.Cart.UpdateItemQuantity | src/main/java/com/example/cart/Cart.java:64-68 | sets the quantity of the first line with the id; with no such line it fails with IllegalArgument "item not found", and with a null id met first it fails with NPE; on failure nothing changes |
| Carts.Cart.RemoveItem | src/main/java/com/example/cart/Cart.java:70-72 | a null id anywhere makes it fail with NPE and change nothing; otherwise the lines are exactly `Removed` of the old ones |
| Carts.Cart.ClearItems | src/main/java/com/example/cart/Cart.java:74-76 | the list becomes empty; updatedAt is untouched |
| Carts.Cart.SetUpdatedAt | src/main/java/com/example/cart/Cart.java:118-120 | sets updatedAt, leaves the items |
| Carts.ClearedCart | src/main/java/com/example/cart/Cart.java:74-88 | a cleared cart is empty, with total 0 and item count 0 |
| Carts.TotalsScenario | src/test/java/com/example/cart/web/CartControllerIntegrationTest.java:197-320 | on the functions `AddItem`, `UpdateItemQuantity` and `RemoveItem` are proved against: after adding iPhone 15 at 999.99 and MacBook Pro at 2499.99 the total is 3499.98; setting the first line to 3 makes its line 2999.97 and the total 5499.96; removing that line leaves 2499.99 |
| Store.RowsOfUpdate | src/main/java/com/example/cart/CartRepository.java:171-179 | after writing one row, the cart's selection gains or replaces that row when it carries the cart's id and loses it otherwise; the rest of the selection is unchanged |
| Store.RowsOfDelete | src/main/java/com/example/cart/CartRepository.java:171-179 | after deleting rows, the cart's selection is the old one minus exactly those rows |
| Store.ItemOfRowInjective | src/main/java/com/example/cart/CartRepository.java:173-178 | the row mapper loses nothing: two beans read back are equal exactly when their keys and rows are |
| Store.InsertedReadsBack | src/main/java/com/example/cart/CartRepository.java:181-201 | the row inserted for a bean reads back as that bean with the new id and the insert time as both timestamps |
| Store.PickEarliest | src/main/java/com/example/cart/CartRepository.java:176 | taking the earliest remaining row keeps the ordered selection |
| Store.Database.Restore | src/main/java/com/example/cart/CartService.java:27 | a rollback gives both tables their rows at the start of the transaction back, and leaves the id generator and the clock where they are |
| Store.Database.Now | src/main/java/com/example/cart/CartRepository.java:52 | `OffsetDateTime.now(clock)` returns the current reading and advances the clock, nothing else |
| Store.Database.NewId | src/main/java/com/example/cart/CartRepository.java:54 | `RETURNING id` hands out the next id, nothing else changes |
| Store.Database.SelectItemIds | src/main/java/com/example/cart/CartRepository.java:171-179 | each row of the cart exactly once, no other row, in ascending created_at |
| Store.Database.SelectLatestCart | src/main/java/com/example/cart/CartRepository.java:85-93 | none exactly when the user has no cart; otherwise one of the user's carts with the greatest created_at |
| Reconcile.VisitLocal | src/main/java/com/example/cart/CartRepository.java:121-135 | one loop pass depends on the earlier passes only through the table and the counters |
| Reconcile.IdsOfAppend | src/main/java/com/example/cart/CartRepository.java:137-140 | `currentItemIds` of a list with one more line gains that line's id when it has one, and nothing else |
| Reconcile.SaveSpec | src/main/java/com/example/cart/CartRepository.java:107-112 | save fails, with IllegalState "non-existent cart", exactly when the cart row is missing |
| Reconcile.VisitAllShape | src/main/java/com/example/cart/CartRepository.java:113-135 | the loop appends one state per line, the counters never go back, `updated` ends up set exactly when some line needed a write, and when none did, nothing else changes |
| Reconcile.VisitAllGrows | src/main/java/com/example/cart/CartRepository.java:121-135 | the loop visits each line once and never moves the counters back |
| Reconcile.VisitAllWritten | src/main/java/com/example/cart/CartRepository.java:113-135 | `updated` is set after the loop exactly when it was set before or some line is not equal to its loaded row |
| Reconcile.VisitAllIdle | src/main/java/com/example/cart/CartRepository.java:128-133 | when every line equals its loaded row the loop writes nothing |
| Reconcile.VisitAllItem | src/main/java/com/example/cart/CartRepository.java:121-135 | an unchanged line keeps its state; a line with no id gets a fresh id, and createdAt = updatedAt from the clock during the loop; any other line gets only a new updatedAt |
| Reconcile.SaveMirrors | src/main/java/com/example/cart/CartRepository.java:107-160 | saving lines coherent with the cart's rows succeeds, and afterwards the cart's rows are exactly its lines, field by field; rows of other carts and other cart rows are unchanged; the cart keeps its user and createdAt; the counters stay ahead |
| Reconcile.FinishCarts | src/main/java/com/example/cart/CartRepository.java:136-159 | the end of save deletes only the stale loaded rows, touches no other cart row, keeps the cart's user and createdAt, and keeps the counters ahead |
| Reconcile.SaveIdempotent | src/main/java/com/example/cart/CartRepository.java:107-160 | saving lines that already mirror the store writes nothing: the store, the lines and updatedAt are unchanged, so a second save is a no-op |
| Reconcile.MirrorsCoherent | src/main/java/com/example/cart/CartRepository.java:107-160 | lines that mirror the store are coherent with it, so they can be saved again |
| Reconcile.SaveStamp | src/main/java/com/example/cart/CartRepository.java:145-159 | updated_at is stamped exactly when some line needed a write or some loaded row is stale; the stamp is a new clock reading written into the cart row only; with no stamp the store and the lines are unchanged |
| Reconcile.SaveItem | src/main/java/com/example/cart/CartRepository.java:121-135 | what save makes of each line: unchanged; or a fresh id with createdAt = updatedAt ≥ the clock before the save; or a new updatedAt only |
| Repository.LoadedRows | src/main/java/com/example/cart/CartRepository.java:171-179 | beans made one per selected row mirror the cart's rows and come earliest first |
| Repository.CartRepository.constructor | src/main/java/com/example/cart/CartRepository.java:37-42 | the repository talks to the given database |
| Repository.CartRepository.Create | src/main/java/com/example/cart/CartRepository.java:44-57 | one new cart row, with a fresh id, the user and created_at = updated_at = now; the cart returned has no items; the id was not in use |
| Repository.CartRepository.FindCartItems | src/main/java/com/example/cart/CartRepository.java:171-179 | one new, distinct bean per row of the cart, mirroring the rows, earliest first |
| Repository.CartRepository.Load | src/main/java/com/example/cart/CartRepository.java:66-81 | the cart of a stored row with its fields, filled with beans mirroring its rows, earliest first |
| Repository.CartRepository.Fill | src/main/java/com/example/cart/CartRepository.java:79 | `items.forEach(cart::addItem)` leaves exactly the loaded beans, in order |
| Repository.CartRepository.FindById | src/main/java/com/example/cart/CartRepository.java:59-82 | empty exactly when there is no such cart row; otherwise the loaded cart |
| Repository.CartRepository.FindByUserId | src/main/java/com/example/cart/CartRepository.java:84-105 | empty exactly when the user has no cart; otherwise one of the user's latest carts, loaded |
| Repository.CartRepository.CartExists | src/main/java/com/example/cart/CartRepository.java:228-232 | true exactly when the cart row exists |
| Repository.CartRepository.InsertCartItem | src/main/java/com/example/cart/CartRepository.java:181-201 | one new row for the cart with the line's fields and now/now; the bean gets the new id and both timestamps; the clock and id counter advance by one |
| Repository.CartRepository.UpdateCartItem | src/main/java/com/example/cart/CartRepository.java:203-218 | name, price, quantity and updated_at of the row with the bean's id are rewritten, whatever cart it belongs to, and no row changes when there is none; the bean gets the new updatedAt |
| Repository.CartRepository.DeleteCartItems | src/main/java/com/example/cart/CartRepository.java:220-226 | exactly the given rows are removed (none for an empty list) |
| Repository.CartRepository.SaveItem | src/main/java/com/example/cart/CartRepository.java:122-134 | one loop pass does what `Visit` says to the store and to the line |
| Repository.CartRepository.SaveItems | src/main/java/com/example/cart/CartRepository.java:113-135 | the loop leaves the store, the lines and `updated` as `VisitAll` says |
| Repository.CartRepository.Save | src/main/java/com/example/cart/CartRepository.java:107-160 | save does exactly what `SaveSpec` says: on a missing cart it fails and changes nothing; otherwise it leaves the store, the lines and the in-memory updatedAt as specified |
| Repository.CartRepository.Persist | src/main/java/com/example/cart/CartRepository.java:113-159 | the body of save after the existence check does what `Finish(VisitAll(...))` says |
| Repository.CartRepository.Conclude | src/main/java/com/example/cart/CartRepository.java:136-159 | deletes the stale loaded rows, then stamps the cart row and the bean when anything was written |
| Repository.CartRepository.DeleteById | src/main/java/com/example/cart/CartRepository.java:162-169 | the cart's item rows and then the cart row are removed, nothing else; afterwards no row is left for the cart |
| UseCases.TrimStart | src/main/java/com/example/cart/CartService.java:124 | `String.trim` drops exactly the leading characters up to U+0020 |
| UseCases.TrimEnd | src/main/java/com/example/cart/CartService.java:124 | and exactly the trailing ones |
| UseCases.BlankMeansSpaces | src/main/java/com/example/cart/CartService.java:124-129 | `trim().isEmpty()` is false exactly when some character is above U+0020 |
| UseCases.ValidateAccepts | src/main/java/com/example/cart/CartService.java:117-130 | a request passes exactly when every field is present, quantity and price are positive, and product id and name are not blank |
| UseCases.ValidateOrder | src/main/java/com/example/cart/CartService.java:117-130 | every failure is an IllegalArgument, and the error names the first failing check in the order quantity, price, product id, product name; each error occurs exactly when its check fails and all earlier ones pass |
| UseCases.AddToWitness | src/main/java/com/example/cart/CartService.java:47-62 | validate, get or create, addItem, then save make up one addToCart attempt |
| UseCases.QuantityWitness | src/main/java/com/example/cart/CartService.java:64-83 | find the cart, set the line's quantity, then save make up one updateItemQuantity attempt |
| UseCases.RemoveWitness | src/main/java/com/example/cart/CartService.java:85-100 | find the cart, removeItem, then save make up one removeItemFromCart attempt |
| UseCases.CoherentAdded | src/main/java/com/example/cart/Cart.java:45-58 | addItem keeps the lines saveable: coherent with the cart's rows |
| UseCases.CoherentQuantity | src/main/java/com/example/cart/Cart.java:64-68 | setting a quantity keeps the lines coherent |
| UseCases.RemovedIds | src/main/java/com/example/cart/Cart.java:70-72 | after removeItem the ids left are exactly the old ones minus the removed id |
| UseCases.CoherentRemoved | src/main/java/com/example/cart/Cart.java:70-72 | removeItem keeps the lines coherent |
| UseCases.LoadedCoherent | src/main/java/com/example/cart/CartRepository.java:171-179 | loaded lines are coherent with the store and all have ids, so removeItem cannot throw on them |
| UseCases.SavedIds | src/main/java/com/example/cart/CartRepository.java:121-135 | a save of lines that all have ids keeps those ids |
| UseCases.CreatedIssued | src/main/java/com/example/cart/CartRepository.java:44-57 | create uses an id not yet in use, keeps the counters ahead, and the new cart is the user's latest |
| UseCases.SavedAdvances | src/main/java/com/example/cart/CartRepository.java:107-160 | save moves the id generator and the clock only forward |
| UseCases.EffectAdvances | src/main/java/com/example/cart/CartService.java:38-115 | no attempt of any use-case moves the id generator or the clock back |
| UseCases.SaveOf | src/main/java/com/example/cart/CartRepository.java:107-160 | a save of coherent lines changes only that cart, keeps its user, keeps the counters ahead, and leaves the rows mirroring the lines |
| UseCases.FailureWritesNothing | src/main/java/com/example/cart/CartService.java:47-135 | an attempt that fails has written nothing, and its error is never a write conflict |
| UseCases.GetOrCreateEffect | src/main/java/com/example/cart/CartService.java:38-40 | with a cart the store is unchanged; without one exactly one new empty cart appears, which is the user's latest, and the existing carts are unchanged |
| UseCases.SavedLine | src/main/java/com/example/cart/CartRepository.java:121-135 | after a save every line is stored in a row of the cart with its product and quantity, under its own id when it had one |
| UseCases.SavedKeys | src/main/java/com/example/cart/CartRepository.java:136-148 | after a save of lines that all have ids, the cart's rows are keyed by exactly those ids |
| UseCases.AddedSave | src/main/java/com/example/cart/CartService.java:52-58 | addItem on coherent lines, then save: the product is in a row of the cart, and no other cart changes |
| UseCases.AddToCartEffect | src/main/java/com/example/cart/CartService.java:47-62 | a successful addToCart leaves the product in a row of the user's latest (perhaps new) cart and changes no other cart |
| UseCases.UpdateQuantityEffect | src/main/java/com/example/cart/CartService.java:64-83 | a successful updateItemQuantity leaves the item's row, which was in the user's latest cart, with exactly the new quantity; no other cart changes |
| UseCases.RemoveEffect | src/main/java/com/example/cart/CartService.java:85-100 | removeItemFromCart removes exactly the row with the id from the user's latest cart (if present) and changes no other cart |
| UseCases.RemovedSave | src/main/java/com/example/cart/CartService.java:94-97 | removeItem on loaded lines, then save, drops exactly the row with the id |
| UseCases.RemovedKeys | src/main/java/com/example/cart/CartService.java:94-97 | after removeItem and save on loaded lines, the cart's row keys are the old ones minus the removed id |
| UseCases.ClearEffect | src/main/java/com/example/cart/CartService.java:102-110 | clearCart leaves the user's latest cart with no rows and changes no other cart |
| UseCases.SaveIdsEmpty | src/main/java/com/example/cart/CartRepository.java:121-135 | saving no lines leaves no lines |
| UseCases.DeleteEffect | src/main/java/com/example/cart/CartService.java:112-115 | deleteCart removes the user's latest cart and all its rows, and nothing else |
| UseCases.DeletedSpares | src/main/java/com/example/cart/CartRepository.java:162-169 | deleteById removes the cart and its rows and keeps every other cart and its rows |
| UseCases.EffectKeepsIssued | src/main/java/com/example/cart/CartService.java:38-135 | every attempt keeps the store's counters ahead of every key and time it holds |
| UseCases.EffectKeepsOtherUsers | src/main/java/com/example/cart/CartService.java:38-135 | a use-case acting for one user leaves every cart of every other user, and its rows, exactly as they were |
| UseCases.OtherCartKept | src/main/java/com/example/cart/CartService.java:47-115 | a step that changes only the user's latest cart keeps the other users' carts |
| RetryPolicy.Retry | src/main/java/com/example/cart/CartService.java:28-29 | the policy makes between 1 and maxAttempts attempts, and its result is the outcome of the last one |
| RetryPolicy.RetrySettles | src/main/java/com/example/cart/CartService.java:28-29 | the attempts made are a settled trace: every attempt before the last conflicted, and the last conflicted only when no attempt was left |
| RetryPolicy.SettledRetry | src/main/java/com/example/cart/CartService.java:28-29 | conversely, after a settled trace the policy's result is the trace's last outcome, whatever later attempts would give |
| RetryPolicy.SettledAfter | src/main/java/com/example/cart/CartService.java:28-29 | conflicts while attempts are left, then a stopping outcome, form a settled trace whose last outcome is the result |
| RetryPolicy.FailureNotRetried | src/main/java/com/example/cart/CartService.java:28 | an error other than an optimistic-locking failure ends the run on its first occurrence |
| RetryPolicy.CommitAfterConflicts | src/main/java/com/example/cart/CartService.java:28 | a success after i conflicts is the result, after i + 1 attempts |
| RetryPolicy.ConflictsExhaust | src/main/java/com/example/cart/CartService.java:28 | the caller sees a conflict exactly when all four attempts conflicted, and then it is the fourth one |
| RetryPolicy.BackoffDoubles | src/main/java/com/example/cart/CartService.java:29 | each nominal wait is twice the previous one, and the k-th is 100 × 2^(k-1) ms |
| RetryPolicy.WaitedTotal | src/main/java/com/example/cart/CartService.java:29 | n attempts wait 100 × (2^(n-1) − 1) ms in all |
| RetryPolicy.LongestWait | src/main/java/com/example/cart/CartService.java:28-29 | the nominal waits are 100, 200 and 400 ms, 700 ms over the four attempts |
| Service.CartService.constructor | src/main/java/com/example/cart/CartService.java:34-36 | the service uses the given repository |
| Service.CartService.GetOrCreateCart | src/main/java/com/example/cart/CartService.java:38-40 | does what `Effect(GetOrCreate)` says, and returns the user's latest cart, loaded (or new and empty) |
| Service.CartService.GetCartById | src/main/java/com/example/cart/CartService.java:42-45 | the cart, loaded, or IllegalArgument "cart not found with id"; writes nothing |
| Service.CartService.FindCartByUserId | src/main/java/com/example/cart/CartService.java:132-135 | fails with IllegalArgument "cart not found for user" exactly when the user has no cart; otherwise the latest cart, loaded |
| Service.CartService.AddToCart | src/main/java/com/example/cart/CartService.java:47-62 | one attempt does what `Effect(AddTo)` says; the cart returned is the user's and mirrors its rows |
| Service.CartService.AddLine | src/main/java/com/example/cart/CartService.java:55-58 | addItem then save on a cart whose lines are coherent with its rows: the store becomes the one `SaveSpec` gives for the `Added` lines, and the rows mirror the lines |
| Service.CartService.UpdateItemQuantity | src/main/java/com/example/cart/CartService.java:64-83 | does what `Effect(UpdateQuantity)` says: rejects a quantity below 1, then a missing cart, then a missing item, writing nothing; otherwise it saves the new quantity |
| Service.CartService.SetQuantity | src/main/java/com/example/cart/CartService.java:76-82 | on the user's loaded cart: with the line found, the store becomes the save of the lines with that quantity set; with no such line it fails with IllegalArgument "item not found" and writes nothing |
| Service.CartService.RemoveItemFromCart | src/main/java/com/example/cart/CartService.java:85-100 | does what `Effect(RemoveFrom)` says; the cart returned mirrors its rows |
| Service.CartService.ClearCart | src/main/java/com/example/cart/CartService.java:102-110 | does what `Effect(Clear)` says |
| Service.CartService.DeleteCart | src/main/java/com/example/cart/CartService.java:112-115 | does what `Effect(Delete)` says |
| Service.CartService.SaveCart | src/main/java/com/example/cart/CartService.java:47-110 | the save each use-case makes succeeds, leaves the store as `SaveSpec` says, and leaves the rows mirroring the lines |
| Service.CartService.Attempt | src/main/java/com/example/cart/CartService.java:38-115 | each use-case has its `Effect` on the store in one attempt |
| Service.CartService.Transaction | src/main/java/com/example/cart/CartService.java:26-29 | `@Transactional`: a failed attempt is rolled back; a commit that meets a concurrent write is rolled back and reported as the one retryable error; a rollback restores the rows and keeps the counters moving forward |
| Service.CartService.Execute | src/main/java/com/example/cart/CartService.java:26-29 | the attempts made are a settled trace of the retry policy, whose result they give; a failed run leaves both tables as they were, with the counters moved forward; a successful run has the use-case's effect, starting from the original rows and the counters the rolled-back attempts left |
| Service.LastAttempt | src/main/java/com/example/cart/CartService.java:28-29 | conflicts, then a stopping outcome, form a settled trace that decides the policy's result |

## Left out

- Prices are exact rationals. BigDecimal scale plays no part, so `equals` and the integer `hashCode` of a
  price (`PriceHash` takes the floor) are simplified: two prices of different scale that BigDecimal calls
  unequal are equal here.
- UUIDs are naturals, and their hash is the number reduced into an int rather than UUID.hashCode.
- Items.StringHash hashes Unicode scalar values, where String.hashCode hashes UTF-16 code units, so the two
  differ on characters outside the Basic Multilingual Plane. No contract depends on the exact hash:
  `SameAsHashCode` holds for either.
- Store.RowsOf, Store.ItemOfRow and Reconcile.IdsOf are definitions: the `WHERE cart_id = ?` selection,
  the row mapper and `currentItemIds`. Their laws are RowsOfUpdate, RowsOfDelete, ItemOfRowInjective,
  InsertedReadsBack and IdsOfAppend.
- Null is modelled only for a line's id and timestamps and for the request's fields. The default
  `CartItem()` constructor, null strings and prices, and a null `Integer` quantity passed to
  updateItemQuantity (which would throw a NullPointerException at the `quantity <= 0` check) are left out.
- `getItems` returns an unmodifiable view. The model reads the list directly; callers outside the core
  that might alias it are not modelled. The getters and `toString` are not modelled.
- Rows created at the same instant come back from `ORDER BY created_at` in an order the database does not
  fix. The model leaves that order open, which is why the use-case effects quantify over it.
- SQL, JDBC, the data source, the transaction proxy and the retry interceptor are not modelled as code.
  - A transaction is a snapshot that is restored on rollback.
  - Concurrency is a `conflicts` oracle that says which commits meet a concurrent write (SQLState 40001,
    surfaced as OptimisticLockingFailureException).
  - The database's own inserts of ids and timestamps are counters.
- The backoff's random jitter (`random = true`) and the sleeping itself are left out. Only the nominal
  waits are stated.
- The controller, the configuration classes and the metrics are outside this model.
- The table has no foreign key from `cart_items` to `carts`, and none is assumed. The only invariant the
  model keeps is that the counters are ahead of every key and time.
- The ownership checks in updateItemQuantity and removeItemFromCart (IllegalStateException and a bare
  RuntimeException) are proved never to fire, because the cart was looked up by the same user id. Their
  exception kinds are therefore not modelled.
- Carts.AddedTotalMerge, Carts.TotalMergeAt, Carts.QuantityMergeAt, Carts.AddedQuantity and
  Items.TotalPriceOfMerge state the effect on totals only when the merged `int` quantity does not wrap
  around. When it wraps, the model still computes the wrapped quantity (`Wrap32`).
- Carts.Cart.ItemCount (getItemCount) is stated only as the exact quantity sum reduced into 32 bits. No
  separate lemma about overflow is given.
- Carts.Cart.BelongsToUser, Carts.Cart.IsEmpty and Carts.Cart.TotalAmount are definitions. Their
  properties are the lemmas about `Total` and `ClearedCart`.
- `id`, `userId` and `createdAt` of a cart are `const`, so no operation can change them.
- `UseCases.Effect` for updateItemQuantity excludes a null id in the loaded lines. Loaded lines always
  have ids (`LoadedCoherent`), so the NullPointerException branch of `findItemById` cannot occur there.
