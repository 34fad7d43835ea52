# Restaurant guest app: a verified model of its store, actions, live status and cart

This project models the core of the restaurant guest app (a Next.js
application) in Dafny and proves properties of the model.

**The in-memory store** (`lib/store.ts`) is the class `RestaurantStore.Store`.
- It holds a fixed registry of tables 1..10. Each table has a status, the name it is reserved under and its current order.
- Per table, it keeps the list of open event-stream channels that receive every order change.
- Every operation validates the table id first.
- `broadcastToTable` walks the channel list with `forEach` and splices a channel whose send failed out of the list it is walking. The model reproduces this exactly (`Fanout.Walk`). It proves that, on a list without repeated channels, the channel right after a failed one is passed over for that message (`Fanout.SkipAfterFailure`).

**The server actions** (`actions/*.ts`) are methods that take the store.
- Each returns an `Outcome` or a `Result` instead of throwing.
- Each adds the guest-level guards the actions have in front of the store.

**The live-status endpoint** (`app/api/order-status/route.ts`) has two parts:
- a pure decision (`OrderStatusRoute.Decide`) from the `tableId` query value and the tables to 400, 404 or an event stream;
- the imperative stream lifecycle (`OrderStatusRoute.Subscription`): registration and first snapshot, the 30-second ping, and abort.

**The guest cart** (`lib/cart-context.tsx`) has:
- pure list transforms, with the invariant that ids are unique and every quantity is at least 1;
- the provider state as a class;
- the module-level order-number counter that starts at 23.

**The menu controls** (`components/order-system-menu.tsx`) are the section slug `createSectionId` and the per-price add, remove and count handlers, over line ids `section-name-priceIndex`.

Where the code and its own comments disagree, the model follows the code:
- `reserveTable` refuses every reserved table, including one reserved under the same name. Its comment speaks of a "different name".
- `createOrder` with an empty item id returns success without reserving the table. Its comment says it "just reserves".
- `updateOrderStatus` accepts every status, `IDLE` included, without checking the transition.
- `createOrder` in the store keeps the name of a table that is already reserved.

Inputs that are not part of the model's state are parameters:
- `crypto.randomUUID()` is `orderId`.
- `new Date()` is `now`.
- Whether a channel's send fails is the set `dead`.

Prices are integer cents.

## Model

| member | source | states |
|---|---|---|
| RestaurantStore.TableNumbers | lib/store.ts:182-184 | the listed table numbers are 1..10 in ascending order |
| RestaurantStore.TableNumbersAreTheRegistry | lib/store.ts:4-15 | a number is listed exactly when it is a valid table id, and the list is strictly ascending |
| RestaurantStore.ValidateTableId | lib/store.ts:27-39 | validation passes exactly on ids 1..10; otherwise it fails with "Invalid table ID: <id>. Valid tables are: 1, 2, …, 10" |
| RestaurantStore.FindIndex | lib/store.ts:74 | the menu lookup returns the first entry with the id, or reports that no entry has it |
| RestaurantStore.RemovedChannelIsGone | lib/store.ts:149-164 | removing a channel registered at most once leaves no copy of it in the table's list |
| RestaurantStore.SubscribeThenUnsubscribe | lib/store.ts:138-164 | adding a new channel and then removing it restores the subscriber map, including the deleted entry of an emptied list |
| RestaurantStore.InvalidTableIdMessage | lib/store.ts:33-37 | the error text: "Invalid table ID: ", the id's decimal numeral, ". Valid tables are: " and the registry list |
| RestaurantStore.JoinNumbers | lib/store.ts:34-36 | the decimal numerals of the ids joined by ", " |
| RestaurantStore.ItemSnapshot | lib/store.ts:83-88 | the copy an order keeps of a menu entry: id, name, description and price, without the image |
| RestaurantStore.WithSubscribers | lib/store.ts:143-146 | the subscriber map after a table's list became the given list; an emptied list loses its entry (lib/store.ts:160-162) |
| RestaurantStore.Messages | lib/store.ts:170-173 | one frame per receiving channel, in delivery order, each carrying the broadcast order |
| RestaurantStore.Store.constructor | lib/store.ts:4-25 | a new store has tables 1..10, all free with no name and no order, and no subscribers |
| RestaurantStore.Store.GetTable | lib/store.ts:41-44 | succeeds exactly on a valid id, returning that table's record; otherwise it fails with the invalid-id message |
| RestaurantStore.Store.GetAllTables | lib/store.ts:46-51 | ten entries, the i-th holding table i+1 and its record |
| RestaurantStore.Store.ReserveTable | lib/store.ts:53-60 | on a valid id the table becomes reserved under the name and keeps its order; the invalid-id case changes nothing; subscribers are never touched |
| RestaurantStore.Store.CreateOrder | lib/store.ts:62-111 | invalid id or unknown item: error, no frame and no change. Otherwise the table holds a new ORDER_RECEIVED order with the item's id, name, description and price; its name is kept if it was already reserved and set otherwise; each channel `Fanout.Broadcast` reaches gets one frame carrying that new order |
| RestaurantStore.Store.UpdateOrderStatus | lib/store.ts:113-127 | invalid id or no order: error, no frame and no change; otherwise only the order's status changes, to any value, and each channel the broadcast reaches gets one frame carrying the updated order |
| RestaurantStore.Store.FreeTable | lib/store.ts:129-136 | on a valid id the table becomes free with no name and no order; other tables and all subscribers are unchanged |
| RestaurantStore.Store.AddSSEConnection | lib/store.ts:138-147 | on a valid id the channel is appended to the table's list, created if absent |
| RestaurantStore.Store.RemoveSSEConnection | lib/store.ts:149-164 | on a valid id the first occurrence of the channel is dropped, an absent channel changes nothing, and an emptied list loses its entry |
| RestaurantStore.Store.BroadcastToTable | lib/store.ts:166-180 | the loop writes one frame carrying the given order to each channel `Fanout.Broadcast` of the starting list reaches, in that order, and leaves the list that walk leaves |
| Fanout.RemoveFirst | lib/store.ts:154-163 | the list without the first occurrence of the channel; unchanged when the channel is absent |
| Fanout.Walk | lib/store.ts:171-177 | the `forEach` walk from a position, over a list that a failed send shortens while the walk is running; the step count stays the starting length |
| Fanout.Broadcast | lib/store.ts:166-180 | the walk over the whole list: the channels reached, in order, and the list left behind |
| Fanout.IndexOf | lib/store.ts:156 | `indexOf` finds the channel at a position with no earlier copy |
| Fanout.RemoveFirstMultiset | lib/store.ts:155-159 | removal takes away exactly one copy of a present channel and nothing when it is absent |
| Fanout.WalkSendsToLiveOnly | lib/store.ts:171-177 | every channel sent to was in the list and its send did not fail |
| Fanout.WalkKeepsLive | lib/store.ts:171-177 | the list left behind is a sub-multiset of the original, and every working channel keeps all its copies |
| Fanout.WalkIsSkipAfterFailure | lib/store.ts:171-177 | from any position, the splice-during-forEach walk equals the skip-after-failure reading of the remaining list |
| Fanout.BroadcastSkipsAfterFailure | lib/store.ts:166-180 | on a list without repeats, a broadcast sends to the live channels except the one right after each failed channel, and keeps all but the failed ones |
| Fanout.BroadcastWithoutFailures | lib/store.ts:166-180 | when no send fails, every subscriber receives the message in list order and the list is unchanged |
| Fanout.FailedChannelHidesNext | lib/store.ts:171-177 | with subscribers [a, b] and a failing, b receives nothing and only b stays |
| Actions.ReserveTable | actions/reserve-table.ts:5-30 | invalid id: the store's message; any reserved table: the "bereits … reserviert" error with no change; a free table becomes reserved under the name |
| Actions.CreateOrder | actions/create-order.ts:7-41 | a table held under another name is refused unchanged; an empty item id succeeds with no order, no frame and no change; otherwise the store's result, and every frame sent carries the new order |
| Actions.UpdateOrderStatus | actions/update-order-status.ts:6-20 | succeeds exactly when the id is valid and the table has an order; then only the status changes and every frame sent carries the updated order; errors are returned |
| Actions.FreeTable | actions/free-table.ts:5-18 | every id 1..10 succeeds and leaves a free table; any other id returns the invalid-id message |
| OrderStatusRoute.Decide | app/api/order-status/route.ts:4-27 | a missing or empty parameter gets 400 "tableId parameter is required"; one without a number gets 400 "Invalid tableId"; a 404 always says "Order not found"; an event stream is opened only for a parameter that parses to a valid id whose table has that order |
| OrderStatusRoute.NumberedRequest | app/api/order-status/route.ts:12-27 | a numeral of a valid id, with leading white space and trailing non-digits allowed, streams that table's order, or gets 404 when it has none |
| OrderStatusRoute.DecideOfNumber | app/api/order-status/route.ts:17-27 | once the parameter parses to a number, the answer is 400, 404 or the stream according to that number's table alone |
| OrderStatusRoute.UnknownTableIsBadRequest | app/api/order-status/route.ts:18-23 | a number outside 1..10 gets 400 "Invalid tableId", never 404 |
| OrderStatusRoute.TrailingTextIgnored | app/api/order-status/route.ts:12-15 | text after the digits does not change the answer |
| OrderStatusRoute.Subscription.Start | app/api/order-status/route.ts:30-38 | given the table's current order, the channel is appended to the table's list, the first frame carries that order, the tables are unchanged, and pinging starts |
| OrderStatusRoute.Subscription.Heartbeat | app/api/order-status/route.ts:40-47 | a working channel gets a ping; a failed ping stops the timer and unregisters the channel; a stopped timer does nothing |
| OrderStatusRoute.Subscription.Abort | app/api/order-status/route.ts:50-58 | the timer stops, the channel is unregistered (gone when it was registered once) and the stream is closed |
| OrderStatusRoute.Get | app/api/order-status/route.ts:4-70 | the reply is `Decide`'s; an error registers nothing; a stream registers the channel under the parsed table |
| JsText.IntToString | lib/cart-context.tsx:30 | the template-literal rendering of an integer: a minus sign for negatives, then the numeral; never starts with white space |
| JsText.LowerAscii | components/order-system-menu.tsx:23 | `toLowerCase` on ASCII letters: same length, each capital replaced by its small letter, every other character kept |
| JsText.ParseInt | app/api/order-status/route.ts:12 | `parseInt(s, 10)`: leading white space skipped, an optional sign, the longest run of digits; no digit is NaN |
| JsText.NatToString | lib/cart-context.tsx:30 | the decimal rendering is a non-empty digit string without a leading zero |
| JsText.DigitsValueOfNatToString | lib/cart-context.tsx:30 | reading the decimal rendering back gives the number |
| JsText.ParseIntOfIntToString | app/api/order-status/route.ts:12 | `parseInt` of a numeral, after any white space and before any non-digit, gives back the number |
| JsText.IntToStringInjective | lib/cart-context.tsx:30 | distinct numbers render as distinct strings |
| Cart.QuantityOf | lib/cart-context.tsx:58 | the quantity of the first line with the id, 0 without one |
| Cart.TotalItems | lib/cart-context.tsx:93-95 | the sum of the quantities of all lines |
| Cart.WithItemAdded | lib/cart-context.tsx:56-66 | a known id's lines gain one unit; a new id is appended with quantity 1 |
| Cart.WithQuantity | lib/cart-context.tsx:72-83 | a quantity of zero or less removes the id; otherwise the id's lines take the quantity |
| Cart.LineIndex | lib/cart-context.tsx:58 | `find` returns the first line with the id |
| Cart.LineIndexNone | lib/cart-context.tsx:58 | `find` fails exactly when the id is not in the cart |
| Cart.AddItemWellFormed | lib/cart-context.tsx:56-66 | adding keeps ids unique and quantities at least 1 |
| Cart.AddItemQuantities | lib/cart-context.tsx:56-66 | adding raises the added id's quantity by one and no other |
| Cart.AddItemShape | lib/cart-context.tsx:58-64 | a new id is appended with quantity 1; a known id keeps length, ids and every other line |
| Cart.TotalItemsAfterAdd | lib/cart-context.tsx:93-95 | in a well-formed cart, adding raises the item count by exactly one |
| Cart.WithoutItem | lib/cart-context.tsx:68-70 | the survivors are exactly the lines whose id differs |
| Cart.RemoveItemWellFormed | lib/cart-context.tsx:68-70 | removing keeps the cart well formed |
| Cart.RemoveItemQuantities | lib/cart-context.tsx:68-70 | removing sets the id's quantity to 0 and leaves every other quantity |
| Cart.RemoveAbsentItem | lib/cart-context.tsx:68-70 | removing an absent id changes nothing |
| Cart.RemoveItemAppend | lib/cart-context.tsx:68-70 | removal keeps the remaining lines in order, part by part |
| Cart.UpdateQuantityQuantities | lib/cart-context.tsx:78-80 | a positive quantity replaces only that id's quantity, and only when the id is present |
| Cart.UpdateQuantityRemoves | lib/cart-context.tsx:74-77 | a quantity of zero or less is the same as removing the id |
| Cart.UpdateAbsentQuantity | lib/cart-context.tsx:72-83 | updating an absent id changes nothing |
| Cart.UpdateQuantityWellFormed | lib/cart-context.tsx:72-83 | updating keeps the cart well formed |
| Cart.TotalItemsAtLeastLength | lib/cart-context.tsx:93-95 | with quantities at least 1, the item count is at least the number of lines |
| Cart.TotalItemsZeroIffEmpty | lib/cart-context.tsx:93-95 | in a well-formed cart the item count is 0 exactly when the cart is empty |
| Cart.OrderNumbersDistinct | lib/cart-context.tsx:26-33 | no two calls of the counter hand out the same number |
| Cart.OrderNumberCounter.constructor | lib/cart-context.tsx:27 | the counter starts at 23 with nothing issued |
| Cart.OrderNumberCounter.Generate | lib/cart-context.tsx:29-33 | returns the decimal string of the counter, which then moves on by one; the number was never issued before |
| Cart.CartProvider.constructor | lib/cart-context.tsx:52-54 | the provider starts with an empty cart, IDLE and no order number |
| Cart.CartProvider.AddItem | lib/cart-context.tsx:56-66 | the cart becomes `WithItemAdded` of the old cart and stays well formed |
| Cart.CartProvider.RemoveItem | lib/cart-context.tsx:68-70 | the cart becomes `WithoutItem` of the old cart and stays well formed |
| Cart.CartProvider.UpdateQuantity | lib/cart-context.tsx:72-83 | the cart becomes `WithQuantity` of the old cart and stays well formed |
| Cart.CartProvider.ClearCart | lib/cart-context.tsx:85-87 | the cart becomes empty; status and number are kept |
| Cart.CartProvider.GetTotalItems | lib/cart-context.tsx:93-95 | the item count is never negative and is 0 exactly when the cart is empty |
| Cart.CartProvider.SubmitOrder | lib/cart-context.tsx:97-102 | an empty cart changes nothing, the counter included; otherwise the next number is drawn, the status becomes submitted and the lines stay |
| Cart.CartProvider.ResetOrder | lib/cart-context.tsx:104-108 | IDLE, no number, an empty cart; the counter is not reset |
| OrderSystemMenu.CreateSectionId | components/order-system-menu.tsx:22-24 | the title in lower case with every run of white space replaced by one hyphen |
| OrderSystemMenu.LineId | components/order-system-menu.tsx:39 | the line id `section-name-priceIndex` |
| OrderSystemMenu.LineDetails | components/order-system-menu.tsx:38-49 | the line `handleAddItem` passes to `addItem`: the line id, the item's name, description and image, and the chosen price with its description |
| OrderSystemMenu.GetQuantity | components/order-system-menu.tsx:65-69 | the quantity of the price's line, 0 without one |
| OrderSystemMenu.DecrementLine | components/order-system-menu.tsx:52-63 | "minus" on a line: a line of quantity 1 is removed, a larger one loses one unit, no line means no change |
| OrderSystemMenu.Slugify | components/order-system-menu.tsx:23 | the result has no white space, and no capital letter when the input had none |
| OrderSystemMenu.SlugifyWord | components/order-system-menu.tsx:23 | text without white space passes through unchanged |
| OrderSystemMenu.SlugifyRun | components/order-system-menu.tsx:23 | a maximal run of white space becomes exactly one hyphen |
| OrderSystemMenu.SectionIdHasNoWhitespace | components/order-system-menu.tsx:22-24 | a section id has no white space and no capital ASCII letter |
| OrderSystemMenu.CreateSectionIdIdempotent | components/order-system-menu.tsx:22-24 | applying `createSectionId` to a section id gives it back |
| OrderSystemMenu.GetQuantityZeroIffAbsent | components/order-system-menu.tsx:65-69 | in a well-formed cart a price shows 0 exactly when it has no line |
| OrderSystemMenu.FirstAddAppendsPricedLine | components/order-system-menu.tsx:37-50 | the first press appends a line of quantity 1 carrying the chosen price, found under the price's line id |
| OrderSystemMenu.DecrementLineQuantities | components/order-system-menu.tsx:52-63 | "minus" lowers only the pressed line's quantity by one, removing it at zero, and does nothing without a line |
| OrderSystemMenu.DecrementLineWellFormed | components/order-system-menu.tsx:52-63 | "minus" keeps the cart well formed |
| OrderSystemMenu.DecrementUndoesAdd | components/order-system-menu.tsx:37-63 | in a well-formed cart, "minus" right after "plus" on the same price gives back the cart |
| OrderSystemMenu.HandleAddItem | components/order-system-menu.tsx:37-50 | the chosen price's line gains one unit, so its displayed quantity rises by exactly one |
| OrderSystemMenu.HandleRemoveItem | components/order-system-menu.tsx:52-63 | the cart becomes `DecrementLine` of the old cart under the price's line id |
| Scenarios.SauerbratenIsItemTwo | lib/menu-data.ts:11-17 | menu id "2" is the Sauerbraten |
| Scenarios.RequestForTable | app/api/order-status/route.ts:12-27 | the plain numeral of a valid id whose table has an order opens that table's stream |
| Scenarios.GuestVisit | lib/store.ts:53-136 | reserve, order, follow, serve and free on a new store: every step succeeds, the phone receives exactly one frame, carrying its order with status ORDER_SERVED, and the table ends free |
| Scenarios.MissedUpdate | lib/store.ts:166-180 | with two followers and the first gone, serving reaches nobody, and only the second phone stays registered |
| Scenarios.FreeTwice | actions/free-table.ts:5-18 | freeing twice answers the same and leaves the state of one free |
| Scenarios.UpdateStatusTwice | lib/store.ts:113-127 | setting the same status twice answers the same and leaves the tables as after once |
| Scenarios.OrderNumbers | lib/cart-context.tsx:97-102 | the first order gets "23", an empty cart draws no number, the next order gets "24" |
| Scenarios.TwoWordSectionId | components/order-system-menu.tsx:22-24 | two words separated by white space become the words in lower case joined by one hyphen |

## Left out

- `getTotalPrice` (lib/cart-context.tsx:89-91) is not modelled. It multiplies floating-point euro prices; the model's prices are integer cents.
- JSON serialisation, `TextEncoder`, `ReadableStream` and the response headers are not modelled. A channel is an opaque handle and a send is a success or a failure.
- The 30-second period of the ping timer is not modelled. `Heartbeat` is one tick, whenever it happens.
- The `globalThis` singleton that survives hot reloads is not modelled. The model has one `Store` object.
- Concurrency is not modelled. Every store operation runs to completion before the next one starts.
- The "Ein Fehler ist aufgetreten." fallback of the actions is not modelled. The store throws only `Error` values, so that branch is never taken.
- React rendering, the QR-code generator and the Next.js configuration are not part of this model.
- OrderSystemMenu.CreateSectionId: lowercases ASCII letters only, not the full Unicode case mapping of `toLowerCase`.
- JsText.ParseInt: yields exact integers; JavaScript's `parseInt` rounds numerals beyond 2^53.
- Cart.OrderNumberCounter.Generate: the counter is an unbounded integer, not a double that loses precision beyond 2^53.
- OrderStatusRoute.Subscription.Heartbeat: the frame log records only the frames the handler writes itself. Broadcast frames are the store's `sent` results.
- The order id is a parameter standing for `crypto.randomUUID()`. The model does not require it to be fresh, and no property depends on its uniqueness.
- The line-id scheme is not proved injective, because joining with "-" lets distinct (section, name, index) triples collide.
