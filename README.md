# Restaurant ordering app — a Dafny model

This project models the core of a small restaurant ordering application. An
Express server keeps users, categories, menu items, orders, order items and
feedback in SQLite. A browser page holds the logged-in user and a cart, places
orders, prints a bill and sends feedback.

- **Server** (`store.dfy`, module `Server`):
  - The database is a `Store` class: one sequence of rows per table, the six
    AUTOINCREMENT counters, and the state saved at `BEGIN TRANSACTION`.
  - The write routes are methods on it:
    - POST /api/orders, the transactional order commit;
    - POST /api/login, login or register by phone;
    - PUT /api/orders/:orderId/status;
    - POST /api/feedback.
  - Each method states its reply (status, payload and error text) and the
    whole new state. Each method also
    keeps the store's invariant: keys increase and stay below their counter,
    phones are unique, order items name only ids that were handed out.
- **Read routes** (`queries.dfy`, module `Queries`): functions on the tables.
  - GET /api/order/:orderId, with its join against menu_items.
  - GET /api/orders/:userId, newest first.
  - GET /api/popular-items: count, sort descending, at most five.
  - The non-cancelled revenue rule of GET /api/stats.
- **Client** (`cart.dfy`, `client.dfy`, modules `Cart` and `Client`):
  - The cart functions, with their invariant: ids are unique and every
    quantity is at least 1.
  - Their totals.
  - The login input check, the veg filter and the order payload.
  - A `Session` class holding the page's global variables. Its handlers
    change them in place.
- **Bill** (`bill.dfy`): `generateBillPage` as a function that returns either
  an alert or the bill.
- **Feedback form** (`feedback.dfy`): `submitFeedback`'s early-return chain,
  the modal, and what a reply does to the form.
- **Integration** (`integration.dfy`): the JSON the page sends, shown to pass
  the server's checks.
- **Shared definitions**: `values.dfy` (JSON values, replies), `tables.dfy`
  (row types and table invariants), `jstext.dfy` (`trim`, `parseInt`,
  decimal rendering, `slice`) and `sorting.dfy` (a stable descending
  insertion sort).

How the model reads the code:

- Every sqlite3 callback runs to completion, in the order its statement was
  submitted.
- Money is a Dafny `real`.
- Request bodies are a `Json` datatype, together with JavaScript's notion of
  falsy values.
- A path parameter is modelled by the result of `Number(...)`, which the source's `isNaN` test computes: either `NaN` or a finite number. "## Left out" says where this differs from the SQL lookup.
- Storage failures during an order are a parameter (`StorageFaults`).
- The clock (`Date.now()`) is a parameter of the bill.
- The page's `escapeHTML` is a parameter of the bill.

Notes on the code:

- The server stores the client's `totalAmount` as sent and never recomputes
  it. `Integration.CheckoutCommits` shows that, for a checkout the page built,
  this total equals the sum over the stored lines.
- The order of joined rows and the order among tied rows follow table
  (rowid) order.

## Model

| member | source | states |
|---|---|---|
| Tables.KeysBelowAppend | server.js:29-84 | appending a row under the AUTOINCREMENT counter keeps keys strictly increasing and below the advanced counter |
| Tables.TablesValid | server.js:29-84 | the store invariant over the six tables: AUTOINCREMENT keys increase and stay below their counters, phones are unique, order items name handed-out order ids; Server.Store.Valid and Server.WithOrderValid keep it |
| Server.ItemCheck | server.js:357-359 | an item passes exactly when it is an object with numeric id, quantity and price and quantity > 0, and then its line carries those three values |
| Server.CheckedLines | server.js:355-360 | the lines exist exactly when every item passes the check; then there is one line per item, in order, equal to that item's checked line |
| Server.OrderShapeValid | server.js:334 | the order guard: a truthy user id, a non-empty array of items and a numeric total; Server.Store.PlaceOrder answers 400 exactly when it fails, and Integration.CheckoutShape shows the page's body passes it |
| Server.ItemRows | server.js:350-366 | the order_items rows of one order, consecutive ids in submission order; Server.Store.InsertItems proves its loop appends exactly these, and Queries.JoinOfItemRows reads them back |
| Server.WithOrder | server.js:342-366 | the tables after a committed order: the header under the next order id and its item rows; Server.Store.PlaceOrder's success state, kept valid by Server.WithOrderValid |
| Server.CommitSucceeds | server.js:342-383 | an order that passed the shape check is committed exactly when the header insert succeeds, every item passes the check and every item insert succeeds; Server.Store.PlaceOrder states the two replies |
| Server.WithOrderValid | server.js:342-366 | a committed order keeps every table invariant; its id was not in use and no earlier item row names it |
| Server.FindUserByPhone | server.js:247 | a found user is in the table with that phone; no result means no user has that phone |
| Server.LoginFieldMissing | server.js:240 | `!name || !phone` on any JSON value; Server.Store.Login answers 400 exactly when it holds for either field |
| Server.ColumnText | server.js:247 | a string field is stored and compared as sent; Server.Store.Login and Integration.LoginReachesServer use it |
| Server.FeedbackAcceptedMeans | server.js:404 | feedback passes the check exactly when userId is a non-zero number and rating is a number in 1..5 |
| Server.FeedbackAccepted | server.js:404 | the feedback guard; Server.FeedbackAcceptedMeans states what it admits and Server.Store.SubmitFeedback answers 400 exactly when it fails |
| Server.StoredComment | server.js:410 | a truthy comment is stored exactly as sent; a missing or falsy one as "" |
| Server.Store.constructor | server.js:27-84 | a store opened on consistent tables is valid, outside a transaction, and holds exactly those tables |
| Server.Store.Begin | server.js:340 | BEGIN saves the current tables and changes nothing else |
| Server.Store.Rollback | server.js:372-375 | ROLLBACK restores every table and counter to its state at BEGIN |
| Server.Store.Commit | server.js:377 | COMMIT keeps the writes made since BEGIN and ends the transaction |
| Server.Store.InsertOrderRow | server.js:342-350 | on success appends one order row with the given user, total and status 'pending' under the next id, which it returns; on failure nothing changes |
| Server.Store.InsertOrderItemRow | server.js:361 | on success appends one order_items row with the order id, item id, quantity and price under the next id; on failure nothing changes |
| Server.Store.InsertItem | server.js:357-366 | a skipped item writes nothing; a passing item is inserted unless storage fails; the returned line is the item's checked line |
| Server.Store.InsertItems | server.js:352-366 | itemsProcessed is the as-written count; no error is recorded exactly when every item passes and no insert fails; then one row per item is appended, in order, under consecutive ids |
| Server.Store.PlaceOrder | server.js:331-398 | a bad shape is a 400 and writes nothing; a failed order insert is a 500 "Failed to create order record" and an item that fails the check or its insert a 500 "Failed to add items to order. Order rolled back.", both leaving every table as before; otherwise exactly the header with the client's total and the item rows are added, and the new order id is returned |
| Server.Store.Login | server.js:237-288 | a name or phone of any JSON value that is falsy is a 400 with no change; a non-string field is looked up and stored as its text; a known phone returns the stored user unchanged; an unknown one appends exactly one user under a fresh id; phones stay unique |
| Server.Store.UpdateOrderStatus | server.js:515-550 | a NaN id or a missing or non-string status is a 400; no matching order is a 404; all of these leave the store unchanged; otherwise only the status of the matching orders changes |
| Server.Store.SubmitFeedback | server.js:401-428 | rejected feedback is a 400 with no change; accepted feedback appends one row, with the comment defaulted, under a fresh id, which it returns |
| Server.StatusValid | server.js:522 | the status guard, a truthy string; for a numeric id, Server.Store.UpdateOrderStatus answers 400 exactly when it fails |
| Server.WithStatus | server.js:531-533 | `UPDATE orders SET status = ? WHERE id = ?`; Queries.FindOrderAfterStatus and Queries.StatusUpdateReadBack state that only the matched order's status changes |
| Server.AsWrittenItemsProcessed | server.js:361-362 | the count itemsProcessed reaches as written never exceeds the number of items |
| Server.SkippedItemBlocksCompletion | server.js:357-368 | as written, an order with one skipped item never reaches the completion test, so it is neither committed nor rolled back and gets no reply |
| Server.AllValidItemsProcessed | server.js:361-368 | when every item passes the check, every item is counted |
| Server.FallbackFiresExactlyForValidOrders | server.js:389-393 | as written, for a non-empty item list the fallback test holds exactly when every item passes the check |
| Server.AsWrittenFallbackFires | server.js:389 | the fallback test as evaluated right after `forEach`; Server.FallbackFiresExactlyForValidOrders states when it holds |
| Server.FallbackFiresForValidOrder | server.js:389-393 | as written, the fallback test holds for the valid one-item order {id: 1, quantity: 2, price: 150} |
| Server.SequentialFallbackNeverFires | server.js:389 | evaluated after every item was handled, the fallback test can never hold for a non-empty item list |
| Queries.MenuMatches | server.js:497-500 | the joined menu rows are exactly those whose id equals the item id |
| Queries.UniqueMenuMatch | server.js:497-500 | with AUTOINCREMENT keys a stored menu item's id joins to that one row only |
| Queries.RowJoin | server.js:497-500 | an item row of another order joins to nothing; one of this order joins to one row per matching menu item, each carrying that menu row's name and description, and every matching menu row appears |
| Queries.OrderItemsJoin | server.js:496-501 | the inner join in both directions: every joined row pairs an item row of the requested order with a menu row it names, and every such pair is returned |
| Queries.OrderItemsJoinAppend | server.js:496-501 | the join distributes over concatenated item tables |
| Queries.OrderItemsJoinEmpty | server.js:496-507 | an order that no item row names gets an empty items list |
| Queries.JoinOfItemRows | server.js:496-501 | the rows of one new order, each naming exactly one menu item, join back to those same rows in order |
| Queries.FindOrder | server.js:485 | the lookup finds an order with that id exactly when one exists |
| Queries.FindOrderSkips | server.js:485 | rows without the id before the first match do not affect the lookup |
| Queries.GetOrder | server.js:479-512 | a NaN id is a 400; an absent id is a 404; otherwise the reply is a stored order with that id, and its items are exactly the inner join of that order's item rows with the menu: each returned row comes from such a pair and every pair is returned |
| Queries.PlacedOrderReadBack | server.js:479-512 | reading back a just-committed order by its new id returns its header with the client's total and status 'pending', and, when every line names a menu item, exactly its item rows in submission order |
| Queries.FindOrderAfterStatus | server.js:531-533 | after the UPDATE the lookup finds the same order with only its status changed |
| Queries.StatusUpdateReadBack | server.js:515-550 | after a successful status update, GET /api/order returns the same order with the new status and the same items |
| Queries.OrdersOf | server.js:453 | the listed orders are exactly the orders whose user_id is that number |
| Queries.UserOrders | server.js:431-476 | a NaN id is a 400; otherwise exactly the user's orders, as a permutation sorted by created_at descending, each with the summaries of its joined items |
| Queries.UserOrdersExact | server.js:437-455 | an order is listed exactly when it belongs to that user |
| Queries.Summaries | server.js:440-447 | one `{id, name, price, quantity}` object per joined item row, in order |
| Queries.ListedOrders | server.js:452-454 | the order rows of a listing, in reply order; Queries.UserOrders states them as a sorted permutation of the user's orders |
| Queries.ListedOrderWithoutItems | server.js:466 | an order without item rows is listed with an empty items array |
| Queries.OrderCount | server.js:556-559 | an item's count is positive exactly when some order_items row names it |
| Queries.Ordered | server.js:556-559 | one group per menu item with at least one order_items row, carrying its true count; Queries.OrderedIdsIncrease shows the groups follow increasing menu ids |
| Queries.OrderedIdsIncrease | server.js:559 | `GROUP BY mi.id` yields the groups in increasing id order, so no item is grouped twice |
| Queries.PopularItems | server.js:553-571 | at most 5 rows, sorted by count descending, each a menu item with its true positive count |
| Queries.PopularItemsDistinct | server.js:553-571 | no menu item is listed twice in the reply |
| Queries.PopularItemsTop | server.js:553-571 | an ordered item missing from the reply means the reply is full and every listed item has at least its count |
| Queries.RevenueAppend | server.js:615-618 | the revenue of concatenated order tables is the sum of their revenues |
| Queries.PlacedOrderRevenue | server.js:615-618 | a committed order adds exactly its client-sent total to the revenue |
| Queries.CancelRevenue | server.js:615-618 | cancelling removes from the revenue exactly the counted totals of the orders with that id |
| Queries.Revenue | server.js:615-618 | `SUM(total_amount) ... WHERE status != 'cancelled'`, 0 when nothing qualifies; Queries.RevenueAppend, Queries.PlacedOrderRevenue and Queries.CancelRevenue state its properties |
| Sorting.InsertDesc | server.js:560 | inserting into a list keeps its elements plus the new one |
| Sorting.InsertDescSorted | server.js:560 | inserting into a descending list keeps it descending |
| Sorting.SortDesc | server.js:560 | the result is sorted descending and is a permutation of the input |
| Cart.IndexOf | public/js/main.js:332 | the index found holds the id; no index means the id is absent |
| Cart.CartAdd | public/js/main.js:313-329 | addToCart; Cart.CartAddValid, Cart.CartAddQuantity, Cart.CartAddTotals and Cart.RemoveUndoesAdd state its effect |
| Cart.CartRemove | public/js/main.js:331-344 | removeFromCart; Cart.CartRemoveValid, Cart.CartRemoveQuantity and Cart.CartRemoveTotals state its effect |
| Cart.CartIncrease | public/js/main.js:346-353 | increaseCartItemQuantity; Cart.CartIncreaseValid, Cart.CartIncreaseQuantity and Cart.CartIncreaseTotals state its effect |
| Cart.CartAddValid | public/js/main.js:313-325 | addToCart keeps ids unique and quantities at least 1 |
| Cart.CartRemoveValid | public/js/main.js:331-339 | removeFromCart keeps ids unique and quantities at least 1 |
| Cart.CartIncreaseValid | public/js/main.js:346-349 | increaseCartItemQuantity keeps ids unique and quantities at least 1 |
| Cart.IndexOfUnique | public/js/main.js:314 | in a valid cart an id is found exactly at the entry holding it |
| Cart.CartAddQuantity | public/js/main.js:313-325 | adding raises the item's quantity by one, from 0 if it was absent, and leaves every other id's quantity alone |
| Cart.CartRemoveQuantity | public/js/main.js:331-339 | removing lowers the id's quantity by one, down to absence at 0, and leaves other ids alone; an absent id changes nothing |
| Cart.CartIncreaseQuantity | public/js/main.js:346-349 | increasing raises only that id's quantity by one; an absent id changes nothing |
| Cart.RemoveUndoesAdd | public/js/main.js:313-339 | adding an absent item and then removing it restores the original cart |
| Cart.IndexOfSnoc | public/js/main.js:319-324 | an id absent from the cart is found at the end after appending it |
| Cart.SumsAppend | public/js/main.js:359-362 | total items and total price add up over concatenated carts |
| Cart.FoldsAreSums | public/js/main.js:360-361 | the two reduce folds compute Σ quantity and Σ price × quantity plus their start values |
| Cart.CartTotals | public/js/main.js:359-362 | totalItems is Σ quantity and totalPrice is Σ price × quantity over the cart |
| Cart.CartAddTotals | public/js/main.js:313-325 | adding raises totalItems by 1 and totalPrice by the unit price the cart then holds for the item: an existing entry's own price, or the menu price for a new entry |
| Cart.CartRemoveTotals | public/js/main.js:331-339 | removing a present item lowers totalItems by 1 and totalPrice by its price; an absent one changes neither |
| Cart.CartIncreaseTotals | public/js/main.js:346-349 | increasing a present item raises totalItems by 1 and totalPrice by its price |
| Cart.TotalsBounds | public/js/main.js:359-362 | a valid cart with non-negative prices has totalItems ≥ its length and totalPrice ≥ 0 |
| Client.LoginInputCheck | public/js/main.js:137-147 | input is accepted exactly when the trimmed name is non-empty and the trimmed phone is 10 or more ASCII digits; otherwise the matching message, and an accepted request carries the trimmed values |
| Client.PhoneFormatOk | public/js/main.js:144 | `/^\d{10,}$/`: ten or more decimal digits and nothing else; with a non-blank name, Client.LoginInputCheck accepts exactly when the trimmed phone passes it |
| Client.AcceptedLoginShape | public/js/main.js:137-153 | an accepted request has a non-empty name and phone, neither with surrounding whitespace |
| Client.VegFilter | public/js/main.js:252 | the rendered items are exactly the loaded items that are veg when the filter is on, and all of them when it is off |
| Client.VegFilterOff | public/js/main.js:252 | with the filter off every item is rendered, in order |
| Client.VegFilterAppend | public/js/main.js:252 | the filter distributes over concatenation, so the original order is kept |
| Client.RenderItems | public/js/main.js:242-257 | no loaded items, no match for the filter, or the cards of exactly the filtered items |
| Client.PayloadItems | public/js/main.js:442 | one {id, quantity, price} per cart entry, in cart order |
| Client.PayloadOf | public/js/main.js:438-444 | the payload carries the user's id, the projected cart entries and totalPrice as calculateCartTotals reports it |
| Client.PlacedOrderBill | public/js/main.js:457-461 | the bill of a placed order is produced; it lists the ordered cart; its subtotal is the payload's totalAmount; a non-zero order id names the invoice |
| Client.Session.constructor | public/js/main.js:1-10 | page load restores the saved user and cart, with no filter, no category and no loaded items |
| Client.Session.AddToCart | public/js/main.js:313-328 | the cart becomes CartAdd of the old cart and stays valid; nothing else changes |
| Client.Session.RemoveFromCart | public/js/main.js:331-343 | the cart becomes CartRemove of the old cart and stays valid; nothing else changes |
| Client.Session.IncreaseCartItemQuantity | public/js/main.js:346-352 | the cart becomes CartIncrease of the old cart and stays valid; nothing else changes |
| Client.Session.LogoutUser | public/js/main.js:170-182 | the user and cart are cleared; the category and veg filter are reset |
| Client.Session.ToggleVegMode | public/js/main.js:306-310 | the filter flips and the view is the loaded items rendered under the new filter; nothing else changes |
| Client.Session.LoginUser | public/js/main.js:132-168 | bad input sends nothing and shows its message; a successful answer sets the user; a refusal or error shows the server's text or the default and keeps the user |
| Client.Session.CheckoutOrder | public/js/main.js:427-483 | no user or an empty cart sends nothing and keeps the cart; a placed order produces the bill of the old cart and empties it; a failed one keeps the cart and shows the error |
| Client.CheckoutFailureToast | public/js/main.js:472-478 | the toast of a refused order (the server's error, else the fixed text) or of a thrown one ("Checkout Error: " and the message); Client.Session.CheckoutOrder shows it |
| Bill.BillRows | public/js/bill.js:91-98 | one row per cart entry, in order, with the escaped name, quantity, unit price and price × quantity |
| Bill.GenerateBill | public/js/bill.js:6-32 | no user gives the not-logged-in alert; an empty cart without an order id gives the empty-cart alert; otherwise a bill whose subtotal is Σ price × quantity and whose invoice number is chosen from the order id |
| Bill.BillTotals | public/js/bill.js:23-26 | tax is 5% and service is 10% of the subtotal; the grand total is 1.15 × subtotal and, with non-negative prices, at least the subtotal |
| Bill.RowsAddUp | public/js/bill.js:91-98 | the rows' line totals add up to the subtotal |
| Bill.InvoiceNumbersDistinct | public/js/bill.js:32 | different non-zero order ids give different invoice numbers |
| Bill.InvoiceShape | public/js/bill.js:32 | "ORD-" and the order id's digits when an id is given, otherwise "INV-" and the last at most six digits of the clock |
| Bill.InvoiceNumber | public/js/bill.js:32 | "ORD-" and the order id when it is truthy, else "INV-" and the clock's last six digits; Bill.InvoiceShape and Bill.InvoiceNumbersDistinct state its form and injectivity |
| Bill.OrderIdGiven | public/js/bill.js:32 | `orderId` as a condition: absent and 0 are falsy |
| Feedback.ShowFeedbackModal | public/js/feedback.js:6-22 | with no user only the login alert appears; otherwise the modal shows with the rating, comment and error cleared |
| Feedback.CloseFeedback | public/js/feedback.js:24-26 | the modal is hidden and its contents kept |
| Feedback.SubmitFeedback | public/js/feedback.js:28-66 | no user, an empty rating or a rating that does not parse to 1..5 shows its message and sends nothing; otherwise the body carries the user's id, the parsed rating and the trimmed comment |
| Feedback.RatingAccepted | public/js/feedback.js:48-49 | the rating check: `parseInt` yields a whole number from 1 to 5; Feedback.SelectedRatingIsSent shows a selected star passes it |
| Feedback.SelectedRatingIsSent | public/js/feedback.js:48-65 | each rating "1" to "5" is sent as that number |
| Feedback.ReceiveFeedbackReply | public/js/feedback.js:68-91 | only a delivered reply with success closes the modal and thanks the user; every other reply keeps the form and shows its error text |
| Feedback.HttpStatusReported | public/js/feedback.js:74-76 | non-OK replies without an error body report their distinct status codes differently |
| Feedback.HttpErrorMessage | public/js/feedback.js:74-76 | the server's error text, else "HTTP error! status: " and the status; Feedback.HttpStatusReported shows distinct statuses give distinct texts |
| JsText.TrimStart | public/js/main.js:137-138 | the result is a suffix of the input with no leading whitespace, and only whitespace was dropped |
| JsText.TrimEnd | public/js/main.js:137-138 | the result is a prefix of the input with no trailing whitespace, and only whitespace was dropped |
| JsText.Trim | public/js/main.js:137-138 | the result has no surrounding whitespace, and it is empty exactly when the input is all whitespace |
| JsText.TrimIdempotent | public/js/main.js:137-138 | trimming twice is trimming once |
| JsText.NatToDecimal | public/js/bill.js:32 | a non-empty string of digits without leading zeros whose value is the number |
| JsText.IntToDecimal | public/js/feedback.js:48 | the decimal rendering with a minus sign for negatives |
| JsText.ParseIntBase10 | public/js/feedback.js:48-49 | a string of decimal digits parses to its value; an empty string, or one starting with a character that is not whitespace, a sign or a digit, is NaN |
| JsText.ParseIntRoundTrip | public/js/feedback.js:48 | parseInt of any integer's decimal rendering gives that integer back |
| JsText.IntToDecimalInjective | public/js/bill.js:32 | different integers render differently |
| JsText.LastN | public/js/bill.js:32 | slice(-n): the last n characters, or the whole string when shorter; slice(-0) is the whole string |
| Integration.ItemJsonChecked | server.js:357 | an item the page sends passes the server's item check exactly when its quantity is positive, and is stored as sent |
| Integration.CheckoutShape | server.js:334 | a checkout body passes the server's shape check exactly when the user id is non-zero, and carries the cart's total |
| Integration.CheckoutLines | server.js:355-361 | every entry of a valid cart passes the item check, and the stored lines are the cart's entries in order |
| Integration.CartLinesTotal | server.js:343 | the stored lines' Σ price × quantity equals the cart's totalPrice |
| Integration.CheckoutCommits | server.js:331-383 | a logged-in checkout with a non-zero user id commits when storage does not fail, and the stored total agrees with the stored lines |
| Integration.FeedbackReachesServer | server.js:404-410 | a body the form sends passes the server's check exactly when the user id is non-zero, and the comment is stored trimmed |
| Integration.LoginReachesServer | server.js:241 | a login the page sends never hits the server's missing-field 400, and the server looks up and stores the trimmed name and phone |

## Left out

- Express plumbing is not modelled, because it is framework and process I/O: middleware, CORS and static files, the catch-all route, the error handler, `listen` and signal handling.
- Queries.GetOrder, Queries.UserOrders, Queries.OrdersOf and Server.Store.UpdateOrderStatus: the path parameter is modelled as `Number(param)`, `NaN` or a finite number, and the lookup is keyed by that number. The source uses `Number` only for the `isNaN` test (server.js:433, server.js:481, server.js:519) and binds the raw string to SQL, where SQLite's INTEGER affinity converts only decimal spellings. So for hexadecimal, binary or octal spellings (`0x10`, `0b11`, `0o17`) the source matches no row (a 404 or an empty list) where the model finds the row with that numeric id. A parameter spelled `Infinity` passes `isNaN` but has no `PathNumber`, so it is not modelled.
- SQLite type affinity is not modelled: a stored value keeps the JSON value that was sent. So is the SQL engine itself: queries are modelled directly as sequence operations.
- The `json_group_array`/`JSON.parse` round trip of the order listing is not modelled. Items come back as values, and a parse error cannot occur.
- The generic 500 replies for database errors on login, status update, feedback and the read routes are not modelled, because they are storage I/O. The order commit does model storage failures, through `StorageFaults`.
- The UNIQUE-constraint 400 on registration is not modelled, because `Server.Store.Login` proves it cannot be reached.
- The foreign-key 400 on feedback is not modelled: SQLite leaves foreign keys off by default, so it cannot fire.
- `created_at` timestamps are an input to the model; the clock is not modelled.
- These routes and data are not modelled, because they return table contents unchanged or are constant data: GET /api/categories, GET /api/menu, GET /api/menu/:categoryId, GET /api/feedback, the health check, the seed data, and the row counts of /api/stats.
- sqlite3 callback timing, `finalize` and concurrency between requests are not modelled beyond the two findings below. The model gives one sequential run.
- JavaScript floating point and `toFixed` formatting are not modelled, because money is a `real`.
- DOM updates, toasts, `alert`, `localStorage`, `fetch`/`apiRequest` and its own error toast are not modelled, being browser I/O, and neither are `updateCartUI`, `saveCart`, the bill's HTML window and the theme functions. The handlers take the server's answer as a parameter.
- `escapeHTML` is defined outside these files, so it is a parameter of the bill.
- Client.Session.LoginUser: the server's user object is taken as well-formed. A `success` reply without `user` is not modelled.
- Feedback.ShowFeedbackModal: the branch where the modal element is missing from the page is not modelled, because the element is part of the page.
- Server.Store.Login: the text SQLite binds for a non-string name or phone is the parameter `asText`; bind errors for objects and arrays are not modelled.
- The constant `message` texts of successful replies ("Login successful" and "Registration successful", server.js:257 and server.js:281, and the like) are not modelled; the success payloads are.
- Queries.UserOrders and Queries.PopularItems: each row carries the whole stored order or menu item, so columns the SELECTs leave out (an order's user_id, a menu item's description and category_id) are present in the model's rows.
- JsText.ParseIntBase10: the contract covers digit strings and inputs that start with no number; leading whitespace, a sign and trailing text are handled in the body but not stated in the contract.
- Server.CheckedLines and Server.Store.InsertItems: JSON numbers are reals, so NaN and ±Infinity cannot appear in a request body and are not modelled.

## Findings

| source | as written | input that shows it | evidently intended | confidence | as-written member | corrected member |
|---|---|---|---|---|---|---|
| server.js:357-368 | an item that fails the per-item check is skipped before `itemsProcessed++`, so `itemsProcessed === items.length` never holds: neither ROLLBACK nor COMMIT is sent and the request gets no reply | items = [{id: 1, quantity: 0, price: 150}] | once every item has been handled, any recorded error rolls back with a 500 | not executed | Server.SkippedItemBlocksCompletion | Server.Store.PlaceOrder |
| server.js:389-393 | the fallback runs right after `forEach` returns, before any insert callback, when `itemsProcessed` is still 0; so every order whose items all pass is also scheduled for ROLLBACK with a 400 "no valid items" | items = [{id: 1, quantity: 2, price: 150}] | the fallback applies only when no item was processed, which for a non-empty list cannot happen | not executed | Server.FallbackFiresExactlyForValidOrders | Server.SequentialFallbackNeverFires |
