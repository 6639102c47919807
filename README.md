# SmartDine ordering logic in Dafny

SmartDine is a restaurant ordering app. Customers scan a table's QR code, fill a cart from the
menu and place an order. Staff follow orders on an admin dashboard and move them through
statuses, and a socket.io server relays status changes in real time. This project models the
logic under that app and proves properties of it:

- `socket_hub.dfy`: the socket server's room routing. A `Hub` class holds the room membership
  and one outbox of events per client. Its methods model joining a room, the status-update
  fan-out, the new-order notice, the echo and the welcome message.
- `admin_dashboard.dfy`: the dashboard's aggregates and reducers:
  - statistics and the status pie chart;
  - per-category sales, accumulated in a map by nested loops and then sorted by sales;
  - category colours;
  - the status-update reducer;
  - the rule that the socket update is sent only after the HTTP update succeeded.
- `cart.dfy`: the customer's cart (add, remove, totals), the menu category filter, the guards of
  `placeOrder` and the customer-side status filter.
- `table_qr.dfy`: the URL a table's QR code encodes.
- `qr_generator.dfy`: the QR generator's URL rewriting, its blank-URL guard and its
  five-entry history.
- `signup.dfy`: the admin sign-up form: field updates, the ordered validation, the e-mail
  pattern and the request sent.
- `text.dfy` and `wrappers.dfy`: the JavaScript string operations the code relies on (`trim`,
  `includes`, the second piece of `split`, the `\s` class), and `Option`/`Result`.

Modelling choices:

- Order statuses are plain strings. The status type lists five values (`PENDING`, `PREPARING`,
  `READY`, `COMPLETED`, `CANCELLED`, at `src/app/admin/page.tsx:51`), and nothing in the code
  restricts a change from one to another: the server forwards any status it is given
  (`src/lib/socket.ts:20-34`) and the dashboard sends whichever one is chosen
  (`src/app/admin/page.tsx:279-300`). The model has no transition rule.
- Prices and amounts are integers.
- Timestamps (`new Date().toISOString()`) and server replies are parameters.
- Strings are sequences of Unicode code points.

## Model

| member | source | states |
|---|---|---|
| SocketHub.OrderRoom | src/lib/socket.ts:8-9 | the room of an order starts with `order-`, followed by exactly the order id |
| SocketHub.OrderRoomsDistinct | src/lib/socket.ts:8-16 | two orders share a room exactly when their ids are equal, and no order room is the admin room |
| SocketHub.Join | src/lib/socket.ts:9 | joining adds the client to that room and leaves every other room as it was |
| SocketHub.Fanout | src/lib/socket.ts:22-33 | emitting to a room appends the event to every member's outbox, and only to theirs |
| SocketHub.SendTo | src/lib/socket.ts:47-51 | emitting to one socket appends to that client's outbox and to no other |
| SocketHub.Stamped | src/lib/socket.ts:39-42 | the new-order payload keeps every received field and sets `timestamp` to the server time, overriding a sent one |
| SocketHub.CountUpdatesAppend | src/lib/socket.ts:20-34 | counting status updates in an outbox is additive over concatenation |
| SocketHub.AfterStatusUpdate | src/lib/socket.ts:20-34 | every member of the order's room gains one `orderStatusUpdate` with the received id and status, every admin-room member then gains another, and no other outbox changes |
| SocketHub.CountTwoUpdates | src/lib/socket.ts:20-34 | appending the order-room and admin-room updates raises the count of that update by one for each |
| SocketHub.StatusUpdateDelivery | src/lib/socket.ts:20-34 | a client's outbox after an update gains the update, with the received id and status, once if it is in the order's room and once more if it is in the admin room, and nothing else; the count of that update rises by 0, 1 or 2 |
| SocketHub.FanoutKeepsOrder | src/lib/socket.ts:22-33 | emitting only appends: earlier events stay in front, and the outbox grows by one exactly for members |
| SocketHub.UnrelatedOrderSilent | src/lib/socket.ts:20-34 | a customer that joined only the room of another order receives nothing from an update |
| SocketHub.Hub.constructor | src/lib/socket.ts:3-4 | a new server has no rooms and no clients |
| SocketHub.Hub.Connect | src/lib/socket.ts:60-64 | a connecting client gets an outbox holding only the welcome message from `system`; rooms do not change |
| SocketHub.Hub.JoinOrderRoom | src/lib/socket.ts:8-10 | the client becomes a member of `order-<id>`; no other room and no outbox changes |
| SocketHub.Hub.JoinAdminRoom | src/lib/socket.ts:14-16 | the client becomes a member of `admin`; no other room and no outbox changes |
| SocketHub.Hub.UpdateOrderStatus | src/lib/socket.ts:20-34 | the outboxes become the order-room fan-out followed by the admin-room fan-out of the unvalidated status; rooms and the client set do not change |
| SocketHub.Hub.NotifyNewOrder | src/lib/socket.ts:37-43 | only admin-room members receive the stamped new-order payload |
| SocketHub.Hub.Echo | src/lib/socket.ts:46-52 | only the sender receives `Echo: ` followed by its text, from `system` |
| AdminDashboard.CalculateStats | src/app/admin/page.tsx:225-236 | the total is the number of orders and bounds the pending, preparing and ready counts together |
| AdminDashboard.StatusCountsPartition | src/app/admin/page.tsx:226-230 | pending, preparing, ready and all other orders partition the list |
| AdminDashboard.RestHoldsCompletedAndCancelled | src/app/admin/page.tsx:226-230 | the orders outside the three counted statuses include every completed and every cancelled order |
| AdminDashboard.RevenueAppend | src/app/admin/page.tsx:231-233 | revenue is additive over concatenated order lists |
| AdminDashboard.RevenueOnlyCompleted | src/app/admin/page.tsx:231-233 | an order adds its amount to the revenue if it is COMPLETED and nothing otherwise |
| AdminDashboard.OrderStatusData | src/app/admin/page.tsx:238-245 | four slices, Pending, Preparing, Ready and Completed, whose values add up to the total |
| AdminDashboard.CompletedSliceIsRest | src/app/admin/page.tsx:238-245 | the Completed slice equals the number of orders in no other slice: it is never negative and it counts cancelled orders too |
| AdminDashboard.LineCategory | src/app/admin/page.tsx:253 | a line's category is never empty: an empty one becomes `Other` |
| AdminDashboard.InsertBySales | src/app/admin/page.tsx:263 | inserting into a list sorted by non-increasing sales keeps it sorted and adds exactly the new entry |
| AdminDashboard.SortBySales | src/app/admin/page.tsx:259-263 | the sorted list is a permutation of the input, in non-increasing order of sales |
| AdminDashboard.InsertMembers | src/app/admin/page.tsx:263 | inserting adds the new entry and keeps every other one |
| AdminDashboard.TailDistinct | src/app/admin/page.tsx:259-263 | the tail of a list of distinct categories is distinct and does not repeat the head's category |
| AdminDashboard.InsertKeepsDistinct | src/app/admin/page.tsx:259-263 | inserting an entry of a new category keeps categories distinct |
| AdminDashboard.SortKeepsDistinct | src/app/admin/page.tsx:259-263 | sorting keeps categories distinct |
| AdminDashboard.LinesSnoc | src/app/admin/page.tsx:251-255 | one more line adds its category to the sold ones and its price × quantity to its category's sales only |
| AdminDashboard.BookKeepsKeyOrder | src/app/admin/page.tsx:254-260 | booking a category keeps the list of keys in step with the map: a new category is appended once |
| AdminDashboard.BookKeys | src/app/admin/page.tsx:253-254 | booking one line adds exactly its category to the keys of the sales map |
| AdminDashboard.BookSales | src/app/admin/page.tsx:253-254 | booking one line adds its price × quantity to its category's total and changes no other total |
| AdminDashboard.AddLines | src/app/admin/page.tsx:251-255 | after one order's lines each category's sales total grows by that order's price × quantity for the category, and the sold categories grow by its categories |
| AdminDashboard.Entries | src/app/admin/page.tsx:260-262 | one entry per key of the sales map, with that key's total, categories distinct |
| AdminDashboard.GetCategoryData | src/app/admin/page.tsx:247-266 | one entry per category sold in a COMPLETED order, each with the sum of price × quantity over those lines, categories distinct, sales non-increasing |
| AdminDashboard.CategoryColor | src/app/admin/page.tsx:268-277 | the five known categories get their fixed colour, which differs from the default; any other gets `#8884d8` |
| AdminDashboard.UncategorisedHasOwnColor | src/app/admin/page.tsx:253-276 | a line without a category is charted in the colour of `Other` |
| AdminDashboard.ApplyStatusUpdate | src/app/admin/page.tsx:178-185 | the list keeps its length and order; orders with the event's id take its status, every other order and field is unchanged |
| AdminDashboard.DuplicateUpdateHarmless | src/app/admin/page.tsx:178-185 | applying the same update twice equals applying it once |
| AdminDashboard.UpdateOfAbsentOrderIsNoop | src/app/admin/page.tsx:178-185 | an update for an order not in the list leaves it unchanged |
| AdminDashboard.UpdateOrderStatus | src/app/admin/page.tsx:279-300 | the socket wrapper is called with the same id and status, and the list refetched, if and only if the HTTP update answered ok |
| Cart.FindIndex | src/app/HomeContent.tsx:234 | the index of the first cart entry with the id, or none when no entry has it |
| Cart.AdjustQuantity | src/app/HomeContent.tsx:236-240 | entries with the id change quantity by the given amount; every other entry and the length are unchanged |
| Cart.RemoveId | src/app/HomeContent.tsx:261 | keeps exactly the entries with a different id |
| Cart.RemoveIdConcat | src/app/HomeContent.tsx:261 | filtering a concatenation concatenates the filtered parts, so the kept entries stay in their order |
| Cart.RemoveIdOne | src/app/HomeContent.tsx:261 | a single entry is kept exactly when its id differs |
| Cart.AddToCart | src/app/HomeContent.tsx:232-243 | a new id is appended with quantity 1; an existing id has its quantity raised by 1, with length and order kept |
| Cart.RemoveFromCart | src/app/HomeContent.tsx:251-262 | an absent id leaves the cart unchanged; a quantity above 1 is lowered by 1 with every entry in place; an entry of quantity 1 is filtered out, the others keeping their order |
| Cart.RemoveIdAbsent | src/app/HomeContent.tsx:261 | filtering out an id that no entry has changes nothing |
| Cart.RemoveIdAppended | src/app/HomeContent.tsx:242-261 | removing the id of a freshly appended entry gives back the cart before it |
| Cart.AddKeepsValid | src/app/HomeContent.tsx:232-243 | adding keeps ids unique and quantities at least 1 |
| Cart.RemoveKeepsValid | src/app/HomeContent.tsx:251-262 | removing keeps ids unique and quantities at least 1 |
| Cart.RemoveIdKeepsValid | src/app/HomeContent.tsx:261 | filtering out an id keeps ids unique and quantities at least 1 |
| Cart.AddThenRemove | src/app/HomeContent.tsx:232-262 | adding an item and then removing its id restores a valid cart exactly |
| Cart.TotalPrice | src/app/HomeContent.tsx:268-270 | with prices not negative and quantities at least 1 the total is not negative, and positive prices give a positive total for a non-empty cart |
| Cart.TotalItems | src/app/HomeContent.tsx:272-274 | with every quantity at least 1, the item count is at least the number of entries |
| Cart.TotalsAppend | src/app/HomeContent.tsx:268-274 | both totals are additive over concatenated carts |
| Cart.AdjustAbsent | src/app/HomeContent.tsx:236-240 | changing the quantity of an absent id changes nothing |
| Cart.TotalsAdjust | src/app/HomeContent.tsx:236-274 | changing one entry's quantity by d changes the item count by d and the price total by d × its price |
| Cart.AddRaisesTotals | src/app/HomeContent.tsx:232-274 | both totals are 0 for an empty cart; adding an item raises the count by 1 and the price total by the item's unit price |
| Cart.FilterCategory | src/app/HomeContent.tsx:230 | keeps exactly the menu items of the category |
| Cart.FilteredItems | src/app/HomeContent.tsx:228-230 | `All` shows the whole menu; any other category exactly its items |
| Cart.FilterKeepsOrder | src/app/HomeContent.tsx:230 | filtering distributes over concatenation, so the original order is kept |
| Cart.FilterOne | src/app/HomeContent.tsx:230 | a single item is kept exactly when it is in the category |
| Cart.LineRequests | src/app/HomeContent.tsx:294-298 | one request line per cart entry with its id, quantity and price |
| Cart.PlaceOrder | src/app/HomeContent.tsx:276-303 | an empty cart, then a missing name or phone, then no table stop the order, each exactly when the earlier guards passed; otherwise the request carries the cart lines, the contact, the table and the price total |
| Cart.RequestTotalMatchesLines | src/app/HomeContent.tsx:293-303 | the total sent equals the total of the lines sent |
| Cart.OnStatusUpdate | src/app/HomeContent.tsx:136-140 | only an event for the current order changes it, and only its status |
| Cart.LastEventWins | src/app/HomeContent.tsx:136-140 | after a run of events the current order has the status of the last event for it, or its own if there was none; its other fields never change |
| Cart.LastFor | src/app/HomeContent.tsx:136-140 | the position of the last event addressed to an order |
| TableQr.BaseUrl | src/components/admin/TableManagement.tsx:178 | the configured app address, or `http://localhost:3000` when none is set |
| TableQr.GetQrCodeUrl | src/components/admin/TableManagement.tsx:177-202 | local mode gives base + `?table=` + number; hosted with a blank custom URL gives the default hosted address + `?table=` + number; otherwise the trimmed custom URL, returned as is if it has `?table=`, else followed by `&table=` or `?table=` and the number |
| TableQr.TableQueryHasTable | src/components/admin/TableManagement.tsx:187-188 | a URL holding `?table=` holds `table=` |
| TableQr.EndsWithTable | src/components/admin/TableManagement.tsx:190-197 | appending `?table=` or `&table=` and a number gives a URL holding `table=` |
| TableQr.QrUrlNamesTable | src/components/admin/TableManagement.tsx:177-202 | every URL the screen encodes holds `table=` |
| TableQr.CustomUrlIsTrimmed | src/components/admin/TableManagement.tsx:183-185 | surrounding white space on the custom URL never changes the result |
| TableQr.CustomTableWins | src/components/admin/TableManagement.tsx:187-188 | a custom URL that names a table is used as it is, whatever the table |
| QrGenerator.TablePiece | src/app/admin/qr-generator/QRGeneratorContent.tsx:69 | the text after the first `?table=`, up to the next one, or empty; it never holds `?table=` |
| QrGenerator.GetFinalUrl | src/app/admin/qr-generator/QRGeneratorContent.tsx:62-74 | blank input gives the empty string; hosted with a local address gives the hosted address, followed by `?table=` and the table piece when that piece is non-empty; anything else is returned untrimmed |
| QrGenerator.FixedAddresses | src/app/admin/qr-generator/QRGeneratorContent.tsx:66-68 | the hosted address is not blank, does not look local and has no `?` |
| QrGenerator.HostedAddressNotLocal | src/app/admin/qr-generator/QRGeneratorContent.tsx:66-68 | the hosted address contains neither local server address |
| QrGenerator.FinalUrlNotBlank | src/app/admin/qr-generator/QRGeneratorContent.tsx:62-74 | rewriting never turns a non-blank URL into a blank one |
| QrGenerator.GetFinalUrlIdempotent | src/app/admin/qr-generator/QRGeneratorContent.tsx:62-74 | rewriting an already rewritten URL changes nothing |
| QrGenerator.LocalTableUrl | src/app/admin/qr-generator/QRGeneratorContent.tsx:66-69 | a local table address is not blank, looks local and yields its table number as the piece |
| QrGenerator.LocalAddressLooksLocal | src/app/admin/qr-generator/QRGeneratorContent.tsx:66 | any URL starting with the local app address looks local |
| QrGenerator.LocalTableUrlBecomesHosted | src/app/admin/qr-generator/QRGeneratorContent.tsx:62-74 | in hosted mode, a table's local QR address becomes the address the table screen encodes in hosted mode by default |
| QrGenerator.PushHistory | src/app/admin/qr-generator/QRGeneratorContent.tsx:102 | the new entry comes first, followed by the first at most four older ones; at most five entries |
| QrGenerator.ReversePrefix | src/app/admin/qr-generator/QRGeneratorContent.tsx:102 | the first k of a reversed list are its last k, reversed |
| QrGenerator.ReverseSnoc | src/app/admin/qr-generator/QRGeneratorContent.tsx:102 | reversing a list with an element appended puts that element first |
| QrGenerator.LastFive | src/app/admin/qr-generator/QRGeneratorContent.tsx:102 | the last five entries of a list, or all of them when there are fewer |
| QrGenerator.PushLastFive | src/app/admin/qr-generator/QRGeneratorContent.tsx:102 | pushing a code onto the reversed last five of a list gives the reversed last five of the list with that code appended |
| QrGenerator.HistoryKeepsLastFive | src/app/admin/qr-generator/QRGeneratorContent.tsx:102 | after any run of generations the history is the last five codes, newest first |
| QrGenerator.GenerateRequest | src/app/admin/qr-generator/QRGeneratorContent.tsx:77-84 | no request for a blank URL; otherwise the final URL, which is never blank |
| QrGenerator.GenerateQRCode | src/app/admin/qr-generator/QRGeneratorContent.tsx:76-112 | a blank URL or an unsuccessful reply changes nothing; success shows the code under the final URL and puts it first in the history |
| Signup.HandleChange | src/app/admin/signup/page.tsx:27-34 | the named field takes the value, every other field keeps its value, and the error is cleared |
| Signup.LastChangeWins | src/app/admin/signup/page.tsx:27-34 | two changes to one field leave only the second |
| Signup.ChangesCommute | src/app/admin/signup/page.tsx:27-34 | changes to different fields can be made in either order |
| Signup.FieldsDetermineForm | src/app/admin/signup/page.tsx:15-20 | a form is determined by its four named fields |
| Signup.ValidEmailIffPattern | src/app/admin/signup/page.tsx:47-48 | the shape reading of the e-mail test accepts exactly the strings the pattern `^[^\s@]+@[^\s@]+\.[^\s@]+$` matches |
| Signup.ValidEmailMatches | src/app/admin/signup/page.tsx:47-48 | an address of the right shape matches the pattern |
| Signup.PatternIsValidEmail | src/app/admin/signup/page.tsx:47-48 | an address matching the pattern has the shape |
| Signup.ValidateForm | src/app/admin/signup/page.tsx:36-64 | valid exactly when all five checks pass; otherwise the message of the first failing check, in the order name, e-mail present, e-mail shape, password length (at least 6), confirmation |
| Signup.ValidEmailNotBlank | src/app/admin/signup/page.tsx:42-51 | a well-formed address is never blank and has at least five characters |
| Signup.SubmitRequest | src/app/admin/signup/page.tsx:66-86 | an invalid form sends nothing and reports its message; a valid one sends the trimmed name and e-mail and the password as typed |
| Signup.SubmittedRequestIsClean | src/app/admin/signup/page.tsx:82-86 | the name sent is non-empty with no surrounding white space, the e-mail sent is exactly the one typed, and the password has at least six characters and equals its confirmation |
| Signup.HandleSubmit | src/app/admin/signup/page.tsx:66-102 | only a valid form with a created account leads to the login page; a rejection shows the server's error or a fixed message; a network failure shows the network message |
| Text.LeadingEnd | src/components/admin/TableManagement.tsx:183-185 | the position of the first character that is not white space, everything before it being white space |
| Text.TrailingStart | src/components/admin/TableManagement.tsx:183-185 | the position just past the last character that is not white space, everything after it being white space |
| Text.Trim | src/components/admin/TableManagement.tsx:183-185 | the result is no longer than the input and neither starts nor ends with white space |
| Text.TrimIsInfix | src/components/admin/TableManagement.tsx:183-185 | the result is the infix of the input that starts at its first non-white-space character, with only white space before and after it |
| Text.TrimEmptyIffBlank | src/app/admin/qr-generator/QRGeneratorContent.tsx:63 | trimming gives the empty string exactly for all-white-space input |
| Text.TrimOfNoSpace | src/app/admin/signup/page.tsx:84 | trimming a string with no white space changes nothing |
| Text.TrimIdempotent | src/components/admin/TableManagement.tsx:183-185 | trimming twice equals trimming once |
| Text.IndexOf | src/components/admin/TableManagement.tsx:187-189 | the first position where the pattern occurs, or none if it does not occur |
| Text.ContainsIff | src/components/admin/TableManagement.tsx:187-189 | `includes` holds exactly when the pattern occurs somewhere |
| Text.SplitSecond | src/app/admin/qr-generator/QRGeneratorContent.tsx:69 | the piece after the first separator, running to the next separator (the first one after it, none starting inside the piece) or the end, and holding no separator |
| Text.SplitSecondAfterPrefix | src/app/admin/qr-generator/QRGeneratorContent.tsx:69 | for a prefix without the separator's first character, the second piece of prefix + separator + rest is rest when rest holds no separator |

## Left out

- Disconnects, socket.io's own room storage, transport and delivery are not modelled. The disconnect handler only logs, and a disconnected client stays in the model's room sets.
- The client-side socket hook (`src/hooks/useSocket.ts`) is not part of this model. It opens the connection on mount and tracks the connection flag. It also wraps the four emits and the two listener registrations, and each wrapper does nothing while the socket is still `null`. So a call of the socket wrapper, as `AdminDashboard.UpdateOrderStatus` states it, sends nothing before the socket is set.
- Re-registered listeners and stale state are not modelled. The hook returns new wrapper functions on every render, so the customer page's effect (`src/app/HomeContent.tsx:132-143`) runs again and adds another `orderStatusUpdate` listener each time. Each listener compares against the `currentOrder.id` of its own render but updates whatever order is current. After a second order is placed, an update for the first order can therefore set the status of the new one. `Cart.OnStatusUpdate` models a single listener for the current order.
- The API route handlers, including the order-status PUT, are left out: they are database, crypto and network calls. Their replies are parameters (`PutOutcome`, `GenerateReply`, `SignupReply`).
- Payment flows, star ratings, the scrolling header and the CSV export are left out: they depend on timers, the DOM, local storage and floating point.
- Prices are JavaScript doubles in the source and integers here, so rounding of fractional prices is not modelled.
- QR image generation and download are left out: they are a library call plus the DOM.
- Toast texts are modelled only where they are the returned error. The loading flags are not modelled.
- AdminDashboard.GetCategoryData: the order between categories with equal sales is not stated, because JavaScript lists integer-like object keys before the others. The contract states sales, distinctness and non-increasing order. The totals live in a plain object (`src/app/admin/page.tsx:248`), and the model books every category as an integer total. In JavaScript, a category named `constructor`, `toString` or `valueOf` reads an inherited function, so its "sales" become a string and the sort comparison gives NaN. A category named `__proto__` goes to the prototype setter and drops out of the result. The model covers neither case.
- AdminDashboard.CategoryColor: JavaScript objects also answer for inherited keys such as `constructor`, which would return a function instead of the default colour. The model treats every name outside the five categories as unknown.
- The admin page's `stats` are recomputed only on fetch, not when a socket update arrives. The model keeps the statistics and the reducer separate in the same way.
- `String.length` counts UTF-16 code units, so the password-length check is stated over code points. The two agree on the Basic Multilingual Plane.
