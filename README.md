# Order status core of the food-ordering front end

This project models, in Dafny, the order-status logic of the two pages of a
food-ordering web front end.

The operator console (`AdminPanel.jsx`) has five parts:
- a transition table that says which statuses an operator may pick next;
- new-order detection that compares each fetched list with the remembered order count;
- the replacement of one order by the server's answer after a status change;
- the dashboard counters;
- the "time ago" buckets.

The customer tracker (`OrderTracking.jsx`) has four parts:
- the choice of which order id to track: from the URL, the navigation state or storage;
- the trimming of a typed id;
- the fetch of one order;
- the progress timeline computed from the order's position in the six forward statuses.

The project has four modules:
- `Orders` (`orders.dfy`): the shared vocabulary. An order record, the seven statuses with their wire names, and the outcome of an API call.
- `AdminPanel` (`admin_panel.dfy`): pure functions for the table, detection, replacement, counters and time buckets. The class `AdminConsole` holds the console's state (`orders`, `loading`, `updating`, `error`, `newOrders`, `lastOrderCount`, the last toast). Its methods are the fetch and the status update.
- `OrderTracking` (`order_tracking.dfy`): the status index, the trim, the id choice and the timeline. The class `Tracker` holds the tracker's state (`order`, `loading`, `orderId`, the stored `lastOrderId`). A ghost field lists the ids requested so far, so that contracts can say what was fetched.
- `StatusProgress` (`status_progress.dfy`): lemmas that connect the two pages. Each forward option in the console's table is the next step of the tracker's timeline. Following those options from any step walks the rest of the timeline.

Each network call is a parameter of type `Response<T>`: either `Ok(data)` or `Failed(message)`.
The asynchronous call and its completion are modelled as one method call.

Statuses stay strings on an `Order`, because the server may send any string.
`Parse` maps the seven known names to the `Status` datatype and everything else to `None`.

The model follows the code where it behaves differently from what a reader of the pages might expect:
- A failed fetch on the tracker sets the order to none. The stale order is not kept.
- `updateOrderStatus` does no client-side check against the table. The page only offers the table's options.
- New orders are detected by position, not by identity. `AdminPanel.ReplacementGoesUnnoticed` shows the consequence.
- There is no last-write-wins rule on `updatedAt`. A poll result replaces the list wholesale.
- The tracker's 10-second refresh fetches the id field as typed, untrimmed.

## Model

| member | source | states |
|---|---|---|
| `Orders.Parse` | frontend/src/pages/AdminPanel.jsx:132-140 | A string parses to a status exactly when it is that status's name; any other string parses to nothing |
| `Orders.ParseName` | frontend/src/pages/AdminPanel.jsx:132-140 | Every one of the seven statuses reads back as itself from its name |
| `Orders.IdsOf` | frontend/src/pages/AdminPanel.jsx:69 | The highlighted ids are the detected orders' `_id`s, one per order, in list order |
| `AdminPanel.StatusOptions` | frontend/src/pages/AdminPanel.jsx:131-142 | Unknown strings get no options. Every option is a known status. A status is never offered as its own successor. The options are empty exactly for `delivered`, `cancelled` and unknown strings |
| `AdminPanel.CancelOffered` | frontend/src/pages/AdminPanel.jsx:133-137 | `cancelled` is offered if and only if the status is `pending`, `confirmed`, `preparing` or `ready`; it is not offered from `out-for-delivery` |
| `AdminPanel.ForwardOptions` | frontend/src/pages/AdminPanel.jsx:133-137 | The options other than `cancelled` are exactly the table's entries minus `cancelled` |
| `AdminPanel.UniqueForwardOption` | frontend/src/pages/AdminPanel.jsx:133-137 | A non-terminal status offers exactly one non-cancel option, listed first, and every later option is `cancelled`; terminal and unknown statuses offer none |
| `AdminPanel.NewOrders` | frontend/src/pages/AdminPanel.jsx:57-77 | The result is a prefix of the fetched list. It is empty when the remembered count is 0 (baseline), and also when the list is no longer than that count. Otherwise its length is the list's length minus the count |
| `AdminPanel.PrependedOrdersDetected` | frontend/src/pages/AdminPanel.jsx:60-62 | When the orders placed since the last fetch come first, followed by the previously seen non-empty list, exactly those orders are reported |
| `AdminPanel.ReplacementGoesUnnoticed` | frontend/src/pages/AdminPanel.jsx:60-62 | Detection is positional: one order gone and one order added leaves the length unchanged, and nothing is reported |
| `AdminPanel.StaleCountMissesNewOrder` | frontend/src/pages/AdminPanel.jsx:57-62 | After a first load of one order, a list with a second order in front is reported as one new order under the current count, and as nothing under the mount-time count |
| `AdminPanel.ReplaceById` | frontend/src/pages/AdminPanel.jsx:119-121 | The length is kept. Every entry whose id is the updated order's id becomes the server's order. Every other entry is unchanged |
| `AdminPanel.ReplaceByIdIdempotent` | frontend/src/pages/AdminPanel.jsx:119-121 | Reconciling the same server answer twice gives the same list as reconciling it once |
| `AdminPanel.ReplaceAbsentId` | frontend/src/pages/AdminPanel.jsx:119-121 | An answer for an id the list does not hold leaves the list unchanged |
| `AdminPanel.WithStatus` | frontend/src/pages/AdminPanel.jsx:208 | The filter holds exactly the orders whose status is in the given set, each as many times as in the list, and no others; it is no longer than the list |
| `AdminPanel.WithStatusAppend` | frontend/src/pages/AdminPanel.jsx:208 | Filtering a concatenation is the concatenation of the filters |
| `AdminPanel.WithStatusCountsPositions` | frontend/src/pages/AdminPanel.jsx:344-350 | A filter's length (what each counter shows) equals the number of list positions whose status is in the set |
| `AdminPanel.PendingOrders` | frontend/src/pages/AdminPanel.jsx:208-209 | `pendingOrders` holds each `pending` order as many times as the list does and nothing else; its length, the badge count, is the number of list positions holding a `pending` order |
| `AdminPanel.InProgressCount` | frontend/src/pages/AdminPanel.jsx:344 | The in-progress counter is the number of list positions whose status is `preparing`, `ready` or `out-for-delivery`, at most the number of orders |
| `AdminPanel.DeliveredCount` | frontend/src/pages/AdminPanel.jsx:350 | The delivered counter is the number of list positions whose status is `delivered`, at most the number of orders |
| `AdminPanel.WithStatusDisjointUnion` | frontend/src/pages/AdminPanel.jsx:344-350 | For disjoint status sets, the two filter counts add up to the count for their union |
| `AdminPanel.CountersBounded` | frontend/src/pages/AdminPanel.jsx:344-350 | The pending (line 208), in-progress and delivered counters together never exceed the number of orders |
| `AdminPanel.TimeAgoOf` | frontend/src/pages/AdminPanel.jsx:154-163 | Whole seconds are the floor of elapsed milliseconds over 1000. Under 60 seconds gives "just now". Otherwise the result is minutes (1-59), hours (1-23) or days (at least 1), and the elapsed seconds lie within that unit count |
| `AdminPanel.AdminConsole.constructor` | frontend/src/pages/AdminPanel.jsx:7-15 | The initial state: no orders, loading, nothing updating, no error, no highlighted orders, count 0 |
| `AdminPanel.AdminConsole.RunFetch` | frontend/src/pages/AdminPanel.jsx:80-104 | On success, the list and the count become the fetched list and its length, and the error is cleared. Detected orders (if any) become the highlighted ids and raise a toast. On failure, list and count are unchanged and the error is the failure's message or the fallback text. Loading ends false either way. The count always equals the list's length |
| `AdminPanel.AdminConsole.FetchOrders` | frontend/src/pages/AdminPanel.jsx:80-104 | The same effect as `RunFetch`, error text included, with detection judged against the count from the previous successful fetch |
| `AdminPanel.AdminConsole.PollTickAsWritten` | frontend/src/pages/AdminPanel.jsx:106-113 | An interval tick replaces the list on success and keeps it on failure, with the error set to the message or the fallback text. It never changes the highlighted ids or raises a new-orders toast |
| `AdminPanel.AdminConsole.UpdateOrderStatus` | frontend/src/pages/AdminPanel.jsx:115-129 | On success the list is the by-id replacement with the server's order, so its length is kept. On failure the list is unchanged. `updating` is cleared on both paths, and the count, error and highlights are untouched |
| `OrderTracking.FindIndex` | frontend/src/pages/OrderTracking.jsx:75 | The result is -1 exactly when the value is absent. Otherwise it is the first position holding the value |
| `OrderTracking.StatusIndex` | frontend/src/pages/OrderTracking.jsx:71-76 | The result is in -1..5. It is -1 exactly for strings outside the six forward statuses. Otherwise it is the position of the status |
| `OrderTracking.StatusIndexValues` | frontend/src/pages/OrderTracking.jsx:72-75 | `pending`..`delivered` have indices 0..5 in order; `cancelled` has -1 |
| `OrderTracking.TrimStart` | frontend/src/pages/OrderTracking.jsx:65-67 | The result is a suffix of the input; everything removed is white space, and the result does not start with white space |
| `OrderTracking.TrimEnd` | frontend/src/pages/OrderTracking.jsx:65-67 | The result is a prefix of the input; everything removed is white space, and the result does not end with white space |
| `OrderTracking.Trim` | frontend/src/pages/OrderTracking.jsx:65-67 | A trimmed id has no leading or trailing white space. It is empty exactly when the input is all white space |
| `OrderTracking.TrimRecoversCore` | frontend/src/pages/OrderTracking.jsx:65-67 | Trimming text with non-blank ends, wrapped in any white space, gives that text back |
| `OrderTracking.TrimIdempotent` | frontend/src/pages/OrderTracking.jsx:65-67 | Trimming twice equals trimming once |
| `OrderTracking.ChooseOrderId` | frontend/src/pages/OrderTracking.jsx:16-23 | An id is chosen exactly when some source holds a non-empty one. A non-empty URL id wins; otherwise a non-empty navigation-state id; otherwise the stored id |
| `OrderTracking.ReloadResumesTracking` | frontend/src/pages/OrderTracking.jsx:19-25 | Once a chosen id is stored, a reload with no URL or state id chooses the same id |
| `OrderTracking.StepViews` | frontend/src/pages/OrderTracking.jsx:113-158 | Six steps with the timeline's keys and captions. A step is current exactly when it is the order's status. It is completed exactly when the order's status is that step or a later one |
| `OrderTracking.ForwardStatusTimeline` | frontend/src/pages/OrderTracking.jsx:157-158 | For a forward status exactly one step is current, and the completed steps are exactly those at or before it |
| `OrderTracking.OffSequenceTimeline` | frontend/src/pages/OrderTracking.jsx:157-158 | For `cancelled` or any other status outside the sequence, no step is current or completed |
| `OrderTracking.Tracker.constructor` | frontend/src/pages/OrderTracking.jsx:8-10 | No order, loading, empty id field, the stored id as the browser holds it, no requests |
| `OrderTracking.Tracker.FetchOrder` | frontend/src/pages/OrderTracking.jsx:32-49 | Takes a non-empty id, as every caller passes (lines 23, 53, 65), and keeps the invariant that no empty id is ever requested. The id is requested. The order becomes the response on success, or none on failure. Loading ends false |
| `OrderTracking.Tracker.EnterPage` | frontend/src/pages/OrderTracking.jsx:15-30 | When an id is chosen, it becomes the id field and is written to storage, and that id is fetched. Otherwise nothing is fetched or stored and loading ends false. No empty id is ever requested |
| `OrderTracking.Tracker.EditOrderId` | frontend/src/pages/OrderTracking.jsx:98 | The id field takes the typed text and nothing else changes |
| `OrderTracking.Tracker.HandleTrackOrder` | frontend/src/pages/OrderTracking.jsx:63-69 | A blank id changes nothing. Otherwise the trimmed id is stored and fetched, and the field keeps the text as typed |
| `OrderTracking.Tracker.PollOrder` | frontend/src/pages/OrderTracking.jsx:52-61 | An empty field fetches nothing. Otherwise the field's text, untrimmed, is fetched and the order follows the response |
| `StatusProgress.ForwardOptionAdvancesIndex` | frontend/src/pages/AdminPanel.jsx:133-137 | For every status and every option other than `cancelled`, the option's timeline index is the status's index plus one (with `getStatusIndex` at OrderTracking.jsx:71-76) |
| `StatusProgress.Successor` | frontend/src/pages/AdminPanel.jsx:133-137 | The forward option, when present, is a non-cancel option of the table. When it is absent the table offers nothing |
| `StatusProgress.ForwardPath` | frontend/src/pages/AdminPanel.jsx:133-137 | The walk along forward options starts at the given status |
| `StatusProgress.ForwardPathFollowsTimeline` | frontend/src/pages/OrderTracking.jsx:72-74 | From the k-th timeline status, the walk along the table's forward options is exactly the timeline from k on |
| `StatusProgress.FullForwardPath` | frontend/src/pages/AdminPanel.jsx:133-137 | From `pending` the walk visits `confirmed`, `preparing`, `ready`, `out-for-delivery` and `delivered`, in that order |

## Findings

| source | as written | input that shows it | evidently intended | confidence | as-written member | corrected member |
|---|---|---|---|---|---|---|
| frontend/src/pages/AdminPanel.jsx:106-113 | The 30-second interval is set up once, in an effect with no dependencies. It calls the `fetchOrders` of the first render, whose `checkForNewOrders` still sees `lastOrderCount === 0`. So every poll counts as a first load and reports no new orders | First load returns one order, then a poll returns `[second, first]`. The poll reports nothing: no toast, no highlight | Each poll compares against the count from the previous successful fetch and reports `second` | high (not executed) | `AdminPanel.AdminConsole.PollTickAsWritten` (discrepancy in `AdminPanel.StaleCountMissesNewOrder`) | `AdminPanel.AdminConsole.FetchOrders` (property in `AdminPanel.PrependedOrdersDetected`) |

## Left out

- The API module and the HTTP transport are outside the model. Every request is an abstract `Response` parameter. Timeouts, interceptors, logging and endpoint paths are not modelled.
- Timers are not modelled: `setInterval`, `clearInterval` and the `setTimeout` calls that clear toasts after 3 s and highlights after 10 s. One poll tick is one method call.
- Async interleaving is not modelled. The source's `updateOrderStatus` maps over the `orders` of the render where the click happened. A poll that lands while the request is out would be overwritten. Here the request and its answer form one step.
- Audio playback, toast presentation, console output and all JSX rendering and styling are left out. A toast appears only as the abstract `Notice` the console last raised.
- Floating-point and locale formatting are left out: the progress-bar width, the `toFixed` amounts, `formatDate` and `toLocaleTimeString`.
- `AdminPanel.TimeAgoOf`: takes elapsed milliseconds as an integer. Building `Date` values, invalid dates (NaN) and rendering the number into the English sentence are not modelled.
- `AdminPanel.StatusOptions`: treats every string outside the seven statuses as unknown. A JavaScript object lookup would also find inherited property names such as `constructor`.
- `Orders.Order`: keeps only `_id` and `status`. The order number, items, customer and amounts are only displayed, and no modelled logic reads them.
- Timestamps are not fields of `Orders.Order`. The age computed from `createdAt` for the notification panel (`getTimeAgo`) enters the model as the elapsed-milliseconds argument of `AdminPanel.TimeAgoOf`, as its line above says. The other uses of `createdAt` and `updatedAt` are date formatting, left out above.
- `AdminPanel.PendingOrders`: the dropdown panel renders only the first five pending orders (`pendingOrders.slice(0, 5)`). That cut is part of the rendering, which is left out.
- The loading and error branches of rendering are not modelled. The model keeps the `loading` and `error` values they read.
- `localStorage`, routing and React hooks are not modelled as real APIs. Storage is the single optional field `storedId`, and the navigation state's `orderId` is an optional string.
