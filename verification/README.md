# Waste-pickup subscription orders in Dafny

This project models the order-management logic of the waste-pickup
subscription service. It has three parts:

- the order endpoint (`backend/orders/index.py`);
- the administrator page's statistics and status control (`src/pages/Admin.tsx`);
- the customer page's ordering logic (`src/pages/Index.tsx`).

Everything is a pure function over immutable values. The endpoint's
`handler` becomes `OrdersApi.Handle(request, store, clock) -> (response, store')`.
The database becomes an abstract `OrderStore.Store`, which holds:

- the users table, with its unique email index;
- the plans table;
- the orders table, whose ids come from a serial counter.

A call that does not commit hands back the store it was given. "Today" and the
database clock are a `Clock` parameter. The pages are values too. A
page's `fetch` is one of three outcomes: `Received(orders)`, `NoOrders` (a body
without `orders`) or `Threw`. A `POST`/`PUT` answer is `Ok`, `NotOk` or
`SendThrew`.

Modules, one per component:

| module | file | models |
|---|---|---|
| `Seqs` | seqs.dfy | `filter`, `map`, `reduce` sums, Python's substring `in` |
| `Wire` | wire.dfy | decoded JSON scalars with Python truthiness, the two row shapes, fetch outcomes |
| `Decimal` | decimal.dfy | integer text in the query string and in `order_id` |
| `OrderStatus` | order_status.dfy | the four statuses |
| `Stats` | stats.dfy | `calculateStats` |
| `OrderStore` | order_store.dfy | the database and the user upsert |
| `Listing` | listing.dfy | the two SELECTs of `get_orders` |
| `OrdersApi` | orders_api.dfy | `handler`, `create_order`, `get_orders`, `update_order`, `error_response` |
| `AdminPage` | admin_page.dfy | `loadOrders`, `updateOrderStatus`, `getStatusBadge`, the status selector |
| `CustomerPage` | customer_page.dfy | the plan catalog, `loadOrders`, `handleOrderSubmit`, the current/history tabs |
| `EndToEnd` | end_to_end.dfy | what the pages send and read, through the endpoint |

`error_response` is `OrdersApi.ErrorResponse`. Its shape (the code, plus a body
carrying only the error message) is stated wherever a handler contract names an
error answer.

The model follows the code in these places:

- A status change writes `updated_at` from the database clock. Repeating a
  change therefore gives the same store only at the same clock. At another
  clock, only that order's update time differs (`OrdersApi.UpdateIdempotent`).
- The customer page always lists the orders of `DEMO_USER_ID` (user 1), not of
  the user that the form's email upserts (`EndToEnd.CustomerSeesDemoUserOrders`).
- `order_id` `0` is falsy, so it is answered with 400 "order_id and status
  required", not with 404.
- The user and order columns are taken to be `text` (or another character
  type); the schema is not part of this model. A JSON number or boolean sent as a
  name, email, phone or address is stored as its text (`5` as `"5"`, `true`
  as `"true"`, and `null` as NULL), and the listings return it as a string.
  Users are therefore found by the text of their email: `5` and `"5"` are
  the same user (`OrdersApi.NumericEmailIsItsText`).

## Model

| member | source | states |
|---|---|---|
| Stats.CalculateStats | src/pages/Admin.tsx:70-81 | one pass over the list gives total = length, the pending/active/completed counts of the filter definitions, and the revenue of the filter-and-reduce definition |
| Stats.CountIsPositionCount | src/pages/Admin.tsx:73-75 | each status count is the number of positions whose status is exactly that string |
| Stats.RevenueIsMaskedSum | src/pages/Admin.tsx:76-78 | revenue is the sum over the whole list of each price, with cancelled orders counting zero |
| Stats.CancellingRemovesContribution | src/pages/Admin.tsx:76-78 | setting order i to cancelled lowers revenue by exactly its price, or by nothing if it was already cancelled |
| Stats.CancellingNeverIncreasesRevenue | src/pages/Admin.tsx:76-78 | cancelling an order with a non-negative price never increases revenue |
| Stats.CountsBoundedByTotal | src/pages/Admin.tsx:72-75 | pending + active + completed <= total, with equality exactly when every status is one of those three |
| Stats.WorkedExample | src/pages/Admin.tsx:70-79 | orders pending 199, active 2990, cancelled 990 give total 3, pending 1, active 1, completed 0, revenue 3189 |
| Stats.CountSnoc | src/pages/Admin.tsx:73-75 | appending an order raises only the count of its own status, by one |
| Stats.RevenueSnoc | src/pages/Admin.tsx:76-78 | appending an order adds its price to revenue unless it is cancelled |
| Stats.StatsSnoc | src/pages/Admin.tsx:70-79 | appending an order adds one to the total and to its own status's count, and its contribution to the revenue |
| AdminPage.LoadOrders | src/pages/Admin.tsx:53-68 | a body with `orders` replaces the list and makes the stats those of the new list; otherwise list and stats stay as they were |
| AdminPage.UpdateOrderStatus | src/pages/Admin.tsx:83-102 | the change is always sent as {order_id, status}; exactly one reload happens iff the answer is ok; otherwise orders and stats are unchanged |
| AdminPage.StatsFollowOrders | src/pages/Admin.tsx:39-81 | after any sequence of reloads and status changes, the stats shown are the stats of the list shown |
| AdminPage.InitialConsistent | src/pages/Admin.tsx:39-47 | the initial zero stats are the stats of the initial empty list |
| AdminPage.StatusBadge | src/pages/Admin.tsx:104-122 | a known status gets its own table entry and a non-empty label; an unknown one gets the pending configuration and no label |
| AdminPage.BadgesDistinguishStatuses | src/pages/Admin.tsx:105-119 | two different known statuses never share a badge variant or a label |
| AdminPage.SelectableIsWhitelist | src/pages/Admin.tsx:246-251 | the selector offers exactly pending, active, completed and cancelled, each once |
| OrderStore.ColumnText | backend/orders/index.py:57-61 | a JSON scalar bound into a text column is stored as text: NULL exactly for `null`, a string as itself, a non-negative integer as digits that read back as that integer, a boolean as `true`/`false`; a truthy value is never NULL or empty |
| OrderStore.UpsertUser | backend/orders/index.py:57-63 | an existing email text keeps its user id and its name, phone and address are overwritten; a new email text gets a fresh id; the user serial advances in both cases; orders and plans are untouched; the store constraints still hold |
| OrderStore.OneUserPerEmail | backend/orders/index.py:57-60 | in a consistent store, two users with the same email are the same user |
| OrdersApi.Handle | backend/orders/index.py:10-38 | OPTIONS gives 200 with an empty body; POST, GET and PUT go to create, get and update; any other method gives 405; a raised fault gives 500 "Server error: ..." and commits nothing; only POST and PUT answered 200/201 change the store |
| OrdersApi.CreateOrder | backend/orders/index.py:40-115 | 400 and no store change iff one of name, email, address, plan_id is falsy (not phone); 404 and no change, the upsert included, iff the plan is unknown; otherwise 201 with one new pending order under a fresh id, for the upserted user and the requested plan, with the address as column text, starting today and ending today plus `DurationDays` of that plan's duration, with no other order or plan touched |
| OrdersApi.SameEmailTextSameUser | backend/orders/index.py:57-63 | two create requests whose emails are stored as the same text upsert the same user |
| OrdersApi.NumericEmailIsItsText | backend/orders/index.py:57-63 | an email sent as the JSON number n reaches the existing user whose email is n's decimal text, and adds no user |
| OrdersApi.DurationDays | backend/orders/index.py:79-88 | the day count is one of 1, 30, 180, 365; a label containing "1 день" gets 1; 180 and 365 need their own substrings |
| OrdersApi.CatalogDurations | backend/orders/index.py:79-88 | "1 день", "1 месяц", "6 месяцев" and "1 год" map to 1, 30, 180 and 365 days |
| OrdersApi.GetOrders | backend/orders/index.py:117-199 | admin=true lists every order once, joined with user and plan, newest first; otherwise a missing user_id gives 400; a non-integer one raises; a valid one lists exactly that user's orders (of the given status, if one is given); nothing is written |
| OrdersApi.UpdateOrder | backend/orders/index.py:201-242 | checked in order: falsy order_id or status gives 400; a status outside the four gives 400; an id that is not an integer raises; an unknown id gives 404 with no change; otherwise 200, and only that order's status and update time change |
| OrdersApi.SetStatus | backend/orders/index.py:217-220 | the UPDATE changes one order's status and updated_at; every other order and table is unchanged |
| OrdersApi.AnyStatusReachable | backend/orders/index.py:208-229 | any existing order can be set to any of the four statuses from any status (no transition graph), and to nothing else |
| OrdersApi.UpdateEffect | backend/orders/index.py:208-229 | an update leaves either the store unchanged or the store with its target order set to the requested status at the clock's time |
| OrdersApi.UpdateIdempotent | backend/orders/index.py:217-229 | repeating a PUT leaves every order as the first one left it, except for its update time; at the same clock the stores are equal |
| Listing.AdminListing | backend/orders/index.py:128-137 | every order of the store appears exactly once, as its join with user and plan, sorted newest first |
| Listing.AdminListingSize | backend/orders/index.py:128-137 | the admin listing has as many rows as the store has orders |
| Listing.UserListing | backend/orders/index.py:139-151 | exactly the orders of that user, narrowed to the status when one is given, each once, joined with its plan |
| Listing.SortByAge | backend/orders/index.py:135 | the result is newest first and holds every row exactly as often as the input |
| Listing.InsertByAgeKeepsOrder | backend/orders/index.py:135 | inserting a row into a newest-first list keeps it newest first |
| Seqs.IsInfixIffOccurs | backend/orders/index.py:79-85 | the substring test holds exactly when the needle occurs at some offset |
| Decimal.ParseRender | src/pages/Index.tsx:87 | the user id written into the query string reads back as the same integer |
| CustomerPage.LoadOrders | src/pages/Index.tsx:84-97 | a body with `orders` (even an empty one) replaces the list; a missing field or an exception keeps it |
| CustomerPage.LoadKeepsLastGood | src/pages/Index.tsx:89-91 | after any run of loads, the list is that of the last load that delivered one, or the original list if none did |
| CustomerPage.Submit | src/pages/Index.tsx:99-130 | a request is sent iff plan, address, name and email are non-empty (phone unchecked); it carries name, email, phone, address and plan_id = selected plan; on ok the list reloads, address and plan are cleared, the tab becomes orders and name/email/phone stay; otherwise nothing changes |
| CustomerPage.FirstVisitNeedsPlanAndAddress | src/pages/Index.tsx:71-77 | the freshly opened page sends nothing; with the contact fields prefilled, the form can be sent exactly when a plan and an address are filled in |
| CustomerPage.ResetBlocksResubmit | src/pages/Index.tsx:101-121 | after a successful submit the cleared form fails the guard, so nothing is sent again |
| CustomerPage.ViewsPartition | src/pages/Index.tsx:392-445 | the current (not completed) and history (completed) tabs hold every order of the list exactly once between them, and no order is on both |
| CustomerPage.EmptyStateIffAllCompleted | src/pages/Index.tsx:423 | the empty-state card shows exactly when every order is completed |
| EndToEnd.AdminSeesEveryOrder | src/pages/Admin.tsx:53-62 | after loading from the endpoint, the admin page shows every order of the store, its total is the store's order count, and its stats match its list |
| EndToEnd.StatusChangeShowsAfterReload | src/pages/Admin.tsx:83-98 | a selectable status for an existing order is answered 200 and changes only that order; the page reloads once and shows the order with its new status |
| EndToEnd.GuardedFormIsAccepted | src/pages/Index.tsx:101-116 | a form that passes the page's guard never gets 400 from the endpoint; it gets 201 with a new pending order iff the chosen plan exists, and 404 with nothing stored otherwise |
| EndToEnd.CustomerSeesDemoUserOrders | src/pages/Index.tsx:84-91 | the customer page's load is answered 200 and shows exactly user 1's orders, each once |
| EndToEnd.CatalogPlanDays | src/pages/Index.tsx:34-68 | the four catalog plans get 1, 30, 180 and 365 days from the endpoint's duration rule |

## Left out

- Presentation: JSX, styling, icons, tabs other than the `orders` switch after
  a submit, the Card/Badge/Select/Table wrappers, `formatDate` and
  `toLocaleString`. They have no behaviour to state.
- The `loading` flags of both pages and `e.preventDefault()`. They are transient
  display state.
- Transport: `fetch`, HTTP, JSON (de)serialisation. The pages see the abstract
  `Fetch` and `Sent` outcomes; `EndToEnd` connects them to the endpoint's
  `Response`.
- The CORS headers, `Content-Type`, `isBase64Encoded`, and the constant
  `success`/`message` fields of the 200 and 201 bodies. They are fixed texts
  with no logic.
- psycopg2 and SQL execution. Connection failures and database errors other
  than those below are not modelled. Neither is their 500.
- OrdersApi.FaultText: the text after "Server error: " is this model's own,
  not Python's `str(e)`.
- OrdersApi.CreateOrder: a non-string `plan_id` raises (500). This assumes the
  plan id column is text, as the catalog ids `1day` … `1year` suggest; the
  schema is not part of this model.
- OrdersApi.CreateOrder: assumes `created_at` defaults to the transaction's
  time and `updated_at` to NULL on insert; the schema is not part of this
  model.
- OrderStore.ColumnText: assumes character columns for the user and order
  fields; the text of a boolean assumes PostgreSQL's `true` and
  `false` output.
- OrdersApi.OrderKey: PostgreSQL's reading of integer text is narrowed to plain
  digits. A sign, surrounding blanks or a value beyond the 32-bit range are not
  modelled. JSON floats, arrays and objects in a body are not modelled either.
- OrdersApi.GetOrders: `user_id` is read the same narrowed way. Text such as
  `+1` or ` 1` raises (500) here, where PostgreSQL would read it as user 1.
- OrderStore.UpsertUser: a rolled-back upsert (a 404 or a raise) does not
  consume a user id here, while PostgreSQL's sequence still advances; a
  committed upsert advances it in both the insert and the conflict case.
- Listing.AdminListing: rows with equal `created_at` are ordered by id, largest
  first. The SQL leaves their order open.
- Listing.UserListing: the rows come by ascending id. The query has no
  ORDER BY, so the order is left open.
- Dates: `datetime.now().date()`, `timedelta` and `isoformat` become integer
  day numbers and an integer timestamp.
- AdminPage.StatusBadge: a status naming a member of JavaScript's
  `Object.prototype` (`constructor`, say) would be found in `variants` and not
  fall back. This is not modelled.
- Races between concurrent status updates (last write wins). They are purely a
  matter of concurrency.
- Prices are integers, as every catalog price is. The floating-point `number`
  of the pages is not modelled.
- EndToEnd.StatusChangeShowsAfterReload: states that some row of the reloaded
  list has the order's id and new status, not which position it takes.
