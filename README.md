# Shopify data-sync engine, modelled in Dafny

This project models the data-synchronisation core of a multi-tenant Shopify
analytics dashboard. The core is built from these parts:

- **Bulk importer** (`lib/shopify.js`). It pulls one page each of customers,
  products and orders (with their line items) for a store. It upserts each record
  into the local mirror by its natural key and then stamps the store's
  `lastSyncedAt`.
- **Webhook installer** (`registerWebhooks`). It subscribes to eight topics and
  counts the outcomes.
- **Webhook ingestor** (`app/api/shopify/webhook/route.js`). It finds the store by
  its shop domain, dispatches on the topic to an order, customer or product upsert,
  and answers 200, 404 or 500.
- **Fleet scheduler** (`app/api/cron/sync-data/route.js`). It runs the bulk import
  once per registered store and reports counters.
- **Products list** (`app/api/dashboard/products-list/route.js`). It covers the
  `skip`/`totalPages` arithmetic, the per-product `unitsSold`/`totalRevenue`
  sums and the sort by revenue.
- **Orders page** (`app/dashboard/orders/page.jsx`). It covers the search and
  status filter, the `StatusBadge` mapping, the page guard and the average-order
  card.
- **Sidebar** (`app/dashboard/layout.jsx`). It covers the store-name default and
  the two-letter initials.

The database is a class `Database.Db`. The store table is a sequence field in
listing order. Each synchronised table is a map field keyed by the table's natural key:

- customers, products and orders are keyed by (external id as a decimal string, store id);
- line items are keyed by (external id as a string, parent order's internal id).

Internal ids come from a counter. `Db.Snapshot()` is the database as a
`Schema.Tables` value. The pure functions of module `Reconcile` describe what each
upsert and each import phase does to that value. The imperative methods of
`Shopify`, `Webhook` and `Cron` mirror the source's loops. Each method is proved
to produce exactly the snapshot that its function describes. The phase methods
(`ImportCustomers`, `ImportProducts`, `ImportOrders`), `ImportShopifyData`,
`Webhook.Post` and `Cron.SyncAllStores` are also proved to keep the
well-formedness invariant `Schema.WellFormed` (`Db.Valid()`). For the single-upsert
helpers and the three webhook handlers, the lemmas about their functions state
this instead:

- no line item without an order row;
- every id is below the counter;
- order ids are unique.

The modules and what they hold:

- `Wrappers`, `Text`: `Option`, and the string operations the code uses: `toString`
  of an integer, ASCII case mapping, `includes`, `replace` of the first occurrence,
  and `split`/`join`.
- `Schema`, `Payloads`: the row types and the Shopify payload shapes after JSON
  parsing. A fetch is either `Fetched(records)` or `FetchFailed`.
- `Reconcile`: the upserts and phases as functions, with their lemmas.
- `Database`: the mutable store.
- `Shopify`: `ImportCustomers`, `ImportProducts`, `ImportOrders` (with `ImportOneOrder`),
  `ImportShopifyData` and `RegisterWebhooks` as loops.
- `Webhook`, `Cron`, `ProductsList`, `OrdersPage`, `Layout`: the other core files.

Some inputs are parameters of the model rather than things it computes:

- what Shopify returns for each list request;
- the reply to each subscription request;
- the clock (`new Date()`);
- whether listing the stores fails.

Behaviour of the code a reader might not expect:

- **`lastSyncedAt`.** It is stamped after every bulk import, even one where every
  fetch failed, because each phase catches its own errors (lib/shopify.js:14-22).
  It is not reserved for fully successful runs. `StampedEvenWhenNothingFetched`
  states this.
- **Webhook status codes.** The webhook has no signature check and no 401 answer.
  The only outcomes are 500, 404 and 200.
- **The order webhook's field set.** It writes customerId, orderNumber,
  totalPrice and orderDate. It writes no statuses and no line items; it is not a
  status patch and it does not reuse the line-item reconciler.
- **Fleet failures.** A store whose import fails cannot be counted as failed by
  the scheduler. `importShopifyData` never throws, so `failed` is always 0.
- **A product without variants.** In the bulk product phase this ends the whole
  phase (lib/shopify.js:68-85 has no per-product catch). It is not isolated to
  that one product.

## Model

| member | source | states |
|---|---|---|
| Database.Db.Snapshot | lib/prisma.js:1-11 | the database the Prisma client reaches, as one value: the store list and the four synchronised tables with their id counter; the methods' contracts are stated on it |
| Text.DecimalString | lib/shopify.js:37 | `id.toString()` of a non-negative integer is a non-empty string of decimal digits, one digit exactly for ids below 10 |
| Text.DecimalStringInjective | lib/shopify.js:37 | distinct external ids give distinct key strings, so no two records share a row |
| Text.IncludesAt | app/dashboard/orders/page.jsx:73 | `includes` holds exactly when the needle occurs at some position of the haystack |
| Text.ReplaceFirst | app/dashboard/orders/page.jsx:38 | `replace('_', ' ')` keeps the length and changes only the first '_' |
| Text.ReplaceFirstSplits | app/dashboard/orders/page.jsx:38 | for `head + "_" + tail` with no '_' in head, the result is `head + " " + tail`: later underscores stay |
| Text.SplitOn | app/dashboard/layout.jsx:61 | `split(' ')` gives at least one piece, and no piece contains a space |
| Text.SplitJoin | app/dashboard/layout.jsx:61 | joining the pieces of `split(' ')` with ' ' gives back the name |
| Reconcile.NaturalKey | lib/shopify.js:37 | the owner part of a key is the store (or the parent order) it is written under |
| Reconcile.NaturalKeyInjective | lib/shopify.js:36-37 | two keys are equal only for the same external id and the same owner |
| Reconcile.CustomerUpsert | lib/shopify.js:36-48 | afterwards the key has exactly one row carrying the payload's email, names and spend (missing spend as 0); an existing row keeps its id, a new row takes the next id; no other row or table changes |
| Reconcile.CustomerUpsertIdempotent | lib/shopify.js:36-48 | applying the same customer payload twice gives the same store as applying it once |
| Reconcile.CustomerUpsertWellFormed | lib/shopify.js:36-48 | a customer upsert keeps the store well formed |
| Reconcile.CustomersFold | lib/shopify.js:35-50 | the customer loop: one customer upsert per fetched customer, in order |
| Reconcile.CustomersPhase | lib/shopify.js:29-52 | `importCustomers`: nothing when the fetch fails, otherwise the customer loop |
| Reconcile.CustomersFoldEffect | lib/shopify.js:35-50 | after the customer loop every fetched customer has a row holding the values of the last payload with its id |
| Reconcile.CustomersFoldFrame | lib/shopify.js:35-50 | the customer loop touches only the customer table and the id counter |
| Reconcile.CustomersFoldWellFormed | lib/shopify.js:35-50 | the customer loop keeps the store well formed |
| Reconcile.FirstVariantPrice | lib/shopify.js:73 | the first variant's price, falling back to 0, for a present variants array: 0 for an empty array or a missing price |
| Reconcile.ProductUpsert | lib/shopify.js:69-79 | without a variants array it writes nothing (`variants[0]` throws); otherwise the key's row carries the title and the first variant's price, or 0 when there is no variant or no price; an existing row keeps its id; nothing else changes |
| Reconcile.ProductUpsertIdempotent | lib/shopify.js:69-79 | applying the same product payload twice gives the same store as applying it once |
| Reconcile.ProductUpsertWellFormed | lib/shopify.js:69-79 | a product upsert keeps the store well formed |
| Reconcile.ProductsFold | lib/shopify.js:68-85 | the product loop, which has no per-product catch: the product upserts in order until the first product without variants, with a flag saying whether the phase was cut short |
| Reconcile.ProductsPhase | lib/shopify.js:62-82 | `importProducts`: nothing when the fetch fails, otherwise the product loop |
| Reconcile.ProductsFoldNoAbort | lib/shopify.js:68-80 | a page where every product has variants runs to the end |
| Reconcile.ProductsFoldStopsAtFirstBad | lib/shopify.js:68-85 | the first product without variants ends the phase: the result is the upserts of the products before it |
| Reconcile.ProductsFoldAbortSticks | lib/shopify.js:68-85 | once the loop has aborted, the products after that point are never looked at |
| Reconcile.ProductsFoldWellFormed | lib/shopify.js:68-80 | the product loop keeps the store well formed |
| Reconcile.ProductsFoldFrame | lib/shopify.js:68-80 | the product loop touches only the product table and the id counter |
| Reconcile.ApplyLink | lib/shopify.js:107-112 | what the `customerId` value does to the stored link: `null` clears it, an id sets it, `undefined` leaves it as it was |
| Reconcile.CustomerLink | lib/shopify.js:107-112 | `customerId`: null without an embedded customer, the customer row's id when it exists in the store, `undefined` otherwise |
| Reconcile.BulkOrderUpdate | lib/shopify.js:117-122 | the `update` block: link, total, date and both statuses; the order number is not written |
| Reconcile.BulkOrderCreate | lib/shopify.js:123-129 | the `create` block: a new row with the next id, the link (null when undefined), the number as a string, the total, date and statuses |
| Reconcile.OrderRowUpsert | lib/shopify.js:107-130 | the order row carries totalPrice, orderDate and both statuses from the payload. An update keeps id and orderNumber and applies the link (`undefined` keeps the stored link). A create stores the decimal order number and the link, or null. The returned id is the row's internal id. Nothing else changes |
| Reconcile.OrderRowUpsertWellFormed | lib/shopify.js:115-130 | the order upsert keeps the store well formed, and the returned id belongs to an order row |
| Reconcile.OrderWriteWellFormed | lib/shopify.js:115-130 | one order row written under a key that keeps its id or takes the next fresh id keeps the store well formed and loses no order id |
| Reconcile.ProductLink | lib/shopify.js:136-138 | `existingProduct?.id`: the product row with that id in the same store, when there is one |
| Reconcile.LineItemUpsert | lib/shopify.js:136-154 | keyed by (item id, parent order's id); an update changes only quantity and price; a create stores the product link found in the same store (or null), quantity, price and title under the next id |
| Reconcile.LineItemUpsertWellFormed | lib/shopify.js:140-154 | a line item written under an existing order keeps the store well formed |
| Reconcile.LineItemWriteWellFormed | lib/shopify.js:140-154 | one line-item row written under an existing order, keeping its id or taking the next fresh one, keeps the store well formed |
| Reconcile.ItemsFold | lib/shopify.js:134-155 | the line-item loop of one order: one line-item upsert per item, in order, under the order's internal id |
| Reconcile.ItemsFoldWellFormed | lib/shopify.js:134-155 | the line-item loop of an existing order keeps the store well formed and never touches the order table |
| Reconcile.ItemsFoldEffect | lib/shopify.js:134-155 | after the loop exactly the items' keys are added. Each row's quantity and price come from the last payload with that key. Ids, product links and titles of existing rows are kept. Other rows and tables are untouched |
| Reconcile.ItemsFoldFrame | lib/shopify.js:134-155 | the line-item loop writes only the line-item table |
| Reconcile.ItemsFoldKeys | lib/shopify.js:134-155 | the loop adds exactly the items' keys and leaves other rows alone; no fresh id is taken when every key already had a row |
| Reconcile.ItemsFoldLast | lib/shopify.js:140-154 | each key ends with the quantity and price of the last item written under it |
| Reconcile.ItemsFoldKeepsIdentity | lib/shopify.js:142-145 | an existing line-item row keeps its id, product link and title, which the update does not write |
| Reconcile.ItemsFoldIdempotent | lib/shopify.js:134-155 | running an order's line-item loop again changes nothing |
| Reconcile.ItemsFoldIgnoresOrders | lib/shopify.js:134-155 | the line-item loop neither reads nor writes the order table |
| Reconcile.ImportOrder | lib/shopify.js:106-158 | one iteration of the order loop with its catch: nothing without `order_number`; the order row alone without `line_items`; otherwise the order row and then its line items |
| Reconcile.ImportOrderWellFormed | lib/shopify.js:105-158 | importing one order, with either error path, keeps the store well formed |
| Reconcile.ImportOrderItemsUnderTheirOrder | lib/shopify.js:115-141 | every line item lands under the internal id of its order's row, which exists; the order table is the one the order upsert produced |
| Reconcile.OrderRowUpsertAgain | lib/shopify.js:115-130 | re-upserting an order over its own result (the same customers) writes nothing and returns the same id |
| Reconcile.ImportOrderIdempotent | lib/shopify.js:105-155 | importing the same order, line items included, a second time changes nothing |
| Reconcile.LinkBackfill | lib/shopify.js:107-118 | an order imported before its customer has a null link; after the customer is upserted, re-importing the order links it to that customer's row |
| Reconcile.ProductLinkFixedAtCreate | lib/shopify.js:142-153 | re-importing a line item never changes its product link, even once the product exists |
| Reconcile.OrdersFold | lib/shopify.js:105-159 | the order loop: every fetched order imported in turn, an error in one not stopping the next |
| Reconcile.OrdersPhase | lib/shopify.js:92-103 | `importOrders`: nothing when the fetch fails (the early `return`), otherwise the order loop |
| Reconcile.OrdersFoldAppend | lib/shopify.js:105-159 | the order loop over two pages in a row is the loop over the first, then over the second |
| Reconcile.FailedOrderIsSkipped | lib/shopify.js:105-158 | an order whose save throws before any write (no `order_number`) leaves the import of the orders around it as if it were absent |
| Reconcile.OrdersFoldWellFormed | lib/shopify.js:105-159 | the order loop keeps the store well formed |
| Reconcile.Stamp | lib/shopify.js:14-17 | `store.update` of `lastSyncedAt` on the row with that id; `ImportStampsOnlyItsStore` states that the list keeps its length and only that store's row changes |
| Reconcile.FullImport | lib/shopify.js:4-23 | `importShopifyData`: customers, then products, then orders, then the stamp |
| Reconcile.StampedEvenWhenNothingFetched | lib/shopify.js:9-22 | when every fetch fails, the import writes nothing but still stamps the store |
| Reconcile.ImportStampsOnlyItsStore | lib/shopify.js:4-23 | the full import changes only the imported store's `lastSyncedAt` in the store list |
| Reconcile.OrdersFoldStores | lib/shopify.js:105-159 | the order loop never changes the store list |
| Reconcile.FullImportWellFormed | lib/shopify.js:4-23 | the full import keeps the store well formed |
| Reconcile.StoresIrrelevant | lib/shopify.js:14-17 | replacing the store table, as the `lastSyncedAt` stamp does, keeps the store well formed |
| Shopify.UpsertCustomer | lib/shopify.js:36-49 | the method's new state is the customer upsert's |
| Shopify.ImportCustomers | lib/shopify.js:26-56 | the loop leaves the database as the customer phase describes (nothing on a failed fetch) and keeps it well formed |
| Shopify.UpsertProduct | lib/shopify.js:69-79 | the method's new state is the product upsert's, for a product that has variants |
| Shopify.ImportProducts | lib/shopify.js:59-86 | the loop breaks at the first product without variants and leaves the database as the product phase describes |
| Shopify.UpsertOrder | lib/shopify.js:107-130 | customer lookup and order upsert give the new state and the row id that `OrderRowUpsert` describes |
| Shopify.UpsertLineItem | lib/shopify.js:136-154 | product lookup and line-item upsert give the new state that `LineItemUpsert` describes |
| Shopify.ImportOrders | lib/shopify.js:89-164 | returns early on a failed fetch. Otherwise each order goes through the order upsert and then its line items; a missing `order_number` skips the order and missing `line_items` stops after the order row. The result is the order phase |
| Shopify.ImportOneOrder | lib/shopify.js:106-155 | the body of the per-order `try`: the resulting state is the import of that one order. A missing `order_number` writes nothing, and missing `line_items` leaves only the order row written |
| Shopify.ImportShopifyData | lib/shopify.js:4-23 | customers, then products, then orders, then the stamp: the database ends as `FullImport` describes and stays well formed |
| Shopify.CountAccepted | lib/shopify.js:215-217 | the number of successes is at most the number of requests |
| Shopify.RegisterWebhooks | lib/shopify.js:181-234 | exactly one request per topic, in the listed order, for `<url>/api/shopify/webhook` in JSON format; `successCount` counts the ok answers; `successCount + errorCount = 8` |
| Webhook.Route | app/api/shopify/webhook/route.js:25-43 | the two order topics go to the order handler, the two customer topics to the customer handler, the two product topics to the product handler, and anything else to none |
| Webhook.RegisteredTopicsRouting | app/api/shopify/webhook/route.js:25-43 | of the eight subscribed topics exactly `orders/paid` and `orders/cancelled` reach no handler |
| Webhook.FindStore | app/api/shopify/webhook/route.js:15-17 | the result is the first store (in listing order) with the domain; there is none exactly when no store has that domain |
| Webhook.OrderWebhookUpsert | app/api/shopify/webhook/route.js:59-91 | the row carries the order number, totalPrice and orderDate. An update takes the link (`undefined` keeps it) and keeps id and both stored statuses. A create has null statuses. No line item or other table changes |
| Webhook.OrderWebhook | app/api/shopify/webhook/route.js:54-98 | `handleOrderWebhook`: nothing without `order_number` (the throw is caught), otherwise the webhook order upsert |
| Webhook.ProductWebhook | app/api/shopify/webhook/route.js:136-164 | `handleProductWebhook`: the product upsert, and nothing when a missing variants array throws |
| Webhook.Dispatch | app/api/shopify/webhook/route.js:25-43 | the `switch`: the selected handler's write, and nothing for an unhandled topic |
| Webhook.WebhookEffect | app/api/shopify/webhook/route.js:3-51 | what `POST` writes: nothing for a bad body or an unknown shop, otherwise the dispatched handler's write for the found store |
| Webhook.ResponseStatus | app/api/shopify/webhook/route.js:3-50 | 500 exactly for an unparsable body, 404 exactly for a parsed body and an unknown shop domain, 200 exactly otherwise, whatever the handler did |
| Webhook.HandleOrderWebhook | app/api/shopify/webhook/route.js:54-98 | writes what the order handler describes; a missing order number or a body of another shape writes nothing |
| Webhook.HandleCustomerWebhook | app/api/shopify/webhook/route.js:101-133 | writes the bulk customer upsert for a customer body, nothing otherwise |
| Webhook.HandleProductWebhook | app/api/shopify/webhook/route.js:136-164 | writes the bulk product upsert for a product with variants, nothing otherwise (the error is caught) |
| Webhook.Post | app/api/shopify/webhook/route.js:3-51 | answers `ResponseStatus`, writes what `WebhookEffect` describes and keeps the store well formed |
| Webhook.OrderWebhookWellFormed | app/api/shopify/webhook/route.js:70-91 | the order webhook keeps the store well formed |
| Webhook.WebhookWellFormed | app/api/shopify/webhook/route.js:3-51 | every webhook request keeps the store well formed |
| Webhook.RejectedOrUnhandledWritesNothing | app/api/shopify/webhook/route.js:15-43 | a 500 or 404 answer, or a topic without a handler, means no table was written |
| Webhook.WebhookKeepsStores | app/api/shopify/webhook/route.js:3-51 | no webhook changes the store list |
| Webhook.OrderWebhookIdempotent | app/api/shopify/webhook/route.js:70-91 | the same order event applied twice leaves the store as applying it once |
| Webhook.WebhookRedeliveryIdempotent | app/api/shopify/webhook/route.js:3-51 | redelivering any webhook request leaves the store as one delivery did |
| Webhook.CustomerWebhookMatchesBulk | app/api/shopify/webhook/route.js:105-126 | the customer webhook writes exactly what the bulk customer loop writes for that one customer |
| Webhook.ProductWebhookMatchesBulk | app/api/shopify/webhook/route.js:140-157 | the product webhook writes exactly what the bulk product loop writes for that one product, including nothing for a product without variants |
| Webhook.OrderWebhookLinkMatchesBulk | app/api/shopify/webhook/route.js:59-68 | the webhook and the bulk import store the same customer link for the same order payload |
| Webhook.BulkStatusesSurviveWebhook | app/api/shopify/webhook/route.js:77-82 | an order event after a bulk import keeps the statuses and line items the bulk import stored |
| Cron.FleetSync | app/api/cron/sync-data/route.js:21-37 | the store loop: one full import per listed store, in listing order, the n-th at the clock's n-th instant |
| Cron.CronEffect | app/api/cron/sync-data/route.js:4-52 | what the route writes: nothing when listing the stores fails, otherwise the store loop |
| Cron.CronSummary | app/api/cron/sync-data/route.js:9-51 | "Sync failed" exactly when listing fails; "No stores" exactly for an empty listing; otherwise `successful + failed = totalStores = stores.length` and `failed = 0` |
| Cron.SyncAllStores | app/api/cron/sync-data/route.js:4-52 | one bulk import per listed store, in listing order; the summary is `CronSummary`; the database ends as the fleet sync describes and stays well formed |
| Cron.FleetSyncStampsPrefix | app/api/cron/sync-data/route.js:21-25 | after the first n imports exactly the first n stores carry their import's timestamp, and nothing else about any store has changed |
| Cron.FleetSyncStampsEveryStore | app/api/cron/sync-data/route.js:21-25 | with distinct store ids, every store is imported exactly once: each ends with the timestamp of its own turn |
| Cron.FleetSyncWellFormed | app/api/cron/sync-data/route.js:21-37 | the fleet sync keeps the store well formed |
| ProductsList.Skip | app/api/dashboard/products-list/route.js:17 | `skip` is non-negative for a page of at least 1 and a non-negative limit |
| ProductsList.SkipConsecutive | app/api/dashboard/products-list/route.js:17 | consecutive pages start `limit` products apart |
| ProductsList.DefaultQuery | app/api/dashboard/products-list/route.js:15-17 | without parameters the page is 1, the limit 10 and `skip` 0 |
| ProductsList.TotalPages | app/api/dashboard/products-list/route.js:51 | for a positive limit `totalPages` is the least n with total <= n * limit; a zero limit gives NaN or Infinity; a negative limit the ceiling of the negative quotient |
| ProductsList.Window | app/api/dashboard/products-list/route.js:19-24 | `skip`/`take` returns at most `take` products, those at positions skip, skip+1, … of the store's list |
| ProductsList.PageNonEmptyIffInRange | app/api/dashboard/products-list/route.js:17-24 | with a positive limit, a page holds products exactly when it is at most `totalPages` |
| ProductsList.UnitsSold | app/api/dashboard/products-list/route.js:39-40 | the `unitsSold` reduction: the sum of quantities over the product's line items |
| ProductsList.TotalRevenue | app/api/dashboard/products-list/route.js:39-41 | the `totalRevenue` reduction: the sum of quantity times price over the product's line items |
| ProductsList.FetchLineItems | app/api/dashboard/products-list/route.js:31-35 | a line item is fetched exactly when it is linked to one of the page's products |
| ProductsList.Relevant | app/api/dashboard/products-list/route.js:39 | the relevant items are exactly the fetched items whose productId is the product's |
| ProductsList.WithSales | app/api/dashboard/products-list/route.js:38-42 | the `map` that pairs each product with its `unitsSold` and `totalRevenue`; `ProductsListCorrect` and `PageFetchKeepsTotals` state what those totals are |
| ProductsList.NoSalesIsZero | app/api/dashboard/products-list/route.js:39-41 | a product with no linked line item has `unitsSold = totalRevenue = 0` |
| ProductsList.TotalsAppend | app/api/dashboard/products-list/route.js:40-41 | the totals over two lists in a row are the sums of the totals |
| ProductsList.TotalsRemoveAt | app/api/dashboard/products-list/route.js:40-41 | taking one line item out takes its share out of both totals |
| ProductsList.TotalsIgnoreOrder | app/api/dashboard/products-list/route.js:31-41 | the totals do not depend on the order the line items are returned in |
| ProductsList.MatchingIndex | app/api/dashboard/products-list/route.js:31-41 | two lists with the same elements: the first element of one occurs at some position of the other |
| ProductsList.TotalsStep | app/api/dashboard/products-list/route.js:31-41 | removing one matching line item from each list: equal totals of the rests give equal totals |
| ProductsList.PageFetchKeepsTotals | app/api/dashboard/products-list/route.js:28-41 | fetching only the page's line items gives each page product the totals over the whole table |
| ProductsList.InsertByRevenue | app/api/dashboard/products-list/route.js:43 | inserting into a revenue-sorted list keeps it sorted and adds exactly that entry |
| ProductsList.HeadAboveRest | app/api/dashboard/products-list/route.js:43 | an entry earning at least as much as every element of a sorted list can be put in front of it |
| ProductsList.SortByRevenue | app/api/dashboard/products-list/route.js:43 | the result is sorted by revenue, non-increasing, and is a permutation of the input |
| ProductsList.Ids | app/api/dashboard/products-list/route.js:28 | every product's id is among the page's ids |
| ProductsList.ProductsListRoute | app/api/dashboard/products-list/route.js:14-53 | `GET`: the page window, its line items, the totals, the sort by revenue and the pagination block |
| ProductsList.ProductsListCorrect | app/api/dashboard/products-list/route.js:15-53 | the response lists the page's products, each once, sorted by revenue, with totals over all their line items, and `totalPages` as above |
| OrdersPage.Filter | app/dashboard/orders/page.jsx:72-83 | `filter` keeps exactly the elements the predicate accepts, in their order |
| OrdersPage.SearchMatches | app/dashboard/orders/page.jsx:72-77 | the search predicate: the order number, or the customer's first name, last name or email, contains the term, ignoring case |
| OrdersPage.StatusMatches | app/dashboard/orders/page.jsx:81-83 | the status predicate as written: the stored payment or fulfilment status equals the filter |
| OrdersPage.StatusMatchesShown | app/dashboard/orders/page.jsx:20 | the corrected status predicate: the payment status, or the fulfilment status as its badge shows it, equals the filter |
| OrdersPage.FilterSteps | app/dashboard/orders/page.jsx:69-86 | the effect's two steps for a given status predicate: search unless the term is empty, then status unless the filter is "all" |
| OrdersPage.FilterStepsMembership | app/dashboard/orders/page.jsx:69-86 | an order passes the two steps exactly when it is in the list and passes each enabled filter |
| OrdersPage.FilterStepsSubsequence | app/dashboard/orders/page.jsx:69-86 | the two steps keep the orders in the order the server sent them |
| OrdersPage.FilteredOrders | app/dashboard/orders/page.jsx:67-87 | `filteredOrders` as written, with the stored statuses |
| OrdersPage.FilteredOrdersShown | app/dashboard/orders/page.jsx:80-84 | the corrected filter, with the status the badge shows |
| OrdersPage.FilteredOrdersMembership | app/dashboard/orders/page.jsx:67-87 | an order is listed exactly when it is in the list, passes the search (unless the term is empty) and, unless the filter is "all", has a stored payment or fulfilment status equal to the filter |
| OrdersPage.FilteredOrdersShownMembership | app/dashboard/orders/page.jsx:80-84 | with the corrected filter, the same with the fulfilment status read as its badge shows it (line 20) |
| OrdersPage.SubsequenceReflexive | app/dashboard/orders/page.jsx:69 | the unfiltered list is an order-preserving subsequence of itself |
| OrdersPage.FilteredOrdersSubsequence | app/dashboard/orders/page.jsx:69-86 | the filtered list is an order-preserving subsequence of the orders |
| OrdersPage.FilteredOrdersShownSubsequence | app/dashboard/orders/page.jsx:69-86 | so is the list under the corrected filter |
| OrdersPage.FiltersDifferOnNullUnfulfilled | app/dashboard/orders/page.jsx:80-84 | every order the page lists the corrected filter lists too; the corrected filter lists one more kind of order: a null fulfilment status (payment status not "unfulfilled") under "unfulfilled" |
| OrdersPage.UnfulfilledFilterListsNothing | app/dashboard/orders/page.jsx:80-84 | a paid order with a null fulfilment status: under "unfulfilled" the page lists nothing, the corrected filter lists it |
| OrdersPage.NoFilterShowsAll | app/dashboard/orders/page.jsx:71-84 | an empty search with "all" statuses shows every order, under either filter |
| OrdersPage.LowerIdempotent | app/dashboard/orders/page.jsx:73 | lowercasing twice is lowercasing once |
| OrdersPage.SearchIgnoresTermCase | app/dashboard/orders/page.jsx:72-77 | the search gives the same answer for a term and its lowercase form |
| OrdersPage.DisplayStatus | app/dashboard/orders/page.jsx:20 | `status === null ? 'unfulfilled' : status` |
| OrdersPage.StatusBadge | app/dashboard/orders/page.jsx:19-45 | a null status reads as 'unfulfilled'. The style comes from the payment table for type 'payment' and from the fulfillment table otherwise; a status not in the table gets the default style. An empty status reads 'N/A'; any other text is the status with its first '_' made a space |
| OrdersPage.NullFulfillmentShownUnfulfilled | app/dashboard/orders/page.jsx:20 | a null fulfilment status is drawn exactly like 'unfulfilled' |
| OrdersPage.OnlyFirstUnderscoreReplaced | app/dashboard/orders/page.jsx:38 | only the first underscore of a status becomes a space |
| OrdersPage.UnfulfilledFilterMissesNullStatus | app/dashboard/orders/page.jsx:80-84 | an order with a null fulfilment status shows 'unfulfilled' but fails the status predicate as written for 'unfulfilled' |
| OrdersPage.StatusMatchesShownCorrect | app/dashboard/orders/page.jsx:80-84 | the corrected predicate adds to the one as written exactly the null-status orders under 'unfulfilled', and keeps every order whose fulfilment badge shows the filter |
| OrdersPage.HandlePageChange | app/dashboard/orders/page.jsx:110-114 | the new page is taken exactly when 0 < newPage <= totalPages, otherwise the page stays |
| OrdersPage.PageGuardKeepsRange | app/dashboard/orders/page.jsx:110-114 | from a page inside 1..totalPages no button leaves that range; "previous" on page 1 and "next" on the last page do nothing |
| OrdersPage.AverageOrder | app/dashboard/orders/page.jsx:217 | an average exists exactly when there are orders, so the card never divides by zero |
| OrdersPage.AverageBetweenBounds | app/dashboard/orders/page.jsx:217 | the average lies between the smallest and the largest order total |
| Layout.StoreName | app/dashboard/layout.jsx:60 | the name is never empty: the store's name when it is non-empty, else 'My Store' |
| Layout.Heads | app/dashboard/layout.jsx:61 | `map(word => word[0]).join('')`: the first character of every word, nothing for an empty word |
| Layout.Initials | app/dashboard/layout.jsx:61 | split on spaces, first characters, uppercased, first two kept |
| Layout.InitialsAreFirstWordStarts | app/dashboard/layout.jsx:61 | the initials have at most two characters: the uppercased first characters of the first two space-separated words; empty words from repeated or outer spaces contribute nothing |
| Layout.DefaultInitials | app/dashboard/layout.jsx:27-28 | the default name 'My Store' gives 'MS', the avatar's initial state |

## Left out

- Network I/O is not modelled. This covers every `fetch` to Shopify (including `testShopifyConnection`), JSON parsing, console logging and the `Response` objects. What a request returns is an input; only status codes and the summary values are modelled.
- The Prisma client is replaced by the map-based `Db`. "Database error" paths are not modelled: a failing upsert or lookup, and the resulting 500 in the webhook.
- A line item payload's `product_id` is required in the model. When it is absent, Prisma's treatment of an `undefined` filter (lib/shopify.js:137) is library behaviour and is not modelled.
- Money is an integer in the smallest currency unit. `parseFloat`, `new Date(...)` and currency and date formatting are not modelled; instants are opaque values. The average-order card is computed on reals.
- Case mapping (`toLowerCase`/`toUpperCase`) covers ASCII letters only. Strings are sequences of characters, with no UTF-16 surrogate handling.
- The `setTimeout` delays are not modelled (lib/shopify.js:229, app/api/cron/sync-data/route.js:31). Cron and webhooks are never run concurrently; only sequential interleavings of upserts are stated.
- Webhook.Dispatch: a body whose shape does not match its topic makes the model's handler write nothing. In the source, the handler may throw (caught) or write a partly undefined row, depending on which fields exist.
- Webhook.WebhookRequest: the `x-shopify-shop-domain` header is taken to be present. What a missing header (`null` in the lookup) does is Prisma behaviour.
- Cron.SyncAllStores: the `catch` branch that increments `errorCount` cannot be reached, because `importShopifyData` catches every error itself. The model proves `failed = 0` instead of exercising a failing store.
- ProductsList.ProductsListRoute requires a page of at least 1 and a non-negative limit. Prisma's treatment of a negative `skip` or `take`, and `parseInt` of a non-numeric parameter (NaN), are library behaviour. The store's products reach the route already in Prisma's default order, as a sequence.
- ProductsList.SortByRevenue is proved sorted and a permutation of its input. It is written as a stable insertion sort, as the engine's `Array.prototype.sort` is, but stability itself is not stated.
- OrdersPage.StatusBadge takes the status as `Option<string>`, so an `undefined` status (a field missing from the JSON) is not modelled. Object-prototype keys (`styles["toString"]`) are treated as absent.
- The orders page's data loading (`fetchOrders`, the token redirect) and the "Paid Orders" card are display code and are not modelled.

## Findings

| source | as written | input that shows it | evidently intended | confidence | as-written member | corrected member |
|---|---|---|---|---|---|---|
| app/dashboard/orders/page.jsx:80-84 | the status filter compares the stored `fulfillmentStatus` with the selected value, so choosing "Unfulfilled" (line 248) never lists an order whose fulfilment status is null | an order with `financialStatus = "paid"`, `fulfillmentStatus = null`: its badge reads "unfulfilled" (line 20), yet it is not listed under "Unfulfilled" | the filter treats a null fulfilment status as "unfulfilled", as the badge does | high, not executed | OrdersPage.UnfulfilledFilterListsNothing | OrdersPage.StatusMatchesShownCorrect |

The page's filter as written is `OrdersPage.FilteredOrders`, built on
`StatusMatches`. The corrected filter is `OrdersPage.FilteredOrdersShown`, built on
`StatusMatchesShown`. `FiltersDifferOnNullUnfulfilled` states exactly where the two
differ, and `UnfulfilledFilterListsNothing` shows the input of the finding on both.
