/** lib/shopify.js: the bulk importer, written as loops of upserts on the database
    object, each proved to produce the snapshot the reconciler's functions describe. */
module Shopify {
  import opened Wrappers
  import opened Schema
  import opened Payloads
  import opened Reconcile
  import opened Database

  /** `prisma.customer.upsert` on the natural key (customer id, store). */
  method UpsertCustomer(db: Db, storeId: Id, c: CustomerPayload)
    modifies db
    ensures db.Snapshot() == CustomerUpsert(old(db.Snapshot()), storeId, c)
  {
    var k := NaturalKey(c.id, storeId);
    if k in db.customers {
      db.customers := db.customers[k := UpdateCustomer(db.customers[k], c)];
    } else {
      db.customers := db.customers[k := CreateCustomer(db.nextId, c)];
      db.nextId := db.nextId + 1;
    }
  }

  /** `importCustomers`: upsert every fetched customer. */
  method ImportCustomers(db: Db, storeId: Id, fetched: Fetch<CustomerPayload>)
    requires db.Valid()
    modifies db
    ensures db.Valid()
    ensures db.Snapshot() == CustomersPhase(old(db.Snapshot()), storeId, fetched)
  {
    if fetched.Fetched? {
      var cs := fetched.records;
      ghost var t0 := db.Snapshot();
      for i := 0 to |cs|
        invariant db.Valid()
        invariant db.Snapshot() == CustomersFold(t0, storeId, cs[..i])
      {
        assert cs[..i + 1][..i] == cs[..i];
        CustomerUpsertWellFormed(db.Snapshot(), storeId, cs[i]);
        UpsertCustomer(db, storeId, cs[i]);
      }
      assert cs[..|cs|] == cs;
    }
  }

  /** `prisma.product.upsert` on the natural key (product id, store), for a product
      that has a variants array. */
  method UpsertProduct(db: Db, storeId: Id, p: ProductPayload)
    requires p.variants.Some?
    modifies db
    ensures db.Snapshot() == ProductUpsert(old(db.Snapshot()), storeId, p).value
  {
    var k := NaturalKey(p.id, storeId);
    var price := FirstVariantPrice(p.variants.value);
    if k in db.products {
      db.products := db.products[k := UpdateProduct(db.products[k], p.title, price)];
    } else {
      db.products := db.products[k := ProductRow(db.nextId, p.title, price)];
      db.nextId := db.nextId + 1;
    }
  }

  /** The customer lookup (`findFirst` on the customer's id in the store) followed by
      `prisma.order.upsert` of the bulk path; returns `createdOrder.id`. */
  method UpsertOrder(db: Db, storeId: Id, o: OrderPayload, number: nat) returns (orderId: Id)
    modifies db
    ensures (db.Snapshot(), orderId) == OrderRowUpsert(old(db.Snapshot()), storeId, o, number)
  {
    var link := SetNull;
    if o.customer.Some? {
      var ck := NaturalKey(o.customer.value, storeId);
      link := if ck in db.customers then SetTo(db.customers[ck].id) else LeaveUnset;
    }
    var k := NaturalKey(o.id, storeId);
    if k in db.orders {
      orderId := db.orders[k].id;
      db.orders := db.orders[k := BulkOrderUpdate(db.orders[k], link, o)];
    } else {
      orderId := db.nextId;
      db.orders := db.orders[k := BulkOrderCreate(db.nextId, link, o, number)];
      db.nextId := db.nextId + 1;
    }
  }

  /** The product lookup followed by `prisma.lineItem.upsert` under the order's
      internal id. */
  method UpsertLineItem(db: Db, storeId: Id, orderId: Id, item: LineItemPayload)
    modifies db
    ensures db.Snapshot() == LineItemUpsert(old(db.Snapshot()), storeId, orderId, item)
  {
    var pk := NaturalKey(item.productId, storeId);
    var productId := if pk in db.products then Some(db.products[pk].id) else None;
    var ik := NaturalKey(item.id, orderId);
    if ik in db.lineItems {
      db.lineItems := db.lineItems[ik := db.lineItems[ik].(quantity := item.quantity, price := item.price)];
    } else {
      db.lineItems := db.lineItems[ik := LineItemRow(db.nextId, productId, item.quantity, item.price, item.title)];
      db.nextId := db.nextId + 1;
    }
  }

  /** `importProducts`: upsert every fetched product; the try/catch encloses the whole
      loop, so a product without variants ends the phase. */
  method ImportProducts(db: Db, storeId: Id, fetched: Fetch<ProductPayload>)
    requires db.Valid()
    modifies db
    ensures db.Valid()
    ensures db.Snapshot() == ProductsPhase(old(db.Snapshot()), storeId, fetched)
  {
    if fetched.Fetched? {
      var ps := fetched.records;
      ghost var t0 := db.Snapshot();
      assert ps[..|ps|] == ps;
      var i := 0;
      while i < |ps|
        invariant 0 <= i <= |ps|
        invariant db.Valid()
        invariant ProductsFold(t0, storeId, ps[..i]) == (db.Snapshot(), false)
      {
        var p := ps[i];
        assert ps[..i + 1][..i] == ps[..i];
        if p.variants.None? {
          ProductsFoldAbortSticks(t0, storeId, ps, i + 1);
          break;
        }
        ProductUpsertWellFormed(db.Snapshot(), storeId, p);
        UpsertProduct(db, storeId, p);
        i := i + 1;
      }
    }
  }

  /** The body of the `try` block for one order: resolve the customer link, upsert
      the order row, then upsert its line items under the row's internal id. An
      error stops the order where it occurs; what was written stays. */
  method ImportOneOrder(db: Db, storeId: Id, o: OrderPayload)
    modifies db
    ensures db.Snapshot() == ImportOrder(old(db.Snapshot()), storeId, o)
  {
    if o.orderNumber.None? {
      // `order.order_number.toString()` throws before the upsert is issued
      return;
    }
    var orderId := UpsertOrder(db, storeId, o, o.orderNumber.value);
    if o.lineItems.None? {
      // iterating the missing `line_items` throws after the order row was saved
      return;
    }
    var items := o.lineItems.value;
    ghost var saved := db.Snapshot();
    for j := 0 to |items|
      invariant db.Snapshot() == ItemsFold(saved, storeId, orderId, items[..j])
    {
      assert items[..j + 1][..j] == items[..j];
      UpsertLineItem(db, storeId, orderId, items[j]);
    }
    assert items[..|items|] == items;
  }

  /** `importOrders`: a failed fetch returns early; otherwise every fetched order is
      imported in turn, and an error while saving one is caught so the loop goes on. */
  method ImportOrders(db: Db, storeId: Id, fetched: Fetch<OrderPayload>)
    requires db.Valid()
    modifies db
    ensures db.Valid()
    ensures db.Snapshot() == OrdersPhase(old(db.Snapshot()), storeId, fetched)
  {
    if fetched.FetchFailed? {
      return;
    }
    var os := fetched.records;
    ghost var t0 := db.Snapshot();
    for i := 0 to |os|
      invariant db.Valid()
      invariant db.Snapshot() == OrdersFold(t0, storeId, os[..i])
    {
      assert os[..i + 1][..i] == os[..i];
      ImportOrderWellFormed(db.Snapshot(), storeId, os[i]);
      ImportOneOrder(db, storeId, os[i]);
    }
    assert os[..|os|] == os;
  }

  /** `importShopifyData`: the three phases in their fixed order, then the stamp. */
  method ImportShopifyData(db: Db, storeId: Id, feed: Feed, now: Instant)
    requires db.Valid()
    modifies db
    ensures db.Valid()
    ensures db.Snapshot() == FullImport(old(db.Snapshot()), storeId, feed, now)
  {
    ghost var t0 := db.Snapshot();
    ImportCustomers(db, storeId, feed.customers);
    ImportProducts(db, storeId, feed.products);
    ImportOrders(db, storeId, feed.orders);
    db.stores := Stamp(db.stores, storeId, now);
    FullImportWellFormed(t0, storeId, feed, now);
  }

  /** The topics `registerWebhooks` subscribes to, in order. */
  const WebhookTopics: seq<string> := [
    "orders/create", "orders/updated", "orders/paid", "orders/cancelled",
    "customers/create", "customers/update", "products/create", "products/update"
  ]

  /** The `webhook` object posted for one topic. */
  datatype Subscription = Subscription(topic: string, address: string, format: string)

  function SubscriptionFor(topic: string, webhookUrl: string): Subscription {
    Subscription(topic, webhookUrl + "/api/shopify/webhook", "json")
  }

  /** What one subscription request came to: an ok response, a non-ok response, or a
      thrown error (network failure). */
  datatype Reply = Accepted | Refused | Unreachable

  /** How many of the requests were answered with an ok response. */
  function CountAccepted(requests: seq<Subscription>, reply: Subscription -> Reply): (n: nat)
    ensures n <= |requests|
    decreases |requests|
  {
    if requests == [] then 0
    else CountAccepted(requests[..|requests| - 1], reply) + (if reply(requests[|requests| - 1]).Accepted? then 1 else 0)
  }

  datatype RegistrationCounts = RegistrationCounts(successCount: nat, errorCount: nat)

  /** `registerWebhooks`: one subscription request per topic, in order, each counted
      as a success or an error. `reply` stands for the Shopify API. */
  method RegisterWebhooks(webhookUrl: string, reply: Subscription -> Reply)
    returns (counts: RegistrationCounts, ghost sent: seq<Subscription>)
    ensures |sent| == |WebhookTopics| == 8
    ensures forall i :: 0 <= i < |sent| ==> sent[i] == SubscriptionFor(WebhookTopics[i], webhookUrl)
    ensures counts.successCount == CountAccepted(sent, reply)
    ensures counts.successCount + counts.errorCount == |WebhookTopics|
  {
    var successCount, errorCount := 0, 0;
    sent := [];
    for i := 0 to |WebhookTopics|
      invariant |sent| == i
      invariant forall j :: 0 <= j < i ==> sent[j] == SubscriptionFor(WebhookTopics[j], webhookUrl)
      invariant successCount == CountAccepted(sent, reply)
      invariant successCount + errorCount == i
    {
      var request := SubscriptionFor(WebhookTopics[i], webhookUrl);
      var r := reply(request);
      sent := sent + [request];
      assert sent[..|sent| - 1] == sent[..i];
      if r.Accepted? {
        successCount := successCount + 1;
      } else {
        errorCount := errorCount + 1;
      }
    }
    counts := RegistrationCounts(successCount, errorCount);
  }
}
