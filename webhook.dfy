/** app/api/shopify/webhook/route.js: the webhook ingestor. The response code and the
    topic dispatch are functions; the three handlers are methods on the database. */
module Webhook {
  import opened Wrappers
  import opened Text
  import opened Schema
  import opened Payloads
  import opened Reconcile
  import opened Database
  import Shopify

  /** A parsed webhook body, seen as the resource it describes. */
  datatype Body = OrderBody(order: OrderPayload) | CustomerBody(customer: CustomerPayload) | ProductBody(product: ProductPayload)

  /** The parts of the request the handler reads: the `x-shopify-topic` header (absent
      as `None`), the `x-shopify-shop-domain` header, and the body (`None` when it is
      not valid JSON). */
  datatype WebhookRequest = WebhookRequest(topic: Option<string>, shopDomain: string, body: Option<Body>)

  datatype Handler = OrderHandler | CustomerHandler | ProductHandler | Unhandled

  /** The topic `switch`. */
  function Route(topic: Option<string>): (h: Handler)
    ensures h == OrderHandler <==> topic == Some("orders/create") || topic == Some("orders/updated")
    ensures h == CustomerHandler <==> topic == Some("customers/create") || topic == Some("customers/update")
    ensures h == ProductHandler <==> topic == Some("products/create") || topic == Some("products/update")
  {
    match topic
    case Some("orders/create") => OrderHandler
    case Some("orders/updated") => OrderHandler
    case Some("customers/create") => CustomerHandler
    case Some("customers/update") => CustomerHandler
    case Some("products/create") => ProductHandler
    case Some("products/update") => ProductHandler
    case _ => Unhandled
  }

  /** Of the eight topics the installer subscribes to, exactly `orders/paid` and
      `orders/cancelled` reach no handler. */
  lemma RegisteredTopicsRouting()
    ensures forall i :: 0 <= i < |Shopify.WebhookTopics| ==>
      (Route(Some(Shopify.WebhookTopics[i])) == Unhandled <==>
       Shopify.WebhookTopics[i] == "orders/paid" || Shopify.WebhookTopics[i] == "orders/cancelled")
  {
    forall i | 0 <= i < |Shopify.WebhookTopics|
      ensures Route(Some(Shopify.WebhookTopics[i])) == Unhandled <==>
        Shopify.WebhookTopics[i] == "orders/paid" || Shopify.WebhookTopics[i] == "orders/cancelled"
    {
      var topic := Shopify.WebhookTopics[i];
      assert i == 0 || i == 1 || i == 2 || i == 3 || i == 4 || i == 5 || i == 6 || i == 7;
      assert "orders/paid" != "orders/create" && "orders/paid" != "orders/updated";
      assert "orders/cancelled" != "orders/create" && "orders/cancelled" != "orders/updated";
    }
  }

  /** `prisma.store.findFirst({ where: { domain } })`: the first store in listing order
      with that domain. */
  function FindStore(stores: seq<StoreRow>, domain: string): (r: Option<StoreRow>)
    ensures r.None? <==> forall i :: 0 <= i < |stores| ==> stores[i].domain != domain
    ensures r.Some? ==> r.value.domain == domain
    ensures r.Some? ==>
      exists i :: 0 <= i < |stores| && stores[i] == r.value && (forall j :: 0 <= j < i ==> stores[j].domain != domain)
    decreases |stores|
  {
    if stores == [] then None
    else if stores[0].domain == domain then Some(stores[0])
    else
      var r := FindStore(stores[1..], domain);
      assert forall i :: 1 <= i < |stores| ==> stores[i] == stores[1..][i - 1];
      r
  }

  // ----------------------------------------------------------------- handlers

  /** The order webhook's upsert: its `update` and `create` blocks carry customerId,
      orderNumber, totalPrice and orderDate only. */
  function OrderWebhookUpsert(t: Tables, storeId: Id, o: OrderPayload, number: nat): (r: Tables)
    ensures var k := NaturalKey(o.id, storeId); var link := CustomerLink(t, storeId, o.customer);
      && r.orders.Keys == t.orders.Keys + {k}
      && r.orders[k].orderNumber == DecimalString(number)
      && r.orders[k].totalPrice == o.totalPrice && r.orders[k].orderDate == o.createdAt
      && (k in t.orders ==>
            && r.orders[k].id == t.orders[k].id
            && r.orders[k].customerId == ApplyLink(link, t.orders[k].customerId)
            && r.orders[k].financialStatus == t.orders[k].financialStatus
            && r.orders[k].fulfillmentStatus == t.orders[k].fulfillmentStatus
            && r.nextId == t.nextId)
      && (k !in t.orders ==>
            && r.orders[k].id == t.nextId
            && r.orders[k].customerId == ApplyLink(link, None)
            && r.orders[k].financialStatus == None && r.orders[k].fulfillmentStatus == None
            && r.nextId == t.nextId + 1)
      && (forall k' :: k' in t.orders && k' != k ==> r.orders[k'] == t.orders[k'])
      && r.stores == t.stores && r.customers == t.customers && r.products == t.products
      && r.lineItems == t.lineItems
  {
    var k := NaturalKey(o.id, storeId);
    var link := CustomerLink(t, storeId, o.customer);
    if k in t.orders then
      var row := t.orders[k];
      t.(orders := t.orders[k := row.(customerId := ApplyLink(link, row.customerId), orderNumber := DecimalString(number),
                                      totalPrice := o.totalPrice, orderDate := o.createdAt)])
    else
      t.(orders := t.orders[k := OrderRow(t.nextId, ApplyLink(link, None), DecimalString(number), o.totalPrice,
                                          o.createdAt, None, None)],
         nextId := t.nextId + 1)
  }

  /** `handleOrderWebhook`: a missing `order_number` throws while the upsert is built
      and is caught, so nothing is written. */
  function OrderWebhook(t: Tables, storeId: Id, o: OrderPayload): Tables {
    match o.orderNumber
    case None => t
    case Some(number) => OrderWebhookUpsert(t, storeId, o, number)
  }

  /** `handleProductWebhook`: a product without a variants array throws and is caught. */
  function ProductWebhook(t: Tables, storeId: Id, p: ProductPayload): Tables {
    ProductUpsert(t, storeId, p).GetOr(t)
  }

  /** What the selected handler writes. A body that is not the resource the topic
      names makes the handler throw before its upsert; the error is caught. */
  function Dispatch(t: Tables, storeId: Id, h: Handler, data: Body): Tables {
    match (h, data)
    case (OrderHandler, OrderBody(o)) => OrderWebhook(t, storeId, o)
    case (CustomerHandler, CustomerBody(c)) => CustomerUpsert(t, storeId, c)
    case (ProductHandler, ProductBody(p)) => ProductWebhook(t, storeId, p)
    case _ => t
  }

  /** The status code of `POST`: 500 for an unparsable body (before any lookup), 404
      for an unknown shop domain, and 200 otherwise, whatever the handler did. */
  function ResponseStatus(stores: seq<StoreRow>, req: WebhookRequest): (status: nat)
    ensures status == 500 <==> req.body.None?
    ensures status == 404 <==> req.body.Some? && FindStore(stores, req.shopDomain).None?
    ensures status == 200 <==> req.body.Some? && FindStore(stores, req.shopDomain).Some?
  {
    if req.body.None? then 500
    else if FindStore(stores, req.shopDomain).None? then 404
    else 200
  }

  /** What `POST` writes. */
  function WebhookEffect(t: Tables, req: WebhookRequest): Tables {
    match req.body
    case None => t
    case Some(data) =>
      match FindStore(t.stores, req.shopDomain)
      case None => t
      case Some(store) => Dispatch(t, store.id, Route(req.topic), data)
  }

  method HandleOrderWebhook(db: Db, storeId: Id, data: Body)
    modifies db
    ensures db.Snapshot() == Dispatch(old(db.Snapshot()), storeId, OrderHandler, data)
  {
    if !data.OrderBody? || data.order.orderNumber.None? {
      return;
    }
    var o := data.order;
    var link := SetNull;
    if o.customer.Some? {
      var ck := NaturalKey(o.customer.value, storeId);
      link := if ck in db.customers then SetTo(db.customers[ck].id) else LeaveUnset;
    }
    var number := DecimalString(o.orderNumber.value);
    var k := NaturalKey(o.id, storeId);
    if k in db.orders {
      var row := db.orders[k];
      db.orders := db.orders[k := row.(customerId := ApplyLink(link, row.customerId), orderNumber := number,
                                       totalPrice := o.totalPrice, orderDate := o.createdAt)];
    } else {
      db.orders := db.orders[k := OrderRow(db.nextId, ApplyLink(link, None), number, o.totalPrice, o.createdAt, None, None)];
      db.nextId := db.nextId + 1;
    }
  }

  method HandleCustomerWebhook(db: Db, storeId: Id, data: Body)
    modifies db
    ensures db.Snapshot() == Dispatch(old(db.Snapshot()), storeId, CustomerHandler, data)
  {
    if data.CustomerBody? {
      Shopify.UpsertCustomer(db, storeId, data.customer);
    }
  }

  method HandleProductWebhook(db: Db, storeId: Id, data: Body)
    modifies db
    ensures db.Snapshot() == Dispatch(old(db.Snapshot()), storeId, ProductHandler, data)
  {
    if data.ProductBody? && data.product.variants.Some? {
      Shopify.UpsertProduct(db, storeId, data.product);
    }
  }

  /** `POST`: parse, look the shop up, run the topic's handler, answer. */
  method Post(db: Db, req: WebhookRequest) returns (status: nat)
    requires db.Valid()
    modifies db
    ensures db.Valid()
    ensures status == ResponseStatus(old(db.stores), req)
    ensures db.Snapshot() == WebhookEffect(old(db.Snapshot()), req)
  {
    if req.body.None? {
      return 500;
    }
    var store := FindStore(db.stores, req.shopDomain);
    if store.None? {
      return 404;
    }
    var data := req.body.value;
    WebhookWellFormed(db.Snapshot(), req);
    match Route(req.topic) {
      case OrderHandler => HandleOrderWebhook(db, store.value.id, data);
      case CustomerHandler => HandleCustomerWebhook(db, store.value.id, data);
      case ProductHandler => HandleProductWebhook(db, store.value.id, data);
      case Unhandled =>
    }
    status := 200;
  }

  // ------------------------------------------------------------------- lemmas

  lemma OrderWebhookWellFormed(t: Tables, storeId: Id, o: OrderPayload)
    requires WellFormed(t)
    ensures WellFormed(OrderWebhook(t, storeId, o))
  {
    if o.orderNumber.Some? {
      OrderWriteWellFormed(t, OrderWebhookUpsert(t, storeId, o, o.orderNumber.value), NaturalKey(o.id, storeId));
    }
  }

  /** Every request keeps the store well formed. */
  lemma WebhookWellFormed(t: Tables, req: WebhookRequest)
    requires WellFormed(t)
    ensures WellFormed(WebhookEffect(t, req))
  {
    if req.body.Some? && FindStore(t.stores, req.shopDomain).Some? {
      var storeId := FindStore(t.stores, req.shopDomain).value.id;
      match (Route(req.topic), req.body.value)
      case (OrderHandler, OrderBody(o)) => OrderWebhookWellFormed(t, storeId, o);
      case (CustomerHandler, CustomerBody(c)) => CustomerUpsertWellFormed(t, storeId, c);
      case (ProductHandler, ProductBody(p)) =>
        if p.variants.Some? {
          ProductUpsertWellFormed(t, storeId, p);
        }
      case _ =>
    }
  }

  /** A request answered with anything but 200 (bad body, unknown shop) writes nothing;
      so does a request whose topic has no handler. */
  lemma RejectedOrUnhandledWritesNothing(t: Tables, req: WebhookRequest)
    requires ResponseStatus(t.stores, req) != 200 || Route(req.topic) == Unhandled
    ensures WebhookEffect(t, req) == t
  {
  }

  /** No webhook changes the store table, so the lookup of a redelivered event finds
      the same store. */
  lemma WebhookKeepsStores(t: Tables, req: WebhookRequest)
    ensures WebhookEffect(t, req).stores == t.stores
  {
    if req.body.Some? && FindStore(t.stores, req.shopDomain).Some? {
      var storeId := FindStore(t.stores, req.shopDomain).value.id;
      match (Route(req.topic), req.body.value)
      case (ProductHandler, ProductBody(p)) =>
      case _ =>
    }
  }

  lemma OrderWebhookIdempotent(t: Tables, storeId: Id, o: OrderPayload)
    ensures OrderWebhook(OrderWebhook(t, storeId, o), storeId, o) == OrderWebhook(t, storeId, o)
  {
    if o.orderNumber.Some? {
      var once := OrderWebhook(t, storeId, o);
      var k := NaturalKey(o.id, storeId);
      var link := CustomerLink(t, storeId, o.customer);
      assert CustomerLink(once, storeId, o.customer) == link;
      var row := once.orders[k];
      assert ApplyLink(link, row.customerId) == row.customerId;
      assert once.orders[k := row] == once.orders;
    }
  }

  /** Redelivering the same event (Shopify retries) leaves the store as one delivery did. */
  lemma WebhookRedeliveryIdempotent(t: Tables, req: WebhookRequest)
    ensures WebhookEffect(WebhookEffect(t, req), req) == WebhookEffect(t, req)
  {
    WebhookKeepsStores(t, req);
    if req.body.Some? && FindStore(t.stores, req.shopDomain).Some? {
      var storeId := FindStore(t.stores, req.shopDomain).value.id;
      match (Route(req.topic), req.body.value)
      case (OrderHandler, OrderBody(o)) => OrderWebhookIdempotent(t, storeId, o);
      case (CustomerHandler, CustomerBody(c)) => CustomerUpsertIdempotent(t, storeId, c);
      case (ProductHandler, ProductBody(p)) =>
        if p.variants.Some? {
          ProductUpsertIdempotent(t, storeId, p);
        }
      case _ =>
    }
  }

  /** The customer webhook writes what the bulk import writes for a page holding only
      that customer. */
  lemma CustomerWebhookMatchesBulk(t: Tables, storeId: Id, c: CustomerPayload)
    ensures Dispatch(t, storeId, CustomerHandler, CustomerBody(c)) == CustomersFold(t, storeId, [c])
  {
    assert [c][..0] == [];
  }

  /** The product webhook writes what the bulk import writes for a page holding only
      that product, including the no-variants case, where both write nothing. */
  lemma ProductWebhookMatchesBulk(t: Tables, storeId: Id, p: ProductPayload)
    ensures Dispatch(t, storeId, ProductHandler, ProductBody(p)) == ProductsFold(t, storeId, [p]).0
  {
    assert [p][..0] == [];
  }

  /** Both order paths resolve the customer link the same way. */
  lemma OrderWebhookLinkMatchesBulk(t: Tables, storeId: Id, o: OrderPayload, number: nat)
    ensures var k := NaturalKey(o.id, storeId);
      k in OrderWebhookUpsert(t, storeId, o, number).orders && k in OrderRowUpsert(t, storeId, o, number).0.orders
      && OrderWebhookUpsert(t, storeId, o, number).orders[k].customerId
         == OrderRowUpsert(t, storeId, o, number).0.orders[k].customerId
  {
  }

  /** An `orders/updated` event after a bulk import does not erase the statuses the
      bulk import stored, nor any of its line items. */
  lemma BulkStatusesSurviveWebhook(t: Tables, storeId: Id, o: OrderPayload, later: OrderPayload)
    requires o.orderNumber.Some? && later.orderNumber.Some? && later.id == o.id
    ensures var k := NaturalKey(o.id, storeId);
      var bulk := ImportOrder(t, storeId, o); var r := OrderWebhook(bulk, storeId, later);
      && k in r.orders
      && r.orders[k].financialStatus == o.financialStatus
      && r.orders[k].fulfillmentStatus == o.fulfillmentStatus
      && r.lineItems == bulk.lineItems
  {
    var (u, orderId) := OrderRowUpsert(t, storeId, o, o.orderNumber.value);
    if o.lineItems.Some? {
      ItemsFoldIgnoresOrders(u, u.orders, storeId, orderId, o.lineItems.value);
      assert u.(orders := u.orders) == u;
    }
  }
}
