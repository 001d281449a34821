/** The reconciler of lib/shopify.js as pure functions on a `Tables` snapshot: one
    function per upsert call (its `where`, `update` and `create` blocks), and one per
    import phase, folding those upserts over a fetched page in order. The imperative
    importer in module Shopify is proved to produce exactly these snapshots. */
module Reconcile {
  import opened Wrappers
  import opened Text
  import opened Schema
  import opened Payloads

  /** `{ shopifyId: id.toString(), <owner> }`: the natural key of a row. */
  function NaturalKey(externalId: nat, owner: Id): (k: Key)
    ensures k.1 == owner
  {
    (DecimalString(externalId), owner)
  }

  /** Different external ids (or owners) never meet in one key. */
  lemma NaturalKeyInjective(a: nat, ownerA: Id, b: nat, ownerB: Id)
    requires NaturalKey(a, ownerA) == NaturalKey(b, ownerB)
    ensures a == b && ownerA == ownerB
  {
    DecimalStringInjective(a, b);
  }

  /** `parseFloat(x || 0)`: a missing amount is stored as zero. */
  function OrZero(m: Option<Money>): Money {
    m.GetOr(0)
  }

  // ---------------------------------------------------------------- customers

  /** The `update` block of the customer upsert. */
  function UpdateCustomer(row: CustomerRow, c: CustomerPayload): CustomerRow {
    row.(email := c.email, firstName := c.firstName, lastName := c.lastName, totalSpent := OrZero(c.totalSpent))
  }

  /** The `create` block of the customer upsert. */
  function CreateCustomer(id: Id, c: CustomerPayload): CustomerRow {
    CustomerRow(id, c.email, c.firstName, c.lastName, OrZero(c.totalSpent))
  }

  /** The row carries the payload's email, names and spend (a missing spend as 0). */
  predicate CustomerReflects(row: CustomerRow, c: CustomerPayload) {
    row.email == c.email && row.firstName == c.firstName && row.lastName == c.lastName
    && row.totalSpent == OrZero(c.totalSpent)
  }

  /** `prisma.customer.upsert` keyed by (customer id string, storeId). */
  function CustomerUpsert(t: Tables, storeId: Id, c: CustomerPayload): (r: Tables)
    ensures var k := NaturalKey(c.id, storeId);
      && r.customers.Keys == t.customers.Keys + {k}
      && CustomerReflects(r.customers[k], c)
      && (k in t.customers ==> r.customers[k].id == t.customers[k].id && r.nextId == t.nextId)
      && (k !in t.customers ==> r.customers[k].id == t.nextId && r.nextId == t.nextId + 1)
      && (forall k' :: k' in t.customers && k' != k ==> r.customers[k'] == t.customers[k'])
    ensures r.stores == t.stores && r.products == t.products && r.orders == t.orders
      && r.lineItems == t.lineItems
  {
    var k := NaturalKey(c.id, storeId);
    if k in t.customers then t.(customers := t.customers[k := UpdateCustomer(t.customers[k], c)])
    else t.(customers := t.customers[k := CreateCustomer(t.nextId, c)], nextId := t.nextId + 1)
  }

  /** Applying the same customer payload twice is the same as applying it once. */
  lemma CustomerUpsertIdempotent(t: Tables, storeId: Id, c: CustomerPayload)
    ensures CustomerUpsert(CustomerUpsert(t, storeId, c), storeId, c) == CustomerUpsert(t, storeId, c)
  {
    var r := CustomerUpsert(t, storeId, c);
    var k := NaturalKey(c.id, storeId);
    assert r.customers[k := UpdateCustomer(r.customers[k], c)] == r.customers;
  }

  lemma CustomerUpsertWellFormed(t: Tables, storeId: Id, c: CustomerPayload)
    requires WellFormed(t)
    ensures WellFormed(CustomerUpsert(t, storeId, c))
  {
    var r := CustomerUpsert(t, storeId, c);
    assert forall id :: HasOrder(t, id) ==> HasOrder(r, id);
  }

  /** The customer phase: upsert every fetched customer in order; nothing on a failed fetch. */
  function CustomersFold(t: Tables, storeId: Id, cs: seq<CustomerPayload>): Tables
    decreases |cs|
  {
    if cs == [] then t else CustomerUpsert(CustomersFold(t, storeId, cs[..|cs| - 1]), storeId, cs[|cs| - 1])
  }

  function CustomersPhase(t: Tables, storeId: Id, f: Fetch<CustomerPayload>): Tables {
    match f
    case FetchFailed => t
    case Fetched(cs) => CustomersFold(t, storeId, cs)
  }

  /** After the customer phase every fetched customer has exactly one row, holding the
      values of the LAST payload with its id. */
  lemma {:induction false} CustomersFoldEffect(t: Tables, storeId: Id, cs: seq<CustomerPayload>, j: nat)
    requires j < |cs|
    requires forall i :: j < i < |cs| ==> cs[i].id != cs[j].id
    ensures var r := CustomersFold(t, storeId, cs);
      NaturalKey(cs[j].id, storeId) in r.customers
      && CustomerReflects(r.customers[NaturalKey(cs[j].id, storeId)], cs[j])
    decreases |cs|
  {
    var n := |cs|;
    var pre := cs[..n - 1];
    if j < n - 1 {
      CustomersFoldEffect(t, storeId, pre, j);
      if NaturalKey(cs[n - 1].id, storeId) == NaturalKey(cs[j].id, storeId) {
        NaturalKeyInjective(cs[n - 1].id, storeId, cs[j].id, storeId);
      }
    }
  }

  lemma {:induction false} CustomersFoldFrame(t: Tables, storeId: Id, cs: seq<CustomerPayload>)
    ensures var r := CustomersFold(t, storeId, cs);
      r.stores == t.stores && r.products == t.products && r.orders == t.orders && r.lineItems == t.lineItems
    decreases |cs|
  {
    if cs != [] {
      CustomersFoldFrame(t, storeId, cs[..|cs| - 1]);
    }
  }

  lemma {:induction false} CustomersFoldWellFormed(t: Tables, storeId: Id, cs: seq<CustomerPayload>)
    requires WellFormed(t)
    ensures WellFormed(CustomersFold(t, storeId, cs))
    decreases |cs|
  {
    if cs != [] {
      CustomersFoldWellFormed(t, storeId, cs[..|cs| - 1]);
      CustomerUpsertWellFormed(CustomersFold(t, storeId, cs[..|cs| - 1]), storeId, cs[|cs| - 1]);
    }
  }

  // ---------------------------------------------------------------- products

  /** `product.variants[0]?.price || 0` for a present variants array. */
  function FirstVariantPrice(variants: seq<Variant>): Money {
    if |variants| == 0 then 0 else OrZero(variants[0].price)
  }

  function UpdateProduct(row: ProductRow, title: Option<string>, price: Money): ProductRow {
    row.(title := title, price := price)
  }

  /** `prisma.product.upsert` keyed by (product id string, storeId). `None` when the
      payload has no variants array: `product.variants[0]` then throws a TypeError
      before the upsert is issued. */
  function ProductUpsert(t: Tables, storeId: Id, p: ProductPayload): (r: Option<Tables>)
    ensures r.None? <==> p.variants.None?
    ensures r.Some? ==> var k := NaturalKey(p.id, storeId); var u := r.value;
      && u.products.Keys == t.products.Keys + {k}
      && u.products[k].title == p.title
      && u.products[k].price == FirstVariantPrice(p.variants.value)
      && (k in t.products ==> u.products[k].id == t.products[k].id && u.nextId == t.nextId)
      && (k !in t.products ==> u.products[k].id == t.nextId && u.nextId == t.nextId + 1)
      && (forall k' :: k' in t.products && k' != k ==> u.products[k'] == t.products[k'])
      && u.stores == t.stores && u.customers == t.customers && u.orders == t.orders
      && u.lineItems == t.lineItems
  {
    match p.variants
    case None => None
    case Some(vs) =>
      var k := NaturalKey(p.id, storeId);
      var price := FirstVariantPrice(vs);
      if k in t.products then Some(t.(products := t.products[k := UpdateProduct(t.products[k], p.title, price)]))
      else Some(t.(products := t.products[k := ProductRow(t.nextId, p.title, price)], nextId := t.nextId + 1))
  }

  /** Applying the same product payload twice is the same as applying it once. */
  lemma ProductUpsertIdempotent(t: Tables, storeId: Id, p: ProductPayload)
    requires p.variants.Some?
    ensures ProductUpsert(t, storeId, p).Some?
    ensures ProductUpsert(ProductUpsert(t, storeId, p).value, storeId, p) == ProductUpsert(t, storeId, p)
  {
    var r := ProductUpsert(t, storeId, p).value;
    var k := NaturalKey(p.id, storeId);
    assert r.products[k := UpdateProduct(r.products[k], p.title, FirstVariantPrice(p.variants.value))] == r.products;
  }

  lemma ProductUpsertWellFormed(t: Tables, storeId: Id, p: ProductPayload)
    requires WellFormed(t) && p.variants.Some?
    ensures WellFormed(ProductUpsert(t, storeId, p).value)
  {
    var r := ProductUpsert(t, storeId, p).value;
    assert forall id :: HasOrder(t, id) ==> HasOrder(r, id);
  }

  /** The product loop has no per-product catch: the first product without a variants
      array aborts the rest of the page. The flag says whether that happened. */
  function ProductsFold(t: Tables, storeId: Id, ps: seq<ProductPayload>): (Tables, bool)
    decreases |ps|
  {
    if ps == [] then (t, false)
    else
      var (u, aborted) := ProductsFold(t, storeId, ps[..|ps| - 1]);
      if aborted then (u, true)
      else match ProductUpsert(u, storeId, ps[|ps| - 1])
        case None => (u, true)
        case Some(v) => (v, false)
  }

  function ProductsPhase(t: Tables, storeId: Id, f: Fetch<ProductPayload>): Tables {
    match f
    case FetchFailed => t
    case Fetched(ps) => ProductsFold(t, storeId, ps).0
  }

  lemma {:induction false} ProductsFoldNoAbort(t: Tables, storeId: Id, ps: seq<ProductPayload>)
    requires forall i :: 0 <= i < |ps| ==> ps[i].variants.Some?
    ensures !ProductsFold(t, storeId, ps).1
    decreases |ps|
  {
    if ps != [] {
      ProductsFoldNoAbort(t, storeId, ps[..|ps| - 1]);
    }
  }

  /** The products before the first one without variants are all written; that one and
      every later one are not. */
  lemma {:induction false} ProductsFoldStopsAtFirstBad(t: Tables, storeId: Id, ps: seq<ProductPayload>, j: nat)
    requires j < |ps| && ps[j].variants.None?
    requires forall i :: 0 <= i < j ==> ps[i].variants.Some?
    ensures ProductsFold(t, storeId, ps) == (ProductsFold(t, storeId, ps[..j]).0, true)
    decreases |ps|
  {
    var n := |ps|;
    var pre := ps[..n - 1];
    if j == n - 1 {
      assert pre == ps[..j];
      ProductsFoldNoAbort(t, storeId, pre);
    } else {
      ProductsFoldStopsAtFirstBad(t, storeId, pre, j);
      assert pre[..j] == ps[..j];
    }
  }

  /** Once the product loop has aborted, the rest of the page is not looked at. */
  lemma {:induction false} ProductsFoldAbortSticks(t: Tables, storeId: Id, ps: seq<ProductPayload>, j: nat)
    requires j <= |ps| && ProductsFold(t, storeId, ps[..j]).1
    ensures ProductsFold(t, storeId, ps) == ProductsFold(t, storeId, ps[..j])
    decreases |ps|
  {
    if j < |ps| {
      var pre := ps[..|ps| - 1];
      assert pre[..j] == ps[..j];
      ProductsFoldAbortSticks(t, storeId, pre, j);
    } else {
      assert ps[..j] == ps;
    }
  }

  lemma {:induction false} ProductsFoldWellFormed(t: Tables, storeId: Id, ps: seq<ProductPayload>)
    requires WellFormed(t)
    ensures WellFormed(ProductsFold(t, storeId, ps).0)
    decreases |ps|
  {
    if ps != [] {
      var pre := ps[..|ps| - 1];
      ProductsFoldWellFormed(t, storeId, pre);
      var (u, aborted) := ProductsFold(t, storeId, pre);
      if !aborted && ps[|ps| - 1].variants.Some? {
        ProductUpsertWellFormed(u, storeId, ps[|ps| - 1]);
      }
    }
  }

  lemma {:induction false} ProductsFoldFrame(t: Tables, storeId: Id, ps: seq<ProductPayload>)
    ensures var r := ProductsFold(t, storeId, ps).0;
      r.stores == t.stores && r.customers == t.customers && r.orders == t.orders && r.lineItems == t.lineItems
    decreases |ps|
  {
    if ps != [] {
      ProductsFoldFrame(t, storeId, ps[..|ps| - 1]);
    }
  }

  // ---------------------------------------------------------------- orders

  /** What a Prisma data object does with `customerId`: `SetNull` for JavaScript
      `null`, `SetTo` for an id, and `LeaveUnset` for `undefined`, which Prisma skips,
      so an update keeps the stored link and a create stores null. */
  datatype LinkWrite = SetNull | SetTo(id: Id) | LeaveUnset

  function ApplyLink(w: LinkWrite, current: Option<Id>): Option<Id> {
    match w
    case SetNull => None
    case SetTo(id) => Some(id)
    case LeaveUnset => current
  }

  /** `customerId`: null without an embedded customer, otherwise `existingCustomer?.id`,
      which is `undefined` when no customer row with that id exists in the store. */
  function CustomerLink(t: Tables, storeId: Id, customer: Option<nat>): LinkWrite {
    match customer
    case None => SetNull
    case Some(cid) =>
      var k := NaturalKey(cid, storeId);
      if k in t.customers then SetTo(t.customers[k].id) else LeaveUnset
  }

  /** The `update` block of the bulk order upsert. */
  function BulkOrderUpdate(row: OrderRow, link: LinkWrite, o: OrderPayload): OrderRow {
    row.(customerId := ApplyLink(link, row.customerId), totalPrice := o.totalPrice, orderDate := o.createdAt,
         financialStatus := o.financialStatus, fulfillmentStatus := o.fulfillmentStatus)
  }

  /** The `create` block of the bulk order upsert. */
  function BulkOrderCreate(id: Id, link: LinkWrite, o: OrderPayload, number: nat): OrderRow {
    OrderRow(id, ApplyLink(link, None), DecimalString(number), o.totalPrice, o.createdAt,
             o.financialStatus, o.fulfillmentStatus)
  }

  /** `prisma.order.upsert` of the bulk path, for an order whose `order_number` is
      `number`; also returns the internal id of the upserted row (`createdOrder.id`). */
  function OrderRowUpsert(t: Tables, storeId: Id, o: OrderPayload, number: nat): (r: (Tables, Id))
    ensures var k := NaturalKey(o.id, storeId); var u := r.0;
      && u.orders.Keys == t.orders.Keys + {k}
      && r.1 == u.orders[k].id
      && u.orders[k].totalPrice == o.totalPrice && u.orders[k].orderDate == o.createdAt
      && u.orders[k].financialStatus == o.financialStatus
      && u.orders[k].fulfillmentStatus == o.fulfillmentStatus
      && (k in t.orders ==>
            && u.orders[k].id == t.orders[k].id
            && u.orders[k].orderNumber == t.orders[k].orderNumber
            && u.orders[k].customerId == ApplyLink(CustomerLink(t, storeId, o.customer), t.orders[k].customerId)
            && u.nextId == t.nextId)
      && (k !in t.orders ==>
            && u.orders[k].id == t.nextId
            && u.orders[k].orderNumber == DecimalString(number)
            && u.orders[k].customerId == ApplyLink(CustomerLink(t, storeId, o.customer), None)
            && u.nextId == t.nextId + 1)
      && (forall k' :: k' in t.orders && k' != k ==> u.orders[k'] == t.orders[k'])
      && u.stores == t.stores && u.customers == t.customers && u.products == t.products
      && u.lineItems == t.lineItems
  {
    var k := NaturalKey(o.id, storeId);
    var link := CustomerLink(t, storeId, o.customer);
    if k in t.orders then
      (t.(orders := t.orders[k := BulkOrderUpdate(t.orders[k], link, o)]), t.orders[k].id)
    else
      (t.(orders := t.orders[k := BulkOrderCreate(t.nextId, link, o, number)], nextId := t.nextId + 1), t.nextId)
  }

  lemma OrderRowUpsertWellFormed(t: Tables, storeId: Id, o: OrderPayload, number: nat)
    requires WellFormed(t)
    ensures WellFormed(OrderRowUpsert(t, storeId, o, number).0)
    ensures HasOrder(OrderRowUpsert(t, storeId, o, number).0, OrderRowUpsert(t, storeId, o, number).1)
  {
    var (u, oid) := OrderRowUpsert(t, storeId, o, number);
    var k := NaturalKey(o.id, storeId);
    OrderWriteWellFormed(t, u, k);
    assert HasOrder(u, oid) by { assert u.orders[k].id == oid; }
  }

  /** Writing one order row, under a key that either had a row (whose internal id is
      kept) or gets the next fresh id, keeps the invariant and keeps every order id. */
  lemma OrderWriteWellFormed(t: Tables, r: Tables, k: Key)
    requires WellFormed(t)
    requires r.customers == t.customers && r.products == t.products && r.lineItems == t.lineItems
    requires r.orders.Keys == t.orders.Keys + {k}
    requires forall k' :: k' in t.orders && k' != k ==> r.orders[k'] == t.orders[k']
    requires k in t.orders ==> r.orders[k].id == t.orders[k].id && r.nextId == t.nextId
    requires k !in t.orders ==> r.orders[k].id == t.nextId && r.nextId == t.nextId + 1
    ensures WellFormed(r)
    ensures forall id :: HasOrder(t, id) ==> HasOrder(r, id)
  {
    forall id | HasOrder(t, id) ensures HasOrder(r, id) {
      var w :| w in t.orders && t.orders[w].id == id;
      assert r.orders[w].id == id;
    }
    assert IdsBelowNext(r) by {
      forall k' | k' in r.orders ensures r.orders[k'].id < r.nextId {
        if k' != k {
          assert r.orders[k'] == t.orders[k'];
        }
      }
    }
    forall k1, k2 | k1 in r.orders && k2 in r.orders && k1 != k2 ensures r.orders[k1].id != r.orders[k2].id {
      if k1 != k && k2 != k {
        assert r.orders[k1] == t.orders[k1] && r.orders[k2] == t.orders[k2];
      }
    }
  }

  /** `product: existingProduct?.id`: the product row with that id in the same store. */
  function ProductLink(t: Tables, storeId: Id, productId: nat): Option<Id> {
    var k := NaturalKey(productId, storeId);
    if k in t.products then Some(t.products[k].id) else None
  }

  /** `prisma.lineItem.upsert` keyed by (item id string, parent order's internal id):
      an update writes only quantity and price; the product link and the title are
      written on create only. */
  function LineItemUpsert(t: Tables, storeId: Id, orderId: Id, item: LineItemPayload): (r: Tables)
    ensures var k := NaturalKey(item.id, orderId);
      && r.lineItems.Keys == t.lineItems.Keys + {k}
      && (k in t.lineItems ==>
            r.lineItems[k] == t.lineItems[k].(quantity := item.quantity, price := item.price)
            && r.nextId == t.nextId)
      && (k !in t.lineItems ==>
            r.lineItems[k] == LineItemRow(t.nextId, ProductLink(t, storeId, item.productId), item.quantity, item.price, item.title)
            && r.nextId == t.nextId + 1)
      && (forall k' :: k' in t.lineItems && k' != k ==> r.lineItems[k'] == t.lineItems[k'])
      && r.stores == t.stores && r.customers == t.customers && r.products == t.products
      && r.orders == t.orders
  {
    var k := NaturalKey(item.id, orderId);
    if k in t.lineItems then
      t.(lineItems := t.lineItems[k := t.lineItems[k].(quantity := item.quantity, price := item.price)])
    else
      t.(lineItems := t.lineItems[k := LineItemRow(t.nextId, ProductLink(t, storeId, item.productId), item.quantity, item.price, item.title)],
         nextId := t.nextId + 1)
  }

  /** A line item is only written under an existing order, and then stays attached to it. */
  lemma LineItemUpsertWellFormed(t: Tables, storeId: Id, orderId: Id, item: LineItemPayload)
    requires WellFormed(t) && HasOrder(t, orderId)
    ensures WellFormed(LineItemUpsert(t, storeId, orderId, item))
  {
    LineItemWriteWellFormed(t, LineItemUpsert(t, storeId, orderId, item), NaturalKey(item.id, orderId));
  }

  /** Writing one line-item row under an existing order, keeping the row's id or giving
      it the next fresh one, keeps the invariant. */
  lemma LineItemWriteWellFormed(t: Tables, r: Tables, k: Key)
    requires WellFormed(t) && HasOrder(t, k.1)
    requires r.orders == t.orders && r.customers == t.customers && r.products == t.products
    requires r.lineItems.Keys == t.lineItems.Keys + {k}
    requires forall k' :: k' in t.lineItems && k' != k ==> r.lineItems[k'] == t.lineItems[k']
    requires k in t.lineItems ==> r.lineItems[k].id == t.lineItems[k].id && r.nextId == t.nextId
    requires k !in t.lineItems ==> r.lineItems[k].id == t.nextId && r.nextId == t.nextId + 1
    ensures WellFormed(r)
  {
    assert NoOrphans(r) by {
      forall k' | k' in r.lineItems ensures HasOrder(r, k'.1) {
        assert HasOrder(t, k'.1);
        var w :| w in t.orders && t.orders[w].id == k'.1;
        assert r.orders[w].id == k'.1;
      }
    }
    assert IdsBelowNext(r) by {
      forall k' | k' in r.lineItems ensures r.lineItems[k'].id < r.nextId {
        if k' != k {
          assert r.lineItems[k'] == t.lineItems[k'];
        }
      }
    }
    assert OrderIdsUnique(r);
  }

  /** The inner line-item loop of one order. */
  function ItemsFold(t: Tables, storeId: Id, orderId: Id, items: seq<LineItemPayload>): Tables
    decreases |items|
  {
    if items == [] then t
    else LineItemUpsert(ItemsFold(t, storeId, orderId, items[..|items| - 1]), storeId, orderId, items[|items| - 1])
  }

  lemma {:induction false} ItemsFoldWellFormed(t: Tables, storeId: Id, orderId: Id, items: seq<LineItemPayload>)
    requires WellFormed(t) && HasOrder(t, orderId)
    ensures WellFormed(ItemsFold(t, storeId, orderId, items))
    ensures ItemsFold(t, storeId, orderId, items).orders == t.orders
    decreases |items|
  {
    if items != [] {
      var pre := items[..|items| - 1];
      ItemsFoldWellFormed(t, storeId, orderId, pre);
      var u := ItemsFold(t, storeId, orderId, pre);
      assert HasOrder(u, orderId) by {
        var w :| w in t.orders && t.orders[w].id == orderId;
        assert u.orders[w].id == orderId;
      }
      LineItemUpsertWellFormed(u, storeId, orderId, items[|items| - 1]);
    }
  }

  /** The keys the line items of one order are written under. */
  function ItemKeys(orderId: Id, items: seq<LineItemPayload>): set<Key>
    decreases |items|
  {
    if items == [] then {}
    else ItemKeys(orderId, items[..|items| - 1]) + {NaturalKey(items[|items| - 1].id, orderId)}
  }

  /** The last line item of the list written under key `k`. */
  function LastFor(orderId: Id, items: seq<LineItemPayload>, k: Key): Option<LineItemPayload>
    decreases |items|
  {
    if items == [] then None
    else if NaturalKey(items[|items| - 1].id, orderId) == k then Some(items[|items| - 1])
    else LastFor(orderId, items[..|items| - 1], k)
  }

  /** What the line-item loop does: it creates a row for every new key, leaves the id,
      product link and title of every existing row alone, leaves a key it does not
      meet alone, and each key ends with the quantity and price of its LAST item. */
  lemma ItemsFoldEffect(t: Tables, storeId: Id, orderId: Id, items: seq<LineItemPayload>)
    ensures var r := ItemsFold(t, storeId, orderId, items); var keys := ItemKeys(orderId, items);
      && r.lineItems.Keys == t.lineItems.Keys + keys
      && (forall k :: k in t.lineItems && k !in keys ==> r.lineItems[k] == t.lineItems[k])
      && (forall k :: k in keys ==>
            LastFor(orderId, items, k).Some?
            && r.lineItems[k].quantity == LastFor(orderId, items, k).value.quantity
            && r.lineItems[k].price == LastFor(orderId, items, k).value.price)
      && (forall k :: k in t.lineItems ==>
            r.lineItems[k].id == t.lineItems[k].id && r.lineItems[k].productId == t.lineItems[k].productId
            && r.lineItems[k].title == t.lineItems[k].title)
      && (keys <= t.lineItems.Keys ==> r.nextId == t.nextId)
      && r.stores == t.stores && r.customers == t.customers && r.products == t.products
      && r.orders == t.orders
  {
    ItemsFoldFrame(t, storeId, orderId, items);
    ItemsFoldKeys(t, storeId, orderId, items);
    ItemsFoldLast(t, storeId, orderId, items);
    ItemsFoldKeepsIdentity(t, storeId, orderId, items);
  }

  /** The line-item loop writes only the line-item table. */
  lemma {:induction false} ItemsFoldFrame(t: Tables, storeId: Id, orderId: Id, items: seq<LineItemPayload>)
    ensures var r := ItemsFold(t, storeId, orderId, items);
      r.stores == t.stores && r.customers == t.customers && r.products == t.products && r.orders == t.orders
    decreases |items|
  {
    if items != [] {
      ItemsFoldFrame(t, storeId, orderId, items[..|items| - 1]);
    }
  }

  /** The line-item loop adds exactly the items' keys, leaves every other row as it
      was, and takes no fresh id when every key already had a row. */
  lemma {:induction false} ItemsFoldKeys(t: Tables, storeId: Id, orderId: Id, items: seq<LineItemPayload>)
    ensures var r := ItemsFold(t, storeId, orderId, items); var keys := ItemKeys(orderId, items);
      && r.lineItems.Keys == t.lineItems.Keys + keys
      && (forall k :: k in t.lineItems && k !in keys ==> r.lineItems[k] == t.lineItems[k])
      && (keys <= t.lineItems.Keys ==> r.nextId == t.nextId)
    decreases |items|
  {
    if items != [] {
      ItemsFoldKeys(t, storeId, orderId, items[..|items| - 1]);
    }
  }

  /** Each key the loop meets ends with the quantity and price of its last item. */
  lemma {:induction false} ItemsFoldLast(t: Tables, storeId: Id, orderId: Id, items: seq<LineItemPayload>)
    ensures var r := ItemsFold(t, storeId, orderId, items);
      forall k :: k in ItemKeys(orderId, items) ==>
        && k in r.lineItems
        && LastFor(orderId, items, k).Some?
        && r.lineItems[k].quantity == LastFor(orderId, items, k).value.quantity
        && r.lineItems[k].price == LastFor(orderId, items, k).value.price
    decreases |items|
  {
    if items != [] {
      ItemsFoldLast(t, storeId, orderId, items[..|items| - 1]);
    }
  }

  /** A row that existed before the loop keeps its id, product link and title. */
  lemma {:induction false} ItemsFoldKeepsIdentity(t: Tables, storeId: Id, orderId: Id, items: seq<LineItemPayload>)
    ensures var r := ItemsFold(t, storeId, orderId, items);
      forall k :: k in t.lineItems ==>
        && k in r.lineItems
        && r.lineItems[k].id == t.lineItems[k].id && r.lineItems[k].productId == t.lineItems[k].productId
        && r.lineItems[k].title == t.lineItems[k].title
    decreases |items|
  {
    if items != [] {
      ItemsFoldKeepsIdentity(t, storeId, orderId, items[..|items| - 1]);
    }
  }

  /** Running the line-item loop of an order a second time changes nothing. */
  lemma ItemsFoldIdempotent(t: Tables, storeId: Id, orderId: Id, items: seq<LineItemPayload>)
    ensures var once := ItemsFold(t, storeId, orderId, items);
      ItemsFold(once, storeId, orderId, items) == once
  {
    var once := ItemsFold(t, storeId, orderId, items);
    var twice := ItemsFold(once, storeId, orderId, items);
    ItemsFoldEffect(t, storeId, orderId, items);
    ItemsFoldEffect(once, storeId, orderId, items);
    assert twice.lineItems.Keys == once.lineItems.Keys;
    forall k | k in once.lineItems ensures twice.lineItems[k] == once.lineItems[k] {
    }
    assert twice.lineItems == once.lineItems;
  }

  /** The line-item loop neither reads nor writes the order table. */
  lemma {:induction false} ItemsFoldIgnoresOrders(t: Tables, orders: map<Key, OrderRow>, storeId: Id, orderId: Id, items: seq<LineItemPayload>)
    ensures ItemsFold(t.(orders := orders), storeId, orderId, items) == ItemsFold(t, storeId, orderId, items).(orders := orders)
    decreases |items|
  {
    if items != [] {
      var pre := items[..|items| - 1];
      ItemsFoldIgnoresOrders(t, orders, storeId, orderId, pre);
      var u := ItemsFold(t, storeId, orderId, pre);
      assert LineItemUpsert(u.(orders := orders), storeId, orderId, items[|items| - 1])
          == LineItemUpsert(u, storeId, orderId, items[|items| - 1]).(orders := orders);
    }
  }

  /** One iteration of the order loop, with its per-order catch: a missing
      `order_number` throws while the upsert's arguments are built, so nothing is
      written; a missing `line_items` throws after the order row is written. Otherwise
      the order row is upserted first and then each line item under its internal id. */
  function ImportOrder(t: Tables, storeId: Id, o: OrderPayload): Tables {
    match o.orderNumber
    case None => t
    case Some(number) =>
      var (u, orderId) := OrderRowUpsert(t, storeId, o, number);
      match o.lineItems
      case None => u
      case Some(items) => ItemsFold(u, storeId, orderId, items)
  }

  lemma ImportOrderWellFormed(t: Tables, storeId: Id, o: OrderPayload)
    requires WellFormed(t)
    ensures WellFormed(ImportOrder(t, storeId, o))
  {
    if o.orderNumber.Some? {
      OrderRowUpsertWellFormed(t, storeId, o, o.orderNumber.value);
      var (u, orderId) := OrderRowUpsert(t, storeId, o, o.orderNumber.value);
      if o.lineItems.Some? {
        ItemsFoldWellFormed(u, storeId, orderId, o.lineItems.value);
      }
    }
  }

  /** Every line item is written under the internal id of this order's row, and the
      row exists by then (and afterwards). */
  lemma ImportOrderItemsUnderTheirOrder(t: Tables, storeId: Id, o: OrderPayload)
    requires o.orderNumber.Some? && o.lineItems.Some?
    ensures var r := ImportOrder(t, storeId, o); var k := NaturalKey(o.id, storeId);
      && k in r.orders
      && ItemKeys(r.orders[k].id, o.lineItems.value) <= r.lineItems.Keys
      && r.orders == OrderRowUpsert(t, storeId, o, o.orderNumber.value).0.orders
  {
    var (u, orderId) := OrderRowUpsert(t, storeId, o, o.orderNumber.value);
    ItemsFoldEffect(u, storeId, orderId, o.lineItems.value);
  }

  /** Upserting the order row again over a state that already holds the result of the
      first upsert (and the same customers) writes nothing new. */
  lemma OrderRowUpsertAgain(t: Tables, storeId: Id, o: OrderPayload, number: nat, f: Tables)
    requires f.orders == OrderRowUpsert(t, storeId, o, number).0.orders && f.customers == t.customers
    ensures OrderRowUpsert(f, storeId, o, number) == (f, OrderRowUpsert(t, storeId, o, number).1)
  {
    var k := NaturalKey(o.id, storeId);
    var link := CustomerLink(t, storeId, o.customer);
    assert CustomerLink(f, storeId, o.customer) == link;
    var row := f.orders[k];
    assert ApplyLink(link, ApplyLink(link, row.customerId)) == ApplyLink(link, row.customerId);
    assert BulkOrderUpdate(row, link, o) == row;
    assert f.orders[k := row] == f.orders;
  }

  /** Re-importing the same order, line items included, changes nothing. */
  lemma ImportOrderIdempotent(t: Tables, storeId: Id, o: OrderPayload)
    ensures ImportOrder(ImportOrder(t, storeId, o), storeId, o) == ImportOrder(t, storeId, o)
  {
    if o.orderNumber.Some? {
      var number := o.orderNumber.value;
      var (u, orderId) := OrderRowUpsert(t, storeId, o, number);
      var once := ImportOrder(t, storeId, o);
      if o.lineItems.Some? {
        ItemsFoldEffect(u, storeId, orderId, o.lineItems.value);
        ItemsFoldIdempotent(u, storeId, orderId, o.lineItems.value);
      }
      OrderRowUpsertAgain(t, storeId, o, number, once);
    }
  }

  /** Importing an order before its customer leaves the link null; importing the
      same order again once the customer row exists fills the link. */
  lemma LinkBackfill(t: Tables, storeId: Id, o: OrderPayload, c: CustomerPayload)
    requires o.orderNumber.Some? && o.customer == Some(c.id)
    requires NaturalKey(c.id, storeId) !in t.customers && NaturalKey(o.id, storeId) !in t.orders
    ensures var first := ImportOrder(t, storeId, o);
      NaturalKey(o.id, storeId) in first.orders && first.orders[NaturalKey(o.id, storeId)].customerId == None
    ensures var later := ImportOrder(CustomerUpsert(ImportOrder(t, storeId, o), storeId, c), storeId, o);
      var customers := CustomerUpsert(ImportOrder(t, storeId, o), storeId, c).customers;
      NaturalKey(o.id, storeId) in later.orders && NaturalKey(c.id, storeId) in customers &&
      later.orders[NaturalKey(o.id, storeId)].customerId == Some(customers[NaturalKey(c.id, storeId)].id)
  {
    var (u, orderId) := OrderRowUpsert(t, storeId, o, o.orderNumber.value);
    if o.lineItems.Some? {
      ItemsFoldEffect(u, storeId, orderId, o.lineItems.value);
    }
    var mid := CustomerUpsert(ImportOrder(t, storeId, o), storeId, c);
    var (v, orderId2) := OrderRowUpsert(mid, storeId, o, o.orderNumber.value);
    if o.lineItems.Some? {
      ItemsFoldEffect(v, storeId, orderId2, o.lineItems.value);
    }
  }

  /** A line item's product link is fixed when the row is created: later imports of
      the same item leave it as it was, even after the product row appears. */
  lemma ProductLinkFixedAtCreate(t: Tables, storeId: Id, orderId: Id, item: LineItemPayload)
    requires NaturalKey(item.id, orderId) in t.lineItems
    ensures LineItemUpsert(t, storeId, orderId, item).lineItems[NaturalKey(item.id, orderId)].productId
         == t.lineItems[NaturalKey(item.id, orderId)].productId
  {
  }

  /** The order phase's loop over the fetched orders. */
  function OrdersFold(t: Tables, storeId: Id, os: seq<OrderPayload>): Tables
    decreases |os|
  {
    if os == [] then t else ImportOrder(OrdersFold(t, storeId, os[..|os| - 1]), storeId, os[|os| - 1])
  }

  /** `importOrders`: a failed fetch returns early and writes nothing. */
  function OrdersPhase(t: Tables, storeId: Id, f: Fetch<OrderPayload>): Tables {
    match f
    case FetchFailed => t
    case Fetched(os) => OrdersFold(t, storeId, os)
  }

  lemma {:induction false} OrdersFoldAppend(t: Tables, storeId: Id, a: seq<OrderPayload>, b: seq<OrderPayload>)
    ensures OrdersFold(t, storeId, a + b) == OrdersFold(OrdersFold(t, storeId, a), storeId, b)
    decreases |b|
  {
    if b == [] {
      assert a + b == a;
    } else {
      assert (a + b)[..|a + b| - 1] == a + b[..|b| - 1];
      OrdersFoldAppend(t, storeId, a, b[..|b| - 1]);
    }
  }

  /** An order whose save throws at once is skipped: the orders before and after it are
      imported exactly as if it were not on the page. */
  lemma FailedOrderIsSkipped(t: Tables, storeId: Id, before: seq<OrderPayload>, o: OrderPayload, after: seq<OrderPayload>)
    requires o.orderNumber.None?
    ensures OrdersFold(t, storeId, before + [o] + after) == OrdersFold(t, storeId, before + after)
  {
    OrdersFoldAppend(t, storeId, before + [o], after);
    OrdersFoldAppend(t, storeId, before, [o]);
    assert [o][..0] == [];
    OrdersFoldAppend(t, storeId, before, after);
  }

  lemma {:induction false} OrdersFoldWellFormed(t: Tables, storeId: Id, os: seq<OrderPayload>)
    requires WellFormed(t)
    ensures WellFormed(OrdersFold(t, storeId, os))
    decreases |os|
  {
    if os != [] {
      OrdersFoldWellFormed(t, storeId, os[..|os| - 1]);
      ImportOrderWellFormed(OrdersFold(t, storeId, os[..|os| - 1]), storeId, os[|os| - 1]);
    }
  }

  // ---------------------------------------------------------------- the full import

  /** `prisma.store.update({ where: { id }, data: { lastSyncedAt } })`. */
  function Stamp(stores: seq<StoreRow>, storeId: Id, now: Instant): seq<StoreRow> {
    seq(|stores|, i requires 0 <= i < |stores| =>
      if stores[i].id == storeId then stores[i].(lastSyncedAt := Some(now)) else stores[i])
  }

  /** `importShopifyData`: customers, then products, then orders, then the stamp. Each
      phase swallows its own errors, so the stamp is always applied. */
  function FullImport(t: Tables, storeId: Id, feed: Feed, now: Instant): Tables {
    var afterOrders := OrdersPhase(ProductsPhase(CustomersPhase(t, storeId, feed.customers), storeId, feed.products), storeId, feed.orders);
    afterOrders.(stores := Stamp(afterOrders.stores, storeId, now))
  }

  /** The bulk import stamps the store's `lastSyncedAt` even when every fetch failed,
      and then writes nothing else. */
  lemma StampedEvenWhenNothingFetched(t: Tables, storeId: Id, now: Instant)
    ensures FullImport(t, storeId, Feed(FetchFailed, FetchFailed, FetchFailed), now)
         == t.(stores := Stamp(t.stores, storeId, now))
  {
  }

  /** The import stamps exactly the store it imported, and no order, line item or
      product phase touches the store list. */
  lemma {:induction false} ImportStampsOnlyItsStore(t: Tables, storeId: Id, feed: Feed, now: Instant)
    ensures var r := FullImport(t, storeId, feed, now);
      |r.stores| == |t.stores|
      && forall i :: 0 <= i < |t.stores| ==>
        r.stores[i] == if t.stores[i].id == storeId then t.stores[i].(lastSyncedAt := Some(now)) else t.stores[i]
  {
    var c := CustomersPhase(t, storeId, feed.customers);
    if feed.customers.Fetched? { CustomersFoldFrame(t, storeId, feed.customers.records); }
    var p := ProductsPhase(c, storeId, feed.products);
    if feed.products.Fetched? { ProductsFoldFrame(c, storeId, feed.products.records); }
    if feed.orders.Fetched? { OrdersFoldStores(p, storeId, feed.orders.records); }
  }

  lemma {:induction false} OrdersFoldStores(t: Tables, storeId: Id, os: seq<OrderPayload>)
    ensures OrdersFold(t, storeId, os).stores == t.stores
    decreases |os|
  {
    if os != [] {
      OrdersFoldStores(t, storeId, os[..|os| - 1]);
      var u := OrdersFold(t, storeId, os[..|os| - 1]);
      var o := os[|os| - 1];
      if o.orderNumber.Some? && o.lineItems.Some? {
        var (v, orderId) := OrderRowUpsert(u, storeId, o, o.orderNumber.value);
        ItemsFoldEffect(v, storeId, orderId, o.lineItems.value);
      }
    }
  }

  lemma FullImportWellFormed(t: Tables, storeId: Id, feed: Feed, now: Instant)
    requires WellFormed(t)
    ensures WellFormed(FullImport(t, storeId, feed, now))
  {
    var c := CustomersPhase(t, storeId, feed.customers);
    if feed.customers.Fetched? { CustomersFoldWellFormed(t, storeId, feed.customers.records); }
    var p := ProductsPhase(c, storeId, feed.products);
    if feed.products.Fetched? { ProductsFoldWellFormed(c, storeId, feed.products.records); }
    var o := OrdersPhase(p, storeId, feed.orders);
    if feed.orders.Fetched? { OrdersFoldWellFormed(p, storeId, feed.orders.records); }
    StoresIrrelevant(o, Stamp(o.stores, storeId, now));
  }

  /** The invariant does not mention the store table. */
  lemma StoresIrrelevant(t: Tables, stores: seq<StoreRow>)
    requires WellFormed(t)
    ensures WellFormed(t.(stores := stores))
  {
    var r := t.(stores := stores);
    assert forall id :: HasOrder(t, id) ==> HasOrder(r, id);
  }
}
