/** The local relational mirror: one row type per table and a value `Tables` holding
    every table, each keyed by its natural key. */
module Schema {
  import opened Wrappers

  /** Internal (database-assigned) row ids. */
  type Id = nat

  /** Money in the smallest currency unit; prices are parsed before they reach the model. */
  type Money = int

  /** A timestamp, kept opaque: only equality of instants matters to the model. */
  datatype Instant = Instant(iso: string)

  /** A natural key: (external id as a string, owner's internal id). The owner is the
      store for customers, products and orders, and the parent order for line items. */
  type Key = (string, Id)

  datatype StoreRow = StoreRow(
    id: Id, domain: string, accessToken: string, name: Option<string>,
    lastSyncedAt: Option<Instant>)

  datatype CustomerRow = CustomerRow(
    id: Id, email: Option<string>, firstName: Option<string>, lastName: Option<string>,
    totalSpent: Money)

  datatype ProductRow = ProductRow(id: Id, title: Option<string>, price: Money)

  datatype OrderRow = OrderRow(
    id: Id, customerId: Option<Id>, orderNumber: string, totalPrice: Money,
    orderDate: Instant, financialStatus: Option<string>, fulfillmentStatus: Option<string>)

  datatype LineItemRow = LineItemRow(
    id: Id, productId: Option<Id>, quantity: int, price: Money, title: Option<string>)

  /** The whole store: the tenants in listing order, four tables keyed by natural key,
      and the next internal id to hand out. */
  datatype Tables = Tables(
    stores: seq<StoreRow>,
    customers: map<Key, CustomerRow>,
    products: map<Key, ProductRow>,
    orders: map<Key, OrderRow>,
    lineItems: map<Key, LineItemRow>,
    nextId: Id)

  /** Some order row has internal id `id`. */
  ghost predicate HasOrder(t: Tables, id: Id) {
    exists k :: k in t.orders && t.orders[k].id == id
  }

  /** No line item is orphaned: the owner part of every line-item key is the internal
      id of an existing order row. */
  ghost predicate NoOrphans(t: Tables) {
    forall k :: k in t.lineItems ==> HasOrder(t, k.1)
  }

  /** Every internal id handed out so far is below `nextId`. */
  ghost predicate IdsBelowNext(t: Tables) {
    && (forall k :: k in t.customers ==> t.customers[k].id < t.nextId)
    && (forall k :: k in t.products ==> t.products[k].id < t.nextId)
    && (forall k :: k in t.orders ==> t.orders[k].id < t.nextId)
    && (forall k :: k in t.lineItems ==> t.lineItems[k].id < t.nextId)
  }

  /** Two order rows never share an internal id, so line items of different orders
      never share a key. */
  ghost predicate OrderIdsUnique(t: Tables) {
    forall k1, k2 :: k1 in t.orders && k2 in t.orders && k1 != k2 ==> t.orders[k1].id != t.orders[k2].id
  }

  ghost predicate WellFormed(t: Tables) {
    NoOrphans(t) && IdsBelowNext(t) && OrderIdsUnique(t)
  }
}
