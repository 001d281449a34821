/** The database client, reduced to the tables the sync engine reads and writes, each
    a map keyed by the natural key Prisma's compound unique index names, except the
    store table, a sequence in listing order. */
module Database {
  import opened Schema

  class Db {
    var stores: seq<StoreRow>
    var customers: map<Key, CustomerRow>
    var products: map<Key, ProductRow>
    var orders: map<Key, OrderRow>
    var lineItems: map<Key, LineItemRow>
    var nextId: Id

    /** The abstract value of the database. */
    function Snapshot(): Tables
      reads this
    {
      Tables(stores, customers, products, orders, lineItems, nextId)
    }

    ghost predicate Valid()
      reads this
    {
      WellFormed(Snapshot())
    }

    /** A database holding the registered stores and no synchronised data yet. */
    constructor (registered: seq<StoreRow>)
      ensures Valid()
      ensures Snapshot() == Tables(registered, map[], map[], map[], map[], 0)
    {
      stores := registered;
      customers, products, orders, lineItems := map[], map[], map[], map[];
      nextId := 0;
    }
  }
}
