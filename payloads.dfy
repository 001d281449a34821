/** The resource representations the Shopify Admin REST API sends, after JSON parsing,
    reduced to the fields the modelled code reads. A JSON `null` field is `None`. */
module Payloads {
  import opened Wrappers
  import opened Schema

  datatype CustomerPayload = CustomerPayload(
    id: nat, email: Option<string>, firstName: Option<string>, lastName: Option<string>,
    totalSpent: Option<Money>)

  datatype Variant = Variant(price: Option<Money>)

  /** `variants` is `None` when the payload has no variants array at all. */
  datatype ProductPayload = ProductPayload(id: nat, title: Option<string>, variants: Option<seq<Variant>>)

  datatype LineItemPayload = LineItemPayload(
    id: nat, productId: nat, quantity: int, price: Money, title: Option<string>)

  /** `orderNumber` is `None` when `order_number` is missing, `customer` holds the id of
      the embedded customer object, and `lineItems` is `None` when `line_items` is missing. */
  datatype OrderPayload = OrderPayload(
    id: nat, orderNumber: Option<nat>, customer: Option<nat>, totalPrice: Money,
    createdAt: Instant, financialStatus: Option<string>, fulfillmentStatus: Option<string>,
    lineItems: Option<seq<LineItemPayload>>)

  /** The outcome of one list request: the first page of records, or a failure
      (network error, non-2xx response, or a body without the expected list). */
  datatype Fetch<T> = Fetched(records: seq<T>) | FetchFailed

  /** What the three list requests of one bulk import return for one store. */
  datatype Feed = Feed(
    customers: Fetch<CustomerPayload>, products: Fetch<ProductPayload>, orders: Fetch<OrderPayload>)
}
