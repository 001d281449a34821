/** app/dashboard/orders/page.jsx: the client-side order filter, the status badge,
    the page guard and the average-order card, all on the orders the list API sent. */
module OrdersPage {
  import opened Wrappers
  import opened Text

  /** The customer fields the list API embeds in an order. */
  datatype CustomerView = CustomerView(firstName: Option<string>, lastName: Option<string>, email: Option<string>)

  datatype OrderView = OrderView(
    orderNumber: string, customer: Option<CustomerView>, totalPrice: int,
    financialStatus: Option<string>, fulfillmentStatus: Option<string>)

  // ------------------------------------------------------------------ filters

  /** `xs.filter(keep)`. */
  function Filter(xs: seq<OrderView>, keep: OrderView -> bool): (r: seq<OrderView>)
    ensures forall x :: x in r <==> x in xs && keep(x)
    ensures forall x :: multiset(r)[x] == if keep(x) then multiset(xs)[x] else 0
    ensures SubsequenceOf(r, xs)
    decreases |xs|
  {
    if xs == [] then []
    else
      var rest := Filter(xs[1..], keep);
      assert xs == [xs[0]] + xs[1..];
      if keep(xs[0]) then
        assert ([xs[0]] + rest)[1..] == rest;
        [xs[0]] + rest
      else rest
  }

  /** `a` is `b` with some elements left out, the rest in their order. */
  predicate SubsequenceOf<T(==)>(a: seq<T>, b: seq<T>)
    decreases |b|
  {
    a == [] || (b != [] && ((a[0] == b[0] && SubsequenceOf(a[1..], b[1..])) || SubsequenceOf(a, b[1..])))
  }

  lemma {:induction false} SubsequenceTransitive<T>(a: seq<T>, b: seq<T>, c: seq<T>)
    requires SubsequenceOf(a, b) && SubsequenceOf(b, c)
    ensures SubsequenceOf(a, c)
    decreases |c|
  {
    if a != [] {
      assert b != [] && c != [];
      if b[0] == c[0] && SubsequenceOf(b[1..], c[1..]) {
        if a[0] == b[0] && SubsequenceOf(a[1..], b[1..]) {
          SubsequenceTransitive(a[1..], b[1..], c[1..]);
        } else {
          SubsequenceTransitive(a, b[1..], c[1..]);
        }
      } else {
        SubsequenceTransitive(a, b, c[1..]);
      }
    }
  }

  /** `field?.toLowerCase().includes(term.toLowerCase())`, false for a missing field. */
  predicate FieldMatches(field: Option<string>, term: string) {
    field.Some? && Includes(Lower(field.value), Lower(term))
  }

  /** The search predicate: order number, or the customer's first name, last name or email. */
  predicate SearchMatches(o: OrderView, term: string) {
    || Includes(Lower(o.orderNumber), Lower(term))
    || (o.customer.Some? && FieldMatches(o.customer.value.firstName, term))
    || (o.customer.Some? && FieldMatches(o.customer.value.lastName, term))
    || (o.customer.Some? && FieldMatches(o.customer.value.email, term))
  }

  /** The status predicate as written: either stored status equals the filter. */
  predicate StatusMatches(o: OrderView, statusFilter: string) {
    o.financialStatus == Some(statusFilter) || o.fulfillmentStatus == Some(statusFilter)
  }

  /** The status predicate as the page presents it: the fulfilment status counts as
      the status its badge shows, so a null fulfilment status counts as "unfulfilled". */
  predicate StatusMatchesShown(o: OrderView, statusFilter: string) {
    o.financialStatus == Some(statusFilter) || DisplayStatus(o.fulfillmentStatus) == statusFilter
  }

  /** The two filter steps of the page with a given status predicate: a text filter
      unless the term is empty, then a status filter unless the filter is "all". */
  function FilterSteps(orders: seq<OrderView>, searchTerm: string, statusFilter: string,
                       status: (OrderView, string) -> bool): seq<OrderView>
  {
    var afterSearch := if searchTerm != "" then Filter(orders, o => SearchMatches(o, searchTerm)) else orders;
    if statusFilter != "all" then Filter(afterSearch, o => status(o, statusFilter)) else afterSearch
  }

  /** `filteredOrders` as written: the status step compares the stored statuses. */
  function FilteredOrders(orders: seq<OrderView>, searchTerm: string, statusFilter: string): seq<OrderView> {
    FilterSteps(orders, searchTerm, statusFilter, (o, f) => StatusMatches(o, f))
  }

  /** The filter as the badges present it: the status step uses the badge's status. */
  function FilteredOrdersShown(orders: seq<OrderView>, searchTerm: string, statusFilter: string): seq<OrderView> {
    FilterSteps(orders, searchTerm, statusFilter, (o, f) => StatusMatchesShown(o, f))
  }

  /** An order passes the two steps exactly when it passes both enabled filters. */
  lemma FilterStepsMembership(orders: seq<OrderView>, searchTerm: string, statusFilter: string,
                              status: (OrderView, string) -> bool, o: OrderView)
    ensures o in FilterSteps(orders, searchTerm, statusFilter, status) <==>
      o in orders && (searchTerm == "" || SearchMatches(o, searchTerm))
      && (statusFilter == "all" || status(o, statusFilter))
  {
  }

  lemma SubsequenceReflexive<T>(a: seq<T>)
    ensures SubsequenceOf(a, a)
    decreases |a|
  {
    if a != [] {
      SubsequenceReflexive(a[1..]);
    }
  }

  /** The two steps keep the orders in the order the server sent them. */
  lemma FilterStepsSubsequence(orders: seq<OrderView>, searchTerm: string, statusFilter: string,
                               status: (OrderView, string) -> bool)
    ensures SubsequenceOf(FilterSteps(orders, searchTerm, statusFilter, status), orders)
  {
    var afterSearch := if searchTerm != "" then Filter(orders, o => SearchMatches(o, searchTerm)) else orders;
    if searchTerm == "" {
      SubsequenceReflexive(orders);
    }
    if statusFilter != "all" {
      SubsequenceTransitive(FilterSteps(orders, searchTerm, statusFilter, status), afterSearch, orders);
    }
  }

  /** An order is listed exactly when it is in the list, matches the search term and,
      unless the filter is "all", has a stored status equal to the filter. */
  lemma FilteredOrdersMembership(orders: seq<OrderView>, searchTerm: string, statusFilter: string, o: OrderView)
    ensures o in FilteredOrders(orders, searchTerm, statusFilter) <==>
      o in orders && (searchTerm == "" || SearchMatches(o, searchTerm))
      && (statusFilter == "all" || o.financialStatus == Some(statusFilter) || o.fulfillmentStatus == Some(statusFilter))
  {
    FilterStepsMembership(orders, searchTerm, statusFilter, (o, f) => StatusMatches(o, f), o);
  }

  /** The same for the filter as presented, where a null fulfilment status counts as "unfulfilled". */
  lemma FilteredOrdersShownMembership(orders: seq<OrderView>, searchTerm: string, statusFilter: string, o: OrderView)
    ensures o in FilteredOrdersShown(orders, searchTerm, statusFilter) <==>
      o in orders && (searchTerm == "" || SearchMatches(o, searchTerm))
      && (statusFilter == "all" || o.financialStatus == Some(statusFilter) || DisplayStatus(o.fulfillmentStatus) == statusFilter)
  {
    FilterStepsMembership(orders, searchTerm, statusFilter, (o, f) => StatusMatchesShown(o, f), o);
  }

  /** The filtered list keeps the orders in the order the server sent them. */
  lemma FilteredOrdersSubsequence(orders: seq<OrderView>, searchTerm: string, statusFilter: string)
    ensures SubsequenceOf(FilteredOrders(orders, searchTerm, statusFilter), orders)
  {
    FilterStepsSubsequence(orders, searchTerm, statusFilter, (o, f) => StatusMatches(o, f));
  }

  lemma FilteredOrdersShownSubsequence(orders: seq<OrderView>, searchTerm: string, statusFilter: string)
    ensures SubsequenceOf(FilteredOrdersShown(orders, searchTerm, statusFilter), orders)
  {
    FilterStepsSubsequence(orders, searchTerm, statusFilter, (o, f) => StatusMatchesShown(o, f));
  }

  /** The two filters differ on exactly one kind of order: one with a null fulfilment
      status (and a payment status other than "unfulfilled") under the "unfulfilled"
      filter, which only the filter as presented lists. Every order the page lists, the
      filter as presented lists too. */
  lemma FiltersDifferOnNullUnfulfilled(orders: seq<OrderView>, searchTerm: string, statusFilter: string, o: OrderView)
    ensures o in FilteredOrders(orders, searchTerm, statusFilter) ==> o in FilteredOrdersShown(orders, searchTerm, statusFilter)
    ensures o in FilteredOrdersShown(orders, searchTerm, statusFilter) && o !in FilteredOrders(orders, searchTerm, statusFilter) <==>
      o in orders && (searchTerm == "" || SearchMatches(o, searchTerm))
      && statusFilter == "unfulfilled" && o.fulfillmentStatus == None && o.financialStatus != Some("unfulfilled")
  {
    FilteredOrdersMembership(orders, searchTerm, statusFilter, o);
    FilteredOrdersShownMembership(orders, searchTerm, statusFilter, o);
  }

  /** The order of the finding: paid, with a null fulfilment status. Under "unfulfilled"
      the page lists nothing, while the filter as presented lists it. */
  lemma UnfulfilledFilterListsNothing()
    ensures var o := OrderView("1001", None, 0, Some("paid"), None);
      FilteredOrders([o], "", "unfulfilled") == [] && FilteredOrdersShown([o], "", "unfulfilled") == [o]
  {
    var o := OrderView("1001", None, 0, Some("paid"), None);
    assert !StatusMatches(o, "unfulfilled");
    assert StatusMatchesShown(o, "unfulfilled");
  }

  /** With no search term and "all" statuses the whole list is shown. */
  lemma NoFilterShowsAll(orders: seq<OrderView>)
    ensures FilteredOrders(orders, "", "all") == orders
    ensures FilteredOrdersShown(orders, "", "all") == orders
  {
  }

  lemma LowerIdempotent(s: string)
    ensures Lower(Lower(s)) == Lower(s)
  {
    assert forall i :: 0 <= i < |s| ==> LowerChar(LowerChar(s[i])) == LowerChar(s[i]);
  }

  /** The search ignores the letter case of the term. */
  lemma SearchIgnoresTermCase(o: OrderView, term: string)
    ensures SearchMatches(o, term) <==> SearchMatches(o, Lower(term))
  {
    LowerIdempotent(term);
  }

  // -------------------------------------------------------------- status badge

  /** `status === null ? 'unfulfilled' : status`. */
  function DisplayStatus(status: Option<string>): string {
    status.GetOr("unfulfilled")
  }

  const DefaultStyle := "bg-gray-100 text-gray-800 border-gray-200"

  const PaymentStyles: map<string, string> := map[
    "paid" := "bg-emerald-100 text-emerald-800 border-emerald-200",
    "pending" := "bg-amber-100 text-amber-800 border-amber-200",
    "refunded" := "bg-gray-100 text-gray-800 border-gray-200",
    "default" := DefaultStyle]

  const FulfillmentStyles: map<string, string> := map[
    "fulfilled" := "bg-blue-100 text-blue-800 border-blue-200",
    "unfulfilled" := "bg-orange-100 text-orange-800 border-orange-200",
    "partial" := "bg-purple-100 text-purple-800 border-purple-200",
    "default" := DefaultStyle]

  datatype Badge = Badge(style: string, text: string)

  /** `StatusBadge({ status, type })`: `type === 'payment'` picks the payment table,
      anything else the fulfilment table; an unknown status gets the table's default
      style; the text replaces the first '_' by a space, and an empty status reads 'N/A'. */
  function StatusBadge(status: Option<string>, kind: string): (b: Badge)
    ensures var styles := if kind == "payment" then PaymentStyles else FulfillmentStyles;
      var shown := DisplayStatus(status);
      b.style == if shown in styles then styles[shown] else DefaultStyle
    ensures status == Some("") ==> b.text == "N/A"
    ensures status != Some("") ==> |b.text| == |DisplayStatus(status)|
    ensures status != Some("") ==> forall i :: 0 <= i < |b.text| ==>
      b.text[i] == if DisplayStatus(status)[i] == '_' && '_' !in DisplayStatus(status)[..i] then ' ' else DisplayStatus(status)[i]
  {
    var shown := DisplayStatus(status);
    var styles := if kind == "payment" then PaymentStyles else FulfillmentStyles;
    var style := if shown in styles then styles[shown] else styles["default"];
    var text := if shown != "" then ReplaceFirst(shown, '_', ' ') else "N/A";
    Badge(style, text)
  }

  /** A null fulfilment status is drawn exactly like the status "unfulfilled". */
  lemma NullFulfillmentShownUnfulfilled()
    ensures StatusBadge(None, "fulfillment") == StatusBadge(Some("unfulfilled"), "fulfillment")
    ensures StatusBadge(None, "fulfillment").text == "unfulfilled"
  {
    assert "unfulfilled" != "";
    assert '_' !in "unfulfilled";
  }

  /** Only the first underscore becomes a space; later ones are displayed as they are. */
  lemma OnlyFirstUnderscoreReplaced(head: string, tail: string)
    requires '_' !in head
    ensures StatusBadge(Some(head + "_" + tail), "fulfillment").text == head + " " + tail
  {
    ReplaceFirstSplits(head, '_', ' ', tail);
  }

  // -------------------------------------------------------- the filter finding

  /** With the filter as written, an unfulfilled order (Shopify sends a null
      `fulfillment_status`) is missing from the "Unfulfilled" list although its badge
      reads "unfulfilled". */
  lemma UnfulfilledFilterMissesNullStatus()
    ensures var o := OrderView("1001", None, 0, Some("paid"), None);
      && StatusBadge(o.fulfillmentStatus, "fulfillment").text == "unfulfilled"
      && !StatusMatches(o, "unfulfilled")
      && StatusMatchesShown(o, "unfulfilled")
  {
    NullFulfillmentShownUnfulfilled();
  }

  /** The status predicate as the page presents it differs from the one as written
      only on orders with a null fulfilment status under the "unfulfilled" filter, and
      it keeps an order whenever its fulfilment badge shows the selected status. */
  lemma StatusMatchesShownCorrect(o: OrderView, statusFilter: string)
    ensures StatusMatchesShown(o, statusFilter) <==>
      StatusMatches(o, statusFilter) || (o.fulfillmentStatus == None && statusFilter == "unfulfilled")
    ensures DisplayStatus(o.fulfillmentStatus) == statusFilter ==> StatusMatchesShown(o, statusFilter)
  {
  }

  // ------------------------------------------------------------------- paging

  /** `handlePageChange`: the new page is taken only when it lies in 1..totalPages. */
  function HandlePageChange(page: int, totalPages: int, newPage: int): (r: int)
    ensures r == newPage || r == page
    ensures r == newPage <==> (0 < newPage <= totalPages) || newPage == page
  {
    if newPage > 0 && newPage <= totalPages then newPage else page
  }

  /** No button can move the page out of 1..totalPages once it is inside, and
      "previous" on the first page and "next" on the last page do nothing. */
  lemma PageGuardKeepsRange(page: int, totalPages: int, newPage: int)
    requires 1 <= page <= totalPages
    ensures 1 <= HandlePageChange(page, totalPages, newPage) <= totalPages
    ensures page == 1 ==> HandlePageChange(page, totalPages, page - 1) == page
    ensures page == totalPages ==> HandlePageChange(page, totalPages, page + 1) == page
  {
  }

  // ------------------------------------------------------------- average card

  function SumPrices(orders: seq<OrderView>): int {
    if orders == [] then 0 else orders[0].totalPrice + SumPrices(orders[1..])
  }

  /** The "Avg Order" card: the mean total price, or `None` (the card shows ₹0) for an
      empty list, so it never divides by zero. */
  function AverageOrder(orders: seq<OrderView>): (avg: Option<real>)
    ensures avg.Some? <==> |orders| > 0
  {
    if |orders| > 0 then Some(SumPrices(orders) as real / |orders| as real) else None
  }

  lemma {:induction false} SumPricesBounds(orders: seq<OrderView>, lo: int, hi: int)
    requires forall i :: 0 <= i < |orders| ==> lo <= orders[i].totalPrice <= hi
    ensures lo * |orders| <= SumPrices(orders) <= hi * |orders|
    decreases |orders|
  {
    if orders != [] {
      SumPricesBounds(orders[1..], lo, hi);
    }
  }

  /** The average lies between the smallest and the largest order total. */
  lemma AverageBetweenBounds(orders: seq<OrderView>, lo: int, hi: int)
    requires |orders| > 0
    requires forall i :: 0 <= i < |orders| ==> lo <= orders[i].totalPrice <= hi
    ensures lo as real <= AverageOrder(orders).value <= hi as real
  {
    SumPricesBounds(orders, lo, hi);
    var n := |orders| as real;
    var s := SumPrices(orders) as real;
    CastMul(lo, |orders|);
    CastMul(hi, |orders|);
    MeanBounds(s, n, lo as real, hi as real);
  }

  lemma CastMul(a: int, b: int)
    ensures (a * b) as real == a as real * b as real
  {
  }

  lemma MeanBounds(s: real, n: real, lo: real, hi: real)
    requires n > 0.0 && lo * n <= s <= hi * n
    ensures lo <= s / n <= hi
  {
    var avg := s / n;
    assert avg * n == s;
    RealScaleLe(lo, avg, n);
    RealScaleLe(avg, hi, n);
  }

  lemma RealScaleLe(a: real, b: real, n: real)
    requires a * n <= b * n && n > 0.0
    ensures a <= b
  {
    assert (b - a) * n >= 0.0;
  }
}
