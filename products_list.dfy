/** app/api/dashboard/products-list/route.js: one page of a store's products, each
    with its sales totals, ordered by revenue, plus the pagination block. */
module ProductsList {
  import opened Wrappers
  import opened Schema

  // --------------------------------------------------------------- pagination

  /** `parseInt(searchParams.get(name) || fallback)`: `None` stands for a missing or
      empty parameter. */
  function QueryInt(raw: Option<int>, fallback: int): int {
    raw.GetOr(fallback)
  }

  /** `skip = (page - 1) * limit`: the number of products before page `page`. */
  function Skip(page: int, limit: int): (skip: int)
    ensures page >= 1 && limit >= 0 ==> skip >= 0
  {
    (page - 1) * limit
  }

  /** Consecutive pages start `limit` products apart. */
  lemma SkipConsecutive(page: int, limit: int)
    ensures Skip(page + 1, limit) == Skip(page, limit) + limit
  {
  }

  lemma MulMonotone(a: int, b: int, c: int)
    requires a <= b && c >= 0
    ensures a * c <= b * c
  {
    var d := b - a;
    assert b * c == a * c + d * c;
  }

  /** Without query parameters the first ten products are served. */
  lemma DefaultQuery()
    ensures QueryInt(None, 1) == 1 && QueryInt(None, 10) == 10
    ensures Skip(QueryInt(None, 1), QueryInt(None, 10)) == 0
  {
  }

  /** The value of `Math.ceil(total / limit)` as a JSON number. */
  datatype PageCount = Count(n: int) | PlusInfinity | NotANumber

  /** `Math.ceil(total / limit)`: a proper ceiling for a positive limit; a zero limit
      gives Infinity (or NaN when there are no products); a negative limit gives the
      ceiling of a negative quotient. */
  function TotalPages(total: nat, limit: int): (r: PageCount)
    ensures limit > 0 ==> r.Count? && r.n >= 0 && (r.n - 1) * limit < total <= r.n * limit
    ensures limit == 0 ==> r == if total == 0 then NotANumber else PlusInfinity
    ensures limit < 0 ==> r.Count? && r.n <= 0 && r.n * limit <= total < (r.n - 1) * limit
  {
    if limit > 0 then Count((total + limit - 1) / limit)
    else if limit == 0 then (if total == 0 then NotANumber else PlusInfinity)
    else Count(-(total / -limit))
  }

  /** Prisma's `skip`/`take` on the store's products in their default order. */
  function Window<T>(all: seq<T>, skip: nat, take: nat): (w: seq<T>)
    ensures |w| <= take
    ensures forall i :: 0 <= i < |w| ==> skip + i < |all| && w[i] == all[skip + i]
    ensures |w| == if skip >= |all| then 0 else if skip + take <= |all| then take else |all| - skip
  {
    var lo := if skip < |all| then skip else |all|;
    var hi := if skip + take < |all| then skip + take else |all|;
    all[lo..hi]
  }

  /** With a positive limit, page `page` (counted from 1) holds products exactly when
      it is at most `totalPages`. */
  lemma PageNonEmptyIffInRange<T>(all: seq<T>, page: int, limit: int)
    requires page >= 1 && limit > 0
    ensures |Window(all, Skip(page, limit), limit)| > 0 <==> page <= TotalPages(|all|, limit).n
  {
    var n := TotalPages(|all|, limit).n;
    if page <= n {
      MulMonotone(page - 1, n - 1, limit);
    } else {
      MulMonotone(n, page - 1, limit);
    }
  }

  // ------------------------------------------------------------- sales totals

  /** A product row with its two computed fields (`{ ...product, unitsSold, totalRevenue }`). */
  datatype ProductWithSales = ProductWithSales(product: ProductRow, unitsSold: int, totalRevenue: int)

  /** `lineItem.findMany({ where: { productId: { in: productIds } } })`: the line items
      linked to one of the page's products. */
  function FetchLineItems(items: seq<LineItemRow>, ids: set<Id>): (r: seq<LineItemRow>)
    ensures forall li :: li in r <==> li in items && li.productId.Some? && li.productId.value in ids
  {
    if items == [] then []
    else
      var rest := FetchLineItems(items[1..], ids);
      if items[0].productId.Some? && items[0].productId.value in ids then [items[0]] + rest else rest
  }

  /** `lineItems.filter(li => li.productId === product.id)`. */
  function Relevant(items: seq<LineItemRow>, id: Id): (r: seq<LineItemRow>)
    ensures forall li :: li in r <==> li in items && li.productId == Some(id)
  {
    if items == [] then []
    else
      var rest := Relevant(items[1..], id);
      if items[0].productId == Some(id) then [items[0]] + rest else rest
  }

  function SumQuantity(items: seq<LineItemRow>): int {
    if items == [] then 0 else items[0].quantity + SumQuantity(items[1..])
  }

  function SumRevenue(items: seq<LineItemRow>): int {
    if items == [] then 0 else items[0].quantity * items[0].price + SumRevenue(items[1..])
  }

  /** The `unitsSold` reduction. */
  function UnitsSold(items: seq<LineItemRow>, id: Id): int {
    SumQuantity(Relevant(items, id))
  }

  /** The `totalRevenue` reduction. */
  function TotalRevenue(items: seq<LineItemRow>, id: Id): int {
    SumRevenue(Relevant(items, id))
  }

  /** The `products.map(...)` that attaches the totals. */
  function WithSales(products: seq<ProductRow>, items: seq<LineItemRow>): seq<ProductWithSales> {
    seq(|products|, i requires 0 <= i < |products| =>
      ProductWithSales(products[i], UnitsSold(items, products[i].id), TotalRevenue(items, products[i].id)))
  }

  /** A product no line item links to has sold nothing. */
  lemma {:induction false} NoSalesIsZero(items: seq<LineItemRow>, id: Id)
    requires forall i :: 0 <= i < |items| ==> items[i].productId != Some(id)
    ensures UnitsSold(items, id) == 0 && TotalRevenue(items, id) == 0
    decreases |items|
  {
    if items != [] {
      NoSalesIsZero(items[1..], id);
      assert Relevant(items, id) == Relevant(items[1..], id);
    }
  }

  lemma {:induction false} RelevantAppend(a: seq<LineItemRow>, b: seq<LineItemRow>, id: Id)
    ensures Relevant(a + b, id) == Relevant(a, id) + Relevant(b, id)
    decreases |a|
  {
    if a != [] {
      assert (a + b)[1..] == a[1..] + b;
      RelevantAppend(a[1..], b, id);
    } else {
      assert a + b == b;
    }
  }

  lemma {:induction false} SumsAppend(a: seq<LineItemRow>, b: seq<LineItemRow>)
    ensures SumQuantity(a + b) == SumQuantity(a) + SumQuantity(b)
    ensures SumRevenue(a + b) == SumRevenue(a) + SumRevenue(b)
    decreases |a|
  {
    if a != [] {
      assert (a + b)[1..] == a[1..] + b;
      SumsAppend(a[1..], b);
    } else {
      assert a + b == b;
    }
  }

  lemma TotalsAppend(a: seq<LineItemRow>, b: seq<LineItemRow>, id: Id)
    ensures UnitsSold(a + b, id) == UnitsSold(a, id) + UnitsSold(b, id)
    ensures TotalRevenue(a + b, id) == TotalRevenue(a, id) + TotalRevenue(b, id)
  {
    RelevantAppend(a, b, id);
    SumsAppend(Relevant(a, id), Relevant(b, id));
  }

  lemma MultisetRemoveAt(b: seq<LineItemRow>, k: nat)
    requires k < |b|
    ensures multiset(b[..k] + b[k + 1..]) == multiset(b) - multiset{b[k]}
  {
    assert b == b[..k] + [b[k]] + b[k + 1..];
  }

  /** Taking one line item out of the list takes its share out of the totals. */
  lemma TotalsRemoveAt(b: seq<LineItemRow>, k: nat, id: Id)
    requires k < |b|
    ensures UnitsSold(b, id) == UnitsSold([b[k]], id) + UnitsSold(b[..k] + b[k + 1..], id)
    ensures TotalRevenue(b, id) == TotalRevenue([b[k]], id) + TotalRevenue(b[..k] + b[k + 1..], id)
  {
    assert b == b[..k] + ([b[k]] + b[k + 1..]);
    TotalsAppend(b[..k], [b[k]] + b[k + 1..], id);
    TotalsAppend([b[k]], b[k + 1..], id);
    TotalsAppend(b[..k], b[k + 1..], id);
  }

  /** The totals do not depend on the order `findMany` returns the line items in. */
  lemma {:induction false} TotalsIgnoreOrder(a: seq<LineItemRow>, b: seq<LineItemRow>, id: Id)
    requires multiset(a) == multiset(b)
    ensures UnitsSold(a, id) == UnitsSold(b, id) && TotalRevenue(a, id) == TotalRevenue(b, id)
    decreases |a|
  {
    if a != [] {
      var k := MatchingIndex(a, b);
      MultisetTail(a, b, k);
      TotalsIgnoreOrder(a[1..], b[..k] + b[k + 1..], id);
      TotalsStep(a, b, k, id);
    } else {
      assert |b| == |multiset(b)| == 0;
    }
  }

  /** A position of `b` holding the first element of `a`, when both hold the same elements. */
  lemma MatchingIndex(a: seq<LineItemRow>, b: seq<LineItemRow>) returns (k: nat)
    requires multiset(a) == multiset(b) && a != []
    ensures k < |b| && b[k] == a[0]
  {
    assert a[0] in multiset(a);
    assert a[0] in b;
    k :| 0 <= k < |b| && b[k] == a[0];
  }

  /** Equal totals after removing one matching line item from each list give equal totals. */
  lemma TotalsStep(a: seq<LineItemRow>, b: seq<LineItemRow>, k: nat, id: Id)
    requires a != [] && k < |b| && b[k] == a[0]
    requires UnitsSold(a[1..], id) == UnitsSold(b[..k] + b[k + 1..], id)
    requires TotalRevenue(a[1..], id) == TotalRevenue(b[..k] + b[k + 1..], id)
    ensures UnitsSold(a, id) == UnitsSold(b, id) && TotalRevenue(a, id) == TotalRevenue(b, id)
  {
    TotalsRemoveAt(a, 0, id);
    TotalsRemoveAt(b, k, id);
    assert a[..0] + a[1..] == a[1..];
  }

  lemma MultisetTail(a: seq<LineItemRow>, b: seq<LineItemRow>, k: nat)
    requires multiset(a) == multiset(b) && a != [] && k < |b| && b[k] == a[0]
    ensures multiset(a[1..]) == multiset(b[..k] + b[k + 1..])
  {
    calc {
      multiset(a[1..]);
      == { assert a == [a[0]] + a[1..]; }
      multiset(a) - multiset{a[0]};
      == { MultisetRemoveAt(b, k); }
      multiset(b[..k] + b[k + 1..]);
    }
  }

  /** Fetching only the line items of the page's products loses none of their sales. */
  lemma {:induction false} PageFetchKeepsTotals(items: seq<LineItemRow>, ids: set<Id>, id: Id)
    requires id in ids
    ensures UnitsSold(FetchLineItems(items, ids), id) == UnitsSold(items, id)
    ensures TotalRevenue(FetchLineItems(items, ids), id) == TotalRevenue(items, id)
    decreases |items|
  {
    if items != [] {
      PageFetchKeepsTotals(items[1..], ids, id);
      var rest := FetchLineItems(items[1..], ids);
      TotalsAppend([items[0]], rest, id);
      TotalsAppend([items[0]], items[1..], id);
      assert items == [items[0]] + items[1..];
      if !(items[0].productId.Some? && items[0].productId.value in ids) {
        assert Relevant([items[0]], id) == [];
      }
    }
  }

  // ------------------------------------------------------------------ sorting

  ghost predicate SortedByRevenue(s: seq<ProductWithSales>) {
    forall i, j :: 0 <= i < j < |s| ==> s[i].totalRevenue >= s[j].totalRevenue
  }

  /** Insert `x` after every entry with at least its revenue. */
  function InsertByRevenue(x: ProductWithSales, s: seq<ProductWithSales>): (r: seq<ProductWithSales>)
    requires SortedByRevenue(s)
    ensures SortedByRevenue(r)
    ensures multiset(r) == multiset(s) + multiset{x}
    decreases |s|
  {
    if s == [] then [x]
    else if s[0].totalRevenue >= x.totalRevenue then
      var rest := InsertByRevenue(x, s[1..]);
      assert s == [s[0]] + s[1..];
      HeadAboveRest(s[0], x, s[1..], rest);
      [s[0]] + rest
    else [x] + s
  }

  /** Putting in front an entry whose revenue is at least that of every element of a
      sorted list keeps it sorted. */
  lemma HeadAboveRest(head: ProductWithSales, x: ProductWithSales, tail: seq<ProductWithSales>, rest: seq<ProductWithSales>)
    requires SortedByRevenue([head] + tail) && SortedByRevenue(rest)
    requires multiset(rest) == multiset(tail) + multiset{x} && head.totalRevenue >= x.totalRevenue
    ensures SortedByRevenue([head] + rest)
  {
    forall j | 0 <= j < |rest| ensures rest[j].totalRevenue <= head.totalRevenue {
      var y := rest[j];
      assert y in multiset(rest);
      if y != x {
        assert y in multiset(tail);
        assert y in tail;
        var i :| 0 <= i < |tail| && tail[i] == y;
        var whole := [head] + tail;
        assert whole[0] == head && whole[i + 1] == y;
      }
    }
    var r := [head] + rest;
    forall i, j | 0 <= i < j < |r| ensures r[i].totalRevenue >= r[j].totalRevenue {
      if i > 0 {
        assert r[i] == rest[i - 1] && r[j] == rest[j - 1];
      } else {
        assert r[j] == rest[j - 1];
      }
    }
  }

  /** `.sort((a, b) => b.totalRevenue - a.totalRevenue)`, as a stable insertion sort. */
  function SortByRevenue(s: seq<ProductWithSales>): (r: seq<ProductWithSales>)
    ensures SortedByRevenue(r)
    ensures multiset(r) == multiset(s)
    decreases |s|
  {
    if s == [] then []
    else
      var n := |s| - 1;
      assert s == s[..n] + [s[n]];
      InsertByRevenue(s[n], SortByRevenue(s[..n]))
  }

  // ------------------------------------------------------------------- route

  datatype Pagination = Pagination(total: nat, page: int, limit: int, totalPages: PageCount)
  datatype ProductsListResponse = ProductsListResponse(products: seq<ProductWithSales>, pagination: Pagination)

  function Ids(products: seq<ProductRow>): (ids: set<Id>)
    ensures forall p :: p in products ==> p.id in ids
  {
    set p | p in products :: p.id
  }

  /** `GET` for a store whose products, in Prisma's default order, are `storeProducts`
      and whose line-item table holds `allItems`. */
  function ProductsListRoute(storeProducts: seq<ProductRow>, allItems: seq<LineItemRow>,
                             pageParam: Option<int>, limitParam: Option<int>): ProductsListResponse
    requires QueryInt(pageParam, 1) >= 1 && QueryInt(limitParam, 10) >= 0
  {
    var page := QueryInt(pageParam, 1);
    var limit := QueryInt(limitParam, 10);
    var products := Window(storeProducts, Skip(page, limit), limit);
    var lineItems := FetchLineItems(allItems, Ids(products));
    ProductsListResponse(SortByRevenue(WithSales(products, lineItems)),
                         Pagination(|storeProducts|, page, limit, TotalPages(|storeProducts|, limit)))
  }

  /** The response lists the page's products, each once, sorted by revenue, each with
      the totals of all its line items in the table. */
  lemma ProductsListCorrect(storeProducts: seq<ProductRow>, allItems: seq<LineItemRow>,
                            pageParam: Option<int>, limitParam: Option<int>)
    requires QueryInt(pageParam, 1) >= 1 && QueryInt(limitParam, 10) >= 0
    ensures var page := QueryInt(pageParam, 1); var limit := QueryInt(limitParam, 10);
      var products := Window(storeProducts, Skip(page, limit), limit);
      var r := ProductsListRoute(storeProducts, allItems, pageParam, limitParam);
      && SortedByRevenue(r.products)
      && multiset(r.products) == multiset(WithSales(products, allItems))
      && r.pagination.totalPages == TotalPages(|storeProducts|, limit)
  {
    var page := QueryInt(pageParam, 1);
    var limit := QueryInt(limitParam, 10);
    var products := Window(storeProducts, Skip(page, limit), limit);
    var ids := Ids(products);
    var fetched := FetchLineItems(allItems, ids);
    forall p | p in products
      ensures UnitsSold(fetched, p.id) == UnitsSold(allItems, p.id)
      ensures TotalRevenue(fetched, p.id) == TotalRevenue(allItems, p.id)
    {
      PageFetchKeepsTotals(allItems, ids, p.id);
    }
    assert WithSales(products, fetched) == WithSales(products, allItems);
  }
}
