/**
 * The basket request handlers (add, update, remove, create an order), the
 * basket page and the catalogue filter of the product list. Each handler gets
 * the session basket of the request, the product table keyed by id, and the
 * request parameters; it changes the basket in place and returns the response.
 */
module Views {
  import opened Common
  import opened Models
  import opened Basket
  import opened Queryset

  /** What a handler answers. */
  datatype Response =
    /** `get_object_or_404` found no product. */
    | NotFound
    /** An exception escaped the handler: `len()` of a basket whose count is negative, or a missing product. */
    | ServerError
    /** `LoginRequiredMixin` sent an anonymous visitor to the login page. */
    | LoginRedirect
    /** `{"success": false, ...}`. */
    | Rejected
    /** `{"success": true, "basket_count": ..., "total_cost": ...}`. */
    | BasketChanged(basketCount: nat, totalCost: real)
    /** The update handler's success body, which also reports the line's own total. */
    | ItemChanged(totalPrice: real, basketCount: nat, totalCost: real)
    /** `{"success": true, "order_id": ...}`. */
    | OrderPlaced(orderId: int)

  /** Every product is stored under its own id. */
  predicate KeyedById(products: map<int, Product>)
  {
    forall k :: k in products ==> products[k].id == k
  }

  /** The price `add` captures for a product at `now`. */
  function CurrentPrice(p: Product, now: int): real
  {
    PriceWithPromotions(p.price, p.promotions, now)
  }

  /**
   * The success body of the add and remove handlers for the basket `m`:
   * `len(basket)` raises when the count sum is negative.
   */
  ghost function Report(m: Contents): Response
  {
    if Count(m) < 0 then ServerError else BasketChanged(Count(m), Total(m))
  }

  /** Computes `Report` the way the handlers do: `len(basket)` and the sum of price times count. */
  method ReportBasket(basket: SessionBasket) returns (resp: Response)
    ensures resp == Report(basket.basket)
  {
    var n := basket.Len();
    var total := basket.GetTotalPrice();
    if n < 0 {
      resp := ServerError;
    } else {
      resp := BasketChanged(n, total);
    }
  }

  // ---------------------------------------------------------------------------
  // Add

  /**
   * `AddToBasketView.post`: adds one unit of an available product at its
   * current promotional price; an unavailable product leaves the basket alone.
   */
  method AddToBasket(basket: SessionBasket, products: map<int, Product>, productId: int, now: int)
      returns (resp: Response)
    requires KeyedById(products)
    modifies basket
    ensures basket.inSession == old(basket.inSession)
    ensures productId !in products ==> resp == NotFound && basket.basket == old(basket.basket)
    ensures productId in products && !products[productId].available ==>
              resp == Rejected && basket.basket == old(basket.basket)
    ensures productId in products && products[productId].available ==>
              basket.basket == Added(old(basket.basket), productId, CurrentPrice(products[productId], now), 1, false)
              && Count(basket.basket) == Count(old(basket.basket)) + 1
              && resp == Report(basket.basket)
  {
    if productId !in products {
      return NotFound;
    }
    var p := products[productId];
    if !p.available {
      return Rejected;
    }
    basket.Add(p, 1, false, now);
    AddRaisesCount(old(basket.basket), productId, CurrentPrice(p, now), 1);
    resp := ReportBasket(basket);
  }

  // ---------------------------------------------------------------------------
  // Update

  /** The count the update handler works with: the form value, or 1 when it is absent. */
  function RequestedCount(countParam: Option<string>, parseInt: string -> Option<int>): Option<int>
  {
    if countParam.None? then Some(1) else parseInt(countParam.value)
  }

  /**
   * The basket after a successful update to `count`: a count of at most 0
   * first removes the entry; then the entry is written with `update_count`
   * twice. So the entry always ends with exactly `count`, and a removed entry
   * comes back at the current price.
   */
  function Updated(m: Contents, id: int, price: real, count: int): (r: Contents)
    ensures r.Keys == m.Keys + {id}
    ensures r[id] == LineItem(count, if count > 0 && id in m then m[id].price else price)
    ensures forall k :: k in m && k != id ==> r[k] == m[k]
  {
    var cleared := if count <= 0 then Removed(m, id, if id in m then m[id].count else 0) else m;
    Added(Added(cleared, id, price, count, true), id, price, count, true)
  }

  /** After an update, the basket count is the other entries' counts plus the submitted count. */
  lemma UpdatedCount(m: Contents, id: int, price: real, count: int)
    ensures Count(Updated(m, id, price, count)) == Count(m - {id}) + count
  {
    var r := Updated(m, id, price, count);
    assert r - {id} == m - {id};
    CountRemove(r, id);
  }

  /** Submitting a count that is not a positive number still leaves the entry in the basket. */
  lemma UpdateNeverDeletes(m: Contents, id: int, price: real, count: int)
    requires count <= 0
    ensures id in Updated(m, id, price, count) && Updated(m, id, price, count)[id].count == count
  {
  }

  /**
   * `UpdateBasketItemView.post`: sets the count of product `itemId` to the
   * submitted value. A value that is not an integer is rejected with the
   * basket unchanged.
   */
  method UpdateBasketItem(basket: SessionBasket, products: map<int, Product>, itemId: int,
                          countParam: Option<string>, parseInt: string -> Option<int>, now: int)
      returns (resp: Response)
    requires KeyedById(products)
    modifies basket
    ensures basket.inSession == old(basket.inSession)
    ensures RequestedCount(countParam, parseInt).None? ==> resp == Rejected && basket.basket == old(basket.basket)
    ensures RequestedCount(countParam, parseInt).Some? && itemId !in products ==>
              resp == NotFound &&
              basket.basket == if RequestedCount(countParam, parseInt).value <= 0 then old(basket.basket) - {itemId}
                               else old(basket.basket)
    ensures RequestedCount(countParam, parseInt).Some? && itemId in products ==>
              var count := RequestedCount(countParam, parseInt).value;
              basket.basket == Updated(old(basket.basket), itemId, CurrentPrice(products[itemId], now), count)
              && resp == if Count(basket.basket) < 0 then ServerError
                         else ItemChanged(basket.basket[itemId].TotalPrice(), Count(basket.basket), Total(basket.basket))
  {
    var parsed := RequestedCount(countParam, parseInt);
    if parsed.None? {
      return Rejected;
    }
    var count := parsed.value;
    if count <= 0 {
      var stored := if itemId in basket.basket then basket.basket[itemId].count else 0;
      basket.Remove(itemId, stored);
    } else {
      if itemId !in products {
        return NotFound;
      }
      basket.Add(products[itemId], count, true, now);
    }
    if itemId !in products {
      return NotFound;
    }
    basket.Add(products[itemId], count, true, now);
    var totalPrice := basket.basket[itemId].TotalPrice();
    var total := basket.GetTotalPrice();
    var n := basket.Len();
    if n < 0 {
      resp := ServerError;
    } else {
      resp := ItemChanged(totalPrice, n, total);
    }
  }

  // ---------------------------------------------------------------------------
  // Remove

  /**
   * `RemoveFromBasketView.post`: passes the stored count to `remove`, so the
   * whole entry goes, whatever its count; an absent product changes nothing.
   */
  method RemoveFromBasket(basket: SessionBasket, itemId: int) returns (resp: Response)
    modifies basket
    ensures basket.inSession == old(basket.inSession)
    ensures basket.basket == old(basket.basket) - {itemId}
    ensures itemId in old(basket.basket) ==> Count(basket.basket) == Count(old(basket.basket)) - old(basket.basket)[itemId].count
    ensures resp == Report(basket.basket)
  {
    var stored := if itemId in basket.basket then basket.basket[itemId].count else 0;
    basket.Remove(itemId, stored);
    if itemId in old(basket.basket) {
      RemoveLowersCount(old(basket.basket), itemId, stored);
    } else {
      assert old(basket.basket) - {itemId} == old(basket.basket);
    }
    resp := ReportBasket(basket);
  }

  // ---------------------------------------------------------------------------
  // Orders and the basket page

  /** The basket's entries with each product's live base price instead of the stored one. */
  function LiveItems(m: Contents, products: map<int, Product>): (r: Contents)
    requires m.Keys <= products.Keys
    ensures r.Keys == m.Keys
    ensures forall k :: k in m ==> r[k].count == m[k].count && r[k].price == products[k].price
  {
    map k | k in m :: LineItem(m[k].count, products[k].price)
  }

  /** Live pricing keeps every count, so it keeps the basket count. */
  lemma LiveItemsKeepCount(m: Contents, products: map<int, Product>)
    requires m.Keys <= products.Keys
    ensures Count(LiveItems(m, products)) == Count(m)
  {
    CountSameCounts(m, LiveItems(m, products));
  }

  /** Live and stored totals agree when every stored price is the product's base price. */
  lemma LiveItemsAgreeWithStoredPrices(m: Contents, products: map<int, Product>)
    requires m.Keys <= products.Keys
    requires forall k :: k in m ==> m[k].price == products[k].price
    ensures LiveItems(m, products) == m
  {
    SameEntries(LiveItems(m, products), m);
  }

  /** The basket page: one line per entry at the live price, their total, and the count sum. */
  datatype BasketPage = BasketPage(items: Contents, totalCost: real, basketCount: int)

  /**
   * `BasketView.get_context_data`: the page over live product prices. A
   * basket entry whose product is gone makes the page fail.
   */
  method BasketSummary(basket: SessionBasket, products: map<int, Product>) returns (page: Option<BasketPage>)
    ensures page.Some? <==> basket.basket.Keys <= products.Keys
    ensures page.Some? ==>
              page.value.items == LiveItems(basket.basket, products)
              && page.value.totalCost == Total(LiveItems(basket.basket, products))
              && page.value.basketCount == Count(basket.basket)
  {
    var m := basket.basket;
    var items: Contents := map[];
    var todo := m.Keys;
    while todo != {}
      invariant todo <= m.Keys
      invariant items.Keys == m.Keys - todo
      invariant forall k :: k in items ==> k in products && items[k] == LineItem(m[k].count, products[k].price)
      decreases |todo|
    {
      NonEmptyHasElement(todo);
      var k :| k in todo;
      if k !in products {
        return None;
      }
      items := items[k := LineItem(m[k].count, products[k].price)];
      todo := todo - {k};
    }
    SubsetOfIds(m.Keys, products.Keys);
    SameEntries(items, LiveItems(m, products));
    var total := SumTotals(items);
    var count := SumCounts(items);
    LiveItemsKeepCount(m, products);
    page := Some(BasketPage(items, total, count));
  }

  /**
   * `CreateOrderView.post`: an anonymous visitor is sent to log in; an empty
   * basket is rejected; otherwise an order is created (its id is `orderId`)
   * with one item per entry at the live base price, and the session drops the
   * basket. A missing product raises after the order row exists, leaving it
   * with the items created so far. The basket is the one the handler has
   * just built, which the constructor always stores in the session.
   */
  method CreateOrder(basket: SessionBasket, products: map<int, Product>, orderId: int)
      returns (resp: Response, order: Order?)
    requires basket.inSession
    modifies basket
    ensures basket.basket == old(basket.basket)
    ensures basket.user.None? ==> resp == LoginRedirect && order == null && basket.inSession == old(basket.inSession)
    ensures basket.user.Some? && Count(basket.basket) == 0 ==>
              resp == Rejected && order == null && basket.inSession == old(basket.inSession)
    ensures basket.user.Some? && Count(basket.basket) < 0 ==>
              resp == ServerError && order == null && basket.inSession == old(basket.inSession)
    ensures basket.user.Some? && Count(basket.basket) > 0 && !(basket.basket.Keys <= products.Keys) ==>
              resp == ServerError && order != null && fresh(order) && basket.inSession == old(basket.inSession)
              && order.items.Keys <= basket.basket.Keys
              && forall k :: k in order.items ==> k in products && order.items[k] == LineItem(basket.basket[k].count, products[k].price)
    ensures basket.user.Some? && Count(basket.basket) > 0 && basket.basket.Keys <= products.Keys ==>
              resp == OrderPlaced(orderId) && order != null && fresh(order)
              && order.id == orderId && order.userId == basket.user.value && order.status == Created
              && order.items == LiveItems(basket.basket, products)
              && Count(order.items) == Count(basket.basket)
              && basket.SessionValue() == None
  {
    order := null;
    if basket.user.None? {
      return LoginRedirect, null;
    }
    var n := basket.Len();
    if n == 0 {
      return Rejected, null;
    }
    if n < 0 {
      return ServerError, null;
    }
    var m := basket.basket;
    order := new Order(orderId, basket.user.value);
    var complete := FillOrder(order, m, products);
    if !complete {
      return ServerError, order;
    }
    LiveItemsKeepCount(m, products);
    basket.Clear();
    resp := OrderPlaced(orderId);
  }

  /**
   * The loop of `CreateOrderView.post`: one order item per basket entry at
   * the live base price, stopping at the first entry whose product is gone.
   */
  method FillOrder(order: Order, m: Contents, products: map<int, Product>) returns (complete: bool)
    requires order.items == map[]
    modifies order
    ensures order.status == old(order.status)
    ensures complete <==> m.Keys <= products.Keys
    ensures order.items.Keys <= m.Keys
    ensures forall k :: k in order.items ==> k in products && order.items[k] == LineItem(m[k].count, products[k].price)
    ensures complete ==> order.items == LiveItems(m, products)
  {
    var todo := m.Keys;
    while todo != {}
      invariant todo <= m.Keys && order.status == old(order.status)
      invariant order.items.Keys == m.Keys - todo
      invariant forall k :: k in order.items ==> k in products && order.items[k] == LineItem(m[k].count, products[k].price)
      decreases |todo|
    {
      NonEmptyHasElement(todo);
      var k :| k in todo;
      if k !in products {
        return false;
      }
      order.AddItem(k, LineItem(m[k].count, products[k].price));
      todo := todo - {k};
    }
    SubsetOfIds(m.Keys, products.Keys);
    SameEntries(order.items, LiveItems(m, products));
    complete := true;
  }

  // ---------------------------------------------------------------------------
  // The catalogue

  /** The query parameters `ProductListView.get_queryset` reads; each is missing or a string. */
  datatype CatalogueQuery = CatalogueQuery(
    category: Option<string>,
    available: Option<string>,
    search: Option<string>,
    minPrice: Option<string>,
    maxPrice: Option<string>,
    tag: Option<string>)

  /** A parameter takes part only when it is present and not empty. */
  predicate Supplied(v: Option<string>)
  {
    v.Some? && v.value != ""
  }

  /** The value of a parameter, or "" when it is missing. */
  function Text(v: Option<string>): string
  {
    if v.Some? then v.value else ""
  }

  /** A parsed number parameter, or `otherwise` when it is missing or does not parse. */
  function NumberOr<T>(v: Option<string>, parse: string -> Option<T>, otherwise: T): T
  {
    if v.Some? && parse(v.value).Some? then parse(v.value).value else otherwise
  }

  /** `[c]` when the parameter takes part, `[]` otherwise. */
  function When(b: bool, c: Condition): seq<Condition>
  {
    if b then [c] else []
  }

  /** The `available` test: only "true" and "false" filter. */
  function AvailabilityConditions(v: Option<string>): seq<Condition>
  {
    if v == Some("true") then [AvailableIs(true)]
    else if v == Some("false") then [AvailableIs(false)]
    else []
  }

  /**
   * The filters `get_queryset` chains, in its order, or `None` when a supplied
   * number does not parse (the query then raises).
   */
  function CatalogueConditions(q: CatalogueQuery, parseInt: string -> Option<int>, parseDecimal: string -> Option<real>)
    : Option<seq<Condition>>
  {
    if !QueryParses(q, parseInt, parseDecimal) then None
    else
      Some(When(Supplied(q.category), CategoryIs(NumberOr(q.category, parseInt, 0)))
           + AvailabilityConditions(q.available)
           + When(Supplied(q.search), TitleOrDescriptionContains(Text(q.search)))
           + When(Supplied(q.minPrice), PriceAtLeast(NumberOr(q.minPrice, parseDecimal, 0.0)))
           + When(Supplied(q.maxPrice), PriceAtMost(NumberOr(q.maxPrice, parseDecimal, 0.0)))
           + When(Supplied(q.tag), HasTag(NumberOr(q.tag, parseInt, 0))))
  }

  /**
   * `get_queryset`: the product rows left by the chained filters; they are the
   * products matching the query, in their original order.
   */
  function Catalogue(products: seq<Product>, q: CatalogueQuery,
                     parseInt: string -> Option<int>, parseDecimal: string -> Option<real>): (r: Option<seq<Product>>)
    ensures r.Some? ==> r.value == MatchingRows(products, q, parseInt, parseDecimal)
  {
    match CatalogueConditions(q, parseInt, parseDecimal)
    case None => None
    case Some(cs) =>
      ChainFollowsQuery(products, q, parseInt, parseDecimal);
      Some(FilterAll(products, cs))
  }

  /** The query can be evaluated: every supplied number parses. */
  predicate QueryParses(q: CatalogueQuery, parseInt: string -> Option<int>, parseDecimal: string -> Option<real>)
  {
    (Supplied(q.category) ==> parseInt(q.category.value).Some?)
    && (Supplied(q.minPrice) ==> parseDecimal(q.minPrice.value).Some?)
    && (Supplied(q.maxPrice) ==> parseDecimal(q.maxPrice.value).Some?)
    && (Supplied(q.tag) ==> parseInt(q.tag.value).Some?)
  }

  /** `category`: the product is in the given category. */
  predicate CategoryMatches(p: Product, q: CatalogueQuery, parseInt: string -> Option<int>)
  {
    Supplied(q.category) ==> p.categoryId == NumberOr(q.category, parseInt, 0)
  }

  /** `available`: "true" keeps available products, "false" unavailable ones. */
  predicate AvailabilityMatches(p: Product, q: CatalogueQuery)
  {
    (q.available == Some("true") ==> p.available) && (q.available == Some("false") ==> !p.available)
  }

  /** `search`: the term occurs in the title or the description, ignoring case. */
  predicate SearchMatches(p: Product, q: CatalogueQuery)
  {
    Supplied(q.search) ==> ContainsIgnoringCase(p.title, Text(q.search)) || ContainsIgnoringCase(p.description, Text(q.search))
  }

  /** `min_price` and `max_price`: the price is within the closed range given. */
  predicate PriceMatches(p: Product, q: CatalogueQuery, parseDecimal: string -> Option<real>)
  {
    (Supplied(q.minPrice) ==> p.price >= NumberOr(q.minPrice, parseDecimal, 0.0))
    && (Supplied(q.maxPrice) ==> p.price <= NumberOr(q.maxPrice, parseDecimal, 0.0))
  }

  /** `tag`: the product carries the tag. */
  predicate TagMatches(p: Product, q: CatalogueQuery, parseInt: string -> Option<int>)
  {
    Supplied(q.tag) ==> NumberOr(q.tag, parseInt, 0) in p.tags
  }

  /** A product satisfies every supplied parameter. */
  predicate MatchesQuery(p: Product, q: CatalogueQuery, parseInt: string -> Option<int>, parseDecimal: string -> Option<real>)
  {
    CategoryMatches(p, q, parseInt) && AvailabilityMatches(p, q) && SearchMatches(p, q)
    && PriceMatches(p, q, parseDecimal) && TagMatches(p, q, parseInt)
  }

  /** The page fails exactly when a supplied number does not parse. */
  lemma CatalogueFailsOnlyOnBadNumbers(products: seq<Product>, q: CatalogueQuery,
                                       parseInt: string -> Option<int>, parseDecimal: string -> Option<real>)
    ensures Catalogue(products, q, parseInt, parseDecimal).Some? <==> QueryParses(q, parseInt, parseDecimal)
  {
  }

  /** The conditions of a query that parses hold of a product exactly when it matches the query. */
  lemma ConditionsMeanQuery(p: Product, q: CatalogueQuery, parseInt: string -> Option<int>, parseDecimal: string -> Option<real>)
    requires QueryParses(q, parseInt, parseDecimal)
    ensures HoldsAll(CatalogueConditions(q, parseInt, parseDecimal).value, p) <==> MatchesQuery(p, q, parseInt, parseDecimal)
  {
    var c1 := When(Supplied(q.category), CategoryIs(NumberOr(q.category, parseInt, 0)));
    var c2 := AvailabilityConditions(q.available);
    var c3 := When(Supplied(q.search), TitleOrDescriptionContains(Text(q.search)));
    var c4 := When(Supplied(q.minPrice), PriceAtLeast(NumberOr(q.minPrice, parseDecimal, 0.0)));
    var c5 := When(Supplied(q.maxPrice), PriceAtMost(NumberOr(q.maxPrice, parseDecimal, 0.0)));
    var c6 := When(Supplied(q.tag), HasTag(NumberOr(q.tag, parseInt, 0)));
    EachClauseMeansItsParameter(p, q, parseInt, parseDecimal);
    HoldsAllConcat(c1, c2, p);
    HoldsAllConcat(c1 + c2, c3, p);
    HoldsAllConcat(c1 + c2 + c3, c4, p);
    HoldsAllConcat(c1 + c2 + c3 + c4, c5, p);
    HoldsAllConcat(c1 + c2 + c3 + c4 + c5, c6, p);
  }

  /** Each piece of the chain imposes exactly its parameter's test. */
  lemma EachClauseMeansItsParameter(p: Product, q: CatalogueQuery, parseInt: string -> Option<int>, parseDecimal: string -> Option<real>)
    ensures HoldsAll(When(Supplied(q.category), CategoryIs(NumberOr(q.category, parseInt, 0))), p) <==> CategoryMatches(p, q, parseInt)
    ensures HoldsAll(AvailabilityConditions(q.available), p) <==> AvailabilityMatches(p, q)
    ensures HoldsAll(When(Supplied(q.search), TitleOrDescriptionContains(Text(q.search))), p) <==> SearchMatches(p, q)
    ensures HoldsAll(When(Supplied(q.minPrice), PriceAtLeast(NumberOr(q.minPrice, parseDecimal, 0.0))), p)
            && HoldsAll(When(Supplied(q.maxPrice), PriceAtMost(NumberOr(q.maxPrice, parseDecimal, 0.0))), p)
            <==> PriceMatches(p, q, parseDecimal)
    ensures HoldsAll(When(Supplied(q.tag), HasTag(NumberOr(q.tag, parseInt, 0))), p) <==> TagMatches(p, q, parseInt)
  {
    assert "true" != "false";
    OneCondition(When(Supplied(q.category), CategoryIs(NumberOr(q.category, parseInt, 0))), p);
    OneCondition(AvailabilityConditions(q.available), p);
    OneCondition(When(Supplied(q.search), TitleOrDescriptionContains(Text(q.search))), p);
    OneCondition(When(Supplied(q.minPrice), PriceAtLeast(NumberOr(q.minPrice, parseDecimal, 0.0))), p);
    OneCondition(When(Supplied(q.maxPrice), PriceAtMost(NumberOr(q.maxPrice, parseDecimal, 0.0))), p);
    OneCondition(When(Supplied(q.tag), HasTag(NumberOr(q.tag, parseInt, 0))), p);
  }

  /** A list of at most one condition holds exactly when its condition, if any, does. */
  lemma OneCondition(cs: seq<Condition>, p: Product)
    requires |cs| <= 1
    ensures HoldsAll(cs, p) <==> (|cs| == 1 ==> Holds(cs[0], p))
  {
  }

  /** All conditions of a concatenation hold exactly when all of each part hold. */
  lemma HoldsAllConcat(a: seq<Condition>, b: seq<Condition>, p: Product)
    ensures HoldsAll(a + b, p) <==> HoldsAll(a, p) && HoldsAll(b, p)
  {
    if HoldsAll(a, p) && HoldsAll(b, p) {
      forall i | 0 <= i < |a + b|
        ensures Holds((a + b)[i], p)
      {
        if i >= |a| {
          assert (a + b)[i] == b[i - |a|];
        }
      }
    }
    if HoldsAll(a + b, p) {
      forall i | 0 <= i < |a|
        ensures Holds(a[i], p)
      {
        assert (a + b)[i] == a[i];
      }
      forall i | 0 <= i < |b|
        ensures Holds(b[i], p)
      {
        assert (a + b)[|a| + i] == b[i];
      }
    }
  }

  /** The list keeps exactly the products that satisfy every supplied parameter. */
  lemma CatalogueKeepsExactlyMatching(products: seq<Product>, q: CatalogueQuery,
                                      parseInt: string -> Option<int>, parseDecimal: string -> Option<real>)
    requires QueryParses(q, parseInt, parseDecimal)
    ensures Catalogue(products, q, parseInt, parseDecimal).Some?
    ensures forall p :: p in Catalogue(products, q, parseInt, parseDecimal).value <==>
                        p in products && MatchesQuery(p, q, parseInt, parseDecimal)
  {
    MatchingRowsMembership(products, q, parseInt, parseDecimal);
  }

  /** With no parameter supplied (and `available` neither "true" nor "false"), every product is listed. */
  lemma EmptyQueryListsEverything(products: seq<Product>, q: CatalogueQuery,
                                  parseInt: string -> Option<int>, parseDecimal: string -> Option<real>)
    requires !Supplied(q.category) && !Supplied(q.search) && !Supplied(q.minPrice) && !Supplied(q.maxPrice) && !Supplied(q.tag)
    requires q.available != Some("true") && q.available != Some("false")
    ensures Catalogue(products, q, parseInt, parseDecimal) == Some(products)
  {
    var none: seq<Condition> := [];
    assert none + none + none + none + none + none == none;
    assert CatalogueConditions(q, parseInt, parseDecimal) == Some(none);
  }

  /** The products matching the query, in the order given: the reference list of the page. */
  function MatchingRows(products: seq<Product>, q: CatalogueQuery,
                        parseInt: string -> Option<int>, parseDecimal: string -> Option<real>): seq<Product>
  {
    if products == [] then []
    else (if MatchesQuery(products[0], q, parseInt, parseDecimal) then [products[0]] else [])
         + MatchingRows(products[1..], q, parseInt, parseDecimal)
  }

  /** One pass by conditions that mean the query keeps the matching rows, in order. */
  lemma {:induction false} WhereIsMatchingRows(s: seq<Product>, cs: seq<Condition>, q: CatalogueQuery,
                                               parseInt: string -> Option<int>, parseDecimal: string -> Option<real>)
    requires forall p :: HoldsAll(cs, p) <==> MatchesQuery(p, q, parseInt, parseDecimal)
    ensures Where(s, cs) == MatchingRows(s, q, parseInt, parseDecimal)
  {
    if s != [] {
      WhereIsMatchingRows(s[1..], cs, q, parseInt, parseDecimal);
    }
  }

  /** The chained filters of a query that parses keep the matching products, in order. */
  lemma ChainFollowsQuery(products: seq<Product>, q: CatalogueQuery,
                          parseInt: string -> Option<int>, parseDecimal: string -> Option<real>)
    requires QueryParses(q, parseInt, parseDecimal)
    ensures FilterAll(products, CatalogueConditions(q, parseInt, parseDecimal).value)
            == MatchingRows(products, q, parseInt, parseDecimal)
  {
    var cs := CatalogueConditions(q, parseInt, parseDecimal).value;
    ChainIsConjunction(products, cs);
    forall p
      ensures HoldsAll(cs, p) <==> MatchesQuery(p, q, parseInt, parseDecimal)
    {
      ConditionsMeanQuery(p, q, parseInt, parseDecimal);
    }
    WhereIsMatchingRows(products, cs, q, parseInt, parseDecimal);
  }

  /** The matching rows are exactly the input rows that match the query. */
  lemma {:induction false} MatchingRowsMembership(products: seq<Product>, q: CatalogueQuery,
                                                  parseInt: string -> Option<int>, parseDecimal: string -> Option<real>)
    ensures forall p :: p in MatchingRows(products, q, parseInt, parseDecimal) <==>
                        p in products && MatchesQuery(p, q, parseInt, parseDecimal)
  {
    if products != [] {
      MatchingRowsMembership(products[1..], q, parseInt, parseDecimal);
      assert products == [products[0]] + products[1..];
    }
  }
}
