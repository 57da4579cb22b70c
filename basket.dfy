/**
 * The session basket: a map from product id to a line (count and the unit
 * price captured when the line was created), kept in the visitor's session
 * and changed in place; and the per-user basket stored in the database, which
 * the session basket is copied to on logout and merged from on login.
 */
module Basket {
  import opened Common
  import opened Models

  /** What a basket holds: for each product id, its count and unit price. */
  type Contents = map<int, LineItem>

  // ---------------------------------------------------------------------------
  // Aggregates

  /** The sum of the counts of all entries (`__len__`). */
  ghost function Count(m: Contents): int
    decreases |m|
  {
    if m.Keys == {} then 0
    else
      NonEmptyHasElement(m.Keys);
      var k :| k in m.Keys;
      m[k].count + Count(m - {k})
  }

  /** The sum of price times count over all entries (`get_total_price`). */
  ghost function Total(m: Contents): real
    decreases |m|
  {
    if m.Keys == {} then 0.0
    else
      NonEmptyHasElement(m.Keys);
      var k :| k in m.Keys;
      m[k].TotalPrice() + Total(m - {k})
  }

  /** The count sum may be computed by taking out any entry first. */
  lemma {:induction false} CountRemove(m: Contents, k: int)
    requires k in m
    ensures Count(m) == m[k].count + Count(m - {k})
    decreases |m|
  {
    var j :| j in m && Count(m) == m[j].count + Count(m - {j});
    if j != k {
      assert m - {j} - {k} == m - {k} - {j};
      CountRemove(m - {j}, k);
      CountRemove(m - {k}, j);
    }
  }

  /** The total may be computed by taking out any entry first. */
  lemma {:induction false} TotalRemove(m: Contents, k: int)
    requires k in m
    ensures Total(m) == m[k].TotalPrice() + Total(m - {k})
    decreases |m|
  {
    var j :| j in m && Total(m) == m[j].TotalPrice() + Total(m - {j});
    if j != k {
      assert m - {j} - {k} == m - {k} - {j};
      TotalRemove(m - {j}, k);
      TotalRemove(m - {k}, j);
    }
  }

  /** The count of two baskets with no product in common is the sum of their counts. */
  lemma {:induction false} CountDisjointUnion(a: Contents, b: Contents)
    requires a.Keys !! b.Keys
    ensures Count(a + b) == Count(a) + Count(b)
    decreases |a|
  {
    if a.Keys == {} {
      assert a + b == b;
    } else {
      NonEmptyHasElement(a.Keys);
      var k :| k in a.Keys;
      CountDisjointUnion(a - {k}, b);
      CountUnionCombine(a, b, k);
    }
  }

  /** The inductive step of `CountDisjointUnion`: the union without `k` adds up, so the whole union does. */
  lemma CountUnionCombine(a: Contents, b: Contents, k: int)
    requires a.Keys !! b.Keys && k in a
    requires Count((a - {k}) + b) == Count(a - {k}) + Count(b)
    ensures Count(a + b) == Count(a) + Count(b)
  {
    CountUnionStep(a, b, k);
    CountRemove(a, k);
  }

  /** One step of `CountDisjointUnion`: an entry of the left basket is taken out of the union. */
  lemma CountUnionStep(a: Contents, b: Contents, k: int)
    requires a.Keys !! b.Keys && k in a
    ensures Count(a + b) == a[k].count + Count((a - {k}) + b)
  {
    var ab := a + b;
    assert k in ab && ab[k] == a[k];
    assert ab - {k} == (a - {k}) + b;
    CountRemove(ab, k);
  }

  /** An empty basket counts nothing and costs nothing. */
  lemma EmptyAggregates()
    ensures Count(map[]) == 0 && Total(map[]) == 0.0
  {
  }

  /** The count only looks at the counts: two baskets with the same products and counts have the same count. */
  lemma {:induction false} CountSameCounts(a: Contents, b: Contents)
    requires a.Keys == b.Keys
    requires forall k :: k in a ==> a[k].count == b[k].count
    ensures Count(a) == Count(b)
    decreases |a|
  {
    if a.Keys != {} {
      NonEmptyHasElement(a.Keys);
      var k :| k in a.Keys;
      CountRemove(a, k);
      CountRemove(b, k);
      assert (a - {k}).Keys == a.Keys - {k} == (b - {k}).Keys;
      CountSameCounts(a - {k}, b - {k});
    } else {
      assert a == map[] && b == map[];
    }
  }

  /** The loop of `__len__`: adds up the counts. */
  method SumCounts(m: Contents) returns (n: int)
    ensures n == Count(m)
  {
    n := 0;
    var rest := m;
    while rest != map[]
      invariant n + Count(rest) == Count(m)
      decreases |rest|
    {
      NonEmptyHasElement(rest.Keys);
      var k :| k in rest;
      CountRemove(rest, k);
      n := n + rest[k].count;
      rest := rest - {k};
    }
  }

  /** The loop of `get_total_price`: adds up price times count. */
  method SumTotals(m: Contents) returns (t: real)
    ensures t == Total(m)
  {
    t := 0.0;
    var rest := m;
    while rest != map[]
      invariant t + Total(rest) == Total(m)
      decreases |rest|
    {
      NonEmptyHasElement(rest.Keys);
      var k :| k in rest;
      TotalRemove(rest, k);
      t := t + rest[k].TotalPrice();
      rest := rest - {k};
    }
  }

  // ---------------------------------------------------------------------------
  // The basket operations as values

  /**
   * `add`: an absent product first gets an entry with count 0 at the given
   * price; then its count is set to `count` or raised by `count`.
   */
  function Added(m: Contents, id: int, price: real, count: int, update: bool): (r: Contents)
    ensures r.Keys == m.Keys + {id}
    ensures r[id].count == if update then count else (if id in m then m[id].count else 0) + count
    ensures r[id].price == if id in m then m[id].price else price
    ensures forall k :: k in m && k != id ==> r[k] == m[k]
  {
    var e := if id in m then m[id] else LineItem(0, price);
    m[id := LineItem(if update then count else e.count + count, e.price)]
  }

  /** Adding `count` units without overwriting raises the basket count by exactly `count`. */
  lemma AddRaisesCount(m: Contents, id: int, price: real, count: int)
    ensures Count(Added(m, id, price, count, false)) == Count(m) + count
  {
    var r := Added(m, id, price, count, false);
    assert r - {id} == m - {id};
    CountRemove(r, id);
    if id in m {
      CountRemove(m, id);
    } else {
      assert m - {id} == m;
    }
  }

  /** Overwriting the count of a product makes the basket count the others' counts plus `count`. */
  lemma AddOverwritesCount(m: Contents, id: int, price: real, count: int)
    ensures Count(Added(m, id, price, count, true)) == Count(m - {id}) + count
  {
    var r := Added(m, id, price, count, true);
    assert r - {id} == m - {id};
    CountRemove(r, id);
  }

  /**
   * `remove`: an absent product is ignored; removing exactly the stored count
   * deletes the entry; any other amount is subtracted and the entry stays.
   */
  function Removed(m: Contents, id: int, count: int): (r: Contents)
    ensures id !in m ==> r == m
    ensures id in m && count == m[id].count ==> id !in r
    ensures id in m && count != m[id].count ==> id in r && r[id] == LineItem(m[id].count - count, m[id].price)
    ensures r.Keys <= m.Keys && forall k :: k in m && k != id ==> k in r && r[k] == m[k]
  {
    if id !in m then m
    else if count == m[id].count then m - {id}
    else m[id := LineItem(m[id].count - count, m[id].price)]
  }

  /** Removing `count` units of a present product lowers the basket count by exactly `count`, whichever branch runs. */
  lemma RemoveLowersCount(m: Contents, id: int, count: int)
    requires id in m
    ensures Count(Removed(m, id, count)) == Count(m) - count
  {
    var r := Removed(m, id, count);
    CountRemove(m, id);
    if id in r {
      assert r - {id} == m - {id};
      CountRemove(r, id);
    } else {
      assert r == m - {id};
    }
  }

  /** Removing the stored count of a product deletes its entry and leaves every other one. */
  lemma RemoveStoredCountDeletes(m: Contents, id: int)
    requires id in m
    ensures Removed(m, id, m[id].count) == m - {id}
  {
  }

  /** One entry after `refresh_prices`: repriced when its product is found, untouched otherwise. */
  function RefreshedEntry(e: LineItem, id: int, products: map<int, Product>, now: int): LineItem
  {
    if id in products then LineItem(e.count, PriceWithPromotions(products[id].price, products[id].promotions, now))
    else e
  }

  /** `refresh_prices`: every entry whose product is found gets the current promotional price. */
  function Refreshed(m: Contents, products: map<int, Product>, now: int): (r: Contents)
    ensures r.Keys == m.Keys
    ensures forall k :: k in m ==> r[k].count == m[k].count
    ensures forall k :: k in m && k !in products ==> r[k] == m[k]
    ensures forall k :: k in m && k in products ==>
              r[k].price == PriceWithPromotions(products[k].price, products[k].promotions, now)
  {
    map k | k in m :: RefreshedEntry(m[k], k, products, now)
  }

  /** Repricing never changes how many units the basket holds. */
  lemma RefreshKeepsCount(m: Contents, products: map<int, Product>, now: int)
    ensures Count(Refreshed(m, products, now)) == Count(m)
  {
    CountSameCounts(m, Refreshed(m, products, now));
  }

  /** Repricing twice at the same instant is repricing once. */
  lemma RefreshIdempotent(m: Contents, products: map<int, Product>, now: int)
    ensures Refreshed(Refreshed(m, products, now), products, now) == Refreshed(m, products, now)
  {
    var r := Refreshed(m, products, now);
    assert forall k :: k in r ==> RefreshedEntry(r[k], k, products, now) == r[k];
  }

  /** The basket of `sync_from_db` before repricing: stored entries are added only where the session has none. */
  function Merged(session: Contents, stored: Contents): (r: Contents)
    ensures r.Keys == session.Keys + stored.Keys
    ensures forall k :: k in session ==> r[k] == session[k]
    ensures forall k :: k in stored && k !in session ==> r[k] == stored[k]
  {
    stored + session
  }

  /** The merged count is the session count plus the counts of the stored entries the session lacks. */
  lemma MergeCount(session: Contents, stored: Contents)
    ensures Count(Merged(session, stored)) == Count(session) + Count(stored - session.Keys)
  {
    assert Merged(session, stored) == session + (stored - session.Keys);
    CountDisjointUnion(session, stored - session.Keys);
  }

  /** Merging in a stored basket whose products are all already in the session changes nothing. */
  lemma MergeCoveredIsIdentity(session: Contents, stored: Contents)
    requires stored.Keys <= session.Keys
    ensures Merged(session, stored) == session
  {
  }

  /** Two baskets with the same products and the same entry for each are equal. */
  lemma SameEntries(a: Contents, b: Contents)
    requires a.Keys == b.Keys
    requires forall k :: k in a ==> a[k] == b[k]
    ensures a == b
  {
    assert forall k :: k in a.Keys ==> a[k] == b[k];
  }

  // ---------------------------------------------------------------------------
  // Stored baskets

  /** The stored baskets of the database, keyed by user id. */
  class BasketStore {
    var baskets: map<int, Contents>

    constructor (baskets: map<int, Contents>)
      ensures this.baskets == baskets
    {
      this.baskets := baskets;
    }

    /** `get_or_create` followed by deleting every item: the user's stored basket exists and is empty. */
    method ResetBasket(user: int)
      modifies this
      ensures baskets == old(baskets)[user := map[]]
    {
      baskets := baskets[user := map[]];
    }

    /** `BasketItem.objects.create`: one more item in the user's stored basket. */
    method CreateItem(user: int, productId: int, item: LineItem)
      requires user in baskets
      modifies this
      ensures baskets == old(baskets)[user := old(baskets)[user][productId := item]]
    {
      baskets := baskets[user := baskets[user][productId := item]];
    }
  }

  // ---------------------------------------------------------------------------
  // The session basket

  /**
   * The basket of one request. `basket` is the dictionary held in the session;
   * `inSession` says whether the session still holds it (after `clear` it does
   * not); `user` is the authenticated user's id, if any.
   */
  class SessionBasket {
    var basket: Contents
    var inSession: bool
    const user: Option<int>

    /** What the session holds now, and so what the next request's basket starts from. */
    function SessionValue(): Option<Contents>
      reads this
    {
      if inSession then Some(basket) else None
    }

    /** `__init__`: the session's basket, or a new empty one stored in the session if there is none. */
    constructor (stored: Option<Contents>, user: Option<int>)
      ensures basket == if stored.Some? then stored.value else map[]
      ensures inSession && this.user == user
    {
      basket := if stored.Some? && stored.value != map[] then stored.value else map[];
      inSession := true;
      this.user := user;
    }

    /** `__len__`: the number of units in the basket. */
    method Len() returns (n: int)
      ensures n == Count(basket)
    {
      n := SumCounts(basket);
    }

    /** `get_total_price`: the sum of stored price times count. */
    method GetTotalPrice() returns (t: real)
      ensures t == Total(basket)
    {
      t := SumTotals(basket);
    }

    /** `add`: the entry of `p` is created at its current promotional price if absent, then updated. */
    method Add(p: Product, count: int, updateCount: bool, now: int)
      modifies this
      ensures basket == Added(old(basket), p.id, PriceWithPromotions(p.price, p.promotions, now), count, updateCount)
      ensures inSession == old(inSession)
    {
      var price := GetPriceWithPromotions(p, now);
      if p.id !in basket {
        basket := basket[p.id := LineItem(0, price)];
      }
      var e := basket[p.id];
      if updateCount {
        basket := basket[p.id := LineItem(count, e.price)];
      } else {
        basket := basket[p.id := LineItem(e.count + count, e.price)];
      }
    }

    /** `remove`: takes `count` units of product `id` out, deleting the entry when that is all of them. */
    method Remove(id: int, count: int)
      modifies this
      ensures basket == Removed(old(basket), id, count)
      ensures inSession == old(inSession)
    {
      if id in basket {
        if count == basket[id].count {
          basket := basket - {id};
        } else {
          basket := basket[id := LineItem(basket[id].count - count, basket[id].price)];
        }
      }
    }

    /**
     * `clear`: the session drops the basket; the next request starts from an
     * empty one. Deleting a basket the session does not hold raises, so the
     * basket must be in the session.
     */
    method Clear()
      requires inSession
      modifies this
      ensures !inSession && basket == old(basket)
      ensures SessionValue() == None
    {
      inSession := false;
    }

    /** `refresh_prices`: reprices every entry whose product is in `products`. */
    method RefreshPrices(products: map<int, Product>, now: int)
      modifies this
      ensures basket == Refreshed(old(basket), products, now)
      ensures inSession == old(inSession)
    {
      ghost var orig := basket;
      var todo := basket.Keys;
      while todo != {}
        invariant todo <= orig.Keys && basket.Keys == orig.Keys
        invariant inSession == old(inSession)
        invariant forall k :: k in orig ==> basket[k] == if k in todo then orig[k] else RefreshedEntry(orig[k], k, products, now)
        decreases |todo|
      {
        NonEmptyHasElement(todo);
        var k :| k in todo;
        if k in products {
          var price := GetPriceWithPromotions(products[k], now);
          basket := basket[k := LineItem(basket[k].count, price)];
        }
        todo := todo - {k};
      }
      assert basket == Refreshed(orig, products, now);
    }

    /**
     * `sync_to_db`: for a signed-in user, empties the stored basket, reprices
     * the session basket and stores one item per entry.
     */
    method SyncToDb(store: BasketStore, products: map<int, Product>, now: int)
      modifies this, store
      ensures user.None? ==> basket == old(basket) && store.baskets == old(store.baskets)
      ensures user.Some? ==> basket == Refreshed(old(basket), products, now)
      ensures user.Some? ==> store.baskets == old(store.baskets)[user.value := basket]
      ensures inSession == old(inSession)
    {
      if user.None? {
        return;
      }
      var uid := user.value;
      store.ResetBasket(uid);
      RefreshPrices(products, now);
      StoreEntries(store, uid);
    }

    /** The loop of `sync_to_db`: one stored item per session entry, in an emptied stored basket. */
    method StoreEntries(store: BasketStore, uid: int)
      requires uid in store.baskets && store.baskets[uid] == map[]
      modifies store
      ensures store.baskets == old(store.baskets)[uid := basket]
    {
      var todo := basket.Keys;
      while todo != {}
        invariant todo <= basket.Keys
        invariant store.baskets == old(store.baskets)[uid := map k | k in basket && k !in todo :: basket[k]]
        decreases |todo|
      {
        NonEmptyHasElement(todo);
        var k :| k in todo;
        store.CreateItem(uid, k, basket[k]);
        todo := todo - {k};
        assert store.baskets[uid] == map j | j in basket && j !in todo :: basket[j];
      }
      assert store.baskets[uid] == basket;
    }

    /**
     * `sync_from_db`: for a signed-in user with a stored basket, adds the stored
     * entries the session lacks and reprices everything.
     */
    method SyncFromDb(store: BasketStore, products: map<int, Product>, now: int)
      modifies this
      ensures user.None? || user.value !in store.baskets ==> basket == old(basket)
      ensures user.Some? && user.value in store.baskets ==>
                basket == Refreshed(Merged(old(basket), store.baskets[user.value]), products, now)
      ensures inSession == old(inSession)
    {
      if user.None? || user.value !in store.baskets {
        return;
      }
      MergeStored(store.baskets[user.value]);
      RefreshPrices(products, now);
    }

    /** The loop of `sync_from_db`: every stored entry the session lacks is copied in. */
    method MergeStored(stored: Contents)
      modifies this
      ensures basket == Merged(old(basket), stored)
      ensures inSession == old(inSession)
    {
      ghost var session := basket;
      var todo := stored.Keys;
      MergeProgressStart(session, stored);
      while todo != {}
        invariant inSession == old(inSession)
        invariant MergeProgress(session, stored, todo, basket)
        decreases |todo|
      {
        NonEmptyHasElement(todo);
        var k :| k in todo;
        ghost var before := basket;
        if k !in basket {
          basket := basket[k := stored[k]];
        }
        MergeProgressStep(session, stored, todo, before, k, basket);
        todo := todo - {k};
      }
      MergeProgressDone(session, stored, basket);
    }
  }

  /** The merge loop so far: the session entries, plus the stored entries already visited that the session lacks. */
  ghost predicate MergeProgress(session: Contents, stored: Contents, todo: set<int>, b: Contents)
  {
    todo <= stored.Keys
    && (forall k :: k in b <==> k in session || (k in stored && k !in todo))
    && (forall k :: k in session ==> b[k] == session[k])
    && (forall k :: k in stored && k !in todo && k !in session ==> b[k] == stored[k])
  }

  lemma MergeProgressStart(session: Contents, stored: Contents)
    ensures MergeProgress(session, stored, stored.Keys, session)
  {
  }

  lemma MergeProgressStep(session: Contents, stored: Contents, todo: set<int>, b: Contents, k: int, b': Contents)
    requires MergeProgress(session, stored, todo, b) && k in todo
    requires b' == if k !in b then b[k := stored[k]] else b
    ensures MergeProgress(session, stored, todo - {k}, b')
  {
  }

  lemma MergeProgressDone(session: Contents, stored: Contents, b: Contents)
    requires MergeProgress(session, stored, {}, b)
    ensures b == Merged(session, stored)
  {
    var m := Merged(session, stored);
    assert forall k :: k in b <==> k in m;
    assert b.Keys == m.Keys by {
      SubsetOfIds(b.Keys, m.Keys);
      SubsetOfIds(m.Keys, b.Keys);
    }
    SameEntries(b, m);
  }
}
