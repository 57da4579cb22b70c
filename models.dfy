/**
 * Entities of the shop and the pricing rules attached to them: promotions and
 * their validity window, the compounding of promotional discounts, the short
 * description, line totals, the availability flag and the order status.
 * Prices are exact decimals, modelled as `real`; timestamps are `int`.
 */
module Models {
  import opened Common

  /** Longest description that is shown unabridged. */
  const MaxDescriptionLength: nat := 50

  /** What is appended to an abridged description. */
  const Ellipsis: string := "..."

  /**
   * A promotion: a nullable percentage, a validity window and an on/off
   * switch. The window bounds are timestamps.
   */
  datatype Promotion = Promotion(
    id: int,
    discountPercent: Option<nat>,
    startDate: int,
    endDate: int,
    isActive: bool)

  /** A product row. `promotions` lists the promotions linked to it, in query order. */
  datatype Product = Product(
    id: int,
    categoryId: int,
    price: real,
    count: int,
    title: string,
    description: string,
    available: bool,
    tags: set<int>,
    promotions: seq<Promotion>)

  /** A category node; `parent` is its parent category, if any. */
  datatype Category = Category(id: int, title: string, parent: Option<int>)

  /** A quantity of one product at a unit price: a basket entry, a stored basket item or an order item. */
  datatype LineItem = LineItem(count: int, price: real) {
    /** The cost of the line: `count` units at `price` each. */
    function TotalPrice(): (r: real)
      ensures count == 0 ==> r == 0.0
      ensures count >= 0 && price >= 0.0 ==> r >= 0.0
    {
      count as real * price
    }
  }

  // ---------------------------------------------------------------------------
  // Promotions

  /** The promotion applies at `now`: it is switched on and `now` is inside the closed window. */
  predicate IsValid(p: Promotion, now: int)
  {
    p.isActive && p.startDate <= now <= p.endDate
  }

  /** Both ends of the window belong to it; every instant outside it does not. */
  lemma ValidityWindowIsClosed(p: Promotion, now: int)
    ensures p.isActive && p.startDate <= p.endDate ==> IsValid(p, p.startDate) && IsValid(p, p.endDate)
    ensures now < p.startDate || now > p.endDate ==> !IsValid(p, now)
    ensures !p.isActive ==> !IsValid(p, now)
  {
  }

  /** The promotion takes something off: it is valid and its percentage is present and non-zero. */
  predicate Discounts(p: Promotion, now: int)
  {
    IsValid(p, now) && p.discountPercent.Some? && p.discountPercent.value != 0
  }

  /** The multiplier one promotion applies to a price. */
  function PromoFactor(p: Promotion, now: int): real
  {
    if p.isActive && p.startDate <= now <= p.endDate && p.discountPercent.Some? && p.discountPercent.value != 0
    then 1.0 - p.discountPercent.value as real / 100.0
    else 1.0
  }

  /** `apply_price_with_discount`: the price after one promotion. */
  function ApplyDiscount(p: Promotion, price: real, now: int): (r: real)
    ensures !Discounts(p, now) ==> r == price
    ensures r == price * PromoFactor(p, now)
  {
    if !IsValid(p, now) then price
    else if p.discountPercent.Some? && p.discountPercent.value != 0 then
      var discount := price * p.discountPercent.value as real / 100.0;
      price - discount
    else price
  }

  /** A percentage of at most 100 on a non-negative price never raises it and never makes it negative. */
  lemma {:induction false} DiscountStaysInRange(p: Promotion, price: real, now: int)
    requires price >= 0.0
    requires p.discountPercent.Some? ==> p.discountPercent.value <= 100
    ensures 0.0 <= ApplyDiscount(p, price, now) <= price
  {
    if Discounts(p, now) {
      var f := PromoFactor(p, now);
      assert 0.0 <= f <= 1.0;
      MulBetween(price, f);
    }
  }

  /** A non-negative number times a factor in [0, 1] stays between 0 and itself. */
  lemma MulBetween(x: real, f: real)
    requires x >= 0.0 && 0.0 <= f <= 1.0
    ensures 0.0 <= x * f <= x
  {
    assert x * f <= x * 1.0;
  }

  /** The product of the multipliers of a list of promotions, in list order. */
  function Factor(promos: seq<Promotion>, now: int): real
  {
    if promos == [] then 1.0 else PromoFactor(promos[0], now) * Factor(promos[1..], now)
  }

  /**
   * `get_price_with_promotions` as a value: every promotion is applied in turn to
   * the price left by the previous ones, so discounts compound.
   */
  function PriceWithPromotions(price: real, promos: seq<Promotion>, now: int): real
    decreases |promos|
  {
    if promos == [] then price
    else PriceWithPromotions(ApplyDiscount(promos[0], price, now), promos[1..], now)
  }

  /** `get_price_with_promotions`: the loop that applies the product's promotions one by one. */
  method GetPriceWithPromotions(p: Product, now: int) returns (price: real)
    ensures price == PriceWithPromotions(p.price, p.promotions, now)
  {
    price := p.price;
    for i := 0 to |p.promotions|
      invariant PriceWithPromotions(price, p.promotions[i..], now) == PriceWithPromotions(p.price, p.promotions, now)
    {
      assert p.promotions[i..][1..] == p.promotions[i + 1..];
      price := ApplyDiscount(p.promotions[i], price, now);
    }
    assert p.promotions[|p.promotions|..] == [];
  }

  /** Compounding: the promotional price is the base price times every promotion's multiplier. */
  lemma {:induction false} PriceIsProduct(price: real, promos: seq<Promotion>, now: int)
    ensures PriceWithPromotions(price, promos, now) == price * Factor(promos, now)
    decreases |promos|
  {
    if promos != [] {
      var f, rest := PromoFactor(promos[0], now), Factor(promos[1..], now);
      var next := ApplyDiscount(promos[0], price, now);
      assert next == price * f;
      PriceIsProduct(next, promos[1..], now);
      assert Factor(promos, now) == f * rest;
      MulAssoc(price, f, rest);
    }
  }

  lemma MulAssoc(a: real, b: real, c: real)
    ensures (a * b) * c == a * (b * c)
  {
  }

  /** When no promotion discounts at `now`, the price is the base price. */
  lemma {:induction false} NoDiscountKeepsPrice(price: real, promos: seq<Promotion>, now: int)
    requires forall i :: 0 <= i < |promos| ==> !Discounts(promos[i], now)
    ensures PriceWithPromotions(price, promos, now) == price
    decreases |promos|
  {
    if promos != [] {
      assert !Discounts(promos[0], now);
      NoDiscountKeepsPrice(price, promos[1..], now);
    }
  }

  /** With every percentage at most 100, the promotional price lies between 0 and the base price. */
  lemma {:induction false} PromotionalPriceInRange(price: real, promos: seq<Promotion>, now: int)
    requires price >= 0.0
    requires forall i :: 0 <= i < |promos| ==> promos[i].discountPercent.Some? ==> promos[i].discountPercent.value <= 100
    ensures 0.0 <= PriceWithPromotions(price, promos, now) <= price
    decreases |promos|
  {
    if promos != [] {
      assert promos[0].discountPercent.Some? ==> promos[0].discountPercent.value <= 100;
      DiscountStaysInRange(promos[0], price, now);
      PromotionalPriceInRange(ApplyDiscount(promos[0], price, now), promos[1..], now);
    }
  }

  /** Two promotions give the same price whichever is applied first. */
  lemma DiscountsCommute(p: Promotion, q: Promotion, x: real, now: int)
    ensures ApplyDiscount(q, ApplyDiscount(p, x, now), now) == ApplyDiscount(p, ApplyDiscount(q, x, now), now)
  {
    var f, g := PromoFactor(p, now), PromoFactor(q, now);
    assert (x * f) * g == (x * g) * f;
  }

  /** Applying `a + b` is applying `a`, then `b` to what is left. */
  lemma {:induction false} ApplyConcat(x: real, a: seq<Promotion>, b: seq<Promotion>, now: int)
    ensures PriceWithPromotions(x, a + b, now) == PriceWithPromotions(PriceWithPromotions(x, a, now), b, now)
    decreases |a|
  {
    if a == [] {
      assert a + b == b;
    } else {
      assert (a + b)[1..] == a[1..] + b;
      ApplyConcat(ApplyDiscount(a[0], x, now), a[1..], b, now);
    }
  }

  /** One promotion applied before a list gives what it gives after the list. */
  lemma {:induction false} ApplyFirstOrLast(p: Promotion, x: real, s: seq<Promotion>, now: int)
    ensures PriceWithPromotions(ApplyDiscount(p, x, now), s, now) == ApplyDiscount(p, PriceWithPromotions(x, s, now), now)
    decreases |s|
  {
    if s != [] {
      DiscountsCommute(p, s[0], x, now);
      ApplyFirstOrLast(p, ApplyDiscount(s[0], x, now), s[1..], now);
    }
  }

  /** The promotion at position `i` may as well be applied first. */
  lemma MoveToFront(x: real, b: seq<Promotion>, i: nat, now: int)
    requires i < |b|
    ensures PriceWithPromotions(x, b, now) == PriceWithPromotions(ApplyDiscount(b[i], x, now), b[..i] + b[i + 1..], now)
  {
    var pre, post := b[..i], b[i + 1..];
    assert b == pre + ([b[i]] + post);
    assert ([b[i]] + post)[1..] == post;
    ApplyConcat(x, pre, [b[i]] + post, now);
    ApplyFirstOrLast(b[i], x, pre, now);
    ApplyConcat(ApplyDiscount(b[i], x, now), pre, post, now);
  }

  /** Matching the head of `a` with position `i` of `b` leaves two tails that are still permutations. */
  lemma PermutationTails(a: seq<Promotion>, b: seq<Promotion>, i: nat)
    requires multiset(a) == multiset(b) && a != [] && i < |b| && b[i] == a[0]
    ensures multiset(a[1..]) == multiset(b[..i] + b[i + 1..])
  {
    var pre, post := b[..i], b[i + 1..];
    assert b == pre + [b[i]] + post;
    assert multiset(b) == multiset(pre) + multiset{b[i]} + multiset(post);
    assert a == [a[0]] + a[1..];
    assert multiset(a) == multiset{a[0]} + multiset(a[1..]);
    assert multiset(pre + post) == multiset(pre) + multiset(post);
    assert multiset(a[1..]) == multiset(a) - multiset{a[0]};
    assert multiset(pre + post) == multiset(b) - multiset{b[i]};
  }

  /** The order in which a product's promotions are applied does not change its price. */
  lemma {:induction false} PromotionOrderIrrelevant(price: real, a: seq<Promotion>, b: seq<Promotion>, now: int)
    requires multiset(a) == multiset(b)
    ensures PriceWithPromotions(price, a, now) == PriceWithPromotions(price, b, now)
    decreases |a|
  {
    if a == [] {
      assert |b| == |multiset(b)| == 0;
    } else {
      assert a[0] in multiset(b);
      var i :| 0 <= i < |b| && b[i] == a[0];
      PermutationTails(a, b, i);
      PromotionOrderIrrelevant(ApplyDiscount(a[0], price, now), a[1..], b[..i] + b[i + 1..], now);
      MoveToFront(price, b, i, now);
    }
  }

  // ---------------------------------------------------------------------------
  // Products

  /** `get_short_description`: the description, cut to 50 characters plus an ellipsis when longer. */
  function ShortDescription(p: Product): (r: string)
    ensures |p.description| <= MaxDescriptionLength ==> r == p.description
    ensures |r| == if |p.description| <= MaxDescriptionLength then |p.description| else MaxDescriptionLength + |Ellipsis|
    ensures |p.description| > MaxDescriptionLength ==>
              r[..MaxDescriptionLength] == p.description[..MaxDescriptionLength] && r[MaxDescriptionLength..] == Ellipsis
  {
    if |p.description| > MaxDescriptionLength then p.description[..MaxDescriptionLength] + Ellipsis
    else p.description
  }

  /** The product table; rows are keyed by product id. */
  class ProductTable {
    var rows: map<int, Product>

    constructor (rows: map<int, Product>)
      ensures this.rows == rows
    {
      this.rows := rows;
    }

    /**
     * `get_available`: sets the availability flag to "some stock is left",
     * saves the row and returns the flag.
     */
    method GetAvailable(p: Product) returns (available: bool)
      modifies this
      ensures available <==> p.count > 0
      ensures rows == old(rows)[p.id := p.(available := available)]
    {
      available := p.count > 0;
      rows := rows[p.id := p.(available := available)];
    }
  }

  // ---------------------------------------------------------------------------
  // Orders

  /** The lifecycle states of an order. */
  datatype OrderStatus = Created | Paid | Completed | Cancelled

  /** An order: its status changes in place; its items are keyed by product id. */
  class Order {
    const id: int
    const userId: int
    var status: OrderStatus
    var items: map<int, LineItem>

    /** A new order starts in the created state with no items. */
    constructor (id: int, userId: int)
      ensures this.id == id && this.userId == userId
      ensures status == Created && items == map[]
    {
      this.id := id;
      this.userId := userId;
      status := Created;
      items := map[];
    }

    /**
     * `OrderItem.objects.create`: one more line of the order. The table keeps
     * at most one line per order and product, so the product is not yet there.
     */
    method AddItem(productId: int, item: LineItem)
      requires productId !in items
      modifies this
      ensures items == old(items)[productId := item]
      ensures status == old(status)
    {
      items := items[productId := item];
    }

    /** `set_status`: any status may follow any other; nothing else changes. */
    method SetStatus(s: OrderStatus)
      modifies this
      ensures status == s
      ensures items == old(items)
    {
      status := s;
    }

    method MarkPaid()
      modifies this
      ensures status == Paid
      ensures items == old(items)
    {
      SetStatus(Paid);
    }

    method MarkCompleted()
      modifies this
      ensures status == Completed
      ensures items == old(items)
    {
      SetStatus(Completed);
    }

    method MarkCancelled()
      modifies this
      ensures status == Cancelled
      ensures items == old(items)
    {
      SetStatus(Cancelled);
    }
  }
}
