/**
 * The part of a product queryset the shop's filters use: `.filter(...)` with
 * one condition keeps, in order, the rows that satisfy it; a chain of filters
 * keeps the rows that satisfy all of them.
 */
module Queryset {
  import opened Common
  import opened Models

  /** One lookup passed to `.filter(...)` on the product table. */
  datatype Condition =
    | CategoryIs(categoryId: int)
    | CategoryIn(categoryIds: set<int>)
    | AvailableIs(flag: bool)
    | TitleOrDescriptionContains(term: string)
    | PriceAtLeast(min: real)
    | PriceAtMost(max: real)
    | HasTag(tagId: int)

  /** Case-insensitive substring test (`icontains`), over ASCII letters. */
  predicate ContainsIgnoringCase(hay: string, needle: string)
  {
    Contains(LowerAscii(hay), LowerAscii(needle))
  }

  /** The row-level meaning of each lookup. */
  predicate Holds(c: Condition, p: Product)
  {
    match c
    case CategoryIs(id) => p.categoryId == id
    case CategoryIn(ids) => p.categoryId in ids
    case AvailableIs(flag) => p.available == flag
    case TitleOrDescriptionContains(term) =>
      ContainsIgnoringCase(p.title, term) || ContainsIgnoringCase(p.description, term)
    case PriceAtLeast(min) => p.price >= min
    case PriceAtMost(max) => p.price <= max
    case HasTag(t) => t in p.tags
  }

  /** `.filter(c)`: the rows satisfying `c`, in their original order. */
  function Filter(s: seq<Product>, c: Condition): (r: seq<Product>)
    ensures |r| <= |s|
    ensures forall p :: p in r <==> p in s && Holds(c, p)
  {
    if s == [] then []
    else (if Holds(c, s[0]) then [s[0]] else []) + Filter(s[1..], c)
  }

  /** Filtering a concatenation filters each part: the relative order of rows is kept. */
  lemma {:induction false} FilterConcat(a: seq<Product>, b: seq<Product>, c: Condition)
    ensures Filter(a + b, c) == Filter(a, c) + Filter(b, c)
  {
    if a != [] {
      assert (a + b)[1..] == a[1..] + b;
      FilterConcat(a[1..], b, c);
    } else {
      assert a + b == b;
    }
  }

  /** A filter keeps every row exactly when every row satisfies it. */
  lemma {:induction false} FilterKeepsAllWhenAllHold(s: seq<Product>, c: Condition)
    requires forall i :: 0 <= i < |s| ==> Holds(c, s[i])
    ensures Filter(s, c) == s
  {
    if s != [] {
      assert Holds(c, s[0]);
      FilterKeepsAllWhenAllHold(s[1..], c);
    }
  }

  /** Chained `.filter(c0).filter(c1)...`, in the order the conditions are given. */
  function FilterAll(s: seq<Product>, cs: seq<Condition>): seq<Product>
    decreases |cs|
  {
    if cs == [] then s else FilterAll(Filter(s, cs[0]), cs[1..])
  }

  /** A row satisfies every condition of the list. */
  predicate HoldsAll(cs: seq<Condition>, p: Product)
  {
    forall i :: 0 <= i < |cs| ==> Holds(cs[i], p)
  }

  /** One pass keeping the rows that satisfy all conditions at once. */
  function Where(s: seq<Product>, cs: seq<Condition>): seq<Product>
  {
    if s == [] then []
    else (if HoldsAll(cs, s[0]) then [s[0]] else []) + Where(s[1..], cs)
  }

  /** A condition in front of a list holds with the list exactly when both do. */
  lemma HoldsAllCons(c: Condition, cs: seq<Condition>, p: Product)
    ensures HoldsAll([c] + cs, p) <==> Holds(c, p) && HoldsAll(cs, p)
  {
    if Holds(c, p) && HoldsAll(cs, p) {
      forall i | 0 <= i < |[c] + cs|
        ensures Holds(([c] + cs)[i], p)
      {
        if i > 0 {
          assert ([c] + cs)[i] == cs[i - 1];
        }
      }
    }
    if HoldsAll([c] + cs, p) {
      assert ([c] + cs)[0] == c;
      forall i | 0 <= i < |cs|
        ensures Holds(cs[i], p)
      {
        assert ([c] + cs)[i + 1] == cs[i];
      }
    }
  }

  lemma {:induction false} WhereAfterFilter(s: seq<Product>, c: Condition, cs: seq<Condition>)
    ensures Where(Filter(s, c), cs) == Where(s, [c] + cs)
  {
    if s != [] {
      HoldsAllCons(c, cs, s[0]);
      WhereAfterFilter(s[1..], c, cs);
      if Holds(c, s[0]) {
        assert Filter(s, c) == [s[0]] + Filter(s[1..], c);
        assert ([s[0]] + Filter(s[1..], c))[1..] == Filter(s[1..], c);
      } else {
        assert Filter(s, c) == Filter(s[1..], c);
      }
    }
  }

  lemma {:induction false} WhereNothing(s: seq<Product>)
    ensures Where(s, []) == s
  {
    if s != [] {
      WhereNothing(s[1..]);
    }
  }

  /** A chain of filters is one filter by the conjunction of its conditions. */
  lemma {:induction false} ChainIsConjunction(s: seq<Product>, cs: seq<Condition>)
    ensures FilterAll(s, cs) == Where(s, cs)
    decreases |cs|
  {
    if cs == [] {
      WhereNothing(s);
    } else {
      ChainIsConjunction(Filter(s, cs[0]), cs[1..]);
      WhereAfterFilter(s, cs[0], cs[1..]);
      assert [cs[0]] + cs[1..] == cs;
    }
  }

  /** The rows kept by `Where` are exactly the input rows that satisfy every condition. */
  lemma {:induction false} WhereMembership(s: seq<Product>, cs: seq<Condition>)
    ensures forall p :: p in Where(s, cs) <==> p in s && HoldsAll(cs, p)
  {
    if s != [] {
      WhereMembership(s[1..], cs);
      assert s == [s[0]] + s[1..];
    }
  }

  /** Two filters may be applied in either order. */
  lemma {:induction false} FiltersCommute(s: seq<Product>, c: Condition, d: Condition)
    ensures Filter(Filter(s, c), d) == Filter(Filter(s, d), c)
  {
    assert [c, d][1..] == [d] && [d, c][1..] == [c];
    assert [d][1..] == [] && [c][1..] == [];
    assert FilterAll(s, [c, d]) == FilterAll(Filter(s, c), [d]) == Filter(Filter(s, c), d);
    assert FilterAll(s, [d, c]) == FilterAll(Filter(s, d), [c]) == Filter(Filter(s, d), c);
    ChainIsConjunction(s, [c, d]);
    ChainIsConjunction(s, [d, c]);
    forall p
      ensures HoldsAll([c, d], p) <==> HoldsAll([d, c], p)
    {
      assert HoldsAll([c, d], p) <==> Holds(c, p) && Holds(d, p);
      assert HoldsAll([d, c], p) <==> Holds(c, p) && Holds(d, p);
    }
    WhereSameConditions(s, [c, d], [d, c]);
  }

  /** `Where` only looks at which rows satisfy the conditions. */
  lemma {:induction false} WhereSameConditions(s: seq<Product>, cs: seq<Condition>, ds: seq<Condition>)
    requires forall p :: HoldsAll(cs, p) <==> HoldsAll(ds, p)
    ensures Where(s, cs) == Where(s, ds)
  {
    if s != [] {
      WhereSameConditions(s[1..], cs, ds);
    }
  }
}
