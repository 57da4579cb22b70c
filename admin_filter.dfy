/**
 * The minimum- and maximum-price list filters of the product admin: each
 * reads one request parameter, parses it as a decimal and, when that gives
 * a number, keeps the rows on the right side of it, bounds included.
 */
module AdminFilter {
  import opened Common
  import opened Models
  import opened Queryset

  /**
   * The bound a raw parameter gives: none when it is missing or empty, and
   * none when the decimal parser refuses it (the parse error is swallowed).
   */
  function Bound(raw: Option<string>, parseDecimal: string -> Option<real>): Option<real>
  {
    if raw.None? || raw.value == "" then None else parseDecimal(raw.value)
  }

  /** `MinPriceFilter.queryset`. */
  function MinPriceFilter(queryset: seq<Product>, raw: Option<string>, parseDecimal: string -> Option<real>): (r: seq<Product>)
    ensures |r| <= |queryset|
    ensures forall p :: p in r <==>
              p in queryset && (Bound(raw, parseDecimal).Some? ==> p.price >= Bound(raw, parseDecimal).value)
  {
    var min := Bound(raw, parseDecimal);
    if min.Some? then Filter(queryset, PriceAtLeast(min.value)) else queryset
  }

  /** `MaxPriceFilter.queryset`. */
  function MaxPriceFilter(queryset: seq<Product>, raw: Option<string>, parseDecimal: string -> Option<real>): (r: seq<Product>)
    ensures |r| <= |queryset|
    ensures forall p :: p in r <==>
              p in queryset && (Bound(raw, parseDecimal).Some? ==> p.price <= Bound(raw, parseDecimal).value)
  {
    var max := Bound(raw, parseDecimal);
    if max.Some? then Filter(queryset, PriceAtMost(max.value)) else queryset
  }

  /** A missing, empty or unparseable bound leaves the rows as they are. */
  lemma NoBoundKeepsQueryset(queryset: seq<Product>, raw: Option<string>, parseDecimal: string -> Option<real>)
    requires raw.None? || raw == Some("") || parseDecimal(raw.value).None?
    ensures MinPriceFilter(queryset, raw, parseDecimal) == queryset
    ensures MaxPriceFilter(queryset, raw, parseDecimal) == queryset
  {
  }

  /** A parsed minimum keeps exactly the rows priced at it or above. */
  lemma MinIsInclusive(queryset: seq<Product>, raw: string, parseDecimal: string -> Option<real>, min: real)
    requires raw != "" && parseDecimal(raw) == Some(min)
    ensures forall p :: p in MinPriceFilter(queryset, Some(raw), parseDecimal) <==> p in queryset && p.price >= min
  {
  }

  /** A parsed maximum keeps exactly the rows priced at it or below. */
  lemma MaxIsInclusive(queryset: seq<Product>, raw: string, parseDecimal: string -> Option<real>, max: real)
    requires raw != "" && parseDecimal(raw) == Some(max)
    ensures forall p :: p in MaxPriceFilter(queryset, Some(raw), parseDecimal) <==> p in queryset && p.price <= max
  {
  }

  /** Neither filter adds a row or makes the list longer. */
  lemma FiltersOnlyRemove(queryset: seq<Product>, raw: Option<string>, parseDecimal: string -> Option<real>)
    ensures |MinPriceFilter(queryset, raw, parseDecimal)| <= |queryset|
    ensures |MaxPriceFilter(queryset, raw, parseDecimal)| <= |queryset|
    ensures forall p :: p in MinPriceFilter(queryset, raw, parseDecimal) ==> p in queryset
    ensures forall p :: p in MaxPriceFilter(queryset, raw, parseDecimal) ==> p in queryset
  {
  }

  /** The two filters may run in either order. */
  lemma MinMaxCommute(queryset: seq<Product>, rawMin: Option<string>, rawMax: Option<string>,
                      parseDecimal: string -> Option<real>)
    ensures MaxPriceFilter(MinPriceFilter(queryset, rawMin, parseDecimal), rawMax, parseDecimal)
         == MinPriceFilter(MaxPriceFilter(queryset, rawMax, parseDecimal), rawMin, parseDecimal)
  {
    var min, max := Bound(rawMin, parseDecimal), Bound(rawMax, parseDecimal);
    if min.Some? && max.Some? {
      FiltersCommute(queryset, PriceAtLeast(min.value), PriceAtMost(max.value));
    }
  }

  /** With both bounds parsed, the rows kept are exactly those priced inside the closed range. */
  lemma BothBoundsKeepRange(queryset: seq<Product>, rawMin: string, rawMax: string,
                            parseDecimal: string -> Option<real>, min: real, max: real)
    requires rawMin != "" && parseDecimal(rawMin) == Some(min)
    requires rawMax != "" && parseDecimal(rawMax) == Some(max)
    ensures forall p :: p in MaxPriceFilter(MinPriceFilter(queryset, Some(rawMin), parseDecimal), Some(rawMax), parseDecimal)
              <==> p in queryset && min <= p.price <= max
  {
  }
}
