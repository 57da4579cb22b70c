/**
 * The query-argument rules of the product API: camelCase keys rewritten to
 * snake_case, the `sort`/`sortType` ordering rule, and the category and
 * promotion filters of the product filter set.
 */
module Filters {
  import opened Common
  import opened Models
  import opened Queryset

  // ---------------------------------------------------------------------------
  // camel_to_snake

  /** The characters after the first: an `_` goes in front of every ASCII upper-case letter. */
  function UnderscoreBeforeUpper(s: string): (r: string)
    ensures |r| == |s| + UpperCount(s)
  {
    if s == [] then []
    else (if IsAsciiUpper(s[0]) then ['_', s[0]] else [s[0]]) + UnderscoreBeforeUpper(s[1..])
  }

  /** How many ASCII upper-case letters `s` has. */
  function UpperCount(s: string): nat
  {
    if s == [] then 0 else (if IsAsciiUpper(s[0]) then 1 else 0) + UpperCount(s[1..])
  }

  /** The substitution of `(?<!^)(?=[A-Z])` by `_`: every upper-case letter except at index 0 gets an `_` before it. */
  function Underscored(s: string): (r: string)
    ensures |r| == if s == [] then 0 else |s| + UpperCount(s[1..])
  {
    if s == [] then [] else [s[0]] + UnderscoreBeforeUpper(s[1..])
  }

  /** `camel_to_snake`: the substitution, then lower-casing. */
  function CamelToSnake(name: string): (r: string)
    ensures forall i :: 0 <= i < |r| ==> !IsAsciiUpper(r[i])
    ensures |r| == if name == [] then 0 else |name| + UpperCount(name[1..])
  {
    LowerAscii(Underscored(name))
  }

  /** A two-word camelCase name gets an `_` at its one capital, which is lower-cased. */
  lemma CamelToSnakeTwoWords(a: string, u: char, b: string)
    requires a != [] && IsAsciiUpper(u)
    requires forall i :: 0 <= i < |a| ==> !IsAsciiUpper(a[i])
    requires forall i :: 0 <= i < |b| ==> !IsAsciiUpper(b[i])
    ensures CamelToSnake(a + [u] + b) == a + ['_', AsciiLower(u)] + b
  {
    UnderscoredTwoWords(a, u, b);
    LowerTwoWords(a, u, b);
  }

  lemma UnderscoredTwoWords(a: string, u: char, b: string)
    requires a != [] && IsAsciiUpper(u)
    requires forall i :: 0 <= i < |a| ==> !IsAsciiUpper(a[i])
    requires forall i :: 0 <= i < |b| ==> !IsAsciiUpper(b[i])
    ensures Underscored(a + [u] + b) == a + ['_', u] + b
  {
    var tail := a[1..];
    assert a + [u] + b == [a[0]] + (tail + ([u] + b));
    UnderscoreConcat(tail, [u] + b);
    NoUpperNoUnderscore(tail);
    UnderscoreConcat([u], b);
    NoUpperNoUnderscore(b);
    assert UnderscoreBeforeUpper([u]) == ['_', u];
    assert [a[0]] + (tail + (['_', u] + b)) == a + ['_', u] + b;
  }

  lemma LowerTwoWords(a: string, u: char, b: string)
    requires forall i :: 0 <= i < |a| ==> !IsAsciiUpper(a[i])
    requires forall i :: 0 <= i < |b| ==> !IsAsciiUpper(b[i])
    ensures LowerAscii(a + ['_', u] + b) == a + ['_', AsciiLower(u)] + b
  {
    LowerAsciiConcat(a + ['_', u], b);
    LowerAsciiConcat(a, ['_', u]);
    LowerAsciiKeepsLower(a);
    LowerAsciiKeepsLower(b);
    assert LowerAscii(['_', u]) == ['_', AsciiLower(u)];
  }

  /** The example of the API: `categoryId` becomes `category_id`. */
  lemma CamelToSnakeExample()
    ensures CamelToSnake("categoryId") == "category_id"
  {
    var a, b := "category", "d";
    assert AsciiLower('I') == 'i';
    CamelToSnakeTwoWords(a, 'I', b);
    assert a + ['I'] + b == "categoryId";
    assert a + ['_', 'i'] + b == "category_id";
  }

  /** The insertion works piece by piece. */
  lemma {:induction false} UnderscoreConcat(a: string, b: string)
    ensures UnderscoreBeforeUpper(a + b) == UnderscoreBeforeUpper(a) + UnderscoreBeforeUpper(b)
  {
    if a == [] {
      assert a + b == b;
    } else {
      assert (a + b)[1..] == a[1..] + b;
      UnderscoreConcat(a[1..], b);
    }
  }

  /** A string with no upper-case letter has nothing inserted. */
  lemma {:induction false} NoUpperNoUnderscore(s: string)
    requires forall i :: 0 <= i < |s| ==> !IsAsciiUpper(s[i])
    ensures UnderscoreBeforeUpper(s) == s
  {
    if s != [] {
      NoUpperNoUnderscore(s[1..]);
    }
  }

  /** `camel_to_snake` is the identity on strings without ASCII upper-case letters. */
  lemma CamelToSnakeKeepsSnakeCase(s: string)
    requires forall i :: 0 <= i < |s| ==> !IsAsciiUpper(s[i])
    ensures CamelToSnake(s) == s
  {
    if s != [] {
      NoUpperNoUnderscore(s[1..]);
      assert Underscored(s) == s;
    }
  }

  /** Applying `camel_to_snake` twice is applying it once. */
  lemma CamelToSnakeIdempotent(s: string)
    ensures CamelToSnake(CamelToSnake(s)) == CamelToSnake(s)
  {
    CamelToSnakeKeepsSnakeCase(CamelToSnake(s));
  }

  // ---------------------------------------------------------------------------
  // CamelCaseDjangoFilterBackend.get_filterset_kwargs

  /** The rewritten query data: the items in order, each key rewritten, a later item overwriting an earlier one. */
  function RewrittenData(items: seq<(string, string)>): map<string, string>
  {
    if items == [] then map[]
    else
      var last := items[|items| - 1];
      RewrittenData(items[..|items| - 1])[CamelToSnake(last.0) := last.1]
  }

  /** The loop of `get_filterset_kwargs` over `data.items()`. */
  method RewriteKeys(items: seq<(string, string)>) returns (newData: map<string, string>)
    ensures newData == RewrittenData(items)
  {
    newData := map[];
    for i := 0 to |items|
      invariant newData == RewrittenData(items[..i])
    {
      assert items[..i + 1][..i] == items[..i];
      newData := newData[CamelToSnake(items[i].0) := items[i].1];
    }
    assert items[..|items|] == items;
  }

  /** The rewritten keys of the items, in order. */
  function RewrittenKeyList(items: seq<(string, string)>): (r: seq<string>)
    ensures |r| == |items|
    ensures forall i :: 0 <= i < |items| ==> r[i] == CamelToSnake(items[i].0)
  {
    if items == [] then []
    else RewrittenKeyList(items[..|items| - 1]) + [CamelToSnake(items[|items| - 1].0)]
  }

  /** The new keys are exactly the rewritten old keys. */
  lemma {:induction false} RewrittenKeys(items: seq<(string, string)>)
    ensures forall k :: k in RewrittenData(items) <==> k in RewrittenKeyList(items)
  {
    if items != [] {
      RewrittenKeys(items[..|items| - 1]);
    }
  }

  /** A key's value is the value of the last item whose key rewrites to it. */
  lemma {:induction false} LaterItemWins(items: seq<(string, string)>, i: nat)
    requires i < |items|
    requires forall j :: i < j < |items| ==> CamelToSnake(items[j].0) != CamelToSnake(items[i].0)
    ensures CamelToSnake(items[i].0) in RewrittenData(items)
    ensures RewrittenData(items)[CamelToSnake(items[i].0)] == items[i].1
  {
    var front := items[..|items| - 1];
    if i < |items| - 1 {
      forall j | i < j < |front|
        ensures CamelToSnake(front[j].0) != CamelToSnake(front[i].0)
      {
        assert front[j] == items[j];
      }
      LaterItemWins(front, i);
      assert front[i] == items[i];
    }
  }

  // ---------------------------------------------------------------------------
  // Splitting and stripping

  /** `s.split(sep)`: the pieces between separators; there is always at least one. */
  function Split(s: string, sep: char): (r: seq<string>)
    ensures |r| >= 1
    ensures forall i :: 0 <= i < |r| ==> sep !in r[i]
  {
    if s == [] then [""]
    else if s[0] == sep then [""] + Split(s[1..], sep)
    else
      var rest := Split(s[1..], sep);
      [[s[0]] + rest[0]] + rest[1..]
  }

  /** `sep.join(pieces)`. */
  function Join(pieces: seq<string>, sep: char): string
    requires |pieces| >= 1
  {
    if |pieces| == 1 then pieces[0] else pieces[0] + [sep] + Join(pieces[1..], sep)
  }

  /** Joining the pieces with the separator gives back the string. */
  lemma {:induction false} SplitJoin(s: string, sep: char)
    ensures Join(Split(s, sep), sep) == s
  {
    if s != [] {
      SplitJoin(s[1..], sep);
      var rest := Split(s[1..], sep);
      if s[0] != sep {
        var r := Split(s, sep);
        assert r[0] == [s[0]] + rest[0] && r[1..] == rest[1..];
        if |rest| > 1 {
          assert Join(rest, sep) == rest[0] + [sep] + Join(rest[1..], sep);
        }
      } else {
        assert Split(s, sep)[1..] == rest;
      }
    }
  }

  /** The characters `str.isspace` accepts among ASCII. */
  predicate IsSpace(c: char)
  {
    c == ' ' || 9 <= c as int <= 13 || 0x1c <= c as int <= 0x1f
  }

  /** The length of the run of white space at the start of `s`. */
  function LeadingSpace(s: string): (n: nat)
    ensures n <= |s|
    ensures forall i :: 0 <= i < n ==> IsSpace(s[i])
    ensures n < |s| ==> !IsSpace(s[n])
  {
    if s != [] && IsSpace(s[0]) then 1 + LeadingSpace(s[1..]) else 0
  }

  /** The length of the run of white space at the end of `s`. */
  function TrailingSpace(s: string): (n: nat)
    ensures n <= |s|
    ensures forall i :: |s| - n <= i < |s| ==> IsSpace(s[i])
    ensures n < |s| ==> !IsSpace(s[|s| - n - 1])
  {
    if s != [] && IsSpace(s[|s| - 1]) then 1 + TrailingSpace(s[..|s| - 1]) else 0
  }

  /**
   * `s.strip()`: white space off both ends. The result is the part of `s`
   * after its leading white space, everything after it is white space, and
   * it neither starts nor ends with white space.
   */
  function Strip(s: string): (r: string)
    ensures LeadingSpace(s) + |r| <= |s|
    ensures r == s[LeadingSpace(s)..LeadingSpace(s) + |r|]
    ensures forall i :: LeadingSpace(s) + |r| <= i < |s| ==> IsSpace(s[i])
    ensures r == [] || (!IsSpace(r[0]) && !IsSpace(r[|r| - 1]))
  {
    var t := s[LeadingSpace(s)..];
    t[..|t| - TrailingSpace(t)]
  }

  /**
   * Stripping has one answer: whenever `s` is white space, then `r`, then
   * white space, and `r` has no white space at its ends, `Strip(s)` is `r`.
   */
  lemma StripIsUnique(s: string, p: string, r: string, q: string)
    requires s == p + r + q
    requires forall i :: 0 <= i < |p| ==> IsSpace(p[i])
    requires forall i :: 0 <= i < |q| ==> IsSpace(q[i])
    requires r == [] || (!IsSpace(r[0]) && !IsSpace(r[|r| - 1]))
    ensures Strip(s) == r
  {
    SpaceAround(s, p, r, q);
    if r == [] {
      assert LeadingSpace(s) == |s|;
    } else {
      StripBetween(s, |p|, |r|);
      assert s[|p|..|p| + |r|] == r;
    }
  }

  /** In `p + r + q` the characters of `p` and `q` keep their white space, and `r` sits at `|p|`. */
  lemma SpaceAround(s: string, p: string, r: string, q: string)
    requires s == p + r + q
    requires forall i :: 0 <= i < |p| ==> IsSpace(p[i])
    requires forall i :: 0 <= i < |q| ==> IsSpace(q[i])
    ensures forall i :: 0 <= i < |p| ==> IsSpace(s[i])
    ensures forall i :: |p| + |r| <= i < |s| ==> IsSpace(s[i])
    ensures forall i :: 0 <= i < |r| ==> s[|p| + i] == r[i]
  {
    forall i | 0 <= i < |p|
      ensures IsSpace(s[i])
    {
      assert s[i] == p[i];
    }
    forall i | |p| + |r| <= i < |s|
      ensures IsSpace(s[i])
    {
      assert s[i] == q[i - |p| - |r|];
    }
    forall i | 0 <= i < |r|
      ensures s[|p| + i] == r[i]
    {
    }
  }

  /**
   * When `s` is white space up to `a` and from `a + m` on, and the characters
   * at `a` and `a + m - 1` are not, `Strip(s)` is the `m` characters from `a`.
   */
  lemma StripBetween(s: string, a: nat, m: nat)
    requires 0 < m && a + m <= |s|
    requires forall i :: 0 <= i < a ==> IsSpace(s[i])
    requires forall i :: a + m <= i < |s| ==> IsSpace(s[i])
    requires !IsSpace(s[a]) && !IsSpace(s[a + m - 1])
    ensures LeadingSpace(s) == a && |Strip(s)| == m
  {
    var n, t := LeadingSpace(s), Strip(s);
    assert n == a;
    assert |t| != 0;
    assert s[n + |t| - 1] == t[|t| - 1];
  }

  /** A string that starts and ends with something other than white space is already stripped. */
  lemma StripKeepsTrimmed(s: string)
    requires s == [] || (!IsSpace(s[0]) && !IsSpace(s[|s| - 1]))
    ensures Strip(s) == s
  {
  }

  /** Stripping twice is stripping once. */
  lemma StripIdempotent(s: string)
    ensures Strip(Strip(s)) == Strip(s)
  {
    StripKeepsTrimmed(Strip(s));
  }

  /** `[piece.strip() for piece in s.split(",")]`. */
  function StrippedPieces(s: string): (r: seq<string>)
    ensures |r| == |Split(s, ',')|
    ensures forall i :: 0 <= i < |r| ==> r[i] == Strip(Split(s, ',')[i])
  {
    var pieces := Split(s, ',');
    seq(|pieces|, i requires 0 <= i < |pieces| => Strip(pieces[i]))
  }

  // ---------------------------------------------------------------------------
  // CustomOrderingFilter.get_ordering

  /** The ordering handed to the queryset. */
  datatype Ordering = DefaultOrdering | Fields(fields: seq<string>)

  /** `remove_invalid_fields`: the requested fields the view allows, in request order. */
  function ValidFields(fields: seq<string>, isValid: string -> bool): (r: seq<string>)
    ensures |r| <= |fields|
    ensures forall f :: f in r <==> f in fields && isValid(f)
  {
    if fields == [] then []
    else (if isValid(fields[0]) then [fields[0]] else []) + ValidFields(fields[1..], isValid)
  }

  /** A field sorted descending. */
  function Descending(field: string): string
  {
    "-" + field
  }

  /** The fields of a non-empty valid `sort`, with the `sortType` rule applied. */
  function SortedFields(ordering: seq<string>, sortType: Option<string>): seq<string>
  {
    if sortType.None? then ordering
    else
      var types := StrippedPieces(sortType.value);
      if |types| == 1 && types[0] == "des" then seq(|ordering|, i requires 0 <= i < |ordering| => Descending(ordering[i]))
      else if |types| == |ordering| then
        seq(|ordering|, i requires 0 <= i < |ordering| => if types[i] == "des" then Descending(ordering[i]) else ordering[i])
      else ordering
  }

  /** `get_ordering`: the signed field names requested by `sort` and `sortType`, or the default ordering. */
  function GetOrdering(sort: Option<string>, sortType: Option<string>, isValid: string -> bool): (r: Ordering)
    ensures r.Fields? ==> sort.Some? && |r.fields| == |RequestedFields(sort.value, isValid)|
    ensures r.Fields? ==> forall i :: 0 <= i < |r.fields| ==>
              r.fields[i] == RequestedFields(sort.value, isValid)[i]
              || r.fields[i] == Descending(RequestedFields(sort.value, isValid)[i])
  {
    if sort.None? || sort.value == "" then DefaultOrdering
    else
      var ordering := ValidFields(StrippedPieces(sort.value), isValid);
      if ordering == [] then DefaultOrdering else Fields(SortedFields(ordering, sortType))
  }

  /** The fields `sort` asks for that are valid, in order. */
  function RequestedFields(sort: string, isValid: string -> bool): seq<string>
  {
    ValidFields(StrippedPieces(sort), isValid)
  }

  /** The default ordering is used exactly when `sort` is missing or empty, or names no valid field. */
  lemma DefaultOrderingWhen(sort: Option<string>, sortType: Option<string>, isValid: string -> bool)
    ensures GetOrdering(sort, sortType, isValid).DefaultOrdering? <==>
              sort.None? || sort.value == "" || RequestedFields(sort.value, isValid) == []
  {
  }

  /** Whatever `sortType` says, one signed name comes out per valid field. */
  lemma OrderingLength(sort: string, sortType: Option<string>, isValid: string -> bool)
    requires sort != "" && RequestedFields(sort, isValid) != []
    ensures GetOrdering(Some(sort), sortType, isValid).Fields?
    ensures |GetOrdering(Some(sort), sortType, isValid).fields| == |RequestedFields(sort, isValid)|
  {
  }

  /** Without `sortType` the valid fields come back in order, unsigned. */
  lemma NoSortTypeKeepsFields(sort: string, isValid: string -> bool)
    requires sort != "" && RequestedFields(sort, isValid) != []
    ensures GetOrdering(Some(sort), None, isValid) == Fields(RequestedFields(sort, isValid))
  {
  }

  /** A single `sortType` of "des" sorts every field descending. */
  lemma SingleDesSortsAllDescending(sort: string, sortType: string, isValid: string -> bool)
    requires sort != "" && RequestedFields(sort, isValid) != []
    requires StrippedPieces(sortType) == ["des"]
    ensures forall i :: 0 <= i < |RequestedFields(sort, isValid)| ==>
              GetOrdering(Some(sort), Some(sortType), isValid).fields[i] == Descending(RequestedFields(sort, isValid)[i])
  {
  }

  /** With one sort type per field, field `i` is descending exactly when sort type `i` is "des". */
  lemma PerFieldSortTypes(sort: string, sortType: string, isValid: string -> bool, i: nat)
    requires sort != "" && RequestedFields(sort, isValid) != []
    requires |StrippedPieces(sortType)| == |RequestedFields(sort, isValid)|
    requires i < |RequestedFields(sort, isValid)|
    ensures GetOrdering(Some(sort), Some(sortType), isValid).fields[i] ==
              if StrippedPieces(sortType)[i] == "des" then Descending(RequestedFields(sort, isValid)[i])
              else RequestedFields(sort, isValid)[i]
  {
  }

  /** Any other number of sort types leaves the fields unsigned. */
  lemma OtherSortTypeCountIgnored(sort: string, sortType: string, isValid: string -> bool)
    requires sort != "" && RequestedFields(sort, isValid) != []
    requires |StrippedPieces(sortType)| != |RequestedFields(sort, isValid)|
    requires !(|StrippedPieces(sortType)| == 1 && StrippedPieces(sortType)[0] == "des")
    ensures GetOrdering(Some(sort), Some(sortType), isValid) == Fields(RequestedFields(sort, isValid))
  {
  }

  // ---------------------------------------------------------------------------
  // ProductFilter.filter_category and filter_promotions

  /**
   * `root` is `c` or one of its ancestors: following parent links from `c`
   * reaches `root` within `fuel` steps.
   */
  predicate DescendsFrom(categories: map<int, Category>, root: int, c: int, fuel: nat)
    decreases fuel
  {
    c == root
    || (fuel > 0 && c in categories && categories[c].parent.Some?
        && DescendsFrom(categories, root, categories[c].parent.value, fuel - 1))
  }

  /**
   * `get_descendants(include_self=True)`: the category and every category
   * below it. In a tree, an ancestor is at most as many links away as there
   * are categories.
   */
  function Descendants(categories: map<int, Category>, root: int): (r: set<int>)
    ensures root in categories ==> root in r
    ensures r <= categories.Keys
  {
    set c | c in categories && DescendsFrom(categories, root, c, |categories|)
  }

  /** `filter_category`: an unknown category gives nothing; otherwise the products of the category's subtree. */
  function FilterCategory(products: seq<Product>, categories: map<int, Category>, value: int): (r: seq<Product>)
    ensures value !in categories ==> r == []
  {
    if value !in categories then [] else Filter(products, CategoryIn(Descendants(categories, value)))
  }

  /** A known category keeps exactly the products of its subtree. */
  lemma FilterCategoryKeepsSubtree(products: seq<Product>, categories: map<int, Category>, value: int)
    requires value in categories
    ensures forall p :: p in FilterCategory(products, categories, value) <==>
              p in products && p.categoryId in categories && DescendsFrom(categories, value, p.categoryId, |categories|)
  {
  }

  /** The products of a direct sub-category are kept along with the category's own. */
  lemma FilterCategoryKeepsChildren(products: seq<Product>, categories: map<int, Category>, value: int, p: Product)
    requires value in categories && p in products && p.categoryId in categories
    requires p.categoryId == value || categories[p.categoryId].parent == Some(value)
    ensures p in FilterCategory(products, categories, value)
  {
    assert |categories| > 0;
    if p.categoryId != value {
      assert DescendsFrom(categories, value, value, |categories| - 1);
    }
    assert DescendsFrom(categories, value, p.categoryId, |categories|);
    assert p.categoryId in Descendants(categories, value);
  }

  /**
   * `filter_promotions`: no value or `False` leaves the rows alone; `True`
   * calls a manager method the promotion model does not define, so it raises.
   */
  function FilterPromotions(products: seq<Product>, value: Option<bool>): (r: Option<seq<Product>>)
    ensures value != Some(true) ==> r == Some(products)
    ensures value == Some(true) ==> r.None?
  {
    if value == Some(true) then None else Some(products)
  }
}
