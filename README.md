# Django shop: basket, pricing and request rules in Dafny

This project models the rule-bearing core of a Django web shop and proves properties of that model. The core includes:

- a session basket that maps product ids to a count and a captured unit price;
- promotions that take a percentage off a product's price inside a validity window;
- the request handlers that add, update and remove basket entries and turn the basket into an order;
- the product catalogue filter;
- the API's query-key rewriting and `sort`/`sortType` ordering rule;
- the category and promotion filters;
- two form validators and the admin price filters;
- the deployment script that merges dotenv files.

Modelling conventions:

- Prices are exact `real` numbers, because the shop uses `Decimal`.
- Timestamps are `int`, and the current time `now` is a parameter.
- The product table is a `map<int, Product>` (or a `seq<Product>` where a queryset is filtered).
- The session basket is a class whose `basket: map<int, LineItem>` field its methods update in place.
- The stored baskets of logged-in users are a second class holding one map per user.
- Orders are a class whose status and items are set in place.
- Integer and decimal parsing are function parameters (`string -> Option<int>`, `string -> Option<real>`). A `None` stands for the parse error the source catches or lets escape.

Files and modules:

- `common.dfy`: `Option`, `Result`, ASCII lower-casing and substring search.
- `models.dfy`: promotions, prices, descriptions, the availability flag and orders (`shop/models.py`).
- `basket.dfy`: the session basket and the stored baskets (`shop/basket.py`).
- `queryset.dfy`: `.filter(...)` over product rows and its algebra.
- `views.dfy`: the basket handlers, the basket page and the catalogue (`shop/views.py`).
- `filters.dfy`: `camel_to_snake`, key rewriting, ordering, and the category and promotion filters (`shop/filters.py`).
- `forms.dfy`: the promotion date check, category parent choices and availability choices (`shop/forms.py`).
- `admin_filter.dfy`: the admin min/max price filters (`shop/admin_filter.py`).
- `dotenv.dfy`: environment selection, `to_docker_path` and `merge` (`merge_production_dotenvs_in_dotenv.py`).

## Model

| member | source | states |
|---|---|---|
| Models.IsValid | shop/models.py:220-222 | a promotion applies exactly when it is active and `now` lies in the closed window |
| Models.ValidityWindowIsClosed | shop/models.py:222 | both window ends are valid instants for an active promotion; an inactive one or an instant outside the window is not |
| Models.ApplyDiscount | shop/models.py:224-233 | the price is unchanged unless the promotion is valid with a non-null, non-zero percentage; otherwise it is multiplied by `1 - pct/100` |
| Models.DiscountStaysInRange | shop/models.py:230-232 | for `price >= 0` and `pct <= 100` the discounted price lies in `[0, price]` |
| Models.GetPriceWithPromotions | shop/models.py:144-151 | the loop over the promotions returns their left-to-right fold over the base price |
| Models.PriceIsProduct | shop/models.py:144-151 | the fold equals the base price times the product of `1 - pct/100` over the discounting promotions |
| Models.NoDiscountKeepsPrice | shop/models.py:148-151 | when no promotion discounts at `now`, the price with promotions is the base price |
| Models.PromotionalPriceInRange | shop/models.py:148-151 | for a non-negative price and percentages up to 100, compounding keeps the price in `[0, price]` |
| Models.DiscountsCommute | shop/models.py:149-150 | applying two promotions in either order gives the same price |
| Models.PromotionOrderIrrelevant | shop/models.py:149-150 | any permutation of the promotion list gives the same price with promotions |
| Models.ShortDescription | shop/models.py:122-125 | a description of at most 50 characters is returned as is; a longer one becomes its first 50 characters plus `...`, 53 in all |
| Models.LineItem.TotalPrice | shop/models.py:29-33 | a line of count 0 costs 0, and a non-negative count at a non-negative price costs at least 0 |
| Models.ProductTable.constructor | shop/models.py:127-130 | the table starts with the given rows |
| Models.ProductTable.GetAvailable | shop/models.py:127-130 | the flag becomes `count > 0`, is stored in that product's row only and is returned |
| Models.Order.constructor | shop/models.py:297-302 | a new order has status Created and no items |
| Models.Order.AddItem | shop/models.py:328-345 | adding an item for a product not yet in the order adds exactly that item and keeps the status |
| Models.Order.SetStatus | shop/models.py:314-316 | the status becomes the given one; the items do not change |
| Models.Order.MarkPaid | shop/models.py:318-319 | the status becomes Paid from any status |
| Models.Order.MarkCompleted | shop/models.py:321-322 | the status becomes Completed from any status |
| Models.Order.MarkCancelled | shop/models.py:324-325 | the status becomes Cancelled from any status |
| Basket.CountRemove | shop/basket.py:38-39 | the count sum is the removed entry's count plus the sum over the rest, whichever key is removed |
| Basket.TotalRemove | shop/basket.py:59-62 | the price sum is the removed entry's `price * count` plus the sum over the rest |
| Basket.CountDisjointUnion | shop/basket.py:38-39 | the count sum of two baskets with disjoint keys is the sum of their count sums |
| Basket.EmptyAggregates | shop/basket.py:38-39 | an empty basket has count 0 and total 0 |
| Basket.SumCounts | shop/basket.py:38-39 | the loop over the entries returns the count sum |
| Basket.SumTotals | shop/basket.py:59-62 | the loop over the entries returns the sum of price times count |
| Basket.Added | shop/basket.py:41-57 | the keys gain the id; the count is set to `count` or raised by it from 0 for a new entry; an existing price is kept and a new entry takes the given price; every other entry is untouched |
| Basket.AddRaisesCount | shop/basket.py:53-56 | without `update_count` the count sum rises by exactly `count` |
| Basket.AddOverwritesCount | shop/basket.py:53-54 | with `update_count` the count sum is the other entries' sum plus `count` |
| Basket.Removed | shop/basket.py:148-158 | removing an absent id changes nothing; a count equal to the stored count deletes the key; any other count lowers it by exactly that amount; other entries are untouched |
| Basket.RemoveLowersCount | shop/basket.py:152-157 | removing from a present entry lowers the count sum by exactly `count`, in both branches |
| Basket.RemoveStoredCountDeletes | shop/basket.py:154-155 | removing the stored count deletes exactly that entry |
| Basket.Refreshed | shop/basket.py:71-89 | keys and counts are kept; an entry whose product is found gets that product's promotional price; an entry whose product is missing keeps its old price |
| Basket.RefreshKeepsCount | shop/basket.py:82-87 | refreshing prices does not change the count sum |
| Basket.RefreshIdempotent | shop/basket.py:82-87 | refreshing twice at the same instant is refreshing once |
| Basket.Merged | shop/basket.py:129-137 | the keys are the union of session and stored keys; a session entry wins over a stored one; a stored entry fills a missing key |
| Basket.MergeCount | shop/basket.py:129-137 | the merged count sum is the session's plus that of the stored entries the session lacks |
| Basket.MergeCoveredIsIdentity | shop/basket.py:133 | when the session already has every stored key, merging changes nothing |
| Basket.BasketStore.ResetBasket | shop/basket.py:98-101 | the user's stored basket becomes empty, creating it if needed; other users' baskets are untouched |
| Basket.BasketStore.CreateItem | shop/basket.py:106-111 | one item is stored in the user's basket; nothing else changes |
| Basket.SessionBasket.constructor | shop/basket.py:16-22 | the basket is the stored session value or a fresh empty one, which is put in the session |
| Basket.SessionBasket.Len | shop/basket.py:38-39 | returns the count sum |
| Basket.SessionBasket.GetTotalPrice | shop/basket.py:59-62 | returns the sum of price times count |
| Basket.SessionBasket.Add | shop/basket.py:41-57 | the basket becomes `Added` at the product's promotional price |
| Basket.SessionBasket.Remove | shop/basket.py:148-158 | the basket becomes `Removed` |
| Basket.SessionBasket.Clear | shop/basket.py:64-66 | called only while the session holds the basket, since deleting a missing key raises; the basket leaves the session, so the session holds no basket; the in-memory map is not emptied |
| Basket.SessionBasket.RefreshPrices | shop/basket.py:71-89 | the loop over the entries leaves the basket `Refreshed` |
| Basket.SessionBasket.SyncToDb | shop/basket.py:91-111 | an anonymous user changes nothing; otherwise the stored basket is replaced by exactly the refreshed session entries, and other users' baskets are untouched |
| Basket.SessionBasket.StoreEntries | shop/basket.py:105-111 | starting from an emptied stored basket, the loop leaves the user's stored basket holding exactly the session entries, other users' baskets untouched |
| Basket.SessionBasket.SyncFromDb | shop/basket.py:113-140 | an anonymous user or a missing stored basket changes nothing; otherwise the basket becomes the merged basket with refreshed prices |
| Basket.SessionBasket.MergeStored | shop/basket.py:129-137 | the loop over the stored items leaves the basket `Merged` |
| Queryset.Filter | shop/views.py:148-176 | keeps, in order, exactly the rows that satisfy the condition |
| Queryset.FilterConcat | shop/views.py:141-178 | filtering keeps the relative order of rows |
| Queryset.ChainIsConjunction | shop/views.py:141-178 | a chain of filters keeps the same rows as one pass by the conjunction of its conditions |
| Queryset.WhereMembership | shop/views.py:141-178 | the one-pass filter keeps exactly the input rows that satisfy every condition |
| Queryset.FiltersCommute | shop/views.py:168-171 | two filters may be applied in either order |
| Views.ReportBasket | shop/views.py:298-307 | the reported count and total are the basket's count sum and price sum; a negative count sum makes `len()` raise |
| Views.AddToBasket | shop/views.py:289-309 | an unknown product is `NotFound` and an unavailable one is rejected, both with the basket unchanged; otherwise one unit is added at the current promotional price and the count sum rises by 1 |
| Views.Updated | shop/views.py:325-332 | after an update the entry exists with exactly the submitted count, even when it is zero or negative; a kept entry keeps its price, a removed one returns at the current price; others are untouched |
| Views.UpdatedCount | shop/views.py:325-346 | after an update the count sum is the other entries' sum plus the submitted count |
| Views.UpdateNeverDeletes | shop/views.py:325-332 | a count of at most 0 still leaves the entry in the basket with that count |
| Views.UpdateBasketItem | shop/views.py:316-349 | a non-integer count is rejected with the basket unchanged; a missing product is `NotFound`, after the removal when the count is at most 0; otherwise the basket is `Updated` and the response carries the line total, count sum and price sum |
| Views.RemoveFromBasket | shop/views.py:356-371 | the entry is deleted whatever its count, an absent id changes nothing, and the response reports the new sums; a negative remaining count sum is `ServerError`, the exception `len()` raises while the response is built |
| Views.LiveItems | shop/views.py:264-274 | one line per basket entry, with the entry's count and the product's live base price |
| Views.LiveItemsKeepCount | shop/views.py:279 | the live lines have the basket's count sum |
| Views.LiveItemsAgreeWithStoredPrices | shop/views.py:271-272 | when every stored price equals the live base price, the page lines are the basket's own entries |
| Views.BasketSummary | shop/views.py:258-282 | the page exists exactly when every entry's product exists; its total is the sum of live price times count, and its count is the basket's count sum |
| Views.CreateOrder | shop/views.py:414-438 | an anonymous user is redirected; an empty basket is rejected and a negative count sum raises, both with no order; a missing product raises after the order row exists; otherwise the order holds one item per entry at the live price, with the basket's count, and the session no longer holds a basket |
| Views.FillOrder | shop/views.py:424-431 | the loop completes exactly when every entry's product exists; each created item has the entry's count and the live base price, and a complete run creates exactly the live lines |
| Views.Catalogue | shop/views.py:141-178 | when the query can be evaluated, the list is the products matching every supplied parameter, in their original order (`MatchingRows`) |
| Views.ChainFollowsQuery | shop/views.py:146-176 | the chained filters of a query that parses keep exactly the matching products, in order |
| Views.WhereIsMatchingRows | shop/views.py:146-176 | one pass by conditions that mean the query keeps the matching products, in order |
| Views.CatalogueFailsOnlyOnBadNumbers | shop/views.py:146-176 | the product list fails exactly when a supplied category, price bound or tag does not parse |
| Views.ConditionsMeanQuery | shop/views.py:141-178 | a row satisfies the chained conditions exactly when it matches every supplied parameter |
| Views.EachClauseMeansItsParameter | shop/views.py:146-176 | each filter of the chain holds for a row exactly when the row matches that parameter, an unsupplied parameter imposing nothing |
| Views.CatalogueKeepsExactlyMatching | shop/views.py:141-178 | the list keeps exactly the rows that match the category, availability, search, inclusive price bounds and tag, with empty parameters imposing nothing |
| Views.MatchingRowsMembership | shop/views.py:141-178 | the listed products are exactly the input products that match the query |
| Views.EmptyQueryListsEverything | shop/views.py:141-178 | with no parameters every product is listed, in order |
| Filters.CamelToSnake | shop/filters.py:14-15 | the output has no ASCII upper-case letter and is one character longer per capital after the first character |
| Filters.CamelToSnakeTwoWords | shop/filters.py:15 | a two-word camelCase name gets one `_` before its capital, which is lower-cased |
| Filters.CamelToSnakeExample | shop/filters.py:15 | `categoryId` becomes `category_id` |
| Filters.CamelToSnakeKeepsSnakeCase | shop/filters.py:15 | a string without ASCII capitals is unchanged |
| Filters.CamelToSnakeIdempotent | shop/filters.py:15 | applying the rewrite twice is applying it once |
| Filters.RewriteKeys | shop/filters.py:19-29 | the loop over the query items returns the items' rewritten map |
| Filters.RewrittenKeys | shop/filters.py:25-26 | the new keys are exactly the rewritten old keys |
| Filters.LaterItemWins | shop/filters.py:25-26 | a key keeps the value of the last item that rewrites to it |
| Filters.Split | shop/filters.py:53 | splitting gives at least one piece, and no piece holds the separator |
| Filters.SplitJoin | shop/filters.py:53 | joining the pieces with the separator gives back the string |
| Filters.Strip | shop/filters.py:53 | the result is the part of the piece after its leading white space, everything after it is white space, and it neither starts nor ends with white space |
| Filters.StripIsUnique | shop/filters.py:53 | for any split of a piece into white space, a middle without white space at its ends, and white space, stripping gives that middle |
| Filters.StripIdempotent | shop/filters.py:53 | stripping twice is stripping once |
| Filters.ValidFields | shop/filters.py:54 | the kept fields are exactly the requested fields the view allows |
| Filters.GetOrdering | shop/filters.py:51-76 | an ordering of fields has one entry per valid requested field, each that field either as is or descending |
| Filters.DefaultOrderingWhen | shop/filters.py:51-76 | the default ordering is used exactly when `sort` is missing or empty, or names no valid field |
| Filters.OrderingLength | shop/filters.py:56-73 | there is one signed name per valid field, whatever `sortType` is |
| Filters.NoSortTypeKeepsFields | shop/filters.py:56-59 | without `sortType` the valid fields come back in order, unsigned |
| Filters.SingleDesSortsAllDescending | shop/filters.py:65-66 | a single `des` makes every field descending |
| Filters.PerFieldSortTypes | shop/filters.py:68-72 | with one sort type per field, field `i` is descending exactly when sort type `i` is `des` |
| Filters.OtherSortTypeCountIgnored | shop/filters.py:73 | any other number of sort types leaves the fields unsigned |
| Filters.Descendants | shop/filters.py:126 | the subtree of a known category contains it and only known categories |
| Filters.FilterCategory | shop/filters.py:116-127 | an unknown category gives no rows |
| Filters.FilterCategoryKeepsSubtree | shop/filters.py:126-127 | a known category keeps exactly the rows whose category lies in its subtree |
| Filters.FilterCategoryKeepsChildren | shop/filters.py:126-127 | rows of the category and of its direct sub-categories are kept |
| Filters.FilterPromotions | shop/filters.py:129-132 | no value or `False` returns the rows unchanged; `True` raises |
| Forms.CleanPromotion | shop/forms.py:200-209 | the date error is raised exactly when both dates are given and the start is not before the end; otherwise the data comes back unchanged |
| Forms.EqualDatesRejected | shop/forms.py:205-207 | equal start and end dates are refused |
| Forms.MissingDateAccepted | shop/forms.py:205 | a missing date never raises the date error |
| Forms.AcceptedWindowIsOpen | shop/forms.py:205-207 | an accepted active promotion ends after it starts and is valid at both ends of its window |
| Forms.ParentChoices | shop/forms.py:32-40 | when editing, the choices are exactly the categories other than the instance |
| Forms.NewCategoryMayTakeAnyParent | shop/forms.py:39-40 | a new category, with no key or the falsy key 0, is offered every category |
| Forms.EditingKeepsOrder | shop/forms.py:36-38 | excluding a key that no category has leaves the parent choices exactly as they were, in order |
| Forms.EditingKeepsDescendants | shop/forms.py:35-38 | a sub-category of the edited category is still offered as its parent |
| Forms.AvailableChoicesMatchCatalogue | shop/forms.py:143-148 | the blank choice filters nothing, and `true` and `false` keep the available and unavailable products |
| AdminFilter.MinPriceFilter | shop/admin_filter.py:20-32 | never longer than the rows given; keeps exactly the rows priced at or above the parsed bound, and all rows when there is none |
| AdminFilter.MaxPriceFilter | shop/admin_filter.py:46-58 | never longer than the rows given; keeps exactly the rows priced at or below the parsed bound, and all rows when there is none |
| AdminFilter.NoBoundKeepsQueryset | shop/admin_filter.py:25-32 | a missing, empty or unparseable value leaves the rows unchanged |
| AdminFilter.MinIsInclusive | shop/admin_filter.py:30-31 | a parsed minimum keeps exactly the rows priced at it or above |
| AdminFilter.MaxIsInclusive | shop/admin_filter.py:56-57 | a parsed maximum keeps exactly the rows priced at it or below |
| AdminFilter.FiltersOnlyRemove | shop/admin_filter.py:20-32 | neither filter adds rows |
| AdminFilter.MinMaxCommute | shop/admin_filter.py:30-31 | the two filters may run in either order |
| AdminFilter.BothBoundsKeepRange | shop/admin_filter.py:30-31 | with both bounds, the rows kept are exactly those priced in the closed range |
| Dotenv.EnvType | merge_production_dotenvs_in_dotenv.py:7-10 | a missing or empty argument selects `prod`; any other argument is taken as given |
| Dotenv.DotenvsDir | merge_production_dotenvs_in_dotenv.py:12-19 | selection succeeds exactly for `prod` and `local`; anything else raises the unknown-environment error |
| Dotenv.DefaultIsProduction | merge_production_dotenvs_in_dotenv.py:7-15 | with no argument, or an empty one, the production directory is chosen |
| Dotenv.ArgumentPicksDirectory | merge_production_dotenvs_in_dotenv.py:14-19 | `prod` picks `.envs/.production`, `local` picks `.envs/.local`, and anything else fails |
| Dotenv.ScriptMergesChosenFiles | merge_production_dotenvs_in_dotenv.py:7-58 | the script fails exactly for an unknown environment type, with its message; otherwise `.env` holds the `BASE_DIR` line, then the chosen directory's `.django` file and its `.postgres` file, each followed by a newline |
| Dotenv.DefaultScriptMergesProduction | merge_production_dotenvs_in_dotenv.py:7-58 | run without an argument, the script merges `.envs/.production/.django` and `.envs/.production/.postgres` after the `BASE_DIR` line |
| Dotenv.JoinedTwo | merge_production_dotenvs_in_dotenv.py:51-53 | two files are merged as the first, a newline, the second and a newline |
| Dotenv.DockerPathHasNoBackslash | merge_production_dotenvs_in_dotenv.py:29-35 | the rewritten path has no backslash |
| Dotenv.NoColonOnlySlashes | merge_production_dotenvs_in_dotenv.py:30-35 | without a colon, only backslashes change, into slashes |
| Dotenv.ColonSplitsAtFirst | merge_production_dotenvs_in_dotenv.py:31-34 | with a colon, the path is split at the first one: the lower-cased drive goes under `/run/desktop/mnt/host/` and the rest follows, later colons included |
| Dotenv.DockerPathExample | merge_production_dotenvs_in_dotenv.py:29-35 | `C:\proj` becomes `/run/desktop/mnt/host/c/proj` |
| Dotenv.Merge | merge_production_dotenvs_in_dotenv.py:38-54 | the loop returns the optional `BASE_DIR` line followed by each file's content plus a newline, in order |
| Dotenv.JoinedConcat | merge_production_dotenvs_in_dotenv.py:51-53 | the merged files split into consecutive runs of files |
| Dotenv.MergedStartsWithBaseDir | merge_production_dotenvs_in_dotenv.py:46-49 | with `add_base_dir` the content opens with `BASE_DIR=` and the Docker path of the directory, on its own line |
| Dotenv.MergedWithoutBaseDir | merge_production_dotenvs_in_dotenv.py:44-53 | without it the content is the files alone |
| Dotenv.FileAppearsInOrder | merge_production_dotenvs_in_dotenv.py:51-53 | file `i` appears whole, followed by a newline, right after the files before it |
| Dotenv.JoinedLength | merge_production_dotenvs_in_dotenv.py:51-53 | the merged files are as long as their contents plus one newline per file |

## Left out

- The ORM, the session store and the login/logout signal hooks (`shop/basket.py:161-174`) are not modelled. Rows are maps or sequences passed in, the stored baskets are the `BasketStore` class, and `session.modified` is not modelled.
- `timezone.now()` is not modelled; the current time is the parameter `now`. The source reads the clock anew for each promotion inside the price loop, while the model uses one instant for the whole fold.
- The string storage of session prices and the 2-decimal-place quantisation of stored prices are not modelled, because prices are exact numbers.
- The grammars of `int(...)` and `Decimal(...)` (signs, exponents, NaN, Infinity) are not modelled; parsing is a parameter returning `Option`.
- A string that `Decimal` parses to NaN or an infinity is a number in the admin price filters but has no `real` counterpart; such values are left to the parse parameter of `AdminFilter.Bound`.
- The regular-expression engine is not modelled; `camel_to_snake` is written out over characters.
- Lower-casing, `strip()` and `icontains` cover ASCII only. Non-ASCII letters and white space are left alone, although Python's `str.lower()` and `str.strip()` and the database's case-insensitive match treat them too.
- DRF's `remove_invalid_fields` is an order-preserving filter by a predicate parameter. The allowed-field table behind it is not modelled.
- MPTT's `get_descendants` is the set of categories from which following parent links reaches the category within as many steps as there are categories. In a tree that is the full subtree; a parent cycle is not modelled.
- `Promotion.objects.active()` is not defined by the shop's models, so `filter_promotions` with `True` is modelled as raising.
- `Order.total_cost` and `Product.get_tags_dict` are not modelled; as written they read attributes the objects do not have.
- `SessionBasket.__iter__` is not modelled as an operation. Its shallow copy writes the product and total into the session's own entries. Only its per-line `price * count` and its failure on a missing product are kept.
- Views.CreateOrder: when a product is missing, the items created before the failure are only stated to be a subset of the correct items, because they are the entries before the first missing product in the session's insertion order, and the map of entries does not keep that order.
- Basket.SessionBasket.SyncToDb: each stored item is written as if the insert always succeeds. In the source the insert fails on the product foreign key for an entry whose product was deleted, because the price refresh keeps such entries, and on a count that the positive-integer count column refuses.
- Views.CreateOrder: each order item is written as if the insert always succeeds. In the source the insert fails on a count outside 0..32767, the range of the order item's positive small-integer count column, which the count update can produce.
- Views.FillOrder: the same as Views.CreateOrder; counts outside 0..32767 are stored as given.
- The database's positive-integer constraint on stored counts, and the unique constraints on basket and order items, are not modelled. The maps keyed by product id keep one item per product.
- Messages, labels, templates, JSON formatting of numbers, JavaScript, serializers, URL routing, admin configuration and the API views are not modelled; none of them decide an outcome.
- Reading `sys.argv` and the dotenv files, and writing `.env`, are not modelled. The arguments and file contents are parameters, and the chosen directory is returned as path components below the script's directory, independent of the platform's separator.
- Session persistence after an exception (whether a partly changed basket is saved when a handler answers `ServerError` or `NotFound`) is not modelled. The model states the in-memory basket.
