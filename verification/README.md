# SwaLay watch store — a verified model of its state and catalog logic

SwaLay is a Next.js storefront for watches. This project models the parts of
it that hold state or compute over the catalog, and proves properties about
them:

- **Cart store** (`cart.dfy`, module `CartStore`). The cart reducer has five
  actions: add, remove, update quantity, clear and load. The `Cart` provider
  class dispatches those actions and writes every new state to its saved
  snapshot. It also computes the derived totals and answers membership.
- **Wishlist store** (`wishlist.dfy`, module `WishlistStore`). The same
  shape: a duplicate add leaves the wishlist unchanged, and each entry keeps
  the time it was first added.
- **Compare page** (`compare.dfy`, module `ComparePage`). A selection of at
  most four products with distinct identifiers. It is saved as a list of
  identifiers and restored by filtering the catalog.
- **Search page** (`search.dfy`, module `SearchPage`). The query, price and
  category filter. The comparator sort is modelled as an in-place insertion
  sort on an array. Also modelled: category toggling and the "clear filters"
  reset.
- **Product grid** (`product_grid.dfy`, module `ProductGrid`). The
  client-side search and category filter.
- **Dashboard** (`dashboard.dfy`, module `Dashboard`). Stock statistics, the
  low-stock list and the stock badge.
- **Categories page** (`categories.dfy`, module `CategoriesPage`). The
  `reduce` that groups products by category into an accumulator object,
  modelled as a loop over a map. Also the "starting from" minimum price.
- **Add-to-cart button** (`add_to_cart_button.dfy`, module
  `AddToCartButton`). The quantity stepper clamped by inventory, the button
  state and caption, and the hand-off to the cart.
- **Products endpoint** (`products_api.dfy`, module `ProductsApi`). The
  API-key check and the body handling of POST, and the record it builds. The
  record's slug comes from `toLowerCase().replace(/\s+/g, '-')` and its id
  from `Date.now().toString()`.

Shared pieces:

- `catalog.dfy` (module `Catalog`): the `Product` record and the ordered,
  de-duplicated category list.
- `seqs.dfy` (module `Seqs`): generic filter, map, sum and de-duplication,
  with their lemmas. "Keeps order" is stated as an index embedding
  (`IsSubsequence`).
- `text.dfy` (module `Text`): ASCII lower-casing, substring search and the
  `\s` character class.
- `wrappers.dfy` (module `Wrappers`): `Option`.

Clock readings, the browser's storage, the locale collation and date
parsing are not computed here. They are parameters: `now`, `isoNow`,
`nameRank`, `timeOf`, and an `Option` for a saved snapshot.

Two behaviours of the cart that the model states as they are in the code:

- **Cart quantities.** `addToCart` accepts any quantity and `LOAD_CART`
  installs whatever was saved, so a line's quantity is not always at least
  1. The model proves that "ids distinct, quantities positive" is kept by
  every action except a load, and by an add only when its quantity is at
  least 1 (`CartStore.CartReducer`).
- **Cart prices.** `getTotalPrice` uses the price of the product record
  stored in each cart line, which is the record from the first add or from
  the saved snapshot, not a fresh catalog price. `CartStore.TotalsAfterAdd`
  states this through `ChargedPrice`.

## Model

| member | source | states |
|---|---|---|
| Catalog.Categories | app/search/page.tsx:18-20 | the category list has no duplicates, and a category is listed iff some product has it |
| Catalog.CategoriesInFirstOccurrenceOrder | components/ProductGrid.tsx:25-27 | categories appear in the order in which the catalog first mentions them (the insertion order of the `Set`) |
| CartStore.HasItem | contexts/CartContext.tsx:94-96 | true iff some line carries the identifier |
| CartStore.Find | contexts/CartContext.tsx:19 | finds a line iff the identifier is present; the line found carries it and is the first such line |
| CartStore.AddItem | contexts/CartContext.tsx:18-28 | present product: same lines and products, and only that line's quantity grows by `q`; absent product: one line `(p, q)` appended at the end; the product is present afterwards |
| CartStore.RemoveItem | contexts/CartContext.tsx:29-30 | keeps exactly the lines of other products; none of the removed product remains; never longer |
| CartStore.RemoveCounts | contexts/CartContext.tsx:29-30 | every copy of a line of another product is kept, and no line of the removed product |
| CartStore.UpdateItemQuantity | contexts/CartContext.tsx:31-39 | a quantity `<= 0` behaves as remove; otherwise the matching lines get the new quantity in place, and the other lines are unchanged |
| CartStore.CartReducer | contexts/CartContext.tsx:16-47 | every action except load keeps product ids distinct; with add quantities of at least 1, it also keeps every quantity positive |
| CartStore.AddKeepsWellFormed | contexts/CartContext.tsx:18-28 | add keeps ids distinct; with `q >= 1` it keeps quantities positive |
| CartStore.RemoveKeepsWellFormed | contexts/CartContext.tsx:29-30 | remove keeps ids distinct and quantities positive |
| CartStore.UpdateKeepsWellFormed | contexts/CartContext.tsx:31-39 | update keeps ids distinct and quantities positive, for any new quantity |
| CartStore.AddTwiceMerges | contexts/CartContext.tsx:18-28 | adding `q1` and then `q2` of one product equals adding `q1 + q2` once |
| CartStore.MergeTwice | contexts/CartContext.tsx:21-25 | two quantity merges on one id compose into one merge of the sum |
| CartStore.AddTwiceScenario | contexts/CartContext.tsx:18-28 | adding "A" with 2 and then 3 leaves the single line (A, 5) and a unit total of 5 |
| CartStore.TotalPriceScenario | contexts/CartContext.tsx:90-92 | lines (price 10, 2 units) and (price 25, 1 unit) total 45 |
| CartStore.RemoveAbsentIsNoOp | contexts/CartContext.tsx:29-30 | removing an absent product leaves the cart unchanged |
| CartStore.RemoveKeepsOrder | contexts/CartContext.tsx:29-30 | the remaining lines keep their relative order |
| CartStore.UpdateAbsentIsNoOp | contexts/CartContext.tsx:35-39 | a positive update of an absent product leaves the cart unchanged |
| CartStore.MergeAbsentIsIdentity | contexts/CartContext.tsx:21-25 | the merge changes nothing when no line matches |
| CartStore.MergeTotals | contexts/CartContext.tsx:86-92 | in a cart with distinct ids, merging `q` into a present line adds `q` units, and adds `q` times that line's price to the total |
| CartStore.TotalsAfterAdd | contexts/CartContext.tsx:86-92 | after an add, the unit total grows by `q`, and the price total by `q` times the price of the record stored for that product |
| CartStore.TotalItemsAfterRemove | contexts/CartContext.tsx:86-88 | in a cart with distinct ids, removing a product takes away exactly the units of its line (none if absent) |
| CartStore.TotalItemsAtLeastLines | contexts/CartContext.tsx:86-88 | with positive quantities, the unit total is at least the number of lines |
| CartStore.Cart.constructor | contexts/CartContext.tsx:50 | the provider starts empty, and so does its saved snapshot |
| CartStore.Cart.Dispatch | contexts/CartContext.tsx:66-68 | the new state is the reducer's result and is written to the snapshot; the positive-quantity, distinct-id invariant is kept as in `CartReducer` |
| CartStore.Cart.Hydrate | contexts/CartContext.tsx:53-63 | a readable snapshot replaces the items; a missing or unreadable one leaves them as they were; the snapshot then matches the items |
| CartStore.Cart.AddToCart | contexts/CartContext.tsx:70-72 | the items become `AddItem` of the old items, and are saved |
| CartStore.Cart.RemoveFromCart | contexts/CartContext.tsx:74-76 | the items become `RemoveItem` of the old items, and are saved |
| CartStore.Cart.UpdateQuantity | contexts/CartContext.tsx:78-80 | the items become `UpdateItemQuantity` of the old items, and are saved |
| CartStore.Cart.ClearCart | contexts/CartContext.tsx:82-84 | the items and the snapshot become empty |
| CartStore.Cart.GetTotalItems | contexts/CartContext.tsx:86-88 | returns the sum of the quantities |
| CartStore.Cart.GetTotalPrice | contexts/CartContext.tsx:90-92 | returns the sum of price times quantity |
| CartStore.Cart.IsInCart | contexts/CartContext.tsx:94-96 | true iff some line carries the identifier |
| CartStore.Reload | contexts/CartContext.tsx:53-68 | a fresh provider hydrated from the saved snapshot holds exactly the saved items |
| WishlistStore.HasEntry | contexts/WishlistContext.tsx:68-70 | true iff some entry carries the identifier |
| WishlistStore.AddEntry | contexts/WishlistContext.tsx:17-23 | a present product leaves the list unchanged; an absent one is appended with the given timestamp; the product is present afterwards |
| WishlistStore.RemoveEntry | contexts/WishlistContext.tsx:24-25 | keeps exactly the entries of other products; none of the removed product remains |
| WishlistStore.RemoveCounts | contexts/WishlistContext.tsx:24-25 | every copy of an entry of another product is kept, and no entry of the removed product |
| WishlistStore.WishlistReducer | contexts/WishlistContext.tsx:15-33 | every action except load keeps product ids distinct |
| WishlistStore.AddKeepsIdsDistinct | contexts/WishlistContext.tsx:17-23 | add keeps ids distinct |
| WishlistStore.RemoveKeepsIdsDistinct | contexts/WishlistContext.tsx:24-25 | remove keeps ids distinct |
| WishlistStore.AddIdempotent | contexts/WishlistContext.tsx:18-21 | adding the same product twice equals adding it once, and the first timestamp wins |
| WishlistStore.AddKeepsFirstTimestamp | contexts/WishlistContext.tsx:18-21 | re-adding a product never refreshes its `addedAt` |
| WishlistStore.RemoveAbsentIsNoOp | contexts/WishlistContext.tsx:24-25 | removing an absent product leaves the list unchanged |
| WishlistStore.RemoveKeepsOrder | contexts/WishlistContext.tsx:24-25 | the remaining entries keep their relative order |
| WishlistStore.RemovePresentShortensByOne | contexts/WishlistContext.tsx:72-74 | with distinct ids, removing a present product lowers the count by exactly one |
| WishlistStore.Wishlist.constructor | contexts/WishlistContext.tsx:36 | the provider starts empty, and so does its saved snapshot |
| WishlistStore.Wishlist.Dispatch | contexts/WishlistContext.tsx:52-54 | the new state is the reducer's result and is saved; distinct ids are kept except by load |
| WishlistStore.Wishlist.Hydrate | contexts/WishlistContext.tsx:39-49 | a readable snapshot replaces the entries; a missing or unreadable one leaves them as they were |
| WishlistStore.Wishlist.AddToWishlist | contexts/WishlistContext.tsx:56-58 | the entries become `AddEntry` of the old entries at the given time, and are saved |
| WishlistStore.Wishlist.RemoveFromWishlist | contexts/WishlistContext.tsx:60-62 | the entries become `RemoveEntry` of the old entries, and are saved |
| WishlistStore.Wishlist.ClearWishlist | contexts/WishlistContext.tsx:64-66 | the entries and the snapshot become empty |
| WishlistStore.Wishlist.IsInWishlist | contexts/WishlistContext.tsx:68-70 | true iff some entry carries the identifier |
| WishlistStore.Wishlist.GetTotalItems | contexts/WishlistContext.tsx:72-74 | returns the number of entries |
| WishlistStore.Reload | contexts/WishlistContext.tsx:39-54 | a fresh provider hydrated from the saved snapshot holds exactly the saved entries |
| ComparePage.AddToSelection | app/compare/page.tsx:32-36 | appends the product exactly when fewer than four are selected and its id is not among them; otherwise the selection is unchanged |
| ComparePage.RemoveFromSelection | app/compare/page.tsx:38-40 | keeps exactly the products with other ids |
| ComparePage.AddKeepsValid | app/compare/page.tsx:32-36 | add keeps the selection at most four long with distinct ids |
| ComparePage.RemoveKeepsValid | app/compare/page.tsx:38-40 | remove keeps the selection valid |
| ComparePage.RunKeepsValid | app/compare/page.tsx:32-44 | any sequence of add, remove and clear keeps the selection valid |
| ComparePage.RemoveKeepsOrder | app/compare/page.tsx:38-40 | the remaining products keep their relative order |
| ComparePage.SavedIds | app/compare/page.tsx:26-30 | the saved list has one id per selected product, and holds exactly their ids |
| ComparePage.Hydrate | app/compare/page.tsx:12-24 | the restored selection is the catalog products whose id was saved |
| ComparePage.HydrateCounts | app/compare/page.tsx:18 | a catalog product whose id was saved is restored as many times as the catalog holds it, and no other product |
| ComparePage.HydrateKeepsCatalogOrder | app/compare/page.tsx:18 | the restored selection follows catalog order, not the saved order |
| ComparePage.HydrateIsNotCapped | app/compare/page.tsx:18 | restoring does not apply the four-product cap: if every catalog id was saved, the whole catalog comes back |
| ComparePage.HydrateSavedIsValid | app/compare/page.tsx:12-30 | with unique catalog ids, restoring what a valid selection saved gives a valid selection |
| ComparePage.SaveThenHydrate | app/compare/page.tsx:12-30 | save then restore gives back the same set of ids when every selected id is in the catalog |
| ComparePage.Candidates | app/compare/page.tsx:250-252 | at most four products, all available and none selected, and they are the first four unselected products in catalog order |
| ComparePage.Compare.constructor | app/compare/page.tsx:9-10 | starts with nothing selected and the full catalog available |
| ComparePage.Compare.Load | app/compare/page.tsx:12-24 | a readable saved list restores `Hydrate` of the catalog; otherwise the selection is unchanged; the saved list then matches the selection |
| ComparePage.Compare.AddProduct | app/compare/page.tsx:32-36 | the selection becomes `AddToSelection` of the old one and is saved; validity is kept |
| ComparePage.Compare.RemoveProduct | app/compare/page.tsx:38-40 | the selection becomes `RemoveFromSelection` of the old one and is saved; validity is kept |
| ComparePage.Compare.ClearAll | app/compare/page.tsx:42-44 | the selection and the saved list become empty |
| ComparePage.Compare.MoreCandidates | app/compare/page.tsx:250-252 | returns the candidates for the current selection; the page renders them only while fewer than four products are selected (line 246), a guard this member does not apply |
| SearchPage.FilterProducts | app/search/page.tsx:25-36 | a product is kept iff it matches the query (name or description), lies in the price range and is in a ticked category (or none is ticked) |
| SearchPage.FilterCounts | app/search/page.tsx:25-36 | a matching product is kept as many times as the catalog holds it, and a non-matching one not at all |
| SearchPage.SortProducts | app/search/page.tsx:39-52 | the array ends sorted by the chosen key and is a permutation of the input; an unrecognised sort key leaves it unchanged |
| SearchPage.InsertOne | app/search/page.tsx:39-52 | one pass of the sort: with the first `i` elements sorted, the first `i + 1` end sorted, the array stays a permutation, and the unrecognised key moves nothing |
| SearchPage.FilterAndSort | app/search/page.tsx:24-53 | the result is a permutation of the filtered products, sorted by the key; price-low is non-decreasing and price-high non-increasing in price; an unknown key keeps catalog order |
| SearchPage.DefaultFiltersKeepAll | app/search/page.tsx:25-36 | an empty query, no ticked category and a range covering every price keep the whole catalog |
| SearchPage.FilterKeepsCatalogOrder | app/search/page.tsx:25-36 | filtering keeps catalog order |
| SearchPage.ToggleCategory | app/search/page.tsx:58-64 | a ticked category is removed, and the others stay; an unticked one is appended |
| SearchPage.ToggleTwice | app/search/page.tsx:58-64 | toggling twice restores the set of ticked categories, and the exact list when the category was unticked |
| SearchPage.ToggleKeepsDistinct | app/search/page.tsx:58-64 | toggling never ticks a category twice |
| SearchPage.Search.constructor | app/search/page.tsx:10-13 | the query comes from `q` (empty when absent); the range is [0, 10000]; nothing is ticked; the sort is by name |
| SearchPage.Search.HandleCategoryToggle | app/search/page.tsx:58-64 | the ticked list becomes its toggle, and the rest of the state is untouched |
| SearchPage.Search.ClearFilters | app/search/page.tsx:167-171 | resets the query, range, ticked categories and sort to their initial values |
| SearchPage.Search.Results | app/search/page.tsx:24-53 | the shown products are a permutation of the filtered products (each matching product as often as in the catalog), sorted by the current key; for an unrecognised key they keep catalog order |
| ProductGrid.FilteredProducts | components/ProductGrid.tsx:16-23 | a product is kept iff its name or description contains the term and the category matches (or none is chosen) |
| ProductGrid.FilteredCounts | components/ProductGrid.tsx:16-23 | a matching product is kept as many times as the catalog holds it, and a non-matching one not at all |
| ProductGrid.FilteredKeepsOrder | components/ProductGrid.tsx:16-23 | filtering keeps catalog order |
| ProductGrid.EmptyFiltersKeepAll | components/ProductGrid.tsx:16-23 | the empty term and no category keep every product |
| Dashboard.GetDashboardData | app/dashboard/page.tsx:17-33 | the product count is the catalog length; the low-stock list holds exactly the products under 10 units and its length is the low-stock count; out-of-stock ≤ low-stock ≤ total |
| Dashboard.LowStockCounts | app/dashboard/page.tsx:30 | the low-stock list holds each product under 10 units as many times as the catalog does, and no other product |
| Dashboard.LowStockKeepsOrder | app/dashboard/page.tsx:30 | the low-stock list keeps catalog order |
| Dashboard.InventoryValue | app/dashboard/page.tsx:26 | the inventory value is additive over concatenation, and non-negative for non-negative prices and stock |
| Dashboard.InventoryValueBase | app/dashboard/page.tsx:26 | an empty catalog is worth 0 and a single product is worth its price times its stock; with additivity this fixes the value as the sum of price times stock |
| Dashboard.Status | app/dashboard/page.tsx:183-189 | Out of Stock iff inventory is 0; Low Stock iff it is non-zero and under 10; In Stock iff it is at least 10 |
| Dashboard.BadgeText | app/dashboard/page.tsx:183-189 | the badge reads "Out of Stock" iff the inventory is 0, "Low Stock" iff it is non-zero and under 10, "In Stock" iff it is at least 10 |
| Dashboard.StatsAgreeWithBadges | app/dashboard/page.tsx:24-25 | the low-stock count equals the number of rows badged Out of Stock or Low Stock; the out-of-stock count equals the rows badged Out of Stock |
| CategoriesPage.GroupByCategory | app/categories/page.tsx:9-15 | the keys are the categories in first-occurrence order; each group is non-empty and is exactly that category's products in catalog order; every product lands in its category's group, and the group sizes add up to the number of products |
| CategoriesPage.GroupSizesAddUp | app/categories/page.tsx:9-15 | counted category by category over the distinct categories, the products number exactly the catalog length: each product is in exactly one group |
| CategoriesPage.SizeSumCovers | app/categories/page.tsx:9-15 | over distinct categories, the per-category counts add up to the number of products in those categories |
| CategoriesPage.SizeSumCons | app/categories/page.tsx:11-13 | one more product adds one to the count of its category and nothing to the others |
| CategoriesPage.GroupTotalIsSizeSum | app/categories/page.tsx:30 | the total size of the listed groups is the per-category count of the catalog |
| CategoriesPage.FirstSeenIsCategories | app/categories/page.tsx:30 | the order in which groups were opened is the catalog's first-occurrence category order |
| CategoriesPage.GroupKeepsCatalogOrder | app/categories/page.tsx:13 | each group keeps catalog order |
| CategoriesPage.MinPrice | app/categories/page.tsx:99 | the "starting from" price is the price of some product in the group and no product in it is cheaper |
| AddToCartButton.Decremented | components/AddToCartButton.tsx:33 | "-" gives the larger of 1 and the old quantity minus one: it is at least both and equal to one of them |
| AddToCartButton.Incremented | components/AddToCartButton.tsx:40 | "+" never exceeds the inventory or the old quantity plus one, and it is one of the two |
| AddToCartButton.DecrementKeepsReachable | components/AddToCartButton.tsx:33 | "-" keeps the quantity among those the stepper can reach |
| AddToCartButton.IncrementKeepsReachable | components/AddToCartButton.tsx:40 | "+" keeps the quantity among those the stepper can reach |
| AddToCartButton.InStockQuantityInRange | components/AddToCartButton.tsx:15-40 | with stock on hand, every reachable quantity is between 1 and the inventory |
| AddToCartButton.SteppersSaturate | components/AddToCartButton.tsx:33-40 | `n` presses of "+" reach `min(q + n, inventory)`, and `n` presses of "-" reach `max(q - n, 1)` |
| AddToCartButton.ButtonLabel | components/AddToCartButton.tsx:60-74 | the caption is "Adding…" iff busy; "Out of Stock" iff idle with no inventory; "Added" iff idle, stocked and in the cart; otherwise "Add q" on an enabled button |
| AddToCartButton.LabelMatchesDisabled | components/AddToCartButton.tsx:51-69 | when idle, the caption is "Out of Stock" exactly when the button is disabled |
| AddToCartButton.Button.constructor | components/AddToCartButton.tsx:14-15 | starts at quantity 1, not busy, in a reachable state |
| AddToCartButton.Button.Decrement | components/AddToCartButton.tsx:33 | the quantity becomes `Decremented` of the old one; reachability is kept |
| AddToCartButton.Button.Increment | components/AddToCartButton.tsx:40 | the quantity becomes `Incremented` of the old one; reachability is kept |
| AddToCartButton.Button.HandleAddToCart | components/AddToCartButton.tsx:17-22 | the cart receives `AddItem(product, quantity)` and saves it; the busy flag ends lowered; with stock on hand a well-formed cart stays well-formed |
| ProductsApi.ReplaceWhitespaceRuns | app/api/products/route.ts:32 | the result has no white space, is never longer, and every character is a dash or comes from the input |
| ProductsApi.RunBecomesOneDash | app/api/products/route.ts:32 | a maximal run of white space anywhere in the string, however long, becomes exactly one dash, and the text on each side is replaced on its own |
| ProductsApi.ReplaceAppend | app/api/products/route.ts:32 | after a character that is not white space, the rest of the string is replaced independently: the replacement of `x + y` is that of `x` followed by that of `y` |
| ProductsApi.RunAtStart | app/api/products/route.ts:32 | a run at the start of the string becomes one leading dash |
| ProductsApi.SlugWords | app/api/products/route.ts:32 | two words separated by any run of white space become the words joined by one dash |
| ProductsApi.RunIsSkipped | app/api/products/route.ts:32 | once a run's dash is emitted, the rest of the run adds nothing |
| ProductsApi.ReplaceKeepsWhitespaceFree | app/api/products/route.ts:32 | a string without white space is left unchanged |
| ProductsApi.ReplaceFixedPoints | app/api/products/route.ts:32 | the replacement leaves a string unchanged iff it has no white space |
| ProductsApi.ReplaceIdempotent | app/api/products/route.ts:32 | replacing twice is replacing once |
| ProductsApi.ReplaceKeepsOtherCharacters | app/api/products/route.ts:32 | apart from white space and dashes, the characters and their order are unchanged |
| ProductsApi.SlugIsStable | app/api/products/route.ts:32 | a generated slug has no white space and is its own slug |
| ProductsApi.DecimalString | app/api/products/route.ts:31 | the id is a non-empty string of decimal digits with no leading zero |
| ProductsApi.DecimalRoundTrip | app/api/products/route.ts:31 | reading the id back as a decimal number gives the clock reading |
| ProductsApi.DecimalStringInjective | app/api/products/route.ts:31 | distinct clock readings give distinct ids |
| ProductsApi.Authorized | app/api/products/route.ts:20-27 | authorised iff the header is present, the admin key is configured, and they are equal |
| ProductsApi.NameOf | app/api/products/route.ts:29-32 | a name is found iff the body is an object whose `name` is a string |
| ProductsApi.Post | app/api/products/route.ts:18-47 | 401 iff not authorised; 201 iff authorised with an object body that has a string name; otherwise 500 |
| ProductsApi.PostBodyWins | app/api/products/route.ts:30-36 | a created record holds every body field unchanged, plus `id`, `slug`, `lastUpdated` and `image`, and no other key |
| ProductsApi.PostDefaults | app/api/products/route.ts:30-36 | fields the body omits get the clock id, the slug of the name, the ISO time and the default image |
| ProductsApi.EmptyImageIsKept | app/api/products/route.ts:34-35 | a body with `"image": ""` is created with the empty image: the fallback is overridden by the spread |
| ProductsApi.NewProductWithImage | app/api/products/route.ts:34 | same keys and same values as the literal except `image`, which is always truthy and is the body's image when that is truthy |
| ProductsApi.PostIntended | app/api/products/route.ts:18-47 | same status as `Post` and the same response unless created; a created record always has a truthy image |

## Left out

- JSX, styling, animations and timers are not modelled. That includes the
  500 ms delay in the add-to-cart handler and the search page's loading flag.
  The handler's effect on the cart is modelled; the time it takes is not.
- The browser's storage and JSON text are not modelled. A saved snapshot is an
  `Option`, where `None` stands for a missing, empty or unparseable entry. A
  parsed snapshot of the wrong shape is not modelled, since the typed
  sequences rule it out.
- Prices and numbers are integers. Floating-point prices and JSON
  fractions are not modelled.
- `toLowerCase` is modelled on ASCII letters only. Unicode case mapping is
  not modelled.
- SearchPage.SortProducts: `localeCompare` and `new Date(...).getTime()` are
  the caller-supplied key functions `nameRank` and `timeOf`. Stability of
  the sort is proved only for the unrecognised key, whose comparator
  returns 0 everywhere. For other keys the contract states sortedness and
  permutation, not stability.
- CategoriesPage.GroupByCategory: `Object.entries` lists keys that look like
  array indices first, in numeric order. The model assumes no category name
  looks like an array index.
- CategoriesPage.GroupByCategory: the model also assumes that no category
  name is the name of an `Object.prototype` member ("constructor",
  "toString", "valueOf", "hasOwnProperty", "__proto__", and so on). For such
  a name, the page's plain `{}` accumulator already holds a truthy inherited
  value, so no array is created and `.push` throws, or, for "__proto__",
  writes into the prototype. The model groups such a name like any other.
- Dashboard.GetDashboardData: the `lastUpdated` time stamp of the statistics
  is a clock reading and is not modelled.
- The GET handler of the products endpoint only returns the bundled
  catalog file, which is not part of this model. Its catch branch cannot be
  reached.
- The key order of the created record's JSON, and the floating-point
  `Date` arithmetic behind `toISOString`, are not modelled. `isoNow` is a
  parameter.
- The default `quantity = 1` of `addToCart` is not modelled:
  `CartStore.Cart.AddToCart` always takes the quantity explicitly.
- The plain setters of the pages (search text, price range, sort select,
  grid search term and category) are not modelled: they assign a value and
  state nothing. The search page's category list is modelled by
  `Catalog.Categories`.

## Findings

| source | as written | input that shows it | evidently intended | confidence | as-written member | corrected member |
|---|---|---|---|---|---|---|
| app/api/products/route.ts:34-35 | `image: body.image \|\| '/images/watch1.jpg'` comes before `...body`, so any `image` key in the body, falsy or not, overrides the fallback | a POST body `{"name": "Watch", "image": ""}` with the right key gives a record with image `""` | a falsy image falls back to `/images/watch1.jpg` | medium, not executed | ProductsApi.EmptyImageIsKept | ProductsApi.PostIntended |
