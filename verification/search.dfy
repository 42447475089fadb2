/** The search page: a three-part filter over the catalog, a sort of the
    filtered array in place, and the category checkboxes. */
module SearchPage {
  import opened Wrappers
  import opened Seqs
  import opened Text
  import opened Catalog

  /** The `sortBy` values the comparator distinguishes; any other value
      falls into `Unrecognised`, whose comparator always answers 0. */
  datatype SortKey = PriceLow | PriceHigh | ByName | Newest | Unrecognised

  function ParseSortBy(sortBy: string): SortKey {
    if sortBy == "price-low" then PriceLow
    else if sortBy == "price-high" then PriceHigh
    else if sortBy == "name" then ByName
    else if sortBy == "newest" then Newest
    else Unrecognised
  }

  /** The filter state of the page. */
  datatype Filters = Filters(query: string, minPrice: int, maxPrice: int, categories: seq<string>)

  /** `matchesSearch`: an empty query matches everything; otherwise the
      lower-cased name or description includes the lower-cased query. */
  predicate MatchesSearch(p: Product, query: string) {
    || query == ""
    || Contains(Lower(p.name), Lower(query))
    || Contains(Lower(p.description), Lower(query))
  }

  /** `matchesPrice`: both bounds inclusive. */
  predicate MatchesPrice(p: Product, minPrice: int, maxPrice: int) {
    minPrice <= p.price <= maxPrice
  }

  /** `matchesCategory`: no ticked category matches everything. */
  predicate MatchesCategory(p: Product, categories: seq<string>) {
    |categories| == 0 || p.category in categories
  }

  predicate Matches(p: Product, f: Filters) {
    MatchesSearch(p, f.query) && MatchesPrice(p, f.minPrice, f.maxPrice) && MatchesCategory(p, f.categories)
  }

  function MatchesFilters(f: Filters): Product -> bool {
    p => Matches(p, f)
  }

  /** `products.filter(...)`: the products satisfying all three tests, in catalog order. */
  function FilterProducts(ps: seq<Product>, f: Filters): (r: seq<Product>)
    ensures forall p :: p in r <==>
      (p in ps && MatchesSearch(p, f.query) && MatchesPrice(p, f.minPrice, f.maxPrice) && MatchesCategory(p, f.categories))
  {
    Filter(ps, MatchesFilters(f))
  }

  /** The filter keeps every copy of a matching product, and none of the others. */
  lemma FilterCounts(ps: seq<Product>, f: Filters, p: Product)
    ensures Count(FilterProducts(ps, f), p) == if Matches(p, f) then Count(ps, p) else 0
  {
    FilterMultiplicity(ps, MatchesFilters(f), p);
  }

  /** The comparator of `filtered.sort` as a sort key: `compare(a, b)` has
      the sign of `Key(a) - Key(b)`. Locale collation of names and date
      parsing are supplied by the caller as `nameRank` and `timeOf`. */
  function Key(p: Product, order: SortKey, nameRank: string -> int, timeOf: string -> int): int {
    match order
    case PriceLow => p.price
    case PriceHigh => -p.price
    case ByName => nameRank(p.name)
    case Newest => -timeOf(p.lastUpdated)
    case Unrecognised => 0
  }

  ghost predicate SortedBy(s: seq<Product>, order: SortKey, nameRank: string -> int, timeOf: string -> int) {
    forall i, j :: 0 <= i < j < |s| ==> Key(s[i], order, nameRank, timeOf) <= Key(s[j], order, nameRank, timeOf)
  }

  method Swap(a: array<Product>, i: int, j: int)
    requires 0 <= i < a.Length && 0 <= j < a.Length
    modifies a
    ensures a[..] == old(a[..])[i := old(a[j])][j := old(a[i])]
    ensures multiset(a[..]) == multiset(old(a[..]))
  {
    a[i], a[j] := a[j], a[i];
  }

  /** The inner loop's state while the element that started at `i` moves
      left: it now sits at `j`, has a smaller key than everything after it
      up to `i`, and all the other elements up to `i` are in order. */
  ghost predicate Inserting(s: seq<Product>, i: int, j: int, order: SortKey, nameRank: string -> int, timeOf: string -> int)
    requires 0 <= j <= i < |s|
  {
    && (forall k, l :: 0 <= k < l <= i && k != j && l != j ==>
          Key(s[k], order, nameRank, timeOf) <= Key(s[l], order, nameRank, timeOf))
    && (forall l :: j < l <= i ==> Key(s[j], order, nameRank, timeOf) < Key(s[l], order, nameRank, timeOf))
  }

  lemma StartInserting(s: seq<Product>, i: int, order: SortKey, nameRank: string -> int, timeOf: string -> int)
    requires 0 <= i < |s| && SortedBy(s[..i], order, nameRank, timeOf)
    ensures Inserting(s, i, i, order, nameRank, timeOf)
  {
    forall k, l | 0 <= k < l <= i && k != i && l != i
      ensures Key(s[k], order, nameRank, timeOf) <= Key(s[l], order, nameRank, timeOf)
    {
      assert s[k] == s[..i][k] && s[l] == s[..i][l];
    }
  }

  /** Swapping the element at `j` with a left neighbour of greater key moves it one step left. */
  lemma StepInserting(s: seq<Product>, i: int, j: int, order: SortKey, nameRank: string -> int, timeOf: string -> int)
    requires 0 < j <= i < |s| && Inserting(s, i, j, order, nameRank, timeOf)
    requires Key(s[j - 1], order, nameRank, timeOf) > Key(s[j], order, nameRank, timeOf)
    ensures Inserting(s[j - 1 := s[j]][j := s[j - 1]], i, j - 1, order, nameRank, timeOf)
  {
  }

  /** Once the element stops moving, the first `i + 1` elements are sorted. */
  lemma FinishInserting(s: seq<Product>, i: int, j: int, order: SortKey, nameRank: string -> int, timeOf: string -> int)
    requires 0 <= j <= i < |s| && Inserting(s, i, j, order, nameRank, timeOf)
    requires j == 0 || Key(s[j - 1], order, nameRank, timeOf) <= Key(s[j], order, nameRank, timeOf)
    ensures SortedBy(s[..i + 1], order, nameRank, timeOf)
  {
  }

  /** One pass of the insertion sort: the element at `i` moves left past
      strictly greater keys only, so that equal keys keep their order. */
  method InsertOne(a: array<Product>, i: int, order: SortKey, nameRank: string -> int, timeOf: string -> int)
    requires 0 <= i < a.Length && SortedBy(a[..i], order, nameRank, timeOf)
    modifies a
    ensures SortedBy(a[..i + 1], order, nameRank, timeOf)
    ensures multiset(a[..]) == multiset(old(a[..]))
    ensures order.Unrecognised? ==> a[..] == old(a[..])
  {
    StartInserting(a[..], i, order, nameRank, timeOf);
    var j := i;
    while j > 0 && Key(a[j - 1], order, nameRank, timeOf) > Key(a[j], order, nameRank, timeOf)
      invariant 0 <= j <= i
      invariant Inserting(a[..], i, j, order, nameRank, timeOf)
      invariant multiset(a[..]) == multiset(old(a[..]))
      invariant order.Unrecognised? ==> a[..] == old(a[..])
    {
      StepInserting(a[..], i, j, order, nameRank, timeOf);
      Swap(a, j - 1, j);
      j := j - 1;
    }
    FinishInserting(a[..], i, j, order, nameRank, timeOf);
  }

  /** `filtered.sort(compare)`, as an insertion sort in place. */
  method SortProducts(a: array<Product>, order: SortKey, nameRank: string -> int, timeOf: string -> int)
    modifies a
    ensures SortedBy(a[..], order, nameRank, timeOf)
    ensures multiset(a[..]) == multiset(old(a[..]))
    ensures order.Unrecognised? ==> a[..] == old(a[..])
  {
    var i := 0;
    while i < a.Length
      invariant 0 <= i <= a.Length
      invariant SortedBy(a[..i], order, nameRank, timeOf)
      invariant multiset(a[..]) == multiset(old(a[..]))
      invariant order.Unrecognised? ==> a[..] == old(a[..])
    {
      InsertOne(a, i, order, nameRank, timeOf);
      i := i + 1;
    }
    assert a[..a.Length] == a[..];
  }

  /** `filteredAndSortedProducts`: the filtered products, reordered by the
      chosen comparator. */
  method FilterAndSort(ps: seq<Product>, f: Filters, sortBy: string, nameRank: string -> int, timeOf: string -> int)
    returns (r: seq<Product>)
    ensures multiset(r) == multiset(FilterProducts(ps, f))
    ensures forall p :: p in r <==> p in ps && Matches(p, f)
    ensures SortedBy(r, ParseSortBy(sortBy), nameRank, timeOf)
    ensures sortBy == "price-low" ==> forall i, j :: 0 <= i < j < |r| ==> r[i].price <= r[j].price
    ensures sortBy == "price-high" ==> forall i, j :: 0 <= i < j < |r| ==> r[i].price >= r[j].price
    ensures ParseSortBy(sortBy).Unrecognised? ==> r == FilterProducts(ps, f)
  {
    var filtered := FilterProducts(ps, f);
    var a := new Product[|filtered|](i requires 0 <= i < |filtered| => filtered[i]);
    assert a[..] == filtered;
    SortProducts(a, ParseSortBy(sortBy), nameRank, timeOf);
    r := a[..];
    assert forall p :: p in r <==> p in filtered by {
      forall p ensures p in r <==> p in filtered {
        assert p in r <==> p in multiset(r);
      }
    }
  }

  /** With an empty query and no ticked category only the price range
      filters; when every price is in range, nothing is filtered out. */
  lemma DefaultFiltersKeepAll(ps: seq<Product>, f: Filters)
    requires f.query == "" && f.categories == []
    requires forall p :: p in ps ==> f.minPrice <= p.price <= f.maxPrice
    ensures FilterProducts(ps, f) == ps
  {
    FilterKeepsAll(ps, MatchesFilters(f));
  }

  lemma FilterKeepsCatalogOrder(ps: seq<Product>, f: Filters)
    ensures IsSubsequence(FilterProducts(ps, f), ps)
  {
    FilterIsSubsequence(ps, MatchesFilters(f));
  }

  /** `handleCategoryToggle`: a ticked category is removed, any other appended. */
  function ToggleCategory(cats: seq<string>, c: string): (r: seq<string>)
    ensures c in cats ==> forall x :: x in r <==> x in cats && x != c
    ensures c !in cats ==> r == cats + [c]
  {
    if c in cats then Filter(cats, x => x != c) else cats + [c]
  }

  /** Toggling the same category twice restores the set of ticked categories,
      and the exact list when the category was not ticked before. */
  lemma ToggleTwice(cats: seq<string>, c: string)
    ensures forall x :: x in ToggleCategory(ToggleCategory(cats, c), c) <==> x in cats
    ensures c !in cats ==> ToggleCategory(ToggleCategory(cats, c), c) == cats
  {
    if c !in cats {
      FilterAppend(cats, [c], x => x != c);
      FilterKeepsAll(cats, x => x != c);
    }
  }

  /** Toggling never ticks a category twice. */
  lemma ToggleKeepsDistinct(cats: seq<string>, c: string)
    requires Distinct(cats)
    ensures Distinct(ToggleCategory(cats, c))
  {
    if c in cats {
      var idx := FilterIndices(cats, x => x != c);
    }
  }

  /** The page's filter state, one field per `useState`. */
  class Search {
    var searchQuery: string
    var minPrice: int
    var maxPrice: int
    var selectedCategories: seq<string>
    var sortBy: string

    /** `searchParams.get('q') || ''`, the price range [0, 10000], no ticked
        category, sorted by name. */
    constructor (q: Option<string>)
      ensures searchQuery == (if q.Some? then q.value else "")
      ensures minPrice == 0 && maxPrice == 10000 && selectedCategories == [] && sortBy == "name"
    {
      searchQuery := if q.Some? then q.value else "";
      minPrice, maxPrice := 0, 10000;
      selectedCategories := [];
      sortBy := "name";
    }

    method HandleCategoryToggle(c: string)
      modifies this
      ensures selectedCategories == ToggleCategory(old(selectedCategories), c)
      ensures searchQuery == old(searchQuery) && minPrice == old(minPrice) && maxPrice == old(maxPrice)
      ensures sortBy == old(sortBy)
    {
      selectedCategories := ToggleCategory(selectedCategories, c);
    }

    /** The sidebar's "Clear All Filters" button. */
    method ClearFilters()
      modifies this
      ensures searchQuery == "" && minPrice == 0 && maxPrice == 10000
      ensures selectedCategories == [] && sortBy == "name"
    {
      searchQuery := "";
      minPrice, maxPrice := 0, 10000;
      selectedCategories := [];
      sortBy := "name";
    }

    /** The products shown for the current state. */
    method Results(ps: seq<Product>, nameRank: string -> int, timeOf: string -> int) returns (r: seq<Product>)
      ensures forall p :: p in r <==> p in ps && Matches(p, Filters(searchQuery, minPrice, maxPrice, selectedCategories))
      ensures multiset(r) == multiset(FilterProducts(ps, Filters(searchQuery, minPrice, maxPrice, selectedCategories)))
      ensures SortedBy(r, ParseSortBy(sortBy), nameRank, timeOf)
      ensures ParseSortBy(sortBy).Unrecognised? ==> r == FilterProducts(ps, Filters(searchQuery, minPrice, maxPrice, selectedCategories))
    {
      r := FilterAndSort(ps, Filters(searchQuery, minPrice, maxPrice, selectedCategories), sortBy, nameRank, timeOf);
    }
  }
}
