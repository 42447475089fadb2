/** The product grid's client-side filter: a search term and a single
    category drop-down. */
module ProductGrid {
  import opened Seqs
  import opened Text
  import opened Catalog

  /** The grid keeps `p` when its lower-cased name or description includes
      the lower-cased term and the chosen category is empty or equal to its own. */
  predicate GridMatches(p: Product, searchTerm: string, selectedCategory: string) {
    && (Contains(Lower(p.name), Lower(searchTerm)) || Contains(Lower(p.description), Lower(searchTerm)))
    && (selectedCategory == "" || p.category == selectedCategory)
  }

  function GridFilter(searchTerm: string, selectedCategory: string): Product -> bool {
    p => GridMatches(p, searchTerm, selectedCategory)
  }

  /** `filteredProducts`. */
  function FilteredProducts(ps: seq<Product>, searchTerm: string, selectedCategory: string): (r: seq<Product>)
    ensures forall p :: p in r <==> p in ps && GridMatches(p, searchTerm, selectedCategory)
    ensures |r| <= |ps|
  {
    Filter(ps, GridFilter(searchTerm, selectedCategory))
  }

  /** The result keeps the products in the order they were given. */
  /** The grid keeps every copy of a matching product, and none of the others. */
  lemma FilteredCounts(ps: seq<Product>, searchTerm: string, selectedCategory: string, p: Product)
    ensures Count(FilteredProducts(ps, searchTerm, selectedCategory), p) ==
      if GridMatches(p, searchTerm, selectedCategory) then Count(ps, p) else 0
  {
    FilterMultiplicity(ps, GridFilter(searchTerm, selectedCategory), p);
  }

  lemma FilteredKeepsOrder(ps: seq<Product>, searchTerm: string, selectedCategory: string)
    ensures IsSubsequence(FilteredProducts(ps, searchTerm, selectedCategory), ps)
  {
    FilterIsSubsequence(ps, GridFilter(searchTerm, selectedCategory));
  }

  /** The initial state (empty term, no category) shows every product: an
      empty term is included in every text. */
  lemma EmptyFiltersKeepAll(ps: seq<Product>)
    ensures FilteredProducts(ps, "", "") == ps
  {
    forall p | p in ps ensures GridMatches(p, "", "") {
      ContainsEmpty(Lower(p.name));
    }
    FilterKeepsAll(ps, GridFilter("", ""));
  }
}
