/** The product records of the catalog fixture, shared by every page and store. */
module Catalog {
  import opened Wrappers
  import opened Seqs

  /** A catalog record. Prices are whole cents; `lastUpdated` is an ISO-8601 text. */
  datatype Product = Product(
    id: string,
    name: string,
    slug: string,
    description: string,
    price: int,
    originalPrice: Option<int>,
    category: string,
    inventory: int,
    image: string,
    lastUpdated: string)

  function CategoryOf(p: Product): string { p.category }

  function IdOf(p: Product): string { p.id }

  /** Some product of `ps` carries identifier `id`. */
  predicate HasId(ps: seq<Product>, id: string) {
    exists i :: 0 <= i < |ps| && ps[i].id == id
  }

  /** The products keep pairwise distinct identifiers. */
  ghost predicate UniqueIds(ps: seq<Product>) {
    DistinctKeys(ps, IdOf)
  }

  /** The identifiers of `ps`, as a set. */
  ghost function IdSet(ps: seq<Product>): set<string> {
    set p | p in ps :: p.id
  }

  /** `Array.from(new Set(products.map(p => p.category)))`. */
  function Categories(ps: seq<Product>): (cs: seq<string>)
    ensures Distinct(cs)
    ensures forall c :: c in cs <==> exists p :: p in ps && p.category == c
  {
    var all := Map(ps, CategoryOf);
    assert forall c :: c in all <==> exists p :: p in ps && p.category == c by {
      forall c | c in all ensures exists p :: p in ps && p.category == c {
        var i :| 0 <= i < |all| && all[i] == c;
        assert ps[i] in ps;
      }
      forall c | exists p :: p in ps && p.category == c ensures c in all {
        var p :| p in ps && p.category == c;
        var i :| 0 <= i < |ps| && ps[i] == p;
        assert all[i] == c;
      }
    }
    Dedup(all)
  }

  /** The categories are listed in the order of their first appearance in the catalog. */
  lemma CategoriesInFirstOccurrenceOrder(ps: seq<Product>)
    ensures var all := Map(ps, CategoryOf);
      forall i, j :: 0 <= i < j < |Categories(ps)| ==>
        FirstIndex(all, Categories(ps)[i]) < FirstIndex(all, Categories(ps)[j])
  {
    DedupFirstOccurrenceOrder(Map(ps, CategoryOf));
  }
}
