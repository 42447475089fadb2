/** The categories page: the catalog grouped by category in an accumulator
    object that a loop fills in place, and the lowest price of each group. */
module CategoriesPage {
  import opened Seqs
  import opened Catalog

  function InCategory(c: string): Product -> bool {
    (p: Product) => p.category == c
  }

  /** The categories of `prefix` in the order a left-to-right pass first meets them. */
  ghost function FirstSeen(prefix: seq<Product>): seq<string> {
    if prefix == [] then []
    else
      var seen := FirstSeen(prefix[..|prefix| - 1]);
      var c := prefix[|prefix| - 1].category;
      if c in seen then seen else seen + [c]
  }

  /** The categories of `acc`, and the order in which they were added. */
  ghost predicate KeysTracked(prefix: seq<Product>, keys: seq<string>, groups: map<string, seq<Product>>) {
    && keys == FirstSeen(prefix)
    && (forall c :: c in groups <==> c in keys)
  }

  /** The contents of `acc` after the products of `prefix` have been pushed. */
  ghost predicate GroupsFiltered(prefix: seq<Product>, groups: map<string, seq<Product>>) {
    forall c :: c in groups ==> groups[c] == Filter(prefix, InCategory(c)) && groups[c] != []
  }

  /** `products.reduce(...)` into `acc`: `keys` is the order in which
      `Object.entries` lists the categories (their insertion order), and
      `groups[c]` the products of category `c` in catalog order. */
  method GroupByCategory(ps: seq<Product>) returns (keys: seq<string>, groups: map<string, seq<Product>>)
    ensures keys == Categories(ps)
    ensures forall c :: c in groups <==> c in keys
    ensures forall c :: c in groups ==> groups[c] == Filter(ps, InCategory(c))
    ensures forall c :: c in groups ==> groups[c] != []
    ensures forall p :: p in ps ==> p.category in groups && p in groups[p.category]
    ensures GroupTotal(keys, groups) == |ps|
  {
    keys := [];
    groups := map[];
    var i := 0;
    while i < |ps|
      invariant 0 <= i <= |ps|
      invariant KeysTracked(ps[..i], keys, groups)
      invariant GroupsFiltered(ps[..i], groups)
    {
      var p := ps[i];
      ghost var (keys0, groups0) := (keys, groups);
      if p.category !in groups {
        groups := groups[p.category := []];
        keys := keys + [p.category];
      }
      groups := groups[p.category := groups[p.category] + [p]];
      assert KeysTracked(ps[..i] + [p], keys, groups) by {
        KeysStep(ps[..i], p, keys0, groups0, keys, groups);
      }
      assert GroupsFiltered(ps[..i] + [p], groups) by {
        FirstSeenComplete(ps[..i]);
        GroupsStep(ps[..i], p, groups0, groups);
      }
      assert ps[..i + 1] == ps[..i] + [p];
      i := i + 1;
    }
    assert ps[..i] == ps;
    assert keys == Categories(ps) by {
      FirstSeenIsCategories(ps);
    }
    forall q | q in ps ensures q.category in groups && q in groups[q.category] {
      FirstSeenComplete(ps);
      assert InCategory(q.category)(q);
    }
    assert GroupTotal(keys, groups) == |ps| by {
      GroupTotalIsSizeSum(keys, groups, ps);
      GroupSizesAddUp(ps);
    }
  }

  /** The number of products in the groups listed by `keys`. */
  function GroupTotal(keys: seq<string>, groups: map<string, seq<Product>>): nat {
    if keys == [] then 0
    else (if keys[0] in groups then |groups[keys[0]]| else 0) + GroupTotal(keys[1..], groups)
  }

  /** The number of products of `ps` in the categories `cs`, counted category by category. */
  function SizeSum(cs: seq<string>, ps: seq<Product>): nat {
    if cs == [] then 0 else |Filter(ps, InCategory(cs[0]))| + SizeSum(cs[1..], ps)
  }

  function InCategories(cs: seq<string>): Product -> bool {
    (p: Product) => p.category in cs
  }

  /** The groups hold every product exactly once: their sizes add up to the catalog length. */
  lemma GroupSizesAddUp(ps: seq<Product>)
    ensures SizeSum(Categories(ps), ps) == |ps|
  {
    var cs := Categories(ps);
    SizeSumCovers(cs, ps);
    forall p | p in ps ensures InCategories(cs)(p) {
      assert p.category in cs;
    }
    FilterKeepsAll(ps, InCategories(cs));
  }

  /** Counted category by category, distinct categories count each of their products once. */
  lemma {:induction false} SizeSumCovers(cs: seq<string>, ps: seq<Product>)
    requires Distinct(cs)
    ensures SizeSum(cs, ps) == |Filter(ps, InCategories(cs))|
  {
    if ps == [] {
      SizeSumEmpty(cs);
    } else {
      SizeSumCovers(cs, ps[1..]);
      assert ps == [ps[0]] + ps[1..];
      SizeSumCons(cs, ps[0], ps[1..]);
      FilterCons(ps, InCategories(cs));
    }
  }

  lemma {:induction false} SizeSumEmpty(cs: seq<string>)
    ensures SizeSum(cs, []) == 0
  {
    if cs != [] {
      SizeSumEmpty(cs[1..]);
    }
  }

  /** One more product adds one to the count of its category, if listed. */
  lemma {:induction false} SizeSumCons(cs: seq<string>, p: Product, rest: seq<Product>)
    requires Distinct(cs)
    ensures SizeSum(cs, [p] + rest) == SizeSum(cs, rest) + (if p.category in cs then 1 else 0)
  {
    if cs != [] {
      assert Distinct(cs[1..]) by {
        assert forall i :: 0 <= i < |cs[1..]| ==> cs[1..][i] == cs[i + 1];
      }
      SizeSumCons(cs[1..], p, rest);
      assert |Filter([p] + rest, InCategory(cs[0]))| ==
          (if p.category == cs[0] then 1 else 0) + |Filter(rest, InCategory(cs[0]))| by {
        assert ([p] + rest)[1..] == rest;
        FilterCons([p] + rest, InCategory(cs[0]));
      }
      if p.category == cs[0] {
        assert p.category !in cs[1..] by {
          assert forall i :: 0 <= i < |cs[1..]| ==> cs[1..][i] == cs[i + 1] != cs[0];
        }
      } else {
        assert p.category in cs <==> p.category in cs[1..] by {
          assert cs == [cs[0]] + cs[1..];
        }
      }
    }
  }

  /** `GroupTotal` over groups that hold the filtered catalog is `SizeSum`. */
  lemma {:induction false} GroupTotalIsSizeSum(keys: seq<string>, groups: map<string, seq<Product>>, ps: seq<Product>)
    requires forall c :: c in keys ==> c in groups && groups[c] == Filter(ps, InCategory(c))
    ensures GroupTotal(keys, groups) == SizeSum(keys, ps)
  {
    if keys != [] {
      assert keys[0] in keys;
      assert forall c :: c in keys[1..] ==> c in keys;
      GroupTotalIsSizeSum(keys[1..], groups, ps);
    }
  }

  /** One iteration of the reduce, for the keys of `acc`. */
  lemma KeysStep(prefix: seq<Product>, p: Product, keys: seq<string>, groups: map<string, seq<Product>>,
                 k1: seq<string>, g1: map<string, seq<Product>>)
    requires KeysTracked(prefix, keys, groups)
    requires k1 == if p.category in groups then keys else keys + [p.category]
    requires p.category in g1
    requires forall x :: x in g1 && x != p.category ==> x in groups
    requires forall x :: x in groups ==> x in g1
    ensures KeysTracked(prefix + [p], k1, g1)
  {
    assert (prefix + [p])[..|prefix|] == prefix;
  }

  /** One iteration of the reduce, for the groups of `acc`. */
  lemma GroupsStep(prefix: seq<Product>, p: Product, groups: map<string, seq<Product>>, g1: map<string, seq<Product>>)
    requires GroupsFiltered(prefix, groups)
    requires p.category !in groups ==> forall q :: q in prefix ==> q.category != p.category
    requires p.category in g1 && g1[p.category] == (if p.category in groups then groups[p.category] else []) + [p]
    requires forall x :: x in g1 && x != p.category ==> x in groups && g1[x] == groups[x]
    requires forall x :: x in groups ==> x in g1
    ensures GroupsFiltered(prefix + [p], g1)
  {
    forall x | x in g1
      ensures g1[x] == Filter(prefix + [p], InCategory(x)) && g1[x] != []
    {
      FilterAppend(prefix, [p], InCategory(x));
      if x == p.category {
        assert Filter([p], InCategory(x)) == [p];
        if p.category !in groups {
          FilterNone(prefix, InCategory(x));
        }
      } else {
        assert Filter([p], InCategory(x)) == [];
      }
    }
  }

  /** Every category of `prefix` is among the ones first seen. */
  lemma {:induction false} FirstSeenComplete(prefix: seq<Product>)
    ensures forall q :: q in prefix ==> q.category in FirstSeen(prefix)
  {
    if prefix != [] {
      var init := prefix[..|prefix| - 1];
      FirstSeenComplete(init);
      assert prefix == init + [prefix[|prefix| - 1]];
      forall q | q in prefix ensures q.category in FirstSeen(prefix) {
        assert q in init || q == prefix[|prefix| - 1];
      }
    }
  }

  lemma {:induction false} FirstSeenIsCategories(ps: seq<Product>)
    ensures FirstSeen(ps) == Categories(ps)
  {
    if ps != [] {
      var prefix := ps[..|ps| - 1];
      FirstSeenIsCategories(prefix);
      assert ps == prefix + [ps[|ps| - 1]];
      NextCategories(prefix, ps[|ps| - 1]);
    }
  }

  lemma NextCategories(prefix: seq<Product>, p: Product)
    ensures Categories(prefix + [p]) ==
      if p.category in Categories(prefix) then Categories(prefix) else Categories(prefix) + [p.category]
  {
    var all := Map(prefix + [p], CategoryOf);
    assert all[..|prefix|] == Map(prefix, CategoryOf);
  }

  /** Each group lists its products in catalog order. */
  lemma GroupKeepsCatalogOrder(ps: seq<Product>, c: string)
    ensures IsSubsequence(Filter(ps, InCategory(c)), ps)
  {
    FilterIsSubsequence(ps, InCategory(c));
  }

  /** "Starting from": `Math.min(...group.map(p => p.price))` of a non-empty group. */
  function MinPrice(group: seq<Product>): (m: int)
    requires group != []
    ensures exists p :: p in group && p.price == m
    ensures forall p :: p in group ==> m <= p.price
  {
    if |group| == 1 then
      assert group[0] in group;
      group[0].price
    else
      var rest := MinPrice(group[1..]);
      assert forall p :: p in group ==> p == group[0] || p in group[1..];
      if group[0].price <= rest then
        assert group[0] in group;
        group[0].price
      else
        rest
  }
}
