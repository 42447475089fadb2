/** The comparison page: a selection of at most four products without
    repeated identifiers, persisted as the list of their identifiers and
    rebuilt from the catalog when the page mounts. */
module ComparePage {
  import opened Wrappers
  import opened Seqs
  import opened Catalog

  /** The page compares at most this many products. */
  const MaxCompared: nat := 4

  /** The selection invariant add, remove and clear maintain. */
  ghost predicate ValidSelection(sel: seq<Product>) {
    |sel| <= MaxCompared && UniqueIds(sel)
  }

  /** `addProduct`: appends `p` only while there is room and its identifier
      is not selected yet; otherwise the selection is unchanged. */
  function AddToSelection(sel: seq<Product>, p: Product): (r: seq<Product>)
    ensures |sel| < MaxCompared && !HasId(sel, p.id) ==> r == sel + [p]
    ensures !(|sel| < MaxCompared && !HasId(sel, p.id)) ==> r == sel
  {
    if |sel| < MaxCompared && !HasId(sel, p.id) then sel + [p] else sel
  }

  /** `removeProduct`: `selectedProducts.filter(p => p.id !== productId)`. */
  function RemoveFromSelection(sel: seq<Product>, id: string): (r: seq<Product>)
    ensures forall p :: p in r <==> p in sel && p.id != id
    ensures !HasId(r, id)
    ensures |r| <= |sel|
  {
    var r := Filter(sel, (p: Product) => p.id != id);
    assert forall i :: 0 <= i < |r| ==> r[i] in r;
    r
  }

  /** The user actions that change the selection. */
  datatype CompareAction = Add(product: Product) | Remove(productId: string) | ClearAll

  function Apply(sel: seq<Product>, a: CompareAction): seq<Product> {
    match a
    case Add(p) => AddToSelection(sel, p)
    case Remove(id) => RemoveFromSelection(sel, id)
    case ClearAll => []
  }

  /** The selection after a series of actions, applied in order. */
  function Run(sel: seq<Product>, actions: seq<CompareAction>): seq<Product>
    decreases |actions|
  {
    if actions == [] then sel else Run(Apply(sel, actions[0]), actions[1..])
  }

  lemma AddKeepsValid(sel: seq<Product>, p: Product)
    requires ValidSelection(sel)
    ensures ValidSelection(AddToSelection(sel, p))
  {
    if |sel| < MaxCompared && !HasId(sel, p.id) {
      var r := sel + [p];
      assert forall i :: 0 <= i < |sel| ==> IdOf(r[i]) == IdOf(sel[i]) != p.id;
    }
  }

  lemma RemoveKeepsValid(sel: seq<Product>, id: string)
    requires ValidSelection(sel)
    ensures ValidSelection(RemoveFromSelection(sel, id))
  {
    FilterKeepsKeysDistinct(sel, (p: Product) => p.id != id, IdOf);
  }

  /** From a valid selection, any series of add, remove and clear leaves at
      most four products with distinct identifiers. */
  lemma {:induction false} RunKeepsValid(sel: seq<Product>, actions: seq<CompareAction>)
    requires ValidSelection(sel)
    ensures ValidSelection(Run(sel, actions))
    decreases |actions|
  {
    if actions != [] {
      match actions[0] {
        case Add(p) => AddKeepsValid(sel, p);
        case Remove(id) => RemoveKeepsValid(sel, id);
        case ClearAll =>
      }
      RunKeepsValid(Apply(sel, actions[0]), actions[1..]);
    }
  }

  /** Remove keeps the other products in their order. */
  lemma RemoveKeepsOrder(sel: seq<Product>, id: string)
    ensures IsSubsequence(RemoveFromSelection(sel, id), sel)
  {
    FilterIsSubsequence(sel, (p: Product) => p.id != id);
  }

  /** The save effect: `selectedProducts.map(p => p.id)`. */
  function SavedIds(sel: seq<Product>): (ids: seq<string>)
    ensures |ids| == |sel|
    ensures forall id :: id in ids <==> id in IdSet(sel)
  {
    var ids := Map(sel, IdOf);
    assert forall id :: id in ids <==> id in IdSet(sel) by {
      forall id | id in IdSet(sel) ensures id in ids {
        var p :| p in sel && p.id == id;
        var i :| 0 <= i < |sel| && sel[i] == p;
        assert ids[i] == id;
      }
    }
    ids
  }

  /** The load effect: `productsData.filter(p => productIds.includes(p.id))`,
      in catalog order and not capped at four. */
  function Hydrate(catalog: seq<Product>, ids: seq<string>): (r: seq<Product>)
    ensures forall p :: p in r <==> p in catalog && p.id in ids
  {
    Filter(catalog, (p: Product) => p.id in ids)
  }

  /** Restoring keeps every copy of a saved catalog product, and no other product. */
  lemma HydrateCounts(catalog: seq<Product>, ids: seq<string>, p: Product)
    ensures Count(Hydrate(catalog, ids), p) == if p.id in ids then Count(catalog, p) else 0
  {
    FilterMultiplicity(catalog, (p: Product) => p.id in ids, p);
  }

  lemma HydrateKeepsCatalogOrder(catalog: seq<Product>, ids: seq<string>)
    ensures IsSubsequence(Hydrate(catalog, ids), catalog)
  {
    FilterIsSubsequence(catalog, (p: Product) => p.id in ids);
  }

  /** Loading is not capped: when every catalog product was saved, the whole catalog is selected. */
  lemma {:induction false} HydrateIsNotCapped(catalog: seq<Product>, ids: seq<string>)
    requires forall p :: p in catalog ==> p.id in ids
    ensures Hydrate(catalog, ids) == catalog
  {
    FilterKeepsAll(catalog, (p: Product) => p.id in ids);
  }

  /** With a catalog whose identifiers are unique, loading the identifiers
      of a valid selection yields a valid selection again. */
  lemma HydrateSavedIsValid(catalog: seq<Product>, sel: seq<Product>)
    requires UniqueIds(catalog) && ValidSelection(sel)
    ensures ValidSelection(Hydrate(catalog, SavedIds(sel)))
  {
    var ids := SavedIds(sel);
    var r := Hydrate(catalog, ids);
    FilterKeepsKeysDistinct(catalog, (p: Product) => p.id in ids, IdOf);
    var rIds := Map(r, IdOf);
    assert Distinct(rIds) by {
      forall i, j | 0 <= i < j < |rIds| ensures rIds[i] != rIds[j] {
        assert IdOf(r[i]) != IdOf(r[j]);
      }
    }
    assert forall x :: x in rIds ==> x in ids by {
      forall x | x in rIds ensures x in ids {
        var i :| 0 <= i < |rIds| && rIds[i] == x;
        assert r[i] in r;
      }
    }
    DistinctNoLonger(rIds, ids);
  }

  /** Saving a selection and loading it again restores the same identifiers,
      provided every selected identifier is still in the catalog. */
  lemma SaveThenHydrate(catalog: seq<Product>, sel: seq<Product>)
    requires forall p :: p in sel ==> HasId(catalog, p.id)
    ensures IdSet(Hydrate(catalog, SavedIds(sel))) == IdSet(sel)
  {
    var r := Hydrate(catalog, SavedIds(sel));
    forall id | id in IdSet(sel) ensures id in IdSet(r) {
      var p :| p in sel && p.id == id;
      var i :| 0 <= i < |catalog| && catalog[i].id == id;
      assert catalog[i] in r;
    }
  }

  /** The "add more" list: `availableProducts.filter(p => !selected.find(sp => sp.id === p.id)).slice(0, 4)`. */
  function Candidates(available: seq<Product>, sel: seq<Product>): (r: seq<Product>)
    ensures |r| <= MaxCompared
    ensures forall p :: p in r ==> p in available && !HasId(sel, p.id)
    ensures var unselected := Filter(available, (p: Product) => !HasId(sel, p.id));
      r == unselected[..if |unselected| < MaxCompared then |unselected| else MaxCompared]
  {
    var unselected := Filter(available, (p: Product) => !HasId(sel, p.id));
    var r := unselected[..if |unselected| < MaxCompared then |unselected| else MaxCompared];
    assert forall p :: p in r ==> p in unselected;
    r
  }

  /** The page state: the current selection, the fixed catalog it offers,
      and the identifier list the save effect last wrote under 'swalay-compare'. */
  class Compare {
    var selected: seq<Product>
    const available: seq<Product>
    var persisted: seq<string>

    constructor (catalog: seq<Product>)
      ensures selected == [] && available == catalog && persisted == []
    {
      selected := [];
      available := catalog;
      persisted := [];
    }

    /** The mount effect: a parseable saved identifier list selects the
        catalog products it names; a missing or malformed one (`None`)
        changes nothing. */
    method Load(saved: Option<seq<string>>)
      modifies this
      ensures saved.Some? ==> selected == Hydrate(available, saved.value)
      ensures saved.None? ==> selected == old(selected)
      ensures persisted == SavedIds(selected)
    {
      if saved.Some? {
        selected := Hydrate(available, saved.value);
      }
      persisted := SavedIds(selected);
    }

    method AddProduct(p: Product)
      modifies this
      ensures selected == AddToSelection(old(selected), p)
      ensures persisted == SavedIds(selected)
      ensures ValidSelection(old(selected)) ==> ValidSelection(selected)
    {
      if ValidSelection(selected) {
        AddKeepsValid(selected, p);
      }
      selected := AddToSelection(selected, p);
      persisted := SavedIds(selected);
    }

    method RemoveProduct(id: string)
      modifies this
      ensures selected == RemoveFromSelection(old(selected), id)
      ensures persisted == SavedIds(selected)
      ensures ValidSelection(old(selected)) ==> ValidSelection(selected)
    {
      if ValidSelection(selected) {
        RemoveKeepsValid(selected, id);
      }
      selected := RemoveFromSelection(selected, id);
      persisted := SavedIds(selected);
    }

    method ClearAll()
      modifies this
      ensures selected == [] && persisted == []
    {
      selected := [];
      persisted := SavedIds(selected);
    }

    method MoreCandidates() returns (r: seq<Product>)
      ensures r == Candidates(available, selected)
    {
      r := Candidates(available, selected);
    }
  }
}
