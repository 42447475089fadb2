/** The wishlist store: like the cart but without quantities. A repeated add
    is ignored, so an entry keeps the time of its first add. */
module WishlistStore {
  import opened Wrappers
  import opened Seqs
  import opened Catalog

  /** One saved product and the ISO-8601 time at which it was added. */
  datatype WishlistItem = WishlistItem(product: Product, addedAt: string)

  /** The four intents the reducer accepts. `now` is the clock reading the
      source takes inside the reducer with `new Date().toISOString()`. */
  datatype WishlistAction =
    | AddToWishlist(product: Product, now: string)
    | RemoveFromWishlist(productId: string)
    | ClearWishlist
    | LoadWishlist(items: seq<WishlistItem>)

  function EntryId(item: WishlistItem): string { item.product.id }

  /** At most one entry per product identifier. */
  ghost predicate DistinctIds(s: seq<WishlistItem>) {
    DistinctKeys(s, EntryId)
  }

  /** `items.some(item => item.product.id === id)`. */
  function HasEntry(s: seq<WishlistItem>, id: string): (b: bool)
    ensures b <==> exists i :: 0 <= i < |s| && s[i].product.id == id
  {
    if s == [] then false
    else
      assert forall i :: 1 <= i < |s| ==> s[i] == s[1..][i - 1];
      s[0].product.id == id || HasEntry(s[1..], id)
  }

  /** ADD_TO_WISHLIST: appends a new entry stamped `now`, unless the product
      is already present, in which case the state is returned as it was. */
  function AddEntry(s: seq<WishlistItem>, p: Product, now: string): (r: seq<WishlistItem>)
    ensures HasEntry(s, p.id) ==> r == s
    ensures !HasEntry(s, p.id) ==> r == s + [WishlistItem(p, now)]
    ensures HasEntry(r, p.id)
  {
    if HasEntry(s, p.id) then s
    else
      var r := s + [WishlistItem(p, now)];
      assert r[|s|].product.id == p.id;
      r
  }

  /** REMOVE_FROM_WISHLIST: `state.filter(item => item.product.id !== id)`. */
  function RemoveEntry(s: seq<WishlistItem>, id: string): (r: seq<WishlistItem>)
    ensures forall x :: x in r <==> x in s && x.product.id != id
    ensures !HasEntry(r, id)
    ensures |r| <= |s|
  {
    var r := Filter(s, (x: WishlistItem) => x.product.id != id);
    assert forall i :: 0 <= i < |r| ==> r[i] in r;
    r
  }

  /** `wishlistReducer`. Every transition except LOAD_WISHLIST keeps
      identifiers distinct. */
  function WishlistReducer(s: seq<WishlistItem>, a: WishlistAction): (r: seq<WishlistItem>)
    ensures !a.LoadWishlist? && DistinctIds(s) ==> DistinctIds(r)
  {
    match a
    case AddToWishlist(p, now) =>
      AddKeepsIdsDistinct(s, p, now);
      AddEntry(s, p, now)
    case RemoveFromWishlist(id) =>
      RemoveKeepsIdsDistinct(s, id);
      RemoveEntry(s, id)
    case ClearWishlist => []
    case LoadWishlist(items) => items
  }

  /** `getTotalItems`: one per entry. */
  function TotalItems(s: seq<WishlistItem>): nat { |s| }

  lemma AddKeepsIdsDistinct(s: seq<WishlistItem>, p: Product, now: string)
    ensures DistinctIds(s) ==> DistinctIds(AddEntry(s, p, now))
  {
    if DistinctIds(s) && !HasEntry(s, p.id) {
      var r := AddEntry(s, p, now);
      assert forall i :: 0 <= i < |s| ==> EntryId(r[i]) == EntryId(s[i]) != p.id;
    }
  }

  lemma RemoveKeepsIdsDistinct(s: seq<WishlistItem>, id: string)
    ensures DistinctIds(s) ==> DistinctIds(RemoveEntry(s, id))
  {
    if DistinctIds(s) {
      FilterKeepsKeysDistinct(s, (x: WishlistItem) => x.product.id != id, EntryId);
    }
  }

  /** Adding is idempotent, whatever the clock says the second time: the
      first `addedAt` is kept. */
  lemma AddIdempotent(s: seq<WishlistItem>, p: Product, t1: string, t2: string)
    ensures AddEntry(AddEntry(s, p, t1), p, t2) == AddEntry(s, p, t1)
  {
  }

  /** Adding a present product never refreshes its timestamp. */
  lemma AddKeepsFirstTimestamp(s: seq<WishlistItem>, p: Product, now: string, i: nat)
    requires i < |s| && s[i].product.id == p.id
    ensures i < |AddEntry(s, p, now)| && AddEntry(s, p, now)[i].addedAt == s[i].addedAt
  {
  }

  /** Remove keeps every copy of an entry of another product, and no entry of the removed one. */
  lemma RemoveCounts(s: seq<WishlistItem>, id: string, x: WishlistItem)
    ensures Count(RemoveEntry(s, id), x) == if x.product.id != id then Count(s, x) else 0
  {
    FilterMultiplicity(s, (x: WishlistItem) => x.product.id != id, x);
  }

  lemma {:induction false} RemoveAbsentIsNoOp(s: seq<WishlistItem>, id: string)
    requires !HasEntry(s, id)
    ensures RemoveEntry(s, id) == s
  {
    FilterKeepsAll(s, (x: WishlistItem) => x.product.id != id);
  }

  /** Remove keeps the surviving entries in their original order. */
  lemma RemoveKeepsOrder(s: seq<WishlistItem>, id: string)
    ensures IsSubsequence(RemoveEntry(s, id), s)
  {
    FilterIsSubsequence(s, (x: WishlistItem) => x.product.id != id);
  }

  /** `RemoveEntry` one entry at a time, from the front. */
  lemma RemoveEntryCons(s: seq<WishlistItem>, id: string)
    requires s != []
    ensures RemoveEntry(s, id) == (if s[0].product.id != id then [s[0]] else []) + RemoveEntry(s[1..], id)
  {
  }

  /** Without duplicates, the rest of the wishlist has none either, and not the head's product. */
  lemma DistinctTail(s: seq<WishlistItem>)
    requires DistinctIds(s) && s != []
    ensures DistinctIds(s[1..]) && !HasEntry(s[1..], s[0].product.id)
  {
    assert forall i :: 0 <= i < |s[1..]| ==> s[1..][i] == s[i + 1];
    assert forall i :: 0 <= i < |s[1..]| ==> EntryId(s[1..][i]) == EntryId(s[i + 1]) != EntryId(s[0]);
  }

  /** In a wishlist without duplicates, removing a present product shortens it by one. */
  lemma {:induction false} RemovePresentShortensByOne(s: seq<WishlistItem>, id: string)
    requires DistinctIds(s) && HasEntry(s, id)
    ensures TotalItems(RemoveEntry(s, id)) == TotalItems(s) - 1
  {
    RemoveEntryCons(s, id);
    DistinctTail(s);
    if s[0].product.id == id {
      RemoveAbsentIsNoOp(s[1..], id);
    } else {
      RemovePresentShortensByOne(s[1..], id);
    }
  }

  /** `WishlistProvider`: the current state, replaced by every dispatch, and
      the snapshot its effect last wrote under the key 'swalay-wishlist'. */
  class Wishlist {
    var items: seq<WishlistItem>
    var persisted: seq<WishlistItem>

    constructor ()
      ensures items == [] && persisted == []
    {
      items := [];
      persisted := [];
    }

    /** `dispatch` followed by the save effect. */
    method Dispatch(a: WishlistAction)
      modifies this
      ensures items == WishlistReducer(old(items), a)
      ensures persisted == items
      ensures !a.LoadWishlist? && DistinctIds(old(items)) ==> DistinctIds(items)
    {
      items := WishlistReducer(items, a);
      persisted := items;
    }

    /** The mount effect: a present, parseable snapshot is loaded; a missing
        or malformed one (`None`) leaves the wishlist as it was. */
    method Hydrate(saved: Option<seq<WishlistItem>>)
      modifies this
      ensures saved.Some? ==> items == saved.value
      ensures saved.None? ==> items == old(items)
      ensures persisted == items
    {
      if saved.Some? {
        Dispatch(LoadWishlist(saved.value));
      } else {
        persisted := items;
      }
    }

    /** `addToWishlist`; `now` is the clock reading. */
    method AddToWishlist(p: Product, now: string)
      modifies this
      ensures items == AddEntry(old(items), p, now) && persisted == items
    {
      Dispatch(WishlistAction.AddToWishlist(p, now));
    }

    method RemoveFromWishlist(id: string)
      modifies this
      ensures items == RemoveEntry(old(items), id) && persisted == items
    {
      Dispatch(WishlistAction.RemoveFromWishlist(id));
    }

    method ClearWishlist()
      modifies this
      ensures items == [] && persisted == []
    {
      Dispatch(WishlistAction.ClearWishlist);
    }

    method IsInWishlist(id: string) returns (b: bool)
      ensures b <==> exists i :: 0 <= i < |items| && items[i].product.id == id
    {
      b := HasEntry(items, id);
    }

    method GetTotalItems() returns (n: nat)
      ensures n == |items|
    {
      n := TotalItems(items);
    }
  }

  /** A reload: a fresh provider hydrated from what the previous one last
      saved holds the same entries. */
  method Reload(w: Wishlist) returns (reloaded: Wishlist)
    ensures reloaded.items == w.persisted && reloaded.persisted == w.persisted
  {
    reloaded := new Wishlist();
    reloaded.Hydrate(Some(w.persisted));
  }
}
