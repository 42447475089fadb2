/** The cart store: a reducer over an ordered sequence of cart lines keyed by
    product identifier, its selectors, and the provider object that holds the
    current state and writes it to persistent storage after every change. */
module CartStore {
  import opened Wrappers
  import opened Seqs
  import opened Catalog

  /** One cart line. The source never validates the quantity; the store's
      own transitions keep it positive (see `WellFormed`). */
  datatype CartItem = CartItem(product: Product, quantity: int)

  /** The five intents the reducer accepts. */
  datatype CartAction =
    | AddToCart(product: Product, quantity: int)
    | RemoveFromCart(productId: string)
    | UpdateQuantity(productId: string, quantity: int)
    | ClearCart
    | LoadCart(items: seq<CartItem>)

  function ItemId(item: CartItem): string { item.product.id }

  function ItemQuantity(item: CartItem): int { item.quantity }

  function LineTotal(item: CartItem): int { item.product.price * item.quantity }

  /** At most one line per product identifier. */
  ghost predicate DistinctIds(s: seq<CartItem>) {
    DistinctKeys(s, ItemId)
  }

  /** Every line holds at least one unit. */
  ghost predicate PositiveQuantities(s: seq<CartItem>) {
    forall i :: 0 <= i < |s| ==> s[i].quantity >= 1
  }

  /** The state invariant the cart's own transitions maintain. */
  ghost predicate WellFormed(s: seq<CartItem>) {
    DistinctIds(s) && PositiveQuantities(s)
  }

  /** `items.some(item => item.product.id === id)`. */
  function HasItem(s: seq<CartItem>, id: string): (b: bool)
    ensures b <==> exists i :: 0 <= i < |s| && s[i].product.id == id
  {
    if s == [] then false
    else
      assert forall i :: 1 <= i < |s| ==> s[i] == s[1..][i - 1];
      s[0].product.id == id || HasItem(s[1..], id)
  }

  /** `state.find(item => item.product.id === id)`: the first line for `id`. */
  function Find(s: seq<CartItem>, id: string): (r: Option<CartItem>)
    ensures r.Some? <==> HasItem(s, id)
    ensures r.Some? ==> r.value.product.id == id
    ensures r.Some? ==> exists k :: 0 <= k < |s| && s[k] == r.value && !HasItem(s[..k], id)
  {
    if s == [] then None
    else if s[0].product.id == id then
      assert s[..0] == [];
      Some(s[0])
    else
      var r := Find(s[1..], id);
      assert r.Some? ==> exists k :: 0 <= k < |s| && s[k] == r.value && !HasItem(s[..k], id) by {
        if r.Some? {
          var k :| 0 <= k < |s[1..]| && s[1..][k] == r.value && !HasItem(s[1..][..k], id);
          assert s[..k + 1] == [s[0]] + s[1..][..k];
        }
      }
      r
  }

  /** `state.map(item => item.product.id === id ? {...item, quantity: item.quantity + q} : item)`. */
  function MergeQuantity(s: seq<CartItem>, id: string, q: int): (r: seq<CartItem>)
    ensures |r| == |s|
    ensures forall i :: 0 <= i < |s| ==> r[i].product == s[i].product
    ensures forall i :: 0 <= i < |s| ==>
      r[i].quantity == if s[i].product.id == id then s[i].quantity + q else s[i].quantity
  {
    if s == [] then []
    else
      var head := if s[0].product.id == id then s[0].(quantity := s[0].quantity + q) else s[0];
      [head] + MergeQuantity(s[1..], id, q)
  }

  /** `state.map(item => item.product.id === id ? {...item, quantity: q} : item)`. */
  function SetQuantity(s: seq<CartItem>, id: string, q: int): (r: seq<CartItem>)
    ensures |r| == |s|
    ensures forall i :: 0 <= i < |s| ==> r[i].product == s[i].product
    ensures forall i :: 0 <= i < |s| ==>
      r[i].quantity == if s[i].product.id == id then q else s[i].quantity
  {
    if s == [] then []
    else
      var head := if s[0].product.id == id then s[0].(quantity := q) else s[0];
      [head] + SetQuantity(s[1..], id, q)
  }

  /** ADD_TO_CART: a present product gains `q` units in place (its stored
      product record is kept); an absent one is appended as a new line. */
  function AddItem(s: seq<CartItem>, p: Product, q: int): (r: seq<CartItem>)
    ensures HasItem(r, p.id)
    ensures HasItem(s, p.id) ==>
      && |r| == |s|
      && (forall i :: 0 <= i < |s| ==> r[i].product == s[i].product)
      && (forall i :: 0 <= i < |s| && s[i].product.id != p.id ==> r[i] == s[i])
      && (forall i :: 0 <= i < |s| && s[i].product.id == p.id ==> r[i].quantity == s[i].quantity + q)
    ensures !HasItem(s, p.id) ==> r == s + [CartItem(p, q)]
  {
    match Find(s, p.id)
    case Some(_) =>
      var r := MergeQuantity(s, p.id, q);
      assert forall i :: 0 <= i < |s| && s[i].product.id != p.id ==> r[i] == s[i] by {
        forall i | 0 <= i < |s| && s[i].product.id != p.id ensures r[i] == s[i] {
          assert r[i].product == s[i].product && r[i].quantity == s[i].quantity;
        }
      }
      var k :| 0 <= k < |s| && s[k].product.id == p.id;
      assert r[k].product.id == p.id;
      r
    case None =>
      var r := s + [CartItem(p, q)];
      assert r[|s|].product.id == p.id;
      r
  }

  /** REMOVE_FROM_CART: `state.filter(item => item.product.id !== id)`. */
  function RemoveItem(s: seq<CartItem>, id: string): (r: seq<CartItem>)
    ensures forall x :: x in r <==> x in s && x.product.id != id
    ensures !HasItem(r, id)
    ensures |r| <= |s|
  {
    var r := Filter(s, (x: CartItem) => x.product.id != id);
    assert forall i :: 0 <= i < |r| ==> r[i] in r;
    r
  }

  /** UPDATE_QUANTITY: a non-positive quantity removes the line; otherwise the
      line's quantity is replaced where it stands. */
  function UpdateItemQuantity(s: seq<CartItem>, id: string, q: int): (r: seq<CartItem>)
    ensures q <= 0 ==> r == RemoveItem(s, id)
    ensures q > 0 ==>
      && |r| == |s|
      && (forall i :: 0 <= i < |s| ==> r[i].product == s[i].product)
      && (forall i :: 0 <= i < |s| && s[i].product.id != id ==> r[i] == s[i])
      && (forall i :: 0 <= i < |s| && s[i].product.id == id ==> r[i].quantity == q)
  {
    if q <= 0 then RemoveItem(s, id)
    else
      var r := SetQuantity(s, id, q);
      assert forall i :: 0 <= i < |s| && s[i].product.id != id ==> r[i] == s[i] by {
        forall i | 0 <= i < |s| && s[i].product.id != id ensures r[i] == s[i] {
          assert r[i].product == s[i].product && r[i].quantity == s[i].quantity;
        }
      }
      r
  }

  /** `cartReducer`. Every transition except LOAD_CART keeps product
      identifiers distinct, and with a positive added quantity keeps every
      line positive. */
  function CartReducer(s: seq<CartItem>, a: CartAction): (r: seq<CartItem>)
    ensures !a.LoadCart? && DistinctIds(s) ==> DistinctIds(r)
    ensures !a.LoadCart? && WellFormed(s) && (a.AddToCart? ==> a.quantity >= 1) ==> WellFormed(r)
  {
    match a
    case AddToCart(p, q) =>
      AddKeepsWellFormed(s, p, q);
      AddItem(s, p, q)
    case RemoveFromCart(id) =>
      RemoveKeepsWellFormed(s, id);
      RemoveItem(s, id)
    case UpdateQuantity(id, q) =>
      UpdateKeepsWellFormed(s, id, q);
      UpdateItemQuantity(s, id, q)
    case ClearCart => []
    case LoadCart(items) => items
  }

  /** `getTotalItems`: the number of units, not of lines. */
  function TotalItems(s: seq<CartItem>): int {
    Sum(s, ItemQuantity)
  }

  /** `getTotalPrice`: units times the price of the product record each line holds. */
  function TotalPrice(s: seq<CartItem>): int {
    Sum(s, LineTotal)
  }

  /** The unit price `getTotalPrice` charges for `p` once it is in the cart:
      that of the record stored by the first add, not of later records. */
  function ChargedPrice(s: seq<CartItem>, p: Product): int {
    match Find(s, p.id)
    case Some(item) => item.product.price
    case None => p.price
  }

  // ---------------------------------------------------------------------
  // Invariants

  lemma AddKeepsWellFormed(s: seq<CartItem>, p: Product, q: int)
    ensures DistinctIds(s) ==> DistinctIds(AddItem(s, p, q))
    ensures WellFormed(s) && q >= 1 ==> WellFormed(AddItem(s, p, q))
  {
    var r := AddItem(s, p, q);
    if DistinctIds(s) {
      if HasItem(s, p.id) {
        assert forall i :: 0 <= i < |s| ==> ItemId(r[i]) == ItemId(s[i]);
      } else {
        assert forall i :: 0 <= i < |s| ==> ItemId(r[i]) == ItemId(s[i]);
        assert forall i :: 0 <= i < |s| ==> ItemId(s[i]) != p.id;
      }
    }
  }

  lemma RemoveKeepsWellFormed(s: seq<CartItem>, id: string)
    ensures DistinctIds(s) ==> DistinctIds(RemoveItem(s, id))
    ensures WellFormed(s) ==> WellFormed(RemoveItem(s, id))
  {
    var r := RemoveItem(s, id);
    if DistinctIds(s) {
      FilterKeepsKeysDistinct(s, (x: CartItem) => x.product.id != id, ItemId);
    }
    if PositiveQuantities(s) {
      forall i | 0 <= i < |r| ensures r[i].quantity >= 1 {
        assert r[i] in s;
      }
    }
  }

  lemma UpdateKeepsWellFormed(s: seq<CartItem>, id: string, q: int)
    ensures DistinctIds(s) ==> DistinctIds(UpdateItemQuantity(s, id, q))
    ensures WellFormed(s) ==> WellFormed(UpdateItemQuantity(s, id, q))
  {
    if q <= 0 {
      RemoveKeepsWellFormed(s, id);
    } else {
      var r := UpdateItemQuantity(s, id, q);
      assert forall i :: 0 <= i < |s| ==> ItemId(r[i]) == ItemId(s[i]);
    }
  }

  // ---------------------------------------------------------------------
  // Transitions

  /** Two adds of the same product merge into one add of the summed quantity. */
  lemma AddTwiceMerges(s: seq<CartItem>, p: Product, q1: int, q2: int)
    ensures AddItem(AddItem(s, p, q1), p, q2) == AddItem(s, p, q1 + q2)
  {
    if HasItem(s, p.id) {
      AddTwicePresent(s, p, q1, q2);
    } else {
      AddTwiceAbsent(s, p, q1, q2);
    }
  }

  lemma AddTwicePresent(s: seq<CartItem>, p: Product, q1: int, q2: int)
    requires HasItem(s, p.id)
    ensures AddItem(AddItem(s, p, q1), p, q2) == AddItem(s, p, q1 + q2)
  {
    assert AddItem(s, p, q1) == MergeQuantity(s, p.id, q1);
    assert HasItem(MergeQuantity(s, p.id, q1), p.id);
    assert AddItem(s, p, q1 + q2) == MergeQuantity(s, p.id, q1 + q2);
    MergeTwice(s, p.id, q1, q2);
  }

  lemma AddTwiceAbsent(s: seq<CartItem>, p: Product, q1: int, q2: int)
    requires !HasItem(s, p.id)
    ensures AddItem(AddItem(s, p, q1), p, q2) == AddItem(s, p, q1 + q2)
  {
    var line := CartItem(p, q1);
    assert HasItem(s + [line], p.id) by {
      assert (s + [line])[|s|] == line;
    }
    MergeAppend(s, [line], p.id, q2);
    MergeAbsentIsIdentity(s, p.id, q2);
    MergeOne(line, q2);
    calc {
      AddItem(AddItem(s, p, q1), p, q2);
      AddItem(s + [line], p, q2);
      MergeQuantity(s + [line], p.id, q2);
      MergeQuantity(s, p.id, q2) + MergeQuantity([line], p.id, q2);
      s + [line.(quantity := line.quantity + q2)];
      { assert line.(quantity := line.quantity + q2) == CartItem(p, q1 + q2); }
      s + [CartItem(p, q1 + q2)];
      AddItem(s, p, q1 + q2);
    }
  }

  lemma MergeOne(line: CartItem, q: int)
    ensures MergeQuantity([line], line.product.id, q) == [line.(quantity := line.quantity + q)]
  {
    assert [line][1..] == [];
  }

  lemma {:induction false} MergeTwice(s: seq<CartItem>, id: string, q1: int, q2: int)
    ensures MergeQuantity(MergeQuantity(s, id, q1), id, q2) == MergeQuantity(s, id, q1 + q2)
  {
    if s != [] {
      MergeTwice(s[1..], id, q1, q2);
      assert MergeQuantity(s, id, q1)[1..] == MergeQuantity(s[1..], id, q1);
    }
  }

  lemma {:induction false} MergeAppend(s: seq<CartItem>, t: seq<CartItem>, id: string, q: int)
    ensures MergeQuantity(s + t, id, q) == MergeQuantity(s, id, q) + MergeQuantity(t, id, q)
  {
    if s == [] {
      assert s + t == t;
    } else {
      assert (s + t)[1..] == s[1..] + t;
      MergeAppend(s[1..], t, id, q);
    }
  }

  /** Remove keeps every copy of a line of another product, and no line of the removed one. */
  lemma RemoveCounts(s: seq<CartItem>, id: string, x: CartItem)
    ensures Count(RemoveItem(s, id), x) == if x.product.id != id then Count(s, x) else 0
  {
    FilterMultiplicity(s, (x: CartItem) => x.product.id != id, x);
  }

  /** Removing an identifier that is not in the cart changes nothing. */
  lemma {:induction false} RemoveAbsentIsNoOp(s: seq<CartItem>, id: string)
    requires !HasItem(s, id)
    ensures RemoveItem(s, id) == s
  {
    FilterKeepsAll(s, (x: CartItem) => x.product.id != id);
  }

  /** Remove keeps the surviving lines in their original order. */
  lemma RemoveKeepsOrder(s: seq<CartItem>, id: string)
    ensures IsSubsequence(RemoveItem(s, id), s)
  {
    FilterIsSubsequence(s, (x: CartItem) => x.product.id != id);
  }

  /** Updating an identifier that is not in the cart to a positive quantity changes nothing. */
  lemma UpdateAbsentIsNoOp(s: seq<CartItem>, id: string, q: int)
    requires !HasItem(s, id) && q > 0
    ensures UpdateItemQuantity(s, id, q) == s
  {
    var r := UpdateItemQuantity(s, id, q);
    forall i | 0 <= i < |s| ensures r[i] == s[i] {
      assert s[i].product.id != id;
    }
  }

  // ---------------------------------------------------------------------
  // Selectors

  lemma {:induction false} MergeAbsentIsIdentity(s: seq<CartItem>, id: string, q: int)
    requires !HasItem(s, id)
    ensures MergeQuantity(s, id, q) == s
  {
    if s != [] {
      MergeAbsentIsIdentity(s[1..], id, q);
    }
  }

  lemma {:induction false} MergeTotals(s: seq<CartItem>, id: string, q: int)
    requires DistinctIds(s) && HasItem(s, id)
    ensures TotalItems(MergeQuantity(s, id, q)) == TotalItems(s) + q
    ensures TotalPrice(MergeQuantity(s, id, q)) == TotalPrice(s) + q * Find(s, id).value.product.price
  {
    var r := MergeQuantity(s, id, q);
    assert r[1..] == MergeQuantity(s[1..], id, q);
    assert DistinctIds(s[1..]) by {
      assert forall i :: 0 <= i < |s[1..]| ==> s[1..][i] == s[i + 1];
    }
    if s[0].product.id == id {
      assert !HasItem(s[1..], id) by {
        assert forall i :: 0 <= i < |s[1..]| ==> ItemId(s[1..][i]) == ItemId(s[i + 1]) != ItemId(s[0]);
      }
      MergeAbsentIsIdentity(s[1..], id, q);
      var price := s[0].product.price;
      assert LineTotal(r[0]) == LineTotal(s[0]) + q * price by {
        assert r[0].product == s[0].product && r[0].quantity == s[0].quantity + q;
        assert (s[0].quantity + q) * price == s[0].quantity * price + q * price;
      }
    } else {
      MergeTotals(s[1..], id, q);
      assert r[0] == s[0] by {
        assert r[0].product == s[0].product && r[0].quantity == s[0].quantity;
      }
    }
  }

  /** Adding `q` units raises the unit count by `q` and the price by `q` times
      the price the cart charges for that product. */
  lemma TotalsAfterAdd(s: seq<CartItem>, p: Product, q: int)
    requires DistinctIds(s)
    ensures TotalItems(AddItem(s, p, q)) == TotalItems(s) + q
    ensures TotalPrice(AddItem(s, p, q)) == TotalPrice(s) + q * ChargedPrice(s, p)
  {
    if HasItem(s, p.id) {
      MergeTotals(s, p.id, q);
    } else {
      var line := CartItem(p, q);
      SumAppend(s, [line], ItemQuantity);
      SumAppend(s, [line], LineTotal);
      assert LineTotal(line) == q * p.price;
    }
  }

  /** `RemoveItem` one line at a time, from the front. */
  lemma RemoveItemCons(s: seq<CartItem>, id: string)
    requires s != []
    ensures RemoveItem(s, id) == (if s[0].product.id != id then [s[0]] else []) + RemoveItem(s[1..], id)
  {
  }

  /** Without duplicates, the rest of the cart has none either, and not the head's product. */
  lemma DistinctTail(s: seq<CartItem>)
    requires DistinctIds(s) && s != []
    ensures DistinctIds(s[1..]) && !HasItem(s[1..], s[0].product.id)
  {
    assert forall i :: 0 <= i < |s[1..]| ==> s[1..][i] == s[i + 1];
    assert forall i :: 0 <= i < |s[1..]| ==> ItemId(s[1..][i]) == ItemId(s[i + 1]) != ItemId(s[0]);
  }

  /** Removing a product takes away exactly the units of its line. */
  lemma {:induction false} TotalItemsAfterRemove(s: seq<CartItem>, id: string)
    requires DistinctIds(s)
    ensures TotalItems(RemoveItem(s, id)) ==
      TotalItems(s) - (match Find(s, id) case Some(item) => item.quantity case None => 0)
  {
    if s != [] {
      DistinctTail(s);
      TotalItemsAfterRemove(s[1..], id);
      RemoveItemCons(s, id);
      SumAppend(if s[0].product.id != id then [s[0]] else [], RemoveItem(s[1..], id), ItemQuantity);
      if s[0].product.id == id {
        RemoveAbsentIsNoOp(s[1..], id);
      }
    }
  }

  /** In a well-formed cart the unit count is at least the number of lines. */
  lemma {:induction false} TotalItemsAtLeastLines(s: seq<CartItem>)
    requires PositiveQuantities(s)
    ensures TotalItems(s) >= |s|
  {
    if s != [] {
      assert PositiveQuantities(s[1..]) by {
        assert forall i :: 0 <= i < |s[1..]| ==> s[1..][i] == s[i + 1];
      }
      TotalItemsAtLeastLines(s[1..]);
    }
  }

  /** A catalog record with only an identifier and a price filled in. */
  function Sample(id: string, price: int): Product {
    Product(id, id, id, "", price, None, "", 1, "", "")
  }

  /** Adding "A" twice, 2 then 3 units, leaves one line of 5 units. */
  lemma AddTwiceScenario()
    ensures var a := Sample("A", 10);
            var s := AddItem(AddItem([], a, 2), a, 3);
            s == [CartItem(a, 5)] && TotalItems(s) == 5
  {
    var a := Sample("A", 10);
    assert AddItem([], a, 2) == [CartItem(a, 2)];
  }

  /** Two units at 10 and one at 25 cost 45. */
  lemma TotalPriceScenario()
    ensures TotalPrice([CartItem(Sample("A", 10), 2), CartItem(Sample("B", 25), 1)]) == 45
  {
  }

  // ---------------------------------------------------------------------
  // The provider

  /** `CartProvider`: the current state, replaced by every dispatch, and the
      snapshot its effect last wrote under the key 'swalay-cart'. */
  class Cart {
    var items: seq<CartItem>
    var persisted: seq<CartItem>

    /** `useReducer(cartReducer, [])`; the first effect run writes the empty state. */
    constructor ()
      ensures items == [] && persisted == []
    {
      items := [];
      persisted := [];
    }

    /** `dispatch` followed by the save effect. */
    method Dispatch(a: CartAction)
      modifies this
      ensures items == CartReducer(old(items), a)
      ensures persisted == items
      ensures !a.LoadCart? && WellFormed(old(items)) && (a.AddToCart? ==> a.quantity >= 1) ==> WellFormed(items)
    {
      items := CartReducer(items, a);
      persisted := items;
    }

    /** The mount effect: a present, parseable snapshot is loaded; a missing
        or malformed one (`None`) leaves the cart as it was. */
    method Hydrate(saved: Option<seq<CartItem>>)
      modifies this
      ensures saved.Some? ==> items == saved.value
      ensures saved.None? ==> items == old(items)
      ensures persisted == items
    {
      if saved.Some? {
        Dispatch(LoadCart(saved.value));
      } else {
        persisted := items;
      }
    }

    method AddToCart(p: Product, q: int)
      modifies this
      ensures items == AddItem(old(items), p, q) && persisted == items
    {
      Dispatch(CartAction.AddToCart(p, q));
    }

    method RemoveFromCart(id: string)
      modifies this
      ensures items == RemoveItem(old(items), id) && persisted == items
    {
      Dispatch(CartAction.RemoveFromCart(id));
    }

    method UpdateQuantity(id: string, q: int)
      modifies this
      ensures items == UpdateItemQuantity(old(items), id, q) && persisted == items
    {
      Dispatch(CartAction.UpdateQuantity(id, q));
    }

    method ClearCart()
      modifies this
      ensures items == [] && persisted == []
    {
      Dispatch(CartAction.ClearCart);
    }

    method GetTotalItems() returns (n: int)
      ensures n == TotalItems(items)
    {
      n := TotalItems(items);
    }

    method GetTotalPrice() returns (total: int)
      ensures total == TotalPrice(items)
    {
      total := TotalPrice(items);
    }

    method IsInCart(id: string) returns (b: bool)
      ensures b <==> exists i :: 0 <= i < |items| && items[i].product.id == id
    {
      b := HasItem(items, id);
    }
  }

  /** A reload: a fresh provider hydrated from what the previous one last
      saved holds the same items. */
  method Reload(c: Cart) returns (reloaded: Cart)
    ensures reloaded.items == c.persisted && reloaded.persisted == c.persisted
  {
    reloaded := new Cart();
    reloaded.Hydrate(Some(c.persisted));
  }
}
