/** The product page's add-to-cart control: a quantity stepper bounded by
    the product's inventory, and a button that hands the chosen quantity
    to the cart. */
module AddToCartButton {
  import opened Catalog
  import CartStore

  /** The "-" handler: `Math.max(1, quantity - 1)`. */
  function Decremented(q: int): (r: int)
    ensures r >= 1 && r >= q - 1
    ensures r == q - 1 || r == 1
  {
    if q - 1 >= 1 then q - 1 else 1
  }

  /** The "+" handler: `Math.min(product.inventory, quantity + 1)`. */
  function Incremented(q: int, inventory: int): (r: int)
    ensures r <= inventory && r <= q + 1
    ensures r == q + 1 || r == inventory
  {
    if inventory <= q + 1 then inventory else q + 1
  }

  /** The quantities the stepper can show, starting from 1: inside the stock
      when there is any, and otherwise 1 or the (non-positive) inventory
      itself, which "+" jumps to. */
  predicate Reachable(q: int, inventory: int) {
    (1 <= q <= inventory) || q == 1 || q == inventory
  }

  lemma DecrementKeepsReachable(q: int, inventory: int)
    requires Reachable(q, inventory)
    ensures Reachable(Decremented(q), inventory)
  {
  }

  lemma IncrementKeepsReachable(q: int, inventory: int)
    requires Reachable(q, inventory)
    ensures Reachable(Incremented(q, inventory), inventory)
  {
  }

  /** With stock on hand, every reachable quantity lies between 1 and the inventory. */
  lemma InStockQuantityInRange(q: int, inventory: int)
    requires Reachable(q, inventory) && inventory >= 1
    ensures 1 <= q <= inventory
  {
  }

  /** Repeated "+" saturates at the inventory, repeated "-" at 1. */
  lemma {:induction false} SteppersSaturate(q: int, inventory: int, n: nat)
    requires 1 <= q <= inventory
    ensures IncrementN(q, inventory, n) == if q + n <= inventory then q + n else inventory
    ensures DecrementN(q, n) == if q - n >= 1 then q - n else 1
  {
    if n > 0 {
      SteppersSaturate(q, inventory, n - 1);
    }
  }

  function IncrementN(q: int, inventory: int, n: nat): int {
    if n == 0 then q else Incremented(IncrementN(q, inventory, n - 1), inventory)
  }

  function DecrementN(q: int, n: nat): int {
    if n == 0 then q else Decremented(DecrementN(q, n - 1))
  }

  /** `disabled={product.inventory === 0 || isAdding}`. */
  predicate Disabled(inventory: int, isAdding: bool) {
    inventory == 0 || isAdding
  }

  datatype Label = Adding | OutOfStock | AddedToCart | AddQuantity(quantity: int)

  /** The caption the button shows. */
  function ButtonLabel(isAdding: bool, inventory: int, inCart: bool, q: int): (l: Label)
    ensures l == Adding <==> isAdding
    ensures l == OutOfStock <==> !isAdding && inventory == 0
    ensures l == AddedToCart <==> !isAdding && inventory != 0 && inCart
    ensures l.AddQuantity? ==> !Disabled(inventory, isAdding) && !inCart && l.quantity == q
  {
    if isAdding then Adding
    else if inventory == 0 then OutOfStock
    else if inCart then AddedToCart
    else AddQuantity(q)
  }

  /** An enabled button shows "Out of Stock" never, and a disabled one that is not busy always. */
  lemma LabelMatchesDisabled(isAdding: bool, inventory: int, inCart: bool, q: int)
    ensures !isAdding ==> (ButtonLabel(isAdding, inventory, inCart, q) == OutOfStock <==> Disabled(inventory, isAdding))
  {
  }

  class Button {
    const product: Product
    var quantity: int
    var isAdding: bool

    predicate Valid()
      reads this
    {
      Reachable(quantity, product.inventory)
    }

    constructor(p: Product)
      ensures product == p && quantity == 1 && !isAdding
      ensures Valid()
    {
      product := p;
      quantity := 1;
      isAdding := false;
    }

    method Decrement()
      modifies this
      ensures quantity == Decremented(old(quantity)) && isAdding == old(isAdding)
      ensures old(Valid()) ==> Valid()
    {
      if Valid() {
        DecrementKeepsReachable(quantity, product.inventory);
      }
      quantity := if quantity - 1 >= 1 then quantity - 1 else 1;
    }

    method Increment()
      modifies this
      ensures quantity == Incremented(old(quantity), product.inventory) && isAdding == old(isAdding)
      ensures old(Valid()) ==> Valid()
    {
      if Valid() {
        IncrementKeepsReachable(quantity, product.inventory);
      }
      quantity := if product.inventory <= quantity + 1 then product.inventory else quantity + 1;
    }

    /** `handleAddToCart`: the busy flag is raised around the (untimed) call
        to `addToCart(product, quantity)`. */
    method HandleAddToCart(cart: CartStore.Cart)
      modifies this, cart
      ensures cart.items == CartStore.AddItem(old(cart.items), product, quantity)
      ensures cart.persisted == cart.items
      ensures quantity == old(quantity) && !isAdding
      ensures Valid() && product.inventory >= 1 && CartStore.WellFormed(old(cart.items))
        ==> CartStore.WellFormed(cart.items)
    {
      isAdding := true;
      cart.AddToCart(product, quantity);
      isAdding := false;
      if Valid() && product.inventory >= 1 {
        InStockQuantityInRange(quantity, product.inventory);
        CartStore.AddKeepsWellFormed(old(cart.items), product, quantity);
      }
    }
  }
}
