/**
 * The shopping cart. The stock and price tables are class-level attributes
 * in the source, so every cart sees and changes the same ones; here they are
 * one `Inventory` object that every `ShoppingCart` holds a reference to.
 * Exceptions become a `Fail` outcome with nothing changed.
 */
module Shop {
  import opened Wrappers
  import opened CartSpec

  datatype CartError = UnknownProduct | OutOfStock

  /** The shared stock table (products) and price table (prices). */
  class Inventory {
    var products: map<string, int>
    var prices: map<string, int>

    /** Every stocked product has a price, and no stock is negative. */
    ghost predicate Valid()
      reads this
    {
      products.Keys <= prices.Keys &&
      forall n :: n in products ==> products[n] >= 0
    }

    /** The tables as the class defines them. */
    constructor ()
      ensures Valid()
      ensures products == map["iphone" := 5, "imac" := 3, "ipad" := 2, "iwatch" := 1]
      ensures prices == map["iphone" := 900, "imac" := 5000, "ipad" := 3000, "iwatch" := 4000]
    {
      products := map["iphone" := 5, "imac" := 3, "ipad" := 2, "iwatch" := 1];
      prices := map["iphone" := 900, "imac" := 5000, "ipad" := 3000, "iwatch" := 4000];
    }
  }

  class ShoppingCart {
    /** The shared tables. */
    const store: Inventory
    /** This cart's own entries. */
    var cart: seq<Item>

    constructor (store: Inventory)
      ensures this.store == store && cart == []
    {
      this.store := store;
      cart := [];
    }

    /**
     * Fails on an unknown name, then on a quantity above the stock, changing
     * nothing; otherwise appends one entry at the current price and takes
     * the quantity off the shared stock of that product only.
     */
    method AddItems(name: string, quantity: int) returns (r: Outcome<CartError>)
      requires store.Valid()
      modifies this`cart, store`products
      ensures store.Valid()
      ensures store.prices == old(store.prices)
      ensures name !in old(store.products) ==>
        r == Fail(UnknownProduct) && cart == old(cart) && store.products == old(store.products)
      ensures name in old(store.products) && quantity > old(store.products[name]) ==>
        r == Fail(OutOfStock) && cart == old(cart) && store.products == old(store.products)
      ensures name in old(store.products) && quantity <= old(store.products[name]) ==>
        && r == Pass
        && cart == old(cart) + [Item(name, quantity, store.prices[name])]
        && store.products == old(store.products)[name := old(store.products[name]) - quantity]
      ensures r == Pass ==> Cost(cart) == Cost(old(cart)) + quantity * store.prices[name]
    {
      if name !in store.products {
        return Fail(UnknownProduct);
      }
      if quantity > store.products[name] {
        return Fail(OutOfStock);
      }
      var item := Item(name, quantity, store.prices[name]);
      cart := cart + [item];
      store.products := store.products[name := store.products[name] - quantity];
      CostAppend(old(cart), [item]);
      r := Pass;
    }

    /**
     * One pass over the entries by index: a matching entry with quantity 1
     * is removed (list.remove, the first equal entry), any other matching
     * entry loses one unit, and the index moves on either way. The stock is
     * never restored.
     */
    method RemoveItem(name: string)
      modifies this`cart
      ensures cart == Sweep(old(cart), 0, name)
      ensures Others(cart, name) == Others(old(cart), name)
      ensures |cart| <= |old(cart)|
      ensures Shrunk(cart, old(cart), name)
      ensures (forall k :: 0 <= k < |old(cart)| ==> old(cart)[k].name != name) ==> cart == old(cart)
      ensures store.products == old(store.products)
    {
      var i := 0;
      while i < |cart|
        invariant Sweep(cart, i, name) == Sweep(old(cart), 0, name)
        decreases |cart| - i
      {
        if cart[i].name == name {
          if cart[i].quantity == 1 {
            cart := RemoveFirst(cart, cart[i]);
          } else {
            cart := cart[i := Decremented(cart[i])];
          }
        }
        i := i + 1;
      }
      RemovePassEffect(old(cart), name);
    }

    /** Sum of quantity * price over this cart's entries (0 for an empty cart). */
    method TotalCost() returns (total: int)
      ensures total == Cost(cart)
    {
      total := 0;
      var i := 0;
      while i < |cart|
        invariant 0 <= i <= |cart|
        invariant total == Cost(cart[..i])
      {
        assert cart[..i + 1][..i] == cart[..i];
        total := total + cart[i].quantity * cart[i].price;
        i := i + 1;
      }
      assert cart[..i] == cart;
    }
  }

  /**
   * Two carts over the same tables: a successful add through one lowers the
   * stock the other sees, and leaves the other's entries alone.
   */
  method AddSeenByOtherCart(c: ShoppingCart, other: ShoppingCart, name: string, quantity: int)
    returns (r: Outcome<CartError>)
    requires c != other && c.store == other.store && c.store.Valid()
    modifies c`cart, c.store`products
    ensures r == Pass ==> name in old(other.store.products) && name in other.store.products
    ensures r == Pass ==> other.store.products[name] == old(other.store.products[name]) - quantity
    ensures other.cart == old(other.cart)
  {
    r := c.AddItems(name, quantity);
  }
}
