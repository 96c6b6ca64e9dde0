/** The cart provider: the live cart, the `isLoading` flag and the
    persistence layer, modelled as a map from storage key to the cart
    snapshot stored under it. */
module CartStore {
  import opened Types
  import opened CartReducer

  /** The key the cart snapshot is stored under. */
  const StorageKey: string := "nader-cart"

  class Store {
    var cart: Cart
    var isLoading: bool
    var storage: map<string, Cart>

    /** Once the startup load has finished, the stored snapshot is the live cart. */
    ghost predicate Valid()
      reads this
    {
      !isLoading ==> StorageKey in storage && storage[StorageKey] == cart
    }

    /** Mounting: the reducer starts from the empty cart and the flag is set. */
    constructor (persisted: map<string, Cart>)
      ensures Valid()
      ensures cart == InitialCart && isLoading && storage == persisted
    {
      cart := InitialCart;
      isLoading := true;
      storage := persisted;
    }

    /** The save effect: it writes the cart under the key only when the
        flag is clear. */
    method Save()
      modifies this`storage
      ensures storage == if isLoading then old(storage) else old(storage)[StorageKey := cart]
    {
      if !isLoading {
        storage := storage[StorageKey := cart];
      }
    }

    /** `dispatch`: run the reducer, then the save effect. */
    method Dispatch(action: CartAction)
      requires Valid()
      modifies this
      ensures Valid()
      ensures cart == Reduce(old(cart), action) && isLoading == old(isLoading)
      ensures storage == if isLoading then old(storage) else old(storage)[StorageKey := cart]
    {
      cart := Reduce(cart, action);
      Save();
    }

    /** The one-time load effect. `readFails` stands for reading the key or
        parsing its text throwing; then, as when nothing is stored, the cart
        stays as it is. Either way the flag is cleared, and since the flag
        changed the save effect runs once and stores the cart. */
    method FinishLoad(readFails: bool)
      requires Valid() && isLoading
      modifies this
      ensures Valid() && !isLoading
      ensures cart == if !readFails && StorageKey in old(storage)
                      then old(storage)[StorageKey] else old(cart)
      ensures storage == old(storage)[StorageKey := cart]
    {
      if !readFails && StorageKey in storage {
        Dispatch(LoadCart(storage[StorageKey]));
      }
      isLoading := false;
      Save();
    }

    /** `addToCart(product, quantity = 1)`. */
    method AddToCart(product: Product, quantity: int := 1)
      requires Valid()
      modifies this
      ensures Valid() && isLoading == old(isLoading)
      ensures cart == Reduce(old(cart), CartAction.AddToCart(product, quantity))
      ensures storage == if isLoading then old(storage) else old(storage)[StorageKey := cart]
      ensures AggregatesMatch(cart) && HasProduct(cart.items, product.id)
      ensures UniqueIds(old(cart).items) ==> UniqueIds(cart.items)
    {
      AddKeepsUniqueIds(cart, product, quantity);
      Dispatch(CartAction.AddToCart(product, quantity));
    }

    /** `removeFromCart(productId)`. */
    method RemoveFromCart(productId: string)
      requires Valid()
      modifies this
      ensures Valid() && isLoading == old(isLoading)
      ensures cart == Reduce(old(cart), CartAction.RemoveFromCart(productId))
      ensures storage == if isLoading then old(storage) else old(storage)[StorageKey := cart]
      ensures AggregatesMatch(cart) && !HasProduct(cart.items, productId)
      ensures UniqueIds(old(cart).items) ==> UniqueIds(cart.items)
    {
      RemoveSpec(cart, productId);
      if UniqueIds(cart.items) {
        ReduceKeepsUniqueIds(cart, CartAction.RemoveFromCart(productId));
      }
      Dispatch(CartAction.RemoveFromCart(productId));
    }

    /** `updateQuantity(productId, quantity)`. */
    method UpdateQuantity(productId: string, quantity: int)
      requires Valid()
      modifies this
      ensures Valid() && isLoading == old(isLoading)
      ensures cart == Reduce(old(cart), CartAction.UpdateQuantity(productId, quantity))
      ensures storage == if isLoading then old(storage) else old(storage)[StorageKey := cart]
      ensures AggregatesMatch(cart)
      ensures quantity <= 0 ==> !HasProduct(cart.items, productId)
      ensures UniqueIds(old(cart).items) ==> UniqueIds(cart.items)
    {
      RemoveSpec(cart, productId);
      if UniqueIds(cart.items) {
        ReduceKeepsUniqueIds(cart, CartAction.UpdateQuantity(productId, quantity));
      }
      Dispatch(CartAction.UpdateQuantity(productId, quantity));
    }

    /** `clearCart()`. */
    method ClearCart()
      requires Valid()
      modifies this
      ensures Valid() && isLoading == old(isLoading)
      ensures cart == Cart([], 0, 0)
      ensures storage == if isLoading then old(storage) else old(storage)[StorageKey := cart]
    {
      Dispatch(CartAction.ClearCart);
    }
  }

  /** Mutations made before the load finishes are applied in memory but
      not written, and a stored snapshot then replaces them. */
  method EarlyMutationSession(mug: Product, saved: Cart)
  {
    var store := new Store(map[StorageKey := saved]);
    store.AddToCart(mug);
    assert store.storage == map[StorageKey := saved];
    store.FinishLoad(false);
    assert store.cart == saved && store.storage[StorageKey] == saved;
  }

  /** With nothing stored, the load keeps the empty cart, and from then on
      every mutation is written under the key. */
  method MugSession(mug: Product)
    requires mug.price == 15
  {
    var store := new Store(map[]);
    store.FinishLoad(false);
    assert store.storage == map[StorageKey := InitialCart];
    MugScenario(mug);
    store.AddToCart(mug);
    assert store.cart == Cart([CartItem(mug, 1)], 15, 1);
    store.AddToCart(mug, 2);
    assert store.storage[StorageKey] == Cart([CartItem(mug, 3)], 45, 3);
    store.UpdateQuantity(mug.id, 1);
    assert store.cart == Cart([CartItem(mug, 1)], 15, 1);
    store.RemoveFromCart(mug.id);
    assert store.cart == InitialCart;
    assert store.storage.Keys == {StorageKey} && store.storage[StorageKey] == InitialCart;
  }
}
