/** The data model of the storefront: products, cart items, carts and
    payment providers, keeping only the fields the cart, catalog and
    payment logic read. */
module Types {

  datatype Option<+T> = None | Some(value: T)

  /** A catalog record. Prices in the catalog are whole numbers, so
      `price` is an `int`. */
  datatype Product = Product(
    id: string,
    name: string,
    price: int,
    category: string,
    description: string)

  /** One product/quantity pairing. The add path does not guard the
      quantity it is given, so `quantity` is an unrestricted `int`. */
  datatype CartItem = CartItem(product: Product, quantity: int)

  /** The cart: an ordered list of items and two aggregates that the
      reducer recomputes from `items`. */
  datatype Cart = Cart(items: seq<CartItem>, total: int, itemCount: int)

  /** One entry of the category list: a category, how many products it
      has, and whether the filter is selected. */
  datatype CategoryFilter = CategoryFilter(category: string, count: int, active: bool)

  /** A payment provider. `config` stands for the provider's record of
      credential strings; a key that is absent reads as `undefined`. */
  datatype PaymentProvider = PaymentProvider(
    id: string,
    name: string,
    enabled: bool,
    config: map<string, string>)
}
