/** The records of `cart/models.py`: an anonymous shopper's cart and the cart
    lines, with the line's sub-total. */
module CartModels {
  import opened Common
  import opened StoreModels

  /** The declared maximum length of a cart's session token (it may be blank). */
  const CartIdMaxLength := 255

  /** A cart row: the session token of an anonymous shopper. */
  datatype Cart = Cart(id: int, cartId: string)

  /** The string form of a cart is its session token. */
  function CartLabel(c: Cart): (s: string)
    ensures s == c.cartId
  {
    c.cartId
  }

  /** A cart line. `user` and `cart` are both nullable and nothing requires
      exactly one of them to be set; `quantity` has no declared lower bound.
      `variations` holds the primary keys of the attached variations, in the
      order they were attached. */
  datatype CartItem = CartItem(
    id: int,
    user: Option<int>,
    product: int,
    variations: seq<int>,
    cart: Option<int>,
    quantity: int,
    isActive: bool)

  /** A line as created: no variations attached yet, and active. */
  function NewCartItem(id: int, user: Option<int>, product: int, cart: Option<int>, quantity: int): (it: CartItem)
    ensures it.isActive && it.variations == []
    ensures it.id == id && it.user == user && it.product == product && it.cart == cart
    ensures it.quantity == quantity
  {
    CartItem(id, user, product, [], cart, quantity, true)
  }

  /** `CartItem.sub_total`: the product's unit price times the line's quantity. */
  function SubTotal(item: CartItem, products: map<int, Product>): (r: int)
    requires item.product in products
    ensures item.quantity == 0 ==> r == 0
    ensures item.quantity == 1 ==> r == products[item.product].price.amount
    ensures products[item.product].price.amount >= 0 && item.quantity >= 0 ==> r >= 0
  {
    products[item.product].price.amount * item.quantity
  }

  /** The string form of a line is its product's name. */
  function CartItemLabel(item: CartItem, products: map<int, Product>): (s: string)
    requires item.product in products
    ensures s == ProductLabel(products[item.product])
  {
    products[item.product].name
  }
}
