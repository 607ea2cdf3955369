/** The records the dashboard receives from the remote demo service, reduced to
    the fields its logic reads, and the two-way outcome of a remote call. */
module Entities {

  datatype Option<+T> = None | Some(value: T)

  /** What an awaited remote call produced: the parsed body, or a rejection
      (a network failure, or a body that is not JSON). The rejection carries
      nothing because every caller only logs it. */
  datatype Reply<+T> = Success(value: T) | Failure

  datatype Company = Company(name: string, department: string, title: string)

  /** A user record. `role` and `company` are optional, as the legacy page's
      type declares them; the store's own type declares them present. */
  datatype User = User(
    id: int,
    firstName: string,
    lastName: string,
    email: string,
    role: Option<string>,
    company: Option<Company>)

  datatype Product = Product(id: int, title: string, category: string, price: real)

  /** One line of a cart: the product, its unit price and the quantity. */
  datatype CartItem = CartItem(id: int, price: real, quantity: int)

  /** A cart, shown as an order. `total` is the service's own figure. */
  datatype Cart = Cart(id: int, userId: int, products: seq<CartItem>, total: real)
}
