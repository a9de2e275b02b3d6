/** The records the store and the screens share: a catalog product and a cart line.

    JavaScript `number`s become unbounded `int`s: prices are whole rupiah and a
    rating is kept in tenths of a star (a rating of 4.8 is 48). An optional field
    (`brand?`, `originalPrice?`, `badge?`, or a catalog entry's `null`) is an `Option`.
 */
module Types {

  datatype Option<+T> = None | Some(value: T)

  /** A catalog product. `sizes` and `colors` are carried by the catalog records
      and read by the product page, although the `Product` interface omits them. */
  datatype Product = Product(
    id: string,
    name: string,
    price: int,
    image: string,
    category: string,
    rating: int,
    description: Option<string>,
    brand: Option<string>,
    originalPrice: Option<int>,
    badge: Option<string>,
    sizes: Option<seq<string>>,
    colors: Option<seq<string>>
  )

  /** A cart line: the product snapshot taken when the line was created, plus a quantity.
      The quantity is a plain integer: nothing in the store keeps it positive. */
  datatype CartItem = CartItem(product: Product, quantity: int)
}
