/** Catalog entries of the shop (the `Product` class). */
module Products {

  /** A product record. Its four fields are set once, by the constructor,
      and never changed afterwards, so it is a value. The price is an exact
      real number rather than an IEEE double. */
  datatype Product = Product(title: string, imageUrl: string, description: string, price: real)

  /** The `Product` constructor: every argument is stored unchanged, with
      `image` becoming `imageUrl` and `desc` becoming `description`. */
  function NewProduct(title: string, image: string, desc: string, price: real): (p: Product)
    ensures p.title == title && p.imageUrl == image
    ensures p.description == desc && p.price == price
  {
    Product(title, image, desc, price)
  }
}
