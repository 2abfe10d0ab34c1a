/** The application object that routes "add to cart" clicks into the cart. */
module Shop {
  import opened Products
  import opened Cart

  /** `App`, holding the shop's cart as an explicit reference instead of a
      static global. */
  class App {
    var cart: ShoppingCart

    /** `init`'s assignment of the shop's cart to the application. */
    constructor (cart: ShoppingCart)
      ensures this.cart == cart
    {
      this.cart := cart;
    }

    /** `addProductToCart`: forwards the product to the cart's `addProduct`. */
    method AddProductToCart(product: Product)
      modifies cart
      ensures fresh(cart.items)
      ensures cart.items[..] == old(cart.items[..]) + [product]
      ensures cart.TotalAmount() == old(cart.TotalAmount()) + product.price
    {
      cart.AddProduct(product);
    }
  }
}
