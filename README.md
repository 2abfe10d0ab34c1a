# Shopping cart model

A Dafny model of the cart logic of a small browser shop demo. A catalog of
products is shown, each product can be added to a shopping cart, and the cart
shows the running total of the prices of what it holds. The model covers the
`Product` record, the `ShoppingCart` item list with its `cartItems` setter,
`addProduct` and the `totalAmount` getter, and `App.addProductToCart`, which
forwards a click to the cart.

- `product.dfy` (module `Products`): `Product` as an immutable datatype and
  `NewProduct` for its constructor.
- `cart.dfy` (module `Cart`): `Sum`, the reference definition of the total
  (the sum of the prices); `FoldPrices`, the left fold from 0 that
  `totalAmount` performs with `reduce`, proved equal to `Sum`; lemmas about
  the total; and the class `ShoppingCart`, whose `items` field is an array
  that `AddProduct` replaces with a fresh, one-longer copy.
- `app.dfy` (module `Shop`): the class `App`, which holds a reference to the
  cart and forwards products to it.

Prices are exact `real` numbers. The source adds JavaScript doubles, so
19.99 + 89.99 is not exactly 109.98 there; the model states what the code
means to compute, the exact sum.

## Model

| member | source | states |
|---|---|---|
| Products.NewProduct | assets/scripts/app.js:3-8 | the constructor keeps each argument as given: `title`, `image` as `imageUrl`, `desc` as `description`, and `price` |
| Cart.FoldPrices | assets/scripts/app.js:58-61 | folding the prices from the left onto a starting value gives that value plus the sum of all prices; from 0 it is exactly the sum |
| Cart.ShoppingCart.TotalAmount | assets/scripts/app.js:57-63 | the total read from the cart is the sum of the prices of its current items; as a function it changes nothing |
| Cart.SumAppend | assets/scripts/app.js:58-61 | the total of two lists joined is the sum of their totals |
| Cart.SumSnoc | assets/scripts/app.js:58-61 | appending one product raises the total by exactly its price |
| Cart.SumRemoveAt | assets/scripts/app.js:58-61 | removing the entry at any position lowers the total by that entry's price |
| Cart.SumPermutation | assets/scripts/app.js:58-61 | two lists holding the same items in any order have the same total, so insertion order affects the display only |
| Cart.AddTwice | assets/scripts/app.js:74-78 | no duplicate check: adding a product twice makes the list two longer, holds two more copies of it, and raises the total by twice its price |
| Cart.ShoppingCart.constructor | assets/scripts/app.js:45 | a new cart holds a fresh empty array and its total is 0 |
| Cart.ShoppingCart.SetCartItems | assets/scripts/app.js:50-51 | the setter makes the given array the cart's list |
| Cart.ShoppingCart.AddProduct | assets/scripts/app.js:74-78 | the new list is a fresh array equal to the old list with the product at the end; the old array's contents are untouched; the total rises by the product's price |
| Shop.App.constructor | assets/scripts/app.js:182 | the application keeps the shop's cart as its cart |
| Shop.App.AddProductToCart | assets/scripts/app.js:185-187 | forwarding appends the product to the cart's list in a fresh array and raises the cart's total by its price |

## Left out

- Rendering: `createRootElement`, every `rendor` and `rendorProducts`
  method, the `innerHTML` writes (including the total display inside the
  `cartItems` setter), `querySelector`, `addEventListener` and the
  `DOMContentLoaded` hook are browser I/O with nothing to prove.
- `toFixed(2)` formatting and IEEE-double addition: prices are exact reals,
  so rounding and non-finite prices are not modelled.
- `orderProducts` only writes to the console.
- The hard-coded catalog in `fetchProducts` is static data.
- `App.init` and the static `App.cart` global beyond storing the cart:
  `App` is a class given its cart explicitly. `Shop`, `ProductList`,
  `ProductItem`, `Component` and `ElementAttribute` are rendering glue.
- The guard `this.#products > 0` in `ProductList.rendor` compares an array
  with a number; it only decides whether products are rendered.
- Arrays in the model have a fixed length, so `push` onto the copy is
  modelled by allocating the copy one slot longer and writing the product
  into the last slot.
