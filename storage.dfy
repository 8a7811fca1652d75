/** The browser's key-value store, one field per key the shop uses. Every page reads the
    "products" and "orders" keys with an empty list as the fallback, so a removed key is
    represented by the empty sequence. */
module Storage {
  import opened Wrappers
  import opened Entities

  class Store {
    var products: seq<Product>
    var orders: seq<Order>
    var adminAuth: Option<string>
    var adminUser: Option<string>
    var customerName: Option<string>
    var currentCart: Option<seq<CartItem>>
    var cartTotal: Option<real>
    var cartSubtotal: Option<real>
    var cartTax: Option<real>
    var paymentMethod: Option<string>

    /** A store with no keys set. */
    constructor ()
      ensures products == [] && orders == []
      ensures adminAuth == None && adminUser == None && customerName == None
      ensures currentCart == None && cartTotal == None && cartSubtotal == None
      ensures cartTax == None && paymentMethod == None
    {
      products, orders := [], [];
      adminAuth, adminUser, customerName := None, None, None;
      currentCart, cartTotal, cartSubtotal, cartTax, paymentMethod := None, None, None, None, None;
    }
  }
}
