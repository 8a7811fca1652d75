/** The storefront cart page (app/shop/cart/page.tsx): the in-stock product list, the cart
    lines with their quantities, the totals and the hand-off to payment. */
module Cart {
  import opened Wrappers
  import opened Seqs
  import opened Entities
  import opened Storage
  import Catalog

  // ---------------------------------------------------------------------------
  // Products offered

  predicate IsInStock(p: Product) {
    p.quantity > 0
  }

  /** The products the page offers: the catalog records with stock left, in catalog order. */
  function InStock(catalog: seq<Product>): (r: seq<Product>)
    ensures forall i :: 0 <= i < |r| ==> r[i] in catalog && r[i].quantity > 0
    ensures forall i :: 0 <= i < |catalog| && catalog[i].quantity > 0 ==> catalog[i] in r
  {
    FilterMembers(catalog, IsInStock);
    Filter(catalog, IsInStock)
  }

  /** What the page relies on of its product list: identifiers are unique and every product has stock. */
  predicate Offered(products: seq<Product>) {
    UniqueIds(products) && forall i :: 0 <= i < |products| ==> products[i].quantity > 0
  }

  /** A catalog with unique identifiers yields a valid offer. */
  lemma InStockOffered(catalog: seq<Product>)
    requires UniqueIds(catalog)
    ensures Offered(InStock(catalog))
  {
    FilterDistinct(catalog, IsInStock, ProductId);
  }

  /** The product grid under the search box: the offered products that match the term
      (the same filter as the admin catalog search), in catalog order. Everything it shows
      is a catalog product with stock, and every such product that matches is shown. */
  lemma ShownInStock(catalog: seq<Product>, term: string)
    ensures var shown := Catalog.Search(InStock(catalog), term);
      forall i :: 0 <= i < |shown| ==>
        shown[i] in catalog && shown[i].quantity > 0 && Catalog.Matches(shown[i], term)
    ensures forall i :: 0 <= i < |catalog| && catalog[i].quantity > 0 && Catalog.Matches(catalog[i], term) ==>
      catalog[i] in Catalog.Search(InStock(catalog), term)
  {
    var offered := InStock(catalog);
    var shown := Catalog.Search(offered, term);
    forall i | 0 <= i < |shown|
      ensures shown[i] in catalog && shown[i].quantity > 0
    {
      var k :| 0 <= k < |offered| && offered[k] == shown[i];
    }
    forall i | 0 <= i < |catalog| && catalog[i].quantity > 0 && Catalog.Matches(catalog[i], term)
      ensures catalog[i] in shown
    {
      var k :| 0 <= k < |offered| && offered[k] == catalog[i];
    }
  }

  // ---------------------------------------------------------------------------
  // Lookups

  function HasLineId(id: string): CartItem -> bool {
    line => LineId(line) == id
  }

  function HasProductId(id: string): Product -> bool {
    p => ProductId(p) == id
  }

  /** `cart.find(item => item.id === id)`: the first line for the product. */
  function FindLine(cart: seq<CartItem>, id: string): (r: Option<CartItem>)
    ensures r.None? <==> forall i :: 0 <= i < |cart| ==> cart[i].product.id != id
    ensures r.Some? ==> r.value in cart && r.value.product.id == id
    ensures r.Some? ==>
      exists k :: 0 <= k < |cart| && cart[k] == r.value && (forall j :: 0 <= j < k ==> cart[j].product.id != id)
  {
    var k := IndexOf(cart, HasLineId(id));
    if k < |cart| then Some(cart[k]) else None
  }

  /** `products.find(p => p.id === id)`: the first product with the identifier. */
  function FindProduct(products: seq<Product>, id: string): (r: Option<Product>)
    ensures r.None? <==> forall i :: 0 <= i < |products| ==> products[i].id != id
    ensures r.Some? ==> r.value in products && r.value.id == id
    ensures r.Some? ==>
      exists k :: 0 <= k < |products| && products[k] == r.value && (forall j :: 0 <= j < k ==> products[j].id != id)
  {
    var k := IndexOf(products, HasProductId(id));
    if k < |products| then Some(products[k]) else None
  }

  // ---------------------------------------------------------------------------
  // Cart operations as values

  /** Every line for `id` with its quantity replaced by `n`. */
  function SetQuantity(cart: seq<CartItem>, id: string, n: int): (r: seq<CartItem>)
    ensures |r| == |cart|
    ensures forall i :: 0 <= i < |cart| ==>
      r[i].product == cart[i].product &&
      r[i].cartQuantity == if cart[i].product.id == id then n else cart[i].cartQuantity
  {
    seq(|cart|, i requires 0 <= i < |cart| =>
      if cart[i].product.id == id then cart[i].(cartQuantity := n) else cart[i])
  }

  /** Every line for `id` with one more unit. */
  function Incremented(cart: seq<CartItem>, id: string): (r: seq<CartItem>)
    ensures |r| == |cart|
    ensures forall i :: 0 <= i < |cart| ==>
      r[i].product == cart[i].product &&
      r[i].cartQuantity == if cart[i].product.id == id then cart[i].cartQuantity + 1 else cart[i].cartQuantity
  {
    seq(|cart|, i requires 0 <= i < |cart| =>
      if cart[i].product.id == id then cart[i].(cartQuantity := cart[i].cartQuantity + 1) else cart[i])
  }

  /** The cart after `addToCart(p)`: a new line with one unit when the product is not in
      the cart yet; one more unit on its line while that stays within the product's stock;
      otherwise the cart as it was. */
  function WithAdded(cart: seq<CartItem>, p: Product): (r: seq<CartItem>)
    ensures FindLine(cart, p.id).None? ==> r == cart + [CartItem(p, 1)]
    ensures FindLine(cart, p.id).Some? && FindLine(cart, p.id).value.cartQuantity < p.quantity ==>
      r == Incremented(cart, p.id)
    ensures FindLine(cart, p.id).Some? ==> |r| == |cart|
    ensures r == cart <==>
      FindLine(cart, p.id).Some? && FindLine(cart, p.id).value.cartQuantity >= p.quantity
  {
    match FindLine(cart, p.id)
    case None => cart + [CartItem(p, 1)]
    case Some(line) =>
      if line.cartQuantity < p.quantity then
        var r := Incremented(cart, p.id);
        assert line in cart;
        var k :| 0 <= k < |cart| && cart[k] == line;
        assert r[k] != cart[k];
        r
      else cart
  }

  function OtherLine(id: string): CartItem -> bool {
    line => LineId(line) != id
  }

  /** `removeFromCart(id)`: the cart without the product's lines, the others in order. */
  function WithoutLine(cart: seq<CartItem>, id: string): (r: seq<CartItem>)
    ensures forall i :: 0 <= i < |r| ==> r[i] in cart && r[i].product.id != id
    ensures forall i :: 0 <= i < |cart| && cart[i].product.id != id ==> cart[i] in r
  {
    FilterMembers(cart, OtherLine(id));
    Filter(cart, OtherLine(id))
  }

  /** The cart after `updateCartQuantity(id, n)`: 0 removes the product's lines; another
      value is set when the product is offered and has at least `n` units in stock;
      otherwise the cart is kept. */
  function WithQuantity(cart: seq<CartItem>, products: seq<Product>, id: string, n: int): (r: seq<CartItem>)
    ensures n == 0 ==> r == WithoutLine(cart, id)
    ensures n != 0 && FindProduct(products, id).Some? && n <= FindProduct(products, id).value.quantity ==>
      r == SetQuantity(cart, id, n)
    ensures n != 0 && !(FindProduct(products, id).Some? && n <= FindProduct(products, id).value.quantity) ==>
      r == cart
  {
    if n == 0 then WithoutLine(cart, id)
    else match FindProduct(products, id)
      case Some(p) => if n <= p.quantity then SetQuantity(cart, id, n) else cart
      case None => cart
  }

  // ---------------------------------------------------------------------------
  // The cart invariant

  /** The cart lines are for distinct products of the offer, each with between one unit
      and that product's stock. */
  predicate Consistent(cart: seq<CartItem>, products: seq<Product>) {
    && DistinctBy(cart, LineId)
    && forall i :: 0 <= i < |cart| ==>
         cart[i].product in products && 1 <= cart[i].cartQuantity <= cart[i].product.quantity
  }

  /** Two offered products with the same identifier are the same product. */
  lemma SameIdSameProduct(products: seq<Product>, p: Product, q: Product)
    requires UniqueIds(products) && p in products && q in products && p.id == q.id
    ensures p == q
  {
    var i :| 0 <= i < |products| && products[i] == p;
    var j :| 0 <= j < |products| && products[j] == q;
    DistinctByKey(products, ProductId, i, j);
  }

  /** Adding an offered product keeps the cart consistent: in particular no line ever
      holds more units than the product's stock. */
  lemma AddKeepsConsistent(cart: seq<CartItem>, products: seq<Product>, p: Product)
    requires Offered(products) && Consistent(cart, products) && p in products
    ensures Consistent(WithAdded(cart, p), products)
  {
    var r := WithAdded(cart, p);
    match FindLine(cart, p.id)
    case None =>
      forall i, j | 0 <= i < j < |r| ensures LineId(r[i]) != LineId(r[j]) {
        if j == |cart| { assert r[i] == cart[i]; }
      }
      var k :| 0 <= k < |products| && products[k] == p;
    case Some(line) =>
      if line.cartQuantity < p.quantity {
        forall i | 0 <= i < |cart| && cart[i].product.id == p.id
          ensures cart[i].cartQuantity + 1 <= cart[i].product.quantity
        {
          SameIdSameProduct(products, cart[i].product, p);
          SameIdSameProduct(products, line.product, p);
          var k :| 0 <= k < |cart| && cart[k] == line;
          DistinctByKey(cart, LineId, k, i);
        }
        forall i, j | 0 <= i < j < |r| ensures LineId(r[i]) != LineId(r[j]) {
          assert LineId(cart[i]) != LineId(cart[j]);
        }
      }
  }

  /** Setting a quantity the page can request (never negative) keeps the cart consistent. */
  lemma UpdateKeepsConsistent(cart: seq<CartItem>, products: seq<Product>, id: string, n: int)
    requires Offered(products) && Consistent(cart, products) && n >= 0
    ensures Consistent(WithQuantity(cart, products, id, n), products)
  {
    if n == 0 {
      RemoveKeepsConsistent(cart, products, id);
    } else if FindProduct(products, id).Some? && n <= FindProduct(products, id).value.quantity {
      var p := FindProduct(products, id).value;
      var r := SetQuantity(cart, id, n);
      forall i | 0 <= i < |cart| && cart[i].product.id == id ensures n <= cart[i].product.quantity {
        SameIdSameProduct(products, cart[i].product, p);
      }
      forall i, j | 0 <= i < j < |r| ensures LineId(r[i]) != LineId(r[j]) {
        assert LineId(cart[i]) != LineId(cart[j]);
      }
    }
  }

  /** Removing a product's lines keeps the cart consistent. */
  lemma RemoveKeepsConsistent(cart: seq<CartItem>, products: seq<Product>, id: string)
    requires Consistent(cart, products)
    ensures Consistent(WithoutLine(cart, id), products)
  {
    FilterDistinct(cart, OtherLine(id), LineId);
  }

  // ---------------------------------------------------------------------------
  // Totals

  function LineTotal(line: CartItem): real {
    line.product.sellPrice * line.cartQuantity as real
  }

  /** `getSubtotal`: the sum of unit price times quantity over the lines. */
  function Subtotal(cart: seq<CartItem>): (r: real)
    ensures (forall i :: 0 <= i < |cart| ==> cart[i].product.sellPrice >= 0.0 && cart[i].cartQuantity >= 0) ==>
      r >= 0.0
  {
    if cart == [] then 0.0 else Subtotal(cart[..|cart| - 1]) + LineTotal(cart[|cart| - 1])
  }

  /** `getTaxAmount`: a fixed 5% of the subtotal. */
  function Tax(cart: seq<CartItem>): (r: real)
    ensures 20.0 * r == Subtotal(cart)
    ensures Subtotal(cart) >= 0.0 ==> 0.0 <= r <= Subtotal(cart)
  {
    Subtotal(cart) * 0.05
  }

  /** `getFinalTotal`: subtotal plus tax, which is 105% of the subtotal. */
  function FinalTotal(cart: seq<CartItem>): (r: real)
    ensures r == 1.05 * Subtotal(cart)
    ensures Subtotal(cart) >= 0.0 ==> r >= Subtotal(cart)
  {
    Subtotal(cart) + Tax(cart)
  }

  /** `getTotalItems`: the number of units over all lines. */
  function TotalItems(cart: seq<CartItem>): (r: int)
    ensures (forall i :: 0 <= i < |cart| ==> cart[i].cartQuantity >= 1) ==> r >= |cart|
  {
    if cart == [] then 0 else TotalItems(cart[..|cart| - 1]) + cart[|cart| - 1].cartQuantity
  }

  /** Appending a line adds its amount and its units. */
  lemma TotalsSnoc(cart: seq<CartItem>, line: CartItem)
    ensures Subtotal(cart + [line]) == Subtotal(cart) + LineTotal(line)
    ensures TotalItems(cart + [line]) == TotalItems(cart) + line.cartQuantity
  {
    assert (cart + [line])[..|cart|] == cart;
  }

  /** Changing one line changes the totals by that line's difference. */
  lemma {:induction false} TotalsPointUpdate(a: seq<CartItem>, b: seq<CartItem>, k: nat)
    requires |a| == |b| && k < |a|
    requires forall i :: 0 <= i < |a| && i != k ==> a[i] == b[i]
    ensures Subtotal(b) == Subtotal(a) - LineTotal(a[k]) + LineTotal(b[k])
    ensures TotalItems(b) == TotalItems(a) - a[k].cartQuantity + b[k].cartQuantity
    decreases |a|
  {
    var n := |a|;
    if k == n - 1 {
      assert a[..n - 1] == b[..n - 1];
    } else {
      TotalsPointUpdate(a[..n - 1], b[..n - 1], k);
    }
  }

  /** Incrementing the one line of a product adds one unit at its price. */
  lemma IncrementTotals(cart: seq<CartItem>, k: nat)
    requires DistinctBy(cart, LineId) && k < |cart|
    ensures var r := Incremented(cart, cart[k].product.id);
      Subtotal(r) == Subtotal(cart) + cart[k].product.sellPrice &&
      TotalItems(r) == TotalItems(cart) + 1
  {
    var r := Incremented(cart, cart[k].product.id);
    IncrementOnlyAt(cart, k);
    var a, b := LineTotal(cart[k]), LineTotal(r[k]);
    assert b == a + cart[k].product.sellPrice by {
      assert r[k] == cart[k].(cartQuantity := cart[k].cartQuantity + 1);
      OneMoreUnit(cart[k]);
    }
    assert Subtotal(r) == Subtotal(cart) - a + b && TotalItems(r) == TotalItems(cart) + 1 by {
      TotalsPointUpdate(cart, r, k);
    }
  }

  /** With distinct lines, incrementing a product touches only its line. */
  lemma IncrementOnlyAt(cart: seq<CartItem>, k: nat)
    requires DistinctBy(cart, LineId) && k < |cart|
    ensures var r := Incremented(cart, cart[k].product.id);
      forall i :: 0 <= i < |cart| && i != k ==> r[i] == cart[i]
  {
    var id := cart[k].product.id;
    var r := Incremented(cart, id);
    forall i | 0 <= i < |cart| && i != k ensures r[i] == cart[i] {
      if LineId(cart[i]) == id { DistinctByKey(cart, LineId, i, k); }
    }
  }

  lemma OneMoreUnit(line: CartItem)
    ensures LineTotal(line.(cartQuantity := line.cartQuantity + 1)) == LineTotal(line) + line.product.sellPrice
  {
    var price, q := line.product.sellPrice, line.cartQuantity as real;
    assert price * (q + 1.0) == price * q + price;
  }

  /** Adding an offered product either leaves the cart as it was or adds exactly one unit
      at that product's price. */
  lemma AddTotals(cart: seq<CartItem>, products: seq<Product>, p: Product)
    requires Offered(products) && Consistent(cart, products) && p in products
    ensures var r := WithAdded(cart, p);
      r == cart ||
      (Subtotal(r) == Subtotal(cart) + p.sellPrice && TotalItems(r) == TotalItems(cart) + 1)
  {
    var found := FindLine(cart, p.id);
    if found.None? {
      TotalsSnoc(cart, CartItem(p, 1));
    } else if found.value.cartQuantity < p.quantity {
      var line := found.value;
      var k :| 0 <= k < |cart| && cart[k] == line;
      SameIdSameProduct(products, line.product, p);
      IncrementTotals(cart, k);
    }
  }

  /** The totals of the cart in the scenario of one line of two units at 15. */
  lemma TotalsScenario(p: Product)
    requires p.sellPrice == 15.0
    ensures var cart := [CartItem(p, 2)];
      Subtotal(cart) == 30.0 && Tax(cart) == 1.5 && FinalTotal(cart) == 31.5 && TotalItems(cart) == 2
  {
    var cart := [CartItem(p, 2)];
    assert cart[..0] == [];
  }

  // ---------------------------------------------------------------------------
  // The page

  class CartPage {
    /** The offered products, loaded once from the catalog. */
    var products: seq<Product>
    var cart: seq<CartItem>

    ghost predicate Valid()
      reads this
    {
      Offered(products) && Consistent(cart, products)
    }

    /** Loading the page: offer the in-stock catalog products, start with an empty cart. */
    constructor (catalog: seq<Product>)
      ensures products == InStock(catalog) && cart == []
      ensures UniqueIds(catalog) ==> Valid()
    {
      products := InStock(catalog);
      cart := [];
      if UniqueIds(catalog) {
        InStockOffered(catalog);
      }
    }

    /** `addToCart`. */
    method AddToCart(p: Product)
      modifies this`cart
      ensures cart == WithAdded(old(cart), p)
      ensures old(Valid()) && p in products ==> Valid()
    {
      ghost var before, wasValid := cart, Valid();
      var existing := FindLine(cart, p.id);
      if existing.Some? {
        if existing.value.cartQuantity < p.quantity {
          cart := Incremented(cart, p.id);
        }
      } else {
        cart := cart + [CartItem(p, 1)];
      }
      if wasValid && p in products {
        AddKeepsConsistent(before, products, p);
      }
    }

    /** `updateCartQuantity`. */
    method UpdateCartQuantity(id: string, n: int)
      modifies this`cart
      ensures cart == WithQuantity(old(cart), products, id, n)
      ensures old(Valid()) && n >= 0 ==> Valid()
    {
      if Valid() && n >= 0 {
        UpdateKeepsConsistent(cart, products, id, n);
      }
      if n == 0 {
        RemoveFromCart(id);
        return;
      }
      var product := FindProduct(products, id);
      if product.Some? && n <= product.value.quantity {
        cart := SetQuantity(cart, id, n);
      }
    }

    /** `removeFromCart`. */
    method RemoveFromCart(id: string)
      modifies this`cart
      ensures cart == WithoutLine(old(cart), id)
      ensures old(Valid()) ==> Valid()
    {
      if Valid() {
        RemoveKeepsConsistent(cart, products, id);
      }
      cart := WithoutLine(cart, id);
    }

    /** `handleProceedToPayment`: an empty cart writes nothing; otherwise the cart and its
        three amounts are stored for the payment pages. */
    method ProceedToPayment(s: Store)
      modifies s`currentCart, s`cartTotal, s`cartSubtotal, s`cartTax
      ensures cart == [] ==> unchanged(s)
      ensures cart != [] ==>
        && s.currentCart == Some(cart)
        && s.cartTotal == Some(FinalTotal(cart))
        && s.cartSubtotal == Some(Subtotal(cart))
        && s.cartTax == Some(Tax(cart))
    {
      if |cart| == 0 {
        return;
      }
      s.currentCart := Some(cart);
      s.cartTotal := Some(FinalTotal(cart));
      s.cartSubtotal := Some(Subtotal(cart));
      s.cartTax := Some(Tax(cart));
    }
  }
}
