/** Finalising a purchase on the payment-success page (app/shop/payment/success/page.tsx):
    decrement stock, append the order to the ledger and clear the transient checkout keys. */
module Checkout {
  import opened Wrappers
  import opened Seqs
  import opened Text
  import opened Entities
  import opened Storage
  import opened Cart

  // ---------------------------------------------------------------------------
  // Order number and payment method

  /** `NM` followed by the last eight characters of the timestamp's decimal string. */
  function OrderNumber(ms: nat): string {
    "NM" + TakeLast(Decimal(ms), 8)
  }

  /** An order number is `NM` and at most eight digits that spell the timestamp modulo
      `10^8`; from 10^7 ms on it is always ten characters long. */
  lemma OrderNumberShape(ms: nat)
    ensures var id := OrderNumber(ms);
      && 3 <= |id| <= 10 && id[..2] == "NM"
      && (forall i :: 2 <= i < |id| ==> IsDigit(id[i]))
      && Value(id[2..]) == ms % Pow10(8)
      && (ms >= Pow10(7) ==> |id| == 10)
  {
    var digits := TakeLast(Decimal(ms), 8);
    LastDigitsValue(ms, 8);
    DecimalLength(ms, 7);
    assert ("NM" + digits)[2..] == digits;
  }

  /** A number of at least `10^k` has more than `k` digits. */
  lemma {:induction false} DecimalLength(n: nat, k: nat)
    ensures n >= Pow10(k) ==> |Decimal(n)| > k
    decreases k
  {
    if k > 0 && n >= Pow10(k) {
      assert n / 10 >= Pow10(k - 1);
      DecimalLength(n / 10, k - 1);
    }
  }

  /** `paymentMethod || "cash"`: the stored payment method, or cash when none is stored. */
  function PaymentMethodOrCash(stored: Option<string>): (r: string)
    ensures r != ""
    ensures stored.Some? && stored.value != "" ==> r == stored.value
    ensures stored.None? || stored.value == "" ==> r == "cash"
  {
    if stored.Some? && stored.value != "" then stored.value else "cash"
  }

  // ---------------------------------------------------------------------------
  // Stock decrement

  /** The units of `p` bought in `items`: the quantity on its first line, or 0. */
  function Taken(p: Product, items: seq<CartItem>): int {
    match FindLine(items, p.id)
    case Some(line) => line.cartQuantity
    case None => 0
  }

  /** One catalog record after the sale: its stock lowered by the units bought, never below 0. */
  function Decremented(p: Product, items: seq<CartItem>): Product {
    match FindLine(items, p.id)
    case Some(line) => p.(quantity := if p.quantity - line.cartQuantity < 0 then 0 else p.quantity - line.cartQuantity)
    case None => p
  }

  /** The catalog after the sale: same length and order; a record with a cart line keeps
      every field but its quantity, which becomes `max(0, quantity - units bought)`; a
      record without one is unchanged. */
  function DecrementStock(products: seq<Product>, items: seq<CartItem>): (r: seq<Product>)
    ensures |r| == |products|
    ensures forall i :: 0 <= i < |r| ==> r[i] == products[i].(quantity := r[i].quantity)
    ensures forall i :: 0 <= i < |r| && FindLine(items, products[i].id).None? ==> r[i] == products[i]
    ensures forall i :: 0 <= i < |r| && FindLine(items, products[i].id).Some? ==>
      r[i].quantity >= 0 &&
      r[i].quantity >= products[i].quantity - FindLine(items, products[i].id).value.cartQuantity &&
      (r[i].quantity == 0 || r[i].quantity == products[i].quantity - FindLine(items, products[i].id).value.cartQuantity)
  {
    seq(|products|, i requires 0 <= i < |products| => Decremented(products[i], items))
  }

  function TotalStock(products: seq<Product>): int {
    if products == [] then 0 else TotalStock(products[..|products| - 1]) + products[|products| - 1].quantity
  }

  function TotalTaken(products: seq<Product>, items: seq<CartItem>): int {
    if products == [] then 0
    else TotalTaken(products[..|products| - 1], items) + Taken(products[|products| - 1], items)
  }

  /** When no line asks for more than the stock, the decrement removes exactly the units taken. */
  lemma {:induction false} DecrementRemovesTaken(products: seq<Product>, items: seq<CartItem>)
    requires forall i :: 0 <= i < |products| && FindLine(items, products[i].id).Some? ==>
      0 <= FindLine(items, products[i].id).value.cartQuantity <= products[i].quantity
    ensures TotalStock(DecrementStock(products, items)) == TotalStock(products) - TotalTaken(products, items)
    decreases |products|
  {
    if products != [] {
      var n := |products|;
      DecrementRemovesTaken(products[..n - 1], items);
      assert DecrementStock(products, items)[..n - 1] == DecrementStock(products[..n - 1], items);
    }
  }

  /** Number of catalog records with the identifier. */
  function CountId(products: seq<Product>, id: string): nat {
    if products == [] then 0
    else CountId(products[..|products| - 1], id) + (if products[|products| - 1].id == id then 1 else 0)
  }

  /** With unique identifiers, a present identifier occurs exactly once. */
  lemma {:induction false} CountIdUnique(products: seq<Product>, id: string)
    requires UniqueIds(products)
    ensures CountId(products, id) == if HasId(products, id) then 1 else 0
    decreases |products|
  {
    if products != [] {
      var n := |products|;
      var init := products[..n - 1];
      assert UniqueIds(init);
      CountIdUnique(init, id);
      if HasId(products, id) && !HasId(init, id) {
        var j :| 0 <= j < n && products[j].id == id;
        assert j == n - 1;
      }
    }
  }

  /** Appending a line for a product not yet in the cart adds its units once per catalog
      record carrying that product's identifier. */
  lemma {:induction false} TakenSnoc(ps: seq<Product>, items: seq<CartItem>, line: CartItem)
    requires FindLine(items, line.product.id).None?
    ensures TotalTaken(ps, items + [line]) ==
      TotalTaken(ps, items) + line.cartQuantity * CountId(ps, line.product.id)
    decreases |ps|
  {
    if ps != [] {
      var n := |ps|;
      var init, p := ps[..n - 1], ps[n - 1];
      var c, q := CountId(init, line.product.id), line.cartQuantity;
      var e := if p.id == line.product.id then 1 else 0;
      assert q * (c + e) == q * c + q * e by {
        if e == 1 { assert q * (c + 1) == q * c + q; }
      }
      assert TotalTaken(init, items + [line]) == TotalTaken(init, items) + q * c by {
        TakenSnoc(init, items, line);
      }
      assert Taken(p, items + [line]) == Taken(p, items) + q * e by {
        TakenOneMore(p, items, line);
      }
      assert CountId(ps, line.product.id) == c + e;
    }
  }

  /** The units of `p` taken by a cart with one more line. */
  lemma TakenOneMore(p: Product, items: seq<CartItem>, line: CartItem)
    requires FindLine(items, line.product.id).None?
    ensures Taken(p, items + [line]) == Taken(p, items) + (if p.id == line.product.id then line.cartQuantity else 0)
  {
    IndexOfSnoc(items, line, HasLineId(p.id));
    if p.id == line.product.id {
      assert IndexOf(items, HasLineId(p.id)) == |items|;
    }
  }

  lemma {:induction false} IndexOfSnoc<T>(s: seq<T>, x: T, found: T -> bool)
    ensures IndexOf(s + [x], found) ==
      if IndexOf(s, found) < |s| then IndexOf(s, found) else if found(x) then |s| else |s| + 1
    decreases |s|
  {
    if s != [] {
      assert (s + [x])[1..] == s[1..] + [x];
      IndexOfSnoc(s[1..], x, found);
    }
  }

  lemma {:induction false} TotalTakenNothing(ps: seq<Product>)
    ensures TotalTaken(ps, []) == 0
    decreases |ps|
  {
    if ps != [] {
      TotalTakenNothing(ps[..|ps| - 1]);
    }
  }

  /** When every cart line is for a distinct product of the catalog, the catalog takes
      exactly the cart's units. */
  lemma {:induction false} TakenIsTotalItems(ps: seq<Product>, items: seq<CartItem>)
    requires UniqueIds(ps) && DistinctBy(items, LineId)
    requires forall i :: 0 <= i < |items| ==> items[i].product in ps
    ensures TotalTaken(ps, items) == TotalItems(items)
    decreases |items|
  {
    if items == [] {
      TotalTakenNothing(ps);
    } else {
      var n := |items|;
      var init, line := items[..n - 1], items[n - 1];
      assert items == init + [line];
      TakenIsTotalItems(ps, init);
      forall i | 0 <= i < |init| ensures init[i].product.id != line.product.id {
        assert LineId(items[i]) != LineId(items[n - 1]);
      }
      TakenSnoc(ps, init, line);
      var k :| 0 <= k < |ps| && ps[k] == line.product;
      CountIdUnique(ps, line.product.id);
      TotalsSnoc(init, line);
    }
  }

  /** Stock conservation: for a consistent cart over a catalog with unique identifiers
      the floor at 0 never applies, and the catalog loses exactly the units sold. */
  lemma StockConservation(catalog: seq<Product>, cart: seq<CartItem>)
    requires UniqueIds(catalog) && Consistent(cart, catalog)
    ensures TotalStock(DecrementStock(catalog, cart)) == TotalStock(catalog) - TotalItems(cart)
  {
    forall i | 0 <= i < |catalog| && FindLine(cart, catalog[i].id).Some?
      ensures 0 <= FindLine(cart, catalog[i].id).value.cartQuantity <= catalog[i].quantity
    {
      var found := FindLine(cart, catalog[i].id);
      var k :| 0 <= k < |cart| && cart[k] == found.value;
      assert catalog[i] in catalog;
      SameIdSameProduct(catalog, found.value.product, catalog[i]);
    }
    DecrementRemovesTaken(catalog, cart);
    TakenIsTotalItems(catalog, cart);
  }

  /** A cart built on the cart page is also consistent with the full catalog it came from. */
  lemma ConsistentWithCatalog(cart: seq<CartItem>, catalog: seq<Product>)
    requires Consistent(cart, InStock(catalog))
    ensures Consistent(cart, catalog)
  {
  }

  // ---------------------------------------------------------------------------
  // Finalisation

  /** The guard of the page: a customer name, a stored cart and a stored total. */
  predicate ReadyToFinalise(s: Store)
    reads s
  {
    s.customerName.Some? && s.customerName.value != "" && s.currentCart.Some? && s.cartTotal.Some?
  }

  /** The ledger record for the sale: the cart lines, the stored total, the customer's
      name, the payment method (cash by default) and an identifier from the timestamp. */
  function NewOrder(name: string, items: seq<CartItem>, total: real, stored: Option<string>, now: Instant): Order {
    Order(OrderNumber(now.ms), name, items, Some(total), PaymentMethodOrCash(stored), now.date, now.ms)
  }

  /** The effect of the payment-success page: with the guard met, decrement stock, append
      one order and remove the cart, total and payment-method keys; otherwise write nothing.
      The customer name and the stored subtotal and tax stay. */
  method Finalise(s: Store, now: Instant)
    modifies s`products, s`orders, s`currentCart, s`cartTotal, s`paymentMethod
    ensures !old(ReadyToFinalise(s)) ==> unchanged(s)
    ensures old(ReadyToFinalise(s)) ==>
      && s.products == DecrementStock(old(s.products), old(s.currentCart.value))
      && s.orders == old(s.orders) +
           [NewOrder(old(s.customerName.value), old(s.currentCart.value), old(s.cartTotal.value), old(s.paymentMethod), now)]
      && s.currentCart == None && s.cartTotal == None && s.paymentMethod == None
  {
    var name, cartData, cartTotal, stored := s.customerName, s.currentCart, s.cartTotal, s.paymentMethod;
    if name.None? || name.value == "" || cartData.None? || cartTotal.None? {
      return;
    }
    var items := cartData.value;
    s.products := DecrementStock(s.products, items);
    var order := NewOrder(name.value, items, cartTotal.value, stored, now);
    var existingOrders := s.orders;
    existingOrders := existingOrders + [order];
    s.orders := existingOrders;
    s.currentCart, s.cartTotal, s.paymentMethod := None, None, None;
  }

  /** Reloading the success page after a sale: the keys are gone, so the second run writes
      nothing and the ledger holds one new order, not two. */
  method FinaliseThenReload(s: Store, now: Instant, later: Instant)
    modifies s`products, s`orders, s`currentCart, s`cartTotal, s`paymentMethod
    ensures |s.orders| == |old(s.orders)| + (if old(ReadyToFinalise(s)) then 1 else 0)
    ensures old(ReadyToFinalise(s)) ==> s.products == DecrementStock(old(s.products), old(s.currentCart.value))
  {
    Finalise(s, now);
    Finalise(s, later);
  }
}
