/** Placing an order from the cart (`handlePlaceOrder` in App.tsx). */
module Ordering {
  import opened Wrappers
  import opened Types
  import opened Text
  import Catalog
  import Checkout

  /**
   * The order number: "BFX-" and the three digits of 100 + `draw`, where
   * `draw` stands for `Math.floor(Math.random() * 900)`; zero-padding to
   * three digits never applies in that range.
   */
  function OrderId(draw: int): (id: string)
    requires 0 <= draw < 900
    ensures |id| == 7 && id[..4] == "BFX-" && AllDigits(id[4..])
    ensures DigitsValue(id[4..]) == draw + 100
  {
    var n := draw + 100;
    var digits := DecimalString(n);
    assert digits == DecimalString(n / 10) + [digits[|digits| - 1]];
    assert DecimalString(n / 10) == DecimalString(n / 100) + [DecimalString(n / 10)[|DecimalString(n / 10)| - 1]];
    DigitsValueOfDecimalString(n);
    var id := "BFX-" + digits;
    assert id[4..] == digits;
    id
  }

  /**
   * The order total as App.tsx computes it: subtotal plus 5 dollars when the
   * subtotal is under 50. It is always the total the checkout summary showed.
   */
  function OrderTotal(cart: seq<CartItem>): (total: int)
    ensures total == Checkout.Total(cart)
  {
    var subtotal := Checkout.Subtotal(cart);
    subtotal + (if subtotal < Checkout.FreeShippingThresholdCents then Checkout.ShippingFeeCents else 0)
  }

  /** Each cart line becomes an order line for the catalog product with that id. */
  function OrderItems(cart: seq<CartItem>, products: seq<Product>): (items: seq<OrderItem>)
    ensures |items| == |cart|
    ensures forall i :: 0 <= i < |cart| ==> items[i].quantity == cart[i].quantity
    ensures forall i :: 0 <= i < |cart| ==> items[i].product == Catalog.FindProduct(products, cart[i].product.id)
  {
    seq(|cart|, i requires 0 <= i < |cart| => OrderItem(Catalog.FindProduct(products, cart[i].product.id), cart[i].quantity))
  }

  /** The application state an order touches. */
  datatype Shop = Shop(currentUser: Option<User>, products: seq<Product>, orders: seq<Order>, cart: seq<CartItem>)

  /** The clock and random inputs of placing an order. */
  datatype Stamp = Stamp(draw: int, today: string, estimatedDelivery: string)

  predicate ValidStamp(t: Stamp)
  {
    0 <= t.draw < 900
  }

  /**
   * `handlePlaceOrder`: without a signed-in user nothing happens; otherwise
   * a 'Processing' order for the cart is put at the front of the order list
   * and the cart is emptied.
   */
  function PlaceOrder(s: Shop, shipping: Address, t: Stamp): (r: Shop)
    requires ValidStamp(t)
    ensures s.currentUser.None? ==> r == s
    ensures r.currentUser == s.currentUser && r.products == s.products
    ensures s.currentUser.Some? ==> |r.orders| == |s.orders| + 1 && r.orders[1..] == s.orders && r.cart == []
    ensures s.currentUser.Some? ==> var o := r.orders[0];
      && o.status == Processing
      && o.customerId == s.currentUser.value.id
      && o.customerName == s.currentUser.value.name
      && o.shippingAddress == shipping
      && o.totalCents == Checkout.Total(s.cart)
      && o.items == OrderItems(s.cart, s.products)
      && o.id == OrderId(t.draw)
      && o.date == t.today
      && o.estimatedDelivery == Some(t.estimatedDelivery)
      && o.carrier.None? && o.trackingNumber.None?
  {
    match s.currentUser
    case None => s
    case Some(user) =>
      var order := Order(
        OrderId(t.draw), user.id, user.name, t.today, Processing,
        OrderItems(s.cart, s.products), OrderTotal(s.cart), shipping,
        None, None, Some(t.estimatedDelivery));
      s.(orders := [order] + s.orders, cart := [])
  }
}
