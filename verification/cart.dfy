/**
 * The shopping cart held by App.tsx: add with merge, quantity update where a
 * non-positive quantity removes the line, and removal by product id.
 */
module Cart {
  import opened Types
  import opened Seqs

  /** No two cart lines share a product id. */
  predicate UniqueIds(cart: seq<CartItem>)
  {
    forall i, j :: 0 <= i < j < |cart| ==> cart[i].product.id != cart[j].product.id
  }

  /** Some line of the cart is for product `id` (`prevItems.find(item => item.id === id)`). */
  predicate HasLine(cart: seq<CartItem>, id: int)
  {
    exists i :: 0 <= i < |cart| && cart[i].product.id == id
  }

  /** The total quantity the cart holds of product `id`, over all its lines. */
  function QuantityOf(cart: seq<CartItem>, id: int): int
  {
    if |cart| == 0 then 0
    else (if cart[0].product.id == id then cart[0].quantity else 0) + QuantityOf(cart[1..], id)
  }

  /** Add `delta` to the quantity of every line for product `id`. */
  function Bump(cart: seq<CartItem>, id: int, delta: int): (r: seq<CartItem>)
    ensures |r| == |cart|
    ensures forall i :: 0 <= i < |cart| ==> r[i].product == cart[i].product
    ensures forall i :: 0 <= i < |cart| ==>
      r[i].quantity == cart[i].quantity + (if cart[i].product.id == id then delta else 0)
  {
    if |cart| == 0 then []
    else
      var head := if cart[0].product.id == id then cart[0].(quantity := cart[0].quantity + delta) else cart[0];
      [head] + Bump(cart[1..], id, delta)
  }

  /** Set the quantity of every line for product `id` to `quantity`. */
  function SetQuantity(cart: seq<CartItem>, id: int, quantity: int): (r: seq<CartItem>)
    ensures |r| == |cart|
    ensures forall i :: 0 <= i < |cart| ==> r[i].product == cart[i].product
    ensures forall i :: 0 <= i < |cart| ==>
      r[i].quantity == if cart[i].product.id == id then quantity else cart[i].quantity
  {
    if |cart| == 0 then []
    else
      var head := if cart[0].product.id == id then cart[0].(quantity := quantity) else cart[0];
      [head] + SetQuantity(cart[1..], id, quantity)
  }

  /** The test that keeps every line not for product `id`. */
  function NotFor(id: int): CartItem -> bool
  {
    (item: CartItem) => item.product.id != id
  }

  /**
   * `handleRemoveFromCart`: drop every line for product `id`; the other lines
   * stay, in their order.
   */
  function RemoveFromCart(cart: seq<CartItem>, id: int): (r: seq<CartItem>)
    ensures !HasLine(r, id)
    ensures forall item :: item in r <==> item in cart && item.product.id != id
    ensures IsSubsequence(r, cart)
  {
    var r := Filter(NotFor(id), cart);
    assert forall i :: 0 <= i < |r| ==> r[i] in r;
    r
  }

  /**
   * `handleAddToCart` (the default quantity is 1): a product already in the
   * cart has its line's quantity raised by `quantity` and keeps the line's
   * original product snapshot; a new product is appended as one line.
   */
  function AddToCart(cart: seq<CartItem>, product: Product, quantity: int := 1): (r: seq<CartItem>)
    ensures HasLine(r, product.id)
    ensures HasLine(cart, product.id) ==>
      (|r| == |cart| && forall i :: 0 <= i < |cart| ==> r[i].product == cart[i].product)
    ensures !HasLine(cart, product.id) ==> r == cart + [CartItem(product, quantity)]
    ensures UniqueIds(cart) ==> UniqueIds(r)
    ensures UniqueIds(cart) ==> QuantityOf(r, product.id) == QuantityOf(cart, product.id) + quantity
    ensures forall other :: other != product.id ==> QuantityOf(r, other) == QuantityOf(cart, other)
  {
    if HasLine(cart, product.id) then
      var r := Bump(cart, product.id, quantity);
      assert forall i :: 0 <= i < |r| ==> r[i].product.id == cart[i].product.id;
      BumpQuantity(cart, product.id, quantity);
      r
    else
      var r := cart + [CartItem(product, quantity)];
      assert r[|cart|].product.id == product.id;
      QuantityOfAppend(cart, CartItem(product, quantity));
      r
  }

  /**
   * `handleUpdateCartQuantity`: a quantity of zero or less removes the lines
   * for `id`; a positive one becomes those lines' quantity. Nothing else changes.
   */
  function UpdateQuantity(cart: seq<CartItem>, id: int, newQuantity: int): (r: seq<CartItem>)
    ensures newQuantity <= 0 ==> !HasLine(r, id) && IsSubsequence(r, cart)
    ensures newQuantity > 0 ==> |r| == |cart| && HasLine(r, id) == HasLine(cart, id)
    ensures newQuantity > 0 ==> forall i :: 0 <= i < |cart| ==>
      r[i].product == cart[i].product
      && r[i].quantity == (if cart[i].product.id == id then newQuantity else cart[i].quantity)
    ensures newQuantity <= 0 ==> forall item :: item in r <==> item in cart && item.product.id != id
    ensures UniqueIds(cart) ==> UniqueIds(r)
    ensures UniqueIds(cart) && HasLine(cart, id) ==> QuantityOf(r, id) == if newQuantity <= 0 then 0 else newQuantity
    ensures forall other :: other != id ==> QuantityOf(r, other) == QuantityOf(cart, other)
  {
    if newQuantity <= 0 then
      var r := RemoveFromCart(cart, id);
      RemoveQuantity(cart, id);
      RemoveKeepsUnique(cart, id);
      r
    else
      var r := SetQuantity(cart, id, newQuantity);
      assert forall i :: 0 <= i < |r| ==> r[i].product.id == cart[i].product.id;
      SetQuantityQuantity(cart, id, newQuantity);
      r
  }

  lemma {:induction false} QuantityOfAppend(cart: seq<CartItem>, item: CartItem)
    ensures forall id ::
      QuantityOf(cart + [item], id) == QuantityOf(cart, id) + (if item.product.id == id then item.quantity else 0)
    decreases |cart|
  {
    if |cart| > 0 {
      assert (cart + [item])[1..] == cart[1..] + [item];
      QuantityOfAppend(cart[1..], item);
    } else {
      assert cart + [item] == [item];
    }
  }

  /** With one line per product, the quantity of `id` is that line's quantity. */
  lemma {:induction false} QuantityOfUniqueLine(cart: seq<CartItem>, k: int)
    requires UniqueIds(cart) && 0 <= k < |cart|
    ensures QuantityOf(cart, cart[k].product.id) == cart[k].quantity
    decreases |cart|
  {
    var id := cart[k].product.id;
    if k == 0 {
      QuantityOfAbsent(cart[1..], id);
    } else {
      QuantityOfUniqueLine(cart[1..], k - 1);
    }
  }

  lemma {:induction false} QuantityOfAbsent(cart: seq<CartItem>, id: int)
    requires !HasLine(cart, id)
    ensures QuantityOf(cart, id) == 0
    decreases |cart|
  {
    if |cart| > 0 {
      QuantityOfAbsent(cart[1..], id);
    }
  }

  /** Bumping product `id` leaves every other product's quantity alone. */
  lemma {:induction false} BumpKeepsOthers(cart: seq<CartItem>, id: int, delta: int, other: int)
    requires other != id
    ensures QuantityOf(Bump(cart, id, delta), other) == QuantityOf(cart, other)
    decreases |cart|
  {
    if |cart| > 0 {
      BumpKeepsOthers(cart[1..], id, delta, other);
      assert Bump(cart, id, delta)[1..] == Bump(cart[1..], id, delta);
    }
  }

  lemma BumpQuantity(cart: seq<CartItem>, id: int, delta: int)
    ensures UniqueIds(cart) && HasLine(cart, id) ==> QuantityOf(Bump(cart, id, delta), id) == QuantityOf(cart, id) + delta
    ensures forall other :: other != id ==> QuantityOf(Bump(cart, id, delta), other) == QuantityOf(cart, other)
  {
    var r := Bump(cart, id, delta);
    forall other | other != id
      ensures QuantityOf(r, other) == QuantityOf(cart, other)
    {
      BumpKeepsOthers(cart, id, delta, other);
    }
    if UniqueIds(cart) && HasLine(cart, id) {
      var k :| 0 <= k < |cart| && cart[k].product.id == id;
      assert UniqueIds(r);
      QuantityOfUniqueLine(cart, k);
      QuantityOfUniqueLine(r, k);
    }
  }

  /** Setting product `id`'s quantity leaves every other product's quantity alone. */
  lemma {:induction false} SetQuantityKeepsOthers(cart: seq<CartItem>, id: int, quantity: int, other: int)
    requires other != id
    ensures QuantityOf(SetQuantity(cart, id, quantity), other) == QuantityOf(cart, other)
    decreases |cart|
  {
    if |cart| > 0 {
      SetQuantityKeepsOthers(cart[1..], id, quantity, other);
      assert SetQuantity(cart, id, quantity)[1..] == SetQuantity(cart[1..], id, quantity);
    }
  }

  lemma SetQuantityQuantity(cart: seq<CartItem>, id: int, quantity: int)
    ensures UniqueIds(cart) && HasLine(cart, id) ==> QuantityOf(SetQuantity(cart, id, quantity), id) == quantity
    ensures forall other :: other != id ==> QuantityOf(SetQuantity(cart, id, quantity), other) == QuantityOf(cart, other)
  {
    var r := SetQuantity(cart, id, quantity);
    forall other | other != id
      ensures QuantityOf(r, other) == QuantityOf(cart, other)
    {
      SetQuantityKeepsOthers(cart, id, quantity, other);
    }
    if UniqueIds(cart) && HasLine(cart, id) {
      var k :| 0 <= k < |cart| && cart[k].product.id == id;
      assert UniqueIds(r);
      QuantityOfUniqueLine(r, k);
    }
  }

  /** Removing product `id` zeroes its quantity and leaves every other product's quantity alone. */
  lemma {:induction false} RemoveQuantity(cart: seq<CartItem>, id: int)
    ensures QuantityOf(RemoveFromCart(cart, id), id) == 0
    ensures forall other :: other != id ==> QuantityOf(RemoveFromCart(cart, id), other) == QuantityOf(cart, other)
    decreases |cart|
  {
    if |cart| > 0 {
      RemoveQuantity(cart[1..], id);
      assert cart == [cart[0]] + cart[1..];
    }
  }

  lemma RemoveKeepsUnique(cart: seq<CartItem>, id: int)
    ensures UniqueIds(cart) ==> UniqueIds(RemoveFromCart(cart, id))
  {
    var r := RemoveFromCart(cart, id);
    if UniqueIds(cart) {
      forall i, j | 0 <= i < j < |r| ensures r[i].product.id != r[j].product.id {
        SubsequenceKeepsOrder(r, cart, i, j);
      }
    }
  }

  /** Removing a product undoes adding it: the rest of the cart is as before. */
  lemma RemoveUndoesAdd(cart: seq<CartItem>, product: Product, quantity: int)
    ensures RemoveFromCart(AddToCart(cart, product, quantity), product.id) == RemoveFromCart(cart, product.id)
  {
    if HasLine(cart, product.id) {
      RemoveIgnoresBump(cart, product.id, quantity);
    } else {
      FilterAppend(NotFor(product.id), cart, [CartItem(product, quantity)]);
    }
  }

  lemma {:induction false} RemoveIgnoresBump(cart: seq<CartItem>, id: int, delta: int)
    ensures RemoveFromCart(Bump(cart, id, delta), id) == RemoveFromCart(cart, id)
    decreases |cart|
  {
    if |cart| > 0 {
      RemoveIgnoresBump(cart[1..], id, delta);
      var r := Bump(cart, id, delta);
      assert r[1..] == Bump(cart[1..], id, delta);
    }
  }
}
