/**
 * The checkout modal (CheckoutModal.tsx): the order summary's subtotal,
 * shipping fee and total, the shipping-address form and the
 * shipping -> payment step machine.
 */
module Checkout {
  import opened Wrappers
  import opened Types

  /** Orders of at least this many cents ship free. */
  const FreeShippingThresholdCents := 5000

  /** The flat fee, in cents, for orders below the threshold. */
  const ShippingFeeCents := 500

  /** The value of one cart line: unit price times quantity. */
  function LineCents(item: CartItem): int
  {
    item.product.priceCents * item.quantity
  }

  /** The order summary's subtotal: the sum of every line's value. */
  function Subtotal(cart: seq<CartItem>): (cents: int)
    ensures |cart| == 1 ==> cents == LineCents(cart[0])
    ensures (forall i :: 0 <= i < |cart| ==> cart[i].product.priceCents >= 0 && cart[i].quantity >= 0) ==> cents >= 0
  {
    if |cart| == 0 then 0
    else
      assert forall i :: 1 <= i < |cart| ==> cart[1..][i - 1] == cart[i];
      LineCents(cart[0]) + Subtotal(cart[1..])
  }

  /** The subtotal of two carts placed one after the other is the sum of their subtotals. */
  lemma {:induction false} SubtotalAppend(a: seq<CartItem>, b: seq<CartItem>)
    ensures Subtotal(a + b) == Subtotal(a) + Subtotal(b)
    decreases |a|
  {
    if |a| == 0 {
      assert a + b == b;
    } else {
      assert (a + b)[1..] == a[1..] + b;
      SubtotalAppend(a[1..], b);
    }
  }

  /** With non-negative prices and quantities the subtotal is never negative. */
  lemma {:induction false} SubtotalNonNegative(cart: seq<CartItem>)
    requires forall i :: 0 <= i < |cart| ==> cart[i].product.priceCents >= 0 && cart[i].quantity >= 0
    ensures Subtotal(cart) >= 0
    decreases |cart|
  {
    if |cart| > 0 {
      SubtotalNonNegative(cart[1..]);
    }
  }

  /** The shipping fee shown in the summary: free from the threshold up, the flat fee below it. */
  function ShippingFee(subtotal: int): (fee: int)
    ensures fee == 0 || fee == ShippingFeeCents
    ensures fee == 0 <==> subtotal >= FreeShippingThresholdCents
  {
    if subtotal >= FreeShippingThresholdCents then 0 else ShippingFeeCents
  }

  /** The summary's total: what the customer pays, never less than the subtotal. */
  function Total(cart: seq<CartItem>): (total: int)
    ensures total >= Subtotal(cart)
    ensures total - Subtotal(cart) == ShippingFee(Subtotal(cart))
    ensures Subtotal(cart) >= FreeShippingThresholdCents ==> total == Subtotal(cart)
  {
    Subtotal(cart) + ShippingFee(Subtotal(cart))
  }

  /** The seven inputs of the shipping form. */
  datatype AddressField = FullName | Street | City | State | Zip | Country | Phone

  function GetField(a: Address, f: AddressField): string
  {
    match f
    case FullName => a.fullName
    case Street => a.street
    case City => a.city
    case State => a.state
    case Zip => a.zip
    case Country => a.country
    case Phone => a.phone
  }

  /** `handleAddressChange`: the named field takes the new value and every other field keeps its own. */
  function SetField(a: Address, f: AddressField, value: string): (r: Address)
    ensures GetField(r, f) == value
    ensures forall g :: g != f ==> GetField(r, g) == GetField(a, g)
  {
    match f
    case FullName => a.(fullName := value)
    case Street => a.(street := value)
    case City => a.(city := value)
    case State => a.(state := value)
    case Zip => a.(zip := value)
    case Country => a.(country := value)
    case Phone => a.(phone := value)
  }

  /** An address is determined by its seven fields. */
  lemma AddressExtensional(a: Address, b: Address)
    requires forall f :: GetField(a, f) == GetField(b, f)
    ensures a == b
  {
    assert GetField(a, FullName) == GetField(b, FullName);
    assert GetField(a, Street) == GetField(b, Street);
    assert GetField(a, City) == GetField(b, City);
    assert GetField(a, State) == GetField(b, State);
    assert GetField(a, Zip) == GetField(b, Zip);
    assert GetField(a, Country) == GetField(b, Country);
    assert GetField(a, Phone) == GetField(b, Phone);
  }

  /** Writing back a field's own value changes nothing; a second write to a field replaces the first. */
  lemma SetFieldLaws(a: Address, f: AddressField, v: string, w: string)
    ensures SetField(a, f, GetField(a, f)) == a
    ensures SetField(SetField(a, f, v), f, w) == SetField(a, f, w)
  {
    AddressExtensional(SetField(a, f, GetField(a, f)), a);
    AddressExtensional(SetField(SetField(a, f, v), f, w), SetField(a, f, w));
  }

  /** JavaScript's `a || b` on strings: the empty string is falsy. */
  function OrElse(a: string, b: string): string
  {
    if a != "" then a else b
  }

  /** The saved value of a field of the user's address book entry, or "" when there is none. */
  function Saved(user: Option<User>, f: AddressField): string
  {
    if user.Some? && user.value.address.Some? then GetField(user.value.address.value, f) else ""
  }

  /**
   * `initialAddress`: every field starts from the saved address; the full
   * name falls back to the account name; anything missing or empty is "".
   */
  function InitialAddress(user: Option<User>): (a: Address)
    ensures forall f :: f != FullName ==> GetField(a, f) == Saved(user, f)
    ensures Saved(user, FullName) != "" ==> a.fullName == Saved(user, FullName)
    ensures Saved(user, FullName) == "" ==> a.fullName == if user.Some? then user.value.name else ""
  {
    Address(
      OrElse(Saved(user, FullName), if user.Some? then OrElse(user.value.name, "") else ""),
      OrElse(Saved(user, Street), ""),
      OrElse(Saved(user, City), ""),
      OrElse(Saved(user, State), ""),
      OrElse(Saved(user, Zip), ""),
      OrElse(Saved(user, Country), ""),
      OrElse(Saved(user, Phone), ""))
  }

  datatype Step = ShippingStep | PaymentStep

  /** The modal's state; `signedIn` is false when it was opened without a current user and shows only a notice. */
  datatype CheckoutState = CheckoutState(signedIn: bool, step: Step, address: Address)

  datatype CheckoutEvent =
    | EditField(field: AddressField, value: string)
    | SubmitForm
    | BackToShipping
    | ConfirmPayment

  /** What the modal asks of the application: nothing, or placing the order with the given address. */
  datatype CheckoutEffect = NoEffect | PlaceOrder(shipping: Address)

  /** The modal as it opens: shipping step, address pre-filled. */
  function Open(user: Option<User>): (s: CheckoutState)
    ensures s.step == ShippingStep && s.signedIn == user.Some?
    ensures s.address == InitialAddress(user)
  {
    CheckoutState(user.Some?, ShippingStep, InitialAddress(user))
  }

  /**
   * One user action. The shipping inputs exist only in the shipping step;
   * submitting the form (the shipping step's button, or any button of the
   * payment panel, which sits inside the same form) moves to payment; the
   * back link returns to shipping; "Confirm & Pay" hands the address on.
   */
  function Next(s: CheckoutState, e: CheckoutEvent): (r: (CheckoutState, CheckoutEffect))
    ensures !s.signedIn ==> r == (s, NoEffect)
    ensures r.0.signedIn == s.signedIn
    ensures r.1.PlaceOrder? <==> s.signedIn && s.step == PaymentStep && e == ConfirmPayment
    ensures r.1.PlaceOrder? ==> r.1.shipping == s.address && r.0 == s
    ensures s.signedIn && e == SubmitForm ==> r.0 == s.(step := PaymentStep)
    ensures s.signedIn && e == BackToShipping ==> r.0 == s.(step := ShippingStep)
    ensures r.0.address != s.address ==> s.step == ShippingStep && e.EditField?
    ensures s.signedIn && s.step == ShippingStep && e.EditField? ==>
      r == (s.(address := SetField(s.address, e.field, e.value)), NoEffect)
    ensures e == ConfirmPayment || (e.EditField? && s.step == PaymentStep) ==> r.0 == s
  {
    if !s.signedIn then (s, NoEffect)
    else
      match e
      case EditField(f, v) =>
        if s.step == ShippingStep then (s.(address := SetField(s.address, f, v)), NoEffect) else (s, NoEffect)
      case SubmitForm => (s.(step := PaymentStep), NoEffect)
      case BackToShipping => (s.(step := ShippingStep), NoEffect)
      case ConfirmPayment =>
        if s.step == PaymentStep then (s, PlaceOrder(s.address)) else (s, NoEffect)
  }
}
