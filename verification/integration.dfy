/**
 * How the pieces meet in App.tsx: the checkout dialog's confirmation places
 * the order, a placed order can be tracked and shows on the dashboard, and
 * reporting a serial opens the meeting dialog on that serial.
 */
module Integration {
  import opened Wrappers
  import opened Types
  import opened Text
  import opened Seqs
  import Checkout
  import Ordering
  import TrackOrder
  import Admin
  import ProductAuth
  import Booking

  /** Shipping, then payment, then confirmation, without edits: the order goes to the pre-filled address. */
  lemma CheckoutPlacesOrderAtInitialAddress(user: User)
    ensures var s0 := Checkout.Open(Some(user));
      var s1 := Checkout.Next(s0, Checkout.SubmitForm).0;
      Checkout.Next(s1, Checkout.ConfirmPayment).1 == Checkout.PlaceOrder(Checkout.InitialAddress(Some(user)))
  {
  }

  /** The order just placed is found by tracking its number, in the case it was issued or in lower case. */
  lemma PlacedOrderIsTrackable(s: Ordering.Shop, shipping: Address, t: Ordering.Stamp)
    requires Ordering.ValidStamp(t) && s.currentUser.Some?
    ensures var r := Ordering.PlaceOrder(s, shipping, t);
      var id := r.orders[0].id;
      && TrackOrder.Track(TrackOrder.TrackModal(id, None, ""), r.orders).found == Some(r.orders[0])
      && TrackOrder.Track(TrackOrder.TrackModal(Lower(id), None, ""), r.orders).found == Some(r.orders[0])
  {
    var r := Ordering.PlaceOrder(s, shipping, t);
    var m := TrackOrder.TrackModal(r.orders[0].id, None, "");
    TrackOrder.TrackIgnoresCase(m, r.orders);
  }

  /** A new order is one more pending order and leaves the revenue as it was. */
  lemma PlacingOrderUpdatesDashboard(s: Ordering.Shop, shipping: Address, t: Ordering.Stamp)
    requires Ordering.ValidStamp(t) && s.currentUser.Some?
    ensures var r := Ordering.PlaceOrder(s, shipping, t);
      && Admin.PendingOrders(r.orders) == Admin.PendingOrders(s.orders) + 1
      && Admin.TotalRevenue(r.orders) == Admin.TotalRevenue(s.orders)
  {
    var r := Ordering.PlaceOrder(s, shipping, t);
    var o := r.orders[0];
    assert r.orders == [o] + s.orders;
    FilterAppend(Admin.InProcessing(), [o], s.orders);
    FilterAppend(Admin.WasDelivered(), [o], s.orders);
    assert Filter(Admin.WasDelivered(), [o]) == [];
    assert Filter(Admin.InProcessing(), [o]) == [o];
    assert [] + Filter(Admin.WasDelivered(), s.orders) == Filter(Admin.WasDelivered(), s.orders);
  }

  /** The meeting topic the application sets when a serial is reported. */
  function IssueTopic(serial: string): (topic: string)
    ensures topic != ""
    ensures Contains(topic, serial)
  {
    var topic := "Issue with serial: " + serial;
    assert serial <= topic[|"Issue with serial: "|..];
    topic
  }

  /**
   * Reporting from the authentication dialog opens the meeting dialog with
   * the reported serial in its topic, so only the other four fields stand
   * between the customer and a request.
   */
  lemma ReportOpensBookingOnSerial(m: ProductAuth.AuthModal, f: Booking.BookingForm)
    requires ProductAuth.ReportIssue(m).Some?
    ensures var g := Booking.OnOpenChange(f, true, IssueTopic(m.serial));
      && g.topic == IssueTopic(m.serial)
      && Contains(g.topic, m.serial)
      && (Booking.Submit(g).Emit? <==> g.name != "" && g.email != "" && g.date != "" && g.time != "")
  {
  }
}
