/**
 * Order tracking (TrackOrderModal.tsx): an order id typed in any letter case
 * is looked up among the orders.
 */
module TrackOrder {
  import opened Wrappers
  import opened Types
  import opened Text

  const EmptyId: string := "Please enter an Order ID."
  const NotFoundLead: string := "Order ID \""
  const NotFoundTail: string := "\" not found. Please check the ID and try again."

  /** The error for an id no order has. */
  function NotFoundMessage(id: string): (msg: string)
    ensures Contains(msg, id)
    ensures |msg| == |NotFoundLead| + |id| + |NotFoundTail| && msg[..|NotFoundLead|] == NotFoundLead
  {
    ContainsInfix(NotFoundLead, id, NotFoundTail);
    NotFoundLead + id + NotFoundTail
  }

  /** Ids equal up to letter case. */
  predicate SameId(a: string, b: string)
  {
    Lower(a) == Lower(b)
  }

  /** Position `k` holds the first order whose id matches `id`. */
  predicate FirstMatch(orders: seq<Order>, k: int, id: string)
  {
    0 <= k < |orders| && SameId(orders[k].id, id)
    && forall j :: 0 <= j < k ==> !SameId(orders[j].id, id)
  }

  /** `orders.find(...)` with the lower-cased comparison. */
  function FindOrder(orders: seq<Order>, id: string): (r: Option<Order>)
    ensures r.None? <==> forall o :: o in orders ==> !SameId(o.id, id)
    ensures r.Some? ==> exists k :: FirstMatch(orders, k, id) && orders[k] == r.value
  {
    if |orders| == 0 then None
    else if SameId(orders[0].id, id) then
      assert FirstMatch(orders, 0, id);
      Some(orders[0])
    else
      var r := FindOrder(orders[1..], id);
      assert forall o :: o in orders ==> o == orders[0] || o in orders[1..];
      if r.Some? then
        var k :| FirstMatch(orders[1..], k, id) && orders[1..][k] == r.value;
        assert FirstMatch(orders, k + 1, id);
        r
      else r
  }

  /** The modal: the typed id, the order found, and the error line ("" for none). */
  datatype TrackModal = TrackModal(orderId: string, found: Option<Order>, error: string)

  const Closed: TrackModal := TrackModal("", None, "")

  function TypeId(m: TrackModal, id: string): (n: TrackModal)
    ensures n.orderId == id && n.found == m.found && n.error == m.error
  {
    m.(orderId := id)
  }

  /**
   * `handleTrackOrder`: the earlier result and error are dropped; an empty id
   * is an error of its own; otherwise the order is shown, or an error naming
   * the id.
   */
  function Track(m: TrackModal, orders: seq<Order>): (n: TrackModal)
    ensures n.orderId == m.orderId
    ensures m.orderId == "" ==> n.found.None? && n.error == EmptyId
    ensures m.orderId != "" ==>
      (n.found.Some? <==> exists o :: o in orders && SameId(o.id, m.orderId))
    ensures n.found.Some? ==> n.error == "" && n.found.value in orders && SameId(n.found.value.id, m.orderId)
    ensures m.orderId != "" ==> n.found == FindOrder(orders, m.orderId)
    ensures m.orderId != "" && n.found.None? ==> n.error == NotFoundMessage(m.orderId) && Contains(n.error, m.orderId)
  {
    if m.orderId == "" then TrackModal(m.orderId, None, EmptyId)
    else match FindOrder(orders, m.orderId)
      case Some(o) => TrackModal(m.orderId, Some(o), "")
      case None => TrackModal(m.orderId, None, NotFoundMessage(m.orderId))
  }

  /** Typing the id in another letter case finds the same order. */
  lemma TrackIgnoresCase(m: TrackModal, orders: seq<Order>)
    requires m.orderId != ""
    ensures Track(m.(orderId := Lower(m.orderId)), orders).found == Track(m, orders).found
  {
    LowerIdempotent(m.orderId);
    FindOrderRespectsSameId(orders, Lower(m.orderId), m.orderId);
  }

  lemma {:induction false} FindOrderRespectsSameId(orders: seq<Order>, a: string, b: string)
    requires SameId(a, b)
    ensures FindOrder(orders, a) == FindOrder(orders, b)
    decreases |orders|
  {
    if |orders| > 0 {
      FindOrderRespectsSameId(orders[1..], a, b);
    }
  }

  /** `handleClose`: id, result and error all cleared. */
  function Close(m: TrackModal): (n: TrackModal)
    ensures n.orderId == "" && n.found.None? && n.error == ""
  {
    Closed
  }
}
