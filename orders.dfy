/**
 * The orders page (Pages/Orders.js): the order record shared by the order
 * card, the tracking modal and the profile, the two status mappings the page
 * passes down to them, and the empty-state rule. Money is integer cents.
 */
module Orders {
  import opened Wrappers

  datatype OrderItem = OrderItem(
    name: string,
    price: int,
    quantity: int,
    special_instructions: Option<string>)

  datatype Order = Order(
    id: Option<string>,
    restaurant_name: string,
    status: Option<string>,
    items: Option<seq<OrderItem>>,
    total_amount: int,
    delivery_fee: Option<int>,
    estimated_delivery_time: Option<string>)

  /** The seven statuses the page knows. */
  const KnownStatuses: seq<string> :=
    ["pending", "confirmed", "preparing", "ready", "out_for_delivery", "delivered", "cancelled"]

  predicate IsKnown(status: Option<string>) {
    status.Some? && status.value in KnownStatuses
  }

  // The badge classes of `getStatusColor`.
  const Yellow := "bg-yellow-100 text-yellow-800"
  const Blue := "bg-blue-100 text-blue-800"
  const Orange := "bg-orange-100 text-orange-800"
  const Green := "bg-green-100 text-green-800"
  const Purple := "bg-purple-100 text-purple-800"
  const Red := "bg-red-100 text-red-800"
  const Gray := "bg-gray-100 text-gray-800"

  /** `getStatusColor`: one class per known status; anything else, a missing status included, is gray. */
  function StatusColor(status: Option<string>): (c: string)
    ensures c == Gray <==> !IsKnown(status)
    ensures c == Red <==> status == Some("cancelled")
    ensures c == Green <==> status == Some("ready") || status == Some("delivered")
    ensures c == Yellow <==> status == Some("pending")
    ensures c == Blue <==> status == Some("confirmed")
    ensures c == Orange <==> status == Some("preparing")
    ensures c == Purple <==> status == Some("out_for_delivery")
  {
    match status
    case Some("pending") => Yellow
    case Some("confirmed") => Blue
    case Some("preparing") => Orange
    case Some("ready") => Green
    case Some("out_for_delivery") => Purple
    case Some("delivered") => Green
    case Some("cancelled") => Red
    case _ => Gray
  }

  /**
   * Two known statuses share a colour only when both are "ready" or
   * "delivered"; every other known status has a colour of its own.
   */
  lemma SharedColorsAreReadyAndDelivered(s: string, t: string)
    requires s in KnownStatuses && t in KnownStatuses && s != t
    requires StatusColor(Some(s)) == StatusColor(Some(t))
    ensures {s, t} == {"ready", "delivered"}
  {
  }

  /** The icons `getStatusIcon` draws. */
  datatype Icon = Clock | CheckCircle | Package | Truck | XCircle

  /** `getStatusIcon`: a missing or unknown status gets the same clock as "pending". */
  function StatusIcon(status: Option<string>): (icon: Icon)
    ensures icon == CheckCircle <==>
      status == Some("confirmed") || status == Some("ready") || status == Some("delivered")
    ensures icon == Clock <==> status == Some("pending") || !IsKnown(status)
    ensures icon == Package <==> status == Some("preparing")
    ensures icon == Truck <==> status == Some("out_for_delivery")
    ensures icon == XCircle <==> status == Some("cancelled")
  {
    match status
    case Some("pending") => Clock
    case Some("confirmed") => CheckCircle
    case Some("preparing") => Package
    case Some("ready") => CheckCircle
    case Some("out_for_delivery") => Truck
    case Some("delivered") => CheckCircle
    case Some("cancelled") => XCircle
    case _ => Clock
  }

  /** Colour and icon agree on which statuses are unknown: gray exactly when the clock stands for no known status. */
  lemma GrayMeansFallbackClock(status: Option<string>)
    ensures StatusColor(status) == Gray ==> StatusIcon(status) == Clock
    ensures StatusIcon(status) == Clock && StatusColor(status) != Gray ==> status == Some("pending")
  {
  }

  /** What the list area shows: the "No orders yet" panel, or one card per order. */
  datatype OrdersView = NoOrdersYet | OrderCards(cards: seq<Order>)

  function View(orders: seq<Order>): (v: OrdersView)
    ensures v.NoOrdersYet? <==> |orders| == 0
    ensures v.OrderCards? ==> v.cards == orders
  {
    if |orders| == 0 then NoOrdersYet else OrderCards(orders)
  }
}
