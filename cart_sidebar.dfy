/**
 * The cart sidebar of the menu page (menu/CartSidebar.js): the delivery fee
 * with its 2.99 fallback, the final total, one row per cart line whose minus
 * and plus buttons request a new quantity, and the checkout link. Money is
 * integer cents.
 */
module CartSidebar {
  import opened Wrappers
  import opened Text
  import opened Seqs
  import opened Menu
  import opened Restaurants

  /** 2.99, the fee used when the restaurant gives none. */
  const FallbackFee := 299

  /** `restaurant?.delivery_fee || 2.99`: a missing restaurant, a missing fee and a fee of 0 all fall back. */
  function DeliveryFee(restaurant: Option<Restaurant>): (fee: int)
    ensures restaurant.Some? && restaurant.value.delivery_fee.Some? && restaurant.value.delivery_fee.value != 0 ==>
      fee == restaurant.value.delivery_fee.value
    ensures restaurant.None? || restaurant.value.delivery_fee.None? || restaurant.value.delivery_fee == Some(0) ==>
      fee == FallbackFee
    ensures fee != 0
  {
    if restaurant.Some? && restaurant.value.delivery_fee.Some? && restaurant.value.delivery_fee.value != 0
    then restaurant.value.delivery_fee.value
    else FallbackFee
  }

  /** A free-delivery restaurant (fee 0) is still charged the fallback. */
  lemma FreeDeliveryIsCharged(r: Restaurant)
    requires r.delivery_fee == Some(0)
    ensures DeliveryFee(Some(r)) == 299
  {
  }

  /** `finalTotal = total + deliveryFee`, where `total` is the page's `getCartTotal()`. */
  function FinalTotal(lines: seq<CartLine>, restaurant: Option<Restaurant>): (total: int)
    ensures total - CartTotal(lines) == DeliveryFee(restaurant)
  {
    CartTotal(lines) + DeliveryFee(restaurant)
  }

  /** Two of an 8.50 item and one 3.25 item: subtotal 20.25 and, with the 2.99 fee, 23.24. */
  lemma PricingScenario(a: MenuItem, b: MenuItem, restaurant: Option<Restaurant>)
    requires a.id != b.id && a.price == 850 && b.price == 325
    requires DeliveryFee(restaurant) == 299
    ensures CartTotal(Added(Added([], a, 2), b, 1)) == 2025
    ensures FinalTotal(Added(Added([], a, 2), b, 1), restaurant) == 2324
  {
    var once := Added([], a, 2);
    assert once == [CartLine(a, 2)];
    assert !InCart(once, b.id);
    var twice := Added(once, b, 1);
    assert twice == [CartLine(a, 2), CartLine(b, 1)];
    assert twice[1..] == [CartLine(b, 1)];
    assert CartTotal(twice[1..]) == 325;
  }

  /** `onUpdateQuantity(item.id, q)`: what a button asks the page to do. */
  datatype QuantityRequest = QuantityRequest(itemId: string, quantity: int)

  /** The minus button: one fewer of this line. */
  function MinusRequest(l: CartLine): (req: QuantityRequest)
    ensures req.itemId == l.item.id && req.quantity + 1 == l.quantity
  {
    QuantityRequest(l.item.id, l.quantity - 1)
  }

  /** The plus button: one more of this line. */
  function PlusRequest(l: CartLine): (req: QuantityRequest)
    ensures req.itemId == l.item.id && req.quantity - 1 == l.quantity
  {
    QuantityRequest(l.item.id, l.quantity + 1)
  }

  /** The cart after the page's `updateCartQuantity` handles a request: `Menu.Updated` on its id and quantity. */
  function Handle(lines: seq<CartLine>, req: QuantityRequest): seq<CartLine> {
    Updated(lines, req.itemId, req.quantity)
  }

  /** One cart row: the line and its two buttons. */
  datatype Row = Row(line: CartLine, minus: QuantityRequest, plus: QuantityRequest)

  /** `{isOpen && cart.map(...)}`: nothing when closed, otherwise one row per line in cart order. */
  function Rows(isOpen: bool, lines: seq<CartLine>): (rows: seq<Row>)
    ensures !isOpen ==> rows == []
    ensures isOpen ==> |rows| == |lines|
    ensures isOpen ==> forall i :: 0 <= i < |lines| ==>
      rows[i].line == lines[i] && rows[i].minus == MinusRequest(lines[i]) && rows[i].plus == PlusRequest(lines[i])
  {
    if !isOpen then []
    else seq(|lines|, i requires 0 <= i < |lines| => Row(lines[i], MinusRequest(lines[i]), PlusRequest(lines[i])))
  }

  /** Pressing minus or plus on any row keeps one line per id and quantities at least 1. */
  lemma ButtonsKeepValid(lines: seq<CartLine>, i: int)
    requires Valid(lines) && 0 <= i < |lines|
    ensures Valid(Handle(lines, MinusRequest(lines[i])))
    ensures Valid(Handle(lines, PlusRequest(lines[i])))
  {
    var l := lines[i];
    assert l.quantity >= 1;
    RequestKeepsValid(lines, MinusRequest(l));
    RequestKeepsValid(lines, PlusRequest(l));
  }

  /** Any request for a non-negative quantity keeps the ledger invariant. */
  lemma RequestKeepsValid(lines: seq<CartLine>, req: QuantityRequest)
    requires Valid(lines) && req.quantity >= 0
    ensures Valid(Handle(lines, req))
  {
    assert Handle(lines, req) == Updated(lines, req.itemId, req.quantity);
    UpdatedKeepsValid(lines, req.itemId, req.quantity);
  }

  /** Minus on a line holding one removes that line and keeps the others in order. */
  lemma MinusOnOneRemoves(lines: seq<CartLine>, i: int)
    requires Valid(lines) && 0 <= i < |lines| && lines[i].quantity == 1
    ensures Handle(lines, MinusRequest(lines[i])) == lines[..i] + lines[i + 1..]
    ensures !InCart(Handle(lines, MinusRequest(lines[i])), lines[i].item.id)
  {
    FilterWithoutOne(lines, lines[i].item.id, i);
  }

  /** Plus adds one to the badge count and one unit price to the subtotal. */
  lemma PlusMovesTotalsByOne(lines: seq<CartLine>, i: int)
    requires Valid(lines) && 0 <= i < |lines|
    ensures ItemCount(Handle(lines, PlusRequest(lines[i]))) == ItemCount(lines) + 1
    ensures CartTotal(Handle(lines, PlusRequest(lines[i]))) == CartTotal(lines) + lines[i].item.price
  {
    var id, q := lines[i].item.id, lines[i].quantity + 1;
    assert Handle(lines, PlusRequest(lines[i])) == Updated(lines, id, q);
    assert InCart(lines, id) && LineIndex(lines, id) == i;
    UpdatedTotals(lines, id, q);
    assert lines[i].item.price * (q - lines[i].quantity) == lines[i].item.price;
  }

  /** Minus takes one off the badge count and one unit price off the subtotal. */
  lemma MinusMovesTotalsByOne(lines: seq<CartLine>, i: int)
    requires Valid(lines) && 0 <= i < |lines|
    ensures ItemCount(Handle(lines, MinusRequest(lines[i]))) == ItemCount(lines) - 1
    ensures CartTotal(Handle(lines, MinusRequest(lines[i]))) == CartTotal(lines) - lines[i].item.price
  {
    var id, q := lines[i].item.id, lines[i].quantity - 1;
    assert Handle(lines, MinusRequest(lines[i])) == Updated(lines, id, q);
    assert InCart(lines, id) && LineIndex(lines, id) == i;
    UpdatedTotals(lines, id, q);
    assert lines[i].item.price * (q - lines[i].quantity) == -lines[i].item.price;
  }

  // ---- the checkout link ----

  const RestaurantKey := "?restaurant="
  const TotalKey := "&total="

  /**
   * `?restaurant=${restaurant.id}&total=${finalTotal}`; `totalText` is the
   * JavaScript rendering of the final total, which this model does not compute.
   */
  function CheckoutQuery(restaurantId: string, totalText: string): (q: string)
    ensures |q| == |RestaurantKey| + |restaurantId| + |TotalKey| + |totalText|
    ensures q[..|RestaurantKey|] == RestaurantKey
  {
    RestaurantKey + restaurantId + TotalKey + totalText
  }

  /**
   * The link text after `?restaurant=`, cut at its first `&`. This is plain
   * splitting, not a query-string reader: it decodes nothing, so `+`, `%xx`
   * escapes and `#`, which a real reader treats specially, pass through as text.
   */
  function RestaurantParam(q: string): Option<string> {
    if |q| >= |RestaurantKey| && q[..|RestaurantKey|] == RestaurantKey then
      var rest := q[|RestaurantKey|..];
      Some(rest[..FirstIndexOf(rest, '&')])
    else None
  }

  /** The link text after `?restaurant=`, from its first `&` on (plain splitting, as above). */
  function AfterRestaurant(q: string): Option<string> {
    if |q| >= |RestaurantKey| && q[..|RestaurantKey|] == RestaurantKey then
      var rest := q[|RestaurantKey|..];
      Some(rest[FirstIndexOf(rest, '&')..])
    else None
  }

  /**
   * Splitting the link at the first `&` after the key gives back an id
   * without `&`, and what follows is `&total=` and the total's text.
   */
  lemma CheckoutQueryRoundTrip(restaurantId: string, totalText: string)
    requires forall i :: 0 <= i < |restaurantId| ==> restaurantId[i] != '&'
    ensures RestaurantParam(CheckoutQuery(restaurantId, totalText)) == Some(restaurantId)
    ensures AfterRestaurant(CheckoutQuery(restaurantId, totalText)) == Some(TotalKey + totalText)
  {
    var q := CheckoutQuery(restaurantId, totalText);
    var rest := q[|RestaurantKey|..];
    assert rest == restaurantId + (TotalKey + totalText);
    assert rest[|restaurantId|] == '&';
    assert FirstIndexOf(rest, '&') == |restaurantId|;
  }

  /** An id holding `&` is cut short by that split: "a&b" comes back as "a". */
  lemma AmpersandInIdTruncates(totalText: string)
    ensures RestaurantParam(CheckoutQuery("a&b", totalText)) == Some("a")
  {
    var q := CheckoutQuery("a&b", totalText);
    var rest := q[|RestaurantKey|..];
    assert rest == "a&b" + TotalKey + totalText;
    assert rest[0] == 'a' && rest[1] == '&';
    assert FirstIndexOf(rest, '&') == 1;
    assert rest[..1] == "a";
  }
}
