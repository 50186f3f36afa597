/**
 * The order card (orders/OrderCard.js): the display rules for one order.
 * The tracking modal and the profile's recent-orders list show the same
 * order number, status label and total, so they use these definitions too.
 */
module OrderCard {
  import opened Wrappers
  import opened Text
  import opened Seqs
  import opened Orders

  /** `order.delivery_fee || 0`: the fee line, a missing fee shown as 0. */
  function FeeShown(o: Order): (fee: int)
    ensures o.delivery_fee.None? ==> fee == 0
    ensures o.delivery_fee.Some? ==> fee == o.delivery_fee.value
  {
    o.delivery_fee.GetOr(0)
  }

  /** `order.total_amount + (order.delivery_fee || 0)`, shown in the header and in the summary. */
  function OrderTotal(o: Order): (total: int)
    ensures total - o.total_amount == FeeShown(o)
    ensures o.delivery_fee.None? ==> total == o.total_amount
  {
    o.total_amount + FeeShown(o)
  }

  /** `item.price * item.quantity`. */
  function LineTotal(item: OrderItem): (total: int)
    ensures item.quantity == 0 ==> total == 0
    ensures item.quantity == 1 ==> total == item.price
    ensures item.price >= 0 && item.quantity >= 0 ==> total >= 0
  {
    item.price * item.quantity
  }

  /** One more unit adds one price to the line. */
  lemma LineTotalStep(item: OrderItem)
    ensures LineTotal(item.(quantity := item.quantity + 1)) == LineTotal(item) + item.price
  {
  }

  /** `order.id?.slice(-8) || "N/A"`: the last eight characters of the id, or "N/A" for a missing or empty id. */
  function OrderNumber(id: Option<string>): (n: string)
    ensures id.None? || id == Some("") ==> n == "N/A"
    ensures id.Some? && id.value != "" ==>
      && |n| == (if |id.value| < 8 then |id.value| else 8)
      && id.value == id.value[..|id.value| - |n|] + n
  {
    match id
    case None => "N/A"
    case Some(s) => if s == "" then "N/A" else SliceLast(s, 8)
  }

  /** A short id is shown whole; a long one loses only its leading characters. */
  lemma OrderNumberExamples()
    ensures OrderNumber(Some("abc")) == "abc"
    ensures OrderNumber(Some("0123456789")) == "23456789"
  {
    assert OrderNumber(Some("0123456789")) == "0123456789"[2..];
  }

  /** `order.status?.replace("_", " ")`: only the first underscore becomes a space; a missing status shows nothing. */
  function StatusLabel(status: Option<string>): (caption: Option<string>)
    ensures caption.None? <==> status.None?
    ensures status.Some? ==>
      && |caption.value| == |status.value|
      && (forall i :: 0 <= i < |status.value| && i != FirstIndexOf(status.value, '_') ==>
            caption.value[i] == status.value[i])
      && (FirstIndexOf(status.value, '_') < |status.value| ==> caption.value[FirstIndexOf(status.value, '_')] == ' ')
  {
    match status
    case None => None
    case Some(s) => Some(ReplaceFirst(s, '_', ' '))
  }

  /** "out_for_delivery" is labelled "out for_delivery": the second underscore stays. */
  lemma OutForDeliveryLabel()
    ensures StatusLabel(Some("out_for_delivery")) == Some("out for_delivery")
  {
    var s := "out_for_delivery";
    var k := FirstIndexOf(s, '_');
    assert k == 3 by {
      assert s[3] == '_';
      assert s[0] != '_' && s[1] != '_' && s[2] != '_';
    }
    var r := ReplaceFirst(s, '_', ' ');
    assert |r| == 16;
    assert forall i | 0 <= i < 16 :: r[i] == (if i == 3 then ' ' else s[i]);
    assert r == "out for_delivery";
  }

  /** A status without an underscore is shown as it is. */
  lemma StatusLabelNoUnderscore(s: string)
    requires forall i :: 0 <= i < |s| ==> s[i] != '_'
    ensures StatusLabel(Some(s)) == Some(s)
  {
    var l := StatusLabel(Some(s)).value;
    assert FirstIndexOf(s, '_') == |s|;
    assert forall i | 0 <= i < |s| :: l[i] == s[i];
  }

  /** The label the badge evidently means to show: every underscore of the status turned into a space. */
  function IntendedStatusLabel(status: Option<string>): (caption: Option<string>)
    ensures caption.None? <==> status.None?
    ensures status.Some? ==> |caption.value| == |status.value|
    ensures status.Some? ==> forall i :: 0 <= i < |caption.value| ==> caption.value[i] != '_'
    ensures status.Some? ==> forall i :: 0 <= i < |status.value| && status.value[i] != '_' ==>
      caption.value[i] == status.value[i]
  {
    match status
    case None => None
    case Some(s) => Some(ReplaceAll(s, '_', ' '))
  }

  /** The intended label of "out_for_delivery" is "out for delivery". */
  lemma IntendedOutForDeliveryLabel()
    ensures IntendedStatusLabel(Some("out_for_delivery")) == Some("out for delivery")
  {
    var s := "out_for_delivery";
    var r := ReplaceAll(s, '_', ' ');
    assert |r| == 16;
    assert forall i | 0 <= i < 16 :: r[i] == (if s[i] == '_' then ' ' else s[i]);
    assert r == "out for delivery";
  }

  /** The label as written and the intended one differ on "out_for_delivery". */
  lemma LabelsDifferOnOutForDelivery()
    ensures StatusLabel(Some("out_for_delivery")) != IntendedStatusLabel(Some("out_for_delivery"))
  {
    OutForDeliveryLabel();
    IntendedOutForDeliveryLabel();
    assert "out for_delivery"[7] != "out for delivery"[7];
  }

  /** On a status with at most one underscore both labels agree. */
  lemma LabelsAgreeOnOneUnderscore(s: string)
    requires forall i, j :: 0 <= i < j < |s| && s[i] == '_' ==> s[j] != '_'
    ensures StatusLabel(Some(s)) == IntendedStatusLabel(Some(s))
  {
    var a, b := StatusLabel(Some(s)).value, IntendedStatusLabel(Some(s)).value;
    var k := FirstIndexOf(s, '_');
    forall i | 0 <= i < |s| ensures a[i] == b[i] {
      assert s[i] == '_' ==> k <= i && k < |s| && s[k] == '_';
    }
    assert a == b;
  }

  /** `order.items?.slice(0, 3)`: at most the first three items, in order; none when items are missing. */
  function Preview(items: Option<seq<OrderItem>>): (shown: seq<OrderItem>)
    ensures items.None? ==> shown == []
    ensures items.Some? ==> shown <= items.value && |shown| == Min(3, |items.value|)
  {
    match items
    case None => []
    case Some(s) => Take(s, 3)
  }

  /** `order.items?.length > 3`, and then `order.items.length - 3`: the "+N more items" note. */
  function MoreItems(items: Option<seq<OrderItem>>): (more: Option<nat>)
    ensures more.Some? <==> items.Some? && |items.value| > 3
    ensures more.Some? ==> more.value == |items.value| - 3
  {
    if items.Some? && |items.value| > 3 then Some(|items.value| - 3) else None
  }

  /** The listed items and the note together account for every item. */
  lemma PreviewAccountsForAll(items: Option<seq<OrderItem>>)
    ensures |Preview(items)| + MoreItems(items).GetOr(0) == if items.None? then 0 else |items.value|
    ensures MoreItems(items).Some? ==> Preview(items) + items.value[3..] == items.value
  {
  }
}
