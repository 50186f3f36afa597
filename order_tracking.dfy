/**
 * The order-tracking modal (orders/OrderTracking.js): a fixed sequence of six
 * steps, the position of the order's status in it, and which steps and
 * connectors are drawn as reached.
 */
module OrderTracking {
  import opened Wrappers
  import opened Orders

  datatype Step = Step(key: string, caption: string, description: string)

  /** `trackingSteps`. */
  const TrackingSteps: seq<Step> := [
    Step("pending", "Order Placed", "Your order has been received"),
    Step("confirmed", "Order Confirmed", "Restaurant is preparing your order"),
    Step("preparing", "Preparing", "Your food is being prepared"),
    Step("ready", "Ready for Pickup", "Order is ready for delivery"),
    Step("out_for_delivery", "Out for Delivery", "Your order is on its way"),
    Step("delivered", "Delivered", "Order has been delivered")
  ]

  /** `steps.findIndex(step => step.key === status)`: the first matching position, or -1. */
  function FindStepIndex(steps: seq<Step>, status: Option<string>): (k: int)
    ensures -1 <= k < |steps|
    ensures k >= 0 ==> status == Some(steps[k].key)
    ensures forall j :: 0 <= j < |steps| && (k == -1 || j < k) ==> status != Some(steps[j].key)
  {
    if steps == [] then -1
    else if status == Some(steps[0].key) then 0
    else
      var k := FindStepIndex(steps[1..], status);
      if k == -1 then -1 else k + 1
  }

  /** `currentStepIndex`. */
  function CurrentStepIndex(status: Option<string>): (k: int)
    ensures -1 <= k < |TrackingSteps|
  {
    FindStepIndex(TrackingSteps, status)
  }

  /** The step keys are exactly the statuses of an order in progress, in order, with no repeats. */
  lemma StepKeys()
    ensures |TrackingSteps| == 6
    ensures forall i, j :: 0 <= i < j < |TrackingSteps| ==> TrackingSteps[i].key != TrackingSteps[j].key
    ensures forall i :: 0 <= i < |TrackingSteps| ==> TrackingSteps[i].key == KnownStatuses[i]
  {
  }

  /** The index of a step's own key is that step's position: `findIndex` inverts indexing. */
  lemma IndexOfStepKey(i: int)
    requires 0 <= i < |TrackingSteps|
    ensures CurrentStepIndex(Some(TrackingSteps[i].key)) == i
  {
    StepKeys();
  }

  /** A status that is no step key, such as "cancelled" or none at all, gives -1. */
  lemma IndexOfNonStep(status: Option<string>)
    requires forall i :: 0 <= i < |TrackingSteps| ==> status != Some(TrackingSteps[i].key)
    ensures CurrentStepIndex(status) == -1
  {
  }

  /** The circle of a step: the status icon of its key when reached, its 1-based number otherwise. */
  datatype Marker = IconMarker(icon: Icon) | NumberMarker(n: nat)

  /** How one step is drawn; `connector` is absent after the last step and says whether the line is highlighted. */
  datatype StepView = StepView(step: Step, reached: bool, marker: Marker, connector: Option<bool>)

  /** Step `index` drawn for an order whose current step index is `current`. */
  function DrawStep(index: nat, current: int): (v: StepView)
    requires index < |TrackingSteps|
    ensures v.step == TrackingSteps[index]
    ensures v.reached <==> index <= current
    ensures v.marker.NumberMarker? <==> !v.reached
    ensures !v.reached ==> v.marker.n == index + 1
    ensures v.connector.None? <==> index == |TrackingSteps| - 1
    ensures v.connector == Some(true) ==> v.reached
    ensures v.connector == Some(true) <==> index < current && index < |TrackingSteps| - 1
  {
    var step := TrackingSteps[index];
    var reached := index <= current;
    StepView(
      step,
      reached,
      if reached then IconMarker(StatusIcon(Some(step.key))) else NumberMarker(index + 1),
      if index < |TrackingSteps| - 1 then Some(index < current) else None)
  }

  /** `trackingSteps.map(...)`: every step, in order, drawn against the order's status. */
  function Progress(status: Option<string>): (views: seq<StepView>)
    ensures |views| == |TrackingSteps|
    ensures forall i :: 0 <= i < |views| ==>
      && views[i].step == TrackingSteps[i]
      && (views[i].reached <==> i <= CurrentStepIndex(status))
      && (views[i].connector.Some? <==> i < |TrackingSteps| - 1)
      && (views[i].connector == Some(true) <==> i < CurrentStepIndex(status))
  {
    var current := CurrentStepIndex(status);
    seq(|TrackingSteps|, i requires 0 <= i < |TrackingSteps| => DrawStep(i, current))
  }

  /** Reached steps form a prefix: a reached step has every earlier step reached. */
  lemma ReachedIsPrefix(status: Option<string>, i: int, j: int)
    requires 0 <= j < i < |TrackingSteps|
    requires Progress(status)[i].reached
    ensures Progress(status)[j].reached
  {
  }

  /** "preparing" reaches exactly the first three steps. */
  lemma PreparingReachesThree()
    ensures forall i :: 0 <= i < |TrackingSteps| ==> (Progress(Some("preparing"))[i].reached <==> i < 3)
  {
    IndexOfStepKey(2);
  }

  /** "delivered" reaches every step, and every connector is highlighted. */
  lemma DeliveredReachesAll()
    ensures forall i :: 0 <= i < |TrackingSteps| ==> Progress(Some("delivered"))[i].reached
    ensures forall i :: 0 <= i < |TrackingSteps| - 1 ==> Progress(Some("delivered"))[i].connector == Some(true)
  {
    IndexOfStepKey(5);
  }

  /** A cancelled order, an unknown status and a missing status reach no step. */
  lemma OffTrackReachesNone(status: Option<string>)
    requires status.None? || status == Some("cancelled") || !IsKnown(status)
    ensures forall i :: 0 <= i < |TrackingSteps| ==> !Progress(status)[i].reached
  {
    StepKeys();
    IndexOfNonStep(status);
  }

  /** A highlighted connector always joins two reached steps. */
  lemma HighlightedConnectorJoinsReached(status: Option<string>, i: int)
    requires 0 <= i < |TrackingSteps|
    requires Progress(status)[i].connector == Some(true)
    ensures i + 1 < |TrackingSteps| && Progress(status)[i].reached && Progress(status)[i + 1].reached
  {
  }

  /** A reached step shows its status icon; an unreached one shows its position counted from 1. */
  lemma MarkerShown(status: Option<string>, i: int)
    requires 0 <= i < |TrackingSteps|
    ensures Progress(status)[i].reached ==> Progress(status)[i].marker == IconMarker(StatusIcon(Some(TrackingSteps[i].key)))
    ensures !Progress(status)[i].reached ==> Progress(status)[i].marker == NumberMarker(i + 1)
  {
  }
}
