/** The display rules of the buyer dashboard (pages/BuyerDashboard.jsx): which
    lifecycle chips `Timeline` lights, when the Pay and Confirm Delivery controls
    appear, and which bars enter the pie chart. Rendering itself is not modelled. */
module Timeline {
  import opened Schemas
  import Seqs
  import Stats

  const Steps: seq<OrderStatus> :=
    [OrderStatus.Placed, OrderStatus.Approved, OrderStatus.PickedUp, OrderStatus.Completed]

  /** `Array.prototype.indexOf`: the first position of `x`, or -1. */
  function IndexOf(s: seq<OrderStatus>, x: OrderStatus): (i: int)
    ensures -1 <= i < |s|
    ensures i >= 0 ==> s[i] == x && forall k :: 0 <= k < i ==> s[k] != x
    ensures i == -1 <==> x !in s
  {
    if |s| == 0 then -1
    else if s[0] == x then 0
    else var j := IndexOf(s[1..], x); if j == -1 then -1 else j + 1
  }

  datatype View = CancelledLabel | Chips(active: seq<bool>)

  /** `Timeline({ status })`: the cancelled label, or one chip per step, lit when
      `steps.indexOf(step) <= steps.indexOf(status)`. */
  function TimelineOf(status: OrderStatus): (v: View)
    ensures v.CancelledLabel? <==> status == OrderStatus.Cancelled
    ensures v.Chips? ==> |v.active| == |Steps|
  {
    if status == OrderStatus.Cancelled then CancelledLabel
    else Chips(seq(|Steps|, k requires 0 <= k < |Steps| => IndexOf(Steps, Steps[k]) <= IndexOf(Steps, status)))
  }

  /** For a status at position i of the steps, the lit chips are exactly the
      prefix steps[0..i]. */
  lemma StepPrefixActive(i: nat)
    requires i < |Steps|
    ensures TimelineOf(Steps[i]) == Chips(seq(|Steps|, k => k <= i))
  {
    var v := TimelineOf(Steps[i]);
    assert IndexOf(Steps, Steps[i]) == i;
    forall k | 0 <= k < |Steps| ensures v.active[k] == (k <= i) {
      assert IndexOf(Steps, Steps[k]) == k;
    }
  }

  /** A status that is not one of the steps and not CANCELLED (that is, PAID)
      lights no chip at all. */
  lemma OffStepsLightNothing(status: OrderStatus)
    requires status !in Steps && status != OrderStatus.Cancelled
    ensures TimelineOf(status) == Chips([false, false, false, false])
  {
    var v := TimelineOf(status);
    forall k | 0 <= k < |Steps| ensures !v.active[k] {
      assert IndexOf(Steps, Steps[k]) == k;
    }
  }

  /** The Pay control. */
  predicate ShowPay(o: Order) {
    o.orderStatus == OrderStatus.Approved && o.paymentStatus == PaymentStatus.Pending
  }

  /** The Confirm Delivery control. */
  predicate ShowConfirm(o: Order) {
    o.orderStatus == OrderStatus.PickedUp
  }

  /** Neither control is offered for an order whose orderStatus is still the
      schema default PLACED, nor are they ever offered together. */
  lemma ControlsOfPlacedOrder(o: Order)
    ensures o.orderStatus == OrderStatus.Placed ==> !ShowPay(o) && !ShowConfirm(o)
    ensures !(ShowPay(o) && ShowConfirm(o))
  {
  }

  /** The Pay control appears on an APPROVED order, whose timeline lights the
      first two steps, and never together with Confirm Delivery. */
  lemma {:induction false} PayControlAtApproved(o: Order)
    requires ShowPay(o)
    ensures TimelineOf(o.orderStatus) == Chips([true, true, false, false])
    ensures !ShowConfirm(o)
  {
    StepPrefixActive(1);
    assert seq(|Steps|, k => k <= 1) == [true, true, false, false];
  }

  /** Confirm Delivery appears on a PICKED_UP order, whose timeline lights all
      steps but the last, whatever its payment status. */
  lemma {:induction false} ConfirmControlAtPickedUp(o: Order)
    requires ShowConfirm(o)
    ensures TimelineOf(o.orderStatus) == Chips([true, true, true, false])
    ensures !ShowPay(o)
  {
    StepPrefixActive(2);
    assert seq(|Steps|, k => k <= 2) == [true, true, true, false];
  }

  datatype Bar = Bar(name: string, value: int)

  /** `barData`: three bars once the statistics have loaded, none before. */
  function BarData(stats: Option<Stats.BuyerStats>): (r: seq<Bar>)
    ensures stats.None? ==> r == []
    ensures stats.Some? ==> |r| == 3 && forall i :: 0 <= i < |r| ==> r[i].value >= 0
  {
    match stats
    case None => []
    case Some(s) => [Bar("Completed", s.completed), Bar("Rejected", s.rejected),
                     Bar("In Progress", s.inProgress)]
  }

  predicate Positive(b: Bar) { b.value > 0 }

  /** `pieData = barData.filter((d) => d.value > 0)`. */
  function PieData(bars: seq<Bar>): (r: seq<Bar>)
    ensures forall b :: b in r <==> b in bars && b.value > 0
  {
    Seqs.Filter(bars, Positive)
  }

  /** Once the buyer's statistics have loaded, the pie is empty exactly when no
      order of theirs is completed, rejected or in progress; in particular a
      buyer without orders sees an empty pie. */
  lemma PieEmptyIffNothingCounted(orders: seq<Order>, buyer: UserId)
    ensures var s := Stats.BuyerStatsOf(orders, buyer);
            PieData(BarData(Some(s))) == [] <==> s.completed + s.rejected + s.inProgress == 0
    ensures Stats.BuyerStatsOf(orders, buyer).total == 0 ==> PieData(BarData(Some(Stats.BuyerStatsOf(orders, buyer)))) == []
  {
    var bars := BarData(Some(Stats.BuyerStatsOf(orders, buyer)));
    var pie := PieData(bars);
    if pie != [] {
      assert pie[0] in pie;
    }
    if exists i :: 0 <= i < 3 && bars[i].value > 0 {
      var i :| 0 <= i < 3 && bars[i].value > 0;
      assert bars[i] in pie;
    }
  }

  /** The pie keeps the bars' order: a bar that comes before another in barData
      comes before it in pieData. */
  lemma PieKeepsOrder(a: seq<Bar>, b: seq<Bar>)
    ensures PieData(a + b) == PieData(a) + PieData(b)
  {
    Seqs.FilterAppend(a, b, Positive);
  }
}
