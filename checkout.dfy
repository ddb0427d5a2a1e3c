/** The checkout page (src/pages/Checkout.jsx): order arithmetic over the cart
    total, the three-step form as a small state machine, the step indicator, the
    card label on the review step and the choice of what the page shows. Money is
    in cents; tax and the final total are exact rationals. */
module Checkout {
  import opened Cart

  /** Orders whose subtotal exceeds this many cents ship free. */
  const FreeShippingAbove: int := 50000

  /** The flat shipping charge, in cents. */
  const ShippingCharge: int := 4900

  /** `shippingCost`: free exactly above $500, otherwise $49. */
  function ShippingCost(totalCents: int): (r: int)
    ensures r == 0 <==> totalCents > 50000
    ensures r == 0 || r == 4900
  {
    if totalCents > FreeShippingAbove then 0 else ShippingCharge
  }

  /** `tax`: 8% of the subtotal. */
  function Tax(totalCents: int): real
  {
    totalCents as real * 0.08
  }

  /** `finalTotal`: subtotal, shipping and tax, which is 108% of the subtotal plus
      shipping and never less than a non-negative subtotal. */
  function FinalTotal(totalCents: int): (r: real)
    ensures r == totalCents as real * 1.08 + ShippingCost(totalCents) as real
    ensures totalCents >= 0 ==> r >= totalCents as real
  {
    totalCents as real + ShippingCost(totalCents) as real + Tax(totalCents)
  }

  /** Shipping never rises as the subtotal grows, and a subtotal of exactly $500
      still pays it. */
  lemma ShippingNonIncreasing(t: int, u: int)
    requires t <= u
    ensures ShippingCost(u) <= ShippingCost(t)
    ensures ShippingCost(50000) == 4900
  {
  }

  /** Because shipping drops to zero just above $500, a cart of $500.01 costs less
      in total than a cart of exactly $500. */
  lemma FinalTotalDipsAtThreshold()
    ensures FinalTotal(50001) < FinalTotal(50000)
    ensures forall t :: t > 50000 ==> FinalTotal(t) == t as real * 1.08
  {
    assert FinalTotal(50000) == 58900.0;
    assert FinalTotal(50001) == 54001.08;
  }

  /** What the page renders. */
  datatype View = EmptyCart | OrderConfirmed | Form

  /** An empty cart shows the empty-cart message unless an order has just been
      placed; a placed order shows the confirmation. */
  function ViewFor(itemCount: int, orderComplete: bool): (r: View)
    ensures r == OrderConfirmed <==> orderComplete
    ensures r == EmptyCart <==> itemCount == 0 && !orderComplete
    ensures r == Form <==> itemCount != 0 && !orderComplete
  {
    if itemCount == 0 && !orderComplete then EmptyCart
    else if orderComplete then OrderConfirmed
    else Form
  }

  /** The step captions, in order. */
  const StepLabels: seq<string> := ["Shipping", "Payment", "Review"]

  /** What the indicator shows in place of a step's number. */
  datatype StepMarker = CheckMark | Number(n: int)

  /** One caption of the step indicator as rendered. */
  datatype StepView = StepView(caption: string, completed: bool, active: bool, marker: StepMarker)

  /** The step indicator: caption `index` is completed when `step > index + 1` and
      active when `step == index + 1`, and a completed caption shows a check mark
      in place of its number. On any step 1..3 exactly one caption is active,
      every caption before it is completed, and none after it is. */
  function Indicator(step: int): (r: seq<StepView>)
    ensures |r| == |StepLabels| == 3
    ensures forall i :: 0 <= i < 3 ==> r[i].caption == StepLabels[i]
    ensures 1 <= step <= 3 ==> r[step - 1].active
    ensures 1 <= step <= 3 ==> forall i :: 0 <= i < 3 && r[i].active ==> i == step - 1
    ensures forall i :: 0 <= i < 3 ==> (r[i].completed <==> i < step - 1)
    ensures forall i :: 0 <= i < 3 ==> r[i].marker == if i < step - 1 then CheckMark else Number(i + 1)
  {
    seq(3, index requires 0 <= index < 3 =>
      StepView(StepLabels[index], step > index + 1, step == index + 1,
               if step > index + 1 then CheckMark else Number(index + 1)))
  }

  /** `cardNumber.slice(-4) || '****'`: the last four characters, the whole number
      when it is shorter, and `****` when it is empty. */
  function CardLabel(cardNumber: string): (r: string)
    ensures cardNumber == "" ==> r == "****"
    ensures cardNumber != "" ==> |r| == (if |cardNumber| < 4 then |cardNumber| else 4)
                                  && r == cardNumber[|cardNumber| - |r|..]
  {
    var tail := if |cardNumber| >= 4 then cardNumber[|cardNumber| - 4..] else cardNumber;
    if tail == "" then "****" else tail
  }

  /** The checkout form's step machine, bound to the shared cart. */
  class CheckoutFlow {
    var step: int
    var isProcessing: bool
    var orderComplete: bool
    const cart: CartStore

    ghost predicate Valid()
      reads this, cart
    {
      1 <= step <= 3 && cart.Valid()
    }

    function CurrentView(): View
      reads this, cart
    {
      ViewFor(|cart.items|, orderComplete)
    }

    constructor (cart: CartStore)
      requires cart.Valid()
      ensures this.cart == cart && Valid()
      ensures step == 1 && !isProcessing && !orderComplete
    {
      this.cart := cart;
      step := 1;
      isProcessing := false;
      orderComplete := false;
    }

    /** `handleSubmit`: on steps 1 and 2 move to the next step; on the review step
        start processing the payment, leaving the step where it is. */
    method Submit()
      requires Valid()
      modifies this
      ensures Valid() && orderComplete == old(orderComplete)
      ensures old(step) < 3 ==> step == old(step) + 1 && isProcessing == old(isProcessing)
      ensures old(step) == 3 ==> step == 3 && isProcessing
    {
      if step < 3 {
        step := step + 1;
      } else {
        isProcessing := true;
      }
    }

    /** The payment timer's callback: the order is complete and the cart is
        emptied. */
    method PaymentSettled()
      requires Valid()
      modifies this, cart
      ensures Valid() && step == old(step)
      ensures !isProcessing && orderComplete && cart.items == []
    {
      isProcessing := false;
      orderComplete := true;
      cart.ClearCart();
    }

    /** The Back button, offered only after the first step. */
    method Back()
      requires Valid() && step > 1
      modifies this
      ensures Valid() && step == old(step) - 1
      ensures isProcessing == old(isProcessing) && orderComplete == old(orderComplete)
    {
      step := step - 1;
    }

    /** Submitting on the review step and the payment completing, taken as one
        transition: the cart ends empty, yet the page shows the confirmation rather
        than the empty-cart message. */
    method PlaceOrder()
      requires Valid() && step == 3
      modifies this, cart
      ensures Valid() && step == 3 && orderComplete && !isProcessing
      ensures cart.items == [] && cart.Total() == 0 && cart.Count() == 0
      ensures CurrentView() == OrderConfirmed
    {
      Submit();
      PaymentSettled();
    }
  }
}
