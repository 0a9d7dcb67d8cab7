/**
  The order summary of the checkout page (checkout/checkout.js): a single
  "Trip Subtotal" row taken from the stored cart subtotal, the service fee,
  the promo discount, and a total that never goes below zero.
 */
module CheckoutSummary {
  import opened Text
  import opened Ledger
  import CartSummary

  /** The stored `cartSubtotal` entry as the page finds it. */
  datatype Stored = Absent | Unparsable | Number(value: real)

  /** The page's two pieces of pricing state. */
  datatype Pricing = Pricing(subtotal: real, discount: real)

  /** Both start at zero: no cart context and no promo. */
  const InitialPricing := Pricing(0.0, 0.0)

  /** The subtotal after reading the stored entry: an absent entry leaves it
      as it was, one that does not parse as a number (or parses as zero)
      gives zero. */
  function ReadSubtotal(current: real, stored: Stored): (r: real)
    ensures stored.Absent? ==> r == current
    ensures stored.Unparsable? ==> r == 0.0
    ensures stored.Number? ==> r == stored.value
  {
    match stored
    case Absent => current
    case Unparsable => 0.0
    case Number(v) => v
  }

  /** The rows and the total for a subtotal and a discount. */
  function Render(p: Pricing): (s: Summary)
    ensures s.lines == [Line("Trip Subtotal", p.subtotal)] + Charges("Promo Discount", p.discount)
    ensures s.total >= 0.0
    ensures s.total >= p.subtotal + ServiceFee - p.discount
    ensures s.total == 0.0 || s.total == p.subtotal + ServiceFee - p.discount
    ensures p.discount >= 0.0 && Sum(s.lines) >= 0.0 ==> s.total == Sum(s.lines)
  {
    var lines := [Line("Trip Subtotal", p.subtotal)] + Charges("Promo Discount", p.discount);
    var raw := p.subtotal + ServiceFee - p.discount;
    assert p.discount >= 0.0 ==> Sum(lines) == raw by {
      if p.discount >= 0.0 {
        SumAppend([Line("Trip Subtotal", p.subtotal)], Charges("Promo Discount", p.discount));
        SumSingle(Line("Trip Subtotal", p.subtotal));
        ChargesSum("Promo Discount", p.discount);
      }
    }
    Summary(lines, if raw >= 0.0 then raw else 0.0)
  }

  /** `buildSummary`: re-read the stored subtotal, then list it, the fee and
      the discount, under a total that is the subtotal plus the fee less the
      discount, or zero when that would be negative. */
  function BuildSummary(p: Pricing, stored: Stored): (r: (Pricing, Summary))
    ensures r.0.discount == p.discount && r.0.subtotal == ReadSubtotal(p.subtotal, stored)
    ensures r.1.lines == [Line("Trip Subtotal", ReadSubtotal(p.subtotal, stored))] + Charges("Promo Discount", p.discount)
    ensures var raw := ReadSubtotal(p.subtotal, stored) + ServiceFee - p.discount;
      && r.1.total >= 0.0
      && r.1.total >= raw
      && (r.1.total == 0.0 || r.1.total == raw)
  {
    var q := p.(subtotal := ReadSubtotal(p.subtotal, stored));
    (q, Render(q))
  }

  const Save10 := "SAVE10"

  /** The promo rules: the early-bird codes give 200, SAVE10 gives a tenth
      of the current subtotal rounded to a whole amount, anything else none. */
  function PromoDiscount(code: string, subtotal: real): (d: real)
    ensures IsEarlyBird(NormalizeCode(code)) ==> d == EarlyBirdDiscount
    ensures NormalizeCode(code) == Save10 ==>
      d == Round(subtotal * 0.1) as real && subtotal * 0.1 - 0.5 < d <= subtotal * 0.1 + 0.5
    ensures !IsEarlyBird(NormalizeCode(code)) && NormalizeCode(code) != Save10 ==> d == 0.0
  {
    var c := NormalizeCode(code);
    if IsEarlyBird(c) then EarlyBirdDiscount
    else if c == Save10 then Round(subtotal * 0.1) as real
    else 0.0
  }

  /** A click on Apply: the discount is computed from the subtotal last
      read, then the summary is rebuilt. */
  function ApplyPromo(p: Pricing, code: string, stored: Stored): (r: (Pricing, Summary))
    ensures r.0.discount == PromoDiscount(code, p.subtotal)
  {
    BuildSummary(p.(discount := PromoDiscount(code, p.subtotal)), stored)
  }

  /** With a non-negative subtotal, SAVE10 never drives the total to the
      zero floor, and the discount is never negative. */
  lemma Save10NeverHitsFloor(subtotal: real)
    requires subtotal >= 0.0
    ensures var d := PromoDiscount(Save10, subtotal);
      d >= 0.0 && subtotal + ServiceFee - d > 0.0
  {
    Save10IsNormal();
  }

  lemma Save10IsNormal()
    ensures NormalizeCode(Save10) == Save10
  {
    Save10Trimmed();
    Save10Upper();
  }

  lemma Save10Upper()
    ensures ToUpper(Save10) == Save10
  {
    var u := ToUpper(Save10);
    assert u[0] == 'S' && u[1] == 'A' && u[2] == 'V' && u[3] == 'E' && u[4] == '1' && u[5] == '0';
  }

  lemma Save10Trimmed()
    ensures Trim(Save10) == Save10
  {
    assert [] + Save10 + [] == Save10;
    TrimOfParts([], Save10, []);
  }

  /** The early-bird discount empties the total exactly when the subtotal is
      under 111 (200 less the 89 fee). */
  lemma EarlyBirdFloor(subtotal: real)
    ensures Render(Pricing(subtotal, EarlyBirdDiscount)).total == 0.0 <==> subtotal <= 111.0
  {
  }

  /** Were the cart page to store the sum of its item rows as the subtotal,
      the checkout rows would add up to the cart page's (unclamped) total,
      and the checkout total would be that total clamped at zero. */
  lemma CheckoutTotalMatchesCart(p: Pricing, cart: CartSummary.Cart)
    requires p.discount == cart.discount && cart.discount >= 0.0
    ensures var r := BuildSummary(p, Number(Sum(CartSummary.ItemLines(cart.cards))));
      var cartTotal := CartSummary.BuildSummary(cart).total;
      && Sum(r.1.lines) == cartTotal
      && r.1.total == (if cartTotal >= 0.0 then cartTotal else 0.0)
  {
    var sub := Sum(CartSummary.ItemLines(cart.cards));
    CartSummary.ItemLinesSum(cart.cards);
    var r := BuildSummary(p, Number(sub));
    SumAppend([Line("Trip Subtotal", sub)], Charges("Promo Discount", p.discount));
    SumSingle(Line("Trip Subtotal", sub));
    ChargesSum("Promo Discount", p.discount);
  }
}
