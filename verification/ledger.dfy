/**
  What the cart summary (cart/cart.js) and the checkout summary
  (checkout/checkout.js) have in common: a list of labelled amounts and a
  total, the service fee, the reading of a promo code and `Math.round`.
 */
module Ledger {
  import opened Text

  /** The flat service fee both summaries charge. */
  const ServiceFee: real := 89.0

  /** The discount the early-bird codes grant. */
  const EarlyBirdDiscount: real := 200.0

  /** One row of a summary list: the left text and the amount on the right
      (the discount row shows a negative amount). */
  datatype Line = Line(caption: string, amount: real)

  /** A rendered summary: its rows and the total under them. */
  datatype Summary = Summary(lines: seq<Line>, total: real)

  function Sum(lines: seq<Line>): real {
    if lines == [] then 0.0 else Sum(lines[..|lines| - 1]) + lines[|lines| - 1].amount
  }

  lemma {:induction false} SumAppend(a: seq<Line>, b: seq<Line>)
    ensures Sum(a + b) == Sum(a) + Sum(b)
    decreases |b|
  {
    if b == [] {
      assert a + b == a;
    } else {
      var ab := a + b;
      assert ab[..|ab| - 1] == a + b[..|b| - 1];
      assert ab[|ab| - 1] == b[|b| - 1];
      SumAppend(a, b[..|b| - 1]);
    }
  }

  lemma SumSingle(x: Line)
    ensures Sum([x]) == x.amount
  {
    assert [x][..0] == [];
  }

  /** The service fee row and, when there is a positive discount, the
      discount row. */
  function Charges(discountLabel: string, discount: real): (r: seq<Line>)
    ensures |r| == if discount > 0.0 then 2 else 1
    ensures r[0] == Line("Service Fee", ServiceFee)
    ensures discount > 0.0 ==> r[1] == Line(discountLabel, -discount)
  {
    [Line("Service Fee", ServiceFee)] + (if discount > 0.0 then [Line(discountLabel, -discount)] else [])
  }

  /** The charge rows add up to the fee less the discount, whenever the
      discount is not negative (a zero discount has no row and costs nothing). */
  lemma ChargesSum(discountLabel: string, discount: real)
    requires discount >= 0.0
    ensures Sum(Charges(discountLabel, discount)) == ServiceFee - discount
  {
    var fee := Line("Service Fee", ServiceFee);
    SumSingle(fee);
    if discount > 0.0 {
      var d := Line(discountLabel, -discount);
      assert Charges(discountLabel, discount) == [fee] + [d];
      SumAppend([fee], [d]);
      SumSingle(d);
    } else {
      assert Charges(discountLabel, discount) == [fee];
    }
  }

  /** `value.trim().toUpperCase()`. */
  function NormalizeCode(code: string): (r: string)
    ensures |r| <= |code|
    ensures ToUpper(Trim(r)) == r
  {
    var r := ToUpper(Trim(code));
    TrimToUpperCommute(Trim(code));
    TrimIdempotent(code);
    ToUpperIdempotent(Trim(code));
    r
  }

  /** A code already trimmed and in upper case is its own normal form, so
      the normal form is the code itself for "EB200" and "SAVE10". */
  lemma NormalizeKeepsNormal(code: string)
    requires Trim(code) == code && ToUpper(code) == code
    ensures NormalizeCode(code) == code
  {
  }

  /** Padding and letter case do not change a code. */
  lemma NormalizeIgnoresPaddingAndCase(p: string, code: string, q: string)
    requires AllSpace(p) && AllSpace(q)
    ensures NormalizeCode(p + code + q) == NormalizeCode(code)
    ensures NormalizeCode(ToUpper(code)) == NormalizeCode(code)
  {
    TrimIgnoresPadding(p, code, q);
    TrimToUpperCommute(code);
    ToUpperIdempotent(Trim(code));
  }

  predicate IsEarlyBird(code: string) {
    code == "EARLYBIRD" || code == "EB200"
  }

  /** `Math.round(x)`: the nearest integer, halves rounded up. */
  function Round(x: real): (r: int)
    ensures x - 0.5 < r as real <= x + 0.5
  {
    (x + 0.5).Floor
  }

  /** Rounding is monotone and leaves integers alone. */
  lemma RoundProperties(x: real, y: real, n: int)
    ensures x <= y ==> Round(x) <= Round(y)
    ensures Round(n as real) == n
  {
  }
}
