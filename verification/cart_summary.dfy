/**
  The order summary of the cart page (cart/cart.js): one row per cart card,
  the service fee, the early-bird discount and the total; the promo field
  that switches the discount; and the delete buttons.
 */
module CartSummary {
  import opened Text
  import opened Ledger
  import Booking
  import CartEdit

  /** The cart page: its cards, in page order, and the current discount. */
  datatype Cart = Cart(cards: seq<CartEdit.Card>, discount: real)

  /** The page opens with the early-bird discount applied. */
  function InitialCart(cards: seq<CartEdit.Card>): Cart {
    Cart(cards, EarlyBirdDiscount)
  }

  /** `price * travelers`. */
  function LineTotal(card: CartEdit.Card): real {
    card.price * card.travelers as real
  }

  function Subtotal(cards: seq<CartEdit.Card>): real {
    if cards == [] then 0.0 else Subtotal(cards[..|cards| - 1]) + LineTotal(cards[|cards| - 1])
  }

  /** `buildSummary`'s running subtotal, one card at a time. */
  method ComputeSubtotal(cards: seq<CartEdit.Card>) returns (subtotal: real)
    ensures subtotal == Subtotal(cards)
  {
    subtotal := 0.0;
    var k := 0;
    while k < |cards|
      invariant 0 <= k <= |cards|
      invariant subtotal == Subtotal(cards[..k])
    {
      assert cards[..k + 1][..k] == cards[..k];
      subtotal := subtotal + cards[k].price * cards[k].travelers as real;
      k := k + 1;
    }
    assert cards[..k] == cards;
  }

  lemma {:induction false} SubtotalAppend(a: seq<CartEdit.Card>, b: seq<CartEdit.Card>)
    ensures Subtotal(a + b) == Subtotal(a) + Subtotal(b)
    decreases |b|
  {
    if b == [] {
      assert a + b == a;
    } else {
      var ab := a + b;
      assert ab[..|ab| - 1] == a + b[..|b| - 1];
      assert ab[|ab| - 1] == b[|b| - 1];
      SubtotalAppend(a, b[..|b| - 1]);
    }
  }

  /** Cards with non-negative prices give a non-negative subtotal. */
  lemma {:induction false} SubtotalNonNegative(cards: seq<CartEdit.Card>)
    requires forall k :: 0 <= k < |cards| ==> cards[k].price >= 0.0
    ensures Subtotal(cards) >= 0.0
  {
    if cards != [] {
      var front := cards[..|cards| - 1];
      assert forall k :: 0 <= k < |front| ==> front[k] == cards[k];
      SubtotalNonNegative(front);
    }
  }

  /** `${title} (${travelers} traveler${travelers > 1 ? 's' : ''})`, with
      "Tour" for a card without a title. */
  function ItemLabel(card: CartEdit.Card): (r: string)
    ensures StartsWith(r, if card.title == "" then "Tour" else card.title)
    ensures |r| >= 10
    ensures card.travelers > 1 <==> r[|r| - 10..] == "travelers)"
    ensures card.travelers <= 1 ==> r[|r| - 9..] == "traveler)"
  {
    var title := if card.title == "" then "Tour" else card.title;
    var noun := if card.travelers > 1 then " travelers)" else " traveler)";
    var head := title + " (" + NatToString(card.travelers);
    var r := head + noun;
    assert r[..|title|] == title;
    NounEnding(head, noun);
    r
  }

  /** The tail of a label is the noun that ends it, read from either end. */
  lemma NounEnding(head: string, noun: string)
    requires noun == " travelers)" || noun == " traveler)"
    ensures var r := head + noun;
      && |r| >= 10
      && (noun == " travelers)" ==> r[|r| - 10..] == "travelers)")
      && (noun == " traveler)" ==> r[|r| - 10..] == " traveler)" && r[|r| - 9..] == "traveler)")
  {
    var r := head + noun;
    assert r[|head|..] == noun;
    assert r[|r| - 10..] == noun[|noun| - 10..];
    assert r[|r| - 9..] == noun[|noun| - 9..];
  }

  function ItemLines(cards: seq<CartEdit.Card>): (r: seq<Line>)
    ensures |r| == |cards|
    ensures forall k :: 0 <= k < |cards| ==> r[k] == Line(ItemLabel(cards[k]), LineTotal(cards[k]))
  {
    seq(|cards|, k requires 0 <= k < |cards| => Line(ItemLabel(cards[k]), LineTotal(cards[k])))
  }

  /** The item rows add up to the subtotal. */
  lemma {:induction false} ItemLinesSum(cards: seq<CartEdit.Card>)
    ensures Sum(ItemLines(cards)) == Subtotal(cards)
    decreases |cards|
  {
    if cards != [] {
      var front := cards[..|cards| - 1];
      assert ItemLines(cards)[..|cards| - 1] == ItemLines(front);
      ItemLinesSum(front);
    }
  }

  /** `buildSummary`: the item rows, the fee, the discount row and a total
      that is not clamped, so it goes negative below a 111 subtotal. */
  function BuildSummary(cart: Cart): (s: Summary)
    ensures s.lines == ItemLines(cart.cards) + Charges("Early Bird Discount", cart.discount)
    ensures cart.discount >= 0.0 ==> s.total == Sum(s.lines)
  {
    var lines := ItemLines(cart.cards) + Charges("Early Bird Discount", cart.discount);
    var total := Subtotal(cart.cards) + ServiceFee - cart.discount;
    assert cart.discount >= 0.0 ==> total == Sum(lines) by {
      if cart.discount >= 0.0 {
        SumAppend(ItemLines(cart.cards), Charges("Early Bird Discount", cart.discount));
        ItemLinesSum(cart.cards);
        ChargesSum("Early Bird Discount", cart.discount);
      }
    }
    Summary(lines, total)
  }

  /** An empty cart with the default discount totals -111. */
  lemma EmptyCartTotalIsNegative()
    ensures BuildSummary(InitialCart([])).total == -111.0
  {
  }

  /** The cart summary with its total clamped at zero, as the checkout page
      clamps its own; the cart page itself does not clamp. */
  function ClampedSummary(cart: Cart): (s: Summary)
    ensures s.lines == ItemLines(cart.cards) + Charges("Early Bird Discount", cart.discount)
    ensures s.total >= 0.0
    ensures s.total == if Subtotal(cart.cards) + ServiceFee - cart.discount >= 0.0
                       then Subtotal(cart.cards) + ServiceFee - cart.discount else 0.0
    ensures cart.discount >= 0.0 && Sum(s.lines) >= 0.0 ==> s.total == Sum(s.lines)
  {
    var raw := BuildSummary(cart);
    Summary(raw.lines, if raw.total >= 0.0 then raw.total else 0.0)
  }

  /** The promo field: the early-bird codes set the 200 discount, any other
      code (the empty one and "NONE" included) removes it. */
  function PromoDiscount(code: string): (d: real)
    ensures d == 0.0 || d == EarlyBirdDiscount
    ensures d == EarlyBirdDiscount <==> IsEarlyBird(NormalizeCode(code))
  {
    if IsEarlyBird(NormalizeCode(code)) then EarlyBirdDiscount else 0.0
  }

  /** "eb200" typed in lower case earns the early-bird discount. */
  lemma LowerCaseCodeEarnsDiscount(code: string)
    requires code == "eb200"
    ensures PromoDiscount(code) == EarlyBirdDiscount
  {
    LowerCaseCodeTrimmed(code);
    LowerCaseCodeUpper(code);
  }

  lemma LowerCaseCodeTrimmed(code: string)
    requires code == "eb200"
    ensures Trim(code) == code
  {
    TrimOfTrimmed(code);
  }

  lemma LowerCaseCodeUpper(code: string)
    requires code == "eb200"
    ensures ToUpper(code) == "EB200"
  {
    var u := ToUpper(code);
    assert u[0] == 'E' && u[1] == 'B' && u[2] == '2' && u[3] == '0' && u[4] == '0';
  }

  /** "NONE" removes the discount. */
  lemma NoneCodeRemovesDiscount(code: string)
    requires code == "NONE"
    ensures PromoDiscount(code) == 0.0
  {
    NoneCodeNormal(code);
  }

  lemma NoneCodeNormal(code: string)
    requires code == "NONE"
    ensures NormalizeCode(code) == "NONE"
  {
    NoneCodeTrimmed(code);
    NoneCodeUpper(code);
  }

  lemma NoneCodeTrimmed(code: string)
    requires code == "NONE"
    ensures Trim(code) == code
  {
    TrimOfTrimmed(code);
  }

  lemma NoneCodeUpper(code: string)
    requires code == "NONE"
    ensures ToUpper(code) == code
  {
    var u := ToUpper(code);
    assert u[0] == 'N' && u[1] == 'O' && u[2] == 'N' && u[3] == 'E';
  }

  /** An empty code removes the discount. */
  lemma EmptyCodeRemovesDiscount(code: string)
    requires code == ""
    ensures PromoDiscount(code) == 0.0
  {
    TrimOfTrimmed(code);
    assert NormalizeCode(code) == [];
  }

  /** What the page does with the user's actions. */
  datatype Action =
    | ApplyPromo(code: string)
    | Delete(card: nat)
    | Save(card: nat, page: Booking.Page, modal: Booking.Modal, dateLabel: string)

  predicate ActionFits(cart: Cart, a: Action) {
    match a
    case ApplyPromo(_) => true
    case Delete(k) => k < |cart.cards|
    case Save(k, page, modal, _) => k < |cart.cards| && Booking.Fits(page, modal)
  }

  function Step(cart: Cart, a: Action): (r: Cart)
    requires ActionFits(cart, a)
    ensures a.ApplyPromo? ==> r.cards == cart.cards
    ensures !a.ApplyPromo? ==> r.discount == cart.discount
  {
    match a
    case ApplyPromo(code) => cart.(discount := PromoDiscount(code))
    case Delete(k) => cart.(cards := cart.cards[..k] + cart.cards[k + 1..])
    case Save(k, page, modal, dateLabel) =>
      cart.(cards := cart.cards[k := CartEdit.SaveEdits(page, modal, cart.cards[k], dateLabel)])
  }

  /** The discount is always none or the early-bird 200, whatever the user does. */
  lemma StepKeepsDiscountKnown(cart: Cart, a: Action)
    requires ActionFits(cart, a)
    requires cart.discount == 0.0 || cart.discount == EarlyBirdDiscount
    ensures var r := Step(cart, a); r.discount == 0.0 || r.discount == EarlyBirdDiscount
  {
  }

  /** Deleting a card takes exactly its row's amount off the subtotal. */
  lemma DeleteLowersSubtotal(cards: seq<CartEdit.Card>, k: nat)
    requires k < |cards|
    ensures Subtotal(cards[..k] + cards[k + 1..]) == Subtotal(cards) - LineTotal(cards[k])
  {
    SplitAround(cards, k);
    SubtotalAppend(cards[..k] + [cards[k]], cards[k + 1..]);
    SubtotalAppend(cards[..k], [cards[k]]);
    SubtotalAppend(cards[..k], cards[k + 1..]);
    SubtotalSingle(cards[k]);
  }

  /** Saving an edit changes the subtotal by the change in that card's row. */
  lemma SaveChangesSubtotal(cards: seq<CartEdit.Card>, k: nat, edited: CartEdit.Card)
    requires k < |cards|
    ensures Subtotal(cards[k := edited]) == Subtotal(cards) - LineTotal(cards[k]) + LineTotal(edited)
  {
    SplitAround(cards, k);
    SplitAround(cards[k := edited], k);
    assert cards[k := edited][..k] == cards[..k] && cards[k := edited][k + 1..] == cards[k + 1..];
    SubtotalAppend(cards[..k] + [cards[k]], cards[k + 1..]);
    SubtotalAppend(cards[..k] + [edited], cards[k + 1..]);
    SubtotalAppend(cards[..k], [cards[k]]);
    SubtotalAppend(cards[..k], [edited]);
    SubtotalSingle(cards[k]);
    SubtotalSingle(edited);
  }

  /** Saving the edit modal onto card `k` reprices only that card: its price
      is kept and it now counts the travelers on the counters, at least one. */
  lemma SaveStepSubtotal(cart: Cart, k: nat, page: Booking.Page, modal: Booking.Modal, dateLabel: string)
    requires ActionFits(cart, Save(k, page, modal, dateLabel))
    ensures var r := Step(cart, Save(k, page, modal, dateLabel));
      && |r.cards| == |cart.cards|
      && r.cards[k].price == cart.cards[k].price
      && r.cards[k].travelers == (if modal.shown.Sum() >= 1 then modal.shown.Sum() else 1)
      && Subtotal(r.cards) == Subtotal(cart.cards) - LineTotal(cart.cards[k]) + LineTotal(r.cards[k])
  {
    var edited := CartEdit.SaveEdits(page, modal, cart.cards[k], dateLabel);
    SaveChangesSubtotal(cart.cards, k, edited);
  }

  lemma SplitAround(s: seq<CartEdit.Card>, k: nat)
    requires k < |s|
    ensures s == s[..k] + [s[k]] + s[k + 1..]
  {
  }

  lemma SubtotalSingle(c: CartEdit.Card)
    ensures Subtotal([c]) == LineTotal(c)
  {
    assert [c][..0] == [];
  }
}
