/**
  The booking-options modal of the cart page (cart/cart-booking.js): the
  selection the modal holds, the counters and add-on steppers that change it,
  the single-select option cards, the step summaries and the running total.

  The script reads the value a counter button starts from out of the
  counter's DISPLAYED text, not out of the selection, so the modal keeps the
  displayed counts (`shown`, `qtyShown`) next to the selection.
 */
module Booking {
  import opened Optional
  import opened Text

  // ---------------------------------------------------------------------------
  // Data model
  // ---------------------------------------------------------------------------

  /** The three counter rows, keyed by their `data-type`. */
  datatype Participant = Adult | Child | Infant

  /** Participant counts: `state.participants`, or the three counters' texts. */
  datatype Counts = Counts(adults: nat, children: nat, infants: nat) {
    function Get(who: Participant): nat {
      match who
      case Adult => adults
      case Child => children
      case Infant => infants
    }

    function Set(who: Participant, n: nat): (c: Counts)
      ensures c.Get(who) == n
      ensures forall other :: other != who ==> c.Get(other) == Get(other)
    {
      match who
      case Adult => this.(adults := n)
      case Child => this.(children := n)
      case Infant => this.(infants := n)
    }

    function Sum(): nat {
      adults + children + infants
    }
  }

  /** One entry of `state.addons`. */
  datatype Addon = Addon(name: string, qty: nat, price: real)

  /** The modal's `state`, without its constant price table. */
  datatype Selection = Selection(
    date: Option<string>,
    time: Option<string>,
    language: string,
    option: string,
    participants: Counts,
    addons: seq<Addon>)

  const InitialCounts := Counts(1, 0, 0)
  const InitialSelection := Selection(None, None, "English", "basic", InitialCounts, [])

  // ---------------------------------------------------------------------------
  // Prices and the total (updateTotal)
  // ---------------------------------------------------------------------------

  const AdultPrice: real := 17.5
  const ChildPrice: real := 10.0
  /** Listed in the price table, never charged: infants do not enter the total. */
  const InfantPrice: real := 0.0

  /** `state.prices.options[option] || 0`. */
  function OptionFee(option: string): real {
    if option == "basic" then 0.0
    else if option == "entrance" then 4.5
    else if option == "parasailing" then 18.5
    else 0.0
  }

  function AddonCost(a: Addon): real {
    a.price * a.qty as real
  }

  /** `addons.reduce((sum, a) => sum + a.price * a.qty, 0)`, folded from the left. */
  function AddonsFee(addons: seq<Addon>): real {
    if addons == [] then 0.0 else AddonsFee(addons[..|addons| - 1]) + AddonCost(addons[|addons| - 1])
  }

  /** The per-head part of the total. */
  function ParticipantsFee(p: Counts): real {
    p.adults as real * AdultPrice + p.children as real * ChildPrice
  }

  function Total(s: Selection): real {
    ParticipantsFee(s.participants) + OptionFee(s.option) + AddonsFee(s.addons)
  }

  /** `updateTotal`: one pass over the add-ons, as the script's reduce does it. */
  method ComputeTotal(s: Selection) returns (total: real)
    ensures total == Total(s)
  {
    var base := s.participants.adults as real * AdultPrice + s.participants.children as real * ChildPrice;
    var optionFee := OptionFee(s.option);
    var addonsFee := 0.0;
    var k := 0;
    while k < |s.addons|
      invariant 0 <= k <= |s.addons|
      invariant addonsFee == AddonsFee(s.addons[..k])
    {
      assert s.addons[..k + 1][..k] == s.addons[..k];
      addonsFee := addonsFee + s.addons[k].price * s.addons[k].qty as real;
      k := k + 1;
    }
    assert s.addons[..k] == s.addons;
    total := base + optionFee + addonsFee;
  }

  /** The add-on fee splits over a concatenation. */
  lemma {:induction false} AddonsFeeAppend(a: seq<Addon>, b: seq<Addon>)
    ensures AddonsFee(a + b) == AddonsFee(a) + AddonsFee(b)
    decreases |b|
  {
    if b == [] {
      assert a + b == a;
    } else {
      var ab := a + b;
      assert ab[..|ab| - 1] == a + b[..|b| - 1];
      assert ab[|ab| - 1] == b[|b| - 1];
      AddonsFeeAppend(a, b[..|b| - 1]);
    }
  }

  /** Replacing one entry changes the add-on fee by exactly the difference of the two entries' costs. */
  lemma AddonsFeeReplace(a: seq<Addon>, k: nat, x: Addon)
    requires k < |a|
    ensures AddonsFee(a[k := x]) == AddonsFee(a) - AddonCost(a[k]) + AddonCost(x)
  {
    assert a == a[..k] + [a[k]] + a[k + 1..];
    assert a[k := x] == a[..k] + [x] + a[k + 1..];
    AddonsFeeAppend(a[..k] + [a[k]], a[k + 1..]);
    AddonsFeeAppend(a[..k] + [x], a[k + 1..]);
    AddonsFeeAppend(a[..k], [a[k]]);
    AddonsFeeAppend(a[..k], [x]);
  }

  /** The total is the per-head fees, the option fee and the add-on costs,
      and the infant count never enters it. */
  lemma TotalIgnoresInfants(s: Selection, n: nat)
    ensures Total(s.(participants := s.participants.(infants := n))) == Total(s)
    ensures Total(s) == s.participants.adults as real * 17.5 + s.participants.children as real * 10.0
                        + OptionFee(s.option) + AddonsFee(s.addons)
  {
  }

  /** Options outside the price table cost nothing. */
  lemma UnknownOptionIsFree(option: string)
    requires option != "basic" && option != "entrance" && option != "parasailing"
    ensures OptionFee(option) == 0.0
  {
  }

  // ---------------------------------------------------------------------------
  // Participant counters (setCount, minus, plus)
  // ---------------------------------------------------------------------------

  /** The lowest value the minus button leaves: one adult, zero children or infants. */
  function Floor(who: Participant): nat {
    if who == Adult then 1 else 0
  }

  /** The value the minus button writes, from the counter's displayed value:
      `Math.max(0, current - 1)`, then at least one for adults. */
  function MinusValue(who: Participant, current: nat): (n: nat)
    ensures n >= Floor(who)
    ensures current > Floor(who) ==> n == current - 1
    ensures current <= Floor(who) ==> n == Floor(who)
  {
    var next := if current >= 1 then current - 1 else 0;
    if who == Adult then (if next >= 1 then next else 1) else next
  }

  /** The summary line of the participants step. */
  function ParticipantsSummary(p: Counts): string {
    "Adults " + NatToString(p.adults) + " \U{00B7} Children " + NatToString(p.children)
      + " \U{00B7} Infants " + NatToString(p.infants)
  }

  /** The participants summary names its counts: two different counts never
      share a summary. */
  lemma ParticipantsSummaryInjective(p: Counts, q: Counts)
    requires ParticipantsSummary(p) == ParticipantsSummary(q)
    ensures p == q
  {
    SummaryParts(p);
    SummaryParts(q);
    var sep1, sep2 := " \U{00B7} Children ", " \U{00B7} Infants ";
    CancelPrefix("Adults ", NatToString(p.adults) + (sep1 + (NatToString(p.children) + (sep2 + NatToString(p.infants)))),
                            NatToString(q.adults) + (sep1 + (NatToString(q.children) + (sep2 + NatToString(q.infants)))));
    NumeralHead(NatToString(p.adults), sep1 + (NatToString(p.children) + (sep2 + NatToString(p.infants))),
                NatToString(q.adults), sep1 + (NatToString(q.children) + (sep2 + NatToString(q.infants))));
    CancelPrefix(sep1, NatToString(p.children) + (sep2 + NatToString(p.infants)),
                       NatToString(q.children) + (sep2 + NatToString(q.infants)));
    NumeralHead(NatToString(p.children), sep2 + NatToString(p.infants),
                NatToString(q.children), sep2 + NatToString(q.infants));
    CancelPrefix(sep2, NatToString(p.infants), NatToString(q.infants));
  }

  /** The summary, grouped from the right. */
  lemma SummaryParts(p: Counts)
    ensures ParticipantsSummary(p) == "Adults " + (NatToString(p.adults) + (" \U{00B7} Children "
      + (NatToString(p.children) + (" \U{00B7} Infants " + NatToString(p.infants)))))
  {
    var a, c, i := NatToString(p.adults), NatToString(p.children), NatToString(p.infants);
    Regroup("Adults ", a, " \U{00B7} Children ");
    Regroup4("Adults " + a, " \U{00B7} Children ", c, " \U{00B7} Infants ");
    Regroup4("Adults ", a, " \U{00B7} Children " + (c + " \U{00B7} Infants "), i);
    Regroup(" \U{00B7} Children ", c, " \U{00B7} Infants ");
    Regroup(c, " \U{00B7} Infants ", i);
    Regroup(" \U{00B7} Children ", c + " \U{00B7} Infants ", i);
    Regroup(" \U{00B7} Children ", c, " \U{00B7} Infants " + i);
  }

  lemma CancelPrefix(p: string, x: string, y: string)
    requires p + x == p + y
    ensures x == y
  {
    assert x == (p + x)[|p|..];
  }

  /** Two numerals, each followed by a non-digit or nothing, that begin the
      same text are the same numeral. */
  lemma NumeralHead(a: string, x: string, b: string, y: string)
    requires AllDigits(a) && AllDigits(b)
    requires x == [] || !IsDigit(x[0])
    requires y == [] || !IsDigit(y[0])
    requires a + x == b + y
    ensures a == b && x == y
  {
    DigitPrefixOfNumeral(a, x);
    DigitPrefixOfNumeral(b, y);
    CancelPrefix(a, x, y);
  }

  // ---------------------------------------------------------------------------
  // Add-ons (setQty, minus, plus)
  // ---------------------------------------------------------------------------

  predicate UniqueNames(addons: seq<Addon>) {
    forall i, j :: 0 <= i < j < |addons| ==> addons[i].name != addons[j].name
  }

  predicate HasName(addons: seq<Addon>, name: string) {
    exists k :: 0 <= k < |addons| && addons[k].name == name
  }

  /** `state.addons.find(a => a.name === name)`, as an index. */
  function FindAddon(addons: seq<Addon>, name: string): (r: Option<nat>)
    ensures r.None? <==> !HasName(addons, name)
    ensures r.Some? ==> r.value < |addons| && addons[r.value].name == name
    ensures r.Some? ==> forall k :: 0 <= k < r.value ==> addons[k].name != name
  {
    if addons == [] then None
    else if addons[0].name == name then Some(0)
    else
      match FindAddon(addons[1..], name)
      case None =>
        assert forall k :: 1 <= k < |addons| ==> addons[k] == addons[1..][k - 1];
        None
      case Some(k) => Some(k + 1)
  }

  /** FindAddon returns the first index carrying the name. */
  lemma FindAddonFirst(addons: seq<Addon>, name: string, k: nat)
    requires k < |addons| && addons[k].name == name
    requires forall j :: 0 <= j < k ==> addons[j].name != name
    ensures FindAddon(addons, name) == Some(k)
  {
    assert HasName(addons, name);
  }

  /** `setQty`'s update of `state.addons`: overwrite the quantity and price of
      the entry with that name, or append a new entry. */
  function Upsert(addons: seq<Addon>, name: string, qty: nat, price: real): (r: seq<Addon>)
    ensures |r| == if HasName(addons, name) then |addons| else |addons| + 1
    ensures forall k :: 0 <= k < |addons| && addons[k].name != name ==> r[k] == addons[k]
    ensures Addon(name, qty, price) in r
    ensures UniqueNames(addons) ==> UniqueNames(r)
    ensures UniqueNames(addons) ==> forall k :: 0 <= k < |r| && r[k].name == name ==> r[k] == Addon(name, qty, price)
  {
    var entry := Addon(name, qty, price);
    match FindAddon(addons, name)
    case Some(k) =>
      var r := addons[k := entry];
      assert r[k] == entry;
      r
    case None =>
      var r := addons + [entry];
      assert r[|addons|] == entry;
      r
  }

  /** Setting the same add-on twice keeps only the second quantity: the entry is
      overwritten, never duplicated. */
  lemma UpsertOverwrites(addons: seq<Addon>, name: string, q1: nat, p1: real, q2: nat, p2: real)
    ensures Upsert(Upsert(addons, name, q1, p1), name, q2, p2) == Upsert(addons, name, q2, p2)
  {
    var once := Upsert(addons, name, q1, p1);
    match FindAddon(addons, name)
    case Some(k) =>
      FindAddonFirst(once, name, k);
    case None =>
      FindAddonFirst(once, name, |addons|);
      assert once[|addons| := Addon(name, q2, p2)] == addons + [Addon(name, q2, p2)];
  }

  /** Setting a new add-on adds its quantity at its price to the add-on fee. */
  lemma UpsertNewFee(addons: seq<Addon>, name: string, qty: nat, price: real)
    requires !HasName(addons, name)
    ensures AddonsFee(Upsert(addons, name, qty, price)) == AddonsFee(addons) + AddonCost(Addon(name, qty, price))
  {
    UpsertAppends(addons, name, qty, price);
    AddonsFeeSnoc(addons, Addon(name, qty, price));
  }

  lemma AddonsFeeSnoc(addons: seq<Addon>, x: Addon)
    ensures AddonsFee(addons + [x]) == AddonsFee(addons) + AddonCost(x)
  {
    assert (addons + [x])[..|addons|] == addons;
  }

  lemma UpsertAppends(addons: seq<Addon>, name: string, qty: nat, price: real)
    requires !HasName(addons, name)
    ensures Upsert(addons, name, qty, price) == addons + [Addon(name, qty, price)]
  {
    assert FindAddon(addons, name) == None;
  }

  /** Setting an existing add-on replaces its old cost by the new quantity at the new price. */
  lemma UpsertExistingFee(addons: seq<Addon>, k: nat, qty: nat, price: real)
    requires UniqueNames(addons) && k < |addons|
    ensures AddonsFee(Upsert(addons, addons[k].name, qty, price))
         == AddonsFee(addons) - AddonCost(addons[k]) + AddonCost(Addon(addons[k].name, qty, price))
  {
    var entry := Addon(addons[k].name, qty, price);
    assert forall j :: 0 <= j < k ==> addons[j].name != addons[k].name;
    FindAddonFirst(addons, addons[k].name, k);
    assert Upsert(addons, addons[k].name, qty, price) == addons[k := entry];
    AddonsFeeReplace(addons, k, entry);
  }

  /** The add-ons with a positive quantity, in list order. */
  function Chosen(addons: seq<Addon>): (r: seq<Addon>)
    ensures |r| <= |addons|
    ensures forall x :: x in r <==> x in addons && x.qty > 0
  {
    if addons == [] then []
    else (if addons[0].qty > 0 then [addons[0]] else []) + Chosen(addons[1..])
  }

  /** Choosing keeps list order: it works piecewise over a concatenation. */
  lemma {:induction false} ChosenAppend(a: seq<Addon>, b: seq<Addon>)
    ensures Chosen(a + b) == Chosen(a) + Chosen(b)
  {
    if a == [] {
      assert a + b == b;
    } else {
      assert (a + b)[0] == a[0];
      assert (a + b)[1..] == a[1..] + b;
      ChosenAppend(a[1..], b);
    }
  }

  /** `"<name> x<qty>"`. */
  function AddonLabel(a: Addon): string {
    a.name + " x" + NatToString(a.qty)
  }

  /** The labels of a list of add-ons joined by ", ": the add-ons step summary
      and the cart card's add-ons line share this format. */
  function AddonsLine(chosen: seq<Addon>): string {
    Join(seq(|chosen|, k requires 0 <= k < |chosen| => AddonLabel(chosen[k])), ", ")
  }

  const NoAddons := "No add-ons"

  /** The summary line of the add-ons step. */
  function AddonsSummary(addons: seq<Addon>): string {
    var chosen := Chosen(addons);
    if chosen == [] then NoAddons else AddonsLine(chosen)
  }

  /** The add-ons summary reads "No add-ons" exactly when no entry has a
      positive quantity; any other summary lists the chosen entries. */
  lemma NoAddonsIffNoneChosen(addons: seq<Addon>)
    ensures AddonsSummary(addons) == NoAddons <==> forall k :: 0 <= k < |addons| ==> addons[k].qty == 0
    ensures AddonsSummary(addons) != NoAddons ==> AddonsSummary(addons) == AddonsLine(Chosen(addons))
  {
    ChosenEmptyIff(addons);
    var chosen := Chosen(addons);
    if chosen != [] {
      AddonsLineEndsInDigit(chosen);
      assert NoAddons[|NoAddons| - 1] == 's';
    }
  }

  /** Nothing is chosen exactly when every quantity is zero. */
  lemma ChosenEmptyIff(addons: seq<Addon>)
    ensures Chosen(addons) == [] <==> forall k :: 0 <= k < |addons| ==> addons[k].qty == 0
  {
    var chosen := Chosen(addons);
    if chosen != [] {
      assert chosen[0] in addons;
    } else {
      forall k | 0 <= k < |addons| ensures addons[k].qty == 0 {
        assert addons[k] in addons;
      }
    }
  }

  /** A non-empty add-ons line ends in the last entry's quantity. */
  lemma AddonsLineEndsInDigit(chosen: seq<Addon>)
    requires chosen != []
    ensures var line := AddonsLine(chosen); line != [] && IsDigit(line[|line| - 1])
  {
    var labels := seq(|chosen|, k requires 0 <= k < |chosen| => AddonLabel(chosen[k]));
    assert labels[|labels| - 1] == AddonLabel(chosen[|chosen| - 1]);
    JoinEndsWithLast(labels, ", ");
  }

  // ---------------------------------------------------------------------------
  // Option cards (selectOption, updateOptionSelectionUI)
  // ---------------------------------------------------------------------------

  /** An option card: its `data-option` value, the text of its `.title`
      element if it has one, and whether the page marks it selected at load. */
  datatype OptionCard = OptionCard(value: string, title: Option<string>, preselected: bool)

  /** `t ? t.textContent.trim() : opt`: the options step summary for a card. */
  function CardTitle(card: OptionCard): string {
    match card.title
    case Some(t) => Trim(t)
    case None => card.value
  }

  /** `updateOptionSelectionUI`: the `selected` mark of every card. */
  function Marks(cards: seq<OptionCard>, option: string): (m: seq<bool>)
    ensures |m| == |cards|
  {
    seq(|cards|, k requires 0 <= k < |cards| => cards[k].value == option)
  }

  function CountMarked(m: seq<bool>): nat {
    if m == [] then 0 else (if m[0] then 1 else 0) + CountMarked(m[1..])
  }

  predicate DistinctValues(cards: seq<OptionCard>) {
    forall i, j :: 0 <= i < j < |cards| ==> cards[i].value != cards[j].value
  }

  /** When the option values are distinct, exactly the card carrying the
      current option is marked, and it is the only one. */
  lemma {:induction false} ExactlyOneMarked(cards: seq<OptionCard>, k: nat)
    requires DistinctValues(cards)
    requires k < |cards|
    ensures Marks(cards, cards[k].value)[k]
    ensures CountMarked(Marks(cards, cards[k].value)) == 1
  {
    var opt := cards[k].value;
    var m := Marks(cards, opt);
    if k == 0 {
      NoneMarked(cards[1..], opt);
      assert Marks(cards[1..], opt) == m[1..];
    } else {
      assert DistinctValues(cards[1..]);
      assert cards[1..][k - 1] == cards[k];
      ExactlyOneMarked(cards[1..], k - 1);
      assert Marks(cards[1..], opt) == m[1..];
      assert cards[0].value != opt;
    }
  }

  /** No card is marked when none carries the option. */
  lemma {:induction false} NoneMarked(cards: seq<OptionCard>, opt: string)
    requires forall j :: 0 <= j < |cards| ==> cards[j].value != opt
    ensures CountMarked(Marks(cards, opt)) == 0
  {
    if cards != [] {
      assert Marks(cards[1..], opt) == Marks(cards, opt)[1..];
      NoneMarked(cards[1..], opt);
    }
  }

  /** The card the script starts from: the first one the page marks selected,
      else the first card. */
  function InitialCard(cards: seq<OptionCard>): (r: Option<nat>)
    ensures r.None? <==> cards == []
    ensures r.Some? ==> r.value < |cards|
    ensures r.Some? && cards[r.value].preselected ==> forall j :: 0 <= j < r.value ==> !cards[j].preselected
    ensures r.Some? && !cards[r.value].preselected ==> r.value == 0 && forall j :: 0 <= j < |cards| ==> !cards[j].preselected
  {
    FirstPreselected(cards, 0)
  }

  function FirstPreselected(cards: seq<OptionCard>, from: nat): (r: Option<nat>)
    requires from <= |cards|
    requires forall j :: 0 <= j < from ==> !cards[j].preselected
    ensures r.None? <==> cards == []
    ensures r.Some? ==> r.value < |cards|
    ensures r.Some? && cards[r.value].preselected ==> forall j :: 0 <= j < r.value ==> !cards[j].preselected
    ensures r.Some? && !cards[r.value].preselected ==> r.value == 0 && forall j :: 0 <= j < |cards| ==> !cards[j].preselected
    decreases |cards| - from
  {
    if from == |cards| then (if cards == [] then None else Some(0))
    else if cards[from].preselected then Some(from)
    else FirstPreselected(cards, from + 1)
  }

  // ---------------------------------------------------------------------------
  // The modal: page furniture, state, events
  // ---------------------------------------------------------------------------

  /** An add-on's name: the `.addon-name` text, else the `data-addon`
      attribute, else "Addon" (empty texts count as missing), trimmed. */
  function ItemName(nameText: Option<string>, dataAddon: Option<string>): (r: string)
    ensures nameText.Some? && nameText.value != [] ==> r == Trim(nameText.value)
    ensures (nameText.None? || nameText.value == []) && dataAddon.Some? && dataAddon.value != [] ==> r == Trim(dataAddon.value)
    ensures (nameText.None? || nameText.value == []) && (dataAddon.None? || dataAddon.value == []) ==> r == "Addon"
  {
    if nameText.Some? && nameText.value != [] then Trim(nameText.value)
    else if dataAddon.Some? && dataAddon.value != [] then Trim(dataAddon.value)
    else AddonIsTrimmed(); "Addon"
  }

  lemma AddonIsTrimmed()
    ensures Trim("Addon") == "Addon"
  {
    assert [] + "Addon" + [] == "Addon";
    TrimOfParts([], "Addon", []);
  }

  /** An add-on stepper: its name (see ItemName), its `data-price`, and the quantity
      its counter shows when the page loads. */
  datatype AddonItem = AddonItem(name: string, price: real, qtyAtLoad: nat)

  /** What the page supplies: option cards, add-on steppers, the `data-time`
      and `data-lang` values of the time and language buttons, the counters'
      texts at load, and any time or language button marked active at load. */
  datatype Page = Page(
    cards: seq<OptionCard>,
    items: seq<AddonItem>,
    times: seq<string>,
    languages: seq<string>,
    countsAtLoad: Counts,
    activeTimeAtLoad: Option<string>,
    activeLanguageAtLoad: Option<string>)

  /** The `.selected-summary` texts the script has written (None: the page's own text). */
  datatype Steps = Steps(
    date: Option<string>,
    time: Option<string>,
    language: Option<string>,
    options: Option<string>,
    participants: Option<string>,
    addons: Option<string>)

  /** The modal: the selection, the counters' displayed values, the active time
      and language buttons, and the step summaries. */
  datatype Modal = Modal(
    sel: Selection,
    shown: Counts,
    qtyShown: seq<nat>,
    activeTime: Option<string>,
    activeLanguage: Option<string>,
    steps: Steps)

  predicate Fits(page: Page, m: Modal) {
    |m.qtyShown| == |page.items|
  }

  /** What holds of the selection whatever the user does. */
  predicate Inv(page: Page, m: Modal) {
    && Fits(page, m)
    && m.sel.participants.adults >= 1
    && UniqueNames(m.sel.addons)
    && OptionOnCard(page, m)
  }

  /** When the script starts from a card with a value, the option is always
      the value of some card. */
  predicate OptionOnCard(page: Page, m: Modal) {
    page.cards != [] && StartValue(page) != "" ==> m.sel.option in Values(page.cards)
  }

  /** The modal once the script has run at page load. */
  function Init(page: Page): (m: Modal)
    ensures Inv(page, m)
    ensures m.sel.participants == InitialCounts && m.shown == page.countsAtLoad
    ensures page.cards != [] && StartValue(page) != "" ==> m.sel.option in Values(page.cards)
    ensures page.cards == [] ==> m.sel.option == InitialSelection.option && m.steps.options == None
    ensures page.cards != [] ==>
      var card := page.cards[InitialCard(page.cards).value];
      && m.sel.option == (if card.value != "" then card.value else InitialSelection.option)
      && m.steps.options == Some(if card.title.Some? then Trim(card.title.value) else m.sel.option)
  {
    var base := Steps(None, None, None, None, Some(ParticipantsSummary(InitialCounts)), None);
    var qty := seq(|page.items|, k requires 0 <= k < |page.items| => page.items[k].qtyAtLoad);
    match InitialCard(page.cards)
    case None =>
      Modal(InitialSelection, page.countsAtLoad, qty, page.activeTimeAtLoad, page.activeLanguageAtLoad, base)
    case Some(k) =>
      var card := page.cards[k];
      var option := if card.value != "" then card.value else InitialSelection.option;
      Modal(InitialSelection.(option := option), page.countsAtLoad, qty, page.activeTimeAtLoad,
            page.activeLanguageAtLoad, base.(options := Some(match card.title case Some(t) => Trim(t) case None => option)))
  }

  /** The value of the card the script starts from ("" when there is none). */
  function StartValue(page: Page): string {
    match InitialCard(page.cards)
    case None => ""
    case Some(k) => page.cards[k].value
  }

  /** A start card with neither a value nor a title leaves the default
      option "basic" selected, and the options step shows "basic" too. */
  lemma InitUntitledBlankCard(page: Page)
    requires page.cards == [OptionCard("", None, false)]
    ensures Init(page).sel.option == "basic" && Init(page).steps.options == Some("basic")
  {
  }

  function Values(cards: seq<OptionCard>): set<string> {
    set k | 0 <= k < |cards| :: cards[k].value
  }

  /** `setCount(n)`: the counter shows `n`, the selection holds `n`, the
      participants summary is rewritten. */
  function SetCount(m: Modal, who: Participant, n: nat): (r: Modal)
    ensures r.shown.Get(who) == n && r.sel.participants.Get(who) == n
    ensures forall other :: other != who ==>
      r.shown.Get(other) == m.shown.Get(other) && r.sel.participants.Get(other) == m.sel.participants.Get(other)
    ensures r.steps.participants == Some(ParticipantsSummary(r.sel.participants))
    ensures r.sel.addons == m.sel.addons && r.sel.option == m.sel.option && r.qtyShown == m.qtyShown
  {
    var sel := m.sel.(participants := m.sel.participants.Set(who, n));
    m.(sel := sel, shown := m.shown.Set(who, n), steps := m.steps.(participants := Some(ParticipantsSummary(sel.participants))))
  }

  /** A click on a counter's minus button. */
  function ClickMinus(m: Modal, who: Participant): (r: Modal)
    ensures r.sel.participants.Get(who) >= Floor(who)
    ensures m.shown.Get(who) > Floor(who) ==> r.sel.participants.Get(who) == m.shown.Get(who) - 1
    ensures m.shown.Get(who) <= Floor(who) ==> r.sel.participants.Get(who) == Floor(who)
    ensures r.shown.Get(who) == r.sel.participants.Get(who)
    ensures forall other :: other != who ==>
      r.shown.Get(other) == m.shown.Get(other) && r.sel.participants.Get(other) == m.sel.participants.Get(other)
  {
    SetCount(m, who, MinusValue(who, m.shown.Get(who)))
  }

  /** A click on a counter's plus button: one more than displayed, no upper bound. */
  function ClickPlus(m: Modal, who: Participant): (r: Modal)
    ensures r.sel.participants.Get(who) == m.shown.Get(who) + 1
    ensures r.shown.Get(who) == m.shown.Get(who) + 1
    ensures forall other :: other != who ==>
      r.shown.Get(other) == m.shown.Get(other) && r.sel.participants.Get(other) == m.sel.participants.Get(other)
  {
    SetCount(m, who, m.shown.Get(who) + 1)
  }

  /** `setQty(q)` on add-on stepper `i`. */
  function SetQty(page: Page, m: Modal, i: nat, q: nat): (r: Modal)
    requires Fits(page, m) && i < |page.items|
    ensures Fits(page, r)
    ensures r.qtyShown == m.qtyShown[i := q]
    ensures r.sel.addons == Upsert(m.sel.addons, page.items[i].name, q, page.items[i].price)
    ensures r.sel.participants == m.sel.participants && r.sel.option == m.sel.option
    ensures r.steps.addons == Some(AddonsSummary(r.sel.addons))
  {
    var item := page.items[i];
    var sel := m.sel.(addons := Upsert(m.sel.addons, item.name, q, item.price));
    m.(sel := sel, qtyShown := m.qtyShown[i := q], steps := m.steps.(addons := Some(AddonsSummary(sel.addons))))
  }

  /** A click on an add-on's minus button: one less than displayed, never below zero. */
  function ClickAddonMinus(page: Page, m: Modal, i: nat): (r: Modal)
    requires Fits(page, m) && i < |page.items|
    ensures Fits(page, r)
    ensures m.qtyShown[i] > 0 ==> r.qtyShown[i] == m.qtyShown[i] - 1
    ensures m.qtyShown[i] == 0 ==> r.qtyShown[i] == 0
  {
    var current := m.qtyShown[i];
    SetQty(page, m, i, if current >= 1 then current - 1 else 0)
  }

  /** A click on an add-on's plus button. */
  function ClickAddonPlus(page: Page, m: Modal, i: nat): (r: Modal)
    requires Fits(page, m) && i < |page.items|
    ensures Fits(page, r)
    ensures r.qtyShown[i] == m.qtyShown[i] + 1
  {
    SetQty(page, m, i, m.qtyShown[i] + 1)
  }

  /** `selectOption(card)`. */
  function ChooseCard(page: Page, m: Modal, k: nat): (r: Modal)
    requires k < |page.cards|
    ensures r.sel.option == page.cards[k].value
    ensures Marks(page.cards, r.sel.option)[k]
    ensures r.steps.options == Some(CardTitle(page.cards[k]))
    ensures r.sel.participants == m.sel.participants && r.sel.addons == m.sel.addons
  {
    m.(sel := m.sel.(option := page.cards[k].value), steps := m.steps.(options := Some(CardTitle(page.cards[k]))))
  }

  /** One user action in the modal. */
  datatype Event =
    | PickDate(date: string)
    | PickTime(time: string)
    | PickLanguage(language: string)
    | Choose(card: nat)
    | Minus(who: Participant)
    | Plus(who: Participant)
    | AddonMinus(item: nat)
    | AddonPlus(item: nat)

  /** The event refers to an element the page has. */
  predicate EventFits(page: Page, e: Event) {
    match e
    case Choose(k) => k < |page.cards|
    case AddonMinus(i) => i < |page.items|
    case AddonPlus(i) => i < |page.items|
    case PickTime(t) => t in page.times
    case PickLanguage(l) => l in page.languages
    case _ => true
  }

  function Apply(page: Page, m: Modal, e: Event): (r: Modal)
    requires Fits(page, m) && EventFits(page, e)
    ensures Fits(page, r)
    ensures (e.PickDate? || e.PickTime? || e.PickLanguage?) ==>
      r.sel.participants == m.sel.participants && r.shown == m.shown && r.qtyShown == m.qtyShown
    ensures e.PickTime? ==> r.activeTime == Some(e.time) && r.sel.time == Some(e.time)
    ensures e.PickLanguage? ==> r.activeLanguage == Some(e.language) && r.sel.language == e.language
  {
    match e
    case PickDate(d) => m.(sel := m.sel.(date := Some(d)), steps := m.steps.(date := Some(d)))
    case PickTime(t) => m.(sel := m.sel.(time := Some(t)), activeTime := Some(t), steps := m.steps.(time := Some(t)))
    case PickLanguage(l) =>
      m.(sel := m.sel.(language := l), activeLanguage := Some(l), steps := m.steps.(language := Some(l)))
    case Choose(k) => ChooseCard(page, m, k)
    case Minus(who) => ClickMinus(m, who)
    case Plus(who) => ClickPlus(m, who)
    case AddonMinus(i) => ClickAddonMinus(page, m, i)
    case AddonPlus(i) => ClickAddonPlus(page, m, i)
  }

  /** Every event keeps at least one adult, one entry per add-on name and an
      option that some card carries. */
  lemma ApplyKeepsInv(page: Page, m: Modal, e: Event)
    requires Inv(page, m) && EventFits(page, e)
    ensures Inv(page, Apply(page, m, e))
  {
  }

  /** A run of events from page load keeps the invariant. */
  function Run(page: Page, events: seq<Event>): (m: Modal)
    requires forall k :: 0 <= k < |events| ==> EventFits(page, events[k])
    ensures Inv(page, m)
  {
    if events == [] then Init(page)
    else
      var before := Run(page, events[..|events| - 1]);
      ApplyKeepsInv(page, before, events[|events| - 1]);
      Apply(page, before, events[|events| - 1])
  }

  /** Once the displayed counts agree with the selection, a plus click on a
      counter raises the total by that participant's price (nothing for infants). */
  lemma PlusRaisesTotal(m: Modal, who: Participant)
    requires m.shown == m.sel.participants
    ensures Total(ClickPlus(m, who).sel) ==
      Total(m.sel) + (match who case Adult => AdultPrice case Child => ChildPrice case Infant => 0.0)
  {
  }

  /** Once the displayed counts agree with the selection, a minus click on a
      counter above its floor lowers the total by that participant's price. */
  lemma MinusLowersTotal(m: Modal, who: Participant)
    requires m.shown == m.sel.participants
    ensures m.shown.Get(who) > Floor(who) ==>
      Total(ClickMinus(m, who).sel)
        == Total(m.sel) - (match who case Adult => AdultPrice case Child => ChildPrice case Infant => 0.0)
  {
  }

  /** With distinct option values, and a start card carrying a value, every
      run of events leaves exactly one option card marked selected. */
  lemma RunMarksExactlyOne(page: Page, events: seq<Event>)
    requires forall k :: 0 <= k < |events| ==> EventFits(page, events[k])
    requires DistinctValues(page.cards) && page.cards != [] && StartValue(page) != ""
    ensures CountMarked(Marks(page.cards, Run(page, events).sel.option)) == 1
  {
    var m := Run(page, events);
    var k :| 0 <= k < |page.cards| && page.cards[k].value == m.sel.option;
    ExactlyOneMarked(page.cards, k);
  }
}
