/**
  Editing a cart card through the booking modal (cart/cart.js): opening the
  modal prefills it from the card's info items, and saving writes the modal's
  choices back onto the card.

  A card's info items are kept as the text the page shows for them; an item
  the card does not have is `None`. The date texts and the date conversions
  are parameters: the ISO date the prefill reads off the card, and the label
  the save writes for the modal's date.
 */
module CartEdit {
  import opened Optional
  import opened Text
  import opened Booking
  import CartTime
  import CartParticipants

  /** A cart card: its `data-title`, `data-price` and `data-travelers`, and the
      text of its date, time, language, participants, option and add-ons
      items (for the add-ons item, the summary after its label). */
  datatype Card = Card(
    title: string,
    price: real,
    travelers: nat,
    date: Option<string>,
    time: Option<string>,
    language: Option<string>,
    participants: Option<string>,
    option: Option<string>,
    addons: Option<string>)

  // ---------------------------------------------------------------------------
  // Reading the language item
  // ---------------------------------------------------------------------------

  /** Removing the match of `^[^A-Za-z]*`: drops everything before the first ASCII letter. */
  function DropNonLetters(s: string): (r: string)
    ensures |r| <= |s| && r == s[|s| - |r|..]
    ensures forall k :: 0 <= k < |s| - |r| ==> !IsAsciiLetter(s[k])
    ensures r == [] || IsAsciiLetter(r[0])
  {
    if s == [] || IsAsciiLetter(s[0]) then s
    else
      var r := DropNonLetters(s[1..]);
      assert forall k :: 1 <= k < |s| - |r| ==> s[k] == s[1..][k - 1];
      r
  }

  function LowerChar(c: char): char {
    if 'A' <= c <= 'Z' then (c as int + 32) as char else c
  }

  /** `toLowerCase()` on the ASCII letters. */
  function ToLower(s: string): (r: string)
    ensures |r| == |s|
  {
    seq(|s|, k requires 0 <= k < |s| => LowerChar(s[k]))
  }

  /** The language the card names. */
  function LanguageText(item: Option<string>): string {
    match item
    case None => ""
    case Some(t) => Trim(DropNonLetters(t))
  }

  /** The first language button whose `data-lang` equals the text, ignoring case. */
  function LanguageButton(languages: seq<string>, text: string): (r: Option<string>)
    ensures r.Some? ==> r.value in languages && ToLower(r.value) == ToLower(text)
    ensures r.None? <==> forall k :: 0 <= k < |languages| ==> ToLower(languages[k]) != ToLower(text)
    ensures r.Some? ==> exists k :: 0 <= k < |languages| && languages[k] == r.value
                          && forall j :: 0 <= j < k ==> ToLower(languages[j]) != ToLower(text)
  {
    if languages == [] then None
    else if ToLower(languages[0]) == ToLower(text) then Some(languages[0])
    else
      var r := LanguageButton(languages[1..], text);
      assert forall k :: 1 <= k < |languages| ==> languages[k] == languages[1..][k - 1];
      assert r.Some? ==> exists k :: 0 <= k < |languages| && languages[k] == r.value
                          && forall j :: 0 <= j < k ==> ToLower(languages[j]) != ToLower(text) by {
        if r.Some? {
          var k :| 0 <= k < |languages[1..]| && languages[1..][k] == r.value
                   && forall j :: 0 <= j < k ==> ToLower(languages[1..][j]) != ToLower(text);
          assert languages[k + 1] == r.value;
          forall j | 0 <= j < k + 1 ensures ToLower(languages[j]) != ToLower(text) {
            if j > 0 {
              assert languages[j] == languages[1..][j - 1];
            }
          }
        }
      }
      r
  }

  /** A language item written by a save is read back as the language saved. */
  lemma LanguageTextAfterSave(language: string)
    requires language != [] && IsAsciiLetter(language[0]) && !IsSpace(language[|language| - 1])
    ensures LanguageText(Some(" " + language)) == language
  {
    var t := " " + language;
    assert t[1..] == language;
    assert DropNonLetters(t) == language;
    assert !IsSpace(language[0]);
    assert [] + language + [] == language;
    TrimOfParts([], language, []);
  }

  // ---------------------------------------------------------------------------
  // Prefill steps
  // ---------------------------------------------------------------------------

  /** The date: set, with its change event, only when the card's date converts. */
  function DateStep(page: Page, m: Modal, iso: string): (r: Modal)
    requires Fits(page, m)
    ensures Fits(page, r) && r.sel.participants == m.sel.participants && r.shown == m.shown
    ensures r.sel.addons == m.sel.addons && r.sel.option == m.sel.option
    ensures r.activeTime == m.activeTime && r.activeLanguage == m.activeLanguage
    ensures iso != "" ==> r.sel.date == Some(iso)
  {
    if iso != "" then Apply(page, m, PickDate(iso)) else m
  }

  /** The language: a click on the matching button, if there is one. */
  function LanguageStep(page: Page, m: Modal, card: Card): (r: Modal)
    requires Fits(page, m)
    ensures Fits(page, r) && r.sel.participants == m.sel.participants && r.shown == m.shown
    ensures r.sel.addons == m.sel.addons && r.sel.option == m.sel.option
    ensures r.activeTime == m.activeTime
    ensures LanguageButton(page.languages, LanguageText(card.language)).None? ==> r == m
    ensures var b := LanguageButton(page.languages, LanguageText(card.language));
      b.Some? ==> r.activeLanguage == b && r.sel.language == b.value
  {
    match LanguageButton(page.languages, LanguageText(card.language))
    case Some(l) => Apply(page, m, PickLanguage(l))
    case None => m
  }

  /** The time: a click on the button for the slot, if the page has one. */
  function TimeStep(page: Page, m: Modal, slot: Option<string>): (r: Modal)
    requires Fits(page, m)
    ensures Fits(page, r) && r.sel.participants == m.sel.participants && r.shown == m.shown
    ensures r.sel.addons == m.sel.addons && r.sel.option == m.sel.option
    ensures slot.Some? && slot.value in page.times ==> r.activeTime == Some(slot.value)
    ensures !(slot.Some? && slot.value in page.times) ==> r == m
  {
    match slot
    case Some(t) => if t in page.times then Apply(page, m, PickTime(t)) else m
    case None => m
  }

  /** The card's time text, trimmed. */
  function TimeText(card: Card): string {
    match card.time
    case None => ""
    case Some(t) => Trim(t)
  }

  /** The card's participants text. */
  function ParticipantsText(card: Card): string {
    match card.participants
    case None => ""
    case Some(t) => t
  }

  /** `n` clicks on a counter's plus button. */
  function PlusTimes(m: Modal, who: Participant, n: nat): (r: Modal)
    ensures r.shown.Get(who) == m.shown.Get(who) + n
    ensures n > 0 ==> r.sel.participants.Get(who) == r.shown.Get(who)
    ensures n == 0 ==> r == m
    ensures forall other :: other != who ==>
      r.shown.Get(other) == m.shown.Get(other) && r.sel.participants.Get(other) == m.sel.participants.Get(other)
    ensures r.qtyShown == m.qtyShown && r.activeTime == m.activeTime
    decreases n
  {
    if n == 0 then m else ClickPlus(PlusTimes(m, who, n - 1), who)
  }

  /** Overwrites a counter's displayed text and nothing else. */
  function ResetShown(m: Modal, who: Participant, n: nat): (r: Modal)
    ensures r.shown.Get(who) == n
    ensures forall other :: other != who ==> r.shown.Get(other) == m.shown.Get(other)
    ensures r.sel == m.sel && r.qtyShown == m.qtyShown && r.activeTime == m.activeTime
  {
    m.(shown := m.shown.Set(who, n))
  }

  /** The counters as the prefill sets them: the displayed adults text is
      reset to 1 and the plus button clicked `adults - 1` times; the children
      and infants texts are reset to 0 and clicked `children`, `infants` times. */
  function CountersAsWritten(m: Modal, c: Counts): (r: Modal)
    ensures r.shown == Counts(if c.adults >= 1 then c.adults else 1, c.children, c.infants)
    ensures c.adults >= 2 ==> r.sel.participants.adults == c.adults
    ensures c.adults <= 1 ==> r.sel.participants.adults == m.sel.participants.adults
    ensures c.children >= 1 ==> r.sel.participants.children == c.children
    ensures c.children == 0 ==> r.sel.participants.children == m.sel.participants.children
    ensures c.infants >= 1 ==> r.sel.participants.infants == c.infants
    ensures c.infants == 0 ==> r.sel.participants.infants == m.sel.participants.infants
    ensures r.qtyShown == m.qtyShown && r.activeTime == m.activeTime
  {
    var m1 := ResetAndClick(m, Adult, 1, if c.adults >= 1 then c.adults - 1 else 0);
    var m2 := ResetAndClick(m1, Child, 0, c.children);
    ResetAndClick(m2, Infant, 0, c.infants)
  }

  /** Two counts that agree on every participant are equal. */
  lemma CountsExt(a: Counts, b: Counts)
    requires forall who :: a.Get(who) == b.Get(who)
    ensures a == b
  {
    assert a.Get(Adult) == b.Get(Adult) && a.Get(Child) == b.Get(Child) && a.Get(Infant) == b.Get(Infant);
  }

  /** One counter of the prefill: its text reset to `start`, then `n` clicks
      on its plus button. */
  function ResetAndClick(m: Modal, who: Participant, start: nat, n: nat): (r: Modal)
    ensures r.shown == m.shown.Set(who, start + n)
    ensures r.sel.participants == if n > 0 then m.sel.participants.Set(who, start + n) else m.sel.participants
    ensures r.qtyShown == m.qtyShown && r.activeTime == m.activeTime
  {
    var r := PlusTimes(ResetShown(m, who, start), who, n);
    CountsExt(r.shown, m.shown.Set(who, start + n));
    assert n > 0 ==> r.sel.participants == m.sel.participants.Set(who, start + n) by {
      if n > 0 {
        CountsExt(r.sel.participants, m.sel.participants.Set(who, start + n));
      }
    }
    r
  }

  /** `prefillFromCard`, as written: the time goes through the two-digit bucket
      and the counters through reset-and-click. */
  function PrefillAsWritten(page: Page, m: Modal, card: Card, iso: string): (r: Modal)
    requires Fits(page, m)
    ensures Fits(page, r)
    ensures r.shown == (var c := CartParticipants.ParseParticipants(ParticipantsText(card));
                        Counts(if c.adults >= 1 then c.adults else 1, c.children, c.infants))
  {
    var m1 := LanguageStep(page, DateStep(page, m, iso), card);
    var m2 := TimeStep(page, m1, CartTime.TimeBucket(TimeText(card)));
    CountersAsWritten(m2, CartParticipants.ParseParticipants(ParticipantsText(card)))
  }

  // ---------------------------------------------------------------------------
  // The corrected prefill
  // ---------------------------------------------------------------------------

  /** The counters set through `setCount`, so the selection follows the
      display; a count of no adults shows and holds one, as the minus button would. */
  function CountersSet(m: Modal, c: Counts): (r: Modal)
    ensures r.shown == r.sel.participants
    ensures r.shown == Counts(if c.adults >= 1 then c.adults else 1, c.children, c.infants)
    ensures r.qtyShown == m.qtyShown && r.activeTime == m.activeTime
    ensures r.sel.addons == m.sel.addons && r.sel.option == m.sel.option
  {
    var m1 := SetCount(m, Adult, if c.adults >= 1 then c.adults else 1);
    var m2 := SetCount(m1, Child, c.children);
    SetCount(m2, Infant, c.infants)
  }

  /** `prefillFromCard` with the two corrections: the time text is read back
      as a 12-hour time, and the counters go through `setCount`. */
  function Prefill(page: Page, m: Modal, card: Card, iso: string): (r: Modal)
    requires Fits(page, m)
    ensures Fits(page, r)
    ensures r.shown == r.sel.participants
    ensures r.shown == (var c := CartParticipants.ParseParticipants(ParticipantsText(card));
                        Counts(if c.adults >= 1 then c.adults else 1, c.children, c.infants))
    ensures UniqueNames(m.sel.addons) && OptionOnCard(page, m) ==> Inv(page, r)
  {
    var m1 := LanguageStep(page, DateStep(page, m, iso), card);
    var m2 := TimeStep(page, m1, CartTime.RecoverSlot(TimeText(card)));
    CountersSet(m2, CartParticipants.ParseParticipants(ParticipantsText(card)))
  }

  // ---------------------------------------------------------------------------
  // Saving
  // ---------------------------------------------------------------------------

  /** The title of the selected option card: the first `.title` inside a card
      marked selected, trimmed; empty when there is none. */
  function SelectedTitle(cards: seq<OptionCard>, option: string): (r: string)
    ensures r != [] ==> exists k :: 0 <= k < |cards| && TitledSelected(cards[k], option)
    ensures (forall k :: 0 <= k < |cards| ==> !TitledSelected(cards[k], option)) ==> r == ""
    ensures forall k :: 0 <= k < |cards| && TitledSelected(cards[k], option)
                        && (forall j :: 0 <= j < k ==> !TitledSelected(cards[j], option))
                        ==> r == Trim(cards[k].title.value)
  {
    if cards == [] then ""
    else if TitledSelected(cards[0], option) then Trim(cards[0].title.value)
    else
      var r := SelectedTitle(cards[1..], option);
      assert forall k :: 1 <= k < |cards| ==> cards[k] == cards[1..][k - 1];
      r
  }

  /** A card marked selected (it carries the option) that has a `.title`. */
  predicate TitledSelected(card: OptionCard, option: string) {
    card.value == option && card.title.Some?
  }

  /** The add-on steppers with their displayed quantities, in page order. */
  function Steppers(page: Page, qtyShown: seq<nat>): (r: seq<Addon>)
    requires |qtyShown| == |page.items|
    ensures |r| == |page.items|
    ensures forall k :: 0 <= k < |r| ==> r[k].qty == qtyShown[k] && r[k].name == page.items[k].name
  {
    seq(|page.items|, k requires 0 <= k < |page.items| => Addon(page.items[k].name, qtyShown[k], page.items[k].price))
  }

  /** The add-ons item a save writes: the summary of the steppers above
      zero, and no item when every stepper is at zero. */
  function SavedAddons(page: Page, qtyShown: seq<nat>): (r: Option<string>)
    requires |qtyShown| == |page.items|
    ensures r.None? <==> forall k :: 0 <= k < |qtyShown| ==> qtyShown[k] == 0
  {
    var steppers := Steppers(page, qtyShown);
    var chosen := Chosen(steppers);
    ChosenEmptyIff(steppers);
    if chosen != [] then Some(AddonsLine(chosen)) else None
  }

  /** Steppers at 2, 0 and 1 write the first and third add-ons' labels,
      joined by ", ", and skip the one at zero. */
  lemma SavedAddonsText(page: Page, qty: seq<nat>)
    requires |page.items| == 3 && qty == [2, 0, 1]
    ensures SavedAddons(page, qty)
         == Some(page.items[0].name + " x2, " + page.items[2].name + " x1")
  {
    var st := Steppers(page, qty);
    ChosenSkipsMiddle(st);
    AddonsLineOfTwo(st[0], st[2]);
    var n0, n2 := page.items[0].name, page.items[2].name;
    assert NatToString(2) == "2" && NatToString(1) == "1";
    assert AddonLabel(st[0]) == n0 + " x2" && AddonLabel(st[2]) == n2 + " x1";
    assert (n0 + " x2") + ", " + (n2 + " x1") == n0 + " x2, " + n2 + " x1";
  }

  lemma ChosenSkipsMiddle(st: seq<Addon>)
    requires |st| == 3 && st[0].qty > 0 && st[1].qty == 0 && st[2].qty > 0
    ensures Chosen(st) == [st[0], st[2]]
  {
    assert st[1..][1..] == [st[2]] && [st[2]][1..] == [];
  }

  lemma AddonsLineOfTwo(a: Addon, c: Addon)
    ensures AddonsLine([a, c]) == AddonLabel(a) + ", " + AddonLabel(c)
  {
    var labels := seq(2, k requires 0 <= k < 2 => AddonLabel([a, c][k]));
    assert labels == [AddonLabel(a), AddonLabel(c)];
    assert labels[1..] == [AddonLabel(c)];
    assert Join(labels[1..], ", ") == AddonLabel(c);
  }

  /** When the modal's add-on list chooses the same entries as the steppers,
      in page order, the saved add-ons line is the modal's add-ons summary,
      and there is no line exactly when that summary reads "No add-ons". */
  lemma SavedAddonsIsSummary(page: Page, m: Modal)
    requires Fits(page, m)
    requires Chosen(m.sel.addons) == Chosen(Steppers(page, m.qtyShown))
    ensures SavedAddons(page, m.qtyShown).None? <==> AddonsSummary(m.sel.addons) == NoAddons
    ensures SavedAddons(page, m.qtyShown).Some? ==> SavedAddons(page, m.qtyShown) == Some(AddonsSummary(m.sel.addons))
  {
    var steppers := Steppers(page, m.qtyShown);
    NoAddonsIffNoneChosen(steppers);
    ChosenEmptyIff(steppers);
  }

  /** The participants item a save writes, on a card that has one; it reads
      back as the counts saved. */
  function SavedParticipants(item: Option<string>, counts: Counts): (r: Option<string>)
    ensures r.Some? <==> item.Some?
    ensures r.Some? ==> CartParticipants.ParseParticipants(r.value) == counts
  {
    CartParticipants.ParseAfterSave(counts);
    if item.Some? then Some(" " + CartParticipants.ParticipantsLine(counts)) else None
  }

  /** The time item a save writes: the active time in 12-hour form, on a
      card that has a time item, when a time is active. */
  function SavedTime(item: Option<string>, activeTime: Option<string>): (r: Option<string>)
    ensures activeTime.None? || activeTime == Some("") || item.None? ==> r == item
  {
    match activeTime
    case Some(t) => if t != "" then Replaced(item, CartTime.To12h(t)) else item
    case None => item
  }

  /** An item a save replaces with a new text, when there is one. */
  function Replaced(item: Option<string>, text: string): (r: Option<string>)
    ensures item.None? || text == "" ==> r == item
    ensures item.Some? && text != "" ==> r == Some(" " + text)
  {
    if item.Some? && text != "" then Some(" " + text) else item
  }

  /** `saveEdits` on the card being edited. */
  function SaveEdits(page: Page, m: Modal, card: Card, dateLabel: string): (r: Card)
    requires Fits(page, m)
    ensures r.title == card.title && r.price == card.price
    ensures r.travelers >= 1 && (m.shown.Sum() >= 1 ==> r.travelers == m.shown.Sum())
    ensures r.participants.Some? <==> card.participants.Some?
    ensures r.participants.Some? ==>
      CartParticipants.ParseParticipants(r.participants.value) == m.shown
    ensures r.addons.None? <==> forall k :: 0 <= k < |m.qtyShown| ==> m.qtyShown[k] == 0
    ensures m.activeTime.None? || m.activeTime == Some("") ==> r.time == card.time
  {
    var title := SelectedTitle(page.cards, m.sel.option);
    Card(
      card.title,
      card.price,
      if m.shown.Sum() >= 1 then m.shown.Sum() else 1,
      if card.date.Some? && m.sel.date.Some? && m.sel.date.value != "" then Some(" " + dateLabel) else card.date,
      SavedTime(card.time, m.activeTime),
      Replaced(card.language, match m.activeLanguage case Some(l) => l case None => ""),
      SavedParticipants(card.participants, m.shown),
      if card.option.Some? && title != "" then Some(title) else card.option,
      SavedAddons(page, m.qtyShown))
  }

  // ---------------------------------------------------------------------------
  // Opening and saving without changes
  // ---------------------------------------------------------------------------

  /** A card as a save leaves it: the participants and time items are the
      texts a save writes, for counts with at least one adult and a slot the
      page offers. */
  predicate SavedShape(page: Page, card: Card, c: Counts, slot: string) {
    && card.participants == Some(" " + CartParticipants.ParticipantsLine(c))
    && c.adults >= 1
    && card.time == Some(" " + CartTime.To12h(slot))
    && slot in CartTime.Slots && slot in page.times
  }

  /** Opening a saved card and saving it again keeps its participants, its
      time and its traveler count. */
  lemma ReopenAndSaveKeepsCard(page: Page, m: Modal, card: Card, c: Counts, slot: string, iso: string, dateLabel: string)
    requires Fits(page, m) && SavedShape(page, card, c, slot)
    ensures var saved := SaveEdits(page, Prefill(page, m, card, iso), card, dateLabel);
      && saved.participants == card.participants
      && saved.time == card.time
      && saved.travelers == c.Sum()
  {
    CartParticipants.ParseAfterSave(c);
    CartTime.RecoverSlotAfterSave(slot);
    var m1 := LanguageStep(page, DateStep(page, m, iso), card);
    var m2 := TimeStep(page, m1, CartTime.RecoverSlot(TimeText(card)));
    assert m2.activeTime == Some(slot);
    var p := Prefill(page, m, card, iso);
    assert p.activeTime == Some(slot);
    assert p.shown == c;
    assert slot != "";
  }

  /** As written, opening a card saved at 09:00 or 15:00 leaves the modal's
      active time as it was (from the page or the previous edit), so saving
      without changes writes that stale time onto the card. */
  lemma ReopenAsWrittenKeepsStaleTime(page: Page, m: Modal, card: Card, c: Counts, slot: string, iso: string)
    requires Fits(page, m) && SavedShape(page, card, c, slot)
    requires slot != "12:00"
    ensures PrefillAsWritten(page, m, card, iso).activeTime == m.activeTime
  {
    CartTime.TimeBucketAfterSave(slot);
  }

  /** As written, opening a card saved with one adult clicks no plus button,
      so the modal's selection keeps the adult count it had while the
      counter shows 1: the modal's total charges for the old count. */
  lemma ReopenAsWrittenDesyncsAdults(page: Page, m: Modal, card: Card, c: Counts, iso: string)
    requires Fits(page, m)
    requires card.participants == Some(" " + CartParticipants.ParticipantsLine(c)) && c.adults == 1
    ensures var r := PrefillAsWritten(page, m, card, iso);
      r.shown.adults == 1 && r.sel.participants.adults == m.sel.participants.adults
  {
    CartParticipants.ParseAfterSave(c);
  }

  /** After the corrected prefill the total moves with the counters: a plus
      click adds exactly that participant's price, and a minus click above
      the floor takes it off again. As written, the total can instead lag the
      display (see ReopenAsWrittenDesyncsAdults). */
  lemma PrefillKeepsTotalInStep(page: Page, m: Modal, card: Card, iso: string, who: Participant)
    requires Fits(page, m)
    ensures var r := Prefill(page, m, card, iso);
      var price := match who case Adult => AdultPrice case Child => ChildPrice case Infant => 0.0;
      && Total(ClickPlus(r, who).sel) == Total(r.sel) + price
      && (r.shown.Get(who) > Floor(who) ==> Total(ClickMinus(r, who).sel) == Total(r.sel) - price)
  {
    var r := Prefill(page, m, card, iso);
    PlusRaisesTotal(r, who);
    MinusLowersTotal(r, who);
  }
}
