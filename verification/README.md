# Cart editing, order summaries and guest checkout, in Dafny

This project models the logic of three browser scripts of a tour-booking
site:

- **The cart's booking modal** (`cart/cart-booking.js`). It holds the
  selection state: date, time, language, option, participant counters and
  add-on steppers. It recomputes the modal total and writes the step
  summaries. It marks the selected option card.
- **The cart page** (`cart/cart.js`). Opening a cart card prefills the modal
  from the card's info items. Saving writes the modal's choices back onto
  the card. The order summary totals the cards, the service fee and the
  early-bird discount; unlike the checkout page's, its total is not
  clamped, and the clamped variant is kept beside it as an open question. The promo field and the delete buttons change that
  summary.
- **The checkout page** (`checkout/checkout.js`). It has an order summary
  with a total clamped at zero and a promo field that includes SAVE10
  (a tenth of the subtotal, rounded). It validates the guest form field by
  field, with a valid/invalid/neutral state, and gates the submit and
  Confirm Booking buttons on those validations.

The page is state in immutable datatypes. Every handler is a pure function
of that state and the event.

- Money is an exact `real`, and `Math.round` is `floor(x + 0.5)`.
- Counts are `nat`, and strings are sequences of characters.
- The modal keeps the counters' **displayed** values (`shown`) apart from
  `state.participants`, because the plus and minus handlers read the
  displayed text.

Modules:

- `Text`: JavaScript's `\s` and `trim()`, digits, `join` and `toUpperCase`.
- `Booking`: the modal.
- `CartTime`: `to12h`, the time bucket and its corrected reading.
- `CartParticipants`: the participants line and the `(\d+)\s*Word` matches.
- `CartEdit`: the prefill and the save.
- `Ledger`: the summary rows, the fee, the promo code and the rounding.
- `CartSummary` and `CheckoutSummary`: the two order summaries.
- `CheckoutFields`: the validators and the two gates.

## Model

| member | source | states |
|---|---|---|
| Booking.ComputeTotal | cart/cart-booking.js:44-48 | the loop over the add-ons computes the per-head fees plus the option fee plus the sum of price times quantity |
| Booking.TotalIgnoresInfants | cart/cart-booking.js:25-46 | the total is adults at 17.5 plus children at 10 plus the option fee plus the add-on costs; changing the infant count never changes it |
| Booking.UnknownOptionIsFree | cart/cart-booking.js:46 | an option outside the price table adds nothing to the total |
| Booking.AddonsFeeAppend | cart/cart-booking.js:47 | the add-on fee of a concatenation is the sum of the two fees |
| Booking.AddonsFeeReplace | cart/cart-booking.js:47 | replacing one entry changes the add-on fee by exactly the new cost minus the old |
| Booking.MinusValue | cart/cart-booking.js:153-157 | a minus click writes one less than displayed, never below 1 for adults or 0 for children and infants |
| Booking.FindAddon | cart/cart-booking.js:181 | finds the first entry with the name, or reports that none has it |
| Booking.FindAddonFirst | cart/cart-booking.js:181 | the first index carrying the name is the one found |
| Booking.Upsert | cart/cart-booking.js:179-183 | an existing entry is overwritten in place and a new one is appended; entries with other names stay; names stay unique |
| Booking.UpsertOverwrites | cart/cart-booking.js:181-183 | setting the same add-on twice equals setting it once to the second value |
| Booking.UpsertNewFee | cart/cart-booking.js:183 | a new add-on adds exactly its cost to the add-on fee |
| Booking.UpsertExistingFee | cart/cart-booking.js:182 | re-setting an add-on swaps its old cost for the new one |
| Booking.Chosen | cart/cart-booking.js:184 | keeps exactly the entries with a positive quantity |
| Booking.ChosenAppend | cart/cart-booking.js:184 | the filter keeps list order: it works piecewise over a concatenation |
| Booking.NoAddonsIffNoneChosen | cart/cart-booking.js:184-185 | the summary is "No add-ons" if and only if every quantity is zero; otherwise it is the joined labels of the chosen entries |
| Booking.ParticipantsSummaryInjective | cart/cart-booking.js:148 | two different sets of counts never produce the same participants summary, so the summary determines the counts |
| Booking.Marks | cart/cart-booking.js:107-114 | one selected mark per option card |
| Booking.ExactlyOneMarked | cart/cart-booking.js:107-114 | with distinct option values, selecting a card marks that card and no other |
| Booking.NoneMarked | cart/cart-booking.js:107-114 | an option no card carries leaves every card unmarked |
| Booking.InitialCard | cart/cart-booking.js:129 | the start card is the first preselected one, else the first card, else none |
| Booking.ItemName | cart/cart-booking.js:177 | an add-on's name is the trimmed name text, else the trimmed `data-addon`, else "Addon" |
| Booking.Init | cart/cart-booking.js:18-170 | the page-load state has one adult and unique add-on names; the option is the start card's value, or "basic" when it has none; the options step shows the card's trimmed title, or the selected option when the card has no title |
| Booking.InitUntitledBlankCard | cart/cart-booking.js:129-135 | a start card with neither a value nor a title leaves "basic" selected and shown as the options summary |
| Booking.SetCount | cart/cart-booking.js:145-152 | the counter and the selection both hold the new value; the other counters, the add-ons and the option stay; the summary is rewritten |
| Booking.ClickMinus | cart/cart-booking.js:153-158 | the new count is one below the displayed count, floored at 1 for adults and 0 otherwise, and the display agrees; the other counters keep their displayed and selected values |
| Booking.ClickPlus | cart/cart-booking.js:159-162 | the new count is one above the displayed count, in both the display and the selection; the other counters keep their values |
| Booking.SetQty | cart/cart-booking.js:179-189 | the stepper shows the quantity, the add-on list is upserted, and the add-ons summary is rewritten |
| Booking.ClickAddonMinus | cart/cart-booking.js:190-193 | a stepper goes one down, never below zero |
| Booking.ClickAddonPlus | cart/cart-booking.js:194-197 | a stepper goes one up |
| Booking.ChooseCard | cart/cart-booking.js:96-106 | selecting a card sets the option to its value, marks it, and shows its title as the summary |
| Booking.Apply | cart/cart-booking.js:64-94 | a time or language pick sets the state and the active button; no date, time or language pick touches the counters or steppers |
| Booking.ApplyKeepsInv | cart/cart-booking.js:96-183 | every event keeps at least one adult, one entry per add-on name and, once the script started from a card with a value, an option that some card carries |
| Booking.Run | cart/cart-booking.js:18-198 | any run of events from page load keeps that invariant |
| Booking.RunMarksExactlyOne | cart/cart-booking.js:96-129 | with distinct option values and a start card carrying a value, every run of events leaves exactly one option card marked selected |
| Booking.PlusRaisesTotal | cart/cart-booking.js:159-162 | once the display matches the state, a plus click raises the total by that participant's price |
| Booking.MinusLowersTotal | cart/cart-booking.js:153-158 | once the display matches the state, a minus click above the floor lowers the total by that participant's price |
| CartTime.BeforeColon | cart/cart.js:47 | the hour field is the longest colon-free prefix |
| CartTime.ParseIntPrefix | cart/cart.js:48 | parseInt fails exactly when no digit follows the leading white space |
| CartTime.ClockHour | cart/cart.js:50 | the 12-hour clock shows an hour from 1 to 12 that is congruent to the 24-hour hour modulo 12 |
| CartTime.To12h | cart/cart.js:45-52 | an empty input gives an empty text; any other input ends in " AM" or " PM" |
| CartTime.To12hOfSlot | cart/cart.js:45-52 | on an "HH:MM" slot text the result is the hour modulo 12 (12 for noon and midnight), a colon, the minutes as given, and " PM" exactly when the hour is 12 or more |
| CartTime.MidnightText | cart/cart.js:45-52 | "00:30" is written as "12:30 AM" |
| CartTime.From12hInvertsTo12h | cart/cart.js:45-52 | reading a 12-hour text back gives every two-digit slot text again |
| CartTime.AfternoonText | cart/cart.js:45-52 | "15:00" is written as "3:00 PM", so the hour's digits do not survive |
| CartTime.MorningText | cart/cart.js:45-52 | "09:00" is written as "9:00 AM" |
| CartTime.FirstIncluded | cart/cart.js:72 | finds a slot whose two-character prefix occurs in the text, with no earlier slot's prefix occurring, or none exactly when no prefix occurs |
| CartTime.TimeBucket | cart/cart.js:72 | the prefill's slot is "09:00", "12:00" or "15:00" by which prefix the time text contains first |
| CartTime.TimeBucketAfterSave | cart/cart.js:69-74 | of the three slots a save writes, only noon is found again on reopening |
| CartTime.TrimTimeItem | cart/cart.js:71 | the trimmed time item is exactly the 12-hour text the save wrote |
| CartTime.RecoverSlot | cart/cart.js:69-74 | the corrected reading only returns a known slot, and it is the 12-hour text read back |
| CartTime.RecoverSlotAfterSave | cart/cart.js:69-74 | the corrected reading recovers every slot a save writes |
| CartParticipants.Clauses | cart/cart.js:141-144 | there is always an adults clause, and a children or infants clause only when that count is positive |
| CartParticipants.LineShape | cart/cart.js:141-145 | the saved line is the adults clause followed by the optional clauses |
| CartParticipants.PluralIffMany | cart/cart.js:142-144 | a clause takes the plural noun exactly when the count is above one, the singular one otherwise, zero included |
| CartParticipants.TwoAdultsOneChild | cart/cart.js:141-145 | two adults and one child are written "2 Adults, 1 Child" |
| CartParticipants.OneAdultTwoInfants | cart/cart.js:141-145 | one adult and two infants are written "1 Adult, 2 Infants" |
| CartParticipants.FirstCount | cart/cart.js:78-80 | a match of `(\d+)\s*Word` means the word occurs in the text |
| CartParticipants.ParseParticipants | cart/cart.js:78-83 | a word that does not occur gives the default: 1 adult, 0 children, 0 infants |
| CartParticipants.SkipNonDigits | cart/cart.js:78 | the leftmost match never starts in a run without digits |
| CartParticipants.HitClause | cart/cart.js:78 | a clause whose noun starts with the word is the match and yields its count |
| CartParticipants.SkipClause | cart/cart.js:78 | a clause for another noun is passed over |
| CartParticipants.NoMatchWithoutDigits | cart/cart.js:78-83 | a text without digits holds no match |
| CartParticipants.ReadAdults | cart/cart.js:78 | the adults pattern reads the saved adults count |
| CartParticipants.ReadChildren | cart/cart.js:79 | the children pattern reads the saved children count, or finds nothing when there are none |
| CartParticipants.ReadInfants | cart/cart.js:80 | the infants pattern reads the saved infants count, or finds nothing when there are none |
| CartParticipants.ParseAfterSave | cart/cart.js:76-83 | parsing a line the save wrote gives back exactly the counts saved |
| CartEdit.DropNonLetters | cart/cart.js:66 | drops exactly the leading characters that are not ASCII letters |
| CartEdit.LanguageButton | cart/cart.js:67 | finds the first button whose language equals the text ignoring case, and none only when no button does |
| CartEdit.LanguageTextAfterSave | cart/cart.js:66 | a language item written by a save reads back as the language saved |
| CartEdit.DateStep | cart/cart.js:56-63 | a converted date is set; nothing else of the selection changes |
| CartEdit.LanguageStep | cart/cart.js:64-68 | the first matching button becomes the active language and the selection's language; with no matching button the modal is unchanged |
| CartEdit.TimeStep | cart/cart.js:73-74 | a slot the page offers becomes the active time; otherwise the modal is unchanged |
| CartEdit.PlusTimes | cart/cart.js:89 | n plus clicks raise the displayed count by n, and after at least one click the selection agrees |
| CartEdit.ResetShown | cart/cart.js:88 | overwriting the counter text changes only the displayed count |
| CartEdit.ResetAndClick | cart/cart.js:86-101 | reset-then-click leaves the display at start plus n; the selection changes only when a click fires |
| CartEdit.CountersAsWritten | cart/cart.js:84-102 | the displayed counts always match the parsed counts, with adults floored at 1; the selection follows only the counters that got at least one click |
| CartEdit.PrefillAsWritten | cart/cart.js:54-103 | the prefill as written shows the parsed counts, with adults floored at 1 |
| CartEdit.CountersSet | cart/cart.js:84-102 | the corrected counters show and hold the parsed counts, with at least one adult |
| CartEdit.Prefill | cart/cart.js:54-103 | the corrected prefill leaves the display equal to the selection and to the parsed counts with adults floored at 1, and keeps the modal invariant |
| CartEdit.PrefillKeepsTotalInStep | cart/cart.js:84-102 | after the corrected prefill, a plus click raises the modal total by that participant's price and a minus click above the floor lowers it by the same amount |
| CartEdit.SelectedTitle | cart/cart.js:117 | the trimmed title of the first card that carries the selected option and has a title, or empty when no card does |
| CartEdit.Steppers | cart/cart.js:119-122 | one add-on per stepper, with the displayed quantity |
| CartEdit.SavedAddons | cart/cart.js:155-169 | the add-ons item is dropped exactly when every stepper is at zero |
| CartEdit.SavedAddonsText | cart/cart.js:117-122 | steppers at 2, 0 and 1 write "<first> x2, <third> x1": page order, zero skipped, joined by ", " |
| CartEdit.SavedAddonsIsSummary | cart/cart.js:153-163 | when the modal's add-on list chooses the same entries as the steppers in page order, the saved line is the modal's add-ons summary, and there is none exactly when that summary reads "No add-ons" |
| CartEdit.SavedParticipants | cart/cart.js:138-146 | a card with a participants item gets a line that parses back to the counts saved |
| CartEdit.SavedTime | cart/cart.js:130-133 | with no active time, the time item is left as it was |
| CartEdit.SaveEdits | cart/cart.js:105-178 | the title and price stay; the travelers are the counter total, at least 1; the participants line reads back as the counters; the add-ons item goes exactly when nothing is chosen; no active time keeps the time item |
| CartEdit.ReopenAndSaveKeepsCard | cart/cart.js:54-178 | with the corrected prefill, opening a saved card and saving it unchanged keeps its participants, its time and its travelers |
| CartEdit.ReopenAsWrittenKeepsStaleTime | cart/cart.js:69-74 | as written, reopening a card saved at 09:00 or 15:00 leaves the previous active time in place |
| CartEdit.ReopenAsWrittenDesyncsAdults | cart/cart.js:84-90 | as written, reopening a one-adult card shows 1 adult while the state keeps its old adult count |
| CartSummary.ComputeSubtotal | cart/cart.js:187-194 | the running loop computes the sum of price times travelers over the cards |
| CartSummary.SubtotalAppend | cart/cart.js:187-193 | the subtotal of a concatenation is the sum of the two subtotals |
| CartSummary.SubtotalNonNegative | cart/cart.js:190-193 | non-negative prices give a non-negative subtotal |
| CartSummary.ItemLabel | cart/cart.js:189-198 | each row's label starts with the card's title, or "Tour" when it has none, and ends in "travelers)" exactly when there is more than one traveler, in "traveler)" otherwise |
| CartSummary.ItemLines | cart/cart.js:188-203 | one row per card, in order, with its price times travelers |
| CartSummary.ItemLinesSum | cart/cart.js:188-203 | the item rows add up to the subtotal |
| CartSummary.BuildSummary | cart/cart.js:182-230 | the rows are the items, the fee and the discount when positive; the total is their sum, with no floor |
| CartSummary.EmptyCartTotalIsNegative | cart/cart.js:228 | an empty cart with the default discount totals -111 |
| CartSummary.ClampedSummary | cart/cart.js:182-230 | the variant clamped at zero as the checkout page clamps: never negative, and equal to the row sum whenever that sum is not negative |
| CartSummary.PromoDiscount | cart/cart.js:264-273 | the discount is 200 if and only if the code, trimmed and upper-cased, is EARLYBIRD or EB200; otherwise it is 0 |
| CartSummary.LowerCaseCodeEarnsDiscount | cart/cart.js:265-267 | "eb200" typed in lower case earns the 200 discount |
| CartSummary.NoneCodeRemovesDiscount | cart/cart.js:268-269 | "NONE" removes the discount |
| CartSummary.EmptyCodeRemovesDiscount | cart/cart.js:268-269 | an empty code removes the discount |
| CartSummary.Step | cart/cart.js:232-274 | a promo leaves the cards alone, and a delete or a save of the edit modal leaves the discount alone |
| CartSummary.StepKeepsDiscountKnown | cart/cart.js:3 | whatever the user does, the discount stays 0 or 200 |
| CartSummary.DeleteLowersSubtotal | cart/cart.js:233-237 | deleting a card takes exactly its row off the subtotal |
| CartSummary.SaveChangesSubtotal | cart/cart.js:171-176 | saving an edit changes the subtotal by exactly that card's row change |
| CartSummary.SaveStepSubtotal | cart/cart.js:171-176 | saving the edit modal onto a card keeps its price, sets its travelers to the counter total (at least 1), and changes the subtotal by that card's row change only |
| Ledger.Charges | cart/cart.js:205-226 | there is always a fee row of 89, and a negative discount row only when the discount is positive |
| Ledger.ChargesSum | cart/cart.js:205-228 | the charge rows add up to the fee less the discount |
| Ledger.NormalizeCode | cart/cart.js:265 | a normalized code is its own trim and upper case, and no longer than the input |
| Ledger.NormalizeKeepsNormal | cart/cart.js:265 | a code already trimmed and in upper case is its own normal form |
| Ledger.NormalizeIgnoresPaddingAndCase | cart/cart.js:265 | surrounding white space and letter case do not change a code |
| Ledger.Round | checkout/checkout.js:218 | Math.round lands within half a unit of its argument |
| Ledger.RoundProperties | checkout/checkout.js:218 | rounding is monotone and leaves integers alone |
| CheckoutSummary.ReadSubtotal | checkout/checkout.js:23-26 | a missing entry keeps the subtotal, an unparsable one gives 0, and a number is taken as is |
| CheckoutSummary.Render | checkout/checkout.js:28-57 | the rows are the subtotal, the fee and the discount when positive; the total is the raw amount or 0, never negative, never below the raw amount |
| CheckoutSummary.BuildSummary | checkout/checkout.js:18-58 | the first row is the re-read subtotal, then the fee and a positive discount; the total is that subtotal plus 89 less the discount, or 0 when that is negative, never below either |
| CheckoutSummary.PromoDiscount | checkout/checkout.js:210-223 | the early-bird codes give 200; SAVE10 gives the subtotal's tenth rounded, within half a unit; anything else gives 0 |
| CheckoutSummary.ApplyPromo | checkout/checkout.js:211-225 | the discount comes from the subtotal last read |
| CheckoutSummary.Save10NeverHitsFloor | checkout/checkout.js:216-218 | with a non-negative subtotal, SAVE10 never makes the discount negative and never drives the total to the zero floor |
| CheckoutSummary.EarlyBirdFloor | checkout/checkout.js:56 | the 200 discount empties the total exactly when the subtotal is at most 111 |
| CheckoutSummary.CheckoutTotalMatchesCart | checkout/checkout.js:18-58 | given the cart's item-row sum as the stored subtotal and the same discount, the checkout rows add up to the cart page's unclamped total and the checkout total is that total clamped at zero |
| CheckoutFields.FirstAt | checkout/checkout.js:82 | finds the first `@`, with none before it, or reports that there is none |
| CheckoutFields.EmailShapeToPattern | checkout/checkout.js:81-83 | a string the left-to-right reading accepts is three plain runs joined by `@` and `.` |
| CheckoutFields.PatternToEmailShape | checkout/checkout.js:81-83 | every three plain runs joined by `@` and `.` are accepted |
| CheckoutFields.EmailShapeIsPattern | checkout/checkout.js:81-83 | the email check accepts exactly the strings the regular expression describes |
| CheckoutFields.PhoneShapeIsPattern | checkout/checkout.js:85-89 | the phone check accepts exactly an optional plus and 7 to 15 digits |
| CheckoutFields.EmailOfRuns | checkout/checkout.js:80-82 | three non-empty plain runs joined by `@` and `.` are a valid email as typed |
| CheckoutFields.EmailAccepts | checkout/checkout.js:80-82 | "a@b.co" is a valid email |
| CheckoutFields.EmailRejects | checkout/checkout.js:80-82 | "a@b", which has no dot after the `@`, and the empty text are not valid emails |
| CheckoutFields.PlusDigitsArePhone | checkout/checkout.js:84-88 | a plus followed by 7 to 15 digits is a valid phone |
| CheckoutFields.PhoneAccepts | checkout/checkout.js:84-88 | "+2012345" is a valid phone |
| CheckoutFields.PhoneBlank | checkout/checkout.js:86 | a phone field holding only blanks passes, because the phone is optional |
| CheckoutFields.PhoneRejects | checkout/checkout.js:84-88 | five digits are too few for a phone |
| CheckoutFields.RoomAccepts | checkout/checkout.js:272-276 | "12 A" is a valid room |
| CheckoutFields.RoomRejects | checkout/checkout.js:272-276 | "#12" is not a valid room |
| CheckoutFields.ValidatorsIgnorePadding | checkout/checkout.js:77-95 | every validator trims first, so surrounding white space never changes a verdict |
| CheckoutFields.ClassesNest | checkout/checkout.js:269-277 | every valid name is a valid hotel, and a valid hotel made of ASCII letters, digits, hyphens and spaces is a valid room |
| CheckoutFields.ValidateField | checkout/checkout.js:97-138 | the field passes exactly when it is not marked invalid; it is neutral exactly when it is a blank phone, room or nationality |
| CheckoutFields.PassesMeans | checkout/checkout.js:97-138 | each field passes exactly when its own validator accepts it; the nationality and other inputs always pass |
| CheckoutFields.ValidateAll | checkout/checkout.js:154-162 | every listed field is validated, none skipped; the gate passes exactly when no field is marked invalid |
| CheckoutFields.ValidateAllPasses | checkout/checkout.js:154-162 | the gate passes exactly when each listed field passes |
| CheckoutFields.SubmitGate | checkout/checkout.js:151-162 | submit passes if and only if both names, the email, the hotel, the phone and the room are valid |
| CheckoutFields.ConfirmGate | checkout/checkout.js:253-259 | confirm passes if and only if both names, the email and the hotel are valid |
| CheckoutFields.SubmitImpliesConfirm | checkout/checkout.js:151-263 | a form that submits can be confirmed; the converse needs a valid phone and room |
| CheckoutFields.GatesIgnore | checkout/checkout.js:154-259 | neither gate depends on the nationality or notes, and confirm ignores the phone and room too |
| Text.Trim | checkout/checkout.js:78 | trim leaves no white space at either end |
| Text.TrimIsUnique | checkout/checkout.js:78 | the trim of a string is its only middle part that has white space around it and none at its own ends |
| Text.TrimIgnoresPadding | checkout/checkout.js:86 | extra white space around a value does not change its trim |
| Text.TrimToUpperCommute | cart/cart.js:265 | trimming and upper-casing can be done in either order |
| Text.NatToString | cart/cart.js:142 | the decimal text of a count is digits that parse back to the count, with no leading zero |

## Left out

- Dates. The conversions `toCartDateText` and `parseCartDateToISO`, and `updateMinMaxDates`, use JavaScript `Date`. The prefill takes the converted ISO date as a parameter, and the save takes the date label as a parameter.
- Storage. `localStorage` is not modelled: the checkout prefill from saved info, the saved-info payload and the stored payment method. The stored `cartSubtotal` is a parameter of the checkout summary (`Stored`).
- Page mechanics. The DOM is not modelled: focus, scrolling, highlight timers, the overlay and modal open/close, step header collapsing, and the details toggles. Neither are the collapse flags of `setSummary` or the redirect after confirm.
- Currency formatting. `formatCurrency`, `toFixed` and `toLocaleString` shape text only; the amounts behind them are modelled.
- Payment. The payment-method radio wiring (checkout/checkout.js:231-248) is not modelled.
- Number parsing. `parseInt` is modelled without a sign. Its NaN result is modelled only where `to12h` shows it as hour 12 AM. `parseFloat` of card prices is an already-parsed `real`, and travelers are a `nat`.
- Legacy items. The removal of the old separate child/infant info items (cart/cart.js:148-149) is not modelled. The model has no such items.
- Early exits. The guard clauses on a missing card, modal, list or button are not modelled, and neither is the prefill's catch of exceptions. The model assumes the elements exist.
- Case mapping. `toLowerCase` is modelled on ASCII letters only. `toUpperCase` is modelled on ASCII letters plus U+0131 and U+017F. Other case mappings are not modelled.
- UTF-16. Strings are sequences of Dafny characters, so characters outside the Basic Multilingual Plane count as one character, not as two UTF-16 units.
- CartEdit.SavedTime: states only the case in which nothing is written. The written text is the 12-hour form by definition, and ReopenAndSaveKeepsCard proves it for the slots.
- Prototype keys. The option fee looks the option up in a plain object (cart/cart-booking.js:46). An option named like an inherited property ("constructor", "toString") would give a function there and make the total's formatting throw. Option names are assumed not to be such keys.
- CartTime.To12h: its own contract states only the empty case and the AM/PM suffix. The hour, minutes and AM/PM of a slot text are stated in CartTime.To12hOfSlot; texts that are not slots (NaN hours, missing minutes) are modelled but not characterised.
- CheckoutFields.ValidateField: its contract states only the tri-state structure. The verdict for each field is stated in CheckoutFields.PassesMeans.

## Findings

| source | as written | input that shows it | evidently intended | confidence | as-written member | corrected member |
|---|---|---|---|---|---|---|
| cart/cart.js:72 | the prefill looks for the first two characters of "09:00", "12:00" and "15:00" in the card's time text, but a save writes that text in 12-hour form | a card saved at 09:00 shows "9:00 AM" and one saved at 15:00 shows "3:00 PM"; neither holds "09", "12" or "15", so no time button is clicked and the previous active time stays | reopening a card selects the time it was saved with | not executed | CartTime.TimeBucketAfterSave, CartEdit.ReopenAsWrittenKeepsStaleTime | CartTime.RecoverSlotAfterSave, CartEdit.ReopenAndSaveKeepsCard |
| cart/cart.js:84-102 | the prefill resets only a counter's text, then clicks plus; with one adult (or no children or infants) no click fires | the modal last held 3 adults, and the card reads "1 Adult": the counter shows 1 while the state and the total still count 3 adults | the state follows the counters as shown | not executed | CartEdit.ReopenAsWrittenDesyncsAdults | CartEdit.CountersSet, CartEdit.PrefillKeepsTotalInStep |
| cart/cart.js:228 | the cart total is subtotal plus fee minus discount, with no floor | an empty cart with the default 200 discount totals -111 | open question: the checkout page clamps its total at zero (checkout/checkout.js:56), the cart page does not, and nothing records which is meant; both are kept | not executed; low, the intent is not documented | CartSummary.EmptyCartTotalIsNegative | CartSummary.ClampedSummary |
