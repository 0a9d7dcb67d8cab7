/**
  The guest-details form of the checkout page (checkout/checkout.js): the
  per-field validators, `validateField` with its three visible states
  (neutral, valid, invalid), and the two gates that read them — the form's
  submit handler and the Confirm Booking button.
 */
module CheckoutFields {
  import opened Optional
  import opened Text

  // ---------------------------------------------------------------------------
  // Character classes
  // ---------------------------------------------------------------------------

  /** `[A-Za-zأ-يءى\-\s]`: ASCII letters, the Arabic letters U+0623 to U+064A,
      hamza U+0621, alef maksura U+0649, the hyphen and white space. */
  predicate NameChar(c: char) {
    IsAsciiLetter(c) || ('\U{0623}' <= c <= '\U{064A}') || c == '\U{0621}' || c == '\U{0649}'
    || c == '-' || IsSpace(c)
  }

  /** The hotel-name class: the name class plus `0-9`. */
  predicate HotelChar(c: char) {
    NameChar(c) || IsDigit(c)
  }

  /** `[A-Za-z0-9\-\s]`. */
  predicate RoomChar(c: char) {
    IsAsciiLetter(c) || IsDigit(c) || c == '-' || IsSpace(c)
  }

  /** `[^\s@]`. */
  predicate EmailChar(c: char) {
    !IsSpace(c) && c != '@'
  }

  predicate Plain(s: string) {
    forall k :: 0 <= k < |s| ==> EmailChar(s[k])
  }

  // ---------------------------------------------------------------------------
  // The validators; each one trims its input first
  // ---------------------------------------------------------------------------

  /** `validateName`: at least two characters of the name class. */
  predicate ValidName(value: string) {
    var t := Trim(value);
    |t| >= 2 && forall k :: 0 <= k < |t| ==> NameChar(t[k])
  }

  /** `validateHotel`: at least two characters of the hotel class. */
  predicate ValidHotel(value: string) {
    var t := Trim(value);
    |t| >= 2 && forall k :: 0 <= k < |t| ==> HotelChar(t[k])
  }

  /** `validateRoom`: blank is accepted, anything else must be room characters. */
  predicate ValidRoom(value: string) {
    var t := Trim(value);
    t == [] || forall k :: 0 <= k < |t| ==> RoomChar(t[k])
  }

  /** `validateNationality`: anything chosen. */
  predicate ValidNationality(value: string) {
    Trim(value) != []
  }

  /** `^\+?[0-9]{7,15}$`: an optional plus, then seven to fifteen digits. */
  predicate PhoneShape(t: string) {
    var digits := if t != [] && t[0] == '+' then t[1..] else t;
    7 <= |digits| <= 15 && AllDigits(digits)
  }

  /** `validatePhone`: blank is accepted. */
  predicate ValidPhone(value: string) {
    var t := Trim(value);
    t == [] || PhoneShape(t)
  }

  /** The position of the first `@`, if any. */
  function FirstAt(s: string): (r: Option<nat>)
    ensures r.None? ==> forall k :: 0 <= k < |s| ==> s[k] != '@'
    ensures r.Some? ==> r.value < |s| && s[r.value] == '@'
                        && forall k :: 0 <= k < r.value ==> s[k] != '@'
  {
    if s == [] then None
    else if s[0] == '@' then Some(0)
    else match FirstAt(s[1..])
      case None => None
      case Some(i) => Some(i + 1)
  }

  /** A dot with at least one character on each side. */
  predicate HasInnerDot(d: string) {
    exists j :: 1 <= j < |d| - 1 && d[j] == '.'
  }

  /** `^[^\s@]+@[^\s@]+\.[^\s@]+$`, read left to right: a non-empty local part
      up to the first `@`, then a domain free of `@` and white space with a
      dot strictly inside it. */
  predicate EmailShape(s: string) {
    match FirstAt(s)
    case None => false
    case Some(i) => 0 < i && Plain(s[..i]) && Plain(s[i + 1..]) && HasInnerDot(s[i + 1..])
  }

  /** `validateEmail`. */
  predicate ValidEmail(value: string) {
    EmailShape(Trim(value))
  }

  /** The email pattern as the regular expression states it: three non-empty
      runs of `[^\s@]` joined by `@` and `.`. */
  ghost predicate EmailPattern(s: string) {
    exists a: string, b: string, c: string ::
      a != [] && b != [] && c != [] && Plain(a) && Plain(b) && Plain(c) && s == a + "@" + b + "." + c
  }

  lemma EmailShapeToPattern(s: string)
    requires EmailShape(s)
    ensures EmailPattern(s)
  {
    var i := FirstAt(s).value;
    var a, d := s[..i], s[i + 1..];
    var j :| 1 <= j < |d| - 1 && d[j] == '.';
    var b, c := d[..j], d[j + 1..];
    PlainSlices(d, j);
    SplitTwice(s, i, j);
    assert a != [] && b != [] && c != [] && Plain(a) && Plain(b) && Plain(c) && s == a + "@" + b + "." + c;
  }

  /** The runs either side of a position of a plain string are plain. */
  lemma PlainSlices(d: string, j: nat)
    requires j < |d| && Plain(d)
    ensures Plain(d[..j]) && Plain(d[j + 1..])
  {
    var e := d[j + 1..];
    forall k | 0 <= k < |e|
      ensures EmailChar(e[k])
    {
      assert e[k] == d[j + 1 + k];
    }
  }

  /** Cutting out an `@` at `i` and then a dot at `j` of what follows. */
  lemma SplitTwice(s: string, i: nat, j: nat)
    requires i < |s| && s[i] == '@' && j < |s| - i - 1 && s[i + 1..][j] == '.'
    ensures s == s[..i] + "@" + s[i + 1..][..j] + "." + s[i + 1..][j + 1..]
  {
    var d := s[i + 1..];
    assert d == d[..j] + "." + d[j + 1..];
    assert s == s[..i] + "@" + d;
  }

  lemma PatternToEmailShape(s: string)
    requires EmailPattern(s)
    ensures EmailShape(s)
  {
    var a: string, b: string, c: string :|
      a != [] && b != [] && c != [] && Plain(a) && Plain(b) && Plain(c) && s == a + "@" + b + "." + c;
    Regroup4(a + "@", b, ".", c);
    Regroup(b, ".", c);
    DottedDomain(b, c);
    ShapeOfJoin(a, b + "." + c);
  }

  /** Two plain runs joined by a dot make a plain domain with an inner dot. */
  lemma DottedDomain(b: string, c: string)
    requires b != [] && c != [] && Plain(b) && Plain(c)
    ensures Plain(b + "." + c) && HasInnerDot(b + "." + c)
  {
    var d := b + "." + c;
    assert d[|b|] == '.';
    forall k | 0 <= k < |d|
      ensures EmailChar(d[k])
    {
      if k < |b| {
        assert d[k] == b[k];
      } else if k > |b| {
        assert d[k] == c[k - |b| - 1];
      }
    }
  }

  /** A plain local part, an `@` and a plain dotted domain have the shape. */
  lemma ShapeOfJoin(a: string, d: string)
    requires a != [] && Plain(a) && Plain(d) && HasInnerDot(d)
    ensures EmailShape(a + "@" + d)
  {
    var s := a + "@" + d;
    var i := |a|;
    assert s[i] == '@';
    assert forall k :: 0 <= k < i ==> s[k] == a[k];
    assert FirstAt(s) == Some(i);
    assert s[..i] == a;
    assert s[i + 1..] == d;
  }

  /** The left-to-right reading accepts exactly the strings the pattern
      describes. */
  lemma EmailShapeIsPattern(s: string)
    ensures EmailShape(s) <==> EmailPattern(s)
  {
    if EmailShape(s) {
      EmailShapeToPattern(s);
    }
    if EmailPattern(s) {
      PatternToEmailShape(s);
    }
  }

  /** Three plain runs joined by `@` and `.` form a valid email address, with
      no trimming needed. */
  lemma EmailOfRuns(a: string, b: string, c: string)
    requires a != [] && b != [] && c != [] && Plain(a) && Plain(b) && Plain(c)
    ensures ValidEmail(a + "@" + b + "." + c)
  {
    var s := a + "@" + b + "." + c;
    Regroup4(a + "@", b, ".", c);
    Regroup(b, ".", c);
    DottedDomain(b, c);
    ShapeOfJoin(a, b + "." + c);
    assert s[0] == a[0] && s[|s| - 1] == c[|c| - 1];
    TrimOfTrimmed(s);
  }

  /** "a@b.co" is accepted. */
  lemma EmailAccepts(s: string)
    requires s == "a@b.co"
    ensures ValidEmail(s)
  {
    var a, b, c := "a", "b", "co";
    assert Plain(a) && Plain(b) && Plain(c);
    assert s == a + "@" + b + "." + c;
    EmailOfRuns(a, b, c);
  }

  /** "a@b", with no dot after the `@`, and the empty text are rejected. */
  lemma EmailRejects(s: string)
    requires s == "a@b" || s == ""
    ensures !ValidEmail(s)
  {
    TrimOfTrimmed(s);
    if s == "a@b" {
      assert FirstAt(s) == Some(1);
      assert s[2..] == "b";
    }
  }

  /** "12 A" is a room. */
  lemma RoomAccepts(good: string)
    requires good == "12 A"
    ensures ValidRoom(good)
  {
    TrimOfTrimmed(good);
    assert forall k :: 0 <= k < |good| ==> RoomChar(good[k]);
  }

  /** "#12" is not a room: `#` is outside the allowed characters. */
  lemma RoomRejects(bad: string)
    requires bad == "#12"
    ensures !ValidRoom(bad)
  {
    TrimOfTrimmed(bad);
    assert !RoomChar(bad[0]);
  }

  /** A phone field holding only blanks is accepted: the field is optional. */
  lemma PhoneBlank(blank: string)
    requires blank == "  "
    ensures ValidPhone(blank)
  {
    assert AllSpace(blank) && [] + blank + [] == blank;
    TrimOfParts(blank, [], []);
  }

  /** A plus and seven digits make a phone number. */
  lemma PhoneAccepts(good: string)
    requires good == "+2012345"
    ensures ValidPhone(good)
  {
    var digits := "2012345";
    assert good == "+" + digits;
    assert AllDigits(digits);
    PlusDigitsArePhone(digits);
  }

  /** A plus followed by seven to fifteen digits is a phone number. */
  lemma PlusDigitsArePhone(digits: string)
    requires AllDigits(digits) && 7 <= |digits| <= 15
    ensures ValidPhone("+" + digits)
  {
    var t := "+" + digits;
    assert t[1..] == digits;
    assert IsDigit(t[|t| - 1]);
    TrimOfTrimmed(t);
  }

  /** Five digits are too few for a phone number. */
  lemma PhoneRejects(bad: string)
    requires bad == "12345"
    ensures !ValidPhone(bad)
  {
    TrimOfTrimmed(bad);
  }

  /** The phone pattern as the regular expression states it. */
  ghost predicate PhonePattern(t: string) {
    (AllDigits(t) && 7 <= |t| <= 15)
    || exists digits :: AllDigits(digits) && 7 <= |digits| <= 15 && t == "+" + digits
  }

  lemma PhoneShapeIsPattern(t: string)
    ensures PhoneShape(t) <==> PhonePattern(t)
  {
    if t != [] && t[0] == '+' {
      assert t == "+" + t[1..];
      assert !AllDigits(t);
    }
  }

  /** White space around a value never changes a verdict. */
  lemma ValidatorsIgnorePadding(p: string, value: string, q: string)
    requires AllSpace(p) && AllSpace(q)
    ensures ValidName(p + value + q) == ValidName(value)
    ensures ValidHotel(p + value + q) == ValidHotel(value)
    ensures ValidRoom(p + value + q) == ValidRoom(value)
    ensures ValidEmail(p + value + q) == ValidEmail(value)
    ensures ValidPhone(p + value + q) == ValidPhone(value)
    ensures ValidNationality(p + value + q) == ValidNationality(value)
  {
    TrimIgnoresPadding(p, value, q);
  }

  /** Every acceptable guest name is an acceptable hotel name, and a hotel
      name of ASCII letters, digits, hyphens and spaces is an acceptable room. */
  lemma ClassesNest(value: string)
    ensures ValidName(value) ==> ValidHotel(value)
    ensures ValidHotel(value) && (forall k :: 0 <= k < |Trim(value)| ==> RoomChar(Trim(value)[k]))
            ==> ValidRoom(value)
  {
  }

  // ---------------------------------------------------------------------------
  // validateField
  // ---------------------------------------------------------------------------

  /** The form's inputs, by `id`; `Notes` stands for any other input, which
      the switch's default case accepts. */
  datatype Field = FirstName | LastName | Email | Phone | Nationality | HotelName | RoomNumber | Notes

  /** The class a field's form group ends up with. */
  datatype FieldState = Neutral | Valid | Invalid

  /** A field that stays neutral, and passes, while blank. */
  predicate BlankIsNeutral(f: Field) {
    f == Phone || f == RoomNumber || f == Nationality
  }

  function Mark(ok: bool): (bool, FieldState) {
    (ok, if ok then Valid else Invalid)
  }

  /** `validateField`: the verdict it returns and the state it shows. */
  function ValidateField(f: Field, value: string): (r: (bool, FieldState))
    ensures r.0 <==> r.1 != Invalid
    ensures r.1 == Neutral <==> BlankIsNeutral(f) && Trim(value) == []
  {
    match f
    case FirstName => Mark(ValidName(value))
    case LastName => Mark(ValidName(value))
    case Email => Mark(ValidEmail(value))
    case Phone => if Trim(value) == [] then (true, Neutral) else Mark(ValidPhone(value))
    case HotelName => Mark(ValidHotel(value))
    case RoomNumber => if Trim(value) == [] then (true, Neutral) else Mark(ValidRoom(value))
    case Nationality => if Trim(value) == [] then (true, Neutral) else Mark(ValidNationality(value))
    case Notes => Mark(true)
  }

  // ---------------------------------------------------------------------------
  // The form and its two gates
  // ---------------------------------------------------------------------------

  datatype GuestForm = GuestForm(
    firstName: string, lastName: string, email: string, phone: string,
    nationality: string, hotelName: string, roomNumber: string, notes: string)

  function Value(form: GuestForm, f: Field): string {
    match f
    case FirstName => form.firstName
    case LastName => form.lastName
    case Email => form.email
    case Phone => form.phone
    case Nationality => form.nationality
    case HotelName => form.hotelName
    case RoomNumber => form.roomNumber
    case Notes => form.notes
  }

  /** The fields the submit handler validates, in its order. */
  const SubmitFields: seq<Field> := [FirstName, LastName, Email, HotelName, Phone, Nationality, RoomNumber]

  /** The fields the Confirm Booking button validates. */
  const ConfirmFields: seq<Field> := [FirstName, LastName, Email, HotelName]

  /** A gate's verdict and the state each validated field is left showing. */
  datatype Outcome = Outcome(ok: bool, states: seq<FieldState>)

  /** The verdict `validateField` returns for one field of the form. */
  predicate Passes(form: GuestForm, f: Field) {
    ValidateField(f, Value(form, f)).0
  }

  /** Validate every listed field (all of them, not stopping at the first
      failure) and pass when each one passes. */
  function ValidateAll(form: GuestForm, fields: seq<Field>): (r: Outcome)
    ensures |r.states| == |fields|
    ensures forall k :: 0 <= k < |fields| ==> r.states[k] == ValidateField(fields[k], Value(form, fields[k])).1
    ensures r.ok <==> forall k :: 0 <= k < |r.states| ==> r.states[k] != Invalid
  {
    var states := seq(|fields|, k requires 0 <= k < |fields| => ValidateField(fields[k], Value(form, fields[k])).1);
    Outcome(forall k :: 0 <= k < |fields| ==> Passes(form, fields[k]), states)
  }

  /** A list of fields passes exactly when each field on it passes. */
  lemma ValidateAllPasses(form: GuestForm, fields: seq<Field>)
    ensures ValidateAll(form, fields).ok <==> forall f :: f in fields ==> Passes(form, f)
  {
    var r := ValidateAll(form, fields);
    assert forall k :: 0 <= k < |fields| ==> (r.states[k] != Invalid <==> Passes(form, fields[k]));
    assert forall f :: f in fields <==> exists k :: 0 <= k < |fields| && fields[k] == f;
  }

  /** What `validateField` returns for each input of the form. */
  lemma PassesMeans(form: GuestForm, f: Field)
    ensures f == FirstName ==> Passes(form, f) == ValidName(form.firstName)
    ensures f == LastName ==> Passes(form, f) == ValidName(form.lastName)
    ensures f == Email ==> Passes(form, f) == ValidEmail(form.email)
    ensures f == Phone ==> Passes(form, f) == ValidPhone(form.phone)
    ensures f == HotelName ==> Passes(form, f) == ValidHotel(form.hotelName)
    ensures f == RoomNumber ==> Passes(form, f) == ValidRoom(form.roomNumber)
    ensures f == Nationality || f == Notes ==> Passes(form, f)
  {
  }

  /** The submit list, field by field. */
  lemma SubmitFieldsEach(pass: Field -> bool)
    ensures (forall f :: f in SubmitFields ==> pass(f)) <==>
      pass(FirstName) && pass(LastName) && pass(Email) && pass(HotelName)
      && pass(Phone) && pass(Nationality) && pass(RoomNumber)
  {
  }

  /** The confirm list, field by field. */
  lemma ConfirmFieldsEach(pass: Field -> bool)
    ensures (forall f :: f in ConfirmFields ==> pass(f)) <==>
      pass(FirstName) && pass(LastName) && pass(Email) && pass(HotelName)
  {
  }

  /** The submit handler's check; on success the page moves on to payment. */
  function Submit(form: GuestForm): (r: Outcome)
    ensures |r.states| == |SubmitFields|
    ensures r.ok <==> forall k :: 0 <= k < |r.states| ==> r.states[k] != Invalid
  {
    ValidateAll(form, SubmitFields)
  }

  /** The Confirm Booking check; on success the page leaves for the thank-you page. */
  function Confirm(form: GuestForm): (r: Outcome)
    ensures |r.states| == |ConfirmFields|
    ensures r.ok <==> forall k :: 0 <= k < |r.states| ==> r.states[k] != Invalid
  {
    ValidateAll(form, ConfirmFields)
  }

  /** Submit passes exactly when both names, the email, the hotel, the phone
      and the room pass their validators; the nationality has no say. */
  lemma SubmitGate(form: GuestForm)
    ensures Submit(form).ok <==>
      ValidName(form.firstName) && ValidName(form.lastName) && ValidEmail(form.email)
      && ValidHotel(form.hotelName) && ValidPhone(form.phone) && ValidRoom(form.roomNumber)
  {
    ValidateAllPasses(form, SubmitFields);
    SubmitFieldsEach(f => Passes(form, f));
    PassesMeans(form, FirstName);
    PassesMeans(form, LastName);
    PassesMeans(form, Email);
    PassesMeans(form, HotelName);
    PassesMeans(form, Phone);
    PassesMeans(form, Nationality);
    PassesMeans(form, RoomNumber);
  }

  /** Confirm passes exactly when both names, the email and the hotel pass. */
  lemma ConfirmGate(form: GuestForm)
    ensures Confirm(form).ok <==>
      ValidName(form.firstName) && ValidName(form.lastName) && ValidEmail(form.email)
      && ValidHotel(form.hotelName)
  {
    ValidateAllPasses(form, ConfirmFields);
    ConfirmFieldsEach(f => Passes(form, f));
    PassesMeans(form, FirstName);
    PassesMeans(form, LastName);
    PassesMeans(form, Email);
    PassesMeans(form, HotelName);
  }

  /** A form that submits can be confirmed; the converse fails only on the
      optional phone or room. */
  lemma SubmitImpliesConfirm(form: GuestForm)
    ensures Submit(form).ok ==> Confirm(form).ok
    ensures Confirm(form).ok && ValidPhone(form.phone) && ValidRoom(form.roomNumber) ==> Submit(form).ok
  {
    SubmitGate(form);
    ConfirmGate(form);
  }

  /** Neither gate looks at the nationality or the notes, and Confirm does
      not look at the phone or the room either. */
  lemma GatesIgnore(form: GuestForm, nationality: string, notes: string, phone: string, room: string)
    ensures Submit(form.(nationality := nationality, notes := notes)).ok == Submit(form).ok
    ensures Confirm(form.(nationality := nationality, notes := notes, phone := phone, roomNumber := room)).ok
         == Confirm(form).ok
  {
    SubmitGate(form);
    SubmitGate(form.(nationality := nationality, notes := notes));
    ConfirmGate(form);
    ConfirmGate(form.(nationality := nationality, notes := notes, phone := phone, roomNumber := room));
  }
}
