/**
  Times on the cart page (cart/cart.js): the 24-hour `data-time` of a time
  button, its 12-hour rendering on a cart card (`to12h`), and the best-effort
  bucket that maps a card's time text back to one of the three slots when
  the edit modal opens.
 */
module CartTime {
  import opened Optional
  import opened Text

  /** The slots the prefill tries, in order. */
  const Slots: seq<string> := ["09:00", "12:00", "15:00"]

  // ---------------------------------------------------------------------------
  // split(':') and parseInt
  // ---------------------------------------------------------------------------

  /** The text before the first colon (all of it when there is none): `split(':')[0]`. */
  function BeforeColon(s: string): (r: string)
    ensures |r| <= |s| && r == s[..|r|]
    ensures ':' !in r
    ensures |r| < |s| ==> s[|r|] == ':'
  {
    if s == [] || s[0] == ':' then [] else [s[0]] + BeforeColon(s[1..])
  }

  /** `split(':')[1]`: the text between the first and the second colon, or
      nothing (JavaScript's `undefined`) when there is no colon. */
  function MinuteField(s: string): Option<string> {
    var h := BeforeColon(s);
    if |h| == |s| then None else Some(BeforeColon(s[|h| + 1..]))
  }

  /** `parseInt(s, 10)` without a sign: leading white space, then the digit
      run; `None` stands for NaN. */
  function ParseIntPrefix(s: string): (r: Option<nat>)
    ensures r.None? <==> DigitPrefix(TrimStart(s)) == []
  {
    var d := DigitPrefix(TrimStart(s));
    if d == [] then None else Some(ParseDigits(d))
  }

  lemma {:induction false} BeforeColonOfColonFree(a: string, b: string)
    requires ':' !in a
    ensures BeforeColon(a + b) == a || (|BeforeColon(a + b)| > |a|)
    ensures b == [] || b[0] == ':' ==> BeforeColon(a + b) == a
  {
    if a != [] {
      assert (a + b)[1..] == a[1..] + b;
      BeforeColonOfColonFree(a[1..], b);
    } else {
      assert a + b == b;
    }
  }

  // ---------------------------------------------------------------------------
  // to12h
  // ---------------------------------------------------------------------------

  /** The hour a 12-hour clock shows: `h % 12 || 12`, and 12 for NaN. */
  function ClockHour(h: Option<nat>): (n: nat)
    ensures 1 <= n <= 12
    ensures h.Some? ==> n % 12 == h.value % 12
  {
    match h
    case None => 12
    case Some(v) => if v % 12 == 0 then 12 else v % 12
  }

  /** `h >= 12`; NaN compares false, so it reads as AM. */
  predicate IsPm(h: Option<nat>) {
    h.Some? && h.value >= 12
  }

  /** `${hour}:${minutes} ${AM or PM}`. */
  function Clock12(hour: nat, minutes: string, pm: bool): (r: string)
    ensures |r| >= 3 && r[|r| - 3..] == (if pm then " PM" else " AM")
    ensures IsDigit(r[0]) && r[|r| - 1] == 'M'
  {
    var r := NatToString(hour) + ":" + minutes + (if pm then " PM" else " AM");
    assert r[0] == NatToString(hour)[0];
    r
  }

  /** `to12h(hhmm)`. */
  function To12h(hhmm: string): (r: string)
    ensures hhmm == [] <==> r == []
    ensures hhmm != [] ==> |r| >= 3 && (r[|r| - 3..] == " AM" || r[|r| - 3..] == " PM")
  {
    if hhmm == [] then []
    else
      var h := ParseIntPrefix(BeforeColon(hhmm));
      var minutes := match MinuteField(hhmm) case None => "undefined" case Some(m) => m;
      Clock12(ClockHour(h), minutes, IsPm(h))
  }

  // ---------------------------------------------------------------------------
  // The 24-hour slot texts and the inverse of to12h
  // ---------------------------------------------------------------------------

  /** A slot text: two digits for an hour below 24, a colon, and minutes
      without a further colon. */
  predicate IsSlotText(x: string) {
    && |x| >= 3
    && IsDigit(x[0]) && IsDigit(x[1]) && x[2] == ':'
    && ':' !in x[3..]
    && HourOf(x) < 24
  }

  function HourOf(x: string): nat
    requires |x| >= 2 && IsDigit(x[0]) && IsDigit(x[1])
  {
    10 * DigitValue(x[0]) + DigitValue(x[1])
  }

  /** Two-digit rendering of an hour. */
  function Pad2(n: nat): (r: string)
    requires n < 100
    ensures |r| == 2 && IsDigit(r[0]) && IsDigit(r[1])
    ensures HourOf(r) == n
  {
    [DigitChar(n / 10), DigitChar(n % 10)]
  }

  /** Reads a card's time text `"<h>:<minutes> AM|PM"` back into `"HH:<minutes>"`. */
  function From12h(t: string): (r: Option<string>)
    ensures r.Some? ==> |r.value| >= 3 && r.value[2] == ':' && IsDigit(r.value[0]) && IsDigit(r.value[1])
    ensures r.Some? ==> HourOf(r.value) < 24
  {
    if |t| < 3 then None
    else
      var body := t[..|t| - 3];
      var suffix := t[|t| - 3..];
      var h := BeforeColon(body);
      if (suffix != " AM" && suffix != " PM") || |h| == |body| || h == [] || !AllDigits(h) then None
      else
        var n := ParseDigits(h);
        if n < 1 || n > 12 then None
        else Some(Pad2(n % 12 + (if suffix == " PM" then 12 else 0)) + ":" + body[|h| + 1..])
  }

  /** A two-digit numeral read by parseInt. */
  lemma ParseTwoDigits(a: string)
    requires |a| == 2 && AllDigits(a)
    ensures ParseDigits(a) == HourOf(a)
  {
    var front := a[..1];
    assert front[..0] == [];
    assert ParseDigits(front) == DigitValue(a[0]);
    assert a[..|a| - 1] == front;
  }

  /** parseInt of a digit string is its value. */
  lemma ParseIntOfDigits(d: string)
    requires d != [] && AllDigits(d)
    ensures ParseIntPrefix(d) == Some(ParseDigits(d))
  {
    assert !IsSpace(d[0]);
    assert TrimStart(d) == d;
    DigitPrefixOfNumeral(d, []);
    assert d + [] == d;
  }

  /** The hour and minute fields of a slot text. */
  lemma SlotFields(x: string)
    requires IsSlotText(x)
    ensures BeforeColon(x) == x[..2]
    ensures MinuteField(x) == Some(x[3..])
  {
    var hh := x[..2];
    assert x == hh + (":" + x[3..]);
    BeforeColonOfColonFree(hh, ":" + x[3..]);
    assert x[3..] == x[3..] + [];
    BeforeColonOfColonFree(x[3..], []);
  }

  /** to12h on a slot text, spelled out. */
  lemma To12hOfSlot(x: string)
    requires IsSlotText(x)
    ensures To12h(x) == Clock12(ClockHour(Some(HourOf(x))), x[3..], HourOf(x) >= 12)
  {
    SlotHour(x);
    SlotFields(x);
  }

  /** parseInt reads a slot's hour field. */
  lemma SlotHour(x: string)
    requires IsSlotText(x)
    ensures ParseIntPrefix(BeforeColon(x)) == Some(HourOf(x))
  {
    var hh := x[..2];
    SlotFields(x);
    ParseIntOfDigits(hh);
    ParseTwoDigits(hh);
    assert HourOf(hh) == HourOf(x);
  }

  /** From12h on a 12-hour text: the hour goes back to 24-hour form, the minutes stay. */
  lemma From12hOfClock(n: nat, m: string, pm: bool)
    requires 1 <= n <= 12 && ':' !in m
    ensures From12h(Clock12(n, m, pm)) == Some(Pad2(n % 12 + (if pm then 12 else 0)) + ":" + m)
  {
    var digits := NatToString(n);
    var body := digits + ":" + m;
    var suffix := if pm then " PM" else " AM";
    var t := Clock12(n, m, pm);
    assert t == body + suffix;
    assert t[..|t| - 3] == body;
    assert ':' !in digits;
    Regroup(digits, ":", m);
    BeforeColonOfColonFree(digits, ":" + m);
    assert |digits| < |body|;
    assert body[|digits| + 1..] == m;
  }

  /** Reading back what to12h writes gives the slot text again. */
  lemma From12hInvertsTo12h(x: string)
    requires IsSlotText(x)
    ensures From12h(To12h(x)) == Some(x)
  {
    To12hOfSlot(x);
    From12hOfSlotClock(x);
  }

  /** From12h undoes the 12-hour rendering of a slot text. */
  lemma From12hOfSlotClock(x: string)
    requires IsSlotText(x)
    ensures From12h(Clock12(ClockHour(Some(HourOf(x))), x[3..], HourOf(x) >= 12)) == Some(x)
  {
    var v := HourOf(x);
    var n := ClockHour(Some(v));
    From12hOfClock(n, x[3..], v >= 12);
    ClockHourBack(v);
    Pad2OfSlot(x);
  }

  /** The 24-hour hour that a 12-hour clock hour and its meridiem stand for. */
  lemma ClockHourBack(v: nat)
    requires v < 24
    ensures ClockHour(Some(v)) % 12 + (if v >= 12 then 12 else 0) == v
  {
  }

  /** The two-digit rendering of a slot's hour is the slot's own hour field. */
  lemma Pad2OfSlot(x: string)
    requires IsSlotText(x)
    ensures Pad2(HourOf(x)) + ":" + x[3..] == x
  {
    var p := Pad2(HourOf(x));
    assert p[0] == x[0] && p[1] == x[1];
    assert p == x[..2];
    assert x == x[..2] + ":" + x[3..];
  }

  // ---------------------------------------------------------------------------
  // The time bucket used when the edit modal opens
  // ---------------------------------------------------------------------------

  /** `slots.find(t => text.includes(t.slice(0, 2)))`. */
  function FirstIncluded(slots: seq<string>, text: string): (r: Option<string>)
    ensures r.Some? ==> r.value in slots && Contains(text, r.value[..2])
    ensures r.None? <==> forall k :: 0 <= k < |slots| && |slots[k]| >= 2 ==> !Contains(text, slots[k][..2])
    ensures r.Some? ==> exists k :: 0 <= k < |slots| && slots[k] == r.value
                          && forall j :: 0 <= j < k ==> !Contains(text, slots[j][..2])
    requires forall k :: 0 <= k < |slots| ==> |slots[k]| >= 2
  {
    if slots == [] then None
    else if Contains(text, slots[0][..2]) then Some(slots[0])
    else
      var r := FirstIncluded(slots[1..], text);
      assert r.Some? ==> exists k :: 0 <= k < |slots| && slots[k] == r.value
                          && forall j :: 0 <= j < k ==> !Contains(text, slots[j][..2]) by {
        if r.Some? {
          var k :| 0 <= k < |slots[1..]| && slots[1..][k] == r.value
                   && forall j :: 0 <= j < k ==> !Contains(text, slots[1..][j][..2]);
          assert slots[k + 1] == r.value;
          forall j | 0 <= j < k + 1 ensures !Contains(text, slots[j][..2]) {
            if j > 0 {
              assert slots[j] == slots[1..][j - 1];
            }
          }
        }
      }
      r
  }

  /** The slot the prefill picks for a card's trimmed time text: the first
      of the three whose hour digits occur anywhere in the text. */
  function TimeBucket(text: string): (r: Option<string>)
    ensures r == if Contains(text, "09") then Some("09:00")
                 else if Contains(text, "12") then Some("12:00")
                 else if Contains(text, "15") then Some("15:00")
                 else None
  {
    assert Slots[0][..2] == "09" && Slots[1][..2] == "12" && Slots[2][..2] == "15";
    var tail1 := Slots[1..];
    var tail2 := tail1[1..];
    assert tail1[0] == Slots[1] && tail2[0] == Slots[2] && tail2[1..] == [];
    assert FirstIncluded(tail2, text) == if Contains(text, "15") then Some("15:00") else None;
    assert FirstIncluded(tail1, text) == if Contains(text, "12") then Some("12:00") else FirstIncluded(tail2, text);
    FirstIncluded(Slots, text)
  }

  /** A character that does not occur in `s` rules out any substring starting with it. */
  lemma {:induction false} NotContainsMissingChar(s: string, p: string, k: nat)
    requires k < |p| && p[k] !in s
    ensures !Contains(s, p)
  {
    if |s| > 0 {
      assert p[k] !in s[1..];
      NotContainsMissingChar(s[1..], p, k);
    }
  }

  /** A position whose first character differs is not an occurrence. */
  lemma SkipMismatch(s: string, p: string)
    requires |s| > 0 && |p| > 0 && s[0] != p[0]
    ensures Contains(s, p) == Contains(s[1..], p)
  {
  }

  /** A slot text of the "HH:00" shape. */
  lemma OnTheHour(x: string, v: nat)
    requires |x| == 5 && IsDigit(x[0]) && IsDigit(x[1]) && x[2] == ':' && x[3] == '0' && x[4] == '0'
    requires HourOf(x) == v && v < 24
    ensures IsSlotText(x) && x[3..] == "00"
  {
  }

  lemma MorningText(x: string)
    requires x == "09:00"
    ensures To12h(x) == "9:00 AM"
  {
    OnTheHour(x, 9);
    To12hOfSlot(x);
    assert ClockHour(Some(9)) == 9;
    NineAm(To12h(x));
  }

  lemma NoonText(x: string)
    requires x == "12:00"
    ensures To12h(x) == "12:00 PM"
  {
    OnTheHour(x, 12);
    To12hOfSlot(x);
    assert ClockHour(Some(12)) == 12;
    NoonPm(To12h(x));
  }

  lemma AfternoonText(x: string)
    requires x == "15:00"
    ensures To12h(x) == "3:00 PM"
  {
    OnTheHour(x, 15);
    To12hOfSlot(x);
    assert ClockHour(Some(15)) == 3;
    ThreePm(To12h(x));
  }

  /** Midnight shows as 12 on the 12-hour clock, before noon. */
  lemma MidnightText(x: string)
    requires x == "00:30"
    ensures To12h(x) == "12:30 AM"
  {
    assert IsSlotText(x) && HourOf(x) == 0 && x[3..] == "30";
    To12hOfSlot(x);
    assert ClockHour(Some(0)) == 12;
    TwelveThirtyAm(To12h(x));
  }

  lemma NineAm(t: string)
    requires t == Clock12(9, "00", false)
    ensures t == "9:00 AM"
  {
    assert NatToString(9) == "9";
  }

  lemma NoonPm(t: string)
    requires t == Clock12(12, "00", true)
    ensures t == "12:00 PM"
  {
    assert NatToString(1) == "1";
    assert NatToString(12) == "12";
  }

  lemma ThreePm(t: string)
    requires t == Clock12(3, "00", true)
    ensures t == "3:00 PM"
  {
    assert NatToString(3) == "3";
  }

  lemma TwelveThirtyAm(t: string)
    requires t == Clock12(12, "30", false)
    ensures t == "12:30 AM"
  {
    assert NatToString(1) == "1";
    assert NatToString(12) == "12";
  }

  /** "9:00 AM" holds none of the three slot prefixes. */
  lemma MorningMissesEveryBucket()
    ensures TimeBucket("9:00 AM") == None
  {
    var s := "9:00 AM";
    NotContainsMissingChar(s, "12", 0);
    NotContainsMissingChar(s, "15", 0);
    SkipMismatch(s, "09");
    SkipMismatch(s[1..], "09");
    assert s[1..][1..] == "00 AM";
    NotContainsMissingChar("00 AM", "09", 1);
  }

  /** "3:00 PM" holds none of the three slot prefixes. */
  lemma AfternoonMissesEveryBucket()
    ensures TimeBucket("3:00 PM") == None
  {
    var s := "3:00 PM";
    NotContainsMissingChar(s, "09", 1);
    NotContainsMissingChar(s, "12", 0);
    NotContainsMissingChar(s, "15", 0);
  }

  lemma MorningLost(x: string)
    requires x == "09:00"
    ensures TimeBucket(Trim(" " + To12h(x))) == None
  {
    OnTheHour(x, 9);
    TrimTimeItem(x);
    MorningText(x);
    MorningMissesEveryBucket();
  }

  lemma AfternoonLost(x: string)
    requires x == "15:00"
    ensures TimeBucket(Trim(" " + To12h(x))) == None
  {
    OnTheHour(x, 15);
    TrimTimeItem(x);
    AfternoonText(x);
    AfternoonMissesEveryBucket();
  }

  lemma NoonKept(x: string)
    requires x == "12:00"
    ensures TimeBucket(Trim(" " + To12h(x))) == Some(x)
  {
    OnTheHour(x, 12);
    TrimTimeItem(x);
    NoonText(x);
    NoonHitsNoonBucket();
  }

  /** "12:00 PM" holds "12" but not "09". */
  lemma NoonHitsNoonBucket()
    ensures TimeBucket("12:00 PM") == Some("12:00")
  {
    var s := "12:00 PM";
    NotContainsMissingChar(s, "09", 1);
    assert s[..2] == "12";
    assert StartsWith(s, "12");
  }

  /** Of the three slots, only noon survives a save and a reopen: the card
      shows "9:00 AM" or "3:00 PM", which the bucket cannot place. */
  lemma TimeBucketAfterSave(x: string)
    requires x in Slots
    ensures TimeBucket(Trim(" " + To12h(x))) == if x == "12:00" then Some(x) else None
  {
    if x == "09:00" {
      MorningLost(x);
    } else if x == "15:00" {
      AfternoonLost(x);
    } else {
      NoonKept(x);
    }
  }

  /** The corrected bucket: read the 12-hour text back to a slot. */
  function RecoverSlot(text: string): (r: Option<string>)
    ensures r.Some? ==> r.value in Slots && From12h(text) == r
  {
    match From12h(text)
    case Some(x) => if x in Slots then Some(x) else None
    case None => None
  }

  /** A time item is a space before the 12-hour text; trim() returns the text. */
  lemma TrimTimeItem(x: string)
    requires IsSlotText(x)
    ensures Trim(" " + To12h(x)) == To12h(x)
  {
    To12hOfSlot(x);
    TrimClockItem(ClockHour(Some(HourOf(x))), x[3..], HourOf(x) >= 12);
  }

  /** trim() of a space and a 12-hour text is the text. */
  lemma TrimClockItem(n: nat, m: string, pm: bool)
    ensures Trim(" " + Clock12(n, m, pm)) == Clock12(n, m, pm)
  {
    var t := Clock12(n, m, pm);
    AppendEmpty(" " + t);
    TrimOfParts(" ", t, []);
  }

  /** Every slot written to a card and read back is recovered. */
  lemma RecoverSlotAfterSave(x: string)
    requires x in Slots
    ensures RecoverSlot(Trim(" " + To12h(x))) == Some(x)
  {
    assert IsSlotText(x) by {
      assert x == "09:00" || x == "12:00" || x == "15:00";
    }
    TrimTimeItem(x);
    From12hInvertsTo12h(x);
  }
}
