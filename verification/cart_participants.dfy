/**
  The participants line of a cart card (cart/cart.js): how saving the edit
  modal writes it ("2 Adults, 1 Child") and how opening the modal reads it
  back with the patterns `(\d+)\s*Adult`, `(\d+)\s*Child` and `(\d+)\s*Infant`.
 */
module CartParticipants {
  import opened Optional
  import opened Text
  import Booking

  // ---------------------------------------------------------------------------
  // Writing the line
  // ---------------------------------------------------------------------------

  /** `${n} ${n > 1 ? plural : singular}`. */
  function Clause(n: nat, singular: string, plural: string): string {
    NatToString(n) + " " + (if n > 1 then plural else singular)
  }

  function AdultClause(n: nat): string { Clause(n, "Adult", "Adults") }
  function ChildClause(n: nat): string { Clause(n, "Child", "Children") }
  function InfantClause(n: nat): string { Clause(n, "Infant", "Infants") }

  /** The clauses of the line: adults always, children and infants only when present. */
  function Clauses(c: Booking.Counts): (parts: seq<string>)
    ensures 1 <= |parts| <= 3 && parts[0] == AdultClause(c.adults)
    ensures |parts| == 1 + (if c.children > 0 then 1 else 0) + (if c.infants > 0 then 1 else 0)
  {
    [AdultClause(c.adults)]
      + (if c.children > 0 then [ChildClause(c.children)] else [])
      + (if c.infants > 0 then [InfantClause(c.infants)] else [])
  }

  /** `parts.join(', ')`. */
  function ParticipantsLine(c: Booking.Counts): string {
    Join(Clauses(c), ", ")
  }

  /** A clause takes the plural noun exactly when there is more than one,
      and the singular one otherwise (zero included). */
  lemma PluralIffMany(n: nat, singular: string, plural: string)
    requires singular != plural
    ensures Clause(n, singular, plural) == NatToString(n) + " " + plural <==> n > 1
    ensures Clause(n, singular, plural) == NatToString(n) + " " + singular <==> n <= 1
  {
    var head := NatToString(n) + " ";
    assert (head + singular)[|head|..] == singular && (head + plural)[|head|..] == plural;
  }

  /** Two adults and a child are written "2 Adults, 1 Child". */
  lemma TwoAdultsOneChild(line: string)
    requires line == ParticipantsLine(Booking.Counts(2, 1, 0))
    ensures line == "2 Adults, 1 Child"
  {
    assert NatToString(2) == "2" && NatToString(1) == "1";
    Join2(AdultClause(2), ChildClause(1), ", ");
    assert Clauses(Booking.Counts(2, 1, 0)) == [AdultClause(2), ChildClause(1)];
  }

  /** One adult and two infants are written "1 Adult, 2 Infants". */
  lemma OneAdultTwoInfants(line: string)
    requires line == ParticipantsLine(Booking.Counts(1, 0, 2))
    ensures line == "1 Adult, 2 Infants"
  {
    assert NatToString(2) == "2" && NatToString(1) == "1";
    Join2(AdultClause(1), InfantClause(2), ", ");
    assert Clauses(Booking.Counts(1, 0, 2)) == [AdultClause(1), InfantClause(2)];
  }

  /** The optional part of the line that follows the adults clause. */
  function Tail(c: Booking.Counts): string {
    (if c.children > 0 then ", " + ChildClause(c.children) else "")
      + (if c.infants > 0 then ", " + InfantClause(c.infants) else "")
  }

  lemma Join2(x: string, y: string, sep: string)
    ensures Join([x, y], sep) == x + (sep + y)
  {
    assert [x, y][1..] == [y];
  }

  lemma Join3(x: string, y: string, z: string, sep: string)
    ensures Join([x, y, z], sep) == x + (sep + y + (sep + z))
  {
    assert [x, y, z][1..] == [y, z];
    Join2(y, z, sep);
  }

  /** The line is the adults clause followed by the optional children and infants clauses. */
  lemma LineShape(c: Booking.Counts)
    ensures ParticipantsLine(c) == AdultClause(c.adults) + Tail(c)
  {
    var a := AdultClause(c.adults);
    var ch := ChildClause(c.children);
    var inf := InfantClause(c.infants);
    if c.children > 0 && c.infants > 0 {
      assert Clauses(c) == [a, ch, inf];
      Join3(a, ch, inf, ", ");
    } else if c.children > 0 {
      assert Clauses(c) == [a, ch];
      assert Tail(c) == ", " + ch;
      Join2(a, ch, ", ");
    } else if c.infants > 0 {
      assert Clauses(c) == [a, inf];
      assert Tail(c) == ", " + inf;
      Join2(a, inf, ", ");
    } else {
      assert Clauses(c) == [a];
      assert a + Tail(c) == a;
    }
  }

  // ---------------------------------------------------------------------------
  // Reading the line: the first match of (\d+)\s*<word>
  // ---------------------------------------------------------------------------

  /** A match of `(\d+)\s*<word>` starting at the first character of `t`,
      with the value of its digit group. The digit run and the white space
      are greedy, and backtracking cannot help: a shorter digit run is
      followed by a digit, which neither `\s` nor the word's letter matches. */
  function MatchHere(t: string, word: string): (r: Option<nat>)
    ensures r.Some? ==> t != [] && IsDigit(t[0])
  {
    if t != [] && IsDigit(t[0]) then
      var d := DigitPrefix(t);
      if StartsWith(TrimStart(t[|d|..]), word) then Some(ParseDigits(d)) else None
    else
      None
  }

  /** `t.match(/(\d+)\s*<word>/)`: the leftmost match, parsed by parseInt. */
  function FirstCount(t: string, word: string): (r: Option<nat>)
    ensures r.Some? ==> Contains(t, word)
  {
    if t == [] then None
    else
      match MatchHere(t, word)
      case Some(n) =>
        MatchContainsWord(t, word);
        Some(n)
      case None => FirstCount(t[1..], word)
  }

  /** A match contains its word. */
  lemma MatchContainsWord(t: string, word: string)
    requires MatchHere(t, word).Some?
    ensures Contains(t, word)
  {
    var d := DigitPrefix(t);
    var rest := TrimStart(t[|d|..]);
    assert rest == t[|t| - |rest|..];
    SuffixContains(t, |t| - |rest|, word);
  }

  /** A word that starts some suffix occurs in the whole. */
  lemma {:induction false} SuffixContains(t: string, k: nat, word: string)
    requires k <= |t| && StartsWith(t[k..], word)
    ensures Contains(t, word)
    decreases k
  {
    if k > 0 {
      assert t[1..][k - 1..] == t[k..];
      SuffixContains(t[1..], k - 1, word);
    } else {
      assert t[0..] == t;
    }
  }

  /** What the modal opens with: the three first matches, defaulting to one
      adult, no children and no infants. */
  function ParseParticipants(text: string): (c: Booking.Counts)
    ensures !Contains(text, "Adult") ==> c.adults == 1
    ensures !Contains(text, "Child") ==> c.children == 0
    ensures !Contains(text, "Infant") ==> c.infants == 0
  {
    Booking.Counts(
      match FirstCount(text, "Adult") case Some(n) => n case None => 1,
      match FirstCount(text, "Child") case Some(n) => n case None => 0,
      match FirstCount(text, "Infant") case Some(n) => n case None => 0)
  }

  // ---------------------------------------------------------------------------
  // Scanning lemmas
  // ---------------------------------------------------------------------------

  predicate NoDigits(s: string) {
    forall k :: 0 <= k < |s| ==> !IsDigit(s[k])
  }

  /** No match can start on a character that is not a digit. */
  lemma {:induction false} SkipNonDigits(p: string, rest: string, word: string)
    requires NoDigits(p)
    ensures FirstCount(p + rest, word) == FirstCount(rest, word)
  {
    if p == [] {
      assert p + rest == rest;
    } else {
      assert (p + rest)[1..] == p[1..] + rest;
      assert (p + rest)[0] == p[0];
      SkipNonDigits(p[1..], rest, word);
    }
  }

  /** The match attempt at the first digit of a run looks past the whole run. */
  lemma MatchAtNumeral(d: string, rest: string, word: string)
    requires d != [] && AllDigits(d)
    requires rest == [] || !IsDigit(rest[0])
    ensures MatchHere(d + rest, word) == if StartsWith(TrimStart(rest), word) then Some(ParseDigits(d)) else None
  {
    var t := d + rest;
    DigitPrefixOfNumeral(d, rest);
    assert t[|d|..] == rest;
    assert t[0] == d[0];
  }

  /** A digit run not followed by the word holds no match, at any of its digits. */
  lemma {:induction false} SkipNumeral(d: string, rest: string, word: string)
    requires d != [] && AllDigits(d)
    requires rest == [] || !IsDigit(rest[0])
    requires !StartsWith(TrimStart(rest), word)
    ensures FirstCount(d + rest, word) == FirstCount(rest, word)
  {
    var t := d + rest;
    MatchAtNumeral(d, rest, word);
    assert t[1..] == d[1..] + rest;
    if |d| > 1 {
      SkipNumeral(d[1..], rest, word);
    } else {
      assert d[1..] + rest == rest;
    }
  }

  /** A digit run followed by the word is the match. */
  lemma HitNumeral(d: string, rest: string, word: string)
    requires d != [] && AllDigits(d)
    requires rest == [] || !IsDigit(rest[0])
    requires StartsWith(TrimStart(rest), word)
    ensures FirstCount(d + rest, word) == Some(ParseDigits(d))
  {
    MatchAtNumeral(d, rest, word);
  }

  predicate IsNoun(noun: string) {
    noun != [] && !IsSpace(noun[0]) && NoDigits(noun)
  }

  /** Where the text after a clause's numeral leads. */
  lemma AfterNumeral(noun: string, tail: string)
    requires IsNoun(noun)
    ensures TrimStart(" " + (noun + tail)) == noun + tail
    ensures NoDigits(" " + noun)
  {
    TrimStartAfterSpace(" ", noun + tail);
  }

  /** A clause for another word is passed over. */
  lemma SkipClause(n: nat, noun: string, tail: string, word: string)
    requires IsNoun(noun) && word != [] && noun[0] != word[0]
    ensures FirstCount(NatToString(n) + " " + noun + tail, word) == FirstCount(tail, word)
  {
    var d := NatToString(n);
    var rest := " " + (noun + tail);
    AfterNumeral(noun, tail);
    assert !StartsWith(noun + tail, word) by {
      assert (noun + tail)[0] == noun[0];
    }
    Regroup4(d, " ", noun, tail);
    SkipNumeral(d, rest, word);
    Regroup(" ", noun, tail);
    SkipNonDigits(" " + noun, tail, word);
  }

  /** A clause whose noun starts with the word is the match, and yields its count. */
  lemma HitClause(n: nat, noun: string, tail: string, word: string)
    requires IsNoun(noun) && StartsWith(noun, word)
    ensures FirstCount(NatToString(n) + " " + noun + tail, word) == Some(n)
  {
    var d := NatToString(n);
    var rest := " " + (noun + tail);
    AfterNumeral(noun, tail);
    assert StartsWith(noun + tail, word) by {
      assert (noun + tail)[..|word|] == noun[..|word|];
    }
    Regroup4(d, " ", noun, tail);
    HitNumeral(d, rest, word);
  }

  /** The six nouns. */
  lemma Nouns()
    ensures IsNoun("Adult") && IsNoun("Adults") && IsNoun("Child") && IsNoun("Children")
    ensures IsNoun("Infant") && IsNoun("Infants")
    ensures StartsWith("Adults", "Adult") && StartsWith("Adult", "Adult")
    ensures StartsWith("Children", "Child") && StartsWith("Child", "Child")
    ensures StartsWith("Infants", "Infant") && StartsWith("Infant", "Infant")
  {
  }

  /** A text with no digits holds no match. */
  lemma NoMatchWithoutDigits(t: string, word: string)
    requires NoDigits(t)
    ensures FirstCount(t, word) == None
  {
    SkipNonDigits(t, [], word);
    assert t + [] == t;
  }

  // ---------------------------------------------------------------------------
  // The round trip
  // ---------------------------------------------------------------------------

  /** Each optional clause, seen from the word it does not start with. */
  lemma SkipOptional(n: nat, singular: string, plural: string, tail: string, word: string)
    requires IsNoun(singular) && IsNoun(plural) && word != []
    requires singular[0] == plural[0] && singular[0] != word[0]
    ensures FirstCount(", " + Clause(n, singular, plural) + tail, word) == FirstCount(tail, word)
  {
    var noun := if n > 1 then plural else singular;
    assert ", " + Clause(n, singular, plural) + tail == ", " + (NatToString(n) + " " + noun + tail);
    SkipNonDigits(", ", NatToString(n) + " " + noun + tail, word);
    SkipClause(n, noun, tail, word);
  }

  lemma HitOptional(n: nat, singular: string, plural: string, tail: string, word: string)
    requires IsNoun(singular) && IsNoun(plural) && StartsWith(singular, word) && StartsWith(plural, word)
    ensures FirstCount(", " + Clause(n, singular, plural) + tail, word) == Some(n)
  {
    var noun := if n > 1 then plural else singular;
    assert ", " + Clause(n, singular, plural) + tail == ", " + (NatToString(n) + " " + noun + tail);
    SkipNonDigits(", ", NatToString(n) + " " + noun + tail, word);
    HitClause(n, noun, tail, word);
  }

  /** The adults count is read back from a saved line. */
  lemma ReadAdults(c: Booking.Counts)
    ensures FirstCount(" " + ParticipantsLine(c), "Adult") == Some(c.adults)
  {
    LineShape(c);
    Nouns();
    var noun := if c.adults > 1 then "Adults" else "Adult";
    assert " " + ParticipantsLine(c) == " " + (NatToString(c.adults) + " " + noun + Tail(c));
    SkipNonDigits(" ", NatToString(c.adults) + " " + noun + Tail(c), "Adult");
    HitClause(c.adults, noun, Tail(c), "Adult");
  }

  /** Past the adults clause, what remains for the children and infants patterns. */
  lemma PastAdults(c: Booking.Counts, word: string)
    requires word == "Child" || word == "Infant"
    ensures FirstCount(" " + ParticipantsLine(c), word) == FirstCount(Tail(c), word)
  {
    LineShape(c);
    Nouns();
    var noun := if c.adults > 1 then "Adults" else "Adult";
    assert " " + ParticipantsLine(c) == " " + (NatToString(c.adults) + " " + noun + Tail(c));
    SkipNonDigits(" ", NatToString(c.adults) + " " + noun + Tail(c), word);
    SkipClause(c.adults, noun, Tail(c), word);
  }

  lemma ReadChildren(c: Booking.Counts)
    ensures FirstCount(" " + ParticipantsLine(c), "Child") == if c.children > 0 then Some(c.children) else None
  {
    PastAdults(c, "Child");
    Nouns();
    var infants := if c.infants > 0 then ", " + InfantClause(c.infants) else "";
    if c.children > 0 {
      assert Tail(c) == ", " + ChildClause(c.children) + infants;
      HitOptional(c.children, "Child", "Children", infants, "Child");
    } else if c.infants > 0 {
      assert Tail(c) == ", " + InfantClause(c.infants) + [];
      SkipOptional(c.infants, "Infant", "Infants", [], "Child");
    } else {
      assert Tail(c) == [];
    }
  }

  lemma ReadInfants(c: Booking.Counts)
    ensures FirstCount(" " + ParticipantsLine(c), "Infant") == if c.infants > 0 then Some(c.infants) else None
  {
    PastAdults(c, "Infant");
    Nouns();
    var infants := if c.infants > 0 then ", " + InfantClause(c.infants) else "";
    var afterChildren: Option<nat> := if c.infants > 0 then Some(c.infants) else None;
    if c.infants > 0 {
      assert infants == ", " + InfantClause(c.infants) + [];
      HitOptional(c.infants, "Infant", "Infants", [], "Infant");
    } else {
      assert infants == [];
    }
    assert FirstCount(infants, "Infant") == afterChildren;
    if c.children > 0 {
      assert Tail(c) == ", " + ChildClause(c.children) + infants;
      SkipOptional(c.children, "Child", "Children", infants, "Infant");
    } else {
      assert Tail(c) == infants;
    }
  }

  /** Opening the modal on a line the modal itself saved reads back exactly
      the counts that were saved (the card's item text starts with the space
      that follows its icon). */
  lemma ParseAfterSave(c: Booking.Counts)
    ensures ParseParticipants(" " + ParticipantsLine(c)) == c
  {
    ReadAdults(c);
    ReadChildren(c);
    ReadInfants(c);
  }
}
