/** The optional value the scripts fall back from: "nothing found" is `None`. */
module Optional {
  datatype Option<+T> = None | Some(value: T)
}

/**
  String helpers shared by the three scripts: the white space that JavaScript's
  `\s` matches and `String.prototype.trim` removes, ASCII digits and the
  decimal rendering of counts, `Array.prototype.join`, substring search and
  the upper-casing applied to promo codes.
 */
module Text {

  /** ECMAScript WhiteSpace and LineTerminator code points: the class `\s`
      matches and the set `trim()` strips from both ends. */
  predicate IsSpace(c: char) {
    || c == '\t' || c == '\n' || c == '\U{000B}' || c == '\U{000C}' || c == '\r'
    || c == ' ' || c == '\U{00A0}' || c == '\U{1680}'
    || ('\U{2000}' <= c <= '\U{200A}')
    || c == '\U{2028}' || c == '\U{2029}' || c == '\U{202F}' || c == '\U{205F}'
    || c == '\U{3000}' || c == '\U{FEFF}'
  }

  /** `[0-9]` and `\d`: ASCII digits only. */
  predicate IsDigit(c: char) {
    '0' <= c <= '9'
  }

  /** `[A-Za-z]`. */
  predicate IsAsciiLetter(c: char) {
    ('A' <= c <= 'Z') || ('a' <= c <= 'z')
  }

  predicate AllSpace(s: string) {
    forall k :: 0 <= k < |s| ==> IsSpace(s[k])
  }

  predicate AllDigits(s: string) {
    forall k :: 0 <= k < |s| ==> IsDigit(s[k])
  }

  // ---------------------------------------------------------------------------
  // trim()
  // ---------------------------------------------------------------------------

  /** How many white-space characters `s` starts with. */
  function LeadingSpaces(s: string): (n: nat)
    ensures n <= |s|
    ensures forall k :: 0 <= k < n ==> IsSpace(s[k])
    ensures n < |s| ==> !IsSpace(s[n])
  {
    if |s| > 0 && IsSpace(s[0]) then
      var m := LeadingSpaces(s[1..]);
      assert forall k :: 1 <= k < m + 1 ==> s[k] == s[1..][k - 1];
      m + 1
    else
      0
  }

  /** How many white-space characters `s` ends with. */
  function TrailingSpaces(s: string): (n: nat)
    ensures n <= |s|
    ensures forall k :: |s| - n <= k < |s| ==> IsSpace(s[k])
    ensures n < |s| ==> !IsSpace(s[|s| - n - 1])
  {
    if |s| > 0 && IsSpace(s[|s| - 1]) then
      var m := TrailingSpaces(s[..|s| - 1]);
      assert forall k :: |s| - 1 - m <= k < |s| - 1 ==> s[k] == s[..|s| - 1][k];
      m + 1
    else
      0
  }

  /** Drops leading white space; also what a greedy `\s*` consumes. */
  function TrimStart(s: string): (r: string)
    ensures |r| <= |s| && r == s[|s| - |r|..]
    ensures AllSpace(s[..|s| - |r|])
    ensures r == [] || !IsSpace(r[0])
  {
    var n := LeadingSpaces(s);
    assert forall k :: 0 <= k < n ==> s[..n][k] == s[k];
    s[n..]
  }

  /** Drops trailing white space. */
  function TrimEnd(s: string): (r: string)
    ensures |r| <= |s| && r == s[..|r|]
    ensures AllSpace(s[|r|..])
    ensures r == [] || !IsSpace(r[|r| - 1])
  {
    var n := TrailingSpaces(s);
    assert forall k :: |s| - n <= k < |s| ==> s[|s| - n..][k - (|s| - n)] == s[k];
    s[..|s| - n]
  }

  /** `r` is `s` without its leading and trailing white space: an infix of `s`
      that neither starts nor ends with white space, with only white space
      around it. */
  ghost predicate IsTrimOf(r: string, s: string) {
    && (r == [] || (!IsSpace(r[0]) && !IsSpace(r[|r| - 1])))
    && exists i :: 0 <= i <= |s| - |r| && s[i..i + |r|] == r && AllSpace(s[..i]) && AllSpace(s[i + |r|..])
  }

  /** `String.prototype.trim`. */
  function Trim(s: string): (r: string)
    ensures r == [] || (!IsSpace(r[0]) && !IsSpace(r[|r| - 1]))
  {
    TrimEnd(TrimStart(s))
  }

  /** Leading white space in front of a string that starts with none is what TrimStart removes. */
  lemma {:induction false} LeadingSpacesAfterSpace(p: string, x: string)
    requires AllSpace(p)
    requires x == [] || !IsSpace(x[0])
    ensures LeadingSpaces(p + x) == |p|
  {
    if p != [] {
      assert (p + x)[1..] == p[1..] + x;
      LeadingSpacesAfterSpace(p[1..], x);
    }
  }

  lemma TrimStartAfterSpace(p: string, x: string)
    requires AllSpace(p)
    requires x == [] || !IsSpace(x[0])
    ensures TrimStart(p + x) == x
  {
    LeadingSpacesAfterSpace(p, x);
    assert (p + x)[|p|..] == x;
  }

  /** Trailing white space behind a string that ends with none is what TrimEnd removes. */
  lemma {:induction false} TrailingSpacesBeforeSpace(x: string, q: string)
    requires AllSpace(q)
    requires x == [] || !IsSpace(x[|x| - 1])
    ensures TrailingSpaces(x + q) == |q|
  {
    if q != [] {
      assert (x + q)[..|x + q| - 1] == x + q[..|q| - 1];
      TrailingSpacesBeforeSpace(x, q[..|q| - 1]);
    }
  }

  lemma TrimEndBeforeSpace(x: string, q: string)
    requires AllSpace(q)
    requires x == [] || !IsSpace(x[|x| - 1])
    ensures TrimEnd(x + q) == x
  {
    TrailingSpacesBeforeSpace(x, q);
    assert (x + q)[..|x|] == x;
  }

  /** trim() of white space, a core without white space at its ends, and white space is that core. */
  lemma TrimOfParts(p: string, r: string, q: string)
    requires AllSpace(p) && AllSpace(q)
    requires r == [] || (!IsSpace(r[0]) && !IsSpace(r[|r| - 1]))
    ensures Trim(p + r + q) == r
  {
    if r == [] {
      AllSpaceConcat(p, q);
      TrimStartAfterSpace(p + q, []);
      assert p + r + q == p + q + [];
    } else {
      assert p + r + q == p + (r + q);
      TrimStartAfterSpace(p, r + q);
      TrimEndBeforeSpace(r, q);
    }
  }

  /** Every string is its trim with white space around it. */
  lemma TrimSplit(s: string) returns (p: string, q: string)
    ensures AllSpace(p)
    ensures AllSpace(q)
    ensures s == p + Trim(s) + q
  {
    var a := TrimStart(s);
    p := TrimStartSplit(s);
    q := TrimEndSplit(a);
    Regroup(p, TrimEnd(a), q);
  }

  lemma Regroup(a: string, b: string, c: string)
    ensures a + (b + c) == a + b + c
  {
  }

  lemma Regroup4(a: string, b: string, c: string, d: string)
    ensures a + b + c + d == a + (b + (c + d))
  {
  }

  lemma Regroup5(a: string, b: string, c: string, d: string, e: string)
    ensures a + (b + c + d) + e == (a + b) + c + (d + e)
  {
  }

  lemma AppendEmpty(s: string)
    ensures s + [] == s
  {
  }

  lemma Unpadded(s: string)
    ensures [] + s + [] == s
  {
  }

  lemma SplitThree(s: string, i: nat, j: nat)
    requires i <= j <= |s|
    ensures s == s[..i] + s[i..j] + s[j..]
  {
  }

  /** What TrimStart drops is a white-space prefix. */
  lemma TrimStartSplit(s: string) returns (p: string)
    ensures AllSpace(p) && s == p + TrimStart(s)
  {
    var a := TrimStart(s);
    p := s[..|s| - |a|];
    SplitAt(s, |s| - |a|);
  }

  /** What TrimEnd drops is a white-space suffix. */
  lemma TrimEndSplit(a: string) returns (q: string)
    ensures AllSpace(q) && a == TrimEnd(a) + q
  {
    var r := TrimEnd(a);
    q := a[|r|..];
    SplitAt(a, |r|);
  }

  lemma SplitAt(a: string, n: nat)
    requires n <= |a|
    ensures a == a[..n] + a[n..]
  {
  }

  lemma AllSpaceConcat(a: string, b: string)
    requires AllSpace(a) && AllSpace(b)
    ensures AllSpace(a + b)
  {
    forall k | 0 <= k < |a + b| ensures IsSpace((a + b)[k]) {
      if k < |a| { assert (a + b)[k] == a[k]; } else { assert (a + b)[k] == b[k - |a|]; }
    }
  }

  /** IsTrimOf pins the trimmed string down: trim() computes exactly it. */
  lemma TrimIsUnique(r: string, s: string)
    requires IsTrimOf(r, s)
    ensures Trim(s) == r
  {
    var i :| 0 <= i <= |s| - |r| && s[i..i + |r|] == r && AllSpace(s[..i]) && AllSpace(s[i + |r|..]);
    SplitThree(s, i, i + |r|);
    TrimOfParts(s[..i], r, s[i + |r|..]);
  }

  /** Trimming white space off a string that has none at its ends returns it unchanged. */
  lemma TrimOfTrimmed(s: string)
    requires s == [] || (!IsSpace(s[0]) && !IsSpace(s[|s| - 1]))
    ensures Trim(s) == s
  {
    Unpadded(s);
    TrimOfParts([], s, []);
  }

  /** trim() is idempotent. */
  lemma TrimIdempotent(s: string)
    ensures Trim(Trim(s)) == Trim(s)
  {
    TrimOfTrimmed(Trim(s));
  }

  /** White space added around a string does not survive trim(). */
  lemma TrimIgnoresPadding(p: string, s: string, q: string)
    requires AllSpace(p) && AllSpace(q)
    ensures Trim(p + s + q) == Trim(s)
  {
    var p0, q0 := TrimSplit(s);
    var r := Trim(s);
    Regroup5(p, p0, r, q0, q);
    AllSpaceConcat(p, p0);
    AllSpaceConcat(q0, q);
    TrimOfParts(p + p0, r, q0 + q);
  }

  /** A value is blank when it trims to the empty string. */
  predicate IsBlank(s: string) {
    Trim(s) == []
  }

  /** Blank means nothing but white space. */
  lemma BlankIffAllSpace(s: string)
    ensures IsBlank(s) <==> AllSpace(s)
  {
    if AllSpace(s) {
      TrimOfParts(s, [], []);
      assert s + [] + [] == s;
    }
    var p, q := TrimSplit(s);
    if IsBlank(s) {
      assert s == p + q;
      AllSpaceConcat(p, q);
    }
  }

  // ---------------------------------------------------------------------------
  // Decimal digits: String(n) and parseInt(digits, 10)
  // ---------------------------------------------------------------------------

  function DigitChar(d: nat): (c: char)
    requires d < 10
    ensures IsDigit(c)
  {
    ('0' as int + d) as char
  }

  function DigitValue(c: char): (d: nat)
    requires IsDigit(c)
    ensures d < 10
  {
    c as int - '0' as int
  }

  /** `parseInt(s, 10)` of a string of ASCII digits. */
  function ParseDigits(s: string): nat
    requires AllDigits(s)
  {
    if s == [] then 0 else 10 * ParseDigits(s[..|s| - 1]) + DigitValue(s[|s| - 1])
  }

  /** `String(n)` of a count: its shortest decimal numeral, which parseInt
      reads back as `n`. */
  function NatToString(n: nat): (r: string)
    ensures 1 <= |r| && AllDigits(r)
    ensures ParseDigits(r) == n
    ensures |r| > 1 ==> r[0] != '0'
  {
    if n < 10 then
      [DigitChar(n)]
    else
      var front := NatToString(n / 10);
      var r := front + [DigitChar(n % 10)];
      assert r[..|r| - 1] == front;
      r
  }

  /** The longest prefix of digits: what a greedy `\d+` (or `\d*`) consumes. */
  function DigitPrefix(s: string): (r: string)
    ensures |r| <= |s| && r == s[..|r|] && AllDigits(r)
    ensures |r| == |s| || !IsDigit(s[|r|])
  {
    if |s| > 0 && IsDigit(s[0]) then [s[0]] + DigitPrefix(s[1..]) else []
  }

  /** The digit run ends where the digits end. */
  lemma {:induction false} DigitPrefixOfNumeral(d: string, rest: string)
    requires AllDigits(d)
    requires rest == [] || !IsDigit(rest[0])
    ensures DigitPrefix(d + rest) == d
  {
    if d != [] {
      assert (d + rest)[1..] == d[1..] + rest;
      DigitPrefixOfNumeral(d[1..], rest);
    }
  }

  // ---------------------------------------------------------------------------
  // Sequences of strings and substrings
  // ---------------------------------------------------------------------------

  /** `parts.join(sep)`. */
  function Join(parts: seq<string>, sep: string): string {
    if |parts| == 0 then "" else if |parts| == 1 then parts[0] else parts[0] + sep + Join(parts[1..], sep)
  }

  /** A joined list ends with the last character of its last element. */
  lemma {:induction false} JoinEndsWithLast(parts: seq<string>, sep: string)
    requires |parts| >= 1 && |parts[|parts| - 1]| >= 1
    ensures var j := Join(parts, sep); var l := parts[|parts| - 1]; |j| >= 1 && j[|j| - 1] == l[|l| - 1]
  {
    if |parts| > 1 {
      JoinEndsWithLast(parts[1..], sep);
    }
  }

  predicate StartsWith(s: string, prefix: string) {
    |prefix| <= |s| && s[..|prefix|] == prefix
  }

  /** `s.includes(p)`: `p` occurs in `s` at some position. */
  predicate Contains(s: string, p: string) {
    StartsWith(s, p) || (|s| > 0 && Contains(s[1..], p))
  }

  // ---------------------------------------------------------------------------
  // toUpperCase()
  // ---------------------------------------------------------------------------

  /** Upper case of one character: the ASCII letters, and the two non-ASCII
      letters whose upper case is an ASCII letter (dotless i and long s). */
  function UpperChar(c: char): char {
    if 'a' <= c <= 'z' then (c as int - 32) as char
    else if c == '\U{0131}' then 'I'
    else if c == '\U{017F}' then 'S'
    else c
  }

  function ToUpper(s: string): (r: string)
    ensures |r| == |s|
  {
    seq(|s|, k requires 0 <= k < |s| => UpperChar(s[k]))
  }

  /** Upper-casing works character by character. */
  lemma ToUpperConcat(a: string, b: string)
    ensures ToUpper(a + b) == ToUpper(a) + ToUpper(b)
  {
  }

  /** Upper-casing neither creates nor removes white space, so it commutes with trim(). */
  lemma TrimToUpperCommute(s: string)
    ensures Trim(ToUpper(s)) == ToUpper(Trim(s))
  {
    var p, q := TrimSplit(s);
    var r := Trim(s);
    ToUpperConcat(p + r, q);
    ToUpperConcat(p, r);
    ToUpperKeepsSpace(p);
    ToUpperKeepsSpace(r);
    ToUpperKeepsSpace(q);
    TrimOfParts(ToUpper(p), ToUpper(r), ToUpper(q));
  }

  /** Upper-casing maps white space to itself and nothing else to white space. */
  lemma ToUpperKeepsSpace(s: string)
    ensures forall k :: 0 <= k < |s| ==> (IsSpace(ToUpper(s)[k]) <==> IsSpace(s[k]))
    ensures AllSpace(s) ==> AllSpace(ToUpper(s))
  {
  }

  lemma ToUpperIdempotent(s: string)
    ensures ToUpper(ToUpper(s)) == ToUpper(s)
  {
  }
}
