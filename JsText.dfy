/** The few pieces of JavaScript string semantics the profile finder relies on:
    `String.prototype.trim`, the truthiness of a nullable string, and the decimal
    text a template literal produces for an integer. */
module JsText {
  import opened Nullable

  /** ECMAScript's WhiteSpace and LineTerminator characters: exactly what `trim` strips. */
  predicate IsJsWhitespace(c: char) {
    c == '\U{9}' || c == '\U{B}' || c == '\U{C}' || c == ' ' || c == '\U{A0}' || c == '\U{FEFF}'
    || c == '\U{1680}' || ('\U{2000}' <= c <= '\U{200A}') || c == '\U{202F}' || c == '\U{205F}'
    || c == '\U{3000}'
    || c == '\n' || c == '\r' || c == '\U{2028}' || c == '\U{2029}'
  }

  predicate AllWhitespace(s: string) {
    forall i :: 0 <= i < |s| ==> IsJsWhitespace(s[i])
  }

  /** How many whitespace characters open s. */
  function LeadingSpace(s: string): (k: nat)
    ensures k <= |s|
    ensures forall i :: 0 <= i < k ==> IsJsWhitespace(s[i])
    ensures k < |s| ==> !IsJsWhitespace(s[k])
  {
    if s == [] || !IsJsWhitespace(s[0]) then 0 else 1 + LeadingSpace(s[1..])
  }

  /** How many whitespace characters close s. */
  function TrailingSpace(s: string): (k: nat)
    ensures k <= |s|
    ensures forall i :: |s| - k <= i < |s| ==> IsJsWhitespace(s[i])
    ensures k < |s| ==> !IsJsWhitespace(s[|s| - 1 - k])
  {
    if s == [] || !IsJsWhitespace(s[|s| - 1]) then 0 else 1 + TrailingSpace(s[..|s| - 1])
  }

  /** r is the slice of s starting at a, and only whitespace surrounds it. */
  predicate TrimmedAt(s: string, r: string, a: int) {
    && 0 <= a <= |s| - |r| && r == s[a..a + |r|]
    && (forall i :: 0 <= i < a ==> IsJsWhitespace(s[i]))
    && (forall i :: a + |r| <= i < |s| ==> IsJsWhitespace(s[i]))
  }

  /** Cutting a whitespace prefix of length a and a whitespace suffix of length b
      from s leaves a slice of s with only whitespace around it. */
  lemma CutIsTrimmed(s: string, a: nat, b: nat)
    requires a + b <= |s|
    requires forall i :: 0 <= i < a ==> IsJsWhitespace(s[i])
    requires forall i :: |s| - b <= i < |s| ==> IsJsWhitespace(s[i])
    ensures TrimmedAt(s, s[a..|s| - b], a)
  {
  }

  /** Cutting a characters from the front and then b from the back of what is left
      is the slice s[a..|s| - b]. */
  lemma CutBothEnds(s: string, a: nat, b: nat)
    requires a + b <= |s|
    ensures s[a..][..|s| - a - b] == s[a..|s| - b]
  {
  }

  /** A whitespace suffix of s[a..] is a whitespace suffix of s. */
  lemma SuffixOfRest(s: string, a: nat, b: nat)
    requires a + b <= |s|
    requires forall j :: |s| - a - b <= j < |s| - a ==> IsJsWhitespace(s[a..][j])
    ensures forall i :: |s| - b <= i < |s| ==> IsJsWhitespace(s[i])
  {
    forall i | |s| - b <= i < |s| ensures IsJsWhitespace(s[i]) {
      assert s[i] == s[a..][i - a];
    }
  }

  /** `s.trim()`: s without its leading and trailing whitespace. */
  function Trim(s: string): (r: string)
    ensures |r| <= |s|
    ensures r != [] ==> !IsJsWhitespace(r[0]) && !IsJsWhitespace(r[|r| - 1])
    ensures exists a :: TrimmedAt(s, r, a)
  {
    var a := LeadingSpace(s);
    var t := s[a..];
    var b := TrailingSpace(t);
    SuffixOfRest(s, a, b);
    CutIsTrimmed(s, a, b);
    CutBothEnds(s, a, b);
    t[..|t| - b]
  }

  /** `!s.trim()`: the empty string is the only falsy string. */
  predicate IsBlank(s: string) {
    Trim(s) == []
  }

  /** A string is blank exactly when every one of its characters is whitespace. */
  lemma BlankIffAllWhitespace(s: string)
    ensures IsBlank(s) <==> AllWhitespace(s)
  {
    var r := Trim(s);
    var a :| TrimmedAt(s, r, a);
    if r != [] {
      assert s[a] == r[0];
    }
  }

  /** The truthiness of a nullable string: null, undefined and "" are falsy. */
  predicate Truthy(s: Option<string>) {
    s.Some? && s.value != ""
  }

  predicate IsDigit(c: char) {
    '0' <= c <= '9'
  }

  function DigitChar(d: nat): (c: char)
    requires d < 10
    ensures IsDigit(c) && c as int - '0' as int == d
  {
    (d + '0' as int) as char
  }

  /** The decimal digits of n, without leading zeros. */
  function NaturalDigits(n: nat): (s: string)
    ensures s != []
    ensures forall i :: 0 <= i < |s| ==> IsDigit(s[i])
    ensures n > 0 ==> s[0] != '0'
  {
    if n < 10 then [DigitChar(n)] else NaturalDigits(n / 10) + [DigitChar(n % 10)]
  }

  /** The text JavaScript gives an integer in a template literal: a minus sign for a
      negative value, then its decimal digits. */
  function Decimal(n: int): (s: string)
    ensures s != []
    ensures forall i :: 0 <= i < |s| ==> IsDigit(s[i]) || (i == 0 && s[i] == '-')
    ensures n == 0 ==> s == "0"
    ensures n != 0 ==> s[0] != '0'
    ensures s[0] == '-' <==> n < 0
    ensures s[0] == '-' ==> |s| > 1 && s[1] != '0'
  {
    if n < 0 then "-" + NaturalDigits(-n) else NaturalDigits(n)
  }

  /** The value of a non-empty string of decimal digits; None for anything else. */
  function ParseNatural(s: string): (r: Option<nat>)
    ensures r.Some? ==> s != [] && forall i :: 0 <= i < |s| ==> IsDigit(s[i])
  {
    if s == [] || !IsDigit(s[|s| - 1]) then None
    else
      var d := s[|s| - 1] as int - '0' as int;
      if |s| == 1 then Some(d)
      else match ParseNatural(s[..|s| - 1])
        case None => None
        case Some(v) => Some(10 * v + d)
  }

  /** The value of Decimal's text: an optional minus sign, then digits with no
      leading zero. Any other text, "-0" and "007" among them, is None. */
  function ParseDecimal(s: string): (r: Option<int>)
    ensures r.Some? ==> s != [] && s != "-"
  {
    var negative := s != [] && s[0] == '-';
    var digits := if negative then s[1..] else s;
    var magnitude := ParseNatural(digits);
    if magnitude.None? || (|digits| > 1 && digits[0] == '0') then None
    else if negative then
      if magnitude.value == 0 then None else Some(0 - magnitude.value)
    else Some(magnitude.value)
  }

  lemma {:induction false} NaturalDigitsRoundTrip(n: nat)
    ensures ParseNatural(NaturalDigits(n)) == Some(n)
  {
    if n >= 10 {
      var s := NaturalDigits(n);
      NaturalDigitsRoundTrip(n / 10);
      assert s[..|s| - 1] == NaturalDigits(n / 10);
    }
  }

  /** Decimal loses nothing: its text reads back as the same integer. */
  lemma DecimalRoundTrip(n: int)
    ensures ParseDecimal(Decimal(n)) == Some(n)
  {
    if n < 0 {
      var digits := NaturalDigits(-n);
      NaturalDigitsRoundTrip(-n);
      assert Decimal(n) == "-" + digits;
      assert ("-" + digits)[0] == '-';
      assert ("-" + digits)[1..] == digits;
    } else {
      NaturalDigitsRoundTrip(n);
    }
  }

  /** Digits without a leading zero are the NaturalDigits text of their value. */
  lemma {:induction false} ParseNaturalCanonical(s: string, v: nat)
    requires ParseNatural(s) == Some(v)
    requires |s| > 1 ==> s[0] != '0'
    ensures s == NaturalDigits(v)
    decreases |s|
  {
    var d := s[|s| - 1] as int - '0' as int;
    if |s| > 1 {
      var p := s[..|s| - 1];
      var w := ParseNatural(p).value;
      assert v == 10 * w + d && p[0] == s[0];
      ParseNaturalCanonical(p, w);
      assert w >= 1;
      assert v / 10 == w && v % 10 == d;
      assert s == p + [s[|s| - 1]];
    }
  }

  /** ParseDecimal accepts exactly one text per integer: the one Decimal writes. */
  lemma DecimalCanonical(s: string, n: int)
    requires ParseDecimal(s) == Some(n)
    ensures s == Decimal(n)
  {
    if s[0] == '-' {
      ParseNaturalCanonical(s[1..], -n);
      assert s == "-" + s[1..];
    } else {
      ParseNaturalCanonical(s, n);
    }
  }
}
