/** The JavaScript string operations the core relies on: `trim`, `toLowerCase`,
    `includes`, `Number.prototype.toString` and `parseInt` on identifiers. */
module Text {
  import opened Common

  /** The characters `String.prototype.trim` removes: ECMAScript WhiteSpace
      (tab, vertical tab, form feed, space, no-break space, byte-order mark and
      the Unicode space separators) and LineTerminator. */
  predicate IsSpace(c: char) {
    c == '\t' || c == '\n' || c == '\U{0B}' || c == '\U{0C}' || c == '\r' || c == ' '
    || c == '\U{A0}' || c == '\U{1680}' || ('\U{2000}' <= c <= '\U{200A}')
    || c == '\U{2028}' || c == '\U{2029}' || c == '\U{202F}' || c == '\U{205F}'
    || c == '\U{3000}' || c == '\U{FEFF}'
  }

  function TrimStart(s: string): (r: string)
    ensures |r| <= |s|
    ensures r == "" || !IsSpace(r[0])
  {
    if |s| > 0 && IsSpace(s[0]) then TrimStart(s[1..]) else s
  }

  function TrimEnd(s: string): (r: string)
    ensures |r| <= |s|
  {
    if |s| > 0 && IsSpace(s[|s| - 1]) then TrimEnd(s[..|s| - 1]) else s
  }

  /** `s.trim()`. */
  function Trim(s: string): string {
    TrimEnd(TrimStart(s))
  }

  /** Every character is white space (vacuously so for ""). */
  predicate AllSpace(s: string) {
    forall i :: 0 <= i < |s| ==> IsSpace(s[i])
  }

  lemma {:induction false} TrimStartEmpty(s: string)
    ensures TrimStart(s) == "" <==> AllSpace(s)
  {
    if |s| > 0 && IsSpace(s[0]) {
      TrimStartEmpty(s[1..]);
      assert AllSpace(s[1..]) ==> AllSpace(s) by {
        if AllSpace(s[1..]) {
          forall i | 0 <= i < |s| ensures IsSpace(s[i]) {
            if i > 0 { assert s[i] == s[1..][i - 1]; }
          }
        }
      }
    }
  }

  /** Trimming the end of a string that starts with a non-space character
      leaves at least that character. */
  lemma {:induction false} TrimEndKeepsFirst(s: string)
    requires |s| > 0 && !IsSpace(s[0])
    ensures TrimEnd(s) != ""
  {
    if IsSpace(s[|s| - 1]) {
      TrimEndKeepsFirst(s[..|s| - 1]);
    }
  }

  /** A string trims to "" exactly when it consists of white space only, which
      is when `!s.trim()` holds. */
  lemma TrimEmptyIff(s: string)
    ensures Trim(s) == "" <==> AllSpace(s)
  {
    if TrimStart(s) != "" {
      TrimEndKeepsFirst(TrimStart(s));
    }
    TrimStartEmpty(s);
  }

  /** `toLowerCase` on one character; only the ASCII letters are mapped here. */
  function LowerChar(c: char): char {
    if 'A' <= c <= 'Z' then (c as int + 32) as char else c
  }

  /** `s.toLowerCase()`: the same length, and no upper-case ASCII letter left. */
  function Lower(s: string): (r: string)
    ensures |r| == |s|
    ensures forall i :: 0 <= i < |r| ==> !('A' <= r[i] <= 'Z')
  {
    seq(|s|, i requires 0 <= i < |s| => LowerChar(s[i]))
  }

  /** Lower-casing twice is lower-casing once. */
  lemma LowerIdempotent(s: string)
    ensures Lower(Lower(s)) == Lower(s)
  {
  }

  /** `hay.includes(needle)`: needle occurs in hay at some position. */
  function Includes(hay: string, needle: string): bool {
    needle <= hay || (|hay| > 0 && Includes(hay[1..], needle))
  }

  /** Where `includes` finds its needle. */
  lemma {:induction false} IncludesAt(hay: string, needle: string) returns (k: nat)
    requires Includes(hay, needle)
    ensures k + |needle| <= |hay| && hay[k..k + |needle|] == needle
  {
    if needle <= hay {
      k := 0;
    } else {
      var j := IncludesAt(hay[1..], needle);
      assert hay[j + 1..j + 1 + |needle|] == hay[1..][j..j + |needle|];
      k := j + 1;
    }
  }

  /** A needle found at some position is reported by `includes`. */
  lemma {:induction false} IncludesFrom(hay: string, needle: string, k: nat)
    requires k + |needle| <= |hay| && hay[k..k + |needle|] == needle
    ensures Includes(hay, needle)
  {
    if k > 0 {
      assert hay[1..][k - 1..k - 1 + |needle|] == hay[k..k + |needle|];
      IncludesFrom(hay[1..], needle, k - 1);
    }
  }

  predicate IsDigit(c: char) {
    '0' <= c <= '9'
  }

  predicate AllDigits(s: string) {
    forall i :: 0 <= i < |s| ==> IsDigit(s[i])
  }

  function Digit(d: nat): (c: char)
    requires d < 10
    ensures IsDigit(c) && c as int - '0' as int == d
  {
    ('0' as int + d) as char
  }

  /** A decimal numeral as `toString` writes it: at least one digit, and no
      leading zero unless the numeral is "0" itself. */
  predicate Canonical(s: string) {
    |s| > 0 && AllDigits(s) && (|s| == 1 || s[0] != '0')
  }

  /** `n.toString()` for a non-negative integer. */
  function DecimalString(n: nat): (s: string)
    ensures Canonical(s)
  {
    if n < 10 then [Digit(n)] else DecimalString(n / 10) + [Digit(n % 10)]
  }

  /** The value of a string of decimal digits, most significant first. */
  function DigitsValue(s: string): nat
    requires AllDigits(s)
  {
    if |s| == 0 then 0 else DigitsValue(s[..|s| - 1]) * 10 + (s[|s| - 1] as int - '0' as int)
  }

  /** `parseInt(s)` on identifiers made of decimal digits only; anything else
      has no value here. */
  function ParseDecimal(s: string): Option<nat> {
    if |s| > 0 && AllDigits(s) then Some(DigitsValue(s)) else None
  }

  /** Digits that do not start with '0' have a positive value. */
  lemma {:induction false} LeadingNonZero(s: string)
    requires |s| > 0 && AllDigits(s) && s[0] != '0'
    ensures DigitsValue(s) > 0
  {
    if |s| > 1 {
      var p := s[..|s| - 1];
      assert p[0] == s[0];
      LeadingNonZero(p);
    }
  }

  /** Parsing a canonical numeral and printing the number gives the numeral
      back, so each number has exactly one canonical numeral. */
  lemma {:induction false} CanonicalRoundTrip(s: string)
    requires Canonical(s)
    ensures DecimalString(DigitsValue(s)) == s
  {
    var p := s[..|s| - 1];
    var d := s[|s| - 1] as int - '0' as int;
    assert DigitsValue(s) == DigitsValue(p) * 10 + d;
    if |s| == 1 {
      assert DigitsValue(p) == 0;
      assert [Digit(d)] == s;
    } else {
      assert p[0] == s[0];
      LeadingNonZero(p);
      CanonicalRoundTrip(p);
      var n := DigitsValue(s);
      assert n / 10 == DigitsValue(p) && n % 10 == d;
      assert DecimalString(n) == p + [Digit(d)];
      assert p + [s[|s| - 1]] == s;
    }
  }

  /** Two canonical numerals with the same value are the same numeral. */
  lemma CanonicalInjective(s: string, t: string)
    requires Canonical(s) && Canonical(t) && ParseDecimal(s) == ParseDecimal(t)
    ensures s == t
  {
    CanonicalRoundTrip(s);
    CanonicalRoundTrip(t);
  }

  /** Printing a number and parsing it back gives the number. */
  lemma {:induction false} DecimalRoundTrip(n: nat)
    ensures ParseDecimal(DecimalString(n)) == Some(n)
  {
    if n >= 10 {
      DecimalRoundTrip(n / 10);
      var s := DecimalString(n);
      assert s[..|s| - 1] == DecimalString(n / 10);
      assert s[|s| - 1] == Digit(n % 10);
      assert DigitsValue(s) == (n / 10) * 10 + n % 10;
    }
  }
}
