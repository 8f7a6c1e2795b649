/** Character-level helpers shared by the pipeline and the dashboard:
    decimal digits, the decimal spelling of a natural number (Python's
    `str(n)`), and ASCII case mapping for Python's `str.capitalize`. */
module Text {

  predicate IsDigit(c: char) {
    '0' <= c <= '9'
  }

  predicate AllDigits(s: string) {
    forall i :: 0 <= i < |s| ==> IsDigit(s[i])
  }

  function DigitValue(c: char): (d: nat)
    requires IsDigit(c)
    ensures d < 10
  {
    (c as int - '0' as int) as nat
  }

  function DigitChar(d: nat): (c: char)
    requires d < 10
    ensures IsDigit(c) && DigitValue(c) == d
  {
    ('0' as int + d) as char
  }

  function Pow10(n: nat): (p: nat)
    ensures p >= 1
  {
    if n == 0 then 1 else 10 * Pow10(n - 1)
  }

  /** The number a string of decimal digits denotes, most significant digit first. */
  function DigitsValue(s: string): nat
    requires AllDigits(s)
  {
    if s == [] then 0 else 10 * DigitsValue(s[..|s| - 1]) + DigitValue(s[|s| - 1])
  }

  /** The canonical decimal spelling of n: digits only, never empty, and
      no leading zero except for "0" itself; reading it back gives n. */
  function NatToString(n: nat): (s: string)
    ensures AllDigits(s) && |s| > 0
    ensures DigitsValue(s) == n
    ensures s[0] == '0' <==> n == 0
    ensures n == 0 ==> s == "0"
  {
    if n < 10 then [DigitChar(n)]
    else
      var s := NatToString(n / 10) + [DigitChar(n % 10)];
      assert s[..|s| - 1] == NatToString(n / 10);
      s
  }

  /** Different numbers are spelled differently. */
  lemma {:induction false} NatToStringInjective(m: nat, n: nat)
    requires NatToString(m) == NatToString(n)
    ensures m == n
  {
    assert DigitsValue(NatToString(m)) == m;
  }

  predicate IsLower(c: char) {
    'a' <= c <= 'z'
  }

  predicate IsUpper(c: char) {
    'A' <= c <= 'Z'
  }

  function ToUpper(c: char): char {
    if IsLower(c) then (c as int - 32) as char else c
  }

  function ToLower(c: char): char {
    if IsUpper(c) then (c as int + 32) as char else c
  }

  /** Two strings that differ only in the case of their letters. */
  predicate SameIgnoringCase(s: string, t: string) {
    |s| == |t| && forall i :: 0 <= i < |s| ==> ToLower(s[i]) == ToLower(t[i])
  }

  /** The shape `str.capitalize` produces: no lower-case letter first and
      no upper-case letter after it. */
  predicate IsCapitalized(s: string) {
    (|s| > 0 ==> !IsLower(s[0])) && forall i :: 0 < i < |s| ==> !IsUpper(s[i])
  }

  /** Python's `str.capitalize` on ASCII text: the first character upper
      case, every other character lower case. */
  function Capitalize(s: string): (r: string)
    ensures IsCapitalized(r)
    ensures SameIgnoringCase(r, s)
  {
    if s == [] then []
    else [ToUpper(s[0])] + seq(|s| - 1, i requires 0 <= i < |s| - 1 => ToLower(s[i + 1]))
  }

  /** The capitalized form is unique: a capitalized string that matches s up
      to case is Capitalize(s). Hence Capitalize is idempotent and leaves an
      already capitalized string alone. */
  lemma {:induction false} CapitalizedFormUnique(s: string, t: string)
    requires IsCapitalized(t) && SameIgnoringCase(t, s)
    ensures t == Capitalize(s)
  {
    var r := Capitalize(s);
    forall i | 0 <= i < |s|
      ensures t[i] == r[i]
    {
      assert ToLower(t[i]) == ToLower(s[i]) == ToLower(r[i]);
    }
  }

  lemma {:induction false} CapitalizeIdempotent(s: string)
    ensures Capitalize(Capitalize(s)) == Capitalize(s)
  {
    CapitalizedFormUnique(Capitalize(s), Capitalize(s));
  }
}
