/** The price column of a sales extract: a currency string such as
    "$1,234.50". Cleaning deletes every `$` and `,` (the substitution of
    the pattern `[\$,]` by the empty string); what remains is read as a
    decimal number. The number is exact: a `real`, not a binary float. */
module Currency {
  import opened Wrappers
  import opened Text

  predicate IsCurrencyMark(c: char) {
    c == '$' || c == ','
  }

  /** Deletes every `$` and `,` (see StripCounts and StripAppend). */
  function StripCurrency(s: string): string {
    if s == [] then []
    else (if IsCurrencyMark(s[0]) then [] else [s[0]]) + StripCurrency(s[1..])
  }

  /** Nothing but the marks is removed: every other character keeps its
      number of occurrences, and every mark is gone. */
  lemma {:induction false} StripCounts(s: string, c: char)
    ensures multiset(StripCurrency(s))[c] == if IsCurrencyMark(c) then 0 else multiset(s)[c]
  {
    if s != [] {
      assert s == [s[0]] + s[1..];
      StripCounts(s[1..], c);
    }
  }

  /** Cleaning works piece by piece, so the kept characters stay in order. */
  lemma {:induction false} StripAppend(a: string, b: string)
    ensures StripCurrency(a + b) == StripCurrency(a) + StripCurrency(b)
  {
    if a != [] {
      var head := if IsCurrencyMark(a[0]) then [] else [a[0]];
      assert (a + b)[0] == a[0];
      assert (a + b)[1..] == a[1..] + b;
      StripAppend(a[1..], b);
      calc {
        StripCurrency(a + b);
        head + StripCurrency(a[1..] + b);
        head + (StripCurrency(a[1..]) + StripCurrency(b));
        (head + StripCurrency(a[1..])) + StripCurrency(b);
        StripCurrency(a) + StripCurrency(b);
      }
    } else {
      assert a + b == b;
    }
  }

  /** A string with no `$` and no `,` is left as it is. */
  lemma {:induction false} StripUnmarked(s: string)
    requires forall i :: 0 <= i < |s| ==> !IsCurrencyMark(s[i])
    ensures StripCurrency(s) == s
  {
    if s != [] {
      StripUnmarked(s[1..]);
    }
  }

  /** No `$` and no `,` survives cleaning. */
  lemma {:induction false} StripRemovesMarks(s: string)
    ensures forall i :: 0 <= i < |StripCurrency(s)| ==> !IsCurrencyMark(StripCurrency(s)[i])
  {
    var r := StripCurrency(s);
    forall i | 0 <= i < |r|
      ensures !IsCurrencyMark(r[i])
    {
      StripCounts(s, r[i]);
      assert r[i] in multiset(r);
    }
  }

  lemma {:induction false} StripIdempotent(s: string)
    ensures StripCurrency(StripCurrency(s)) == StripCurrency(s)
  {
    StripRemovesMarks(s);
    StripUnmarked(StripCurrency(s));
  }

  /** Exactly the two mark characters are deleted. */
  lemma {:induction false} StripLength(s: string)
    ensures |StripCurrency(s)| == |s| - multiset(s)['$'] - multiset(s)[',']
  {
    if s != [] {
      assert s == [s[0]] + s[1..];
      StripLength(s[1..]);
    }
  }

  datatype Sign = NoSign | PlusSign | MinusSign

  /** A decimal literal: an optional sign, whole-part digits, and, when
      there is a point, fraction digits. */
  datatype DecimalLit = DecimalLit(sign: Sign, whole: string, point: bool, frac: string)

  /** The literals the price parser accepts: "3", "3.", ".5", "-3.25",
      "+7". At least one digit; a fraction only after a point. */
  predicate ValidLit(l: DecimalLit) {
    && AllDigits(l.whole)
    && AllDigits(l.frac)
    && (l.point ==> |l.whole| + |l.frac| > 0)
    && (!l.point ==> |l.whole| > 0 && l.frac == [])
  }

  function SignText(s: Sign): string {
    match s
    case NoSign => ""
    case PlusSign => "+"
    case MinusSign => "-"
  }

  /** The text of a literal. */
  function Render(l: DecimalLit): string {
    SignText(l.sign) + l.whole + (if l.point then "." + l.frac else "")
  }

  /** Position of the first '.', or |s| when there is none. */
  function DotIndex(s: string): (k: nat)
    ensures k <= |s|
    ensures k < |s| ==> s[k] == '.'
    ensures forall i :: 0 <= i < k ==> s[i] != '.'
  {
    if s == [] || s[0] == '.' then 0 else 1 + DotIndex(s[1..])
  }

  /** The optional leading sign and the rest of the text. */
  function SplitSign(s: string): (Sign, string) {
    if |s| > 0 && s[0] == '-' then (MinusSign, s[1..])
    else if |s| > 0 && s[0] == '+' then (PlusSign, s[1..])
    else (NoSign, s)
  }

  lemma {:induction false} SplitSignText(sign: Sign, body: string)
    requires |body| > 0 ==> body[0] != '-' && body[0] != '+'
    ensures SplitSign(SignText(sign) + body) == (sign, body)
  {
    var s := SignText(sign) + body;
    if sign == NoSign {
      assert s == body;
    } else {
      assert s[0] == SignText(sign)[0];
      assert s[1..] == body;
    }
  }

  /** Reads the unsigned part of a literal: digits with at most one point. */
  function LexUnsigned(sign: Sign, body: string): Option<DecimalLit> {
    var k := DotIndex(body);
    if k == |body| then
      if |body| > 0 && AllDigits(body) then Some(DecimalLit(sign, body, false, [])) else None
    else if AllDigits(body[..k]) && AllDigits(body[k + 1..]) && |body| > 1 then
      Some(DecimalLit(sign, body[..k], true, body[k + 1..]))
    else None
  }

  /** Splits a cleaned price into a literal, or fails. */
  function Lex(s: string): Option<DecimalLit> {
    var (sign, body) := SplitSign(s);
    LexUnsigned(sign, body)
  }

  /** The sign and the rest put back together give the text again. */
  lemma {:induction false} SplitSignSound(s: string)
    ensures SignText(SplitSign(s).0) + SplitSign(s).1 == s
  {
    if |s| > 0 && (s[0] == '-' || s[0] == '+') {
      assert s == [s[0]] + s[1..];
    }
  }

  /** A literal read from the unsigned part is valid and renders as the
      sign followed by that part. */
  lemma {:induction false} LexUnsignedSound(sign: Sign, body: string)
    ensures LexUnsigned(sign, body).Some? ==>
      ValidLit(LexUnsigned(sign, body).value) && Render(LexUnsigned(sign, body).value) == SignText(sign) + body
  {
    var k := DotIndex(body);
    if k < |body| && LexUnsigned(sign, body).Some? {
      var l := DecimalLit(sign, body[..k], true, body[k + 1..]);
      assert LexUnsigned(sign, body) == Some(l);
      assert body == body[..k] + "." + body[k + 1..];
      assert Render(l) == SignText(sign) + (body[..k] + "." + body[k + 1..]);
    }
  }

  /** Whatever the lexer returns is a valid literal whose text is exactly the input. */
  lemma {:induction false} LexSound(s: string)
    ensures Lex(s).Some? ==> ValidLit(Lex(s).value) && Render(Lex(s).value) == s
  {
    SplitSignSound(s);
    var (sign, body) := SplitSign(s);
    LexUnsignedSound(sign, body);
  }

  /** The lexer recovers every valid literal from its text. */
  lemma {:induction false} LexRender(l: DecimalLit)
    requires ValidLit(l)
    ensures Lex(Render(l)) == Some(l)
  {
    var rest := if l.point then "." + l.frac else "";
    var body := l.whole + rest;
    assert Render(l) == SignText(l.sign) + body;
    if |body| > 0 {
      assert body[0] == '.' || IsDigit(body[0]);
    }
    SplitSignText(l.sign, body);
    var k := DotIndex(body);
    assert forall i :: 0 <= i < |l.whole| ==> body[i] == l.whole[i];
    if l.point {
      assert body[|l.whole|] == '.';
      assert k == |l.whole|;
      assert body[..k] == l.whole;
      assert body[k + 1..] == l.frac;
    } else {
      assert body == l.whole;
    }
  }

  /** The number a literal denotes. */
  function LitValue(l: DecimalLit): real
    requires ValidLit(l)
  {
    var magnitude := DigitsValue(l.whole) as real + DigitsValue(l.frac) as real / Pow10(|l.frac|) as real;
    if l.sign == MinusSign then -magnitude else magnitude
  }

  /** `astype(float)` on one cleaned price: the literal's value, or None
      when the text is not a decimal number. */
  function ParsePrice(s: string): Option<real> {
    match Lex(s)
    case None => None
    case Some(l) => Some(LitValue(l))
  }

  /** The parser accepts exactly the texts of valid literals, with their values. */
  lemma {:induction false} ParsePriceAccepts(s: string)
    ensures ParsePrice(s).Some? <==> exists l :: ValidLit(l) && Render(l) == s
    ensures forall l :: ValidLit(l) && Render(l) == s ==> ParsePrice(s) == Some(LitValue(l))
  {
    forall l | ValidLit(l) && Render(l) == s
      ensures ParsePrice(s) == Some(LitValue(l))
    {
      LexRender(l);
    }
    if ParsePrice(s).Some? {
      LexSound(s);
      var l := Lex(s).value;
      assert ValidLit(l) && Render(l) == s;
    }
  }

  /** Groups a digit string by thousands with commas: "1234567" becomes
      "1,234,567". */
  function GroupThousands(ds: string): string
    decreases |ds|
  {
    if |ds| <= 3 then ds else GroupThousands(ds[..|ds| - 3]) + "," + ds[|ds| - 3..]
  }

  /** The two digits of a cent amount below 100 ("05" for 5). */
  function CentDigits(c: nat): (ds: string)
    requires c < 100
    ensures AllDigits(ds) && |ds| == 2
  {
    [DigitChar(c / 10), DigitChar(c % 10)]
  }

  /** The extracts' currency format for an amount in cents: a dollar sign,
      the dollars grouped by thousands, a point and two cent digits
      (300 is "$3.00", 123456 is "$1,234.56"). */
  function FormatCurrency(cents: nat): string {
    "$" + GroupThousands(NatToString(cents / 100)) + "." + CentDigits(cents % 100)
  }

  lemma {:induction false} StripGroupThousands(ds: string)
    requires AllDigits(ds)
    ensures StripCurrency(GroupThousands(ds)) == ds
    decreases |ds|
  {
    if |ds| > 3 {
      var front, back := ds[..|ds| - 3], ds[|ds| - 3..];
      DigitSlices(ds, |ds| - 3);
      StripGroupThousands(front);
      StripDigits(back);
      var grouped := GroupThousands(front);
      StripAppend(grouped + ",", back);
      StripAppend(grouped, ",");
      StripComma();
      calc {
        StripCurrency(GroupThousands(ds));
        StripCurrency(grouped + "," + back);
        StripCurrency(grouped + ",") + StripCurrency(back);
        StripCurrency(grouped) + StripCurrency(",") + StripCurrency(back);
        front + back;
        ds;
      }
    } else {
      StripDigits(ds);
    }
  }

  lemma {:induction false} StripComma()
    ensures StripCurrency(",") == []
  {
    assert ","[1..] == [];
  }

  /** Both pieces of a digit string are digit strings. */
  lemma {:induction false} DigitSlices(ds: string, k: nat)
    requires AllDigits(ds) && k <= |ds|
    ensures AllDigits(ds[..k]) && AllDigits(ds[k..])
  {
    assert forall i :: 0 <= i < k ==> ds[..k][i] == ds[i];
    assert forall i :: 0 <= i < |ds| - k ==> ds[k..][i] == ds[k + i];
  }

  /** Cleaning leaves a digit string as it is. */
  lemma {:induction false} StripDigits(ds: string)
    requires AllDigits(ds)
    ensures StripCurrency(ds) == ds
  {
    assert forall i :: 0 <= i < |ds| ==> !IsCurrencyMark(ds[i]) by {
      forall i | 0 <= i < |ds| ensures !IsCurrencyMark(ds[i]) {
        assert IsDigit(ds[i]);
      }
    }
    StripUnmarked(ds);
  }

  /** Cleaning a formatted price leaves the plain literal "1234.56". */
  lemma {:induction false} StripFormatted(cents: nat)
    ensures StripCurrency(FormatCurrency(cents))
         == Render(DecimalLit(NoSign, NatToString(cents / 100), true, CentDigits(cents % 100)))
  {
    var dollars := NatToString(cents / 100);
    var centDigits := CentDigits(cents % 100);
    var grouped := GroupThousands(dollars);
    StripAppend("$" + grouped + ".", centDigits);
    StripAppend("$" + grouped, ".");
    StripAppend("$", grouped);
    StripGroupThousands(dollars);
    StripUnmarked(centDigits);
    assert StripCurrency("$") == [] && StripCurrency(".") == ".";
  }

  lemma {:induction false} CentDigitsValue(c: nat)
    requires c < 100
    ensures DigitsValue(CentDigits(c)) == c
  {
    var ds := CentDigits(c);
    assert ds[..1] == [ds[0]] && ds[..1][..0] == [];
    assert DigitsValue(ds[..1]) == DigitValue(ds[0]) == c / 10;
    assert DigitsValue(ds) == 10 * (c / 10) + c % 10;
  }

  lemma {:induction false} DollarsAndCents(cents: nat)
    ensures (cents / 100) as real + (cents % 100) as real / 100.0 == cents as real / 100.0
  {
    var q, c := cents / 100, cents % 100;
    assert cents == 100 * q + c;
    assert cents as real == 100.0 * q as real + c as real;
  }

  /** Cleaning then parsing a formatted price gives the amount back:
      "$1,234.56" is read as 1234.56. */
  lemma {:induction false} CurrencyRoundTrip(cents: nat)
    ensures ParsePrice(StripCurrency(FormatCurrency(cents))) == Some(cents as real / 100.0)
  {
    var l := DecimalLit(NoSign, NatToString(cents / 100), true, CentDigits(cents % 100));
    StripFormatted(cents);
    LexRender(l);
    assert ParsePrice(Render(l)) == Some(LitValue(l));
    FormattedValue(cents);
  }

  /** The literal of a formatted price denotes the amount in dollars. */
  lemma {:induction false} FormattedValue(cents: nat)
    ensures var l := DecimalLit(NoSign, NatToString(cents / 100), true, CentDigits(cents % 100));
      ValidLit(l) && LitValue(l) == cents as real / 100.0
  {
    var c := cents % 100;
    CentDigitsValue(c);
    assert Pow10(2) == 100;
    DollarsAndCents(cents);
  }
}
