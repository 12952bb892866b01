/**
 * Decimal text for integers: the rendering used when a position is shown,
 * and the parser used when a player types a number. The accepted syntax is
 * an optional sign followed by one or more ASCII digits.
 */
module IntText {
  import opened Wrappers

  predicate IsDigit(c: char) {
    '0' <= c <= '9'
  }

  predicate AllDigits(s: string) {
    forall i :: 0 <= i < |s| ==> IsDigit(s[i])
  }

  /** The text of an integer: an optional '+' or '-', then at least one digit. */
  predicate IntSyntax(s: string) {
    (|s| >= 1 && AllDigits(s))
    || (|s| >= 2 && (s[0] == '+' || s[0] == '-') && AllDigits(s[1..]))
  }

  function DigitChar(d: nat): (c: char)
    requires d <= 9
    ensures IsDigit(c)
  {
    (('0' as int) + d) as char
  }

  function DigitValue(c: char): (d: nat)
    requires IsDigit(c)
    ensures d <= 9
  {
    (c as int) - ('0' as int)
  }

  /** Most significant digit first, no leading zeros. */
  function NatText(n: nat): (s: string)
    ensures |s| >= 1
    ensures AllDigits(s)
  {
    if n < 10 then [DigitChar(n)] else NatText(n / 10) + [DigitChar(n % 10)]
  }

  /** The decimal text of n, with a '-' in front when n is negative. */
  function IntToText(n: int): string {
    if n < 0 then "-" + NatText(-n) else NatText(n)
  }

  /** The number a string of digits denotes (leading zeros allowed). */
  function DigitsValue(s: string): nat
    requires AllDigits(s)
  {
    if |s| == 0 then 0 else DigitsValue(s[..|s| - 1]) * 10 + DigitValue(s[|s| - 1])
  }

  /** The integer the text denotes, or None when it is not an integer's text. */
  function ParseInt(s: string): Option<int> {
    if |s| >= 1 && AllDigits(s) then Some(DigitsValue(s) as int)
    else if |s| >= 2 && s[0] == '-' && AllDigits(s[1..]) then Some(0 - DigitsValue(s[1..]))
    else if |s| >= 2 && s[0] == '+' && AllDigits(s[1..]) then Some(DigitsValue(s[1..]) as int)
    else None
  }

  /** A number comes back exactly for an optional sign followed by digits. */
  lemma ParseIntAccepts(s: string)
    ensures ParseInt(s).Some? <==> IntSyntax(s)
  {
  }

  lemma {:induction false} NatTextValue(n: nat)
    ensures DigitsValue(NatText(n)) == n
  {
    if n >= 10 {
      var s := NatText(n);
      NatTextValue(n / 10);
      assert s[..|s| - 1] == NatText(n / 10);
      assert DigitValue(s[|s| - 1]) == n % 10;
    }
  }

  /** Parsing the rendered text of any integer gives the integer back. */
  lemma ParseIntToText(n: int)
    ensures IntSyntax(IntToText(n))
    ensures ParseInt(IntToText(n)) == Some(n)
  {
    if n < 0 {
      var t := NatText(-n);
      var s := "-" + t;
      assert s == IntToText(n);
      assert s[1..] == t;
      assert !IsDigit(s[0]);
      NatTextValue(-n);
      assert ParseInt(s) == Some(0 - DigitsValue(t));
    } else {
      NatTextValue(n);
    }
  }

  /** A leading zero does not change the value of a string of digits. */
  lemma {:induction false} LeadingZero(t: string)
    requires AllDigits(t)
    ensures AllDigits("0" + t)
    ensures DigitsValue("0" + t) == DigitsValue(t)
    decreases |t|
  {
    var z := "0" + t;
    assert AllDigits(z) by {
      forall i | 0 <= i < |z| ensures IsDigit(z[i]) {
        if i > 0 { assert z[i] == t[i - 1]; }
      }
    }
    if |t| != 0 {
      var p := t[..|t| - 1];
      assert z[..|z| - 1] == "0" + p;
      assert z[|z| - 1] == t[|t| - 1];
      LeadingZero(p);
    }
  }

  /** A string of digits that does not start with 0 denotes a positive number. */
  lemma {:induction false} NonZeroLead(t: string)
    requires |t| >= 1 && AllDigits(t) && t[0] != '0'
    ensures DigitsValue(t) >= 1
    decreases |t|
  {
    if |t| >= 2 {
      NonZeroLead(t[..|t| - 1]);
    }
  }

  /**
   * A string of digits without leading zeros is the rendered text of its
   * value, and parses to that value.
   */
  lemma {:induction false} CanonicalDigits(t: string)
    requires |t| >= 1 && AllDigits(t) && (t[0] != '0' || |t| == 1)
    ensures NatText(DigitsValue(t)) == t
    ensures ParseInt(t) == Some(DigitsValue(t) as int)
    decreases |t|
  {
    if |t| == 1 {
      assert t == [DigitChar(DigitValue(t[0]))];
    } else {
      var p := t[..|t| - 1];
      var d := DigitValue(t[|t| - 1]);
      NonZeroLead(p);
      CanonicalDigits(p);
      var v := DigitsValue(t);
      assert v == DigitsValue(p) * 10 + d;
      assert v / 10 == DigitsValue(p) && v % 10 == d;
      assert DigitChar(d) == t[|t| - 1];
      assert t == p + [t[|t| - 1]];
    }
  }

  lemma DigitsParse(t: string)
    requires |t| >= 1 && AllDigits(t)
    ensures ParseInt(t) == Some(DigitsValue(t) as int)
  {
  }

  lemma PlusParse(t: string)
    requires |t| >= 1 && AllDigits(t)
    ensures ParseInt("+" + t) == ParseInt(t)
  {
    var s := "+" + t;
    assert !IsDigit(s[0]);
    assert s[1..] == t;
    DigitsParse(t);
  }

  lemma MinusParse(t: string)
    requires |t| >= 1 && AllDigits(t)
    ensures ParseInt("-" + t) == Some(0 - DigitsValue(t))
  {
    var s := "-" + t;
    assert !IsDigit(s[0]);
    assert s[1..] == t;
  }

  lemma ZeroParse(t: string)
    requires |t| >= 1 && AllDigits(t)
    ensures ParseInt("0" + t) == ParseInt(t)
  {
    DigitsParse(t);
    LeadingZero(t);
    DigitsParse("0" + t);
  }

  /**
   * How the sign and leading zeros are read: '+' changes nothing, '-' negates,
   * and a leading zero changes nothing. With CanonicalDigits this fixes the
   * value of every text ParseInt accepts.
   */
  lemma SignsAndZeros(t: string)
    requires |t| >= 1 && AllDigits(t)
    ensures ParseInt(t) == Some(DigitsValue(t) as int)
    ensures ParseInt("+" + t) == ParseInt(t)
    ensures ParseInt("-" + t) == Some(0 - DigitsValue(t))
    ensures ParseInt("0" + t) == ParseInt(t)
  {
    DigitsParse(t);
    PlusParse(t);
    MinusParse(t);
    ZeroParse(t);
  }

  /** Different integers are rendered as different texts. */
  lemma IntToTextInjective(a: int, b: int)
    requires IntToText(a) == IntToText(b)
    ensures a == b
  {
    ParseIntToText(a);
    ParseIntToText(b);
  }
}
