/** The Brazilian phone rendering the screens share (`formatPhone`, written
    out identically in `src/pages/Leads.tsx`, `src/components/LeadSearch.tsx`
    and `src/components/LeadSummary.tsx`). */
module Phone {
  import opened Text

  const COUNTRY_PREFIX: string := "+55 "

  /** Eleven digits (area code and number) become "+55 DD NNNNN-NNNN";
      anything else is shown as typed. */
  function FormatPhone(phone: string): (r: string)
  {
    var digits := DigitsOnly(phone);
    if |digits| == 11 then COUNTRY_PREFIX + digits[..2] + " " + digits[2..7] + "-" + digits[7..]
    else phone
  }

  lemma AllDigitsSlice(s: string, i: nat, j: nat)
    requires i <= j <= |s|
    requires forall k :: 0 <= k < |s| ==> IsDigit(s[k])
    ensures DigitsOnly(s[i..j]) == s[i..j]
  {
    DigitsOnlyOfDigits(s[i..j]);
  }

  lemma PrefixDigits()
    ensures DigitsOnly(COUNTRY_PREFIX) == "55"
  {
    assert COUNTRY_PREFIX[1..] == "55 ";
    assert "55 "[1..] == "5 ";
    assert "5 "[1..] == " ";
  }

  lemma SeparatorDigits(sep: string)
    requires |sep| == 1 && !IsDigit(sep[0])
    ensures DigitsOnly(sep) == []
  {
  }

  /** Digits of a text with a separator between two parts. */
  lemma DigitsAcross(x: string, sep: string, y: string)
    requires |sep| == 1 && !IsDigit(sep[0])
    ensures DigitsOnly(x + sep + y) == DigitsOnly(x) + DigitsOnly(y)
  {
    SeparatorDigits(sep);
    DigitsOnlyAppend(x, sep);
    DigitsOnlyAppend(x + sep, y);
  }

  /** The layout of the rendering of eleven digits. */
  lemma LayoutShape(d: string)
    requires |d| == 11
    ensures |COUNTRY_PREFIX + d[..2] + " " + d[2..7] + "-" + d[7..]| == 17
    ensures StartsWith(COUNTRY_PREFIX + d[..2] + " " + d[2..7] + "-" + d[7..], COUNTRY_PREFIX)
    ensures (COUNTRY_PREFIX + d[..2] + " " + d[2..7] + "-" + d[7..])[6] == ' '
    ensures (COUNTRY_PREFIX + d[..2] + " " + d[2..7] + "-" + d[7..])[12] == '-'
  {
  }

  /** The digits of "+55 a b-c" for digit strings a, b and c. */
  lemma PartsDigits(a: string, b: string, c: string)
    requires DigitsOnly(a) == a && DigitsOnly(b) == b && DigitsOnly(c) == c
    ensures DigitsOnly(COUNTRY_PREFIX + a + " " + b + "-" + c) == "55" + a + b + c
  {
    PrefixDigits();
    DigitsOnlyAppend(COUNTRY_PREFIX, a);
    DigitsAcross(COUNTRY_PREFIX + a, " ", b);
    DigitsAcross(COUNTRY_PREFIX + a + " " + b, "-", c);
  }

  /** The digits of the rendering of eleven digits. */
  lemma LayoutDigits(d: string)
    requires |d| == 11 && DigitsOnly(d) == d
    ensures DigitsOnly(COUNTRY_PREFIX + d[..2] + " " + d[2..7] + "-" + d[7..]) == "55" + d
  {
    var a, b, c := d[..2], d[2..7], d[7..];
    assert d == a + b + c;
    DigitsOnlyAppend(a, b);
    DigitsOnlyAppend(a + b, c);
    PartsDigits(a, b, c);
  }

  /** The digits of the rendering are the country code followed by the
      original eleven digits, and the layout is fixed. */
  lemma FormatPhoneDigits(phone: string)
    requires |DigitsOnly(phone)| == 11
    ensures |FormatPhone(phone)| == 17
    ensures StartsWith(FormatPhone(phone), COUNTRY_PREFIX)
    ensures FormatPhone(phone)[6] == ' ' && FormatPhone(phone)[12] == '-'
    ensures DigitsOnly(FormatPhone(phone)) == "55" + DigitsOnly(phone)
  {
    var d := DigitsOnly(phone);
    DigitsOnlyOfDigits(d);
    LayoutShape(d);
    LayoutDigits(d);
  }

  /** Any other number of digits leaves the text as typed. */
  lemma FormatPhoneOther(phone: string)
    requires |DigitsOnly(phone)| != 11
    ensures FormatPhone(phone) == phone
  {
  }

  /** Rendering twice changes nothing more: the rendering holds thirteen
      digits, which the rule leaves alone. */
  lemma FormatPhoneIdempotent(phone: string)
    ensures FormatPhone(FormatPhone(phone)) == FormatPhone(phone)
  {
    if |DigitsOnly(phone)| == 11 {
      FormatPhoneDigits(phone);
    }
  }
}
