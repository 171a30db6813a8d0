/** String helpers shared by the whole model: white space, trimming, case
    folding, prefix/suffix/substring tests, digit filtering and decimal
    rendering. Strings are sequences of characters; a JavaScript string index
    counts UTF-16 code units, which agrees with this model for the
    Basic Multilingual Plane. */
module Text {

  /** The characters `String.prototype.trim` and Python's `str.strip` remove,
      restricted to ASCII white space and the no-break space. */
  predicate IsSpace(c: char) {
    c == ' ' || c == '\t' || c == '\n' || c == '\r' || c == '\U{B}' || c == '\U{C}' || c == '\U{A0}'
  }

  /** `\d` in a JavaScript regular expression without the `u` flag. */
  predicate IsDigit(c: char) {
    '0' <= c <= '9'
  }

  /** The characters that `.` in a JavaScript regular expression does not match. */
  predicate IsLineTerminator(c: char) {
    c == '\n' || c == '\r' || c == '\U{2028}' || c == '\U{2029}'
  }

  /** Lower-casing of ASCII and Latin-1 capitals (where `toLowerCase` and
      Python's `lower` agree and never change the length). */
  function LowerChar(c: char): (r: char)
    ensures IsSpace(r) <==> IsSpace(c)
    ensures IsDigit(r) <==> IsDigit(c)
    ensures !('A' <= r <= 'Z')
  {
    if 'A' <= c <= 'Z' || ('\U{C0}' <= c <= '\U{DE}' && c != '\U{D7}') then (c as int + 32) as char else c
  }

  function ToLower(s: string): (r: string)
    ensures |r| == |s|
    ensures forall i :: 0 <= i < |s| ==> r[i] == LowerChar(s[i])
  {
    seq(|s|, i requires 0 <= i < |s| => LowerChar(s[i]))
  }

  lemma ToLowerAppend(a: string, b: string)
    ensures ToLower(a + b) == ToLower(a) + ToLower(b)
  {
  }

  lemma ToLowerSlice(s: string, i: nat, j: nat)
    requires i <= j <= |s|
    ensures ToLower(s[i..j]) == ToLower(s)[i..j]
  {
  }

  // ----- trimming -----

  /** No white space at either end. */
  predicate Trimmed(s: string) {
    s == [] || (!IsSpace(s[0]) && !IsSpace(s[|s| - 1]))
  }

  function TrimStart(s: string): (r: string)
    ensures |r| <= |s| && r == s[|s| - |r|..]
    ensures r == [] || !IsSpace(r[0])
    ensures forall k :: 0 <= k < |s| - |r| ==> IsSpace(s[k])
  {
    if |s| > 0 && IsSpace(s[0]) then TrimStart(s[1..]) else s
  }

  function TrimEnd(s: string): (r: string)
    ensures |r| <= |s| && r == s[..|r|]
    ensures r == [] || !IsSpace(r[|r| - 1])
    ensures forall k :: |r| <= k < |s| ==> IsSpace(s[k])
  {
    if |s| > 0 && IsSpace(s[|s| - 1]) then TrimEnd(s[..|s| - 1]) else s
  }

  /** Number of white-space characters `Trim` drops at the front. */
  function LeadingSpaces(s: string): (n: nat)
    ensures n <= |s|
  {
    |s| - |TrimStart(s)|
  }

  /** `s.trim()` / `s.strip()`: the longest middle part of `s` with white
      space only outside it. */
  function Trim(s: string): (r: string)
    ensures Trimmed(r) && |r| <= |s|
    ensures Trimmed(s) ==> r == s
  {
    var t := TrimStart(s);
    var r := TrimEnd(t);
    r
  }

  /** What `Trim` keeps and drops: a middle slice, with only white space
      outside it, empty exactly when the whole text is white space. */
  lemma TrimShape(s: string)
    ensures LeadingSpaces(s) + |Trim(s)| <= |s|
    ensures Trim(s) == s[LeadingSpaces(s)..LeadingSpaces(s) + |Trim(s)|]
    ensures forall k :: 0 <= k < LeadingSpaces(s) ==> IsSpace(s[k])
    ensures forall k :: LeadingSpaces(s) + |Trim(s)| <= k < |s| ==> IsSpace(s[k])
    ensures Trim(s) == [] <==> forall k :: 0 <= k < |s| ==> IsSpace(s[k])
  {
  }

  lemma TrimIdempotent(s: string)
    ensures Trim(Trim(s)) == Trim(s)
  {
  }

  /** Joining two non-empty trimmed strings with one space gives a trimmed string. */
  lemma TrimmedJoin(a: string, b: string)
    requires Trimmed(a) && Trimmed(b) && a != [] && b != []
    ensures Trimmed(a + " " + b)
    ensures Trim(a + " " + b) == a + " " + b
  {
  }

  // ----- prefixes, suffixes, substrings -----

  predicate StartsWith(s: string, prefix: string) {
    |prefix| <= |s| && s[..|prefix|] == prefix
  }

  predicate EndsWith(s: string, suffix: string) {
    |suffix| <= |s| && s[|s| - |suffix|..] == suffix
  }

  /** `sub` occurs in `s` starting at index `i`. */
  predicate OccursAt(s: string, sub: string, i: nat)
  {
    i + |sub| <= |s| && s[i..i + |sub|] == sub
  }

  /** `s.includes(sub)` / `sub in s`. */
  predicate Contains(s: string, sub: string)
  {
    exists i :: 0 <= i <= |s| && OccursAt(s, sub, i)
  }

  lemma ContainsAt(s: string, sub: string, i: nat)
    requires i <= |s| && StartsWith(s[i..], sub)
    ensures Contains(s, sub)
  {
    assert s[i..][..|sub|] == s[i..i + |sub|];
    assert OccursAt(s, sub, i);
  }

  lemma ContainsWitness(s: string, sub: string) returns (i: nat)
    requires Contains(s, sub)
    ensures i + |sub| <= |s| && s[i..i + |sub|] == sub
  {
    i :| 0 <= i <= |s| && OccursAt(s, sub, i);
  }

  /** A match of `sub` starts with its first two characters. */
  lemma PairAt(s: string, sub: string) returns (k: nat)
    requires |sub| >= 2 && Contains(s, sub)
    ensures k < |s| - 1 && s[k] == sub[0] && s[k + 1] == sub[1]
  {
    var i := ContainsWitness(s, sub);
    assert s[i..i + |sub|][0] == sub[0] && s[i..i + |sub|][1] == sub[1];
    k := i;
  }

  /** A text in which the first two characters of `sub` never follow each
      other does not contain `sub`. */
  lemma NotContainsPair(s: string, sub: string)
    requires |sub| >= 2
    requires forall k :: 0 <= k < |s| - 1 ==> !(s[k] == sub[0] && s[k + 1] == sub[1])
    ensures !Contains(s, sub)
  {
    if Contains(s, sub) {
      var k := PairAt(s, sub);
    }
  }

  /** A text containing `sub` contains every suffix of it. */
  lemma ContainsSuffixOf(s: string, sub: string, d: nat)
    requires d <= |sub| && Contains(s, sub)
    ensures Contains(s, sub[d..])
  {
    var i := ContainsWitness(s, sub);
    assert s[i + d..][..|sub| - d] == sub[d..];
    ContainsAt(s, sub[d..], i + d);
  }

  /** A text in which two neighbouring characters of `sub` never follow each
      other does not contain `sub`. */
  lemma NotContainsPairAt(s: string, sub: string, d: nat)
    requires d + 2 <= |sub|
    requires forall k :: 0 <= k < |s| - 1 ==> !(s[k] == sub[d] && s[k + 1] == sub[d + 1])
    ensures !Contains(s, sub)
  {
    if Contains(s, sub) {
      ContainsSuffixOf(s, sub, d);
      var k := PairAt(s, sub[d..]);
    }
  }

  /** Every string contains the empty string. */
  lemma ContainsEmpty(s: string)
    ensures Contains(s, "")
  {
    assert OccursAt(s, "", 0);
  }

  /** The last `n` characters (`s.slice(-n)`, `s[-n:]`), or all of `s` when shorter. */
  function Last(s: string, n: nat): (r: string)
    ensures |r| == if |s| < n then |s| else n
    ensures EndsWith(s, r)
  {
    if |s| <= n then s else s[|s| - n..]
  }

  lemma EndsWithSelf(s: string)
    ensures EndsWith(s, s)
  {
  }

  /** A suffix of a suffix is a suffix. */
  lemma EndsWithTrans(s: string, t: string, u: string)
    requires EndsWith(s, t) && EndsWith(t, u)
    ensures EndsWith(s, u)
  {
    assert s[|s| - |u|..] == t[|t| - |u|..];
  }

  // ----- digits -----

  /** `s.replace(/\D/g, '')`: the decimal digits of `s`, in order. */
  function DigitsOnly(s: string): (r: string)
    ensures |r| <= |s|
    ensures forall k :: 0 <= k < |r| ==> IsDigit(r[k])
  {
    if s == [] then []
    else (if IsDigit(s[0]) then [s[0]] else []) + DigitsOnly(s[1..])
  }

  lemma {:induction false} DigitsOnlyAppend(a: string, b: string)
    ensures DigitsOnly(a + b) == DigitsOnly(a) + DigitsOnly(b)
    decreases |a|
  {
    if a != [] {
      var head := if IsDigit(a[0]) then [a[0]] else [];
      assert (a + b)[0] == a[0] && (a + b)[1..] == a[1..] + b;
      DigitsOnlyAppend(a[1..], b);
      calc {
        DigitsOnly(a + b);
        head + DigitsOnly(a[1..] + b);
        head + (DigitsOnly(a[1..]) + DigitsOnly(b));
        (head + DigitsOnly(a[1..])) + DigitsOnly(b);
        DigitsOnly(a) + DigitsOnly(b);
      }
    } else {
      assert a + b == b;
    }
  }

  /** A string made of digits keeps all of them. */
  lemma {:induction false} DigitsOnlyOfDigits(s: string)
    requires forall k :: 0 <= k < |s| ==> IsDigit(s[k])
    ensures DigitsOnly(s) == s
    decreases |s|
  {
    if s != [] {
      DigitsOnlyOfDigits(s[1..]);
    }
  }

  /** The filter keeps something exactly when the input holds a digit. */
  lemma {:induction false} DigitsOnlyEmpty(s: string)
    ensures DigitsOnly(s) == [] <==> forall k :: 0 <= k < |s| ==> !IsDigit(s[k])
    decreases |s|
  {
    if s != [] {
      DigitsOnlyEmpty(s[1..]);
      assert forall k :: 1 <= k < |s| ==> s[k] == s[1..][k - 1];
    }
  }

  // ----- decimal numbers -----

  function DigitChar(d: nat): (c: char)
    requires d < 10
    ensures IsDigit(c)
  {
    ('0' as int + d) as char
  }

  function DigitValue(c: char): (d: nat)
    requires IsDigit(c)
    ensures d < 10 && DigitChar(d) == c
  {
    c as int - '0' as int
  }

  /** `String(n)` for a non-negative integer: decimal, no leading zeros. */
  function NatToString(n: nat): (s: string)
    ensures |s| >= 1
    ensures forall k :: 0 <= k < |s| ==> IsDigit(s[k])
    ensures |s| > 1 ==> s[0] != '0'
    decreases n
  {
    if n < 10 then [DigitChar(n)] else NatToString(n / 10) + [DigitChar(n % 10)]
  }

  /** The value of a string of decimal digits (leading zeros allowed). */
  function ParseNat(s: string): nat
    requires forall k :: 0 <= k < |s| ==> IsDigit(s[k])
    decreases |s|
  {
    if s == [] then 0 else 10 * ParseNat(s[..|s| - 1]) + DigitValue(s[|s| - 1])
  }

  /** Reading back a rendered number gives the number. */
  lemma {:induction false} ParseNatToString(n: nat)
    ensures ParseNat(NatToString(n)) == n
    decreases n
  {
    var s := NatToString(n);
    if n >= 10 {
      ParseNatToString(n / 10);
      assert s[..|s| - 1] == NatToString(n / 10);
    }
  }

  /** Strings joined with a separator (`lines.join(sep)`). */
  function Join(parts: seq<string>, sep: string): (r: string)
    ensures parts == [] ==> r == []
    ensures |parts| == 1 ==> r == parts[0]
    ensures parts != [] ==> StartsWith(r, parts[0])
  {
    if parts == [] then []
    else if |parts| == 1 then parts[0]
    else parts[0] + sep + Join(parts[1..], sep)
  }
}
