/**
 * Text helpers shared by the report synthesiser and the sequence generator:
 * Python's substring test (`pat in s`, `Series.str.contains(pat)` for a
 * pattern without regular-expression metacharacters) and Python's `str()`
 * of an integer, as used inside f-strings.
 */
module Text {

  /** `pat` occurs in `s` starting at position `i`. */
  ghost predicate OccursAt(s: string, pat: string, i: nat) {
    i + |pat| <= |s| && s[i..i + |pat|] == pat
  }

  /** Python's `pat in s`. */
  predicate Contains(s: string, pat: string)
    decreases |s|
  {
    if |s| < |pat| then false
    else s[..|pat|] == pat || Contains(s[1..], pat)
  }

  /** Contains agrees with the positional definition of a substring, in both directions. */
  lemma {:induction false} ContainsIff(s: string, pat: string)
    ensures Contains(s, pat) <==> exists i: nat :: OccursAt(s, pat, i)
    decreases |s|
  {
    if |s| < |pat| {
      forall i: nat ensures !OccursAt(s, pat, i) { }
    } else if s[..|pat|] == pat {
      assert OccursAt(s, pat, 0);
    } else {
      ContainsIff(s[1..], pat);
      if Contains(s[1..], pat) {
        var i: nat :| OccursAt(s[1..], pat, i);
        assert s[i + 1..i + 1 + |pat|] == s[1..][i..i + |pat|];
        assert OccursAt(s, pat, i + 1);
      } else {
        forall i: nat | OccursAt(s, pat, i) ensures false {
          if i > 0 {
            assert s[1..][i - 1..i - 1 + |pat|] == s[i..i + |pat|];
            assert OccursAt(s[1..], pat, i - 1);
          }
        }
      }
    }
  }

  /** A non-empty pattern cannot occur in a text that lacks its first character. */
  lemma {:induction false} MissingLeadCharNotContained(s: string, pat: string)
    requires |pat| > 0 && pat[0] !in s
    ensures !Contains(s, pat)
    decreases |s|
  {
    if |s| >= |pat| {
      assert s[..|pat|][0] == s[0];
      assert forall c :: c in s[1..] ==> c in s;
      MissingLeadCharNotContained(s[1..], pat);
    }
  }

  predicate IsDigit(c: char) {
    '0' <= c <= '9'
  }

  function DigitChar(d: nat): (c: char)
    requires d < 10
    ensures IsDigit(c) && c as int - '0' as int == d
  {
    "0123456789"[d]
  }

  /** Python's `str(n)` for a non-negative integer: decimal, no leading zeros. */
  function NatToString(n: nat): (s: string)
    ensures |s| > 0
    ensures n >= 10 <==> |s| > 1
    decreases n
  {
    if n < 10 then [DigitChar(n)] else NatToString(n / 10) + [DigitChar(n % 10)]
  }

  /** `str(n)` of a natural number is made of decimal digits only. */
  lemma {:induction false} NatToStringDigits(n: nat)
    ensures forall i :: 0 <= i < |NatToString(n)| ==> IsDigit(NatToString(n)[i])
    decreases n
  {
    if n >= 10 {
      NatToStringDigits(n / 10);
    }
  }

  /** Different numbers print differently, so `str` loses no information. */
  lemma {:induction false} NatToStringInjective(a: nat, b: nat)
    requires NatToString(a) == NatToString(b)
    ensures a == b
    decreases a
  {
    var s := NatToString(a);
    if a >= 10 && b >= 10 {
      assert s[|s| - 1] == DigitChar(a % 10) == DigitChar(b % 10);
      assert s[..|s| - 1] == NatToString(a / 10) == NatToString(b / 10);
      NatToStringInjective(a / 10, b / 10);
    } else if a < 10 && b < 10 {
      assert DigitChar(a) == s[0] == DigitChar(b);
    }
  }

  /** Python's `str(x)` (and `f'{x}'`) for any integer: a minus sign, then the digits. */
  function IntToString(x: int): string {
    if x < 0 then "-" + NatToString(-x) else NatToString(x)
  }

  /** `str(x)` holds only digits and possibly a minus sign, so no letter. */
  lemma IntToStringChars(x: int)
    ensures forall i :: 0 <= i < |IntToString(x)| ==> IntToString(x)[i] == '-' || IsDigit(IntToString(x)[i])
  {
    NatToStringDigits(if x < 0 then -x else x);
  }
}
