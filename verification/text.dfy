/**
 Strings as the customer console treats them: ASCII lower-casing
 (`toLowerCase`), substring search (`includes`), the order `<` puts on
 strings (by code point, standing in for JavaScript's UTF-16 code-unit order), and the decimal text of an integer (`toString`).
 */
module Text {

  predicate IsUpper(c: char) {
    'A' <= c <= 'Z'
  }

  predicate IsDigit(c: char) {
    '0' <= c <= '9'
  }

  /** Lower-cases one ASCII letter; every other character is kept. */
  function LowerChar(c: char): (r: char)
    ensures !IsUpper(r)
    ensures IsUpper(c) ==> r as int == c as int + 32
    ensures !IsUpper(c) ==> r == c
  {
    if IsUpper(c) then (c as int + 32) as char else c
  }

  /** `s.toLowerCase()`, restricted to the ASCII letters. */
  function Lower(s: string): (r: string)
    ensures |r| == |s|
    ensures forall i :: 0 <= i < |r| ==> !IsUpper(r[i])
    ensures forall i :: 0 <= i < |s| && IsUpper(s[i]) ==> r[i] as int == s[i] as int + 32
    ensures forall i :: 0 <= i < |s| && !IsUpper(s[i]) ==> r[i] == s[i]
  {
    seq(|s|, i requires 0 <= i < |s| => LowerChar(s[i]))
  }

  lemma LowerIdempotent(s: string)
    ensures Lower(Lower(s)) == Lower(s)
  {
  }

  /** `p` is found in `s` starting at index `i`. */
  predicate OccursAt(s: string, p: string, i: int) {
    0 <= i && i + |p| <= |s| && s[i..i + |p|] == p
  }

  /** `s.includes(p)`: `p` is a prefix of `s` or of one of its suffixes. */
  function Contains(s: string, p: string): (r: bool)
    ensures p <= s ==> r
    ensures r ==> |p| <= |s|
    decreases |s|
  {
    p <= s || (s != [] && Contains(s[1..], p))
  }

  /** Where `includes` holds, the pattern occurs at some index. */
  lemma {:induction false} ContainsHasOccurrence(s: string, p: string) returns (i: nat)
    requires Contains(s, p)
    ensures OccursAt(s, p, i)
    decreases |s|
  {
    if p <= s {
      i := 0;
    } else {
      var j := ContainsHasOccurrence(s[1..], p);
      i := j + 1;
      assert s[1..][j..j + |p|] == s[i..i + |p|];
    }
  }

  /** An occurrence at any index makes `includes` hold. */
  lemma {:induction false} OccurrenceContains(s: string, p: string, i: nat)
    requires OccursAt(s, p, i)
    ensures Contains(s, p)
    decreases i
  {
    if i == 0 {
      assert s[..|p|] == p;
    } else {
      assert s[1..][i - 1..i - 1 + |p|] == s[i..i + |p|];
      OccurrenceContains(s[1..], p, i - 1);
    }
  }

  /** `includes` holds exactly when the pattern occurs at some index. */
  lemma ContainsOccurs(s: string, p: string)
    ensures Contains(s, p) <==> exists i :: OccursAt(s, p, i)
  {
    if Contains(s, p) {
      var i := ContainsHasOccurrence(s, p);
    }
    if exists i :: OccursAt(s, p, i) {
      var i :| OccursAt(s, p, i);
      OccurrenceContains(s, p, i);
    }
  }

  /** The empty string is found in every string, as `includes("")` is always true. */
  lemma ContainsEmpty(s: string)
    ensures Contains(s, "")
  {
  }

  /**
   `a < b` on JavaScript strings: lexicographic order by code point, standing
   in for JavaScript's UTF-16 code-unit order.
   */
  function StrLess(a: string, b: string): (r: bool)
    ensures a < b ==> r
    ensures b <= a ==> !r
  {
    if a == [] then b != []
    else if b == [] then false
    else if a[0] != b[0] then a[0] < b[0]
    else StrLess(a[1..], b[1..])
  }

  /** At the first position `k` where two strings differ, the smaller character decides `<`. */
  lemma {:induction false} StrLessFirstDifference(a: string, b: string, k: nat)
    requires k < |a| && k < |b| && a[..k] == b[..k] && a[k] != b[k]
    ensures StrLess(a, b) <==> a[k] < b[k]
  {
    if k > 0 {
      assert a[0] == a[..k][0] && b[0] == b[..k][0];
      assert a[1..][..k - 1] == b[1..][..k - 1] by {
        assert a[1..][..k - 1] == a[..k][1..] && b[1..][..k - 1] == b[..k][1..];
      }
      StrLessFirstDifference(a[1..], b[1..], k - 1);
    }
  }

  lemma StrLessIrreflexive(a: string)
    ensures !StrLess(a, a)
  {
  }

  lemma {:induction false} StrLessTransitive(a: string, b: string, c: string)
    requires StrLess(a, b) && StrLess(b, c)
    ensures StrLess(a, c)
  {
    if a != [] && b != [] && c != [] && a[0] == b[0] && b[0] == c[0] {
      StrLessTransitive(a[1..], b[1..], c[1..]);
    }
  }

  lemma {:induction false} StrLessTotal(a: string, b: string)
    requires a != b
    ensures StrLess(a, b) || StrLess(b, a)
  {
    if a != [] && b != [] && a[0] == b[0] {
      assert a == [a[0]] + a[1..] && b == [b[0]] + b[1..];
      StrLessTotal(a[1..], b[1..]);
    }
  }

  function DigitChar(d: nat): (c: char)
    requires d < 10
    ensures IsDigit(c) && c as int - '0' as int == d
  {
    ('0' as int + d) as char
  }

  /** Decimal digits of a natural number, most significant first, without leading zeros. */
  function NatString(n: nat): (r: string)
    ensures |r| >= 1
    ensures forall i :: 0 <= i < |r| ==> IsDigit(r[i])
    ensures |r| > 1 ==> r[0] != '0'
  {
    if n < 10 then [DigitChar(n)] else NatString(n / 10) + [DigitChar(n % 10)]
  }

  /** The value of a string of decimal digits. */
  function ParseNat(s: string): nat
    requires forall i :: 0 <= i < |s| ==> IsDigit(s[i])
  {
    if s == [] then 0
    else
      var last := s[|s| - 1];
      assert IsDigit(last);
      10 * ParseNat(s[..|s| - 1]) + (last as int - '0' as int)
  }

  /** Reading the digits back gives the number: no two numbers share their decimal text. */
  lemma {:induction false} NatStringRoundTrip(n: nat)
    ensures ParseNat(NatString(n)) == n
  {
    if n >= 10 {
      var s := NatString(n);
      assert s[..|s| - 1] == NatString(n / 10);
      NatStringRoundTrip(n / 10);
    }
  }

  /** `n.toString()` for an integer `n`: a minus sign for negative numbers, then the digits of its magnitude. */
  function DecimalString(n: int): (r: string)
    ensures |r| >= 1
    ensures (r[0] == '-') <==> n < 0
    ensures r[0] == '-' || IsDigit(r[0])
    ensures forall i :: 1 <= i < |r| ==> IsDigit(r[i])
    ensures n < 0 ==> |r| >= 2 && ParseNat(r[1..]) == -n
    ensures n >= 0 ==> ParseNat(r) == n
    ensures var d := if n < 0 then r[1..] else r; |d| > 1 ==> d[0] != '0'
  {
    if n < 0 then
      var digits := NatString(-n);
      NatStringRoundTrip(-n);
      var r := "-" + digits;
      assert r[1..] == digits;
      r
    else
      NatStringRoundTrip(n);
      NatString(n)
  }

  /** Lower-casing the decimal text of a number leaves it as it was. */
  lemma DecimalStringLower(n: int)
    ensures Lower(DecimalString(n)) == DecimalString(n)
  {
  }
}
