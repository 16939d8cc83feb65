/** The JavaScript string operations the core relies on: `String.prototype.trim`,
    `String.prototype.includes` and the conversion of an integer to its decimal text
    in a template literal. */
module Strings {

  /** ECMAScript WhiteSpace and LineTerminator code points, which `trim` removes. */
  predicate IsWhitespace(c: char) {
    || c == ' '
    || ('\t' <= c <= '\r')
    || c == '\U{00A0}' || c == '\U{1680}'
    || ('\U{2000}' <= c <= '\U{200A}')
    || c == '\U{2028}' || c == '\U{2029}' || c == '\U{202F}' || c == '\U{205F}'
    || c == '\U{3000}' || c == '\U{FEFF}'
  }

  /** `s` with its leading whitespace removed. */
  function TrimStart(s: string): (r: string)
    ensures |r| <= |s| && r == s[|s| - |r|..]
    ensures forall i :: 0 <= i < |s| - |r| ==> IsWhitespace(s[i])
    ensures r != [] ==> !IsWhitespace(r[0])
  {
    if s != [] && IsWhitespace(s[0]) then TrimStart(s[1..]) else s
  }

  /** `s` with its trailing whitespace removed. */
  function TrimEnd(s: string): (r: string)
    ensures |r| <= |s| && r == s[..|r|]
    ensures forall i :: |r| <= i < |s| ==> IsWhitespace(s[i])
    ensures r != [] ==> !IsWhitespace(r[|r| - 1])
  {
    if s != [] && IsWhitespace(s[|s| - 1]) then TrimEnd(s[..|s| - 1]) else s
  }

  /** `s.trim()`: a contiguous part of `s` whose ends are not whitespace. */
  function Trim(s: string): (r: string)
    ensures |r| <= |s|
    ensures r != [] ==> !IsWhitespace(r[0]) && !IsWhitespace(r[|r| - 1])
  {
    var a := TrimStart(s);
    TrimEnd(a)
  }

  /** The trimmed text is empty exactly when the text is made of whitespace only. */
  lemma TrimEmptyIffBlank(s: string)
    ensures Trim(s) == [] <==> forall i :: 0 <= i < |s| ==> IsWhitespace(s[i])
  {
    var a := TrimStart(s);
    var b := TrimEnd(a);
    if b == [] {
      // a non-empty `a` would start with a character that `TrimEnd` keeps
      assert a == [];
    } else {
      assert !IsWhitespace(b[0]);
      assert b[0] == a[0] == s[|s| - |a|];
    }
  }

  /** `s` starts with `t` (by position, as `s.slice(0, t.length) === t`). */
  predicate StartsWith(s: string, t: string) {
    |t| <= |s| && s[..|t|] == t
  }

  /** `s.includes(t)`: searches each start position from the left. */
  function Contains(s: string, t: string): (r: bool)
    ensures r ==> |t| <= |s|
    ensures StartsWith(s, t) ==> r
    decreases |s|
  {
    if StartsWith(s, t) then true
    else if |s| <= |t| then false
    else Contains(s[1..], t)
  }

  /** `t` occurs in `s` starting at position `k`. */
  predicate OccursAt(s: string, t: string, k: int) {
    0 <= k && k + |t| <= |s| && s[k..k + |t|] == t
  }

  /** `Contains` holds exactly when `t` occurs in `s` at some position. */
  lemma {:induction false} ContainsIffOccurs(s: string, t: string)
    ensures Contains(s, t) <==> exists k :: OccursAt(s, t, k)
    decreases |s|
  {
    if StartsWith(s, t) {
      assert OccursAt(s, t, 0);
    } else if |s| <= |t| {
      forall k ensures !OccursAt(s, t, k) {
      }
    } else {
      ContainsIffOccurs(s[1..], t);
      if Contains(s, t) {
        var k :| OccursAt(s[1..], t, k);
        assert s[k + 1..k + 1 + |t|] == s[1..][k..k + |t|];
        assert OccursAt(s, t, k + 1);
      } else {
        forall k | 0 < k && k + |t| <= |s| ensures !OccursAt(s, t, k) {
          var shifted, here := s[1..][k - 1..k - 1 + |t|], s[k..k + |t|];
          forall j | 0 <= j < |t| ensures shifted[j] == here[j] {
            assert shifted[j] == s[1..][k - 1 + j];
          }
          assert here == shifted;
          assert !OccursAt(s[1..], t, k - 1);
        }
      }
    }
  }

  /** Text that includes `t` includes everything `t` includes. */
  lemma ContainsTransitive(s: string, t: string, u: string)
    requires Contains(s, t) && Contains(t, u)
    ensures Contains(s, u)
  {
    ContainsIffOccurs(s, t);
    ContainsIffOccurs(t, u);
    var i :| OccursAt(s, t, i);
    var j :| OccursAt(t, u, j);
    var inS, inT := s[i + j..i + j + |u|], t[j..j + |u|];
    forall k | 0 <= k < |u| ensures inS[k] == inT[k] {
      assert inS[k] == s[i..i + |t|][j + k];
    }
    assert inS == inT;
    assert OccursAt(s, u, i + j);
    ContainsIffOccurs(s, u);
  }

  /** Every text includes the empty text. */
  lemma ContainsEmpty(s: string)
    ensures Contains(s, "")
  {
    assert StartsWith(s, "");
  }

  /** The decimal digit character of `d`. */
  function DigitChar(d: nat): (c: char)
    requires d < 10
    ensures '0' <= c <= '9'
  {
    ('0' as int + d) as char
  }

  /** The value of a decimal digit character. */
  function DigitValue(c: char): (d: nat)
    requires '0' <= c <= '9'
    ensures d < 10 && DigitChar(d) == c
  {
    c as int - '0' as int
  }

  predicate AllDigits(s: string) {
    forall i :: 0 <= i < |s| ==> '0' <= s[i] <= '9'
  }

  /** The decimal digits of `n`, most significant first, without leading zeros. */
  function NatDigits(n: nat): (r: string)
    ensures |r| >= 1 && AllDigits(r)
    ensures |r| > 1 ==> r[0] != '0'
  {
    if n < 10 then [DigitChar(n)] else NatDigits(n / 10) + [DigitChar(n % 10)]
  }

  /** The value of a string of decimal digits. */
  function ParseNat(s: string): nat
    requires AllDigits(s)
  {
    if s == [] then 0 else ParseNat(s[..|s| - 1]) * 10 + DigitValue(s[|s| - 1])
  }

  /** The text of an integer in a template literal: a minus sign for negatives, then
      the digits of the magnitude. */
  function DecimalString(n: int): (r: string)
    ensures |r| >= 1
    ensures r[0] == '-' <==> n < 0
    ensures AllDigits(if n < 0 then r[1..] else r)
  {
    if n < 0 then "-" + NatDigits(-n) else NatDigits(n)
  }

  /** Reads back the text `DecimalString` writes. */
  function ParseDecimal(s: string): int {
    if s != [] && s[0] == '-' && AllDigits(s[1..]) then -(ParseNat(s[1..]) as int)
    else if AllDigits(s) then ParseNat(s)
    else 0
  }

  lemma {:induction false} ParseNatDigits(n: nat)
    ensures ParseNat(NatDigits(n)) == n
  {
    if n >= 10 {
      ParseNatDigits(n / 10);
      var r := NatDigits(n);
      assert r[..|r| - 1] == NatDigits(n / 10);
    } else {
      assert NatDigits(n)[..0] == [];
    }
  }

  /** Writing an integer in decimal and reading it back gives the integer. */
  lemma DecimalRoundTrip(n: int)
    ensures ParseDecimal(DecimalString(n)) == n
  {
    if n < 0 {
      ParseNatDigits(-n);
      assert DecimalString(n)[1..] == NatDigits(-n);
    } else {
      ParseNatDigits(n);
    }
  }
}
