/**
 * String helpers: decimal digits as JavaScript's `parseInt` and template
 * literals treat them, ASCII lower-casing and substring search.
 */
module Text {
  import opened Common

  predicate IsDigit(c: char)
  {
    '0' <= c <= '9'
  }

  predicate AllDigits(s: string)
  {
    forall i :: 0 <= i < |s| ==> IsDigit(s[i])
  }

  function DigitValue(c: char): (d: nat)
    requires IsDigit(c)
    ensures d < 10
  {
    c as int - '0' as int
  }

  function DigitChar(d: nat): (c: char)
    requires d < 10
    ensures IsDigit(c) && DigitValue(c) == d
  {
    ('0' as int + d) as char
  }

  /** `parseInt(s)` for a non-empty run of decimal digits (leading zeros allowed). */
  function DecimalValue(s: string): nat
    requires AllDigits(s)
    decreases |s|
  {
    if s == [] then 0 else DecimalValue(s[..|s| - 1]) * 10 + DigitValue(s[|s| - 1])
  }

  /**
   * `${n}` for a non-negative integer: its decimal notation without leading
   * zeros, which `parseInt` reads back as `n`.
   */
  function NatToString(n: nat): (s: string)
    ensures |s| >= 1 && AllDigits(s)
    ensures DecimalValue(s) == n
    ensures |s| > 1 ==> s[0] != '0'
    decreases n
  {
    if n < 10 then [DigitChar(n)]
    else
      var p := NatToString(n / 10);
      var s := p + [DigitChar(n % 10)];
      assert s[..|s| - 1] == p;
      s
  }

  /** Distinct numbers are printed as distinct strings. */
  lemma NatToStringInjective(a: nat, b: nat)
    requires NatToString(a) == NatToString(b)
    ensures a == b
  {
  }

  /** The longest prefix of `s` made of decimal digits (what a greedy `\d+` consumes). */
  function DigitPrefix(s: string): (d: string)
    ensures |d| <= |s| && d == s[..|d|] && AllDigits(d)
    ensures |d| < |s| ==> !IsDigit(s[|d|])
    decreases |s|
  {
    if s == [] || !IsDigit(s[0]) then [] else [s[0]] + DigitPrefix(s[1..])
  }

  /** A run of digits followed by a non-digit is exactly what `DigitPrefix` finds. */
  lemma {:induction false} DigitPrefixIs(s: string, d: string)
    requires AllDigits(d) && |d| < |s| && s[..|d|] == d && !IsDigit(s[|d|])
    ensures DigitPrefix(s) == d
    decreases |s|
  {
    if d != [] {
      DigitPrefixIs(s[1..], d[1..]);
    }
  }

  /** `toLowerCase` on ASCII letters. */
  function LowerChar(c: char): (r: char)
    ensures 'A' <= c <= 'Z' ==> 'a' <= r <= 'z' && r as int == c as int + 32
    ensures !('A' <= c <= 'Z') ==> r == c
  {
    if 'A' <= c <= 'Z' then (c as int + 32) as char else c
  }

  function ToLower(s: string): (r: string)
    ensures |r| == |s| && forall i :: 0 <= i < |s| ==> r[i] == LowerChar(s[i])
  {
    seq(|s|, i requires 0 <= i < |s| => LowerChar(s[i]))
  }

  /** `s.includes(p)`: some window of `s` equals `p` (the empty string is always included). */
  function Contains(s: string, p: string): bool
    decreases |s|
  {
    if |p| <= |s| && s[..|p|] == p then true
    else if s == [] then false
    else Contains(s[1..], p)
  }

  ghost predicate OccursAt(s: string, p: string, i: int)
  {
    0 <= i && i + |p| <= |s| && s[i..i + |p|] == p
  }

  /** The recursive search agrees with the definition "p occurs at some position of s", in both directions. */
  lemma {:induction false} ContainsIffOccurs(s: string, p: string)
    ensures Contains(s, p) <==> exists i :: OccursAt(s, p, i)
    decreases |s|
  {
    if |p| <= |s| && s[..|p|] == p {
      assert OccursAt(s, p, 0);
    } else if s == [] {
    } else {
      ContainsIffOccurs(s[1..], p);
      if exists i :: OccursAt(s[1..], p, i) {
        var i :| OccursAt(s[1..], p, i);
        assert s[1..][i..i + |p|] == s[i + 1..i + 1 + |p|];
        assert OccursAt(s, p, i + 1);
      }
      if exists i :: OccursAt(s, p, i) {
        var i :| OccursAt(s, p, i);
        assert i != 0;
        assert s[1..][i - 1..i - 1 + |p|] == s[i..i + |p|];
        assert OccursAt(s[1..], p, i - 1);
      }
    }
  }

  /**
   * `parseInt(s)` for text that starts with a digit: the value of the leading
   * run of digits; `NaN` (here `None`) when there is none.
   */
  function ParseLeadingInt(s: string): (r: Option<nat>)
    ensures r.Some? <==> |s| > 0 && IsDigit(s[0])
  {
    var d := DigitPrefix(s);
    if |d| > 0 then Some(DecimalValue(d)) else None
  }

  /** On a run of digits `parseInt` reads the whole run. */
  lemma ParseLeadingIntOfDigits(s: string)
    requires AllDigits(s) && |s| > 0
    ensures ParseLeadingInt(s) == Some(DecimalValue(s))
  {
    DigitPrefixWhole(s);
  }

  lemma {:induction false} DigitPrefixWhole(s: string)
    requires AllDigits(s)
    ensures DigitPrefix(s) == s
    decreases |s|
  {
    if s != [] {
      DigitPrefixWhole(s[1..]);
      assert s == [s[0]] + s[1..];
    }
  }

  /** The text up to the next `_`. */
  function UpToUnderscore(s: string): (r: string)
    ensures r <= s
    decreases |s|
  {
    if s == [] || s[0] == '_' then [] else [s[0]] + UpToUnderscore(s[1..])
  }

  /** `s.split('_')[1]`: the field after the first `_`, undefined when there is none. */
  function SplitSecond(s: string): Option<string>
    decreases |s|
  {
    if s == [] then None
    else if s[0] == '_' then Some(UpToUnderscore(s[1..]))
    else SplitSecond(s[1..])
  }

  lemma {:induction false} UpToUnderscoreDigits(s: string)
    requires AllDigits(s)
    ensures UpToUnderscore(s) == s
    decreases |s|
  {
    if s != [] {
      UpToUnderscoreDigits(s[1..]);
      assert s == [s[0]] + s[1..];
    }
  }
}
