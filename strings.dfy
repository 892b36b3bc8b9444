/**
 * The JavaScript string operations the core relies on, over `seq<char>`:
 * `includes`, `indexOf`, `replace` with a string pattern (first occurrence
 * only, with the `$` substitution patterns of a replacement string),
 * ASCII `toLowerCase` / `toUpperCase` and `String(n)` for an integer.
 */
module Strings {
  import opened Wrappers

  /** `pat` occurs in `s` starting at index `i`. */
  predicate OccursAt(s: string, pat: string, i: nat)
  {
    i + |pat| <= |s| && s[i..i + |pat|] == pat
  }

  /** `s.includes(pat)`. */
  predicate Contains(s: string, pat: string)
    ensures Contains(s, pat) ==> |pat| <= |s|
  {
    exists i: nat :: i <= |s| && OccursAt(s, pat, i)
  }

  /** The first index at or after `k` where `pat` occurs in `s`. */
  function IndexFrom(s: string, pat: string, k: nat): (r: Option<nat>)
    ensures r.Some? ==> k <= r.value && OccursAt(s, pat, r.value)
    ensures r.Some? ==> forall j: nat :: k <= j < r.value ==> !OccursAt(s, pat, j)
    ensures r.None? ==> forall j: nat :: k <= j ==> !OccursAt(s, pat, j)
    decreases |s| - k
  {
    if k + |pat| > |s| then None
    else if s[k..k + |pat|] == pat then Some(k)
    else IndexFrom(s, pat, k + 1)
  }

  /** `s.indexOf(pat)`, with `None` standing for -1. */
  function IndexOf(s: string, pat: string): (r: Option<nat>)
    ensures r.Some? <==> Contains(s, pat)
    ensures r.Some? ==> OccursAt(s, pat, r.value)
    ensures r.Some? ==> forall j: nat :: j < r.value ==> !OccursAt(s, pat, j)
  {
    IndexFrom(s, pat, 0)
  }

  /**
   * The replacement text `rep` after its `$` patterns are expanded, for a
   * match of `matched` with `before` in front of it and `after` behind it
   * (GetSubstitution of ECMA-262 with no capture groups): `$$` is a dollar
   * sign, `$&` the match, `` $` `` the text before it, `$'` the text after
   * it; any other `$` stays as it is.
   */
  function Substitute(rep: string, matched: string, before: string, after: string): (r: string)
    ensures rep == "$&" ==> r == matched
    ensures rep == "$$" ==> r == "$"
  {
    if |rep| == 0 then ""
    else if rep[0] == '$' && |rep| >= 2 && rep[1] == '$' then "$" + Substitute(rep[2..], matched, before, after)
    else if rep[0] == '$' && |rep| >= 2 && rep[1] == '&' then matched + Substitute(rep[2..], matched, before, after)
    else if rep[0] == '$' && |rep| >= 2 && rep[1] == '`' then before + Substitute(rep[2..], matched, before, after)
    else if rep[0] == '$' && |rep| >= 2 && rep[1] == '\'' then after + Substitute(rep[2..], matched, before, after)
    else [rep[0]] + Substitute(rep[1..], matched, before, after)
  }

  /**
   * A dollar sign in the expanded text comes from the replacement text or from
   * one of the texts it may quote.
   */
  lemma {:induction false} SubstituteDollarOrigin(rep: string, matched: string, before: string, after: string)
    ensures var r := Substitute(rep, matched, before, after);
      '$' in r ==> '$' in rep || '$' in matched || '$' in before || '$' in after
  {
    if |rep| > 0 {
      var k := if rep[0] == '$' && |rep| >= 2 && rep[1] in "$&`'" then 2 else 1;
      SubstituteDollarOrigin(rep[k..], matched, before, after);
      if '$' in rep[k..] {
        var j :| 0 <= j < |rep[k..]| && rep[k..][j] == '$';
        assert rep[j + k] == '$';
      }
    }
  }

  /** A replacement text without a dollar sign is inserted literally. */
  lemma {:induction false} SubstituteLiteral(rep: string, matched: string, before: string, after: string)
    requires '$' !in rep
    ensures Substitute(rep, matched, before, after) == rep
  {
    if |rep| > 0 {
      assert rep[0] != '$';
      assert '$' !in rep[1..] by {
        forall i | 0 <= i < |rep[1..]| ensures rep[1..][i] != '$' {
          assert rep[1..][i] == rep[i + 1];
        }
      }
      SubstituteLiteral(rep[1..], matched, before, after);
      assert rep == [rep[0]] + rep[1..];
    }
  }

  /** `s.replace(pat, rep)` for a string `pat`: only the first occurrence is replaced. */
  function ReplaceFirst(s: string, pat: string, rep: string): (r: string)
    ensures !Contains(s, pat) ==> r == s
    ensures Contains(s, pat) ==> |r| >= |s| - |pat|
  {
    match IndexOf(s, pat)
    case None => s
    case Some(i) => s[..i] + Substitute(rep, pat, s[..i], s[i + |pat|..]) + s[i + |pat|..]
  }

  /**
   * Whatever `rep` expands to, the text in front of the first occurrence
   * and the text behind it are kept.
   */
  lemma ReplaceFirstKeepsAround(s: string, pat: string, rep: string)
    requires Contains(s, pat)
    ensures var r, i := ReplaceFirst(s, pat, rep), IndexOf(s, pat).value;
      && r[..i] == s[..i]
      && r[|r| - (|s| - i - |pat|)..] == s[i + |pat|..]
  {
    var i := IndexOf(s, pat).value;
    var m := Substitute(rep, pat, s[..i], s[i + |pat|..]);
    assert ReplaceFirst(s, pat, rep) == (s[..i] + m) + s[i + |pat|..];
  }

  /** What `ReplaceFirst` promises: the text around the first occurrence is kept. */
  lemma ReplaceFirstSplits(s: string, pat: string, rep: string)
    requires '$' !in rep
    ensures !Contains(s, pat) ==> ReplaceFirst(s, pat, rep) == s
    ensures Contains(s, pat) ==>
      exists i: nat :: i <= |s| && OccursAt(s, pat, i)
        && (forall j: nat :: j < i ==> !OccursAt(s, pat, j))
        && ReplaceFirst(s, pat, rep) == s[..i] + rep + s[i + |pat|..]
  {
    if Contains(s, pat) {
      ReplaceFirstFound(s, pat, rep, IndexOf(s, pat).value);
    }
  }

  /** A replacement without `$` is spliced in, literally, at the first occurrence. */
  lemma ReplaceFirstFound(s: string, pat: string, rep: string, i: nat)
    requires '$' !in rep && IndexOf(s, pat) == Some(i)
    ensures i <= |s| && OccursAt(s, pat, i) && (forall j: nat :: j < i ==> !OccursAt(s, pat, j))
    ensures ReplaceFirst(s, pat, rep) == s[..i] + rep + s[i + |pat|..]
  {
    ReplaceFirstAt(s, pat, rep, i);
    SubstituteLiteral(rep, pat, s[..i], s[i + |pat|..]);
  }

  /** Where the first occurrence starts, the replacement splices the substituted text in. */
  lemma ReplaceFirstAt(s: string, pat: string, rep: string, i: nat)
    requires IndexOf(s, pat) == Some(i)
    ensures i + |pat| <= |s|
    ensures ReplaceFirst(s, pat, rep) == s[..i] + Substitute(rep, pat, s[..i], s[i + |pat|..]) + s[i + |pat|..]
  {
  }


  function LowerChar(c: char): char
  {
    if 'A' <= c <= 'Z' then (c as int + 32) as char else c
  }

  function UpperChar(c: char): char
  {
    if 'a' <= c <= 'z' then (c as int - 32) as char else c
  }

  /** `s.toLowerCase()` restricted to ASCII letters. */
  function ToLower(s: string): (r: string)
    ensures |r| == |s|
    ensures forall i :: 0 <= i < |s| ==> r[i] == LowerChar(s[i])
  {
    seq(|s|, i requires 0 <= i < |s| => LowerChar(s[i]))
  }

  /** `s.toUpperCase()` restricted to ASCII letters. */
  function ToUpper(s: string): (r: string)
    ensures |r| == |s|
    ensures forall i :: 0 <= i < |s| ==> r[i] == UpperChar(s[i])
  {
    seq(|s|, i requires 0 <= i < |s| => UpperChar(s[i]))
  }

  /** Lower-casing forgets the case a string was written in. */
  lemma LowerForgetsCase(s: string)
    ensures ToLower(ToUpper(s)) == ToLower(s)
    ensures ToLower(ToLower(s)) == ToLower(s)
  {
  }

  /** The empty string occurs in every string. */
  lemma ContainsEmpty(s: string)
    ensures Contains(s, "")
  {
    assert OccursAt(s, "", 0);
  }

  function DigitChar(d: nat): (c: char)
    requires d < 10
    ensures '0' <= c <= '9' && c as int - '0' as int == d
  {
    (d + '0' as int) as char
  }

  predicate AllDigits(s: string)
  {
    forall i :: 0 <= i < |s| ==> '0' <= s[i] <= '9'
  }

  /** The decimal digits of `n`, most significant first, without leading zeros. */
  function NatToDecimal(n: nat): (r: string)
    ensures |r| >= 1 && AllDigits(r)
    ensures |r| > 1 ==> r[0] != '0'
    ensures r[0] == '0' <==> n == 0
  {
    if n < 10 then [DigitChar(n)] else NatToDecimal(n / 10) + [DigitChar(n % 10)]
  }

  /** The value of a string of decimal digits. */
  function DecimalValue(s: string): nat
    requires AllDigits(s)
  {
    if |s| == 0 then 0 else 10 * DecimalValue(s[..|s| - 1]) + (s[|s| - 1] as int - '0' as int)
  }

  /** Reading back the digits gives the number. */
  lemma {:induction false} DecimalRoundTrip(n: nat)
    ensures DecimalValue(NatToDecimal(n)) == n
  {
    var r := NatToDecimal(n);
    if n >= 10 {
      DecimalRoundTrip(n / 10);
      assert r[..|r| - 1] == NatToDecimal(n / 10);
    }
  }

  /**
   * A string of decimal digits without a leading zero is the one that
   * `NatToDecimal` writes for its value: the decimal form is unique.
   */
  lemma {:induction false} CanonicalDecimal(s: string)
    requires |s| >= 1 && AllDigits(s) && (|s| > 1 ==> s[0] != '0')
    ensures NatToDecimal(DecimalValue(s)) == s
    decreases |s|
  {
    var d := s[|s| - 1] as int - '0' as int;
    if |s| == 1 {
      assert DecimalValue(s) == 10 * DecimalValue([]) + d;
      assert [DigitChar(d)] == s;
    } else {
      var p := s[..|s| - 1];
      assert p[0] == s[0];
      CanonicalDecimal(p);
      var v := DecimalValue(p);
      assert v != 0;
      assert DecimalValue(s) / 10 == v && DecimalValue(s) % 10 == d;
      assert NatToDecimal(DecimalValue(s)) == p + [DigitChar(d)];
      assert p + [s[|s| - 1]] == s;
    }
  }

  /**
   * `String(n)` for an integer `n` of magnitude below 10^21: the decimal
   * digits of `|n|` with no leading zero, behind a `-` when `n` is negative.
   */
  function NumberToString(n: int): (r: string)
    ensures '$' !in r
    ensures n >= 0 ==> |r| >= 1 && AllDigits(r) && DecimalValue(r) == n
    ensures n >= 0 ==> (r[0] == '0' <==> n == 0) && (|r| > 1 ==> r[0] != '0')
    ensures n < 0 ==> |r| >= 2 && r[0] == '-' && AllDigits(r[1..]) && DecimalValue(r[1..]) == -n
    ensures n < 0 ==> r[1] != '0'
  {
    DecimalRoundTrip(if n < 0 then -n else n);
    if n < 0 then "-" + NatToDecimal(-n) else NatToDecimal(n)
  }
}
