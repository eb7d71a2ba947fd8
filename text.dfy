/** String primitives the scraper relies on: Python's `str(int)`, `int(str)` on digit runs,
    `lower()`, `strip()`, the `in` substring test and `replace`. Characters are compared
    as ASCII: upper case is 'A'..'Z', whitespace is [ \t\n\v\f\r] and digits are '0'..'9'. */
module Text {
  import opened Common

  predicate IsDigit(c: char) { '0' <= c <= '9' }

  predicate AllDigits(s: string) { forall i :: 0 <= i < |s| ==> IsDigit(s[i]) }

  /** A non-empty run of decimal digits, as matched by the regular expression `\d+`. */
  predicate IsDigitRun(s: string) { |s| > 0 && AllDigits(s) }

  function DigitChar(d: nat): (c: char)
    requires d < 10
    ensures IsDigit(c)
  {
    (48 + d) as char
  }

  function DigitValue(c: char): (d: nat)
    requires IsDigit(c)
    ensures d < 10 && DigitChar(d) == c
  {
    c as int - 48
  }

  /** Python's `str(n)` for a non-negative integer: no leading zero except for 0 itself. */
  function NatToDecimal(n: nat): (s: string)
    ensures IsDigitRun(s)
    ensures (s[0] == '0') == (n == 0)
    ensures n < 10 <==> |s| == 1
    decreases n
  {
    if n < 10 then [DigitChar(n)] else NatToDecimal(n / 10) + [DigitChar(n % 10)]
  }

  /** The value of a digit string, as Python's `int()` reads it. */
  function DecimalValue(s: string): nat
    requires AllDigits(s)
  {
    if s == [] then 0 else DecimalValue(s[..|s| - 1]) * 10 + DigitValue(s[|s| - 1])
  }

  lemma {:induction false} DecimalRoundTrip(n: nat)
    ensures DecimalValue(NatToDecimal(n)) == n
  {
    if n >= 10 {
      var s := NatToDecimal(n);
      assert s[..|s| - 1] == NatToDecimal(n / 10);
      DecimalRoundTrip(n / 10);
    }
  }

  /** Python's `str(i)` for any integer (a minus sign, then the digits of the magnitude). */
  function IntToDecimal(i: int): string
  {
    if i < 0 then "-" + NatToDecimal(-i) else NatToDecimal(i)
  }

  /** Reads back what IntToDecimal writes: an optional minus sign and a digit run. */
  function ParseInt(s: string): Option<int>
  {
    if |s| > 1 && s[0] == '-' && AllDigits(s[1..]) then
      var magnitude: int := DecimalValue(s[1..]);
      Some(-magnitude)
    else if IsDigitRun(s) then Some(DecimalValue(s))
    else None
  }

  lemma IntRoundTrip(i: int)
    ensures ParseInt(IntToDecimal(i)) == Some(i)
  {
    if i < 0 {
      var d := NatToDecimal(-i);
      var s := "-" + d;
      assert s[1..] == d;
      DecimalRoundTrip(-i);
      assert ParseInt(s) == Some(i);
    } else {
      var s := NatToDecimal(i);
      assert s[0] != '-';
      DecimalRoundTrip(i);
    }
  }

  /** End of the maximal digit run starting at j (a greedy `\d+`). */
  function DigitRunEnd(s: string, j: nat): (k: nat)
    requires j <= |s|
    ensures j <= k <= |s|
    ensures forall m :: j <= m < k ==> IsDigit(s[m])
    ensures k == |s| || !IsDigit(s[k])
    decreases |s| - j
  {
    if j < |s| && IsDigit(s[j]) then DigitRunEnd(s, j + 1) else j
  }

  /** The digit run from j ends at k when [j, k) are digits and k is not. */
  lemma {:induction false} DigitRunEndAt(s: string, j: nat, k: nat)
    requires j <= k <= |s|
    requires forall m :: j <= m < k ==> IsDigit(s[m])
    requires k == |s| || !IsDigit(s[k])
    ensures DigitRunEnd(s, j) == k
    decreases k - j
  {
    if j < k {
      DigitRunEndAt(s, j + 1, k);
    }
  }

  function LowerChar(c: char): char
  {
    if 'A' <= c <= 'Z' then (c as int + 32) as char else c
  }

  /** Python's `str.lower()` on the ASCII letters. */
  function Lower(s: string): (r: string)
    ensures |r| == |s|
    ensures forall i :: 0 <= i < |s| ==> r[i] == LowerChar(s[i])
  {
    seq(|s|, i requires 0 <= i < |s| => LowerChar(s[i]))
  }

  /** Python's `str.isspace()` on ASCII: the space, '\t' through '\r', and the separators
      U+001C through U+001F. */
  predicate IsSpace(c: char) { c == ' ' || '\t' <= c <= '\r' || '\U{1C}' <= c <= '\U{1F}' }

  function StripLeft(s: string): (r: string)
    ensures |r| <= |s| && r == s[|s| - |r|..]
    ensures r != [] ==> !IsSpace(r[0])
  {
    if s != [] && IsSpace(s[0]) then StripLeft(s[1..]) else s
  }

  function StripRight(s: string): (r: string)
    ensures |r| <= |s| && r == s[..|r|]
    ensures r != [] ==> !IsSpace(r[|r| - 1])
  {
    if s != [] && IsSpace(s[|s| - 1]) then StripRight(s[..|s| - 1]) else s
  }

  /** End of the maximal whitespace run starting at j (a greedy `\s*`). */
  function SpaceRunEnd(s: string, j: nat): (k: nat)
    requires j <= |s|
    ensures j <= k <= |s|
    ensures forall m :: j <= m < k ==> IsSpace(s[m])
    ensures k == |s| || !IsSpace(s[k])
    decreases |s| - j
  {
    if j < |s| && IsSpace(s[j]) then SpaceRunEnd(s, j + 1) else j
  }

  /** The whitespace run from j ends at k when [j, k) are whitespace and k is not. */
  lemma {:induction false} SpaceRunEndAt(s: string, j: nat, k: nat)
    requires j <= k <= |s|
    requires forall m :: j <= m < k ==> IsSpace(s[m])
    requires k == |s| || !IsSpace(s[k])
    ensures SpaceRunEnd(s, j) == k
    decreases k - j
  {
    if j < k {
      SpaceRunEndAt(s, j + 1, k);
    }
  }

  /** Python's `str.strip()`: leading and trailing whitespace removed. */
  function Strip(s: string): string
  {
    StripRight(StripLeft(s))
  }

  /** `pat` occurs in `s` starting at index `i`. */
  predicate OccursAt(s: string, pat: string, i: nat)
  {
    i + |pat| <= |s| && s[i..i + |pat|] == pat
  }

  /** Python's `pat in s`, computed by scanning; its contract is the positional definition. */
  function Contains(s: string, pat: string): (r: bool)
    ensures r <==> exists i: nat :: i <= |s| && OccursAt(s, pat, i)
    decreases |s|
  {
    if |s| < |pat| then false
    else if s[..|pat|] == pat then (assert OccursAt(s, pat, 0); true)
    else if s == [] then false
    else
      var r := Contains(s[1..], pat);
      assert !OccursAt(s, pat, 0);
      forall i: nat | 1 <= i <= |s|
        ensures OccursAt(s, pat, i) <==> OccursAt(s[1..], pat, i - 1)
      {
        if i + |pat| <= |s| {
          var u, v := s[i..i + |pat|], s[1..][i - 1..i - 1 + |pat|];
          forall k | 0 <= k < |pat| ensures u[k] == v[k] {
            assert u[k] == s[i + k] == v[k];
          }
          assert u == v;
        }
      }
      assert r ==> exists i: nat :: i <= |s| && OccursAt(s, pat, i) by {
        if r {
          var j: nat :| j <= |s[1..]| && OccursAt(s[1..], pat, j);
          assert OccursAt(s, pat, j + 1);
        }
      }
      r
  }

  /** Python's `s.replace(pat, rep)`: every non-overlapping occurrence, scanning left to right. */
  function ReplaceAll(s: string, pat: string, rep: string): string
    requires |pat| > 0
    decreases |s|
  {
    if |s| < |pat| then s
    else if s[..|pat|] == pat then rep + ReplaceAll(s[|pat|..], pat, rep)
    else [s[0]] + ReplaceAll(s[1..], pat, rep)
  }

  /** A replacement whose pattern starts with a character absent from `s` changes nothing. */
  lemma {:induction false} ReplaceAbsent(s: string, pat: string, rep: string)
    requires |pat| > 0 && pat[0] !in s
    ensures ReplaceAll(s, pat, rep) == s
    decreases |s|
  {
    if |s| >= |pat| {
      assert s[0] != pat[0];
      ReplaceAbsent(s[1..], pat, rep);
    }
  }

  /** A prefix that cannot start an occurrence passes through a replacement untouched. */
  lemma {:induction false} ReplaceAfterPrefix(a: string, b: string, pat: string, rep: string)
    requires |pat| > 0 && pat[0] !in a
    ensures ReplaceAll(a + b, pat, rep) == a + ReplaceAll(b, pat, rep)
    decreases |a|
  {
    if a == [] {
      assert a + b == b;
    } else {
      var s := a + b;
      var tail := ReplaceAll(a[1..] + b, pat, rep);
      assert s[1..] == a[1..] + b;
      ReplaceAfterPrefix(a[1..], b, pat, rep);
      if |s| < |pat| {
        ReplaceShort(b, pat, rep);
      } else {
        assert s[..|pat|][0] == a[0] != pat[0];
        assert ReplaceAll(s, pat, rep) == [a[0]] + tail;
      }
      assert [a[0]] + (a[1..] + ReplaceAll(b, pat, rep)) == a + ReplaceAll(b, pat, rep);
    }
  }

  /** `s` never holds the first three characters of `w` in a row, so no occurrence of `w`
      starts inside it. */
  predicate NoTriple(s: string, w: string)
    requires |w| >= 3
  {
    forall i :: 0 <= i < |s| - 2 ==> !(s[i] == w[0] && s[i + 1] == w[1] && s[i + 2] == w[2])
  }

  /** A string without the triple's first character is without the triple. */
  lemma NoTripleAbsent(s: string, w: string)
    requires |w| >= 3 && w[0] !in s
    ensures NoTriple(s, w)
  {
  }

  /** Two strings without the triple, joined after a character that cannot begin or continue
      it, are still without it. */
  lemma NoTripleConcat(a: string, b: string, w: string)
    requires |w| >= 3 && NoTriple(a, w) && NoTriple(b, w)
    requires a != [] && a[|a| - 1] != w[0] && a[|a| - 1] != w[1]
    ensures NoTriple(a + b, w)
  {
    var s := a + b;
    forall i | 0 <= i < |s| - 2 ensures !(s[i] == w[0] && s[i + 1] == w[1] && s[i + 2] == w[2]) {
      if i + 2 < |a| {
        assert s[i] == a[i] && s[i + 1] == a[i + 1] && s[i + 2] == a[i + 2];
      } else if i >= |a| {
        assert s[i] == b[i - |a|] && s[i + 1] == b[i + 1 - |a|] && s[i + 2] == b[i + 2 - |a|];
      } else if i == |a| - 1 {
        assert s[i] == a[|a| - 1];
      } else {
        assert s[i + 1] == a[|a| - 1];
      }
    }
  }

  /** A prefix in which no occurrence can start, followed by text that starts with a digit
      (which the pattern cannot continue with), passes through a replacement untouched; the
      replaced rest still starts with that digit. */
  lemma {:induction false} ReplaceAfterFree(a: string, b: string, pat: string, rep: string)
    requires |pat| >= 3 && !IsDigit(pat[0]) && !IsDigit(pat[1]) && !IsDigit(pat[2])
    requires NoTriple(a, pat)
    requires b == [] || IsDigit(b[0])
    ensures ReplaceAll(a + b, pat, rep) == a + ReplaceAll(b, pat, rep)
    ensures b != [] ==> ReplaceAll(b, pat, rep) != [] && ReplaceAll(b, pat, rep)[0] == b[0]
    decreases |a|
  {
    ReplaceKeepsDigitHead(b, pat, rep);
    if a == [] {
      assert a + b == b;
    } else {
      var s := a + b;
      assert s[1..] == a[1..] + b;
      NoTripleTail(a, pat);
      ReplaceAfterFree(a[1..], b, pat, rep);
      if |s| < |pat| {
        ReplaceShort(b, pat, rep);
      } else {
        NoMatchAtFreeHead(a, b, pat);
        assert [a[0]] + (a[1..] + ReplaceAll(b, pat, rep)) == a + ReplaceAll(b, pat, rep);
      }
    }
  }

  /** Text starting with a digit keeps that digit in front through a replacement whose
      pattern does not start with one. */
  lemma ReplaceKeepsDigitHead(b: string, pat: string, rep: string)
    requires |pat| > 0 && !IsDigit(pat[0])
    requires b == [] || IsDigit(b[0])
    ensures b != [] ==> ReplaceAll(b, pat, rep) != [] && ReplaceAll(b, pat, rep)[0] == b[0]
  {
    if b != [] && |b| >= |pat| {
      assert b[..|pat|][0] != pat[0];
    }
  }

  /** Dropping the first character keeps a string free of the pattern's first three letters. */
  lemma NoTripleTail(a: string, w: string)
    requires |w| >= 3 && a != [] && NoTriple(a, w)
    ensures NoTriple(a[1..], w)
  {
    forall i | 0 <= i < |a[1..]| - 2
      ensures !(a[1..][i] == w[0] && a[1..][i + 1] == w[1] && a[1..][i + 2] == w[2])
    {
      assert a[1..][i] == a[i + 1] && a[1..][i + 1] == a[i + 2] && a[1..][i + 2] == a[i + 3];
    }
  }

  /** No occurrence of the pattern starts at the front of a free prefix followed by a digit. */
  lemma NoMatchAtFreeHead(a: string, b: string, pat: string)
    requires |pat| >= 3 && !IsDigit(pat[0]) && !IsDigit(pat[1]) && !IsDigit(pat[2])
    requires NoTriple(a, pat) && a != []
    requires b == [] || IsDigit(b[0])
    requires |a + b| >= |pat|
    ensures (a + b)[..|pat|] != pat
  {
    var s := a + b;
    var h := s[..|pat|];
    assert h[0] == s[0] && h[1] == s[1] && h[2] == s[2];
    if |a| >= 3 {
      assert !(a[0] == pat[0] && a[1] == pat[1] && a[2] == pat[2]);
    } else if |a| == 2 {
      assert s[2] == b[0];
    } else {
      assert s[1] == b[0];
    }
  }

  /** A string shorter than the pattern is left as it is. */
  lemma ReplaceShort(s: string, pat: string, rep: string)
    requires 0 < |pat| && |s| < |pat|
    ensures ReplaceAll(s, pat, rep) == s
  {
  }

  /** Lowering is idempotent. */
  lemma LowerIdempotent(s: string)
    ensures Lower(Lower(s)) == Lower(s)
  {
  }

  /** Lowering works character by character. */
  lemma LowerConcat(a: string, b: string)
    ensures Lower(a + b) == Lower(a) + Lower(b)
  {
  }

  /** No upper-case ASCII letter. */
  predicate NoUpper(s: string)
  {
    forall i :: 0 <= i < |s| ==> !('A' <= s[i] <= 'Z')
  }

  /** Stripping keeps a slice, so it brings in no upper-case letter. */
  lemma StripNoUpper(s: string)
    requires NoUpper(s)
    ensures NoUpper(Strip(s))
  {
    var l := StripLeft(s);
    forall i | 0 <= i < |l| ensures !('A' <= l[i] <= 'Z') {
      assert l[i] == s[|s| - |l| + i];
    }
    var t := StripRight(l);
    forall i | 0 <= i < |t| ensures !('A' <= t[i] <= 'Z') {
      assert t[i] == l[i];
    }
  }

  /** Replacing with a replacement that has no upper-case letter brings none in. */
  lemma {:induction false} ReplaceNoUpper(s: string, pat: string, rep: string)
    requires |pat| > 0 && NoUpper(s) && NoUpper(rep)
    ensures NoUpper(ReplaceAll(s, pat, rep))
    decreases |s|
  {
    if |s| >= |pat| {
      if s[..|pat|] == pat {
        var rest := s[|pat|..];
        assert NoUpper(rest) by {
          forall i | 0 <= i < |rest| ensures !('A' <= rest[i] <= 'Z') {
            assert rest[i] == s[|pat| + i];
          }
        }
        ReplaceNoUpper(rest, pat, rep);
        var r := rep + ReplaceAll(rest, pat, rep);
        forall i | 0 <= i < |r| ensures !('A' <= r[i] <= 'Z') {
          if i >= |rep| { assert r[i] == ReplaceAll(rest, pat, rep)[i - |rep|]; }
        }
      } else {
        var rest := s[1..];
        assert NoUpper(rest) by {
          forall i | 0 <= i < |rest| ensures !('A' <= rest[i] <= 'Z') {
            assert rest[i] == s[1 + i];
          }
        }
        ReplaceNoUpper(rest, pat, rep);
        var r := [s[0]] + ReplaceAll(rest, pat, rep);
        forall i | 0 <= i < |r| ensures !('A' <= r[i] <= 'Z') {
          if i >= 1 { assert r[i] == ReplaceAll(rest, pat, rep)[i - 1]; }
        }
      }
    }
  }

  /** A string with no upper-case ASCII letter is its own lower case. */
  lemma LowerNoUpper(s: string)
    requires forall i :: 0 <= i < |s| ==> !('A' <= s[i] <= 'Z')
    ensures Lower(s) == s
  {
  }
}
