/** parse_application_date up to the point where it has the relative amount and unit:
    lower-case and strip the text, rewrite the unit words to their short forms, then take the
    leftmost match of `(\d+)\s*(mo|yr|w|d)`. The calendar subtraction that follows
    (relativedelta in the Singapore time zone, strftime) is not part of this model. */
module AppliedDate {
  import opened Common
  import opened Text

  datatype TimeUnit = Months | Years | Weeks | Days

  /** "<amount> <unit> ago", as read from the text. */
  datatype Ago = Ago(amount: nat, unit: TimeUnit)

  /** The short form the regular expression's alternation accepts. */
  function ShortForm(u: TimeUnit): string
  {
    match u
    case Months => "mo"
    case Years => "yr"
    case Weeks => "w"
    case Days => "d"
  }

  /** The plural word LinkedIn writes ("11 months ago"). */
  function PluralForm(u: TimeUnit): string
  {
    match u
    case Months => "months"
    case Years => "years"
    case Weeks => "weeks"
    case Days => "days"
  }

  /** The lower-casing and stripping, then the unit-word rewriting. */
  function Normalize(text: string): string
  {
    Rewrite(Strip(Lower(text)))
  }

  /** The eight `replace` calls, in the source's order. */
  function Rewrite(t: string): string
  {
    var t := ReplaceAll(ReplaceAll(t, "months", "mo"), "month", "mo");
    var t := ReplaceAll(ReplaceAll(t, "years", "yr"), "year", "yr");
    var t := ReplaceAll(ReplaceAll(t, "weeks", "w"), "week", "w");
    ReplaceAll(ReplaceAll(t, "days", "d"), "day", "d")
  }

  /** The alternation `(mo|yr|w|d)` tried at index k. */
  function UnitAt(t: string, k: nat): (r: Option<TimeUnit>)
    ensures r.Some? ==> OccursAt(t, ShortForm(r.value), k)
    ensures r.None? ==> forall u :: !OccursAt(t, ShortForm(u), k)
  {
    if OccursAt(t, "mo", k) then Some(Months)
    else if OccursAt(t, "yr", k) then Some(Years)
    else if OccursAt(t, "w", k) then Some(Weeks)
    else if OccursAt(t, "d", k) then Some(Days)
    else None
  }

  /** The pattern tried at index i. Backtracking cannot help: a shorter digit run leaves a
      digit and a shorter space run leaves a space in front of the alternation, and no
      alternative starts with either, so the greedy runs decide the match. */
  function AmountAt(t: string, i: nat): Option<Ago>
    requires i <= |t|
  {
    if i < |t| && IsDigit(t[i]) then
      var j := DigitRunEnd(t, i);
      var k := SpaceRunEnd(t, j);
      match UnitAt(t, k)
      case Some(u) => Some(Ago(DecimalValue(t[i..j]), u))
      case None => None
    else None
  }

  /** re.search: the leftmost index at or after i where the pattern matches. */
  function FirstAmountFrom(t: string, i: nat): (r: Option<Ago>)
    requires i <= |t|
    ensures r.Some? ==> exists m: nat :: i <= m <= |t| && AmountAt(t, m) == r && forall j: nat :: i <= j < m ==> AmountAt(t, j).None?
    ensures r.None? ==> forall j: nat :: i <= j <= |t| ==> AmountAt(t, j).None?
    decreases |t| - i
  {
    if AmountAt(t, i).Some? then AmountAt(t, i)
    else if i == |t| then None
    else FirstAmountFrom(t, i + 1)
  }

  /** parse_application_date, stopped at the (amount, unit) pair; `None` where the source
      returns (None, None): empty text, or no match. */
  function ParseApplicationDate(text: string): Option<Ago>
  {
    if text == [] then None else FirstAmountFrom(Normalize(text), 0)
  }

  /** parse_application_date answers (None, None) for empty text; otherwise it reads the
      leftmost place in the normalised text where the pattern matches, and answers
      (None, None) when it matches nowhere. */
  lemma ParseFindsFirstMatch(text: string)
    ensures text == [] ==> ParseApplicationDate(text).None?
    ensures text != [] && ParseApplicationDate(text).Some? ==>
      var t := Normalize(text);
      exists m: nat :: m <= |t| && AmountAt(t, m) == ParseApplicationDate(text) &&
        forall j: nat :: j < m ==> AmountAt(t, j).None?
    ensures text != [] && ParseApplicationDate(text).None? ==>
      var t := Normalize(text);
      forall j: nat :: j <= |t| ==> AmountAt(t, j).None?
  {
  }

  /** The normalised text holds no upper-case letter: lower() removes them and the unit
      rewriting brings in only lower-case short forms. */
  lemma NormalizeNoUpper(text: string)
    ensures NoUpper(Normalize(text))
  {
    var low := Lower(text);
    assert NoUpper(low);
    StripNoUpper(low);
    RewriteNoUpper(Strip(low));
  }

  /** The unit rewriting brings in no upper-case letter. */
  lemma RewriteNoUpper(t: string)
    requires NoUpper(t)
    ensures NoUpper(Rewrite(t))
  {
    var t1 := ReplaceAll(t, "months", "mo");
    ReplaceNoUpper(t, "months", "mo");
    var t2 := ReplaceAll(t1, "month", "mo");
    ReplaceNoUpper(t1, "month", "mo");
    var t3 := ReplaceAll(t2, "years", "yr");
    ReplaceNoUpper(t2, "years", "yr");
    var t4 := ReplaceAll(t3, "year", "yr");
    ReplaceNoUpper(t3, "year", "yr");
    var t5 := ReplaceAll(t4, "weeks", "w");
    ReplaceNoUpper(t4, "weeks", "w");
    var t6 := ReplaceAll(t5, "week", "w");
    ReplaceNoUpper(t5, "week", "w");
    var t7 := ReplaceAll(t6, "days", "d");
    ReplaceNoUpper(t6, "days", "d");
    ReplaceNoUpper(t7, "day", "d");
  }

  lemma StripUnchanged(s: string)
    requires s != [] && !IsSpace(s[0]) && !IsSpace(s[|s| - 1])
    ensures Strip(s) == s
  {
  }

  /** A prefix made of digits and whitespace passes through the rewriting untouched. */
  lemma {:induction false} RewriteKeepsPrefix(a: string, b: string)
    requires forall i :: 0 <= i < |a| ==> IsDigit(a[i]) || IsSpace(a[i])
    ensures Rewrite(a + b) == a + Rewrite(b)
  {
    assert 'm' !in a && 'y' !in a && 'w' !in a && 'd' !in a;
    var t1 := ReplaceAll(b, "months", "mo");
    ReplaceAfterPrefix(a, b, "months", "mo");
    var t2 := ReplaceAll(t1, "month", "mo");
    ReplaceAfterPrefix(a, t1, "month", "mo");
    var t3 := ReplaceAll(t2, "years", "yr");
    ReplaceAfterPrefix(a, t2, "years", "yr");
    var t4 := ReplaceAll(t3, "year", "yr");
    ReplaceAfterPrefix(a, t3, "year", "yr");
    var t5 := ReplaceAll(t4, "weeks", "w");
    ReplaceAfterPrefix(a, t4, "weeks", "w");
    var t6 := ReplaceAll(t5, "week", "w");
    ReplaceAfterPrefix(a, t5, "week", "w");
    var t7 := ReplaceAll(t6, "days", "d");
    ReplaceAfterPrefix(a, t6, "days", "d");
    ReplaceAfterPrefix(a, t7, "day", "d");
  }

  /** The short forms are already normal. */
  lemma RewriteShortForm(u: TimeUnit)
    ensures Rewrite(ShortForm(u)) == ShortForm(u)
  {
  }

  /** The pattern matches at index |pre| of "<pre><digits><spaces><unit><rest>". */
  lemma {:induction false} AmountAtOffset(pre: string, digits: string, gap: string, u: TimeUnit, rest: string)
    requires IsDigitRun(digits)
    requires forall i :: 0 <= i < |gap| ==> IsSpace(gap[i])
    ensures AmountAt(pre + digits + gap + ShortForm(u) + rest, |pre|) == Some(Ago(DecimalValue(digits), u))
  {
    var t := pre + digits + gap + ShortForm(u) + rest;
    var i, j, k := |pre|, |pre| + |digits|, |pre| + |digits| + |gap|;
    assert t[i] == digits[0];
    assert t[i..j] == digits;
    forall m | i <= m < j ensures IsDigit(t[m]) { assert t[m] == digits[m - i]; }
    forall m | j <= m < k ensures IsSpace(t[m]) { assert t[m] == gap[m - j]; }
    DigitRunEndAt(t, i, j);
    assert OccursAt(t, ShortForm(u), k) by {
      assert t[k..k + |ShortForm(u)|] == ShortForm(u);
    }
    assert !IsSpace(t[k]) by {
      assert t[k] == ShortForm(u)[0];
    }
    SpaceRunEndAt(t, j, k);
    UnitAtShortForm(t, k, u);
  }

  /** Where a short form occurs, the alternation picks its unit: no two short forms start
      with the same letter. */
  lemma UnitAtShortForm(t: string, k: nat, u: TimeUnit)
    requires OccursAt(t, ShortForm(u), k)
    ensures UnitAt(t, k) == Some(u)
  {
    assert t[k] == ShortForm(u)[0] by {
      assert t[k..k + |ShortForm(u)|][0] == t[k];
    }
  }

  /** A digit-space prefix followed by a short unit is already normal. */
  lemma NormalizeShortForm(a: string, u: TimeUnit)
    requires a != [] && IsDigit(a[0])
    requires forall i :: 0 <= i < |a| ==> IsDigit(a[i]) || IsSpace(a[i])
    ensures Normalize(a + ShortForm(u)) == a + ShortForm(u)
  {
    var w := ShortForm(u);
    var text := a + w;
    forall i | 0 <= i < |text| ensures !('A' <= text[i] <= 'Z') {
      if i >= |a| { assert text[i] == w[i - |a|]; } else { assert text[i] == a[i]; }
    }
    LowerNoUpper(text);
    assert text[0] == a[0];
    assert text[|text| - 1] == w[|w| - 1];
    StripUnchanged(text);
    RewriteKeepsPrefix(a, w);
    RewriteShortForm(u);
  }

  /** Round trip for the short spelling "<n><spaces><unit>" ("11mo", "2w", "1 yr"). */
  lemma ParseShortForm(n: nat, gap: string, u: TimeUnit)
    requires forall i :: 0 <= i < |gap| ==> IsSpace(gap[i])
    ensures ParseApplicationDate(NatToDecimal(n) + gap + ShortForm(u)) == Some(Ago(n, u))
  {
    var d := NatToDecimal(n);
    var a := d + gap;
    var text := a + ShortForm(u);
    DigitsThenSpaces(d, gap);
    NormalizeShortForm(a, u);
    var e: string := [];
    assert e + d == d && text + e == text;
    AmountAtOffset(e, d, gap, u, e);
    FirstAmountAt(text, 0);
    DecimalRoundTrip(n);
  }

  /** An occurrence at the head is rewritten and the scan resumes after it. */
  lemma ReplaceHead(pat: string, rest: string, rep: string)
    requires |pat| > 0
    ensures ReplaceAll(pat + rest, pat, rep) == rep + ReplaceAll(rest, pat, rep)
  {
    assert (pat + rest)[..|pat|] == pat && (pat + rest)[|pat|..] == rest;
  }

  /** Rewrite, one pair of `replace` calls at a time. */
  lemma RewritePairs(t: string, t1: string, t2: string, t3: string, t4: string)
    requires t1 == ReplaceAll(ReplaceAll(t, "months", "mo"), "month", "mo")
    requires t2 == ReplaceAll(ReplaceAll(t1, "years", "yr"), "year", "yr")
    requires t3 == ReplaceAll(ReplaceAll(t2, "weeks", "w"), "week", "w")
    requires t4 == ReplaceAll(ReplaceAll(t3, "days", "d"), "day", "d")
    ensures Rewrite(t) == t4
  {
  }

  /** A pair of `replace` calls whose words start with a character absent from `t`. */
  lemma PairAbsent(t: string, plural: string, singular: string, short: string)
    requires |plural| > 0 && |singular| > 0 && plural[0] !in t && singular[0] !in t
    ensures ReplaceAll(ReplaceAll(t, plural, short), singular, short) == t
  {
    ReplaceAbsent(t, plural, short);
    ReplaceAbsent(t, singular, short);
  }

  // The lemmas below take the words as parameters equal to their spellings, so that the
  // verifier does not try to evaluate the whole rewriting on literal strings.

  /** The pair of `replace` calls for a unit, on "<plural> ago": the plural word becomes the
      short form, and the singular word no longer occurs. */
  lemma PairAtHead(plural: string, singular: string, short: string, tail: string)
    requires tail == " ago"
    requires (plural, singular, short) in {("months", "month", "mo"), ("years", "year", "yr"),
                                           ("weeks", "week", "w"), ("days", "day", "d")}
    ensures ReplaceAll(ReplaceAll(plural + tail, plural, short), singular, short) == short + tail
  {
    ReplaceHead(plural, tail, short);
    ReplaceAbsent(tail, plural, short);
    var t1 := short + tail;
    assert t1[|short|..] == tail;
    ReplaceAbsent(tail, singular, short);
    if short == "mo" {
      assert t1[..|singular|] != singular by { assert t1[2] == ' ' != singular[2]; }
      assert t1[1..] == "o ago";
      ReplaceAbsent(t1[1..], singular, short);
    } else if short == "yr" {
      assert t1[..|singular|] != singular by { assert t1[1] == 'r' != singular[1]; }
      assert t1[1..] == "r ago";
      ReplaceAbsent(t1[1..], singular, short);
    } else {
      assert t1[..|singular|] != singular by { assert t1[1] == ' ' != singular[1]; }
    }
  }

  lemma RewriteMonthsAgo(w: string, tail: string, short: string)
    requires w == "months" && tail == " ago" && short == "mo"
    ensures Rewrite(w + tail) == short + tail
  {
    PairAtHead(w, "month", short, tail);
    var t1 := short + tail;
    PairAbsent(t1, "years", "year", "yr");
    PairAbsent(t1, "weeks", "week", "w");
    PairAbsent(t1, "days", "day", "d");
    RewritePairs(w + tail, t1, t1, t1, t1);
  }

  lemma RewriteYearsAgo(w: string, tail: string, short: string)
    requires w == "years" && tail == " ago" && short == "yr"
    ensures Rewrite(w + tail) == short + tail
  {
    PairAbsent(w + tail, "months", "month", "mo");
    PairAtHead(w, "year", short, tail);
    var t1 := short + tail;
    PairAbsent(t1, "weeks", "week", "w");
    PairAbsent(t1, "days", "day", "d");
    RewritePairs(w + tail, w + tail, t1, t1, t1);
  }

  lemma RewriteWeeksAgo(w: string, tail: string, short: string)
    requires w == "weeks" && tail == " ago" && short == "w"
    ensures Rewrite(w + tail) == short + tail
  {
    PairAbsent(w + tail, "months", "month", "mo");
    PairAbsent(w + tail, "years", "year", "yr");
    PairAtHead(w, "week", short, tail);
    var t1 := short + tail;
    PairAbsent(t1, "days", "day", "d");
    RewritePairs(w + tail, w + tail, w + tail, t1, t1);
  }

  lemma RewriteDaysAgo(w: string, tail: string, short: string)
    requires w == "days" && tail == " ago" && short == "d"
    ensures Rewrite(w + tail) == short + tail
  {
    PairAbsent(w + tail, "months", "month", "mo");
    DaysAgoKeepsYear(w, tail);
    PairAbsent(w + tail, "weeks", "week", "w");
    PairAtHead(w, "day", short, tail);
    RewritePairs(w + tail, w + tail, w + tail, w + tail, short + tail);
  }

  /** "years" and "year" start with 'y', which "days ago" holds, but neither occurs in it. */
  lemma DaysAgoKeepsYear(w: string, tail: string)
    requires w == "days" && tail == " ago"
    ensures ReplaceAll(ReplaceAll(w + tail, "years", "yr"), "year", "yr") == w + tail
  {
    var t := w + tail;
    var da, rest := t[..2], t[2..];
    assert t == da + rest && 'y' !in da;
    ReplaceAfterPrefix(da, rest, "years", "yr");
    ReplaceAfterPrefix(da, rest, "year", "yr");
    assert rest[..5][1] == 's' != "years"[1];
    assert rest[..4][1] == 's' != "year"[1];
    ReplaceAbsent(rest[1..], "years", "yr");
    ReplaceAbsent(rest[1..], "year", "yr");
    assert ReplaceAll(t, "years", "yr") == t;
  }

  /** The plural words followed by " ago" rewrite to the short forms. */
  lemma RewritePlural(u: TimeUnit, tail: string)
    requires tail == " ago"
    ensures Rewrite(PluralForm(u) + tail) == ShortForm(u) + tail
  {
    match u
    case Months => RewriteMonthsAgo(PluralForm(u), tail, ShortForm(u));
    case Years => RewriteYearsAgo(PluralForm(u), tail, ShortForm(u));
    case Weeks => RewriteWeeksAgo(PluralForm(u), tail, ShortForm(u));
    case Days => RewriteDaysAgo(PluralForm(u), tail, ShortForm(u));
  }

  /** Text that lower-casing and stripping leave alone, made of a digit-space prefix and a
      rest, normalises to the prefix and the rewritten rest. */
  lemma NormalizeAfterPrefix(a: string, w: string, r: string)
    requires forall i :: 0 <= i < |a| ==> IsDigit(a[i]) || IsSpace(a[i])
    requires Strip(Lower(a + w)) == a + w
    requires Rewrite(w) == r
    ensures Normalize(a + w) == a + r
  {
    RewriteKeepsPrefix(a, w);
  }

  lemma LowerAndStripLongForm(a: string, u: TimeUnit, tail: string)
    requires a != [] && IsDigit(a[0])
    requires forall i :: 0 <= i < |a| ==> IsDigit(a[i]) || IsSpace(a[i])
    requires tail == " ago"
    ensures Strip(Lower(a + (PluralForm(u) + tail))) == a + (PluralForm(u) + tail)
  {
    var p := PluralForm(u);
    var w := p + tail;
    var text := a + w;
    forall i | 0 <= i < |text| ensures !('A' <= text[i] <= 'Z') {
      if i >= |a| + |p| { assert text[i] == w[i - |a|] == tail[i - |a| - |p|]; }
      else if i >= |a| { assert text[i] == w[i - |a|] == p[i - |a|]; }
      else { assert text[i] == a[i]; }
    }
    LowerNoUpper(text);
    assert text[0] == a[0];
    assert text[|text| - 1] == w[|w| - 1] == tail[3];
    StripUnchanged(text);
  }

  /** The same with the amount written as a number and whitespace before the unit word. */
  lemma NormalizeNumberLongForm(d: string, sp: string, u: TimeUnit, tail: string)
    requires IsDigitRun(d) && tail == " ago"
    requires forall i :: 0 <= i < |sp| ==> IsSpace(sp[i])
    ensures Normalize((d + sp) + (PluralForm(u) + tail)) == (d + sp) + (ShortForm(u) + tail)
  {
    DigitsThenSpaces(d, sp);
    LowerAndStripLongForm(d + sp, u, tail);
    RewritePlural(u, tail);
    NormalizeAfterPrefix(d + sp, PluralForm(u) + tail, ShortForm(u) + tail);
  }

  lemma DigitsThenSpaces(d: string, sp: string)
    requires IsDigitRun(d)
    requires forall i :: 0 <= i < |sp| ==> IsSpace(sp[i])
    ensures (d + sp) != [] && IsDigit((d + sp)[0])
    ensures forall i :: 0 <= i < |d + sp| ==> IsDigit((d + sp)[i]) || IsSpace((d + sp)[i])
  {
    var a := d + sp;
    forall i | 0 <= i < |a| ensures IsDigit(a[i]) || IsSpace(a[i]) {
      if i < |d| { assert a[i] == d[i]; } else { assert a[i] == sp[i - |d|]; }
    }
  }

  /** Round trip for the long spelling "<n> <plural> ago" ("11 months ago", "2 weeks ago"). */
  lemma ParseLongForm(n: nat, u: TimeUnit, sp: string, tail: string)
    requires sp == " " && tail == " ago"
    ensures ParseApplicationDate(NatToDecimal(n) + sp + PluralForm(u) + tail) == Some(Ago(n, u))
  {
    var d := NatToDecimal(n);
    var text := d + sp + PluralForm(u) + tail;
    ConcatAssoc(d + sp, PluralForm(u), tail);
    NormalizeNumberLongForm(d, sp, u, tail);
    var t := d + sp + ShortForm(u) + tail;
    ConcatAssoc(d + sp, ShortForm(u), tail);
    var e: string := [];
    assert e + d == d;
    AmountAtOffset(e, d, sp, u, tail);
    DecimalRoundTrip(n);
    assert text != [];
    assert FirstAmountFrom(t, 0) == Some(Ago(n, u));
  }

  /** No unit word can start inside `s`: it never holds "mon", "yea", "wee" or "day". */
  predicate NoUnitWord(s: string)
  {
    NoTriple(s, "mon") && NoTriple(s, "yea") && NoTriple(s, "wee") && NoTriple(s, "day")
  }

  /** Text in which no unit word starts, followed by text that starts with a digit, passes
      through the rewriting untouched. */
  lemma RewriteAfterFree(a: string, b: string)
    requires NoUnitWord(a)
    requires b == [] || IsDigit(b[0])
    ensures Rewrite(a + b) == a + Rewrite(b)
  {
    var b1 := ReplaceAll(b, "months", "mo");
    ReplaceAfterFree(a, b, "months", "mo");
    var b2 := ReplaceAll(b1, "month", "mo");
    ReplaceAfterFree(a, b1, "month", "mo");
    var b3 := ReplaceAll(b2, "years", "yr");
    ReplaceAfterFree(a, b2, "years", "yr");
    var b4 := ReplaceAll(b3, "year", "yr");
    ReplaceAfterFree(a, b3, "year", "yr");
    var b5 := ReplaceAll(b4, "weeks", "w");
    ReplaceAfterFree(a, b4, "weeks", "w");
    var b6 := ReplaceAll(b5, "week", "w");
    ReplaceAfterFree(a, b5, "week", "w");
    var b7 := ReplaceAll(b6, "days", "d");
    ReplaceAfterFree(a, b6, "days", "d");
    ReplaceAfterFree(a, b7, "day", "d");
  }

  /** The short forms followed by " ago" are already normal. */
  lemma RewriteShortAgo(u: TimeUnit, tail: string)
    requires tail == " ago"
    ensures Rewrite(ShortForm(u) + tail) == ShortForm(u) + tail
  {
    var s := ShortForm(u) + tail;
    assert NoUnitWord(s);
    RewriteAfterFree(s, []);
    assert s + [] == s;
  }

  /** re.search finds the pattern at m when it matches there and nowhere before. */
  lemma FirstAmountAt(t: string, m: nat)
    requires m <= |t| && AmountAt(t, m).Some?
    requires forall j: nat :: j < m ==> AmountAt(t, j).None?
    ensures FirstAmountFrom(t, 0) == AmountAt(t, m)
  {
    var r := FirstAmountFrom(t, 0);
    assert r.Some?;
    var k: nat :| k <= |t| && AmountAt(t, k) == r && forall j: nat :: j < k ==> AmountAt(t, j).None?;
    assert k == m;
  }

  /** The letters of a unit word and " ago": lower case, ending in 'o'. */
  lemma WordAgoLowerCase(word: string, u: TimeUnit, tail: string)
    requires word == ShortForm(u) || word == PluralForm(u)
    requires tail == " ago"
    ensures forall i :: 0 <= i < |word + tail| ==> !('A' <= (word + tail)[i] <= 'Z')
    ensures (word + tail)[|word + tail| - 1] == 'o'
  {
  }

  /** Lower-casing and stripping "<pre><digits><spaces><word> ago" only lowers `pre`, when
      `pre` does not start with whitespace. */
  lemma LowerAndStripAfterPrefix(pre: string, a: string, w: string)
    requires pre == [] || !IsSpace(pre[0])
    requires a != [] && IsDigit(a[0])
    requires forall i :: 0 <= i < |a| ==> IsDigit(a[i]) || IsSpace(a[i])
    requires forall i :: 0 <= i < |w| ==> !('A' <= w[i] <= 'Z')
    requires w != [] && w[|w| - 1] == 'o'
    ensures Strip(Lower(pre + (a + w))) == Lower(pre) + (a + w)
  {
    var x := a + w;
    forall i | 0 <= i < |x| ensures !('A' <= x[i] <= 'Z') {
      if i < |a| { assert x[i] == a[i]; } else { assert x[i] == w[i - |a|]; }
    }
    LowerNoUpper(x);
    LowerConcat(pre, x);
    var t := Lower(pre) + x;
    if pre != [] {
      assert t[0] == LowerChar(pre[0]);
    } else {
      assert t[0] == a[0];
    }
    assert t[|t| - 1] == w[|w| - 1];
    StripUnchanged(t);
  }

  /** The amount and unit are found after any prefix that holds no digit, does not start with
      whitespace and, lower-cased, holds no unit word: the docstring's "Application submitted
      11 months ago" and "Applied 2w ago" have this shape. */
  lemma ParseAfterPrefix(text: string, pre: string, n: nat, gap: string, word: string, u: TimeUnit, tail: string)
    requires text == pre + NatToDecimal(n) + gap + word + tail
    requires forall i :: 0 <= i < |pre| ==> !IsDigit(pre[i])
    requires pre == [] || !IsSpace(pre[0])
    requires NoUnitWord(Lower(pre))
    requires forall i :: 0 <= i < |gap| ==> IsSpace(gap[i])
    requires word == ShortForm(u) || word == PluralForm(u)
    requires tail == " ago"
    ensures ParseApplicationDate(text) == Some(Ago(n, u))
  {
    var d := NatToDecimal(n);
    NormalizeAfterFreePrefix(pre, d, gap, word, u, tail);
    FoundAfterPrefix(pre, d, gap, u, tail);
    DecimalRoundTrip(n);
    assert |text| > 0;
  }

  /** Normalising "<pre><digits><spaces><word> ago" lowers the prefix and shortens the word. */
  lemma NormalizeAfterFreePrefix(pre: string, d: string, gap: string, word: string, u: TimeUnit, tail: string)
    requires pre == [] || !IsSpace(pre[0])
    requires NoUnitWord(Lower(pre))
    requires IsDigitRun(d)
    requires forall i :: 0 <= i < |gap| ==> IsSpace(gap[i])
    requires word == ShortForm(u) || word == PluralForm(u)
    requires tail == " ago"
    ensures Normalize(pre + d + gap + word + tail) == Lower(pre) + d + gap + ShortForm(u) + tail
  {
    var lp := Lower(pre);
    var a, w, y := d + gap, word + tail, ShortForm(u) + tail;
    var text := pre + d + gap + word + tail;
    DigitsThenSpaces(d, gap);
    calc {
      Normalize(text);
      Rewrite(Strip(Lower(text)));
      { ConcatAssoc(pre, d, gap);
        ConcatAssoc(pre + d + gap, word, tail);
        ConcatAssoc(pre, a, w); }
      Rewrite(Strip(Lower(pre + (a + w))));
      { WordAgoLowerCase(word, u, tail);
        LowerAndStripAfterPrefix(pre, a, w); }
      Rewrite(lp + (a + w));
      { assert (a + w)[0] == d[0];
        RewriteAfterFree(lp, a + w); }
      lp + Rewrite(a + w);
      { RewriteWordAgo(a, word, u, tail); }
      lp + (a + y);
      { ConcatAssoc(lp, a, y);
        ConcatAssoc(lp, d, gap);
        ConcatAssoc(lp + d + gap, ShortForm(u), tail); }
      lp + d + gap + ShortForm(u) + tail;
    }
  }

  /** After a digit-space prefix, either spelling of a unit followed by " ago" is rewritten
      to its short form. */
  lemma RewriteWordAgo(a: string, word: string, u: TimeUnit, tail: string)
    requires forall i :: 0 <= i < |a| ==> IsDigit(a[i]) || IsSpace(a[i])
    requires word == ShortForm(u) || word == PluralForm(u)
    requires tail == " ago"
    ensures Rewrite(a + (word + tail)) == a + (ShortForm(u) + tail)
  {
    RewriteKeepsPrefix(a, word + tail);
    if word == ShortForm(u) {
      RewriteShortAgo(u, tail);
    } else {
      RewritePlural(u, tail);
    }
  }

  /** In "<lower-cased prefix without digits><digits><spaces><unit><rest>" re.search finds the
      amount and unit right after the prefix. */
  lemma FoundAfterPrefix(pre: string, d: string, gap: string, u: TimeUnit, tail: string)
    requires forall i :: 0 <= i < |pre| ==> !IsDigit(pre[i])
    requires IsDigitRun(d)
    requires forall i :: 0 <= i < |gap| ==> IsSpace(gap[i])
    ensures FirstAmountFrom(Lower(pre) + d + gap + ShortForm(u) + tail, 0) == Some(Ago(DecimalValue(d), u))
  {
    var lp := Lower(pre);
    var t := lp + d + gap + ShortForm(u) + tail;
    AmountAtOffset(lp, d, gap, u, tail);
    ConcatAssoc(lp, d + gap + ShortForm(u), tail);
    ConcatAssoc(lp, d + gap, ShortForm(u));
    ConcatAssoc(lp, d, gap);
    NoAmountInPrefix(pre, d + gap + ShortForm(u) + tail);
    FirstAmountAt(t, |lp|);
  }

  /** The pattern cannot match inside a lower-cased prefix that holds no digit. */
  lemma NoAmountInPrefix(pre: string, y: string)
    requires forall i :: 0 <= i < |pre| ==> !IsDigit(pre[i])
    ensures forall j: nat :: j < |Lower(pre)| ==> AmountAt(Lower(pre) + y, j).None?
  {
    var lp := Lower(pre);
    forall j: nat | j < |lp| ensures AmountAt(lp + y, j).None? {
      assert (lp + y)[j] == lp[j] == LowerChar(pre[j]);
    }
  }

  // The docstring's examples of parse_application_date. Each text is a parameter equal to
  // the example, for the reason given above the PairAtHead lemma.

  // "Application submitted 11 months ago", given in two pieces: the whole literal would
  // make the verifier evaluate the rewriting on it.
  lemma SubmittedMonthsAgo(notice: string, ago: string)
    requires notice == "Application submitted " && ago == "11 months ago"
    ensures ParseApplicationDate(notice + ago) == Some(Ago(11, Months))
  {
    var d := NatToDecimal(11);
    SubmittedNotice(notice);
    assert notice + ago == notice + d + " " + PluralForm(Months) + " ago" by {
      assert d == "11";
    }
    ParseAfterPrefix(notice + ago, notice, 11, " ", PluralForm(Months), Months, " ago");
  }

  /** The notice holds no digit and, lower-cased, no unit word. */
  lemma SubmittedNotice(notice: string)
    requires notice == "Application submitted "
    ensures forall i :: 0 <= i < |notice| ==> !IsDigit(notice[i])
    ensures !IsSpace(notice[0])
    ensures NoUnitWord(Lower(notice))
  {
    var lp := "application submitted ";
    assert Lower(notice) == lp;
    SubmittedWords(lp);
  }

  /** Neither word of the lower-cased notice holds a unit word. */
  lemma SubmittedWords(lp: string)
    requires lp == "application submitted "
    ensures NoUnitWord(lp)
  {
    var w1, w2 := "application ", "submitted ";
    NoTripleAbsent(w1, "mon");
    NoTripleAbsent(w1, "yea");
    NoTripleAbsent(w1, "wee");
    NoTripleAbsent(w1, "day");
    assert NoTriple(w2, "mon");
    NoTripleAbsent(w2, "yea");
    NoTripleAbsent(w2, "wee");
    assert NoTriple(w2, "day");
    NoTripleConcat(w1, w2, "mon");
    NoTripleConcat(w1, w2, "yea");
    NoTripleConcat(w1, w2, "wee");
    NoTripleConcat(w1, w2, "day");
    assert lp == w1 + w2;
  }

  lemma AppliedMonthsAgo(text: string)
    requires text == "Applied 11mo ago"
    ensures ParseApplicationDate(text) == Some(Ago(11, Months))
  {
    var pre, d := "Applied ", NatToDecimal(11);
    assert Lower(pre) == "applied ";
    assert d == "11";
    assert pre + d + "" + "mo" + " ago" == text;
    ParseAfterPrefix(text, pre, 11, "", ShortForm(Months), Months, " ago");
  }

  lemma AppliedWeeksAgo(text: string)
    requires text == "Applied 2w ago"
    ensures ParseApplicationDate(text) == Some(Ago(2, Weeks))
  {
    var pre, d := "Applied ", NatToDecimal(2);
    assert Lower(pre) == "applied ";
    assert d == "2";
    assert pre + d + "" + "w" + " ago" == text;
    ParseAfterPrefix(text, pre, 2, "", ShortForm(Weeks), Weeks, " ago");
  }

  lemma YearAgo(text: string)
    requires text == "1 yr ago"
    ensures ParseApplicationDate(text) == Some(Ago(1, Years))
  {
    var d := NatToDecimal(1);
    assert d == "1";
    assert "" + d + " " + "yr" + " ago" == text;
    ParseAfterPrefix(text, "", 1, " ", ShortForm(Years), Years, " ago");
  }
}
