/**
 * The progress pattern of the download handler: the first match of
 * `/(\d+(\.\d+)?)%/` in the trimmed output chunk, kept as digit strings.
 */
module Percent {
  import opened Wrappers
  import opened Text

  /**
   * A matched number: the integer digits and the fraction digits; `frac` is
   * empty when the optional `(\.\d+)` group did not take part in the match.
   */
  datatype Decimal = Decimal(whole: string, frac: string)

  /** A match found at index `at` of the searched text (`match.index`). */
  datatype Hit = Hit(at: nat, value: Decimal)

  predicate WellFormed(d: Decimal) {
    d.whole != [] && AllDigits(d.whole) && AllDigits(d.frac)
  }

  /** The text the whole pattern consumes for `d`, the trailing '%' included. */
  function Spelling(d: Decimal): string {
    d.whole + (if d.frac == [] then [] else ['.'] + d.frac) + ['%']
  }

  /** The pattern matches `s` at index `i` with capture group 1 spelling `d`. */
  ghost predicate MatchesAt(s: string, i: nat, d: Decimal) {
    WellFormed(d) && i + |Spelling(d)| <= |s| && s[i..i + |Spelling(d)|] == Spelling(d)
  }

  /** End of the longest run of digits starting at `i`. */
  function DigitRunEnd(s: string, i: nat): (j: nat)
    requires i <= |s|
    ensures i <= j <= |s|
    ensures forall k :: i <= k < j ==> IsDigit(s[k])
    ensures j == |s| || !IsDigit(s[j])
    decreases |s| - i
  {
    if i < |s| && IsDigit(s[i]) then DigitRunEnd(s, i + 1) else i
  }

  /**
   * The regular expression tried at index `i`: `\d+` takes the digit run, the
   * optional group takes '.' and a further digit run, and '%' must follow.
   * Backtracking to a shorter run never helps, because a digit can stand
   * neither for '.' nor for '%'.
   */
  function MatchAt(s: string, i: nat): Option<Decimal>
    requires i <= |s|
  {
    var j := DigitRunEnd(s, i);
    if j == i then None
    else if j < |s| && s[j] == '%' then Some(Decimal(s[i..j], []))
    else if j < |s| && s[j] == '.' then
      var m := DigitRunEnd(s, j + 1);
      if m > j + 1 && m < |s| && s[m] == '%' then Some(Decimal(s[i..j], s[j + 1..m])) else None
    else None
  }

  /** A digit string `w` at `j`, followed by a non-digit, is the longest run from `j`. */
  lemma {:induction false} RunOf(s: string, j: nat, w: string)
    requires j + |w| < |s| && s[j..j + |w|] == w
    requires AllDigits(w) && !IsDigit(s[j + |w|])
    ensures DigitRunEnd(s, j) == j + |w|
    decreases |w|
  {
    if w != [] {
      assert s[j] == w[0];
      assert s[j + 1..j + 1 + |w[1..]|] == w[1..];
      RunOf(s, j + 1, w[1..]);
    }
  }

  /** The integer digits of a match are the longest digit run at `i`. */
  lemma WholeAt(s: string, i: nat, d: Decimal)
    requires MatchesAt(s, i, d)
    ensures i + |d.whole| < |s| && DigitRunEnd(s, i) == i + |d.whole|
    ensures s[i..i + |d.whole|] == d.whole
    ensures s[i + |d.whole|] == if d.frac == [] then '%' else '.'
  {
    var n := |d.whole|;
    assert i + n < |s| && s[i..i + n] == d.whole && s[i + n] == (if d.frac == [] then '%' else '.') by {
      var sp := Spelling(d);
      assert sp[..n] == d.whole && sp[n] == if d.frac == [] then '%' else '.';
      assert s[i..i + |sp|][..n] == s[i..i + n];
      assert s[i..i + |sp|][n] == s[i + n];
    }
    RunOf(s, i, d.whole);
  }

  /** Where the fraction digits of a match sit in the text, and the '%' after them. */
  lemma FracSlice(s: string, i: nat, d: Decimal)
    requires MatchesAt(s, i, d) && d.frac != []
    ensures i + |d.whole| + 1 + |d.frac| < |s|
    ensures s[i + |d.whole| + 1..i + |d.whole| + 1 + |d.frac|] == d.frac
    ensures s[i + |d.whole| + 1 + |d.frac|] == '%'
  {
    var sp := Spelling(d);
    var n, f := |d.whole|, |d.frac|;
    var t := s[i..i + |sp|];
    assert sp == d.whole + ['.'] + d.frac + ['%'];
    forall k | 0 <= k < f ensures s[i + n + 1 + k] == d.frac[k] {
      assert t[n + 1 + k] == s[i + n + 1 + k];
      assert sp[n + 1 + k] == d.frac[k];
    }
    assert t[n + 1 + f] == s[i + n + 1 + f];
  }

  /** The fraction digits of a match are the longest digit run after the point. */
  lemma FracAt(s: string, i: nat, d: Decimal)
    requires MatchesAt(s, i, d) && d.frac != []
    ensures i + |d.whole| + 1 + |d.frac| < |s|
    ensures DigitRunEnd(s, i + |d.whole| + 1) == i + |d.whole| + 1 + |d.frac|
    ensures s[i + |d.whole| + 1..i + |d.whole| + 1 + |d.frac|] == d.frac
    ensures s[i + |d.whole| + 1 + |d.frac|] == '%'
  {
    FracSlice(s, i, d);
    RunOf(s, i + |d.whole| + 1, d.frac);
  }

  /** A match at `i` is what `MatchAt` computes there. */
  lemma MatchesAtFound(s: string, i: nat, d: Decimal)
    requires MatchesAt(s, i, d)
    ensures MatchAt(s, i) == Some(d)
  {
    WholeAt(s, i, d);
    if d.frac != [] {
      FracAt(s, i, d);
    }
  }

  /** What `MatchAt` computes at `i` is a match there. */
  lemma FoundMatches(s: string, i: nat)
    requires i <= |s| && MatchAt(s, i).Some?
    ensures MatchesAt(s, i, MatchAt(s, i).value)
  {
    var d := MatchAt(s, i).value;
    var j := DigitRunEnd(s, i);
    assert d.whole == s[i..j] && AllDigits(s[i..j]);
    if d.frac == [] {
      assert s[i..j + 1] == s[i..j] + [s[j]];
    } else {
      var m := DigitRunEnd(s, j + 1);
      assert d.frac == s[j + 1..m];
      forall k | 0 <= k < |d.frac| ensures IsDigit(d.frac[k]) {
        assert j + 1 <= j + 1 + k < m && IsDigit(s[j + 1 + k]);
        assert d.frac[k] == s[j + 1 + k];
      }
      assert s[j + 1..m + 1] == s[j + 1..m] + [s[m]];
      assert s[j..m + 1] == [s[j]] + s[j + 1..m + 1];
      assert s[i..m + 1] == s[i..j] + s[j..m + 1];
    }
  }

  /** `MatchAt` finds a match at `i` exactly when there is one, and it is the only one there. */
  lemma MatchAtCorrect(s: string, i: nat, d: Decimal)
    requires i <= |s|
    ensures MatchAt(s, i) == Some(d) <==> MatchesAt(s, i, d)
  {
    if MatchesAt(s, i, d) {
      MatchesAtFound(s, i, d);
    }
    if MatchAt(s, i) == Some(d) {
      FoundMatches(s, i);
    }
  }

  /** The first match at index `i` or later, trying positions left to right. */
  function FindFrom(s: string, i: nat): Option<Hit>
    requires i <= |s|
    decreases |s| - i
  {
    if i == |s| then None
    else match MatchAt(s, i)
      case Some(d) => Some(Hit(i, d))
      case None => FindFrom(s, i + 1)
  }

  /** `text.match(/(\d+(\.\d+)?)%/)`, reporting the index and group 1. */
  function FindPercent(s: string): Option<Hit> {
    FindFrom(s, 0)
  }

  /** `FindFrom` returns the leftmost match at or after `i`, and none only when there is none. */
  lemma {:induction false} FindFromCorrect(s: string, i: nat)
    requires i <= |s|
    ensures FindFrom(s, i).None? <==> forall k: nat, d :: i <= k ==> !MatchesAt(s, k, d)
    ensures FindFrom(s, i).Some? ==>
      var h := FindFrom(s, i).value;
      i <= h.at && MatchesAt(s, h.at, h.value) &&
      forall k: nat, d :: i <= k < h.at ==> !MatchesAt(s, k, d)
    decreases |s| - i
  {
    if i == |s| {
      forall k: nat, d | i <= k ensures !MatchesAt(s, k, d) {
        assert |Spelling(d)| > 0;
      }
    } else {
      match MatchAt(s, i)
      case Some(d) =>
        MatchAtCorrect(s, i, d);
      case None =>
        FindFromCorrect(s, i + 1);
        forall d ensures !MatchesAt(s, i, d) {
          MatchAtCorrect(s, i, d);
        }
    }
  }

  /**
   * The leftmost-match specification of the progress pattern: a result is a
   * match and no match starts further left; no result means no match at all.
   */
  lemma FindPercentCorrect(s: string)
    ensures FindPercent(s).None? <==> forall k: nat, d :: !MatchesAt(s, k, d)
    ensures FindPercent(s).Some? ==>
      var h := FindPercent(s).value;
      MatchesAt(s, h.at, h.value) && forall k: nat, d :: k < h.at ==> !MatchesAt(s, k, d)
  {
    FindFromCorrect(s, 0);
  }

  /** Every match spells a well-formed number. */
  lemma FindPercentWellFormed(s: string)
    ensures FindPercent(s).Some? ==> WellFormed(FindPercent(s).value.value)
  {
    FindPercentCorrect(s);
  }

  /** A chunk of tool output: trimmed, then searched. */
  function ParseProgress(chunk: string): (r: Option<Decimal>)
    ensures r.Some? ==> WellFormed(r.value)
  {
    var text := Trim(chunk);
    FindPercentWellFormed(text);
    match FindPercent(text)
    case Some(h) => Some(h.value)
    case None => None
  }

  /** The exact value `Number(match[1])` denotes, as a rational. */
  function Value(d: Decimal): real
    requires WellFormed(d)
  {
    DigitsValue(d.whole) as real + DigitsValue(d.frac) as real / Pow10(|d.frac|) as real
  }

  /** The integer digits give the integer part of the value: the fraction adds less than one. */
  lemma ValueBounds(d: Decimal)
    requires WellFormed(d)
    ensures DigitsValue(d.whole) as real <= Value(d) < DigitsValue(d.whole) as real + 1.0
  {
    DigitsValueBelow(d.frac);
    FractionBelowOne(DigitsValue(d.frac) as real, Pow10(|d.frac|) as real);
  }

  lemma FractionBelowOne(num: real, den: real)
    requires 0.0 <= num < den
    ensures 0.0 <= num / den < 1.0
  {
    assert num / den * den == num;
  }

  /** "5.%": a '.' without digits after it is no fraction, and "5." is not followed by '%'. */
  lemma DanglingPointNoMatch()
    ensures FindPercent("5.%") == None
  {
    assert DigitRunEnd("5.%", 0) == 1;
    assert DigitRunEnd("5.%", 2) == 2;
    assert MatchAt("5.%", 0) == None;
  }

  /** "1.2.3%": the match cannot start at "1", so the leftmost one is "2.3" at index 2. */
  lemma LeftmostMatchExample()
    ensures FindPercent("1.2.3%") == Some(Hit(2, Decimal("2", "3")))
  {
    var s := "1.2.3%";
    assert DigitRunEnd(s, 0) == 1;
    assert DigitRunEnd(s, 2) == 3;
    assert DigitRunEnd(s, 4) == 5;
    assert MatchAt(s, 0) == None;
    assert MatchAt(s, 1) == None;
    assert s[2..3] == "2" && s[4..5] == "3";
    assert MatchAt(s, 2) == Some(Decimal("2", "3"));
  }
}
