/** The regular expressions of the feature parser, each written as the test
    `re.search` makes at one start position; `Search.Leftmost` then gives the
    leftmost match, as `re.search` does. */
module Patterns {
  import opened Wrappers
  import opened Text
  import Search

  /** End of the maximal run of digits that starts at `i`. */
  function DigitRunEnd(s: string, i: nat): (j: nat)
    requires i <= |s|
    decreases |s| - i
    ensures i <= j <= |s|
    ensures forall k :: i <= k < j ==> IsDigit(s[k])
    ensures j == |s| || !IsDigit(s[j])
  {
    if i < |s| && IsDigit(s[i]) then DigitRunEnd(s, i + 1) else i
  }

  /** End of the maximal run of whitespace that starts at `i`. */
  function SpaceRunEnd(s: string, i: nat): (j: nat)
    requires i <= |s|
    decreases |s| - i
    ensures i <= j <= |s|
    ensures forall k :: i <= k < j ==> IsSpace(s[k])
    ensures j == |s| || !IsSpace(s[j])
  {
    if i < |s| && IsSpace(s[i]) then SpaceRunEnd(s, i + 1) else i
  }

  /** `(\d+)\s*<token>` tried at start position `i`. Every token of the
      scraper begins with a letter, so neither `\d+` nor `\s*` can give back
      characters to let the token match earlier: the group is the whole digit
      run from `i`, the whitespace is the whole run after it. */
  function NumberBeforeTokenAt(s: string, token: string, i: nat): Option<nat> {
    if i < |s| && IsDigit(s[i]) then
      var j := DigitRunEnd(s, i);
      var k := SpaceRunEnd(s, j);
      if PrefixAt(s, k, token) then Some(DigitsValue(s[i..j])) else None
    else None
  }

  /** `t(\d+)` tried at start position `i`. */
  function TypologyAt(s: string, i: nat): Option<nat> {
    if i + 1 < |s| && s[i] == 't' && IsDigit(s[i + 1]) then
      Some(DigitsValue(s[i + 1..DigitRunEnd(s, i + 1)]))
    else None
  }

  /** `(\d{4})` tried at start position `i`. */
  function FourDigitsAt(s: string, i: nat): (r: Option<nat>)
    ensures r.Some? ==> r.value < 10000
  {
    if i + 4 <= |s| && AllDigits(s[i..i + 4]) then
      assert Pow10(4) == 10000;
      Some(DigitsValue(s[i..i + 4]))
    else None
  }

  /** The grade group `([A-Z][+\-]?)` read at position `k`: a letter and an
      optional `+` or `-` right after it. */
  function GradeAt(s: string, k: nat): (r: Option<string>)
    ensures r.Some? ==> IsGrade(r.value)
  {
    if k < |s| && IsAsciiLetter(s[k]) then
      if k + 1 < |s| && (s[k + 1] == '+' || s[k + 1] == '-') then Some(s[k..k + 2])
      else Some([s[k]])
    else None
  }

  /** `<label>\s*([A-Z][+\-]?)` with `re.IGNORECASE`, tried at position `i`. */
  function LabelledGradeAt(s: string, caption: string, i: nat): (r: Option<string>)
    ensures r.Some? ==> IsGrade(r.value)
  {
    if i + |caption| <= |s| && EqualsIgnoreCase(s[i..i + |caption|], caption) then
      GradeAt(s, SpaceRunEnd(s, i + |caption|))
    else None
  }

  /** What the grade group can capture: one letter, then possibly `+` or `-`. */
  predicate IsGrade(g: string) {
    (|g| == 1 || (|g| == 2 && (g[1] == '+' || g[1] == '-'))) && IsAsciiLetter(g[0])
  }

  function SearchNumberBeforeToken(s: string, token: string): Option<nat> {
    Search.Leftmost(i => NumberBeforeTokenAt(s, token, i), |s|)
  }

  function SearchTypology(s: string): Option<nat> {
    Search.Leftmost(i => TypologyAt(s, i), |s|)
  }

  function SearchFourDigits(s: string): Option<nat> {
    Search.Leftmost(i => FourDigitsAt(s, i), |s|)
  }

  function SearchLabelledGrade(s: string, caption: string): Option<string> {
    Search.Leftmost(i => LabelledGradeAt(s, caption, i), |s|)
  }

  /** What a labelled energy pattern captures is a grade. */
  lemma FoundGradeIsGrade(s: string, caption: string)
    requires SearchLabelledGrade(s, caption).Some?
    ensures IsGrade(SearchLabelledGrade(s, caption).value)
  {
    var i := Search.LeftmostSome((k: nat) => LabelledGradeAt(s, caption, k), |s|);
  }

  /** The number `re.search` reports for `(\d+)\s*<token>` is a whole digit
      run: the character before it is not a digit, although the regex may
      start in the middle of a run. */
  lemma NumberIsWholeDigitRun(s: string, token: string) returns (i: nat, j: nat)
    requires SearchNumberBeforeToken(s, token).Some?
    ensures i < j <= |s| && AllDigits(s[i..j])
    ensures i == 0 || !IsDigit(s[i - 1])
    ensures j == |s| || !IsDigit(s[j])
    ensures PrefixAt(s, SpaceRunEnd(s, j), token)
    ensures SearchNumberBeforeToken(s, token) == Some(DigitsValue(s[i..j]))
  {
    var at := (k: nat) => NumberBeforeTokenAt(s, token, k);
    i := Search.LeftmostSome(at, |s|);
    j := DigitRunEnd(s, i);
    if i > 0 {
      MatchExtendsLeft(s, token, i - 1);
      assert at(i - 1) == NumberBeforeTokenAt(s, token, i - 1);
    }
  }

  /** A match that starts right after a digit also matches one position
      earlier, so a leftmost match never starts inside a digit run. */
  lemma MatchExtendsLeft(s: string, token: string, k: nat)
    requires k + 1 < |s|
    requires NumberBeforeTokenAt(s, token, k + 1).Some?
    ensures IsDigit(s[k]) ==> NumberBeforeTokenAt(s, token, k).Some?
  {
    if IsDigit(s[k]) {
      assert DigitRunEnd(s, k) == DigitRunEnd(s, k + 1);
    }
  }

  /** A token that extends another is only found where the shorter one is
      found too, with the same number: `(\d+)\s*quartos` never matches where
      `(\d+)\s*quarto` does not. */
  lemma ExtendedTokenMatchesPrefixToken(s: string, short: string, long: string)
    requires |short| <= |long| && long[..|short|] == short
    requires SearchNumberBeforeToken(s, long).Some?
    ensures SearchNumberBeforeToken(s, short).Some?
  {
    var atLong := (k: nat) => NumberBeforeTokenAt(s, long, k);
    var atShort := (k: nat) => NumberBeforeTokenAt(s, short, k);
    var i := Search.LeftmostSome(atLong, |s|);
    var k := SpaceRunEnd(s, DigitRunEnd(s, i));
    assert PrefixAt(s, k, long);
    assert PrefixAt(s, k, short) by {
      assert s[k..k + |long|][..|short|] == s[k..k + |short|];
    }
    assert atShort(i).Some?;
    Search.LeftmostNone(atShort, |s|);
  }
}
