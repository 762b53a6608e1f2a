/** Properties of the feature cascades: first match wins, priority order
    rather than text position, the range check on the year, and where the
    energy certificate may come from. */
module FeatureProperties {
  import opened Wrappers
  import opened Text
  import opened Patterns
  import opened FeatureParser
  import Search

  /** An empty features text leaves every field read from it None. */
  lemma EmptyFeaturesTextGivesNoFields(description: string, updateLookup: Option<string>, elementTexts: seq<string>)
    ensures var f := ParseFeatures("", description, updateLookup, elementTexts);
      && f.bathrooms.None? && f.bedrooms.None? && f.propertyTypeDetail.None?
      && f.completionYear.None? && f.status.None? && f.agency.None?
  {
  }

  /** A numeric cascade yields the value of the first pattern, in list order,
      that matches anywhere in the text, and nothing when none matches. */
  lemma NumberCascadeFirstMatchWins(patterns: seq<NumberPattern>, s: string, k: nat)
    requires k < |patterns| && SearchNumber(patterns[k], s).Some?
    ensures FirstNumber(patterns, s) == SearchNumber(patterns[k], s)
        <== forall j :: 0 <= j < k ==> SearchNumber(patterns[j], s).None?
  {
    if forall j :: 0 <= j < k ==> SearchNumber(patterns[j], s).None? {
      assert forall j :: 0 <= j < k ==> NumberPatternAt(patterns, s)(j).None?;
      Search.LeftmostIs(NumberPatternAt(patterns, s), |patterns|, k, SearchNumber(patterns[k], s).value);
    }
  }

  lemma NumberCascadeNone(patterns: seq<NumberPattern>, s: string)
    ensures FirstNumber(patterns, s).None? <==> forall k :: 0 <= k < |patterns| ==> SearchNumber(patterns[k], s).None?
  {
    Search.LeftmostNone(NumberPatternAt(patterns, s), |patterns|);
    assert forall k :: 0 <= k < |patterns| ==> NumberPatternAt(patterns, s)(k) == SearchNumber(patterns[k], s);
  }

  /** The pattern `(\d+)\s*quartos` never decides the bedroom count: wherever
      it matches, `(\d+)\s*quarto`, tried earlier, matches too. Dropping it
      gives the same cascade. */
  lemma QuartosPatternNeverDecides(s: string)
    ensures FirstNumber(BedroomPatterns, s) == FirstNumber(BedroomPatterns[..3] + BedroomPatterns[4..], s)
  {
    var short := BedroomPatterns[..3] + BedroomPatterns[4..];
    var full := NumberPatternAt(BedroomPatterns, s);
    var cut := NumberPatternAt(short, s);
    assert "quartos"[..|"quarto"|] == "quarto";
    if SearchNumberBeforeToken(s, "quartos").Some? {
      ExtendedTokenMatchesPrefixToken(s, "quarto", "quartos");
    }
    Search.LeftmostNone(full, 6);
    Search.LeftmostNone(cut, 5);
    if FirstNumber(BedroomPatterns, s).Some? {
      var k := Search.LeftmostSome(full, 6);
      assert k != 3;
      var k' := if k < 3 then k else k - 1;
      assert cut(k') == full(k);
      assert forall j :: 0 <= j < k' ==> cut(j) == full(if j < 3 then j else j + 1);
      Search.LeftmostIs(cut, 5, k', full(k).value);
    }
  }

  /** Without a "bedroom" or "quarto" count, the typology marker decides the
      bedroom count, ahead of "room" and "hab". */
  lemma TypologyDecidesBeforeRoom(s: string)
    requires SearchNumberBeforeToken(s, "bedroom").None? && SearchNumberBeforeToken(s, "quarto").None?
    requires SearchTypology(s).Some?
    ensures FirstNumber(BedroomPatterns, s) == SearchTypology(s)
  {
    NumberCascadeFirstMatchWins(BedroomPatterns, s, 2);
  }

  /** A literal cascade yields the first literal of the list that occurs in
      the text, whatever its position in the text. */
  lemma LiteralCascadeFirstMatchWins(literals: seq<string>, s: string, k: nat)
    requires k < |literals| && Contains(s, literals[k])
    requires forall j :: 0 <= j < k ==> !Contains(s, literals[j])
    ensures FirstLiteral(literals, s) == Some(literals[k])
  {
    assert forall j :: 0 <= j < k ==> LiteralAt(literals, s)(j).None?;
    Search.LeftmostIs(LiteralAt(literals, s), |literals|, k, literals[k]);
  }

  lemma LiteralCascadeFound(literals: seq<string>, s: string) returns (k: nat)
    requires FirstLiteral(literals, s).Some?
    ensures k < |literals| && FirstLiteral(literals, s) == Some(literals[k]) && Contains(s, literals[k])
    ensures forall j :: 0 <= j < k ==> !Contains(s, literals[j])
  {
    k := Search.LeftmostSome(LiteralAt(literals, s), |literals|);
    forall j | 0 <= j < k
      ensures !Contains(s, literals[j])
    {
      assert LiteralAt(literals, s)(j).None?;
    }
  }

  /** "terraced house" wins whenever it is present, although "house" is
      present too. */
  lemma TerracedHouseWins(s: string)
    requires Contains(s, "terraced house")
    ensures FirstLiteral(PropertyTypes, s) == Some("terraced house")
  {
    LiteralCascadeFirstMatchWins(PropertyTypes, s, 0);
  }

  /** "apartment" beats "house" wherever each occurs in the text. */
  lemma ApartmentBeatsHouse(s: string)
    requires Contains(s, "apartment") && Contains(s, "house") && !Contains(s, "terraced house")
    ensures FirstLiteral(PropertyTypes, s) == Some("apartment")
  {
    LiteralCascadeFirstMatchWins(PropertyTypes, s, 1);
  }

  /** The completion year is the first four-digit run, or nothing: a later
      run in range is never used when the first is out of range. */
  lemma OnlyFirstFourDigitsCount(raw: string, i: nat)
    requires FourDigitsAt(raw, i).Some? && !(1900 < FourDigitsAt(raw, i).value < 2030)
    requires forall j :: 0 <= j < i ==> FourDigitsAt(raw, j).None?
    ensures CompletionYear(raw).None?
  {
    assert i < |raw|;
    Search.LeftmostIs((k: nat) => FourDigitsAt(raw, k), |raw|, i, FourDigitsAt(raw, i).value);
  }

  /** The energy certificate is a grade: a letter and possibly `+` or `-`. */
  lemma EnergyCertificateIsGrade(description: string, elementTexts: seq<string>)
    requires EnergyCertificate(description, elementTexts).Some?
    ensures IsGrade(EnergyCertificate(description, elementTexts).value)
  {
    if FirstGrade(description).Some? {
      FirstGradeIsGrade(description);
    } else {
      var e := Search.LeftmostSome(ElementGradeAt(elementTexts), |elementTexts|);
      FirstGradeIsGrade(elementTexts[e]);
    }
  }

  lemma FirstGradeIsGrade(s: string)
    requires FirstGrade(s).Some?
    ensures IsGrade(FirstGrade(s).value)
  {
    var k := Search.LeftmostSome(LabelAt(EnergyLabels, s), |EnergyLabels|);
    FoundGradeIsGrade(s, EnergyLabels[k]);
  }

  /** Where the certificate comes from: nothing without a description; the
      description when a label matches there, and the element texts are then
      ignored; the element texts only when no label matches the description. */
  lemma EnergyCertificateSources(description: string, elementTexts: seq<string>)
    ensures description == "" ==> EnergyCertificate(description, elementTexts).None?
    ensures description != "" && FirstGrade(description).Some? ==>
      forall other :: EnergyCertificate(description, other) == FirstGrade(description)
    ensures description != "" && FirstGrade(description).None? ==>
      EnergyCertificate(description, elementTexts) == GradeFromElements(elementTexts)
  {
  }

  /** The element fallback stops at the first element text a label matches. */
  lemma ElementFallbackStopsAtFirstHit(elementTexts: seq<string>, e: nat)
    requires e < |elementTexts| && FirstGrade(elementTexts[e]).Some?
    requires forall j :: 0 <= j < e ==> FirstGrade(elementTexts[j]).None?
    ensures GradeFromElements(elementTexts) == FirstGrade(elementTexts[e])
  {
    assert forall j :: 0 <= j < e ==> ElementGradeAt(elementTexts)(j).None?;
    Search.LeftmostIs(ElementGradeAt(elementTexts), |elementTexts|, e, FirstGrade(elementTexts[e]).value);
  }
}
