/** The feature parser of the main scraper (`extract_features_from_details`):
    ordered, first-match-wins pattern cascades over the features block of a
    listing page, and the energy certificate taken from the description or,
    failing that, from other page elements. */
module FeatureParser {
  import opened Wrappers
  import opened Text
  import opened Patterns
  import Search

  /** One pattern of a numeric cascade: `(\d+)\s*<token>` or the typology marker `t(\d+)`. */
  datatype NumberPattern = NumberBefore(token: string) | Typology

  const BathroomPatterns: seq<NumberPattern> :=
    [NumberBefore("bathroom"), NumberBefore("banho"), NumberBefore("casa de banho"),
     NumberBefore("wc"), NumberBefore("bath")]

  /** The typology marker is third, after "bedroom" and "quarto". */
  const BedroomPatterns: seq<NumberPattern> :=
    [NumberBefore("bedroom"), NumberBefore("quarto"), Typology,
     NumberBefore("quartos"), NumberBefore("room"), NumberBefore("hab")]

  /** Literals in priority order; "terraced house" is listed before "house". */
  const PropertyTypes: seq<string> :=
    ["terraced house", "apartment", "studio", "villa", "house", "flat", "penthouse"]

  const Statuses: seq<string> :=
    ["new build", "new construction", "renovated", "to renovate", "new home", "brand new"]

  const EnergyLabels: seq<string> :=
    ["Energy Rating:", "Energy Certificate:", "Energy certification:",
     "Certificado Energético:", "Classificação Energética:"]

  /** The three locators tried, in order, for the features block. */
  const FeatureSelectors: seq<string> := [".details-property_features", ".info-features", ".details-property"]

  const UpdateDateSelector := ".stats-text"

  datatype FeatureSet = FeatureSet(
    bathrooms: Option<nat>,
    bedrooms: Option<nat>,
    propertyTypeDetail: Option<string>,
    completionYear: Option<nat>,
    status: Option<string>,
    energyCertificate: Option<string>,
    updateDate: Option<string>,
    agency: Option<string>)

  const NoFeatures := FeatureSet(None, None, None, None, None, None, None, None)

  function SearchNumber(p: NumberPattern, s: string): Option<nat> {
    match p
    case NumberBefore(t) => SearchNumberBeforeToken(s, t)
    case Typology => SearchTypology(s)
  }

  /** Pattern `k` of a numeric cascade, applied to the whole text. */
  function NumberPatternAt(patterns: seq<NumberPattern>, s: string): nat -> Option<nat> {
    (k: nat) => if k < |patterns| then SearchNumber(patterns[k], s) else None
  }

  /** The value of the first pattern, in list order, that matches anywhere. */
  function FirstNumber(patterns: seq<NumberPattern>, s: string): Option<nat> {
    Search.Leftmost(NumberPatternAt(patterns, s), |patterns|)
  }

  function LiteralAt(literals: seq<string>, s: string): nat -> Option<string> {
    (k: nat) => if k < |literals| && Contains(s, literals[k]) then Some(literals[k]) else None
  }

  /** The first literal, in list order, that occurs in the text. */
  function FirstLiteral(literals: seq<string>, s: string): Option<string> {
    Search.Leftmost(LiteralAt(literals, s), |literals|)
  }

  function LabelAt(labels: seq<string>, s: string): nat -> Option<string> {
    (k: nat) => if k < |labels| then SearchLabelledGrade(s, labels[k]) else None
  }

  /** The grade captured by the first label pattern, in list order, that matches. */
  function FirstLabelledGrade(labels: seq<string>, s: string): Option<string> {
    Search.Leftmost(LabelAt(labels, s), |labels|)
  }

  function FirstGrade(s: string): Option<string> {
    FirstLabelledGrade(EnergyLabels, s)
  }

  function ElementGradeAt(texts: seq<string>): nat -> Option<string> {
    (e: nat) => if e < |texts| then FirstGrade(texts[e]) else None
  }

  /** The fallback: the first element text on which some label pattern matches. */
  function GradeFromElements(texts: seq<string>): Option<string> {
    Search.Leftmost(ElementGradeAt(texts), |texts|)
  }

  /** The energy certificate: looked for only when the description is not
      empty; the element texts are consulted only when no label pattern
      matched the description. */
  function EnergyCertificate(description: string, elementTexts: seq<string>): Option<string> {
    if description == "" then None
    else match FirstGrade(description)
      case Some(g) => Some(g)
      case None => GradeFromElements(elementTexts)
  }

  /** The first run of four digits, kept only when strictly between 1900 and
      2030; a year outside the range is dropped, not clamped. */
  function CompletionYear(raw: string): (r: Option<nat>)
    ensures r.Some? ==> 1900 < r.value < 2030 && SearchFourDigits(raw) == r
    ensures r.None? ==> SearchFourDigits(raw).None? || !(1900 < SearchFourDigits(raw).value < 2030)
  {
    match SearchFourDigits(raw)
    case Some(y) => if 1900 < y < 2030 then Some(y) else None
    case None => None
  }

  /** `safe_extract_text_js`: the stripped text of the element, "" when it is missing. */
  function SafeText(lookup: Option<string>): (r: string)
    ensures lookup.None? ==> r == ""
  {
    match lookup
    case Some(t) => Strip(t)
    case None => ""
  }

  /** The features text: the first non-empty of the three locators, or "". */
  function FeaturesText(textOf: string -> Option<string>): (r: string)
    ensures r != "" ==> exists k :: 0 <= k < |FeatureSelectors| && r == SafeText(textOf(FeatureSelectors[k]))
    ensures r == "" <==> forall k :: 0 <= k < |FeatureSelectors| ==> SafeText(textOf(FeatureSelectors[k])) == ""
  {
    var a := SafeText(textOf(FeatureSelectors[0]));
    var b := SafeText(textOf(FeatureSelectors[1]));
    var c := SafeText(textOf(FeatureSelectors[2]));
    if a != "" then a else if b != "" then b else c
  }

  /** The fields read from the features text; all None when it is empty. */
  function TextFeatures(text: string): FeatureSet {
    if text == "" then NoFeatures
    else
      var lower := Lower(text);
      NoFeatures.(
        bathrooms := FirstNumber(BathroomPatterns, lower),
        bedrooms := FirstNumber(BedroomPatterns, lower),
        propertyTypeDetail := FirstLiteral(PropertyTypes, lower),
        completionYear := CompletionYear(text),
        status := FirstLiteral(Statuses, lower))
  }

  /** What `extract_features_from_details` returns for a features text, the
      (already truncated) description, the `.stats-text` element and the texts
      of the elements the energy fallback finds. `agency` is always None here. */
  function ParseFeatures(text: string, description: string, updateLookup: Option<string>,
                         elementTexts: seq<string>): FeatureSet
  {
    TextFeatures(text).(
      energyCertificate := EnergyCertificate(description, elementTexts),
      updateDate := match updateLookup case Some(t) => Some(Strip(t)) case None => None)
  }

  /** One numeric cascade: `for pattern in patterns: ... break`. */
  method MatchNumberCascade(patterns: seq<NumberPattern>, text: string) returns (r: Option<nat>)
    ensures r == FirstNumber(patterns, text)
  {
    r := None;
    for i := 0 to |patterns|
      invariant forall k :: 0 <= k < i ==> NumberPatternAt(patterns, text)(k).None?
    {
      var m := SearchNumber(patterns[i], text);
      if m.Some? {
        Search.LeftmostIs(NumberPatternAt(patterns, text), |patterns|, i, m.value);
        r := m;
        return;
      }
    }
    Search.LeftmostNone(NumberPatternAt(patterns, text), |patterns|);
  }

  /** One literal cascade: the first literal of the list found in the text. */
  method MatchLiteralCascade(literals: seq<string>, text: string) returns (r: Option<string>)
    ensures r == FirstLiteral(literals, text)
  {
    r := None;
    for i := 0 to |literals|
      invariant forall k :: 0 <= k < i ==> LiteralAt(literals, text)(k).None?
    {
      if Contains(text, literals[i]) {
        Search.LeftmostIs(LiteralAt(literals, text), |literals|, i, literals[i]);
        r := Some(literals[i]);
        return;
      }
    }
    Search.LeftmostNone(LiteralAt(literals, text), |literals|);
  }

  /** The loop over the five energy label patterns, applied to one text. */
  method MatchEnergyLabels(text: string) returns (r: Option<string>)
    ensures r == FirstGrade(text)
  {
    r := None;
    for i := 0 to |EnergyLabels|
      invariant forall k :: 0 <= k < i ==> LabelAt(EnergyLabels, text)(k).None?
    {
      var m := SearchLabelledGrade(text, EnergyLabels[i]);
      if m.Some? {
        Search.LeftmostIs(LabelAt(EnergyLabels, text), |EnergyLabels|, i, m.value);
        r := m;
        return;
      }
    }
    Search.LeftmostNone(LabelAt(EnergyLabels, text), |EnergyLabels|);
  }

  /** The fallback loop over the element texts, stopping at the first hit. */
  method MatchElementTexts(elementTexts: seq<string>) returns (r: Option<string>)
    ensures r == GradeFromElements(elementTexts)
  {
    r := None;
    for e := 0 to |elementTexts|
      invariant forall j :: 0 <= j < e ==> FirstGrade(elementTexts[j]).None?
    {
      var g := MatchEnergyLabels(elementTexts[e]);
      if g.Some? {
        Search.LeftmostIs(ElementGradeAt(elementTexts), |elementTexts|, e, g.value);
        r := g;
        return;
      }
    }
    Search.LeftmostNone(ElementGradeAt(elementTexts), |elementTexts|);
  }

  /** The energy certificate: the description loop, then its `for ... else`
      fallback over the element texts. */
  method MatchEnergyCertificate(description: string, elementTexts: seq<string>) returns (r: Option<string>)
    ensures r == EnergyCertificate(description, elementTexts)
  {
    r := None;
    if description != "" {
      r := MatchEnergyLabels(description);
      if r.None? {
        r := MatchElementTexts(elementTexts);
      }
    }
  }

  /** The cascades over a non-empty features text, filling the record field by field. */
  method ParseFeaturesText(featuresText: string) returns (f: FeatureSet)
    requires featuresText != ""
    ensures f == TextFeatures(featuresText)
  {
    f := NoFeatures;
    var textLower := Lower(featuresText);
    var bathrooms := MatchNumberCascade(BathroomPatterns, textLower);
    f := f.(bathrooms := bathrooms);
    var bedrooms := MatchNumberCascade(BedroomPatterns, textLower);
    f := f.(bedrooms := bedrooms);
    var kind := MatchLiteralCascade(PropertyTypes, textLower);
    f := f.(propertyTypeDetail := kind);
    var year := SearchFourDigits(featuresText);
    if year.Some? && 1900 < year.value < 2030 {
      f := f.(completionYear := year);
    }
    var status := MatchLiteralCascade(Statuses, textLower);
    f := f.(status := status);
  }

  /** `extract_features_from_details`: the features text is the first
      non-empty of three locators; the result is the one `ParseFeatures`
      describes. */
  method ExtractFeaturesFromDetails(textOf: string -> Option<string>, description: string,
                                    elementTexts: seq<string>) returns (f: FeatureSet)
    ensures f == ParseFeatures(FeaturesText(textOf), description, textOf(UpdateDateSelector), elementTexts)
  {
    f := NoFeatures;
    var featuresText := SafeText(textOf(FeatureSelectors[0]));
    if featuresText == "" {
      featuresText := SafeText(textOf(FeatureSelectors[1]));
    }
    if featuresText == "" {
      featuresText := SafeText(textOf(FeatureSelectors[2]));
    }
    assert featuresText == FeaturesText(textOf);
    if featuresText != "" {
      f := ParseFeaturesText(featuresText);
    }
    match textOf(UpdateDateSelector) {
      case Some(t) => f := f.(updateDate := Some(Strip(t)));
      case None =>
    }
    var energy := MatchEnergyCertificate(description, elementTexts);
    f := f.(energyCertificate := energy);
  }
}
