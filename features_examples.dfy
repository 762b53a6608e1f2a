/** Worked inputs for the feature parser: the features text
    "T3, 2 bathrooms, apartment, 2021", the year range, and an energy rating
    in a description. */
module FeatureExamples {
  import opened Wrappers
  import opened Text
  import opened Patterns
  import opened FeatureParser
  import opened FeatureProperties
  import Search

  /** A number-before-token pattern can only start on a digit. */
  lemma NoNumberBeforeToken(s: string, token: string)
    requires forall i :: 0 <= i < |s| && IsDigit(s[i]) ==> NumberBeforeTokenAt(s, token, i).None?
    ensures SearchNumberBeforeToken(s, token).None?
  {
    Search.LeftmostNone((i: nat) => NumberBeforeTokenAt(s, token, i), |s|);
  }

  /** A literal can only occur where its first two characters do. */
  lemma NotContainedByFirstTwo(s: string, lit: string)
    requires |lit| >= 2
    requires forall i :: 0 <= i < |s| && s[i] == lit[0] && i + |lit| <= |s| ==> s[i + 1] != lit[1]
    ensures !Contains(s, lit)
  {
    forall i: nat | i <= |s|
      ensures !PrefixAt(s, i, lit)
    {
      if i + |lit| <= |s| {
        var w := s[i..i + |lit|];
        assert w[0] == s[i] && w[1] == s[i + 1];
      }
    }
  }

  const Example := "T3, 2 bathrooms, apartment, 2021"
  const ExampleLower := "t3, 2 bathrooms, apartment, 2021"

  lemma ExampleLowered()
    ensures Lower(Example) == ExampleLower
  {
  }

  lemma ExampleDigits()
    ensures forall i :: 0 <= i < |Example| && IsDigit(Example[i]) ==> i == 1 || i == 4 || 28 <= i
  {
  }

  lemma ExampleLowerDigits()
    ensures forall i :: 0 <= i < |ExampleLower| && IsDigit(ExampleLower[i]) ==> i == 1 || i == 4 || 28 <= i
  {
  }

  lemma ExampleLowerLetters()
    ensures forall i :: 0 <= i < |ExampleLower| && ExampleLower[i] == 't' ==> i == 0 || i == 8 || i == 21 || i == 25
    ensures forall i :: 0 <= i < |ExampleLower| && ExampleLower[i] == 'n' ==> i == 24
    ensures forall i :: 0 <= i < |ExampleLower| && ExampleLower[i] == 'r' ==> i == 10 || i == 20
    ensures forall i :: 0 <= i < |ExampleLower| && ExampleLower[i] == 'b' ==> i == 6
  {
  }

  /** Where the digit and whitespace runs of the lower-cased example end. */
  lemma ExampleRuns()
    ensures DigitRunEnd(ExampleLower, 1) == 2 && SpaceRunEnd(ExampleLower, 2) == 2
    ensures DigitRunEnd(ExampleLower, 4) == 5 && SpaceRunEnd(ExampleLower, 5) == 6
    ensures forall i :: 28 <= i < 32 ==> DigitRunEnd(ExampleLower, i) == 32
    ensures SpaceRunEnd(ExampleLower, 32) == 32
  {
    var s := ExampleLower;
    assert !IsDigit(s[2]) && !IsSpace(s[2]) && !IsDigit(s[5]) && !IsSpace(s[6]);
  }

  /** A token that is neither at index 6 nor starts with ',' follows no
      number in the example. */
  lemma ExampleNoNumberBefore(token: string)
    requires token != [] && token[0] != ','
    requires !PrefixAt(ExampleLower, 6, token)
    ensures SearchNumberBeforeToken(ExampleLower, token).None?
  {
    var s := ExampleLower;
    ExampleLowerDigits();
    ExampleRuns();
    assert !PrefixAt(s, 2, token);
    NoNumberBeforeToken(s, token);
  }

  lemma ExampleBathroomWord()
    ensures PrefixAt(ExampleLower, 6, "bathroom")
  {
    var w := ExampleLower[6..14];
    forall k | 0 <= k < 8
      ensures w[k] == "bathroom"[k]
    {
      assert w[k] == ExampleLower[6 + k];
    }
  }

  lemma ExampleBathrooms()
    ensures FirstNumber(BathroomPatterns, ExampleLower) == Some(2)
  {
    var s := ExampleLower;
    ExampleLowerDigits();
    ExampleRuns();
    assert NumberBeforeTokenAt(s, "bathroom", 1).None?;
    ExampleBathroomCount();
    Search.LeftmostIs((i: nat) => NumberBeforeTokenAt(s, "bathroom", i), |s|, 4, 2);
    NumberCascadeFirstMatchWins(BathroomPatterns, s, 0);
  }

  lemma ExampleBathroomCount()
    ensures NumberBeforeTokenAt(ExampleLower, "bathroom", 4) == Some(2)
  {
    var s := ExampleLower;
    ExampleRuns();
    ExampleBathroomWord();
    var w := s[4..5];
    assert w[0] == '2' && w[..0] == [];
  }

  lemma ExampleBedrooms()
    ensures FirstNumber(BedroomPatterns, ExampleLower) == Some(3)
  {
    var s := ExampleLower;
    assert s[7] != "bedroom"[1] && s[6] != "quarto"[0];
    ExampleNoNumberBefore("bedroom");
    ExampleNoNumberBefore("quarto");
    ExampleTypology();
    Search.LeftmostIs((i: nat) => TypologyAt(s, i), |s|, 0, 3);
    TypologyDecidesBeforeRoom(s);
  }

  lemma ExampleTypology()
    ensures TypologyAt(ExampleLower, 0) == Some(3)
  {
    var s := ExampleLower;
    assert DigitRunEnd(s, 1) == 2 by { ExampleRuns(); }
    var w := s[1..2];
    assert w[0] == '3' && w[..0] == [];
  }

  lemma ExampleType()
    ensures FirstLiteral(PropertyTypes, ExampleLower) == Some("apartment")
  {
    var s := ExampleLower;
    ExampleLowerLetters();
    NotContainedByFirstTwo(s, "terraced house");
    assert PrefixAt(s, 17, "apartment");
    LiteralCascadeFirstMatchWins(PropertyTypes, s, 1);
  }

  lemma ExampleStatus()
    ensures FirstLiteral(Statuses, ExampleLower).None?
  {
    var s := ExampleLower;
    ExampleLowerLetters();
    NotContainedByFirstTwo(s, "new build");
    NotContainedByFirstTwo(s, "new construction");
    NotContainedByFirstTwo(s, "renovated");
    NotContainedByFirstTwo(s, "to renovate");
    NotContainedByFirstTwo(s, "new home");
    NotContainedByFirstTwo(s, "brand new");
    Search.LeftmostNone(LiteralAt(Statuses, s), |Statuses|);
  }

  /** Four digits at `i` give their decimal value. */
  lemma FourDigitsValue(s: string, i: nat)
    requires i + 4 <= |s|
    requires IsDigit(s[i]) && IsDigit(s[i + 1]) && IsDigit(s[i + 2]) && IsDigit(s[i + 3])
    ensures FourDigitsAt(s, i) == Some(1000 * DigitValue(s[i]) + 100 * DigitValue(s[i + 1])
                                       + 10 * DigitValue(s[i + 2]) + DigitValue(s[i + 3]))
  {
    var w := s[i..i + 4];
    assert w[0] == s[i] && w[1] == s[i + 1] && w[2] == s[i + 2] && w[3] == s[i + 3];
    assert AllDigits(w);
    var w3 := w[..3];
    var w2 := w3[..2];
    var w1 := w2[..1];
    assert w3[2] == w[2] && w2[1] == w[1] && w1[0] == w[0] && w1[..0] == [];
    assert DigitsValue(w1) == DigitValue(w[0]);
    assert DigitsValue(w2) == DigitsValue(w1) * 10 + DigitValue(w[1]);
    assert DigitsValue(w3) == DigitsValue(w2) * 10 + DigitValue(w[2]);
    assert DigitsValue(w) == DigitsValue(w3) * 10 + DigitValue(w[3]);
  }

  /** No four-digit run starts before `i` when every digit there is
      followed by a non-digit. */
  lemma NoYearBefore(s: string, i: nat)
    requires i < |s|
    requires forall j :: 0 <= j < i && IsDigit(s[j]) ==> !IsDigit(s[j + 1])
    ensures forall j :: 0 <= j < i ==> FourDigitsAt(s, j).None?
  {
    forall j | 0 <= j < i
      ensures FourDigitsAt(s, j).None?
    {
      if j + 4 <= |s| {
        var w := s[j..j + 4];
        assert w[0] == s[j] && w[1] == s[j + 1];
      }
    }
  }

  lemma ExampleYear()
    ensures CompletionYear(Example) == Some(2021)
  {
    var s := Example;
    assert forall j :: 0 <= j < 28 && IsDigit(s[j]) ==> !IsDigit(s[j + 1]) by {
      ExampleDigits();
    }
    NoYearBefore(s, 28);
    FourDigitsValue(s, 28);
    Search.LeftmostIs((k: nat) => FourDigitsAt(s, k), |s|, 28, 2021);
  }

  const RenovatedText := "Built 1850, renovated 2020"

  lemma RenovatedDigits()
    ensures forall i :: 0 <= i < 6 ==> !IsDigit(RenovatedText[i])
  {
  }

  /** The first four-digit run decides: "Built 1850, renovated 2020" has no
      completion year although 2020 is in range. */
  lemma FirstYearOutOfRange()
    ensures CompletionYear(RenovatedText).None?
  {
    var s := RenovatedText;
    RenovatedDigits();
    NoYearBefore(s, 6);
    FourDigitsValue(s, 6);
    Search.LeftmostIs((k: nat) => FourDigitsAt(s, k), |s|, 6, 1850);
  }

  const DeliveryText := "Delivery in 2025"

  lemma DeliveryDigits()
    ensures forall i :: 0 <= i < 12 ==> !IsDigit(DeliveryText[i])
  {
  }

  /** A year strictly inside the range is kept. */
  lemma YearInRange()
    ensures CompletionYear(DeliveryText) == Some(2025)
  {
    var s := DeliveryText;
    DeliveryDigits();
    NoYearBefore(s, 12);
    FourDigitsValue(s, 12);
    Search.LeftmostIs((k: nat) => FourDigitsAt(s, k), |s|, 12, 2025);
  }

  const RatedDescription := "Energy Rating: B+"

  /** A description that opens with the first label yields the grade after
      it, and the element texts are then never consulted. */
  lemma DescriptionGrade(elementTexts: seq<string>)
    ensures EnergyCertificate(RatedDescription, elementTexts) == Some("B+")
  {
    var s := RatedDescription;
    var caption := EnergyLabels[0];
    assert s[0..|caption|] == caption by {
      forall k | 0 <= k < |caption|
        ensures s[0..|caption|][k] == caption[k]
      {
        assert s[0..|caption|][k] == s[k];
      }
    }
    assert SpaceRunEnd(s, 14) == 15 by {
      assert IsSpace(s[14]) && !IsSpace(s[15]);
    }
    assert s[15..17] == "B+";
    assert LabelledGradeAt(s, caption, 0) == Some("B+");
    Search.LeftmostIs((k: nat) => LabelledGradeAt(s, caption, k), |s|, 0, "B+");
    Search.LeftmostIs(LabelAt(EnergyLabels, s), |EnergyLabels|, 0, "B+");
  }

  /** "T3, 2 bathrooms, apartment, 2021" gives 3 bedrooms, 2 bathrooms, an
      apartment and the year 2021. */
  lemma ParseFeaturesExample(description: string, updateLookup: Option<string>, elementTexts: seq<string>)
    ensures var f := ParseFeatures(Example, description, updateLookup, elementTexts);
      && f.bedrooms == Some(3) && f.bathrooms == Some(2)
      && f.propertyTypeDetail == Some("apartment") && f.completionYear == Some(2021)
      && f.status.None?
  {
    ExampleLowered();
    ExampleBathrooms();
    ExampleBedrooms();
    ExampleType();
    ExampleStatus();
    ExampleYear();
  }
}
