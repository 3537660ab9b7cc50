/**
 * The shared helpers of the relocation matrix: a nationality-free copy of the
 * score formula, the match percentage against a fixed maximum, percentage
 * formatting, the password rule, the initial weights and the criterion labels.
 */
module Utils {
  import opened Wrappers
  import opened JsObject
  import JsMath
  import MatrixScoring

  /** The super-weighted criteria, as this file lists them again. */
  const SuperWeighted: seq<string> :=
    ["purchasing_power", "language_barrier", "career_opportunities", "visa_ease"]

  /** What one weight entry adds in `calculateScore`: no nationality multiplier. */
  function Term(criteria: map<string, real>, key: string, weight: real): real {
    (MatrixScoring.RawScore(criteria, key) * weight * (if key in SuperWeighted then 10.0 else 1.0)) / 10.0
  }

  /** The exact sum `calculateScore` rounds: the terms of the weight entries in order. */
  function ScoreSum(weights: Record, criteria: map<string, real>): real
    decreases |weights|
  {
    if weights == [] then 0.0
    else
      var last := weights[|weights| - 1];
      ScoreSum(weights[..|weights| - 1], criteria) + Term(criteria, last.key, last.value)
  }

  /** `calculateScore`: the rounded sum over the weight entries. */
  method CalculateScore(weights: Record, criteria: map<string, real>) returns (r: int)
    ensures r == JsMath.Round(ScoreSum(weights, criteria))
  {
    var score := 0.0;
    for i := 0 to |weights|
      invariant score == ScoreSum(weights[..i], criteria)
    {
      var key, weight := weights[i].key, weights[i].value;
      var criteriaScore := MatrixScoring.RawScore(criteria, key);
      var multiplier := if key in SuperWeighted then 10.0 else 1.0;
      ScoreSumStep(weights, criteria, i);
      score := score + (criteriaScore * weight * multiplier) / 10.0;
    }
    assert weights[..|weights|] == weights;
    r := JsMath.Round(score);
  }

  lemma ScoreSumStep(weights: Record, criteria: map<string, real>, i: nat)
    requires i < |weights|
    ensures ScoreSum(weights[..i + 1], criteria)
         == ScoreSum(weights[..i], criteria) + Term(criteria, weights[i].key, weights[i].value)
  {
    assert weights[..i + 1][..i] == weights[..i];
  }

  /** Both files list the same super-weighted criteria. */
  lemma SameSuperWeighted()
    ensures SuperWeighted == MatrixScoring.SuperWeighted
  {
  }

  /** Without a nationality multiplier row, a term is the matrix's contribution. */
  lemma TermIsContribution(table: MatrixScoring.MultiplierTable, nationality: string,
                           criteria: map<string, real>, key: string, weight: real)
    requires nationality !in table
    ensures Term(criteria, key, weight) == MatrixScoring.Contribution(table, nationality, criteria, key, weight)
  {
    var r, f := MatrixScoring.RawScore(criteria, key), MatrixScoring.SuperFactor(key);
    assert MatrixScoring.NationalityMultiplier(table, nationality, key) == 1.0;
    assert r * 1.0 * weight * f == r * weight * f;
  }

  /**
   * For a nationality without a multiplier row the matrix computes exactly the sum
   * `calculateScore` rounds.
   */
  lemma {:induction false} ScoreSumIsMatrixScore(table: MatrixScoring.MultiplierTable, nationality: string,
                                                 weights: Record, criteria: map<string, real>)
    requires nationality !in table
    ensures ScoreSum(weights, criteria) == MatrixScoring.UnroundedScore(table, nationality, criteria, weights)
    decreases |weights|
  {
    if weights != [] {
      var last := weights[|weights| - 1];
      ScoreSumIsMatrixScore(table, nationality, weights[..|weights| - 1], criteria);
      TermIsContribution(table, nationality, criteria, last.key, last.value);
    }
  }

  /** So for "CA", "AU" and "Other" the two files give a city the same score. */
  lemma CalculateScoreMatchesMatrix(weights: Record, city: MatrixScoring.City, nationality: string)
    requires nationality in ["CA", "AU", "Other"]
    ensures JsMath.Round(ScoreSum(weights, city.criteria))
         == MatrixScoring.Scored(MatrixScoring.NationalityMultipliers, nationality, weights, city).score
  {
    assert nationality !in MatrixScoring.NationalityMultipliers;
    ScoreSumIsMatrixScore(MatrixScoring.NationalityMultipliers, nationality, weights, city.criteria);
  }

  // ----- calculateMatchPercent -----

  /** The default `maxScore` of `calculateMatchPercent`. */
  const DefaultMaxScore: real := 590.0

  /**
   * `Math.max(0, Math.min(100, score / maxScore * 100))`: clamped, not rounded. Against a
   * zero maximum the quotient is an infinity, which the clamp turns into 100 for a positive
   * score and 0 for a negative one; 0 / 0 is NaN and is excluded.
   */
  function CalculateMatchPercent(score: real, maxScore: real): (p: real)
    requires maxScore != 0.0 || score != 0.0
    ensures 0.0 <= p <= 100.0
    ensures maxScore == 0.0 && score > 0.0 ==> p == 100.0
    ensures maxScore == 0.0 && score < 0.0 ==> p == 0.0
    ensures maxScore != 0.0 && 0.0 <= score / maxScore * 100.0 <= 100.0 ==> p == score / maxScore * 100.0
    ensures maxScore != 0.0 && score / maxScore * 100.0 < 0.0 ==> p == 0.0
    ensures maxScore != 0.0 && score / maxScore * 100.0 > 100.0 ==> p == 100.0
  {
    if maxScore == 0.0 then (if score > 0.0 then 100.0 else 0.0)
    else
      var ratio := score / maxScore * 100.0;
      if ratio < 0.0 then 0.0 else if ratio > 100.0 then 100.0 else ratio
  }

  /** A higher score never gets a lower match against a positive maximum. */
  lemma MatchPercentMonotone(s1: real, s2: real, maxScore: real)
    requires maxScore > 0.0 && s1 <= s2
    ensures CalculateMatchPercent(s1, maxScore) <= CalculateMatchPercent(s2, maxScore)
  {
    assert s1 / maxScore <= s2 / maxScore;
  }

  /** Against the default maximum, 590 points and more are a full match and 295 is half. */
  lemma DefaultMatchPercent(score: real)
    ensures score >= DefaultMaxScore ==> CalculateMatchPercent(score, DefaultMaxScore) == 100.0
    ensures score <= 0.0 ==> CalculateMatchPercent(score, DefaultMaxScore) == 0.0
    ensures CalculateMatchPercent(295.0, DefaultMaxScore) == 50.0
  {
    assert score >= DefaultMaxScore ==> score / DefaultMaxScore * 100.0 >= 100.0;
  }

  // ----- formatPercentage -----

  function DigitChar(d: nat): (c: char)
    requires d < 10
    ensures '0' <= c <= '9'
  {
    "0123456789"[d]
  }

  predicate AllDigits(s: string) {
    forall i :: 0 <= i < |s| ==> '0' <= s[i] <= '9'
  }

  /** The decimal digits of `n`, without leading zeros. */
  function NatToDecimal(n: nat): (s: string)
    ensures |s| >= 1 && AllDigits(s)
    ensures |s| > 1 ==> s[0] != '0'
    decreases n
  {
    if n < 10 then [DigitChar(n)] else NatToDecimal(n / 10) + [DigitChar(n % 10)]
  }

  /** `${n}` for an integer `n`. */
  function IntToDecimal(n: int): string {
    if n < 0 then "-" + NatToDecimal(-n) else NatToDecimal(n)
  }

  /** `formatPercentage`: the rounded value followed by a percent sign. */
  function FormatPercentage(value: real): string {
    IntToDecimal(JsMath.Round(value)) + "%"
  }

  /** Reads a string of decimal digits back as a number. */
  function DecimalToNat(s: string): nat
    requires AllDigits(s)
    decreases |s|
  {
    if s == [] then 0
    else DecimalToNat(s[..|s| - 1]) * 10 + ((s[|s| - 1] as int) - ('0' as int))
  }

  /** Reads a formatted percentage back; `None` for text of another shape. */
  function ParsePercentage(s: string): Option<int> {
    if |s| < 2 || s[|s| - 1] != '%' then None
    else
      var body := s[..|s| - 1];
      if body[0] == '-' && |body| >= 2 && AllDigits(body[1..]) then Some(-(DecimalToNat(body[1..]) as int))
      else if AllDigits(body) then Some(DecimalToNat(body))
      else None
  }

  lemma {:induction false} DecimalRoundTrip(n: nat)
    ensures DecimalToNat(NatToDecimal(n)) == n
    decreases n
  {
    if n >= 10 {
      DecimalRoundTrip(n / 10);
      var s := NatToDecimal(n);
      assert s[..|s| - 1] == NatToDecimal(n / 10);
      assert (s[|s| - 1] as int) - ('0' as int) == n % 10 by {
        assert s[|s| - 1] == DigitChar(n % 10);
      }
    } else {
      var s := NatToDecimal(n);
      assert s[..0] == [];
      assert (s[0] as int) - ('0' as int) == n by {
        assert s[0] == DigitChar(n);
      }
    }
  }

  /** An integer written out and followed by '%' reads back as that integer. */
  lemma IntRoundTrip(n: int)
    ensures ParsePercentage(IntToDecimal(n) + "%") == Some(n)
  {
    if n < 0 {
      var digits := NatToDecimal(-n);
      assert ("-" + digits)[1..] == digits;
      DecimalRoundTrip(-n);
      ParseNegative("-" + digits);
    } else {
      DecimalRoundTrip(n);
      ParseNonNegative(NatToDecimal(n));
    }
  }

  /** A minus sign and digits, followed by '%', read as the negated number. */
  lemma ParseNegative(body: string)
    requires |body| >= 2 && body[0] == '-' && AllDigits(body[1..])
    ensures ParsePercentage(body + "%") == Some(-(DecimalToNat(body[1..]) as int))
  {
    assert (body + "%")[..|body + "%"| - 1] == body;
  }

  /** Digits followed by '%' read as their number. */
  lemma ParseNonNegative(body: string)
    requires |body| >= 1 && AllDigits(body)
    ensures ParsePercentage(body + "%") == Some(DecimalToNat(body))
  {
    assert (body + "%")[..|body + "%"| - 1] == body;
    assert body[0] != '-';
  }

  /** The formatted text names exactly the rounded value. */
  lemma FormatParse(value: real)
    ensures ParsePercentage(FormatPercentage(value)) == Some(JsMath.Round(value))
  {
    IntRoundTrip(JsMath.Round(value));
  }

  // ----- validatePassword -----

  /** `validatePassword`: at least six characters. */
  function ValidatePassword(password: string): (ok: bool)
    ensures ok <==> |password| >= 6
  {
    |password| >= 6
  }

  // ----- getInitialWeights -----

  /** The seventeen criteria, in the order the weights and labels list them. */
  const CriterionKeys: seq<string> := [
    "safety", "quality_of_life", "education", "climate", "tech_hub", "passport_strength",
    "citizenship_time", "cost_of_living", "healthcare", "tax_rate", "tech_salaries",
    "expat_community", "economic_future", "purchasing_power", "language_barrier",
    "career_opportunities", "visa_ease"]

  /** `getInitialWeights` */
  function GetInitialWeights(): Record {
    [
      Entry("safety", 5.0),
      Entry("quality_of_life", 5.0),
      Entry("education", 3.0),
      Entry("climate", 3.0),
      Entry("tech_hub", 5.0),
      Entry("passport_strength", 3.0),
      Entry("citizenship_time", 2.0),
      Entry("cost_of_living", 5.0),
      Entry("healthcare", 4.0),
      Entry("tax_rate", 4.0),
      Entry("tech_salaries", 10.0),
      Entry("expat_community", 3.0),
      Entry("economic_future", 4.0),
      Entry("purchasing_power", 10.0),
      Entry("language_barrier", 10.0),
      Entry("career_opportunities", 10.0),
      Entry("visa_ease", 10.0)
    ]
  }

  /**
   * The initial weights are the matrix's defaults: the seventeen criteria once each,
   * every super-weighted criterion at 10, and `tech_salaries` at 10 as well.
   */
  lemma InitialWeightsShape()
    ensures GetInitialWeights() == MatrixScoring.DefaultWeights
    ensures |GetInitialWeights()| == 17
    ensures forall i :: 0 <= i < 17 ==> GetInitialWeights()[i].key == CriterionKeys[i]
    ensures forall i :: 13 <= i < 17 ==>
              GetInitialWeights()[i].key in SuperWeighted && GetInitialWeights()[i].value == 10.0
    ensures GetInitialWeights()[10] == Entry("tech_salaries", 10.0) && "tech_salaries" !in SuperWeighted
  {
  }

  // ----- getCriteriaLabel -----

  /** The label table. */
  const Labels: map<string, string> := map[
    "safety" := "🛡️ Safety",
    "quality_of_life" := "🏡 Quality of Life",
    "education" := "🎓 Education",
    "climate" := "☀️ Climate",
    "tech_hub" := "🏢 Tech Hub",
    "passport_strength" := "🛂 Passport Strength",
    "citizenship_time" := "⏱️ Citizenship Time",
    "cost_of_living" := "💰 Cost of Living",
    "healthcare" := "🏥 Healthcare",
    "tax_rate" := "📊 Tax Rate",
    "tech_salaries" := "💻 Tech Salaries",
    "expat_community" := "🌐 Expat Community",
    "economic_future" := "📈 Economic Future",
    "purchasing_power" := "💎 Purchasing Power",
    "language_barrier" := "🗣️ Language Barrier",
    "career_opportunities" := "👔 Career Opportunities",
    "visa_ease" := "✈️ Visa/Relocation Ease"
  ]

  /** `labels[key] || key`: the table's label, or the key itself. */
  function GetCriteriaLabel(key: string): (text: string)
    ensures key !in Labels ==> text == key
  {
    if key in Labels && Labels[key] != "" then Labels[key] else key
  }

  /** Exactly the seventeen criteria have a label, and each gets its own. */
  lemma LabelsCoverCriteria()
    ensures Labels.Keys == set k | k in CriterionKeys
    ensures forall k :: k in Labels ==> GetCriteriaLabel(k) == Labels[k] && GetCriteriaLabel(k) != k
  {
  }
}
