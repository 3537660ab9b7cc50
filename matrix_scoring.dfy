/**
 * The city scoring engine of the relocation matrix: the nationality multiplier
 * table, the per-criterion contribution, the weighted sum over the weight keys,
 * and the rounded score and clamped match percentage of one city.
 */
module MatrixScoring {
  import opened Wrappers
  import opened JsObject
  import JsMath

  /** The weights the matrix starts with; `tech_salaries` is standard but starts at 10. */
  const DefaultWeights: Record := [
    Entry("safety", 5.0),
    Entry("quality_of_life", 5.0),
    Entry("education", 3.0),
    Entry("climate", 3.0),
    Entry("tech_hub", 5.0),
    Entry("passport_strength", 3.0),
    Entry("citizenship_time", 2.0),
    Entry("cost_of_living", 5.0),
    Entry("healthcare", 4.0),
    Entry("tax_rate", 4.0),
    Entry("tech_salaries", 10.0),
    Entry("expat_community", 3.0),
    Entry("economic_future", 4.0),
    Entry("purchasing_power", 10.0),
    Entry("language_barrier", 10.0),
    Entry("career_opportunities", 10.0),
    Entry("visa_ease", 10.0)
  ]

  /** The criteria whose contribution counts ten times. */
  const SuperWeighted: seq<string> :=
    ["purchasing_power", "language_barrier", "career_opportunities", "visa_ease"]

  /** Multipliers per nationality and criterion; a missing entry means 1.0. */
  type MultiplierTable = map<string, map<string, real>>

  /** The multipliers the matrix uses. */
  const NationalityMultipliers: MultiplierTable := map[
    "US" := map[
      "language_barrier" := 0.7,
      "passport_strength" := 0.9,
      "visa_ease" := 0.85,
      "tax_rate" := 1.3,
      "expat_community" := 0.8],
    "UA" := map[
      "language_barrier" := 1.1,
      "passport_strength" := 1.2,
      "visa_ease" := 1.3,
      "tax_rate" := 0.9,
      "expat_community" := 1.1],
    "GB" := map[
      "language_barrier" := 0.6,
      "passport_strength" := 0.85,
      "visa_ease" := 0.8,
      "expat_community" := 0.7],
    "DE" := map[
      "language_barrier" := 1.0,
      "passport_strength" := 0.85,
      "visa_ease" := 0.85]
  ]

  const DefaultNationality: string := "US"

  /** The nationalities the selector offers; the last three have no multiplier row. */
  const Nationalities: seq<string> := ["US", "UA", "GB", "DE", "CA", "AU", "Other"]

  /** The normalisation constant of the match percentage. */
  const MaxScore: real := 100.0 * 10.0

  /** A catalog entry; its criteria map holds the raw 1-10 scores. */
  datatype City = City(rank: int, name: string, country: string, emoji: string, criteria: map<string, real>)

  /** One line of the per-criterion breakdown attached to a scored city. */
  datatype Detail = Detail(criteria: string, score: real, weight: real, nationalityMultiplier: real)

  /** A catalog entry after scoring: the city's own fields plus score, match and breakdown. */
  datatype RankedCity = RankedCity(
    rank: int, name: string, country: string, emoji: string, criteria: map<string, real>,
    score: int, matchPercent: int, details: seq<Detail>)

  /** Every multiplier in the table is positive. */
  predicate PositiveTable(table: MultiplierTable) {
    forall n, k :: n in table && k in table[n] ==> table[n][k] > 0.0
  }

  /** `NATIONALITY_MULTIPLIERS[nationality]?.[criterion] ?? 1.0` */
  function NationalityMultiplier(table: MultiplierTable, nationality: string, criterion: string): (m: real)
    ensures nationality in table && criterion in table[nationality] ==> m == table[nationality][criterion]
    ensures nationality in table && criterion !in table[nationality] ==> m == 1.0
    ensures nationality !in table ==> m == 1.0
    ensures PositiveTable(table) ==> m > 0.0
  {
    if nationality in table && criterion in table[nationality]
    then table[nationality][criterion]
    else 1.0
  }

  /** `city.criteria[key] || 5`: an absent or zero raw score reads as 5. */
  function RawScore(criteria: map<string, real>, key: string): (r: real)
    ensures r != 0.0
    ensures key in criteria && criteria[key] != 0.0 ==> r == criteria[key]
    ensures key !in criteria || criteria[key] == 0.0 ==> r == 5.0
  {
    if key in criteria && criteria[key] != 0.0 then criteria[key] else 5.0
  }

  function SuperFactor(key: string): real {
    if key in SuperWeighted then 10.0 else 1.0
  }

  /** What one weight entry adds to a city's score. */
  function Contribution(table: MultiplierTable, nationality: string, criteria: map<string, real>,
                        key: string, weight: real): real
  {
    (RawScore(criteria, key) * NationalityMultiplier(table, nationality, key) * weight * SuperFactor(key)) / 10.0
  }

  /** The exact (unrounded) score: the contributions of the weight entries, summed in order. */
  function UnroundedScore(table: MultiplierTable, nationality: string, criteria: map<string, real>,
                          weights: Record): real
    decreases |weights|
  {
    if weights == [] then 0.0
    else
      var last := weights[|weights| - 1];
      UnroundedScore(table, nationality, criteria, weights[..|weights| - 1])
        + Contribution(table, nationality, criteria, last.key, last.value)
  }

  /** The breakdown line for one weight entry: the adjusted score, the weight and the multiplier. */
  function Line(table: MultiplierTable, nationality: string, criteria: map<string, real>,
                key: string, weight: real): (d: Detail)
    ensures d.criteria == key && d.weight == weight
    ensures d.nationalityMultiplier == NationalityMultiplier(table, nationality, key)
    ensures d.score == RawScore(criteria, key) * d.nationalityMultiplier
  {
    var m := NationalityMultiplier(table, nationality, key);
    Detail(key, RawScore(criteria, key) * m, weight, m)
  }

  /** The breakdown pushed by the scoring loop, one line per weight entry. */
  function Details(table: MultiplierTable, nationality: string, criteria: map<string, real>,
                   weights: Record): (ds: seq<Detail>)
    ensures |ds| == |weights|
    ensures forall i :: 0 <= i < |weights| ==> ds[i] == Line(table, nationality, criteria, weights[i].key, weights[i].value)
    decreases |weights|
  {
    if weights == [] then []
    else
      var last := weights[|weights| - 1];
      Details(table, nationality, criteria, weights[..|weights| - 1])
        + [Line(table, nationality, criteria, last.key, last.value)]
  }

  /** `Math.max(0, Math.min(100, Math.round(score / maxScore * 100)))` */
  function MatchPercent(unrounded: real): (p: int)
    ensures 0 <= p <= 100
    ensures 0 <= JsMath.Round(unrounded / MaxScore * 100.0) <= 100 ==> p == JsMath.Round(unrounded / MaxScore * 100.0)
    ensures JsMath.Round(unrounded / MaxScore * 100.0) < 0 ==> p == 0
    ensures JsMath.Round(unrounded / MaxScore * 100.0) > 100 ==> p == 100
  {
    JsMath.Clamp(0, 100, JsMath.Round(unrounded / MaxScore * 100.0))
  }

  /** The object the scoring callback returns for one catalog city. */
  function Scored(table: MultiplierTable, nationality: string, weights: Record, city: City): (rc: RankedCity)
    ensures rc.rank == city.rank && rc.name == city.name && rc.country == city.country
    ensures rc.emoji == city.emoji && rc.criteria == city.criteria
    ensures rc.score == JsMath.Round(UnroundedScore(table, nationality, city.criteria, weights))
    ensures rc.matchPercent == MatchPercent(UnroundedScore(table, nationality, city.criteria, weights))
    ensures 0 <= rc.matchPercent <= 100
    ensures rc.details == Details(table, nationality, city.criteria, weights)
    ensures |rc.details| == |weights|
  {
    var s := UnroundedScore(table, nationality, city.criteria, weights);
    RankedCity(city.rank, city.name, city.country, city.emoji, city.criteria,
               JsMath.Round(s), MatchPercent(s), Details(table, nationality, city.criteria, weights))
  }

  /**
   * The scoring callback: walks the weight entries in order, accumulating the
   * contributions and pushing a breakdown line for each.
   */
  method ScoreCity(table: MultiplierTable, nationality: string, weights: Record, city: City) returns (rc: RankedCity)
    ensures rc == Scored(table, nationality, weights, city)
  {
    var score := 0.0;
    var details: seq<Detail> := [];
    for i := 0 to |weights|
      invariant score == UnroundedScore(table, nationality, city.criteria, weights[..i])
      invariant details == Details(table, nationality, city.criteria, weights[..i])
    {
      var contributed, line := ScoreEntry(table, nationality, city.criteria, weights[i].key, weights[i].value);
      UnroundedScoreStep(table, nationality, city.criteria, weights, i);
      DetailsStep(table, nationality, city.criteria, weights, i);
      score := score + contributed;
      details := details + [line];
    }
    assert weights[..|weights|] == weights;
    rc := RankedCity(city.rank, city.name, city.country, city.emoji, city.criteria,
                     JsMath.Round(score), MatchPercent(score), details);
    ScoredFrom(table, nationality, weights, city, score, details);
  }

  /** The body of the scoring callback for one `[criteria, weight]` entry. */
  method ScoreEntry(table: MultiplierTable, nationality: string, criteria: map<string, real>,
                    key: string, weight: real) returns (contributed: real, line: Detail)
    ensures contributed == Contribution(table, nationality, criteria, key, weight)
    ensures line == Line(table, nationality, criteria, key, weight)
  {
    var cityCriteriaScore := RawScore(criteria, key);
    var superMultiplier := SuperFactor(key);
    var nationalityMult := NationalityMultiplier(table, nationality, key);
    var finalScore := cityCriteriaScore * nationalityMult;
    contributed := (finalScore * weight * superMultiplier) / 10.0;
    line := Detail(key, finalScore, weight, nationalityMult);
  }

  /** The object built from the loop's final sum and breakdown is the scored city. */
  lemma ScoredFrom(table: MultiplierTable, nationality: string, weights: Record, city: City,
                   score: real, details: seq<Detail>)
    requires score == UnroundedScore(table, nationality, city.criteria, weights)
    requires details == Details(table, nationality, city.criteria, weights)
    ensures RankedCity(city.rank, city.name, city.country, city.emoji, city.criteria,
                       JsMath.Round(score), MatchPercent(score), details)
         == Scored(table, nationality, weights, city)
  {
  }

  lemma UnroundedScoreStep(table: MultiplierTable, nationality: string, criteria: map<string, real>,
                           weights: Record, i: nat)
    requires i < |weights|
    ensures UnroundedScore(table, nationality, criteria, weights[..i + 1])
         == UnroundedScore(table, nationality, criteria, weights[..i])
            + Contribution(table, nationality, criteria, weights[i].key, weights[i].value)
  {
    assert weights[..i + 1][..i] == weights[..i];
  }

  lemma DetailsStep(table: MultiplierTable, nationality: string, criteria: map<string, real>,
                    weights: Record, i: nat)
    requires i < |weights|
    ensures Details(table, nationality, criteria, weights[..i + 1])
         == Details(table, nationality, criteria, weights[..i]) + [Line(table, nationality, criteria, weights[i].key, weights[i].value)]
  {
    assert weights[..i + 1][..i] == weights[..i];
  }

  // ----- Properties of the engine -----

  /** The three nationalities without a table row get multiplier 1.0 on every criterion. */
  lemma RowlessNationalities(criterion: string)
    ensures NationalityMultiplier(NationalityMultipliers, "CA", criterion) == 1.0
    ensures NationalityMultiplier(NationalityMultipliers, "AU", criterion) == 1.0
    ensures NationalityMultiplier(NationalityMultipliers, "Other", criterion) == 1.0
  {
  }

  /**
   * The selector offers the default and every nationality that has a multiplier row;
   * of the nationalities it offers, exactly "CA", "AU" and "Other" have none.
   */
  lemma OfferedNationalities(n: string)
    ensures DefaultNationality in Nationalities
    ensures n in NationalityMultipliers ==> n in Nationalities
    ensures n in Nationalities && n !in NationalityMultipliers <==> n == "CA" || n == "AU" || n == "Other"
  {
  }

  /** The table the matrix uses has only positive multipliers. */
  lemma MultipliersPositive()
    ensures PositiveTable(NationalityMultipliers)
  {
  }

  /** Where two cities have the same raw score on a key, they get the same contribution for it. */
  lemma SameRawSameContribution(table: MultiplierTable, nationality: string,
                                c1: map<string, real>, c2: map<string, real>, key: string, w: real)
    requires RawScore(c1, key) == RawScore(c2, key)
    ensures Contribution(table, nationality, c1, key, w) == Contribution(table, nationality, c2, key, w)
  {
  }

  /** Two criteria maps that read the same raw score on every key except `k`. */
  ghost predicate AgreeExcept(c1: map<string, real>, c2: map<string, real>, k: string) {
    forall key :: key != k ==> RawScore(c1, key) == RawScore(c2, key)
  }

  /** Cities whose raw scores agree on every weighted key get the same exact score. */
  lemma {:induction false} SameRawSameScore(table: MultiplierTable, nationality: string,
                                            c1: map<string, real>, c2: map<string, real>, weights: Record)
    requires forall i :: 0 <= i < |weights| ==> RawScore(c1, weights[i].key) == RawScore(c2, weights[i].key)
    ensures UnroundedScore(table, nationality, c1, weights) == UnroundedScore(table, nationality, c2, weights)
    decreases |weights|
  {
    if weights != [] {
      var init := weights[..|weights| - 1];
      var last := weights[|weights| - 1];
      assert forall i :: 0 <= i < |init| ==> init[i] == weights[i];
      SameRawSameScore(table, nationality, c1, c2, init);
      SameRawSameContribution(table, nationality, c1, c2, last.key, last.value);
    }
  }

  /** A criterion the weights do not mention has no effect on the score. */
  lemma UnweightedCriterionIgnored(table: MultiplierTable, nationality: string,
                                   c1: map<string, real>, c2: map<string, real>, weights: Record, k: string)
    requires AgreeExcept(c1, c2, k)
    requires k !in Keys(weights)
    ensures UnroundedScore(table, nationality, c1, weights) == UnroundedScore(table, nationality, c2, weights)
  {
    forall i | 0 <= i < |weights| ensures RawScore(c1, weights[i].key) == RawScore(c2, weights[i].key) {
      assert Keys(weights)[i] == weights[i].key;
    }
    SameRawSameScore(table, nationality, c1, c2, weights);
  }

  /** Missing, zero and 5 are the same raw score to the engine. */
  lemma DefaultNeutrality(table: MultiplierTable, nationality: string,
                          criteria: map<string, real>, weights: Record, k: string)
    ensures UnroundedScore(table, nationality, criteria - {k}, weights)
         == UnroundedScore(table, nationality, criteria[k := 5.0], weights)
    ensures UnroundedScore(table, nationality, criteria[k := 0.0], weights)
         == UnroundedScore(table, nationality, criteria[k := 5.0], weights)
  {
    forall i | 0 <= i < |weights|
      ensures RawScore(criteria - {k}, weights[i].key) == RawScore(criteria[k := 5.0], weights[i].key)
      ensures RawScore(criteria[k := 0.0], weights[i].key) == RawScore(criteria[k := 5.0], weights[i].key)
    {
    }
    SameRawSameScore(table, nationality, criteria - {k}, criteria[k := 5.0], weights);
    SameRawSameScore(table, nationality, criteria[k := 0.0], criteria[k := 5.0], weights);
  }

  /** The difference of two contributions that differ only in one factor. */
  lemma ContributionDifference(a: real, b: real, m: real, w: real, f: real)
    ensures (a * m * w * f) / 10.0 - (b * m * w * f) / 10.0 == (a - b) * m * w * f / 10.0
  {
    assert a * m * w * f - b * m * w * f == (a - b) * (m * w * f);
  }

  /**
   * Two cities that differ only on a criterion weighted once by `w`: their exact scores
   * differ by exactly the difference of that criterion's contributions.
   */
  lemma {:induction false} SingleCriterionEffect(table: MultiplierTable, nationality: string,
                                                 c1: map<string, real>, c2: map<string, real>,
                                                 weights: Record, k: string, w: real)
    requires AgreeExcept(c1, c2, k)
    requires DistinctKeys(weights)
    requires Get(weights, k) == Some(w)
    ensures UnroundedScore(table, nationality, c1, weights) - UnroundedScore(table, nationality, c2, weights)
         == Contribution(table, nationality, c1, k, w) - Contribution(table, nationality, c2, k, w)
    decreases |weights|
  {
    if weights[|weights| - 1].key == k {
      LastCriterionEffect(table, nationality, c1, c2, weights, k, w);
    } else {
      OtherCriterionStep(table, nationality, c1, c2, weights, k, w);
      SingleCriterionEffect(table, nationality, c1, c2, weights[..|weights| - 1], k, w);
    }
  }

  /** The case where the differing criterion is the last weight entry. */
  lemma LastCriterionEffect(table: MultiplierTable, nationality: string,
                            c1: map<string, real>, c2: map<string, real>,
                            weights: Record, k: string, w: real)
    requires AgreeExcept(c1, c2, k)
    requires DistinctKeys(weights)
    requires Get(weights, k) == Some(w)
    requires weights[|weights| - 1].key == k
    ensures UnroundedScore(table, nationality, c1, weights) - UnroundedScore(table, nationality, c2, weights)
         == Contribution(table, nationality, c1, k, w) - Contribution(table, nationality, c2, k, w)
  {
    LastKeyFresh(weights);
    GetAt(weights, |weights| - 1);
    UnweightedCriterionIgnored(table, nationality, c1, c2, weights[..|weights| - 1], k);
  }

  /** The case where the last weight entry is another criterion: it adds the same to both. */
  lemma OtherCriterionStep(table: MultiplierTable, nationality: string,
                           c1: map<string, real>, c2: map<string, real>,
                           weights: Record, k: string, w: real)
    requires AgreeExcept(c1, c2, k)
    requires DistinctKeys(weights)
    requires Get(weights, k) == Some(w)
    requires weights[|weights| - 1].key != k
    ensures Get(weights[..|weights| - 1], k) == Some(w) && DistinctKeys(weights[..|weights| - 1])
    ensures UnroundedScore(table, nationality, c1, weights) - UnroundedScore(table, nationality, c2, weights)
         == UnroundedScore(table, nationality, c1, weights[..|weights| - 1])
          - UnroundedScore(table, nationality, c2, weights[..|weights| - 1])
  {
    var last := weights[|weights| - 1];
    InitGet(weights, k);
    SameRawSameContribution(table, nationality, c1, c2, last.key, last.value);
  }

  /**
   * The same difference as a number: the raw difference times multiplier, weight and
   * super factor, over 10. A super-weighted criterion moves the score ten times as
   * far as a standard one with the same raw difference, multiplier and weight.
   */
  lemma RawScoreSensitivity(table: MultiplierTable, nationality: string,
                            c1: map<string, real>, c2: map<string, real>,
                            weights: Record, k: string, w: real)
    requires AgreeExcept(c1, c2, k)
    requires DistinctKeys(weights)
    requires Get(weights, k) == Some(w)
    ensures UnroundedScore(table, nationality, c1, weights) - UnroundedScore(table, nationality, c2, weights)
         == (RawScore(c1, k) - RawScore(c2, k)) * NationalityMultiplier(table, nationality, k) * w * SuperFactor(k) / 10.0
  {
    SingleCriterionEffect(table, nationality, c1, c2, weights, k, w);
    ContributionDifference(RawScore(c1, k), RawScore(c2, k), NationalityMultiplier(table, nationality, k), w, SuperFactor(k));
  }

  /**
   * Two weight lists that differ only in the weight at position `j`: their exact scores
   * differ by the difference of the two contributions at `j`.
   */
  lemma {:induction false} SingleWeightEffect(table: MultiplierTable, nationality: string,
                                              criteria: map<string, real>, w1: Record, w2: Record, j: nat)
    requires |w1| == |w2| && j < |w1|
    requires w1[j].key == w2[j].key
    requires forall i :: 0 <= i < |w1| && i != j ==> w1[i] == w2[i]
    ensures UnroundedScore(table, nationality, criteria, w1) - UnroundedScore(table, nationality, criteria, w2)
         == Contribution(table, nationality, criteria, w1[j].key, w1[j].value)
          - Contribution(table, nationality, criteria, w2[j].key, w2[j].value)
    decreases |w1|
  {
    var n := |w1| - 1;
    if j == n {
      assert w1[..n] == w2[..n];
    } else {
      SingleWeightEffect(table, nationality, criteria, w1[..n], w2[..n], j);
    }
  }

  lemma WeightDifference(table: MultiplierTable, nationality: string, criteria: map<string, real>,
                         k: string, v1: real, v2: real)
    ensures Contribution(table, nationality, criteria, k, v1) - Contribution(table, nationality, criteria, k, v2)
         == (v1 - v2) * (RawScore(criteria, k) * NationalityMultiplier(table, nationality, k) * SuperFactor(k)) / 10.0
  {
    var r, m, f := RawScore(criteria, k), NationalityMultiplier(table, nationality, k), SuperFactor(k);
    assert r * m * v1 * f - r * m * v2 * f == (v1 - v2) * (r * m * f);
  }

  /**
   * Setting the weight of an existing criterion from `prev` to `v` moves the exact score by
   * `(v - prev)` times the criterion's raw score, multiplier and super factor, over 10.
   */
  lemma WeightSensitivity(table: MultiplierTable, nationality: string, criteria: map<string, real>,
                          weights: Record, k: string, v: real, prev: real)
    requires DistinctKeys(weights)
    requires Get(weights, k) == Some(prev)
    ensures UnroundedScore(table, nationality, criteria, Put(weights, k, v))
          - UnroundedScore(table, nationality, criteria, weights)
         == (v - prev) * (RawScore(criteria, k) * NationalityMultiplier(table, nationality, k) * SuperFactor(k)) / 10.0
  {
    var j := PutExisting(weights, k, v);
    GetAt(weights, j);
    var updated := Put(weights, k, v);
    assert updated[j] == Entry(k, v) && weights[j].value == prev;
    SingleWeightEffect(table, nationality, criteria, updated, weights, j);
    WeightDifference(table, nationality, criteria, k, v, prev);
  }

  lemma PositiveMultiplier(table: MultiplierTable, nationality: string, k: string)
    requires PositiveTable(table)
    ensures NationalityMultiplier(table, nationality, k) > 0.0 && SuperFactor(k) > 0.0
  {
  }

  lemma ScaledIncrease(before: real, after: real, delta: real, r: real, m: real, f: real)
    requires after - before == delta * (r * m * f) / 10.0
    requires delta >= 0.0 && r > 0.0 && m > 0.0 && f > 0.0
    ensures after >= before
  {
    PositiveProduct(r, m);
    PositiveProduct(r * m, f);
    NonNegativeProduct(delta, r * m * f);
  }

  lemma PositiveProduct(a: real, b: real)
    requires a > 0.0 && b > 0.0
    ensures a * b > 0.0
  {
  }

  lemma NonNegativeProduct(a: real, b: real)
    requires a >= 0.0 && b > 0.0
    ensures a * b >= 0.0
  {
  }

  /** A contribution grows with its weight when raw score and multipliers are positive. */
  lemma ContributionMonotone(table: MultiplierTable, nationality: string, criteria: map<string, real>,
                             k: string, v1: real, v2: real)
    requires PositiveTable(table)
    requires RawScore(criteria, k) > 0.0
    requires v2 <= v1
    ensures Contribution(table, nationality, criteria, k, v1) >= Contribution(table, nationality, criteria, k, v2)
  {
    WeightDifference(table, nationality, criteria, k, v1, v2);
    PositiveMultiplier(table, nationality, k);
    ScaledIncrease(Contribution(table, nationality, criteria, k, v2), Contribution(table, nationality, criteria, k, v1),
                   v1 - v2, RawScore(criteria, k), NationalityMultiplier(table, nationality, k), SuperFactor(k));
  }

  /**
   * Raising one criterion's weight never lowers a city's exact score, provided its raw
   * score on that criterion is positive (as every 1-10 fixture score is) and the
   * multipliers are.
   */
  lemma WeightMonotone(table: MultiplierTable, nationality: string, criteria: map<string, real>,
                       weights: Record, k: string, v: real, prev: real)
    requires PositiveTable(table)
    requires DistinctKeys(weights)
    requires Get(weights, k) == Some(prev) && prev <= v
    requires RawScore(criteria, k) > 0.0
    ensures UnroundedScore(table, nationality, criteria, Put(weights, k, v))
         >= UnroundedScore(table, nationality, criteria, weights)
  {
    var j := PutExisting(weights, k, v);
    GetAt(weights, j);
    var updated := Put(weights, k, v);
    assert updated[j] == Entry(k, v) && weights[j].value == prev;
    SingleWeightEffect(table, nationality, criteria, updated, weights, j);
    ContributionMonotone(table, nationality, criteria, k, v, prev);
  }

  /** The same for the rounded score the ranking sorts by. */
  lemma WeightMonotoneScore(table: MultiplierTable, nationality: string, weights: Record, city: City,
                            k: string, v: real, prev: real)
    requires PositiveTable(table)
    requires DistinctKeys(weights)
    requires Get(weights, k) == Some(prev) && prev <= v
    requires RawScore(city.criteria, k) > 0.0
    ensures Scored(table, nationality, Put(weights, k, v), city).score >= Scored(table, nationality, weights, city).score
  {
    var before := UnroundedScore(table, nationality, city.criteria, weights);
    var after := UnroundedScore(table, nationality, city.criteria, Put(weights, k, v));
    WeightMonotone(table, nationality, city.criteria, weights, k, v, prev);
    JsMath.RoundMonotone(before, after);
  }

  // ----- The default weights -----

  /** The default weights name every criterion once. */
  lemma DefaultWeightsDistinct()
    ensures DistinctKeys(DefaultWeights)
  {
    DefaultKeysDistinctFrom(0, |DefaultWeights|);
  }

  /** The keys at positions `lo` to `hi - 1` of the default weights occur nowhere later. */
  lemma DefaultKeysDistinctFrom(lo: nat, hi: nat)
    requires lo <= hi <= |DefaultWeights|
    ensures forall i, j :: lo <= i < hi && i < j < |DefaultWeights| ==> DefaultWeights[i].key != DefaultWeights[j].key
  {
  }

  lemma DefaultCareerWeight()
    ensures Get(DefaultWeights, "career_opportunities") == Some(10.0)
  {
    assert DefaultWeights[15] == Entry("career_opportunities", 10.0);
    DefaultWeightsDistinct();
    GetAt(DefaultWeights, 15);
  }

  /** No nationality has a multiplier for career opportunities. */
  lemma CareerMultiplierNeutral(nationality: string)
    ensures NationalityMultiplier(NationalityMultipliers, nationality, "career_opportunities") == 1.0
  {
  }

  /**
   * With career opportunities weighted 10, each of its raw points is worth ten points
   * of score, whatever the nationality: two cities alike except for a 10 against a 1
   * there are exactly 90 points apart.
   */
  lemma CareerGapAt(nationality: string, weights: Record, city1: City, city2: City)
    requires DistinctKeys(weights) && Get(weights, "career_opportunities") == Some(10.0)
    requires AgreeExcept(city1.criteria, city2.criteria, "career_opportunities")
    requires "career_opportunities" in city1.criteria && city1.criteria["career_opportunities"] == 10.0
    requires "career_opportunities" in city2.criteria && city2.criteria["career_opportunities"] == 1.0
    ensures Scored(NationalityMultipliers, nationality, weights, city1).score
         == Scored(NationalityMultipliers, nationality, weights, city2).score + 90
  {
    var k := "career_opportunities";
    var u1 := UnroundedScore(NationalityMultipliers, nationality, city1.criteria, weights);
    var u2 := UnroundedScore(NationalityMultipliers, nationality, city2.criteria, weights);
    assert u1 == u2 + 90 as real by {
      CareerMultiplierNeutral(nationality);
      RawScoreSensitivity(NationalityMultipliers, nationality, city1.criteria, city2.criteria, weights, k, 10.0);
      assert SuperFactor(k) == 10.0;
      assert (10.0 - 1.0) * 1.0 * 10.0 * 10.0 / 10.0 == 90.0;
    }
    JsMath.RoundShift(u2, 90);
  }

  /** The same under the default weights. */
  lemma CareerGap(nationality: string, city1: City, city2: City)
    requires AgreeExcept(city1.criteria, city2.criteria, "career_opportunities")
    requires "career_opportunities" in city1.criteria && city1.criteria["career_opportunities"] == 10.0
    requires "career_opportunities" in city2.criteria && city2.criteria["career_opportunities"] == 1.0
    ensures Scored(NationalityMultipliers, nationality, DefaultWeights, city1).score
         == Scored(NationalityMultipliers, nationality, DefaultWeights, city2).score + 90
  {
    DefaultWeightsDistinct();
    DefaultCareerWeight();
    CareerGapAt(nationality, DefaultWeights, city1, city2);
  }
}
