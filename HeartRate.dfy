/**
 * Heart-rate zone model (app/utils/heartRate.ts): the maximal heart rate
 * estimated from age, the five zone ranges as rounded fractions of it, the
 * classifier from an observed heart rate to zone 0..5, and the two constant
 * tables (zone descriptions, recommended zone distributions per goal type).
 */
module HeartRate {
  import opened JsBuiltins

  /** What the classifier returns: 0 is below zone 1. */
  type ZoneNumber = z: int | 0 <= z <= 5

  /** The five training zones. */
  type TrainingZone = z: int | 1 <= z <= 5 witness 1

  // ---------------------------------------------------------------------
  // calculateMaxHeartRate
  // ---------------------------------------------------------------------

  /**
   * calculateMaxHeartRate: Math.round(211 - 0.64 * age), which in integer
   * arithmetic is (21150 - 64 * age) div 100.
   */
  function MaxHeartRate(age: int): (r: int)
    ensures r == (21150 - 64 * age) / 100
  {
    var a := 21100 - 64 * age;
    assert 211.0 - 0.64 * age as real == a as real / 100 as real;
    RoundOfQuotient(a, 100);
    assert (2 * a + 100) / 200 == (a + 50) / 100;
    Round(211.0 - 0.64 * age as real)
  }

  /** An older user never gets a higher estimate. */
  lemma MaxHeartRateNonIncreasing(younger: int, older: int)
    requires younger <= older
    ensures MaxHeartRate(older) <= MaxHeartRate(younger)
  {
    RoundMonotone(211.0 - 0.64 * older as real, 211.0 - 0.64 * younger as real);
  }

  /** For the ages the registration form accepts, the estimate lies in 147..205. */
  lemma MaxHeartRateForFormAges(age: int)
    requires 10 <= age <= 100
    ensures 147 <= MaxHeartRate(age) <= 205
  {
    MaxHeartRateNonIncreasing(10, age);
    MaxHeartRateNonIncreasing(age, 100);
  }

  lemma MaxHeartRateExamples()
    ensures MaxHeartRate(30) == 192 && MaxHeartRate(40) == 185 && MaxHeartRate(50) == 179
  {
  }

  // ---------------------------------------------------------------------
  // calculateHeartRateZone, calculateAllHeartRateZones
  // ---------------------------------------------------------------------

  /** The `zones` table: zone N spans the fractions [lower, upper) of max heart rate. */
  function ZoneFractions(zone: TrainingZone): (real, real)
  {
    if zone == 1 then (0.5, 0.6)
    else if zone == 2 then (0.6, 0.7)
    else if zone == 3 then (0.7, 0.8)
    else if zone == 4 then (0.8, 0.9)
    else (0.9, 1.0)
  }

  /** In tenths, zone N's fractions are (N + 4) / 10 and (N + 5) / 10. */
  lemma ZoneFractionsInTenths(zone: TrainingZone)
    ensures ZoneFractions(zone).0 == (zone + 4) as real / 10.0
    ensures ZoneFractions(zone).1 == (zone + 5) as real / 10.0
  {
  }

  /** The pair [min, max] that calculateHeartRateZone returns. */
  datatype ZoneRange = ZoneRange(min: int, max: int)

  /**
   * calculateHeartRateZone: both ends rounded independently from the zone's
   * fractions, which in integer arithmetic are (m(N + 4) + 5) div 10 and
   * (m(N + 5) + 5) div 10.
   */
  function HeartRateZone(maxHeartRate: int, zone: TrainingZone): (r: ZoneRange)
    ensures r.min == (maxHeartRate * (zone + 4) + 5) / 10
    ensures r.max == (maxHeartRate * (zone + 5) + 5) / 10
  {
    var (lower, upper) := ZoneFractions(zone);
    ZoneFractionsInTenths(zone);
    RoundTenths(maxHeartRate, zone + 4);
    RoundTenths(maxHeartRate, zone + 5);
    ZoneRange(Round(maxHeartRate as real * lower), Round(maxHeartRate as real * upper))
  }

  /** Math.round(m * k / 10) in integer arithmetic. */
  lemma RoundTenths(m: int, k: int)
    ensures Round(m as real * (k as real / 10.0)) == (m * k + 5) / 10
  {
    assert m as real * (k as real / 10.0) == (m * k) as real / 10 as real;
    RoundOfQuotient(m * k, 10);
    assert (2 * (m * k) + 10) / 20 == (m * k + 5) / 10;
  }

  /** For a non-negative max heart rate a zone's min never exceeds its max. */
  lemma HeartRateZoneOrdered(m: int, zone: TrainingZone)
    requires m >= 0
    ensures HeartRateZone(m, zone).min <= HeartRateZone(m, zone).max
  {
    var (lower, upper) := ZoneFractions(zone);
    RoundMonotone(m as real * lower, m as real * upper);
  }

  /** Adjacent zones share a boundary: zone N's max is zone N + 1's min. */
  lemma AdjacentZonesShareBoundary(m: int, zone: TrainingZone)
    requires zone < 5
    ensures HeartRateZone(m, zone).max == HeartRateZone(m, zone + 1).min
  {
  }

  /** Zone 5 ends at the max heart rate itself, and zone 1 starts at its rounded half. */
  lemma OuterZoneBoundaries(m: int)
    ensures HeartRateZone(m, 5).max == m
    ensures HeartRateZone(m, 1).min == Round(m as real / 2.0) == (m + 1) / 2
  {
    RoundOfInteger(m);
    assert m as real * 1.0 == m as real;
    assert m as real * 0.5 == m as real / 2.0;
  }

  /** The object calculateAllHeartRateZones returns, one range per zone. */
  datatype AllZones = AllZones(zone1: ZoneRange, zone2: ZoneRange, zone3: ZoneRange, zone4: ZoneRange, zone5: ZoneRange)
  {
    /** The ten boundaries, zone1 min first and zone5 max last. */
    function Boundaries(): seq<int>
    {
      [zone1.min, zone1.max, zone2.min, zone2.max, zone3.min, zone3.max,
       zone4.min, zone4.max, zone5.min, zone5.max]
    }
  }

  /**
   * calculateAllHeartRateZones: the five zones are contiguous (each zone's
   * max is the next zone's min), zone 1 starts at the rounded half of the max
   * heart rate and zone 5 ends at the max heart rate itself.
   */
  function AllHeartRateZones(maxHeartRate: int): (r: AllZones)
    ensures r.zone1.max == r.zone2.min && r.zone2.max == r.zone3.min
    ensures r.zone3.max == r.zone4.min && r.zone4.max == r.zone5.min
    ensures r.zone1.min == (maxHeartRate + 1) / 2 && r.zone5.max == maxHeartRate
  {
    AllZones(HeartRateZone(maxHeartRate, 1), HeartRateZone(maxHeartRate, 2), HeartRateZone(maxHeartRate, 3),
             HeartRateZone(maxHeartRate, 4), HeartRateZone(maxHeartRate, 5))
  }

  /**
   * For a non-negative max heart rate, the ten boundaries of all zones never
   * decrease from zone 1's min to zone 5's max, and zone 5 ends at the max.
   */
  lemma AllZonesAscending(m: int)
    requires m >= 0
    ensures var b := AllHeartRateZones(m).Boundaries();
            |b| == 10 && b[9] == m && forall i, j :: 0 <= i <= j < 10 ==> b[i] <= b[j]
  {
    var b := AllHeartRateZones(m).Boundaries();
    OuterZoneBoundaries(m);
    forall i | 0 <= i < 9 ensures b[i] <= b[i + 1] {
      var zone := i / 2 + 1;
      if i % 2 == 0 { HeartRateZoneOrdered(m, zone); }
      else { AdjacentZonesShareBoundary(m, zone); }
    }
    forall i, j | 0 <= i <= j < 10 ensures b[i] <= b[j] {
      var k := i;
      while k < j
        invariant i <= k <= j && b[i] <= b[k]
      {
        k := k + 1;
      }
    }
  }

  /** The reference values: max heart rate 185 (age 40) and 190. */
  lemma AllZonesExamples()
    ensures AllHeartRateZones(185) == AllZones(ZoneRange(93, 111), ZoneRange(111, 130), ZoneRange(130, 148),
                                              ZoneRange(148, 167), ZoneRange(167, 185))
    ensures HeartRateZone(190, 1) == ZoneRange(95, 114) && HeartRateZone(190, 5) == ZoneRange(171, 190)
  {
  }

  // ---------------------------------------------------------------------
  // determineHeartRateZone
  // ---------------------------------------------------------------------

  /** Comparing a ratio with a constant is comparing the numerator with the scaled constant. */
  lemma RatioBelow(x: real, m: real, c: real)
    requires m > 0.0
    ensures x / m < c <==> x < c * m
  {
    var p := x / m;
    assert p * m == x;
    if p < c {
      assert (c - p) * m > 0.0;
    } else {
      assert (p - c) * m >= 0.0;
    }
  }

  /**
   * determineHeartRateZone: ascending half-open thresholds on
   * heartRate / maxHeartRate. Against the zone table: zone 0 exactly below
   * half the max, zone N (1..4) exactly in [lower_N * max, upper_N * max),
   * zone 5 exactly at or above 0.9 * max (with no upper bound).
   */
  function DetermineHeartRateZone(heartRate: real, maxHeartRate: real): (r: ZoneNumber)
    requires maxHeartRate > 0.0
    ensures r == 0 <==> heartRate < 0.5 * maxHeartRate
    ensures forall zone: TrainingZone ::
              r == zone <==>
                ZoneFractions(zone).0 * maxHeartRate <= heartRate &&
                (zone == 5 || heartRate < ZoneFractions(zone).1 * maxHeartRate)
  {
    RatioBelow(heartRate, maxHeartRate, 0.5);
    RatioBelow(heartRate, maxHeartRate, 0.6);
    RatioBelow(heartRate, maxHeartRate, 0.7);
    RatioBelow(heartRate, maxHeartRate, 0.8);
    RatioBelow(heartRate, maxHeartRate, 0.9);
    var percent := heartRate / maxHeartRate;
    if percent < 0.5 then 0
    else if percent < 0.6 then 1
    else if percent < 0.7 then 2
    else if percent < 0.8 then 3
    else if percent < 0.9 then 4
    else 5
  }

  /** A higher heart rate never lands in a lower zone. */
  lemma ClassifierMonotone(lowRate: real, highRate: real, maxHeartRate: real)
    requires maxHeartRate > 0.0 && lowRate <= highRate
    ensures DetermineHeartRateZone(lowRate, maxHeartRate) <= DetermineHeartRateZone(highRate, maxHeartRate)
  {
    var p, q := lowRate / maxHeartRate, highRate / maxHeartRate;
    assert p * maxHeartRate == lowRate && q * maxHeartRate == highRate;
    assert (q - p) * maxHeartRate >= 0.0;
    assert p <= q;
  }

  /**
   * For integer rates, the classifier agrees with the rounded ranges strictly
   * inside them: a heart rate above zone N's min and below its max (any rate
   * above the min, for zone 5) is classified as zone N.
   */
  lemma ClassifierAgreesInsideRoundedRange(heartRate: int, m: int, zone: TrainingZone)
    requires m > 0
    requires HeartRateZone(m, zone).min < heartRate
    requires zone == 5 || heartRate < HeartRateZone(m, zone).max
    ensures DetermineHeartRateZone(heartRate as real, m as real) == zone
  {
    var x, y := m as real * ZoneFractions(zone).0, m as real * ZoneFractions(zone).1;
    HeartRateZoneRounds(m, zone);
    RoundStrictlyBetween(x, heartRate);
    RoundStrictlyBetween(y, heartRate);
    ClassifiedWithinFractions(heartRate as real, m as real, zone);
  }

  /** A zone's ends are the rounded products of the max heart rate with its fractions. */
  lemma HeartRateZoneRounds(m: int, zone: TrainingZone)
    ensures HeartRateZone(m, zone)
            == ZoneRange(Round(m as real * ZoneFractions(zone).0), Round(m as real * ZoneFractions(zone).1))
  {
  }

  /** An integer strictly above (below) a rounded value is above (below) the value itself. */
  lemma RoundStrictlyBetween(x: real, n: int)
    ensures Round(x) < n ==> x < n as real
    ensures n < Round(x) ==> n as real < x
  {
  }

  /** A rate within zone N's fractions of the max heart rate is classified as zone N. */
  lemma ClassifiedWithinFractions(heartRate: real, m: real, zone: TrainingZone)
    requires m > 0.0
    requires ZoneFractions(zone).0 * m <= heartRate
    requires zone == 5 || heartRate < ZoneFractions(zone).1 * m
    ensures DetermineHeartRateZone(heartRate, m) == zone
  {
  }

  /**
   * At a rounded boundary the two disagree: for max 187 the displayed zone 2
   * starts at 112, yet 112 / 187 is below 0.6 and is classified as zone 1.
   */
  lemma ClassifierDisagreesAtRoundedBoundary()
    ensures HeartRateZone(187, 2).min == 112
    ensures DetermineHeartRateZone(112.0, 187.0) == 1
  {
    RatioBelow(112.0, 187.0, 0.5);
    RatioBelow(112.0, 187.0, 0.6);
  }

  lemma ClassifierExamples()
    ensures DetermineHeartRateZone(100.0, 190.0) == 1
    ensures DetermineHeartRateZone(190.0, 190.0) == 5
    ensures DetermineHeartRateZone(0.0, 190.0) == 0
    ensures DetermineHeartRateZone(145.0, 185.0) == 3
  {
    RatioBelow(100.0, 190.0, 0.5);
    RatioBelow(100.0, 190.0, 0.6);
    RatioBelow(145.0, 185.0, 0.7);
    RatioBelow(145.0, 185.0, 0.8);
  }

  // ---------------------------------------------------------------------
  // zoneDescriptions
  // ---------------------------------------------------------------------

  datatype ZoneDescription = ZoneDescription(name: string, description: string, benefits: seq<string>, examples: seq<string>)

  /** zoneDescriptions, keyed by zone number 0..5. */
  const ZoneDescriptions: map<int, ZoneDescription> := map[
    0 := ZoneDescription(
      "リカバリー",
      "通常の安静時心拍数に近い状態。特別なトレーニング効果はありません。",
      ["身体の回復", "軽いクールダウン"],
      ["通常の歩行", "軽いストレッチ"]),
    1 := ZoneDescription(
      "ウォームアップ",
      "非常に軽い強度で、長時間続けることができます。脂肪燃焼の効率が最も高い領域です。",
      ["脂肪燃焼の効率化", "心肺機能の基礎強化", "回復の促進"],
      ["速歩き", "軽いジョギング", "軽いサイクリング"]),
    2 := ZoneDescription(
      "有酸素運動基礎",
      "軽い〜中程度の運動強度。長時間持続可能で、持久力向上に最適なゾーンです。",
      ["有酸素能力の向上", "脂肪燃焼", "エネルギー効率の改善"],
      ["ジョギング", "サイクリング", "長距離スイミング"]),
    3 := ZoneDescription(
      "有酸素運動向上",
      "中程度〜高めの運動強度。持久力と有酸素能力を向上させる領域です。",
      ["心肺機能の向上", "乳酸閾値の向上", "速筋繊維の活性化"],
      ["テンポランニング", "インターバルトレーニング"]),
    4 := ZoneDescription(
      "無酸素運動基礎",
      "高強度の運動で、長時間の継続は難しいゾーン。無酸素性能力を向上させます。",
      ["スピードの向上", "乳酸耐性の強化", "最大酸素摂取量の向上"],
      ["インターバルトレーニング", "テンポランニング", "レースペース"]),
    5 := ZoneDescription(
      "最大限努力",
      "最大強度に近い状態で、短時間しか維持できないゾーン。爆発的なパワー向上に効果的です。",
      ["最大パワーの向上", "神経系の活性化", "スプリント能力の向上"],
      ["短距離スプリント", "高強度インターバル", "ヒルスプリント"])
  ]

  /** Every zone the classifier can return has a description, and nothing else has one. */
  lemma ZoneDescriptionsCoverZones()
    ensures forall z: int :: z in ZoneDescriptions <==> 0 <= z <= 5
    ensures forall z: ZoneNumber :: HasDescription(z)
  {
  }

  predicate HasDescription(z: ZoneNumber)
  {
    z in ZoneDescriptions && ZoneDescriptions[z].benefits != [] && ZoneDescriptions[z].examples != []
  }

  // ---------------------------------------------------------------------
  // recommendedZoneDistribution
  // ---------------------------------------------------------------------

  /** Percentages of training time per zone. */
  datatype Distribution = Distribution(zone1: int, zone2: int, zone3: int, zone4: int, zone5: int)
  {
    function Total(): int
    {
      zone1 + zone2 + zone3 + zone4 + zone5
    }

    predicate NonNegative()
    {
      zone1 >= 0 && zone2 >= 0 && zone3 >= 0 && zone4 >= 0 && zone5 >= 0
    }
  }

  datatype ZoneDistributionProfile = ZoneDistributionProfile(name: string, distribution: Distribution, description: string)

  /** The goal types the distribution table is keyed by. */
  const DistributionKeys: set<string> := {"weight_loss", "cardio_health", "marathon", "sprint", "custom"}

  /** recommendedZoneDistribution. */
  const RecommendedZoneDistribution: map<string, ZoneDistributionProfile> := map[
    "weight_loss" := ZoneDistributionProfile(
      "ダイエット・脂肪燃焼",
      Distribution(30, 50, 15, 5, 0),
      "脂肪燃焼に最適なゾーン1-2を中心に、基礎代謝を上げるためのゾーン3も取り入れたバランス。"),
    "cardio_health" := ZoneDistributionProfile(
      "心肺機能向上（健康・スタミナ）",
      Distribution(20, 40, 30, 10, 0),
      "基礎持久力を高めるゾーン2を中心にしながら、心肺機能を効果的に向上させるゾーン3も積極的に取り入れる。"),
    "marathon" := ZoneDistributionProfile(
      "マラソン・長距離レース対策",
      Distribution(25, 45, 20, 8, 2),
      "長時間の持久力を高めるゾーン1-2を中心に、レースペースに近いゾーン3-4も取り入れたトレーニング。"),
    "sprint" := ZoneDistributionProfile(
      "短距離・スプリント能力向上",
      Distribution(20, 20, 25, 25, 10),
      "高強度のゾーン4-5を多く取り入れながら、回復と持久力向上のためのゾーン1-2もバランスよく行う。"),
    "custom" := ZoneDistributionProfile(
      "カスタム",
      Distribution(20, 30, 30, 15, 5),
      "バランスの取れた基本的な配分。目的に応じてカスタマイズできます。")
  ]

  /** The table has exactly the five goal types, and every profile is a split of 100 percent. */
  lemma DistributionsSumTo100()
    ensures RecommendedZoneDistribution.Keys == DistributionKeys
    ensures forall key :: key in RecommendedZoneDistribution ==>
              RecommendedZoneDistribution[key].distribution.NonNegative() &&
              RecommendedZoneDistribution[key].distribution.Total() == 100
  {
  }
}
