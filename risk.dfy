/** `assessRisk`: the city's share of days per AQI category, a risk level
    from the mean AQI of its last 30 rows, the share of unhealthy days and
    the advice for the level. */
module Risk {
  import opened Wrappers
  import opened Numeric
  import opened Collections
  import opened AnalyticsRows

  /** The keys of `categoryCount`, in the order `Object.entries` lists them. */
  const Categories: seq<string> := ["Good", "Satisfactory", "Moderate", "Poor", "Very Poor", "Severe"]

  /** The number of rows whose `AQI_Bucket` is exactly `c`. */
  function CountOf(rows: seq<Row>, c: string): (n: nat)
    ensures n <= |rows|
  {
    if rows == [] then 0
    else CountOf(rows[..|rows| - 1], c) + (if rows[|rows| - 1].aqiBucket == c then 1 else 0)
  }

  /** `categoryCount.hasOwnProperty(bucket)`: the position of the bucket
      among the categories, if it is one. */
  function CategoryIndex(bucket: string): (r: Option<nat>)
    ensures r.Some? ==> r.value < |Categories| && Categories[r.value] == bucket
    ensures r.None? ==> bucket !in Categories
  {
    if bucket == "Good" then Some(0)
    else if bucket == "Satisfactory" then Some(1)
    else if bucket == "Moderate" then Some(2)
    else if bucket == "Poor" then Some(3)
    else if bucket == "Very Poor" then Some(4)
    else if bucket == "Severe" then Some(5)
    else None
  }

  /** The categories are six distinct labels. */
  lemma CategoriesDistinct()
    ensures |Categories| == 6
    ensures forall i, j :: 0 <= i < j < |Categories| ==> Categories[i] != Categories[j]
  {
  }

  /** The `forEach` that counts the rows per category. */
  method CountCategories(rows: seq<Row>) returns (counts: seq<nat>)
    ensures |counts| == |Categories|
    ensures forall k :: 0 <= k < |Categories| ==> counts[k] == CountOf(rows, Categories[k])
  {
    CategoriesDistinct();
    counts := [0, 0, 0, 0, 0, 0];
    var i := 0;
    while i < |rows|
      invariant i <= |rows|
      invariant |counts| == |Categories|
      invariant forall k :: 0 <= k < |Categories| ==> counts[k] == CountOf(rows[..i], Categories[k])
    {
      assert rows[..i + 1][..i] == rows[..i];
      var index := CategoryIndex(rows[i].aqiBucket);
      if index.Some? {
        counts := counts[index.value := counts[index.value] + 1];
      }
      i := i + 1;
    }
    assert rows[..i] == rows;
  }

  /** The six counts together never exceed the number of rows: a row is
      counted under its own bucket or not at all. */
  lemma {:induction false} CountsWithinTotal(rows: seq<Row>)
    ensures CountOf(rows, "Good") + CountOf(rows, "Satisfactory") + CountOf(rows, "Moderate")
      + CountOf(rows, "Poor") + CountOf(rows, "Very Poor") + CountOf(rows, "Severe") <= |rows|
  {
    if rows != [] {
      CountsWithinTotal(rows[..|rows| - 1]);
    }
  }

  datatype CategoryShare = CategoryShare(category: string, percentage: real, days: nat)

  /** `categoryCount` once every row is counted: each category's count, in
      category order. */
  function CategoryCounts(rows: seq<Row>): seq<nat> {
    seq(|Categories|, k requires 0 <= k < |Categories| => CountOf(rows, Categories[k]))
  }

  datatype RiskLevel = Low | LowModerate | ModerateRisk | High | SevereRisk {
    /** The `riskLevel` string. */
    function Label(): string {
      match this
      case Low => "low"
      case LowModerate => "low-moderate"
      case ModerateRisk => "moderate"
      case High => "high"
      case SevereRisk => "severe"
    }

    /** The position of the level from the mildest. */
    function Rank(): nat {
      match this
      case Low => 0
      case LowModerate => 1
      case ModerateRisk => 2
      case High => 3
      case SevereRisk => 4
    }
  }

  /** The `if` chain on the recent average. */
  function LevelOf(average: real): RiskLevel {
    if average > 300.0 then SevereRisk
    else if average > 200.0 then High
    else if average > 150.0 then ModerateRisk
    else if average > 100.0 then LowModerate
    else Low
  }

  /** The level's bands: above 300 severe, (200, 300] high, (150, 200]
      moderate, (100, 150] low-moderate, at most 100 low; and a higher
      average never gives a milder level. */
  lemma LevelBands(a: real, b: real)
    ensures LevelOf(a) == SevereRisk <==> a > 300.0
    ensures LevelOf(a) == High <==> 200.0 < a <= 300.0
    ensures LevelOf(a) == ModerateRisk <==> 150.0 < a <= 200.0
    ensures LevelOf(a) == LowModerate <==> 100.0 < a <= 150.0
    ensures LevelOf(a) == Low <==> a <= 100.0
    ensures a <= b ==> LevelOf(a).Rank() <= LevelOf(b).Rank()
  {
  }

  function HealthImpact(level: RiskLevel): string {
    match level
    case Low => "Minimal health impact expected"
    case LowModerate => "Generally acceptable air quality"
    case ModerateRisk => "Possible health effects for sensitive individuals"
    case High => "Health alert for sensitive groups"
    case SevereRisk => "Serious health effects for all population groups"
  }

  /** `getHealthRecommendations(riskLevel)`; the fallback to the `low` list
      is never taken, since the level is always one of the five. */
  function Recommendations(level: RiskLevel): seq<string> {
    match level
    case Low => [
      "Air quality is satisfactory",
      "Outdoor activities are safe for all",
      "No special precautions needed"]
    case LowModerate => [
      "Generally safe for outdoor activities",
      "Sensitive individuals should monitor symptoms",
      "Reduce prolonged outdoor exertion"]
    case ModerateRisk => [
      "Sensitive groups should limit prolonged outdoor activities",
      "Wear N95 masks during outdoor activities",
      "Keep windows closed during high pollution hours"]
    case High => [
      "Everyone should reduce outdoor exertion",
      "Sensitive groups should avoid outdoor activities",
      "Use air purifiers indoors",
      "Wear N95/N99 masks when outdoors"]
    case SevereRisk => [
      "Avoid all outdoor activities",
      "Keep all windows and doors closed",
      "Use high-quality air purifiers",
      "Seek medical attention if experiencing symptoms",
      "Children and elderly should stay indoors"]
  }

  /** How many pieces of advice a level carries: three up to `moderate`,
      then one more per level, so a worse level never has fewer. */
  lemma RecommendationCount(l: RiskLevel)
    ensures |Recommendations(l)| == if l.Rank() <= 2 then 3 else l.Rank() + 1
  {
    match l
    case Low => LowAdviceCount();
    case LowModerate => LowModerateAdviceCount();
    case ModerateRisk => ModerateAdviceCount();
    case High => HighAdviceCount();
    case SevereRisk => SevereAdviceCount();
  }

  lemma LowAdviceCount()
    ensures |Recommendations(Low)| == 3
  {
  }

  lemma LowModerateAdviceCount()
    ensures |Recommendations(LowModerate)| == 3
  {
  }

  lemma ModerateAdviceCount()
    ensures |Recommendations(ModerateRisk)| == 3
  {
  }

  lemma HighAdviceCount()
    ensures |Recommendations(High)| == 4
  {
  }

  lemma SevereAdviceCount()
    ensures |Recommendations(SevereRisk)| == 5
  {
  }

  /** `parseFloat(row.AQI) > 150`; NaN compares false. */
  predicate Unhealthy(r: Row) {
    r.aqi.Some? && r.aqi.value > 150.0
  }

  function UnhealthyDays(rows: seq<Row>): nat {
    |Filter(rows, Unhealthy)|
  }

  /** The mean of the parsed AQI values of the last 30 rows in file order,
      or 0 when there are none. */
  function RecentAverage(rows: seq<Row>): real {
    var recent := ValidAQI(LastN(rows, 30));
    if |recent| > 0 then Mean(recent) else 0.0
  }

  datatype RiskReport =
    | UnknownRisk(city: string)
    | Assessment(
        city: string,
        level: RiskLevel,
        healthImpact: string,
        currentAverage: real,
        distribution: seq<CategoryShare>,
        unhealthyDaysPercentage: real,
        recommendations: seq<string>)

  /** The answer from the city's rows and their category counts; the
      `distribution` gives each category its count and its share of all the
      rows, in percent to one decimal. */
  function AssessmentOf(city: string, rows: seq<Row>, counts: seq<nat>): RiskReport
    requires |rows| > 0 && |counts| == |Categories|
  {
    var average := RecentAverage(rows);
    var level := LevelOf(average);
    Assessment(
      city, level, HealthImpact(level), average,
      seq(|Categories|, k requires 0 <= k < |Categories| =>
        CategoryShare(Categories[k], Percentage(counts[k], |rows|), counts[k])),
      Percentage(UnhealthyDays(rows), |rows|),
      Recommendations(level))
  }

  /** `assessRisk(city)` over the given rows. */
  function RiskOf(rows: seq<Row>, city: string): RiskReport {
    var cityRows := CityRows(rows, city);
    if cityRows == [] then UnknownRisk(city)
    else AssessmentOf(city, cityRows, CategoryCounts(cityRows))
  }

  /** `assessRisk(city)`, with its counting loop. */
  method AssessRisk(rows: seq<Row>, city: string) returns (r: RiskReport)
    ensures r == RiskOf(rows, city)
  {
    var cityRows := CityRows(rows, city);
    if cityRows == [] {
      return UnknownRisk(city);
    }
    var counts := CountCategories(cityRows);
    assert counts == CategoryCounts(cityRows);
    r := AssessmentOf(city, cityRows, counts);
  }

  /** The level is `unknown` exactly when the city has no rows. */
  lemma RiskWithoutData(rows: seq<Row>, city: string)
    ensures RiskOf(rows, city).UnknownRisk? <==> CityRows(rows, city) == []
  {
  }

  /** An assessment lists the six categories in order with their day
      counts, which add up to at most the number of rows, and percentages
      within [0, 100]; its unhealthy share is within [0, 100] too. */
  lemma RiskDistribution(rows: seq<Row>, city: string)
    requires RiskOf(rows, city).Assessment?
    ensures var cityRows, r := CityRows(rows, city), RiskOf(rows, city);
      && |r.distribution| == 6
      && (forall k :: 0 <= k < 6 ==>
            && r.distribution[k].category == Categories[k]
            && r.distribution[k].days == CountOf(cityRows, Categories[k])
            && 0.0 <= r.distribution[k].percentage <= 100.0)
      && r.distribution[0].days + r.distribution[1].days + r.distribution[2].days
         + r.distribution[3].days + r.distribution[4].days + r.distribution[5].days <= |cityRows|
      && 0.0 <= r.unhealthyDaysPercentage <= 100.0
  {
    var cityRows := CityRows(rows, city);
    CountsWithinTotal(cityRows);
  }

  /** The level, the impact text and the advice all follow the average of
      the last 30 rows, which lies between the least and the greatest of
      their parsed AQI values (0 when none parsed). */
  lemma RiskLevelFacts(rows: seq<Row>, city: string)
    requires RiskOf(rows, city).Assessment?
    ensures var cityRows, r := CityRows(rows, city), RiskOf(rows, city);
      var recent := ValidAQI(LastN(cityRows, 30));
      && (recent == [] ==> r.currentAverage == 0.0)
      && (recent != [] ==> MinOf(recent) <= r.currentAverage <= MaxOf(recent))
      && r.level == LevelOf(r.currentAverage)
      && r.healthImpact == HealthImpact(r.level)
      && r.recommendations == Recommendations(r.level)
  {
  }
}
