/** `forecastAQI`: a `days`-long projection that blends the mean of the
    last seven AQI values with the least-squares line through the last 30
    rows. */
module Forecast {
  import opened Wrappers
  import opened Numeric
  import opened Collections
  import opened AnalyticsRows

  datatype Confidence = HighConfidence | MediumConfidence | LowConfidence

  datatype Direction = Increasing | Decreasing | Stable

  /** One forecast entry, identified by its day offset `daysAhead` from the
      last analysed row; the date text of the entry is not modelled. */
  datatype ForecastPoint = ForecastPoint(daysAhead: nat, predictedAQI: real, lowerBound: real, upperBound: real, confidence: Confidence)

  datatype ForecastReport =
    | NoForecastData(city: string)
    | InsufficientData(city: string)
    | Projection(
        city: string,
        lastDate: Date,
        forecast: seq<ForecastPoint>,
        currentAQI: real,
        trend: Direction,
        trendStrength: real)
  {
    /** The `method` field of the answer. */
    function Method(): string {
      match this
      case NoForecastData(_) => "none"
      case InsufficientData(_) => "insufficient-data"
      case Projection(_, _, _, _, _, _) => "moving-average-regression"
    }

    /** The `forecast` list, empty in both bail-out answers. */
    function Points(): seq<ForecastPoint> {
      if Projection? then forecast else []
    }
  }

  /** `stdDev < 50 ? 'high' : stdDev < 100 ? 'medium' : 'low'`. */
  function ConfidenceOf(stdDev: real): Confidence {
    if stdDev < 50.0 then HighConfidence
    else if stdDev < 100.0 then MediumConfidence
    else LowConfidence
  }

  /** `m > 0 ? 'increasing' : m < 0 ? 'decreasing' : 'stable'`. */
  function DirectionOf(slope: real): Direction {
    if slope > 0.0 then Increasing
    else if slope < 0.0 then Decreasing
    else Stable
  }

  /** The unrounded blend for day i: 0.6 of the moving average and 0.4 of
      the line at position n + i. */
  function Blend(movingAvg: real, line: Line, n: nat, i: nat): real {
    movingAvg * 0.6 + line.At((n + i) as real) * 0.4
  }

  /** The entry the loop pushes for day i. */
  function PointFor(movingAvg: real, line: Line, n: nat, stdDev: real, i: nat): ForecastPoint {
    var predicted := Blend(movingAvg, line, n, i);
    var lower := if 0.0 >= predicted - stdDev then 0.0 else predicted - stdDev;
    ForecastPoint(i, Round1(predicted), Round1(lower), Round1(predicted + stdDev), ConfidenceOf(stdDev))
  }

  /** Every entry's lower bound is at least zero and its upper bound at
      least its prediction, given a non-negative standard deviation; the
      lower bound is at most the prediction while the blend is not negative
      (the prediction itself is not clamped at zero). */
  lemma PointBounds(movingAvg: real, line: Line, n: nat, stdDev: real, i: nat)
    requires stdDev >= 0.0
    ensures var p := PointFor(movingAvg, line, n, stdDev, i);
      && p.daysAhead == i
      && p.lowerBound >= 0.0
      && p.predictedAQI <= p.upperBound
      && (Blend(movingAvg, line, n, i) >= 0.0 ==> p.lowerBound <= p.predictedAQI)
  {
    var predicted := Blend(movingAvg, line, n, i);
    var lower := if 0.0 >= predicted - stdDev then 0.0 else predicted - stdDev;
    Round1OfTenths(0);
    Round1Monotone(0.0, lower);
    Round1Monotone(predicted, predicted + stdDev);
    if predicted >= 0.0 {
      Round1Monotone(lower, predicted);
    }
  }

  /** The points of a successful forecast: the entries for days 1..days. */
  function PointsFor(movingAvg: real, line: Line, n: nat, stdDev: real, days: int): seq<ForecastPoint> {
    seq(if days < 0 then 0 else days, k requires 0 <= k => PointFor(movingAvg, line, n, stdDev, k + 1))
  }

  /** The `for (let i = 1; i <= days; i++)` loop. */
  method ForecastLoop(movingAvg: real, line: Line, n: nat, stdDev: real, days: int) returns (points: seq<ForecastPoint>)
    ensures points == PointsFor(movingAvg, line, n, stdDev, days)
  {
    points := [];
    var i := 1;
    while i <= days
      invariant 1 <= i <= (if days < 0 then 1 else days + 1)
      invariant |points| == i - 1
      invariant forall k :: 0 <= k < |points| ==> points[k] == PointFor(movingAvg, line, n, stdDev, k + 1)
    {
      points := points + [PointFor(movingAvg, line, n, stdDev, i)];
      i := i + 1;
    }
    assert |points| == |PointsFor(movingAvg, line, n, stdDev, days)|;
  }

  /** `cityData.sort((a, b) => a.Date - b.Date)`: the city's rows ordered
      by date, a permutation of them. */
  function DateOrdered(rows: seq<Row>, city: string): (r: seq<Row>)
    ensures SortedBy(r, InstantOf)
    ensures multiset(r) == multiset(CityRows(rows, city))
    ensures |r| == |CityRows(rows, city)|
  {
    SortByCorrect(CityRows(rows, city), InstantOf);
    SortBy(CityRows(rows, city), InstantOf)
  }

  /** The last 30 of the city's rows by date. */
  function RecentRows(rows: seq<Row>, city: string): seq<Row> {
    LastN(DateOrdered(rows, city), 30)
  }

  /** The answer built from the analysed rows once they hold at least seven
      AQI values. */
  function ProjectionOf(lib: Library, city: string, recent: seq<Row>, days: int): ForecastReport
    requires |ValidAQI(recent)| >= 7
  {
    var aqi := ValidAQI(recent);
    var line := lib.linearRegression(aqi);
    Projection(
      city,
      recent[|recent| - 1].date,
      PointsFor(Mean(LastN(aqi, 7)), line, |aqi|, StandardDeviation(lib, aqi), days),
      aqi[|aqi| - 1],
      DirectionOf(line.slope),
      if line.slope < 0.0 then -line.slope else line.slope)
  }

  /** `forecastAQI(city, days)` over the given rows. */
  function ForecastOf(lib: Library, rows: seq<Row>, city: string, days: int): ForecastReport {
    if DateOrdered(rows, city) == [] then NoForecastData(city)
    else if |ValidAQI(RecentRows(rows, city))| < 7 then InsufficientData(city)
    else ProjectionOf(lib, city, RecentRows(rows, city), days)
  }

  /** The successful branch of `forecastAQI`, with its loop. */
  method Project(lib: Library, city: string, recent: seq<Row>, days: int) returns (r: ForecastReport)
    requires |ValidAQI(recent)| >= 7
    ensures r == ProjectionOf(lib, city, recent, days)
  {
    var aqi := ValidAQI(recent);
    var movingAvg := Mean(LastN(aqi, 7));
    var line := lib.linearRegression(aqi);
    var stdDev := StandardDeviation(lib, aqi);
    var points := ForecastLoop(movingAvg, line, |aqi|, stdDev, days);
    r := Projection(
      city,
      recent[|recent| - 1].date,
      points,
      aqi[|aqi| - 1],
      DirectionOf(line.slope),
      if line.slope < 0.0 then -line.slope else line.slope);
  }

  /** `forecastAQI(city, days)`: no rows, too few values, or a projection. */
  method ForecastAQI(lib: Library, rows: seq<Row>, city: string, days: int) returns (r: ForecastReport)
    ensures r == ForecastOf(lib, rows, city, days)
  {
    var sorted := DateOrdered(rows, city);
    if sorted == [] {
      return NoForecastData(city);
    }
    var recent := LastN(sorted, 30);
    if |ValidAQI(recent)| < 7 {
      return InsufficientData(city);
    }
    r := Project(lib, city, recent, days);
  }

  /** The method is `none` exactly when the city has no rows, and
      `insufficient-data` exactly when the last 30 rows by date hold fewer
      than seven parseable AQI values; both answers carry no forecast. */
  lemma ForecastBailOut(lib: Library, rows: seq<Row>, city: string, days: int)
    ensures var r := ForecastOf(lib, rows, city, days);
      && (r.NoForecastData? <==> CityRows(rows, city) == [])
      && (r.InsufficientData? <==>
            CityRows(rows, city) != [] && |ValidAQI(RecentRows(rows, city))| < 7)
      && (!r.Projection? ==> r.Points() == [])
  {
  }

  /** The entries of a projection count the days, carry one shared
      confidence label, and keep their bounds. */
  lemma PointsShape(movingAvg: real, line: Line, n: nat, stdDev: real, days: int)
    requires stdDev >= 0.0
    ensures var pts := PointsFor(movingAvg, line, n, stdDev, days);
      && |pts| == (if days < 0 then 0 else days)
      && forall k :: 0 <= k < |pts| ==>
           && pts[k].daysAhead == k + 1
           && pts[k].predictedAQI == Round1(Blend(movingAvg, line, n, k + 1))
           && 0.0 <= pts[k].lowerBound
           && pts[k].predictedAQI <= pts[k].upperBound
           && pts[k].confidence == ConfidenceOf(stdDev)
  {
    var pts := PointsFor(movingAvg, line, n, stdDev, days);
    forall k | 0 <= k < |pts|
      ensures 0.0 <= pts[k].lowerBound && pts[k].predictedAQI <= pts[k].upperBound
    {
      PointBounds(movingAvg, line, n, stdDev, k + 1);
    }
  }

  /** A projection blends the mean of the last seven values with the
      regression line through all of them, reports the last value as the
      current one, and labels the trend by the sign of the slope. */
  lemma ProjectionEntries(lib: Library, city: string, recent: seq<Row>, days: int)
    requires Lawful(lib)
    requires |ValidAQI(recent)| >= 7
    ensures var r := ProjectionOf(lib, city, recent, days);
      var aqi := ValidAQI(recent);
      var line := lib.linearRegression(aqi);
      && r.forecast == PointsFor(Mean(aqi[|aqi| - 7..]), line, |aqi|, StandardDeviation(lib, aqi), days)
      && StandardDeviation(lib, aqi) >= 0.0
      && r.currentAQI == aqi[|aqi| - 1]
      && (r.trend == Increasing <==> line.slope > 0.0)
      && (r.trend == Decreasing <==> line.slope < 0.0)
      && r.trendStrength >= 0.0
  {
    var aqi := ValidAQI(recent);
    assert LastN(aqi, 7) == aqi[|aqi| - 7..];
  }

  /** A forecast that is not a bail-out is the projection over the last 30
      rows by date, which hold at least seven AQI values. */
  lemma ForecastProjects(lib: Library, rows: seq<Row>, city: string, days: int)
    requires ForecastOf(lib, rows, city, days).Projection?
    ensures |ValidAQI(RecentRows(rows, city))| >= 7
    ensures |RecentRows(rows, city)| <= 30
    ensures ForecastOf(lib, rows, city, days) == ProjectionOf(lib, city, RecentRows(rows, city), days)
  {
  }
}
