/** `calculateTrends`: the city's rows in a time window, their overall AQI
    statistics, one summary per calendar month sorted by month, and
    statistics for each pollutant with a positive reading. */
module Trends {
  import opened Wrappers
  import opened Text
  import opened Numeric
  import opened Collections
  import opened AnalyticsRows

  /** A calendar month, the key of the monthly dictionary. */
  datatype YearMonth = YearMonth(year: int, month: Month) {
    /** The dictionary key `` `${year}-${String(month).padStart(2, '0')}` ``. */
    function Key(): string {
      IntToDecimal(year) + "-" + PadStart2(NatToDecimal(month))
    }

    /** Months counted from year 0, the chronological order of keys. */
    function Ordinal(): int {
      year * 12 + month - 1
    }
  }

  function YearMonthOf(r: Row): YearMonth {
    YearMonth(r.date.year, r.date.month)
  }

  function OrdinalOf(t: MonthTrend): int {
    t.period.Ordinal()
  }

  /** One entry of `trends`; its `month` field is `period.Key()`. */
  datatype MonthTrend = MonthTrend(period: YearMonth, averageAQI: real, maxAQI: real, minAQI: real, dataPoints: nat)

  datatype PollutantStats = PollutantStats(average: real, max: real, min: real, stdDev: real)

  /** An error the function rethrows: simple-statistics `mean` of an empty
      month bucket (a month whose rows all have an unparseable AQI). */
  datatype TrendError = EmptyMonthBucket

  datatype TrendReport =
    | NoTrendData(city: string, timeRange: string)
    | TrendSummary(
        city: string,
        timeRange: string,
        averageAQI: real,
        medianAQI: real,
        maxAQI: real,
        minAQI: real,
        stdDevAQI: real,
        trends: seq<MonthTrend>,
        pollutants: map<Pollutant, PollutantStats>,
        totalDataPoints: nat)
  {
    /** The `averageAQI` field, 0 in the no-data answer. */
    function Average(): real {
      if NoTrendData? then 0.0 else averageAQI
    }

    /** The `trends` list, empty in the no-data answer. */
    function MonthList(): seq<MonthTrend> {
      if NoTrendData? then [] else trends
    }
  }

  /** `{ '1m': 1, '3m': 3, '6m': 6, '1y': 12 }[timeRange] || 12`. */
  function MonthsBack(timeRange: string): (n: nat)
    ensures n in {1, 3, 6, 12}
    ensures timeRange == "1m" ==> n == 1
    ensures timeRange == "3m" ==> n == 3
    ensures timeRange == "6m" ==> n == 6
    ensures timeRange !in {"1m", "3m", "6m"} ==> n == 12
  {
    if timeRange == "1m" then 1
    else if timeRange == "3m" then 3
    else if timeRange == "6m" then 6
    else 12
  }

  /** The rows the statistics are taken over. `monthsAgo(n)` is the instant
      n calendar months before the request (`setMonth(getMonth() - n)`). */
  function Selected(rows: seq<Row>, city: string, timeRange: string, monthsAgo: nat -> int): seq<Row> {
    var inCity := CityRows(rows, city);
    if timeRange == "all" then inCity
    else
      var cutoff := monthsAgo(MonthsBack(timeRange));
      Filter(inCity, (row: Row) => row.date.instant >= cutoff)
  }

  /** A row is selected exactly when its city matches and, unless the range
      is `all`, it is dated no earlier than the cutoff. */
  lemma SelectedRows(rows: seq<Row>, city: string, timeRange: string, monthsAgo: nat -> int, row: Row)
    ensures row in Selected(rows, city, timeRange, monthsAgo) <==>
      && row in rows
      && row.city == city
      && (timeRange != "all" ==> row.date.instant >= monthsAgo(MonthsBack(timeRange)))
  {
    FilterKeeps(rows, (r: Row) => r.city == city, row);
    if timeRange != "all" {
      var cutoff := monthsAgo(MonthsBack(timeRange));
      FilterKeeps(CityRows(rows, city), (r: Row) => r.date.instant >= cutoff, row);
    }
  }

  /** `values.filter(v => !isNaN(v) && v > 0)` for one pollutant. */
  function PositiveReadings(rows: seq<Row>, p: Pollutant): (vs: seq<real>)
    ensures forall i :: 0 <= i < |vs| ==> vs[i] > 0.0
  {
    if rows == [] then []
    else
      var last := rows[|rows| - 1].Reading(p);
      PositiveReadings(rows[..|rows| - 1], p) + (if last.Some? && last.value > 0.0 then [last.value] else [])
  }

  /** A pollutant has positive readings exactly when some row has one. */
  lemma {:induction false} PositiveReadingsEmpty(rows: seq<Row>, p: Pollutant)
    ensures PositiveReadings(rows, p) == [] <==>
      forall i :: 0 <= i < |rows| ==> !(rows[i].Reading(p).Some? && rows[i].Reading(p).value > 0.0)
  {
    if rows != [] {
      PositiveReadingsEmpty(rows[..|rows| - 1], p);
      assert forall i :: 0 <= i < |rows| - 1 ==> rows[..|rows| - 1][i] == rows[i];
    }
  }

  function StatsOf(lib: Library, vs: seq<real>): PollutantStats
    requires |vs| > 0
  {
    PollutantStats(Mean(vs), MaxOf(vs), MinOf(vs), StandardDeviation(lib, vs))
  }

  /** `pollutantStats`: an entry for each pollutant with a positive reading. */
  function PollutantTable(lib: Library, rows: seq<Row>): map<Pollutant, PollutantStats> {
    map p | p in {PM25, PM10, NO2, SO2, CO, O3} && |PositiveReadings(rows, p)| > 0 :: StatsOf(lib, PositiveReadings(rows, p))
  }

  function MonthTrendOf(period: YearMonth, values: seq<real>): MonthTrend
    requires |values| > 0
  {
    MonthTrend(period, Mean(values), MaxOf(values), MinOf(values), |values|)
  }

  /** The monthly entries in `Object.entries` order, then sorted by key;
      an empty bucket makes `mean` throw. */
  function MonthlyTrends(g: Groups<YearMonth>): Result<seq<MonthTrend>, TrendError>
    requires WellFormed(g)
  {
    var es := Entries(g);
    if HasEmptyBucket(g) then Err(EmptyMonthBucket)
    else
      var unsorted := seq(|es|, i requires 0 <= i < |es| => MonthTrendOf(es[i].0, es[i].1));
      Ok(SortBy(unsorted, OrdinalOf))
  }

  /** The report once the rows are selected and grouped by month. */
  function Summarize(lib: Library, city: string, timeRange: string, selected: seq<Row>, g: Groups<YearMonth>): Result<TrendReport, TrendError>
    requires WellFormed(g)
  {
    if selected == [] then Ok(NoTrendData(city, timeRange))
    else
      var aqi := ValidAQI(selected);
      var monthly := MonthlyTrends(g);
      if monthly.Err? then Err(monthly.error)
      else
        Ok(TrendSummary(
          city, timeRange,
          if |aqi| > 0 then Mean(aqi) else 0.0,
          if |aqi| > 0 then lib.median(aqi) else 0.0,
          if |aqi| > 0 then MaxOf(aqi) else 0.0,
          if |aqi| > 0 then MinOf(aqi) else 0.0,
          if |aqi| > 0 then StandardDeviation(lib, aqi) else 0.0,
          monthly.value,
          PollutantTable(lib, selected),
          |selected|))
  }

  /** `calculateTrends(city, timeRange)` over the given rows. */
  function TrendsOf(lib: Library, rows: seq<Row>, city: string, timeRange: string, monthsAgo: nat -> int): Result<TrendReport, TrendError> {
    var selected := Selected(rows, city, timeRange, monthsAgo);
    GroupKeys(selected, YearMonthOf, AqiOf);
    Summarize(lib, city, timeRange, selected, Group(selected, YearMonthOf, AqiOf))
  }

  /** `calculateTrends`, filling the monthly dictionary with its `forEach`. */
  method CalculateTrends(lib: Library, rows: seq<Row>, city: string, timeRange: string, monthsAgo: nat -> int)
    returns (r: Result<TrendReport, TrendError>)
    ensures r == TrendsOf(lib, rows, city, timeRange, monthsAgo)
  {
    var selected := Selected(rows, city, timeRange, monthsAgo);
    var g := GroupByKey(selected, YearMonthOf, AqiOf);
    GroupKeys(selected, YearMonthOf, AqiOf);
    r := Summarize(lib, city, timeRange, selected, g);
  }

  /** No selected row gives the zeroed answer (average 0, no months) and
      never an error; any selected row gives a real summary or an error. */
  lemma TrendsWithoutData(lib: Library, rows: seq<Row>, city: string, timeRange: string, monthsAgo: nat -> int)
    ensures var r := TrendsOf(lib, rows, city, timeRange, monthsAgo);
      Selected(rows, city, timeRange, monthsAgo) == [] <==> r == Ok(NoTrendData(city, timeRange))
    ensures var r := TrendsOf(lib, rows, city, timeRange, monthsAgo);
      r.Ok? && r.value.NoTrendData? ==> r.value.Average() == 0.0 && r.value.MonthList() == []
  {
  }

  /** The monthly AQI values of a selection: the parsed AQI of its rows
      dated in that month, in row order. */
  function MonthValues(selected: seq<Row>, period: YearMonth): seq<real> {
    ValuesWithKey(selected, YearMonthOf, AqiOf, period)
  }

  /** The function fails exactly when some selected month has no parseable
      AQI value at all. */
  lemma TrendsFailOnEmptyMonth(lib: Library, rows: seq<Row>, city: string, timeRange: string, monthsAgo: nat -> int)
    ensures var selected := Selected(rows, city, timeRange, monthsAgo);
      TrendsOf(lib, rows, city, timeRange, monthsAgo).Err? <==>
        exists i :: 0 <= i < |selected| && MonthValues(selected, YearMonthOf(selected[i])) == []
  {
    GroupEmptyBucket(Selected(rows, city, timeRange, monthsAgo), YearMonthOf, AqiOf);
  }

  /** The sorted monthly list holds one entry per dictionary key, built
      from that key's bucket, in ascending month order. */
  lemma MonthlyTrendsFacts(g: Groups<YearMonth>)
    requires WellFormed(g) && MonthlyTrends(g).Ok?
    ensures var trends := MonthlyTrends(g).value;
      && SortedBy(trends, OrdinalOf)
      && |trends| == |g.order|
      && (forall i, j :: 0 <= i < j < |trends| ==> OrdinalOf(trends[i]) < OrdinalOf(trends[j]))
      && (forall t :: t in trends ==>
            t.period in g.buckets && |g.buckets[t.period]| > 0 && t == MonthTrendOf(t.period, g.buckets[t.period]))
      && (forall k :: k in g.buckets ==> exists t :: t in trends && t.period == k)
  {
    var es := Entries(g);
    var unsorted := seq(|es|, i requires 0 <= i < |es| => MonthTrendOf(es[i].0, es[i].1));
    SortBySorted(unsorted, OrdinalOf);
    MonthlyTrendsStrict(g);
    MonthlyTrendsMembers(g);
    MonthlyTrendsCover(g);
  }

  /** Different months have different ordinals. */
  lemma OrdinalInjective(a: YearMonth, b: YearMonth)
    requires a.Ordinal() == b.Ordinal()
    ensures a == b
  {
    assert a.Ordinal() / 12 == a.year;
    assert b.Ordinal() / 12 == b.year;
  }

  /** The monthly list has one entry per dictionary key, and its months
      strictly increase, so no month is listed twice. */
  lemma MonthlyTrendsStrict(g: Groups<YearMonth>)
    requires WellFormed(g) && MonthlyTrends(g).Ok?
    ensures var trends := MonthlyTrends(g).value;
      && |trends| == |g.order|
      && forall i, j :: 0 <= i < j < |trends| ==> OrdinalOf(trends[i]) < OrdinalOf(trends[j])
  {
    var es := Entries(g);
    var unsorted := seq(|es|, i requires 0 <= i < |es| => MonthTrendOf(es[i].0, es[i].1));
    assert MonthlyTrends(g).value == SortBy(unsorted, OrdinalOf);
    forall i, j | 0 <= i < j < |unsorted|
      ensures OrdinalOf(unsorted[i]) != OrdinalOf(unsorted[j])
    {
      assert unsorted[i].period == g.order[i] && unsorted[j].period == g.order[j];
      if OrdinalOf(unsorted[i]) == OrdinalOf(unsorted[j]) {
        OrdinalInjective(unsorted[i].period, unsorted[j].period);
      }
    }
    SortByStrict(unsorted, OrdinalOf);
    SortByCount(unsorted, OrdinalOf);
  }

  /** Each monthly entry is built from its key's non-empty bucket. */
  lemma MonthlyTrendsMembers(g: Groups<YearMonth>)
    requires WellFormed(g) && MonthlyTrends(g).Ok?
    ensures forall t :: t in MonthlyTrends(g).value ==>
      t.period in g.buckets && |g.buckets[t.period]| > 0 && t == MonthTrendOf(t.period, g.buckets[t.period])
  {
    var es := Entries(g);
    var unsorted := seq(|es|, i requires 0 <= i < |es| => MonthTrendOf(es[i].0, es[i].1));
    var trends := SortBy(unsorted, OrdinalOf);
    SortByMembers(unsorted, OrdinalOf);
    forall t | t in trends
      ensures t.period in g.buckets && |g.buckets[t.period]| > 0 && t == MonthTrendOf(t.period, g.buckets[t.period])
    {
      var j :| 0 <= j < |unsorted| && unsorted[j] == t;
    }
  }

  /** Every key of the dictionary has a monthly entry. */
  lemma MonthlyTrendsCover(g: Groups<YearMonth>)
    requires WellFormed(g) && MonthlyTrends(g).Ok?
    ensures forall k :: k in g.buckets ==> exists t :: t in MonthlyTrends(g).value && t.period == k
  {
    var es := Entries(g);
    var unsorted := seq(|es|, i requires 0 <= i < |es| => MonthTrendOf(es[i].0, es[i].1));
    var trends := SortBy(unsorted, OrdinalOf);
    SortByMembers(unsorted, OrdinalOf);
    forall k | k in g.buckets
      ensures exists t :: t in trends && t.period == k
    {
      var j :| 0 <= j < |g.order| && g.order[j] == k;
      assert unsorted[j] in trends;
    }
  }

  lemma TrendsMonthlyList(lib: Library, rows: seq<Row>, city: string, timeRange: string, monthsAgo: nat -> int)
    requires TrendsOf(lib, rows, city, timeRange, monthsAgo).Ok?
    requires TrendsOf(lib, rows, city, timeRange, monthsAgo).value.TrendSummary?
    ensures var g := Group(Selected(rows, city, timeRange, monthsAgo), YearMonthOf, AqiOf);
      WellFormed(g) && MonthlyTrends(g) == Ok(TrendsOf(lib, rows, city, timeRange, monthsAgo).value.trends)
  {
    GroupKeys(Selected(rows, city, timeRange, monthsAgo), YearMonthOf, AqiOf);
  }

  /** The months of a successful summary strictly increase. */
  lemma TrendsMonthlyOrder(lib: Library, rows: seq<Row>, city: string, timeRange: string, monthsAgo: nat -> int)
    requires TrendsOf(lib, rows, city, timeRange, monthsAgo).Ok?
    requires TrendsOf(lib, rows, city, timeRange, monthsAgo).value.TrendSummary?
    ensures var trends := TrendsOf(lib, rows, city, timeRange, monthsAgo).value.trends;
      && SortedBy(trends, OrdinalOf)
      && forall i, j :: 0 <= i < j < |trends| ==>
           OrdinalOf(trends[i]) < OrdinalOf(trends[j]) && trends[i].period != trends[j].period
  {
    var g := Group(Selected(rows, city, timeRange, monthsAgo), YearMonthOf, AqiOf);
    TrendsMonthlyList(lib, rows, city, timeRange, monthsAgo);
    MonthlyTrendsFacts(g);
  }

  /** A successful summary lists the months in strictly ascending order,
      so no month twice, one entry for each month that occurs in the selection, each holding the mean,
      maximum, minimum and count of exactly that month's AQI values. */
  lemma TrendsMonthly(lib: Library, rows: seq<Row>, city: string, timeRange: string, monthsAgo: nat -> int)
    requires TrendsOf(lib, rows, city, timeRange, monthsAgo).Ok?
    requires TrendsOf(lib, rows, city, timeRange, monthsAgo).value.TrendSummary?
    ensures var selected := Selected(rows, city, timeRange, monthsAgo);
      var trends := TrendsOf(lib, rows, city, timeRange, monthsAgo).value.trends;
      && SortedBy(trends, OrdinalOf)
      && (forall i, j :: 0 <= i < j < |trends| ==>
            OrdinalOf(trends[i]) < OrdinalOf(trends[j]) && trends[i].period != trends[j].period)
      && (forall t :: t in trends ==>
            |MonthValues(selected, t.period)| > 0 && t == MonthTrendOf(t.period, MonthValues(selected, t.period)))
      && (forall i :: 0 <= i < |selected| ==> exists t :: t in trends && t.period == YearMonthOf(selected[i]))
  {
    var selected := Selected(rows, city, timeRange, monthsAgo);
    var g := Group(selected, YearMonthOf, AqiOf);
    GroupKeys(selected, YearMonthOf, AqiOf);
    GroupValues(selected, YearMonthOf, AqiOf);
    TrendsMonthlyList(lib, rows, city, timeRange, monthsAgo);
    TrendsMonthlyOrder(lib, rows, city, timeRange, monthsAgo);
    MonthlyTrendsMembers(g);
    MonthlyTrendsCover(g);
    forall i | 0 <= i < |selected|
      ensures YearMonthOf(selected[i]) in g.buckets
    {
      GroupHasKey(selected, YearMonthOf, AqiOf, YearMonthOf(selected[i]));
    }
  }

  /** A pollutant appears in the table exactly when some selected row has
      a positive reading of it, and its statistics are taken over exactly
      those readings. */
  lemma PollutantTableEntries(lib: Library, rows: seq<Row>, p: Pollutant)
    ensures p in PollutantTable(lib, rows) <==>
      exists i :: 0 <= i < |rows| && rows[i].Reading(p).Some? && rows[i].Reading(p).value > 0.0
    ensures p in PollutantTable(lib, rows) ==> PollutantTable(lib, rows)[p] == StatsOf(lib, PositiveReadings(rows, p))
  {
    PositiveReadingsEmpty(rows, p);
  }

  lemma FourDigitYear(y: int)
    requires 1000 <= y <= 9999
    ensures |IntToDecimal(y)| == 4 && AllDigits(IntToDecimal(y)) && DigitsValue(IntToDecimal(y)) == y
  {
    assert NatToDecimal(y) == NatToDecimal(y / 10) + [DigitChar(y % 10)];
    assert NatToDecimal(y / 10) == NatToDecimal(y / 100) + [DigitChar(y / 10 % 10)];
    assert NatToDecimal(y / 100) == NatToDecimal(y / 1000) + [DigitChar(y / 100 % 10)];
    NatToDecimalRoundTrip(y);
  }

  lemma TwoDigitMonth(m: Month)
    ensures var t := PadStart2(NatToDecimal(m));
      |t| == 2 && AllDigits(t) && DigitsValue(t) == m
  {
    var t := PadStart2(NatToDecimal(m));
    if m < 10 {
      assert t == ['0', DigitChar(m)];
      assert t[..1] == ['0'];
      assert DigitsValue(t[..1]) == 0 by {
        assert t[..1][..0] == [];
      }
    } else {
      NatToDecimalRoundTrip(m);
    }
  }

  /** For four-digit years the dictionary keys sort as strings in the same
      order as the months they name, so the `localeCompare` sort of the
      source and the chronological sort of this model agree. */
  lemma MonthKeysOrdered(a: YearMonth, b: YearMonth)
    requires 1000 <= a.year <= 9999 && 1000 <= b.year <= 9999
    requires a.Ordinal() < b.Ordinal()
    ensures LexLess(a.Key(), b.Key())
  {
    FourDigitYear(a.year);
    FourDigitYear(b.year);
    TwoDigitMonth(a.month);
    TwoDigitMonth(b.month);
    var ya, yb := IntToDecimal(a.year), IntToDecimal(b.year);
    var ma, mb := PadStart2(NatToDecimal(a.month)), PadStart2(NatToDecimal(b.month));
    assert a.Key() == ya + ("-" + ma) && b.Key() == yb + ("-" + mb);
    if a.year < b.year {
      DigitsOrder(ya, yb);
      LexLessAppend(ya, yb, "-" + ma, "-" + mb);
    } else {
      assert a.year == b.year && a.month < b.month;
      DigitsOrder(ma, mb);
      LexLessCommonPrefix("-", ma, mb);
      LexLessCommonPrefix(ya, "-" + ma, "-" + mb);
    }
  }

  /** Distinct months have distinct keys. */
  lemma MonthKeysDistinct(a: YearMonth, b: YearMonth)
    requires a.Key() == b.Key()
    ensures a == b
  {
    var ya, yb := IntToDecimal(a.year), IntToDecimal(b.year);
    var ma, mb := PadStart2(NatToDecimal(a.month)), PadStart2(NatToDecimal(b.month));
    TwoDigitMonth(a.month);
    TwoDigitMonth(b.month);
    var k := a.Key();
    assert k == ya + "-" + ma && k == yb + "-" + mb;
    assert ya == k[..|k| - 3] == yb;
    assert ma == k[|k| - 2..] == mb;
    IntToDecimalInjective(a.year, b.year);
  }
}
