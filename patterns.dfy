/** `analyzePatterns`: the city's AQI averaged per month name, per weekday
    name and per hour of day, and the correlations between pairs of
    pollutants. */
module Patterns {
  import opened Wrappers
  import opened Text
  import opened Numeric
  import opened Collections
  import opened AnalyticsRows
  import opened JsNumbers
  import opened Correlation

  function MonthName(m: Month): string {
    ["Jan", "Feb", "Mar", "Apr", "May", "Jun", "Jul", "Aug", "Sep", "Oct", "Nov", "Dec"][m - 1]
  }

  function WeekdayName(d: Weekday): string {
    ["Sunday", "Monday", "Tuesday", "Wednesday", "Thursday", "Friday", "Saturday"][d]
  }

  function MonthNameOf(r: Row): string {
    MonthName(r.date.month)
  }

  function WeekdayNameOf(r: Row): string {
    WeekdayName(r.date.weekday)
  }

  /** `datetime.split(' ')[1]?.split(':')[0] || '0'`. */
  function HourText(datetime: string): string {
    var time := After(datetime, ' ');
    if time.None? then "0"
    else
      var h := Before(Before(time.value, ' '), ':');
      if h == [] then "0" else h
  }

  /** `parseInt` of the hour text; `None` stands for `NaN`. */
  function HourOf(r: Row): Option<int> {
    ParseInt(HourText(r.datetime))
  }

  /** The hour of a row with one, the dictionary key. */
  function HourKeyOf(r: Row): int {
    var h := HourOf(r);
    if h.Some? then h.value else 0
  }

  /** The time part's hour digits are the hour text. */
  lemma HourTextOfTime(date: string, digits: string, rest: string)
    requires ' ' !in date
    requires AllDigits(digits) && digits != []
    ensures HourText(date + " " + digits + ":" + rest) == digits
  {
    var time := digits + ":" + rest;
    assert date + " " + digits + ":" + rest == date + " " + time;
    TimeAfterDate(date, time);
    HourDigitsOfTime(digits, rest);
    assert Before(Before(time, ' '), ':') == digits;
  }

  /** The text after the first space of `date time` is the time part. */
  lemma TimeAfterDate(date: string, time: string)
    requires ' ' !in date
    ensures After(date + " " + time, ' ') == Some(time)
  {
    var datetime := date + " " + time;
    assert datetime == date + [' '] + time;
    SplitAt(date, time, ' ');
    var after := After(datetime, ' ');
    assert after.Some? && datetime == date + [' '] + after.value;
    assert after.value == datetime[|date| + 1..] == time;
  }

  /** The hour digits are what comes before the first colon of the time. */
  lemma HourDigitsOfTime(digits: string, rest: string)
    requires AllDigits(digits)
    ensures Before(Before(digits + ":" + rest, ' '), ':') == digits
  {
    DigitsHaveNo(digits, ' ');
    DigitsHaveNo(digits, ':');
    var time := digits + ":" + rest;
    assert time == digits + ([':'] + rest);
    BeforeAppend(digits, [':'] + rest, ' ');
    assert Before([':'] + rest, ' ') == [':'] + Before(rest, ' ');
    assert Before(time, ' ') == digits + [':'] + Before(rest, ' ');
    SplitAt(digits, Before(rest, ' '), ':');
  }

  /** A timestamp `date hh:...` whose date part has no space is keyed by
      the hour hh. */
  lemma HourOfTimestamp(r: Row, date: string, h: nat, rest: string)
    requires ' ' !in date
    requires r.datetime == date + " " + NatToDecimal(h) + ":" + rest
    ensures HourOf(r) == Some(h)
  {
    HourTextOfTime(date, NatToDecimal(h), rest);
    ParseIntRoundTrip(h, []);
    assert NatToDecimal(h) + [] == NatToDecimal(h);
  }

  /** A timestamp without a time part is keyed by hour 0. */
  lemma HourOfDateOnly(r: Row)
    requires ' ' !in r.datetime
    ensures HourOf(r) == Some(0)
  {
    assert After(r.datetime, ' ').None?;
    assert HourText(r.datetime) == "0";
    ParseIntRoundTrip(0, []);
    assert IntToDecimal(0) + [] == "0";
  }

  datatype SeasonEntry = SeasonEntry(month: string, averageAQI: real, dataPoints: nat)

  datatype WeekdayEntry = WeekdayEntry(day: string, averageAQI: real, dataPoints: nat)

  datatype HourEntry = HourEntry(hour: int, averageAQI: real, dataPoints: nat)

  function HourOfEntry(e: HourEntry): int {
    e.hour
  }

  /** What the function rethrows: `mean` of an empty month or hour bucket. */
  datatype PatternError = EmptyMonthBucket | EmptyHourBucket

  /** `seasonalPattern`: the month buckets in first-occurrence order. */
  function SeasonalOf(g: Groups<string>): Result<seq<SeasonEntry>, PatternError>
    requires WellFormed(g)
  {
    var es := Entries(g);
    if HasEmptyBucket(g) then Err(EmptyMonthBucket)
    else Ok(seq(|es|, i requires 0 <= i < |es| => SeasonEntry(es[i].0, Mean(es[i].1), |es[i].1|)))
  }

  /** `weeklyPattern`: an empty bucket averages to 0 instead of throwing. */
  function WeeklyOf(g: Groups<string>): seq<WeekdayEntry>
    requires WellFormed(g)
  {
    var es := Entries(g);
    seq(|es|, i requires 0 <= i < |es| =>
      WeekdayEntry(es[i].0, if |es[i].1| > 0 then Mean(es[i].1) else 0.0, |es[i].1|))
  }

  /** `hourlyPattern` once there are hourly rows: the hour buckets sorted
      by hour. */
  function HourlyOf(g: Groups<int>): Result<seq<HourEntry>, PatternError>
    requires WellFormed(g)
  {
    var es := Entries(g);
    if HasEmptyBucket(g) then Err(EmptyHourBucket)
    else Ok(SortBy(seq(|es|, i requires 0 <= i < |es| => HourEntry(es[i].0, Mean(es[i].1), |es[i].1|)), HourOfEntry))
  }

  /** The pollutants compared pairwise, in order. */
  const Correlated: seq<Pollutant> := [PM25, PM10, NO2, SO2, CO]

  datatype CorrelationEntry = CorrelationEntry(pollutant1: Pollutant, pollutant2: Pollutant, correlation: real)

  /** `rows.map(row => parseFloat(row[p])).filter(v => !isNaN(v))`. */
  function Readings(rows: seq<Row>, p: Pollutant): seq<real> {
    Present(rows, (r: Row) => r.Reading(p))
  }

  /** Both series of the pair have more than ten values. */
  predicate Eligible(rows: seq<Row>, a: nat, b: nat)
    requires a < 5 && b < 5
  {
    |Readings(rows, Correlated[a])| > 10 && |Readings(rows, Correlated[b])| > 10
  }

  /** The coefficient of the two series of the pair cut to the shorter
      length, rounded to hundredths. */
  function PairValue(lib: Library, rows: seq<Row>, a: nat, b: nat): real
    requires a < 5 && b < 5 && Eligible(rows, a, b)
  {
    var p1, p2 := Readings(rows, Correlated[a]), Readings(rows, Correlated[b]);
    var m := Min(|p1|, |p2|);
    Round2(CorrelationOf(lib, p1[..m], p2[..m]))
  }

  /** What the inner loop pushes for the pair (a, b). */
  function EntryAt(lib: Library, rows: seq<Row>, a: nat, b: nat): seq<CorrelationEntry>
    requires a < 5 && b < 5
  {
    if Eligible(rows, a, b) then
      [CorrelationEntry(Correlated[a], Correlated[b], PairValue(lib, rows, a, b))]
    else []
  }

  /** The entries of the inner loop from j on. */
  function RowFrom(lib: Library, rows: seq<Row>, a: nat, j: nat): seq<CorrelationEntry>
    requires a < 5 && j <= 5
    decreases 5 - j
  {
    if j == 5 then [] else EntryAt(lib, rows, a, j) + RowFrom(lib, rows, a, j + 1)
  }

  /** The entries of the outer loop from i on. */
  function CorrelationsFrom(lib: Library, rows: seq<Row>, i: nat): seq<CorrelationEntry>
    requires i <= 5
    decreases 5 - i
  {
    if i == 5 then [] else RowFrom(lib, rows, i, i + 1) + CorrelationsFrom(lib, rows, i + 1)
  }

  /** `correlations`. */
  function Correlations(lib: Library, rows: seq<Row>): seq<CorrelationEntry> {
    CorrelationsFrom(lib, rows, 0)
  }

  /** One pass of the inner loop body: the entry for the pair, if any. */
  method PairEntry(lib: Library, rows: seq<Row>, i: nat, j: nat) returns (es: seq<CorrelationEntry>)
    requires i < 5 && j < 5
    ensures es == EntryAt(lib, rows, i, j)
  {
    var p1 := Readings(rows, Correlated[i]);
    var p2 := Readings(rows, Correlated[j]);
    es := [];
    if |p1| > 10 && |p2| > 10 {
      var m := Min(|p1|, |p2|);
      var c := Correlate(lib, p1[..m], p2[..m]);
      es := [CorrelationEntry(Correlated[i], Correlated[j], Round2(c))];
    }
  }

  /** The inner `for` loop for one i, pushing onto `r`. */
  method InnerPairs(lib: Library, rows: seq<Row>, i: nat, r0: seq<CorrelationEntry>) returns (r: seq<CorrelationEntry>)
    requires i < 5
    ensures r == r0 + RowFrom(lib, rows, i, i + 1)
  {
    r := r0;
    var j := i + 1;
    while j < 5
      invariant i + 1 <= j <= 5
      invariant r + RowFrom(lib, rows, i, j) == r0 + RowFrom(lib, rows, i, i + 1)
    {
      var es := PairEntry(lib, rows, i, j);
      ghost var rest := RowFrom(lib, rows, i, j + 1);
      assert RowFrom(lib, rows, i, j) == es + rest;
      assert r + (es + rest) == (r + es) + rest;
      r := r + es;
      j := j + 1;
    }
    assert RowFrom(lib, rows, i, j) == [];
    assert r + [] == r;
  }

  /** One outer step: the rows from i are the row of i, then the rest. */
  lemma CorrelationsFromStep(lib: Library, rows: seq<Row>, i: nat, r: seq<CorrelationEntry>)
    requires i < 5
    ensures r + CorrelationsFrom(lib, rows, i) == (r + RowFrom(lib, rows, i, i + 1)) + CorrelationsFrom(lib, rows, i + 1)
  {
    var row, later := RowFrom(lib, rows, i, i + 1), CorrelationsFrom(lib, rows, i + 1);
    assert CorrelationsFrom(lib, rows, i) == row + later;
    assert r + (row + later) == (r + row) + later;
  }

  /** The nested `for` loops over the pairs i < j. */
  method CorrelationPairs(lib: Library, rows: seq<Row>) returns (r: seq<CorrelationEntry>)
    ensures r == Correlations(lib, rows)
  {
    ghost var all := CorrelationsFrom(lib, rows, 0);
    r := [];
    var i := 0;
    while i < 5
      invariant i <= 5
      invariant r + CorrelationsFrom(lib, rows, i) == all
    {
      CorrelationsFromStep(lib, rows, i, r);
      r := InnerPairs(lib, rows, i, r);
      i := i + 1;
    }
    assert r + [] == r;
  }

  lemma {:induction false} RowFromMembers(lib: Library, rows: seq<Row>, a: nat, j: nat, e: CorrelationEntry)
    requires a < 5 && j <= 5
    decreases 5 - j
    ensures e in RowFrom(lib, rows, a, j) <==> exists b :: j <= b < 5 && EntryAt(lib, rows, a, b) == [e]
  {
    if j < 5 {
      RowFromMembers(lib, rows, a, j + 1, e);
      if exists b :: j <= b < 5 && EntryAt(lib, rows, a, b) == [e] {
        var b :| j <= b < 5 && EntryAt(lib, rows, a, b) == [e];
        if b == j {
          assert e in EntryAt(lib, rows, a, j);
        }
      }
      if e in EntryAt(lib, rows, a, j) {
        assert EntryAt(lib, rows, a, j) == [e];
      }
    }
  }

  lemma {:induction false} CorrelationsFromMembers(lib: Library, rows: seq<Row>, i: nat, e: CorrelationEntry)
    requires i <= 5
    decreases 5 - i
    ensures e in CorrelationsFrom(lib, rows, i) <==>
      exists a, b :: i <= a < b < 5 && EntryAt(lib, rows, a, b) == [e]
  {
    if i < 5 {
      CorrelationsFromMembers(lib, rows, i + 1, e);
      RowFromMembers(lib, rows, i, i + 1, e);
      if exists a, b :: i <= a < b < 5 && EntryAt(lib, rows, a, b) == [e] {
        var a, b :| i <= a < b < 5 && EntryAt(lib, rows, a, b) == [e];
        if a == i {
          assert e in RowFrom(lib, rows, i, i + 1);
        } else {
          assert e in CorrelationsFrom(lib, rows, i + 1);
        }
      }
    }
  }

  /** The pair bound: the loops from i on emit at most [10, 6, 3, 1, 0][i]
      entries. */
  function PairsFrom(i: nat): nat
    requires i <= 5
  {
    [10, 6, 3, 1, 0, 0][i]
  }

  lemma {:induction false} RowFromLength(lib: Library, rows: seq<Row>, a: nat, j: nat)
    requires a < 5 && j <= 5
    decreases 5 - j
    ensures |RowFrom(lib, rows, a, j)| <= 5 - j
  {
    if j < 5 {
      RowFromLength(lib, rows, a, j + 1);
    }
  }

  lemma {:induction false} CorrelationsFromLength(lib: Library, rows: seq<Row>, i: nat)
    requires i <= 5
    decreases 5 - i
    ensures |CorrelationsFrom(lib, rows, i)| <= PairsFrom(i)
  {
    if i < 5 {
      CorrelationsFromLength(lib, rows, i + 1);
      RowFromLength(lib, rows, i, i + 1);
    }
  }

  /** At most ten entries: one per pair at most. */
  lemma CorrelationCount(lib: Library, rows: seq<Row>)
    ensures |Correlations(lib, rows)| <= 10
  {
    CorrelationsFromLength(lib, rows, 0);
  }

  /** Every entry is the one of some pair (a, b) with a < b. */
  lemma CorrelationsArePairs(lib: Library, rows: seq<Row>, e: CorrelationEntry)
    requires e in Correlations(lib, rows)
    ensures exists a, b :: 0 <= a < b < 5 && EntryAt(lib, rows, a, b) == [e]
  {
    CorrelationsFromMembers(lib, rows, 0, e);
  }

  /** An entry for the pair (a, b), a < b, exists exactly when both series
      have more than ten values. */
  lemma CorrelationPairPresent(lib: Library, rows: seq<Row>, a: nat, b: nat)
    requires a < b < 5
    ensures (exists e :: e in Correlations(lib, rows) && e.pollutant1 == Correlated[a] && e.pollutant2 == Correlated[b])
      <==> Eligible(rows, a, b)
  {
    if Eligible(rows, a, b) {
      var e := EntryAt(lib, rows, a, b)[0];
      CorrelationsFromMembers(lib, rows, 0, e);
      assert e in Correlations(lib, rows);
    }
    if exists e :: e in Correlations(lib, rows) && e.pollutant1 == Correlated[a] && e.pollutant2 == Correlated[b] {
      var e :| e in Correlations(lib, rows) && e.pollutant1 == Correlated[a] && e.pollutant2 == Correlated[b];
      CorrelationPairValue(lib, rows, a, b, e);
    }
  }

  /** The entry for the pair (a, b) holds the coefficient of the two series
      cut to the shorter length, rounded to hundredths. */
  lemma CorrelationPairValue(lib: Library, rows: seq<Row>, a: nat, b: nat, e: CorrelationEntry)
    requires a < b < 5
    requires e in Correlations(lib, rows) && e.pollutant1 == Correlated[a] && e.pollutant2 == Correlated[b]
    ensures Eligible(rows, a, b)
    ensures e.correlation == PairValue(lib, rows, a, b)
  {
    CorrelationsFromMembers(lib, rows, 0, e);
    var a', b' :| 0 <= a' < b' < 5 && EntryAt(lib, rows, a', b') == [e];
    EntryAtPair(lib, rows, a', b', e);
    CorrelatedDistinct(a, a');
    CorrelatedDistinct(b, b');
  }

  /** The entry of a pair names that pair and holds its coefficient. */
  lemma EntryAtPair(lib: Library, rows: seq<Row>, a: nat, b: nat, e: CorrelationEntry)
    requires a < 5 && b < 5
    requires EntryAt(lib, rows, a, b) == [e]
    ensures Eligible(rows, a, b)
    ensures e == CorrelationEntry(Correlated[a], Correlated[b], PairValue(lib, rows, a, b))
  {
  }

  /** The compared pollutants are distinct. */
  lemma CorrelatedDistinct(a: nat, b: nat)
    requires a < 5 && b < 5 && Correlated[a] == Correlated[b]
    ensures a == b
  {
  }

  datatype PatternReport =
    | NoPatternData(city: string)
    | PatternSummary(
        city: string,
        seasonal: seq<SeasonEntry>,
        weekly: seq<WeekdayEntry>,
        hourly: seq<HourEntry>,
        correlations: seq<CorrelationEntry>)

  /** The city's hourly rows whose hour text parses to an integer. */
  function HourRows(hourly: seq<Row>, city: string): seq<Row> {
    Filter(CityRows(hourly, city), (r: Row) => HourOf(r).Some?)
  }

  /** The answer once the three dictionaries and the correlations are
      built; `mean` of an empty month list throws before the hourly one. */
  function Assemble(
    city: string, rows: seq<Row>, hours: seq<Row>,
    months: Groups<string>, days: Groups<string>, hourGroups: Groups<int>,
    correlations: seq<CorrelationEntry>): Result<PatternReport, PatternError>
    requires WellFormed(months) && WellFormed(days) && WellFormed(hourGroups)
  {
    if rows == [] then Ok(NoPatternData(city))
    else
      var seasonal := SeasonalOf(months);
      var hourly := if hours == [] then Ok([]) else HourlyOf(hourGroups);
      if seasonal.Err? then Err(seasonal.error)
      else if hourly.Err? then Err(hourly.error)
      else Ok(PatternSummary(city, seasonal.value, WeeklyOf(days), hourly.value, correlations))
  }

  /** `analyzePatterns(city)` over the daily and the hourly rows. */
  function PatternsOf(lib: Library, daily: seq<Row>, hourly: seq<Row>, city: string): Result<PatternReport, PatternError> {
    var rows, hours := CityRows(daily, city), HourRows(hourly, city);
    GroupKeys(rows, MonthNameOf, AqiOf);
    GroupKeys(rows, WeekdayNameOf, AqiOf);
    GroupKeys(hours, HourKeyOf, AqiOf);
    Assemble(city, rows, hours,
      Group(rows, MonthNameOf, AqiOf), Group(rows, WeekdayNameOf, AqiOf), Group(hours, HourKeyOf, AqiOf),
      Correlations(lib, rows))
  }

  /** `analyzePatterns(city)`: the three `forEach` passes and the pair
      loops. */
  method AnalyzePatterns(lib: Library, daily: seq<Row>, hourly: seq<Row>, city: string)
    returns (r: Result<PatternReport, PatternError>)
    ensures r == PatternsOf(lib, daily, hourly, city)
  {
    var rows := CityRows(daily, city);
    var hours := HourRows(hourly, city);
    var months := GroupByKey(rows, MonthNameOf, AqiOf);
    var days := GroupByKey(rows, WeekdayNameOf, AqiOf);
    var hourGroups := GroupByKey(hours, HourKeyOf, AqiOf);
    GroupKeys(rows, MonthNameOf, AqiOf);
    GroupKeys(rows, WeekdayNameOf, AqiOf);
    GroupKeys(hours, HourKeyOf, AqiOf);
    var correlations := CorrelationPairs(lib, rows);
    r := Assemble(city, rows, hours, months, days, hourGroups, correlations);
  }

  /** The answer carries no patterns exactly when the city has no daily
      rows. */
  lemma PatternsWithoutData(lib: Library, daily: seq<Row>, hourly: seq<Row>, city: string)
    ensures PatternsOf(lib, daily, hourly, city) == Ok(NoPatternData(city)) <==> CityRows(daily, city) == []
    ensures PatternsOf(lib, daily, hourly, city).Ok? && CityRows(daily, city) != [] ==>
      PatternsOf(lib, daily, hourly, city).value.PatternSummary?
  {
  }

  /** `mean` throws on a month that collected no AQI value; otherwise on
      an hour that collected none. */
  lemma PatternsFail(lib: Library, daily: seq<Row>, hourly: seq<Row>, city: string)
    ensures var rows, hours := CityRows(daily, city), HourRows(hourly, city);
      var monthGap := exists i :: 0 <= i < |rows| && ValuesWithKey(rows, MonthNameOf, AqiOf, MonthNameOf(rows[i])) == [];
      var hourGap := exists i :: 0 <= i < |hours| && ValuesWithKey(hours, HourKeyOf, AqiOf, HourKeyOf(hours[i])) == [];
      && (PatternsOf(lib, daily, hourly, city) == Err(EmptyMonthBucket) <==> rows != [] && monthGap)
      && (PatternsOf(lib, daily, hourly, city) == Err(EmptyHourBucket) <==> rows != [] && !monthGap && hourGap)
  {
    var rows, hours := CityRows(daily, city), HourRows(hourly, city);
    GroupEmptyBucket(rows, MonthNameOf, AqiOf);
    GroupEmptyBucket(hours, HourKeyOf, AqiOf);
    GroupKeys(rows, WeekdayNameOf, AqiOf);
  }

  /** A summary's three lists are read off the three dictionaries. */
  lemma SummaryParts(lib: Library, daily: seq<Row>, hourly: seq<Row>, city: string)
    requires PatternsOf(lib, daily, hourly, city).Ok? && PatternsOf(lib, daily, hourly, city).value.PatternSummary?
    ensures var rows, hours := CityRows(daily, city), HourRows(hourly, city);
      var summary := PatternsOf(lib, daily, hourly, city).value;
      && WellFormed(Group(rows, MonthNameOf, AqiOf))
      && WellFormed(Group(rows, WeekdayNameOf, AqiOf))
      && WellFormed(Group(hours, HourKeyOf, AqiOf))
      && SeasonalOf(Group(rows, MonthNameOf, AqiOf)) == Ok(summary.seasonal)
      && summary.weekly == WeeklyOf(Group(rows, WeekdayNameOf, AqiOf))
      && (hours == [] ==> summary.hourly == [])
      && (hours != [] ==> HourlyOf(Group(hours, HourKeyOf, AqiOf)) == Ok(summary.hourly))
  {
    var rows, hours := CityRows(daily, city), HourRows(hourly, city);
    GroupKeys(rows, MonthNameOf, AqiOf);
    GroupKeys(rows, WeekdayNameOf, AqiOf);
    GroupKeys(hours, HourKeyOf, AqiOf);
  }

  /** A month list read off a dictionary: entry i is the mean and count
      of the i-th key's non-empty list. */
  lemma SeasonalOfEntries(g: Groups<string>)
    requires WellFormed(g) && SeasonalOf(g).Ok?
    ensures var es, seasonal := Entries(g), SeasonalOf(g).value;
      && |seasonal| == |es|
      && forall i :: 0 <= i < |es| ==>
           |es[i].1| > 0 && seasonal[i] == SeasonEntry(es[i].0, Mean(es[i].1), |es[i].1|)
  {
  }

  /** An hour list read off a dictionary: the entries for the keys'
      non-empty lists, sorted by hour. */
  lemma HourlyOfEntries(g: Groups<int>)
    requires WellFormed(g) && HourlyOf(g).Ok?
    ensures var es, hourly := Entries(g), HourlyOf(g).value;
      && SortedBy(hourly, HourOfEntry)
      && |hourly| == |es|
      && (forall i, j :: 0 <= i < j < |hourly| ==> hourly[i].hour < hourly[j].hour)
      && (forall e :: e in hourly <==> exists i :: 0 <= i < |es| && e == HourEntry(es[i].0, Mean(es[i].1), |es[i].1|))
      && forall i :: 0 <= i < |es| ==> |es[i].1| > 0
  {
    var es := Entries(g);
    var unsorted := seq(|es|, i requires 0 <= i < |es| => HourEntry(es[i].0, Mean(es[i].1), |es[i].1|));
    assert HourlyOf(g).value == SortBy(unsorted, HourOfEntry);
    SortBySorted(unsorted, HourOfEntry);
    HourlyOfStrict(g);
    HourlyOfMembers(g);
  }

  /** The hour list has one entry per dictionary key, and its hours
      strictly increase, so no hour is listed twice. */
  lemma HourlyOfStrict(g: Groups<int>)
    requires WellFormed(g) && HourlyOf(g).Ok?
    ensures var hourly := HourlyOf(g).value;
      && |hourly| == |g.order|
      && forall i, j :: 0 <= i < j < |hourly| ==> hourly[i].hour < hourly[j].hour
  {
    var es := Entries(g);
    var unsorted := seq(|es|, i requires 0 <= i < |es| => HourEntry(es[i].0, Mean(es[i].1), |es[i].1|));
    assert HourlyOf(g).value == SortBy(unsorted, HourOfEntry);
    assert DistinctKeys(unsorted, HourOfEntry) by {
      forall i, j | 0 <= i < j < |unsorted|
        ensures HourOfEntry(unsorted[i]) != HourOfEntry(unsorted[j])
      {
        assert unsorted[i].hour == g.order[i] && unsorted[j].hour == g.order[j];
      }
    }
    SortByStrict(unsorted, HourOfEntry);
    SortByCount(unsorted, HourOfEntry);
  }

  /** The hour list holds exactly the entries of the keys' lists. */
  lemma HourlyOfMembers(g: Groups<int>)
    requires WellFormed(g) && HourlyOf(g).Ok?
    ensures var es, hourly := Entries(g), HourlyOf(g).value;
      forall e :: e in hourly <==> exists i :: 0 <= i < |es| && e == HourEntry(es[i].0, Mean(es[i].1), |es[i].1|)
  {
    var es := Entries(g);
    var unsorted := seq(|es|, i requires 0 <= i < |es| => HourEntry(es[i].0, Mean(es[i].1), |es[i].1|));
    assert HourlyOf(g).value == SortBy(unsorted, HourOfEntry);
    SortByMembers(unsorted, HourOfEntry);
    UnsortedHourMembers(es, unsorted);
  }

  /** The unsorted hour list holds exactly the entries of the keys' lists. */
  lemma UnsortedHourMembers(es: seq<(int, seq<real>)>, unsorted: seq<HourEntry>)
    requires forall i :: 0 <= i < |es| ==> |es[i].1| > 0
    requires |unsorted| == |es|
    requires forall i :: 0 <= i < |es| ==> unsorted[i] == HourEntry(es[i].0, Mean(es[i].1), |es[i].1|)
    ensures forall e :: e in unsorted <==> exists i :: 0 <= i < |es| && e == HourEntry(es[i].0, Mean(es[i].1), |es[i].1|)
  {
    forall e
      ensures e in unsorted <==> exists i :: 0 <= i < |es| && e == HourEntry(es[i].0, Mean(es[i].1), |es[i].1|)
    {
      if e in unsorted {
        var i :| 0 <= i < |unsorted| && unsorted[i] == e;
      }
      if exists i :: 0 <= i < |es| && e == HourEntry(es[i].0, Mean(es[i].1), |es[i].1|) {
        var i :| 0 <= i < |es| && e == HourEntry(es[i].0, Mean(es[i].1), |es[i].1|);
        assert unsorted[i] == e;
      }
    }
  }

  /** Each month entry carries the mean and count of that name's AQI
      values. */
  lemma {:induction false} SeasonalValues(rows: seq<Row>, key: Row -> string)
    requires WellFormed(Group(rows, key, AqiOf)) && SeasonalOf(Group(rows, key, AqiOf)).Ok?
    ensures forall e :: e in SeasonalOf(Group(rows, key, AqiOf)).value ==>
      var values := ValuesWithKey(rows, key, AqiOf, e.month);
      KeyOccurs(rows, key, e.month) && |values| > 0
      && e.averageAQI == Mean(values) && e.dataPoints == |values|
  {
    var seasonal := SeasonalOf(Group(rows, key, AqiOf)).value;
    forall e | e in seasonal
      ensures var values := ValuesWithKey(rows, key, AqiOf, e.month);
        KeyOccurs(rows, key, e.month) && |values| > 0
        && e.averageAQI == Mean(values) && e.dataPoints == |values|
    {
      var j :| 0 <= j < |seasonal| && seasonal[j] == e;
      SeasonalEntryAt(rows, key, j);
    }
  }

  /** The month entry at position `j` carries its name's mean and count. */
  lemma {:induction false} SeasonalEntryAt(rows: seq<Row>, key: Row -> string, j: int)
    requires WellFormed(Group(rows, key, AqiOf)) && SeasonalOf(Group(rows, key, AqiOf)).Ok?
    requires 0 <= j < |SeasonalOf(Group(rows, key, AqiOf)).value|
    ensures var e := SeasonalOf(Group(rows, key, AqiOf)).value[j];
      var values := ValuesWithKey(rows, key, AqiOf, e.month);
      KeyOccurs(rows, key, e.month) && |values| > 0
      && e.averageAQI == Mean(values) && e.dataPoints == |values|
  {
    var g := Group(rows, key, AqiOf);
    var es := Entries(g);
    SeasonalOfEntries(g);
    var k := g.order[j];
    assert es[j].0 == k && es[j].1 == g.buckets[k];
    GroupHasKey(rows, key, AqiOf, k);
    GroupValues(rows, key, AqiOf);
    assert g.buckets[k] == ValuesWithKey(rows, key, AqiOf, k);
  }

  /** Every name of the rows has a month entry, and no name has two. */
  lemma {:induction false} SeasonalCovers(rows: seq<Row>, key: Row -> string)
    requires WellFormed(Group(rows, key, AqiOf)) && SeasonalOf(Group(rows, key, AqiOf)).Ok?
    ensures var seasonal := SeasonalOf(Group(rows, key, AqiOf)).value;
      && (forall i, j :: 0 <= i < j < |seasonal| ==> seasonal[i].month != seasonal[j].month)
      && (forall i :: 0 <= i < |rows| ==> exists e :: e in seasonal && e.month == key(rows[i]))
  {
    GroupCovers(rows, key, AqiOf);
    var g := Group(rows, key, AqiOf);
    var es := Entries(g);
    var seasonal := SeasonalOf(g).value;
    forall i, j | 0 <= i < j < |seasonal|
      ensures seasonal[i].month != seasonal[j].month
    {
      assert seasonal[i].month == es[i].0 && seasonal[j].month == es[j].0;
    }
    forall i | 0 <= i < |rows|
      ensures exists e :: e in seasonal && e.month == key(rows[i])
    {
      var j :| 0 <= j < |g.order| && g.order[j] == key(rows[i]);
      assert seasonal[j].month == es[j].0;
    }
  }

  /** The month list built with any naming of the rows: one entry per name
      of the rows, names distinct, each the mean and count of that name's
      AQI values. */
  lemma SeasonalEntries(rows: seq<Row>, key: Row -> string)
    ensures WellFormed(Group(rows, key, AqiOf))
    ensures var seasonal := SeasonalOf(Group(rows, key, AqiOf));
      seasonal.Ok? ==>
      && (forall e :: e in seasonal.value ==>
            var values := ValuesWithKey(rows, key, AqiOf, e.month);
            KeyOccurs(rows, key, e.month) && |values| > 0
            && e.averageAQI == Mean(values) && e.dataPoints == |values|)
      && (forall i, j :: 0 <= i < j < |seasonal.value| ==> seasonal.value[i].month != seasonal.value[j].month)
      && (forall i :: 0 <= i < |rows| ==> exists e :: e in seasonal.value && e.month == key(rows[i]))
  {
    GroupKeys(rows, key, AqiOf);
    if SeasonalOf(Group(rows, key, AqiOf)).Ok? {
      SeasonalValues(rows, key);
      SeasonalCovers(rows, key);
    }
  }

  /** Each weekday entry carries the mean and count of that name's AQI
      values, or 0 when it has none. */
  lemma {:induction false} WeeklyValues(rows: seq<Row>, key: Row -> string)
    requires WellFormed(Group(rows, key, AqiOf))
    ensures forall e :: e in WeeklyOf(Group(rows, key, AqiOf)) ==>
      var values := ValuesWithKey(rows, key, AqiOf, e.day);
      KeyOccurs(rows, key, e.day)
      && e.averageAQI == (if |values| > 0 then Mean(values) else 0.0) && e.dataPoints == |values|
  {
    GroupEntries(rows, key, AqiOf);
    var g := Group(rows, key, AqiOf);
    var es := Entries(g);
    var weekly := WeeklyOf(g);
    forall e | e in weekly
      ensures var values := ValuesWithKey(rows, key, AqiOf, e.day);
        KeyOccurs(rows, key, e.day)
        && e.averageAQI == (if |values| > 0 then Mean(values) else 0.0) && e.dataPoints == |values|
    {
      var j :| 0 <= j < |weekly| && weekly[j] == e;
      assert e.day == es[j].0;
    }
  }

  /** Every name of the rows has a weekday entry, and no name has two. */
  lemma {:induction false} WeeklyCovers(rows: seq<Row>, key: Row -> string)
    requires WellFormed(Group(rows, key, AqiOf))
    ensures var weekly := WeeklyOf(Group(rows, key, AqiOf));
      && (forall i, j :: 0 <= i < j < |weekly| ==> weekly[i].day != weekly[j].day)
      && (forall i :: 0 <= i < |rows| ==> exists e :: e in weekly && e.day == key(rows[i]))
  {
    GroupCovers(rows, key, AqiOf);
    var g := Group(rows, key, AqiOf);
    var es := Entries(g);
    var weekly := WeeklyOf(g);
    forall i, j | 0 <= i < j < |weekly|
      ensures weekly[i].day != weekly[j].day
    {
      assert weekly[i].day == es[i].0 && weekly[j].day == es[j].0;
    }
    forall i | 0 <= i < |rows|
      ensures exists e :: e in weekly && e.day == key(rows[i])
    {
      var j :| 0 <= j < |g.order| && g.order[j] == key(rows[i]);
      assert weekly[j].day == es[j].0;
    }
  }

  /** The weekday list built with any naming of the rows: one entry per
      name of the rows, names distinct; a name without AQI values averages
      to 0. */
  lemma WeeklyEntries(rows: seq<Row>, key: Row -> string)
    ensures WellFormed(Group(rows, key, AqiOf))
    ensures var weekly := WeeklyOf(Group(rows, key, AqiOf));
      && (forall e :: e in weekly ==>
            var values := ValuesWithKey(rows, key, AqiOf, e.day);
            KeyOccurs(rows, key, e.day)
            && e.averageAQI == (if |values| > 0 then Mean(values) else 0.0) && e.dataPoints == |values|)
      && (forall i, j :: 0 <= i < j < |weekly| ==> weekly[i].day != weekly[j].day)
      && (forall i :: 0 <= i < |rows| ==> exists e :: e in weekly && e.day == key(rows[i]))
  {
    GroupKeys(rows, key, AqiOf);
    WeeklyValues(rows, key);
    WeeklyCovers(rows, key);
  }

  /** Each hour entry carries the mean and count of that hour's AQI
      values. */
  lemma {:induction false} HourlyValues(hours: seq<Row>, key: Row -> int)
    requires WellFormed(Group(hours, key, AqiOf)) && HourlyOf(Group(hours, key, AqiOf)).Ok?
    ensures forall e :: e in HourlyOf(Group(hours, key, AqiOf)).value ==>
      var values := ValuesWithKey(hours, key, AqiOf, e.hour);
      KeyOccurs(hours, key, e.hour) && |values| > 0
      && e.averageAQI == Mean(values) && e.dataPoints == |values|
  {
    GroupEntries(hours, key, AqiOf);
    var g := Group(hours, key, AqiOf);
    var es := Entries(g);
    var hourly := HourlyOf(g).value;
    HourlyOfMembers(g);
    forall e | e in hourly
      ensures var values := ValuesWithKey(hours, key, AqiOf, e.hour);
        KeyOccurs(hours, key, e.hour) && |values| > 0
        && e.averageAQI == Mean(values) && e.dataPoints == |values|
    {
      var j :| 0 <= j < |es| && e == HourEntry(es[j].0, Mean(es[j].1), |es[j].1|);
      assert e.hour == es[j].0;
    }
  }

  /** Every hour of the rows has an hour entry. */
  lemma {:induction false} HourlyCovers(hours: seq<Row>, key: Row -> int)
    requires WellFormed(Group(hours, key, AqiOf)) && HourlyOf(Group(hours, key, AqiOf)).Ok?
    ensures forall i :: 0 <= i < |hours| ==>
      exists e :: e in HourlyOf(Group(hours, key, AqiOf)).value && e.hour == key(hours[i])
  {
    GroupCovers(hours, key, AqiOf);
    var g := Group(hours, key, AqiOf);
    var es := Entries(g);
    var hourly := HourlyOf(g).value;
    HourlyOfMembers(g);
    forall i | 0 <= i < |hours|
      ensures exists e :: e in hourly && e.hour == key(hours[i])
    {
      var j :| 0 <= j < |g.order| && g.order[j] == key(hours[i]);
      var e := HourEntry(es[j].0, Mean(es[j].1), |es[j].1|);
      assert e in hourly;
      assert e.hour == key(hours[i]);
    }
  }

  /** The hour list built with any hour of the rows: sorted by hour, one
      entry per hour of the rows, each the mean and count of that hour's
      AQI values. */
  lemma HourlyEntries(hours: seq<Row>, key: Row -> int)
    ensures WellFormed(Group(hours, key, AqiOf))
    ensures var hourly := HourlyOf(Group(hours, key, AqiOf));
      hourly.Ok? ==>
      && SortedBy(hourly.value, HourOfEntry)
      && (forall i, j :: 0 <= i < j < |hourly.value| ==> hourly.value[i].hour < hourly.value[j].hour)
      && (forall e :: e in hourly.value ==>
            var values := ValuesWithKey(hours, key, AqiOf, e.hour);
            KeyOccurs(hours, key, e.hour) && |values| > 0
            && e.averageAQI == Mean(values) && e.dataPoints == |values|)
      && (forall i :: 0 <= i < |hours| ==> exists e :: e in hourly.value && e.hour == key(hours[i]))
  {
    GroupKeys(hours, key, AqiOf);
    if HourlyOf(Group(hours, key, AqiOf)).Ok? {
      HourlyOfEntries(Group(hours, key, AqiOf));
      HourlyValues(hours, key);
      HourlyCovers(hours, key);
    }
  }

  /** Every row kept for the hourly pattern has a parsed hour. */
  lemma HourRowsParse(hourly: seq<Row>, city: string)
    ensures forall i :: 0 <= i < |HourRows(hourly, city)| ==> HourOf(HourRows(hourly, city)[i]).Some?
  {
  }
}
