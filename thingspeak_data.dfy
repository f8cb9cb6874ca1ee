/** The `useThingSpeakData` hook: the latest sensor metrics and the per-field
    trend series it keeps in component state. */
module ThingSpeakData {
  import opened Wrappers
  import opened ThingSpeakService

  /** `HealthMetrics`. */
  datatype Metrics = Metrics(
    aqi: real,
    pm25: real,
    co2: real,
    stress: real,
    pathogenRisk: real,
    temperature: real,
    humidity: real)

  /** The AQI the sensor's category code stands for: 1 good (50),
      2 moderate (100), 3 poor (150), anything else 0. */
  function AqiFromCode(code: real): (aqi: real)
    ensures code == 1.0 || code == 2.0 || code == 3.0 ==> aqi == 50.0 * code
    ensures !(code == 1.0 || code == 2.0 || code == 3.0) ==> aqi == 0.0
  {
    if code == 1.0 then 50.0
    else if code == 2.0 then 100.0
    else if code == 3.0 then 150.0
    else 0.0
  }

  /** The metrics `fetchLatestData` reads off the latest feed entry. */
  function MetricsOf(latest: Feed): Metrics {
    Metrics(
      AqiFromCode(ParseFieldValue(latest.field6, 1.0)),
      ParseFieldValue(latest.field4, 0.0),
      ParseFieldValue(latest.field3, 400.0),
      ParseFieldValue(latest.field5, 0.0),
      0.0,
      ParseFieldValue(latest.field1, 0.0),
      ParseFieldValue(latest.field2, 0.0))
  }

  /** The defaults: a missing or empty AQI code counts as code 1, so AQI
      50; a missing or empty CO2 reading counts as 400 and the other missing
      or empty readings as 0;
      the pathogen risk is always 0. */
  lemma MetricsDefaults(latest: Feed)
    ensures latest.field6.None? || latest.field6.value == [] ==> MetricsOf(latest).aqi == 50.0
    ensures latest.field3.None? || latest.field3.value == [] ==> MetricsOf(latest).co2 == 400.0
    ensures latest.field1.None? || latest.field1.value == [] ==> MetricsOf(latest).temperature == 0.0
    ensures latest.field2.None? || latest.field2.value == [] ==> MetricsOf(latest).humidity == 0.0
    ensures latest.field4.None? || latest.field4.value == [] ==> MetricsOf(latest).pm25 == 0.0
    ensures latest.field5.None? || latest.field5.value == [] ==> MetricsOf(latest).stress == 0.0
    ensures MetricsOf(latest).pathogenRisk == 0.0
    ensures MetricsOf(latest).aqi == 0.0 || MetricsOf(latest).aqi == 50.0
      || MetricsOf(latest).aqi == 100.0 || MetricsOf(latest).aqi == 150.0
  {
  }

  /** One point of a trend chart; `time` is the display form of the
      timestamp. */
  datatype TrendPoint = TrendPoint(time: string, value: real, timestamp: string)

  function Reversed<T>(s: seq<T>): (r: seq<T>)
    ensures |r| == |s|
    ensures forall i :: 0 <= i < |s| ==> r[i] == s[|s| - 1 - i]
  {
    if s == [] then [] else [s[|s| - 1]] + Reversed(s[..|s| - 1])
  }

  /** The point `fetchAllTrends` pushes for one feed and field k: one when
      the field is a non-empty text, none otherwise. */
  function PointOf(feed: Feed, k: int, format: string -> string): seq<TrendPoint> {
    if feed.Field(k).Some? && feed.Field(k).value != []
    then [TrendPoint(format(feed.createdAt), ParseFieldValue(feed.Field(k), 0.0), feed.createdAt)]
    else []
  }

  /** `fetchAllTrends`' series for field k over the feeds in the order
      visited. */
  function PointsOf(feeds: seq<Feed>, k: int, format: string -> string): seq<TrendPoint> {
    if feeds == [] then []
    else PointsOf(feeds[..|feeds| - 1], k, format) + PointOf(feeds[|feeds| - 1], k, format)
  }

  /** One more feed visited adds its point, if any, at the end. */
  lemma PointsOfStep(feeds: seq<Feed>, i: int, k: int, format: string -> string)
    requires 0 <= i < |feeds|
    ensures PointsOf(feeds[..i + 1], k, format) == PointsOf(feeds[..i], k, format) + PointOf(feeds[i], k, format)
  {
    assert feeds[..i + 1][..i] == feeds[..i];
  }

  /** A series has one point per feed that sent the field, in feed order:
      it is never longer than the feed list and splits as the list does. */
  lemma {:induction false} PointsOfFacts(a: seq<Feed>, b: seq<Feed>, k: int, format: string -> string)
    ensures |PointsOf(a, k, format)| <= |a|
    ensures PointsOf(a + b, k, format) == PointsOf(a, k, format) + PointsOf(b, k, format)
    decreases |b|
  {
    if b == [] {
      assert a + b == a;
      PointsOfLength(a, k, format);
    } else {
      var init := b[..|b| - 1];
      assert (a + b)[..|a + b| - 1] == a + init;
      assert (a + b)[|a + b| - 1] == b[|b| - 1];
      PointsOfFacts(a, init, k, format);
    }
  }

  lemma {:induction false} PointsOfLength(a: seq<Feed>, k: int, format: string -> string)
    ensures |PointsOf(a, k, format)| <= |a|
  {
    if a != [] {
      PointsOfLength(a[..|a| - 1], k, format);
    }
  }

  /** Every point comes from a feed that sent the field, and carries its
      timestamp and its parsed value. */
  lemma {:induction false} PointsOfMembers(feeds: seq<Feed>, k: int, format: string -> string, p: TrendPoint)
    requires p in PointsOf(feeds, k, format)
    ensures exists i :: (0 <= i < |feeds| && feeds[i].Field(k).Some? && feeds[i].Field(k).value != []
      && p == TrendPoint(format(feeds[i].createdAt), ParseFieldValue(feeds[i].Field(k), 0.0), feeds[i].createdAt))
  {
    var init := feeds[..|feeds| - 1];
    if p in PointsOf(init, k, format) {
      PointsOfMembers(init, k, format, p);
      var i :| 0 <= i < |init| && init[i].Field(k).Some? && init[i].Field(k).value != []
        && p == TrendPoint(format(init[i].createdAt), ParseFieldValue(init[i].Field(k), 0.0), init[i].createdAt);
      assert feeds[i] == init[i];
    }
  }

  /** `fetchTrendData(n)`'s series: one point per feed in reversed order,
      reading field n with default 0. */
  function FieldSeries(feeds: seq<Feed>, n: int, format: string -> string): (r: seq<TrendPoint>)
    ensures |r| == |feeds|
    ensures forall i :: 0 <= i < |feeds| ==>
      r[i] == TrendPoint(format(feeds[|feeds| - 1 - i].createdAt), ParseFieldValue(feeds[|feeds| - 1 - i].Field(n), 0.0), feeds[|feeds| - 1 - i].createdAt)
  {
    var reversed := Reversed(feeds);
    seq(|reversed|, i requires 0 <= i < |reversed| =>
      TrendPoint(format(reversed[i].createdAt), ParseFieldValue(reversed[i].Field(n), 0.0), reversed[i].createdAt))
  }

  /** The six series `fetchAllTrends` stores, keyed by field number. */
  function AllSeries(feeds: seq<Feed>, format: string -> string): map<int, seq<TrendPoint>> {
    var reversed := Reversed(feeds);
    map[1 := PointsOf(reversed, 1, format), 2 := PointsOf(reversed, 2, format), 3 := PointsOf(reversed, 3, format),
        4 := PointsOf(reversed, 4, format), 5 := PointsOf(reversed, 5, format), 6 := PointsOf(reversed, 6, format)]
  }

  /** The series hold exactly the keys 1 to 6, each in reversed feed order
      and no longer than the feed list. */
  lemma AllSeriesFacts(feeds: seq<Feed>, format: string -> string)
    ensures AllSeries(feeds, format).Keys == {1, 2, 3, 4, 5, 6}
    ensures forall k :: k in AllSeries(feeds, format) ==>
      AllSeries(feeds, format)[k] == PointsOf(Reversed(feeds), k, format) && |AllSeries(feeds, format)[k]| <= |feeds|
  {
    var series, reversed := AllSeries(feeds, format), Reversed(feeds);
    assert series.Keys == {1, 2, 3, 4, 5, 6};
    forall k | k in series
      ensures series[k] == PointsOf(reversed, k, format) && |series[k]| <= |feeds|
    {
      PointsOfLength(reversed, k, format);
      if k == 1 {
      } else if k == 2 {
      } else if k == 3 {
      } else if k == 4 {
      } else if k == 5 {
      } else {
        assert k == 6;
      }
    }
  }

  /** The `forEach` of `fetchAllTrends` over the feeds in reversed order,
      pushing each feed's point onto the series of every field it sent. */
  method CollectTrends(feeds: seq<Feed>, format: string -> string) returns (series: map<int, seq<TrendPoint>>)
    ensures series == AllSeries(feeds, format)
  {
    var s1, s2, s3, s4, s5, s6 := CollectPoints(Reversed(feeds), format);
    series := map[1 := s1, 2 := s2, 3 := s3, 4 := s4, 5 := s5, 6 := s6];
  }

  /** The loop of that `forEach`, with the six series as its variables. */
  method CollectPoints(feeds: seq<Feed>, format: string -> string)
    returns (s1: seq<TrendPoint>, s2: seq<TrendPoint>, s3: seq<TrendPoint>, s4: seq<TrendPoint>, s5: seq<TrendPoint>, s6: seq<TrendPoint>)
    ensures s1 == PointsOf(feeds, 1, format) && s2 == PointsOf(feeds, 2, format) && s3 == PointsOf(feeds, 3, format)
    ensures s4 == PointsOf(feeds, 4, format) && s5 == PointsOf(feeds, 5, format) && s6 == PointsOf(feeds, 6, format)
  {
    s1, s2, s3, s4, s5, s6 := [], [], [], [], [], [];
    var i := 0;
    while i < |feeds|
      invariant i <= |feeds|
      invariant s1 == PointsOf(feeds[..i], 1, format) && s2 == PointsOf(feeds[..i], 2, format)
      invariant s3 == PointsOf(feeds[..i], 3, format) && s4 == PointsOf(feeds[..i], 4, format)
      invariant s5 == PointsOf(feeds[..i], 5, format) && s6 == PointsOf(feeds[..i], 6, format)
    {
      var feed := feeds[i];
      PointsOfStep(feeds, i, 1, format);
      PointsOfStep(feeds, i, 2, format);
      PointsOfStep(feeds, i, 3, format);
      PointsOfStep(feeds, i, 4, format);
      PointsOfStep(feeds, i, 5, format);
      PointsOfStep(feeds, i, 6, format);
      s1 := s1 + PointOf(feed, 1, format);
      s2 := s2 + PointOf(feed, 2, format);
      s3 := s3 + PointOf(feed, 3, format);
      s4 := s4 + PointOf(feed, 4, format);
      s5 := s5 + PointOf(feed, 5, format);
      s6 := s6 + PointOf(feed, 6, format);
      i := i + 1;
    }
    assert feeds[..i] == feeds;
  }

  /** The state the hook keeps. */
  class ThingSpeakState {
    var metrics: Metrics
    var trends: map<int, seq<TrendPoint>>
    var loading: bool
    var error: Option<string>
    var lastUpdate: Option<string>

    constructor()
      ensures metrics == Metrics(0.0, 0.0, 0.0, 0.0, 0.0, 0.0, 0.0)
      ensures trends == map[1 := [], 2 := [], 3 := [], 4 := [], 5 := [], 6 := []]
      ensures loading && error == None && lastUpdate == None
    {
      metrics := Metrics(0.0, 0.0, 0.0, 0.0, 0.0, 0.0, 0.0);
      trends := map[1 := [], 2 := [], 3 := [], 4 := [], 5 := [], 6 := []];
      loading := true;
      error := None;
      lastUpdate := None;
    }

    /** `fetchLatestData` given the outcome of reading one feed entry: the
        metrics and the update time change only when an entry came back. */
    method FetchLatestData(outcome: Result<seq<Feed>, string>)
      modifies this
      ensures outcome.Ok? && outcome.value != [] ==>
        metrics == MetricsOf(outcome.value[0]) && lastUpdate == Some(outcome.value[0].createdAt)
      ensures !(outcome.Ok? && outcome.value != []) ==>
        metrics == old(metrics) && lastUpdate == old(lastUpdate)
      ensures error == (if outcome.Ok? then None else Some(outcome.error))
      ensures !loading && trends == old(trends)
    {
      var nextMetrics, nextUpdate, nextError := metrics, lastUpdate, None;
      if outcome.Ok? {
        var feeds := outcome.value;
        if |feeds| > 0 {
          var latest := feeds[0];
          nextMetrics := MetricsOf(latest);
          nextUpdate := Some(latest.createdAt);
        }
      } else {
        nextError := Some(outcome.error);
      }
      metrics, lastUpdate, error, loading := nextMetrics, nextUpdate, nextError, false;
    }

    /** `fetchTrendData(n)` given the outcome of reading the field: only the
        series for field n is replaced; a rejected field number or a failed
        request changes nothing. */
    method FetchTrendData(n: int, results: int, outcome: Result<seq<Feed>, string>, format: string -> string)
      modifies this
      ensures FieldRequest(n, results).Ok? && outcome.Ok? ==> trends == old(trends)[n := FieldSeries(outcome.value, n, format)]
      ensures !(FieldRequest(n, results).Ok? && outcome.Ok?) ==> trends == old(trends)
      ensures metrics == old(metrics) && loading == old(loading) && error == old(error) && lastUpdate == old(lastUpdate)
    {
      var request := FieldRequest(n, results);
      if request.Ok? && outcome.Ok? {
        trends := trends[n := FieldSeries(outcome.value, n, format)];
      }
    }

    /** `fetchAllTrends` given the outcome of reading the feed: the six
        series are rebuilt from the feeds in reversed order, replacing
        whatever series were there. */
    method FetchAllTrends(outcome: Result<seq<Feed>, string>, format: string -> string)
      modifies this
      ensures outcome.Ok? ==> trends == AllSeries(outcome.value, format)
      ensures outcome.Err? ==> trends == old(trends)
      ensures metrics == old(metrics) && loading == old(loading) && error == old(error) && lastUpdate == old(lastUpdate)
    {
      if outcome.Err? {
        return;
      }
      trends := CollectTrends(outcome.value, format);
    }
  }
}
