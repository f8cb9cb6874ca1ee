/** The station service of the API server: the fixed mock list, the test
    that keeps only stations of the Kolkata region from the AQICN feeds,
    the five-minute cache of the station list and the lookup by id. */
module Stations {
  import opened Wrappers
  import opened Text

  datatype Station = Station(
    id: string,
    name: string,
    lat: real,
    lon: real,
    aqi: real,
    pm25: Option<real>,
    pm10: Option<real>,
    dominant: string,
    lastUpdate: string)

  function Mock(id: string, name: string, lat: real, lon: real, aqi: real, pm25: real, pm10: real, now: string): Station {
    Station(id, name, lat, lon, aqi, Some(pm25), Some(pm10), "PM2.5", now)
  }

  /** `getMockStations()`, stamped with the current time. */
  function MockStations(now: string): seq<Station> {
    [ Mock("1", "Ballygunge, Kolkata", 22.5344, 88.3656, 171.0, 84.0, 105.0, now),
      Mock("2", "Fort William, Kolkata", 22.5497, 88.342, 165.0, 79.0, 98.0, now),
      Mock("3", "Jadavpur, Kolkata", 22.4991, 88.3637, 183.0, 92.0, 118.0, now),
      Mock("4", "Rabindra Bharati University, Kolkata", 22.6534, 88.3739, 158.0, 75.0, 95.0, now),
      Mock("5", "Victoria Memorial, Kolkata", 22.5448, 88.3426, 176.0, 87.0, 108.0, now),
      Mock("6", "Rabindra Sarobar, Kolkata", 22.5167, 88.3667, 168.0, 81.0, 102.0, now),
      Mock("7", "Bidhannagar, Kolkata", 22.5780, 88.4337, 162.0, 77.0, 96.0, now),
      Mock("8", "Howrah", 22.5958, 88.2636, 194.0, 98.0, 125.0, now),
      Mock("9", "Salt Lake, Kolkata", 22.578, 88.4337, 162.0, 77.0, 96.0, now),
      Mock("10", "Dum Dum, Kolkata", 22.6283, 88.4170, 179.0, 88.0, 112.0, now),
      Mock("11", "Park Street, Kolkata", 22.5535, 88.3583, 172.0, 85.0, 106.0, now),
      Mock("12", "New Town, Kolkata", 22.5867, 88.4750, 155.0, 72.0, 92.0, now),
      Mock("13", "Rajarhat, Kolkata", 22.6208, 88.4617, 164.0, 78.0, 98.0, now),
      Mock("14", "Behala, Kolkata", 22.4850, 88.3100, 186.0, 94.0, 120.0, now),
      Mock("15", "Kasba, Kolkata", 22.5200, 88.3800, 174.0, 86.0, 108.0, now) ]
  }

  /** The mock ids are the numbers 1 to 15 in order. */
  lemma MockIdNumbers(now: string)
    ensures |MockStations(now)| == 15
    ensures forall k :: 0 <= k < 15 ==>
      AllDigits(MockStations(now)[k].id) && DigitsValue(MockStations(now)[k].id) == k + 1
  {
    var m := MockStations(now);
    forall k | 0 <= k < 15
      ensures AllDigits(m[k].id) && DigitsValue(m[k].id) == k + 1
    {
      var id := m[k].id;
      if k < 9 {
        assert id == [DigitChar(k + 1)];
      } else {
        assert id == ['1', DigitChar(k - 9)];
        assert id[..1] == ['1'];
      }
    }
  }

  /** The mock list holds fifteen stations with distinct ids. */
  lemma MockIdsDistinct(now: string)
    ensures |MockStations(now)| == 15
    ensures forall i, j :: 0 <= i < j < 15 ==> MockStations(now)[i].id != MockStations(now)[j].id
  {
    MockIdNumbers(now);
  }

  /** Every mock station lies inside the Kolkata box. */
  lemma MockStationsInBox(now: string)
    ensures forall k :: 0 <= k < |MockStations(now)| ==> InKolkataGeo(MockStations(now)[k].lat, MockStations(now)[k].lon)
  {
    var m := MockStations(now);
    forall k | 0 <= k < |m|
      ensures InKolkataGeo(m[k].lat, m[k].lon)
    {
      assert 22.4850 <= m[k].lat <= 22.6534;
      assert 88.2636 <= m[k].lon <= 88.4750;
    }
  }

  /** The AQICN feed names the server asks for, in order. */
  const Locations: seq<string> := [
    "kolkata",
    "howrah",
    "kolkata/us-consulate",
    StationPath + "ballygunge",
    StationPath + "fort-william",
    StationPath + "jadavpur",
    StationPath + "rabindra-bharati",
    StationPath + "victoria",
    StationPath + "bidhannagar",
    StationPath + "dum-dum"]

  /** The common prefix of the named Kolkata stations. */
  const StationPath: string := "india/west-bengal/kolkata/"

  /** The fields of a feed's `data` the server reads; `None` is a missing
      field. */
  datatype FeedData = FeedData(
    idx: Option<int>,
    cityName: Option<string>,
    geoLat: Option<real>,
    geoLon: Option<real>,
    country: Option<string>,
    url: Option<string>,
    aqi: Option<real>,
    pm25: Option<real>,
    pm10: Option<real>,
    dominentpol: Option<string>,
    time: Option<string>)

  /** The outcome of one request: it failed, or the body's `status` and
      `data`. */
  datatype Reply = Unreachable | Reply(status: string, data: Option<FeedData>)

  /** `s || fallback` on an optional string: empty and missing are falsy. */
  function TextOr(s: Option<string>, fallback: string): (r: string)
    ensures s.Some? && s.value != [] ==> r == s.value
    ensures s.None? || s.value == [] ==> r == fallback
  {
    if s.Some? && s.value != [] then s.value else fallback
  }

  /** `x || fallback` on an optional number: zero and missing are falsy. */
  function NumberOr(x: Option<real>, fallback: real): (r: real)
    ensures x.Some? && x.value != 0.0 ==> r == x.value
    ensures x.None? || x.value == 0.0 ==> r == fallback
  {
    if x.Some? && x.value != 0.0 then x.value else fallback
  }

  /** `x || null`. */
  function NonZero(x: Option<real>): (r: Option<real>)
    ensures r.Some? <==> x.Some? && x.value != 0.0
    ensures r.Some? ==> r == x
  {
    if x.Some? && x.value != 0.0 then x else None
  }

  function NameOf(location: string, d: FeedData): string {
    TextOr(d.cityName, location)
  }

  function LatOf(d: FeedData): real {
    NumberOr(d.geoLat, 22.5726)
  }

  function LonOf(d: FeedData): real {
    NumberOr(d.geoLon, 88.3639)
  }

  /** The geographic box of the Kolkata region, bounds included. */
  predicate InKolkataGeo(lat: real, lon: real) {
    22.3 <= lat <= 22.8 && 88.1 <= lon <= 88.6
  }

  /** The Devanagari name of India as the source file's text spells it:
      its UTF-8 bytes shown in Windows-1252, one character per byte. */
  const IndiaNative: string := "\U{E0}\U{A4}\U{AD}\U{E0}\U{A4}\U{BE}\U{E0}\U{A4}\U{B0}\U{E0}\U{A4}\U{A4}"

  /** The Bengali name of Kolkata as the source text spells it, likewise. */
  const KolkataNative: string := "\U{E0}\U{A6}\U{2022}\U{E0}\U{A6}\U{B2}\U{E0}\U{A6}\U{2022}\U{E0}\U{A6}\U{BE}\U{E0}\U{A6}\U{A4}\U{E0}\U{A6}\U{BE}"

  const KolkataKeywords: seq<string> := ["kolkata", "howrah", "calcutta", KolkataNative, "west bengal"]

  /** `isInIndia`, over the lower-cased country and URL. */
  predicate InIndia(country: string, url: string) {
    Contains(country, "india") || Contains(country, IndiaNative) || Contains(url, "/india/")
  }

  /** `nameContainsKolkata`: a keyword occurs in the lower-cased station
      name or location. */
  predicate MentionsKolkata(name: string, location: string) {
    exists k | 0 <= k < |KolkataKeywords| ::
      Contains(LowerAscii(name), KolkataKeywords[k]) || Contains(LowerAscii(location), KolkataKeywords[k])
  }

  /** `isValid`: inside the box, and in India or named after Kolkata. */
  predicate Accepted(location: string, d: FeedData) {
    && InKolkataGeo(LatOf(d), LonOf(d))
    && (InIndia(LowerAscii(TextOr(d.country, "")), LowerAscii(TextOr(d.url, "")))
        || MentionsKolkata(NameOf(location, d), location))
  }

  /** The station record built from an accepted feed. */
  function StationOf(location: string, d: FeedData, now: string): Station {
    Station(
      if d.idx.Some? then IntToDecimal(d.idx.value) else location,
      NameOf(location, d),
      LatOf(d),
      LonOf(d),
      NumberOr(d.aqi, 0.0),
      NonZero(d.pm25),
      NonZero(d.pm10),
      TextOr(d.dominentpol, "PM2.5"),
      TextOr(d.time, now))
  }

  /** One location's result: a station, or `null` when the request failed,
      the status is not `ok`, there is no data or the test rejects it. */
  function Fetched(location: string, reply: Reply, now: string): Option<Station> {
    if reply.Reply? && reply.status == "ok" && reply.data.Some? && Accepted(location, reply.data.value)
    then Some(StationOf(location, reply.data.value, now))
    else None
  }

  /** `results.filter(s => s !== null)`, in location order. */
  function Survivors(locations: seq<string>, fetch: string -> Reply, now: string): seq<Station> {
    if locations == [] then []
    else
      var first := Fetched(locations[0], fetch(locations[0]), now);
      (if first.Some? then [first.value] else []) + Survivors(locations[1..], fetch, now)
  }

  /** `fetchFromAPI()`: the mock list when the API is not configured or no
      station survives, otherwise the survivors. */
  function FetchStations(configured: bool, fetch: string -> Reply, now: string): seq<Station> {
    var survivors := Survivors(Locations, fetch, now);
    if !configured || survivors == [] then MockStations(now) else survivors
  }

  /** There are at most as many survivors as locations, and every survivor
      comes from an `ok` reply with data the test accepts. */
  lemma {:induction false} SurvivorsFrom(locations: seq<string>, fetch: string -> Reply, now: string)
    ensures |Survivors(locations, fetch, now)| <= |locations|
    ensures forall s :: s in Survivors(locations, fetch, now) ==>
      exists i :: 0 <= i < |locations| && Fetched(locations[i], fetch(locations[i]), now) == Some(s)
  {
    if locations != [] {
      SurvivorsFrom(locations[1..], fetch, now);
      var rest := Survivors(locations[1..], fetch, now);
      forall s | s in Survivors(locations, fetch, now)
        ensures exists i :: 0 <= i < |locations| && Fetched(locations[i], fetch(locations[i]), now) == Some(s)
      {
        if s in rest {
          var i :| 0 <= i < |locations[1..]| && Fetched(locations[1..][i], fetch(locations[1..][i]), now) == Some(s);
          assert locations[1..][i] == locations[i + 1];
        } else {
          assert Fetched(locations[0], fetch(locations[0]), now) == Some(s);
        }
      }
    }
  }

  /** Survivors keep the order of their locations: the survivors of two
      lists of locations are those of the first followed by those of the
      second. */
  lemma {:induction false} SurvivorsAppend(locations: seq<string>, more: seq<string>, fetch: string -> Reply, now: string)
    ensures Survivors(locations + more, fetch, now) == Survivors(locations, fetch, now) + Survivors(more, fetch, now)
  {
    if locations != [] {
      SurvivorsAppend(locations[1..], more, fetch, now);
      assert (locations + more)[1..] == locations[1..] + more;
      var first := Fetched(locations[0], fetch(locations[0]), now);
      var head := if first.Some? then [first.value] else [];
      var rest := Survivors(locations[1..], fetch, now);
      assert Survivors(locations + more, fetch, now) == head + (rest + Survivors(more, fetch, now));
    } else {
      assert locations + more == more;
    }
  }

  /** Every survivor comes from an `ok` reply with data the test accepts,
      lies inside the box, and there are at most as many survivors as
      locations; survivors keep the order of their locations. */
  lemma SurvivorsFacts(locations: seq<string>, more: seq<string>, fetch: string -> Reply, now: string)
    ensures |Survivors(locations, fetch, now)| <= |locations|
    ensures forall s :: s in Survivors(locations, fetch, now) ==>
      exists i :: 0 <= i < |locations| && Fetched(locations[i], fetch(locations[i]), now) == Some(s)
    ensures forall s :: s in Survivors(locations, fetch, now) ==> InKolkataGeo(s.lat, s.lon)
    ensures Survivors(locations + more, fetch, now) == Survivors(locations, fetch, now) + Survivors(more, fetch, now)
  {
    SurvivorsFrom(locations, fetch, now);
    SurvivorsAppend(locations, more, fetch, now);
    forall s | s in Survivors(locations, fetch, now)
      ensures InKolkataGeo(s.lat, s.lon)
    {
      var i :| 0 <= i < |locations| && Fetched(locations[i], fetch(locations[i]), now) == Some(s);
    }
  }

  /** The answer is never empty, and it is the mock list exactly when the
      API is not configured or no station survives. */
  lemma FetchFallsBack(configured: bool, fetch: string -> Reply, now: string)
    ensures |FetchStations(configured, fetch, now)| > 0
    ensures !configured || Survivors(Locations, fetch, now) == [] ==> FetchStations(configured, fetch, now) == MockStations(now)
    ensures configured && Survivors(Locations, fetch, now) != [] ==> FetchStations(configured, fetch, now) == Survivors(Locations, fetch, now)
  {
    MockIdsDistinct(now);
  }

  /** A lower-case keyword at position p of a text stays there once the
      text is lower-cased. */
  lemma KeywordKept(s: string, keyword: string, p: nat)
    requires OccursAt(s, keyword, p)
    requires forall i :: 0 <= i < |keyword| ==> !('A' <= keyword[i] <= 'Z')
    ensures Contains(LowerAscii(s), keyword)
  {
    var lower := LowerAscii(s);
    forall i | 0 <= i < |keyword|
      ensures lower[p + i] == keyword[i]
    {
      assert s[p + i] == s[p..p + |keyword|][i];
    }
    assert lower[p..p + |keyword|] == keyword;
    assert OccursAt(lower, keyword, p);
  }

  /** Each location the server asks for holds `kolkata` or `howrah`. */
  lemma LocationKeyword(i: nat)
    requires i < |Locations|
    ensures Contains(LowerAscii(Locations[i]), KolkataKeywords[0]) || Contains(LowerAscii(Locations[i]), KolkataKeywords[1])
  {
    var location := Locations[i];
    if i == 1 {
      assert location[0..6] == "howrah";
      KeywordKept(location, KolkataKeywords[1], 0);
    } else if i < 3 {
      assert location[0..7] == "kolkata";
      KeywordKept(location, KolkataKeywords[0], 0);
    } else {
      var tail := location[|StationPath|..];
      assert location == StationPath + tail;
      assert location[18..25] == StationPath[18..25] == "kolkata";
      KeywordKept(location, KolkataKeywords[0], 18);
    }
  }

  /** Every location the server asks for names Kolkata or Howrah, so for
      those locations the test reduces to the geographic box. */
  lemma AcceptedInsideBox(i: nat, d: FeedData)
    requires i < |Locations|
    ensures Accepted(Locations[i], d) <==> InKolkataGeo(LatOf(d), LonOf(d))
  {
    LocationKeyword(i);
    assert MentionsKolkata(NameOf(Locations[i], d), Locations[i]);
  }

  /** `stations.find(s => s.id === id)`: the first station with the id. */
  function Find(stations: seq<Station>, id: string): (r: Option<Station>)
    ensures r.None? <==> forall i :: 0 <= i < |stations| ==> stations[i].id != id
    ensures r.Some? ==> exists i :: (0 <= i < |stations| && stations[i] == r.value && r.value.id == id
      && forall j :: 0 <= j < i ==> stations[j].id != id)
  {
    if stations == [] then None
    else if stations[0].id == id then Some(stations[0])
    else
      var r := Find(stations[1..], id);
      assert forall i :: 1 <= i < |stations| ==> stations[i] == stations[1..][i - 1];
      if r.Some? then
        assert exists i :: (0 <= i < |stations| && stations[i] == r.value && r.value.id == id
          && forall j :: 0 <= j < i ==> stations[j].id != id) by {
          var k :| 0 <= k < |stations[1..]| && stations[1..][k] == r.value && r.value.id == id
            && forall j :: 0 <= j < k ==> stations[1..][j].id != id;
          assert stations[k + 1] == r.value;
        }
        r
      else r
  }

  /** The station-by-id answer given the list a fresh fetch would return:
      the first cached station with the id, otherwise the first fetched one;
      `None` is the 404. */
  function LookupOf(cached: Option<seq<Station>>, id: string, fetched: seq<Station>): Option<Station> {
    if cached.Some? && Find(cached.value, id).Some? then Find(cached.value, id)
    else Find(fetched, id)
  }

  /** `find` comes back empty exactly when no station has the id. */
  lemma FindAbsent(stations: seq<Station>, id: string)
    ensures Find(stations, id).None? <==> forall s :: s in stations ==> s.id != id
  {
    if Find(stations, id).None? {
      forall s | s in stations
        ensures s.id != id
      {
        var i :| 0 <= i < |stations| && stations[i] == s;
      }
    }
  }

  /** A found station carries the id; the answer is a 404 exactly when
      neither the cache nor the fetched list holds the id; a cached station
      wins over a fetched one. */
  lemma LookupFacts(cached: Option<seq<Station>>, id: string, fetched: seq<Station>)
    ensures var r := LookupOf(cached, id, fetched);
      && (r.Some? ==> r.value.id == id)
      && (r.None? <==>
            (cached.None? || forall s :: s in cached.value ==> s.id != id)
            && forall s :: s in fetched ==> s.id != id)
      && (cached.Some? && (exists s :: s in cached.value && s.id == id) ==> r == Find(cached.value, id))
  {
    FindAbsent(fetched, id);
    if cached.Some? {
      FindAbsent(cached.value, id);
    }
  }

  /** The cache's time to live, five minutes in milliseconds. */
  const TTL: int := 300000

  /** `cache.stations && cache.timestamp && now - cache.timestamp < TTL`;
      an empty list is truthy, a zero timestamp is not. */
  predicate FreshAt(stations: Option<seq<Station>>, timestamp: Option<int>, now: int) {
    stations.Some? && timestamp.Some? && timestamp.value != 0 && now - timestamp.value < TTL
  }

  datatype StationsReply = StationsReply(cached: bool, count: nat, data: seq<Station>)

  /** The module-level `cache` object. */
  class StationCache {
    var stations: Option<seq<Station>>
    var timestamp: Option<int>

    constructor()
      ensures stations == None && timestamp == None
    {
      stations := None;
      timestamp := None;
    }

    predicate Serves(now: int)
      reads this
    {
      FreshAt(stations, timestamp, now)
    }

    /** `GET /api/aqi/stations` at time `now`. */
    method GetStations(now: int, configured: bool, fetch: string -> Reply, nowIso: string) returns (reply: StationsReply)
      modifies this
      ensures reply.count == |reply.data|
      ensures old(Serves(now)) ==>
        && reply == StationsReply(true, |old(stations).value|, old(stations).value)
        && stations == old(stations) && timestamp == old(timestamp)
      ensures !old(Serves(now)) ==>
        && reply == StationsReply(false, |FetchStations(configured, fetch, nowIso)|, FetchStations(configured, fetch, nowIso))
        && stations == Some(FetchStations(configured, fetch, nowIso))
        && timestamp == Some(now)
      // After a refill, the cache serves exactly the requests made less than
      // five minutes later; a refill at time 0 leaves a falsy timestamp, so
      // the cache never serves.
      ensures !old(Serves(now)) && now != 0 ==> forall later :: Serves(later) <==> later - now < TTL
      ensures !old(Serves(now)) && now == 0 ==> forall later :: !Serves(later)
    {
      if stations.Some? && timestamp.Some? && timestamp.value != 0 && now - timestamp.value < TTL {
        return StationsReply(true, |stations.value|, stations.value);
      }
      var fetched := FetchStations(configured, fetch, nowIso);
      stations := Some(fetched);
      timestamp := Some(now);
      reply := StationsReply(false, |fetched|, fetched);
    }

    /** `GET /api/aqi/station/:id`; it reads the cache without checking its
      age and never writes it. */
    method StationById(id: string, configured: bool, fetch: string -> Reply, nowIso: string) returns (r: Option<Station>)
      ensures r == LookupOf(stations, id, FetchStations(configured, fetch, nowIso))
    {
      if stations.Some? {
        var found := Find(stations.value, id);
        if found.Some? {
          return found;
        }
      }
      r := Find(FetchStations(configured, fetch, nowIso), id);
    }
  }
}
