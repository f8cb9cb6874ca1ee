/** The rows the analytics read (one line of `city_day.csv` or
    `city_hour.csv`), already parsed: the loader is not part of this model. */
module AnalyticsRows {
  import opened Wrappers
  import opened Text
  import opened Collections

  type Month = m: int | 1 <= m <= 12 witness 1
  type Weekday = d: int | 0 <= d <= 6 witness 0

  /** `new Date(row.Datetime)` as the code reads it: local calendar year,
      1-based month (`getMonth() + 1`), day of week (`getDay()`, 0 = Sunday)
      and the instant in milliseconds used for comparisons. */
  datatype Date = Date(year: int, month: Month, weekday: Weekday, instant: int)

  /** The six pollutant columns of the daily file. */
  datatype Pollutant = PM25 | PM10 | NO2 | SO2 | CO | O3 {
    function Column(): string {
      match this
      case PM25 => "PM2.5"
      case PM10 => "PM10"
      case NO2 => "NO2"
      case SO2 => "SO2"
      case CO => "CO"
      case O3 => "O3"
    }
  }

  /** One CSV row; a numeric cell is `None` when `parseFloat` gives NaN. */
  datatype Row = Row(
    city: string,
    datetime: string,
    date: Date,
    aqi: Option<real>,
    pm25: Option<real>,
    pm10: Option<real>,
    no2: Option<real>,
    so2: Option<real>,
    co: Option<real>,
    o3: Option<real>,
    aqiBucket: string)
  {
    /** `parseFloat(row[pollutant])`. */
    function Reading(p: Pollutant): Option<real> {
      match p
      case PM25 => pm25
      case PM10 => pm10
      case NO2 => no2
      case SO2 => so2
      case CO => co
      case O3 => o3
    }
  }

  function AqiOf(r: Row): Option<real> {
    r.aqi
  }

  function InstantOf(r: Row): int {
    r.date.instant
  }

  /** `rows.filter(row => row.City === city)`. */
  function CityRows(rows: seq<Row>, city: string): (r: seq<Row>)
    ensures forall i :: 0 <= i < |r| ==> r[i].city == city
  {
    Filter(rows, (row: Row) => row.city == city)
  }

  /** `rows.map(row => parseFloat(row.AQI)).filter(v => !isNaN(v))`. */
  function ValidAQI(rows: seq<Row>): seq<real> {
    Present(rows, AqiOf)
  }
}
