/** The risk classifier of the dashboard's metric cards and its colour
    classes. */
module MockData {

  /** The metrics a card can show. */
  datatype MetricKind = AqiMetric | Stress | Pathogen

  datatype RiskLevel = Safe | Moderate | High {
    /** The position of the level from the mildest. */
    function Rank(): nat {
      match this
      case Safe => 0
      case Moderate => 1
      case High => 2
    }
  }

  /** `getRiskLevel(value, type)`: the AQI card has its own limits, the
      other cards share one pair. */
  function RiskLevelOf(value: real, kind: MetricKind): RiskLevel {
    if kind == AqiMetric then
      if value <= 50.0 then Safe
      else if value <= 100.0 then Moderate
      else High
    else
      if value <= 40.0 then Safe
      else if value <= 70.0 then Moderate
      else High
  }

  /** The bands: for the AQI, safe up to 50, moderate up to 100, high above;
      for the others, safe up to 40, moderate up to 70, high above. */
  lemma RiskLevelBands(value: real, kind: MetricKind)
    ensures var safe, moderate := if kind == AqiMetric then 50.0 else 40.0, if kind == AqiMetric then 100.0 else 70.0;
      && (RiskLevelOf(value, kind) == Safe <==> value <= safe)
      && (RiskLevelOf(value, kind) == Moderate <==> safe < value <= moderate)
      && (RiskLevelOf(value, kind) == High <==> value > moderate)
  {
  }

  /** A larger value never gets a milder level. */
  lemma RiskLevelMonotone(a: real, b: real, kind: MetricKind)
    requires a <= b
    ensures RiskLevelOf(a, kind).Rank() <= RiskLevelOf(b, kind).Rank()
  {
  }

  /** `getRiskColor(level)`. */
  function RiskColor(level: RiskLevel): string {
    match level
    case Safe => "text-green-400"
    case Moderate => "text-yellow-400"
    case High => "text-red-400"
  }

  /** `getRiskBgColor(level)`. */
  function RiskBgColor(level: RiskLevel): string {
    match level
    case Safe => "bg-green-500/20 border-green-500/40"
    case Moderate => "bg-yellow-500/20 border-yellow-500/40"
    case High => "bg-red-500/20 border-red-500/40"
  }

  /** Both colour lookups are defined on every level and tell the levels
      apart. */
  lemma RiskColorsDistinct(a: RiskLevel, b: RiskLevel)
    ensures a != b ==> RiskColor(a) != RiskColor(b)
    ensures a != b ==> RiskBgColor(a) != RiskBgColor(b)
    ensures |RiskColor(a)| > 0 && |RiskBgColor(a)| > 0
  {
  }
}
