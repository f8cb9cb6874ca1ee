/** The display helpers of the AQI service: the colour classes and label for
    an AQI value, and the cigarette equivalent of a PM2.5 level. */
module AqiService {

  /** The Tailwind classes and the label `getAQIColor` returns. */
  datatype AqiColor = AqiColor(bg: string, text: string, border: string, levelLabel: string)

  /** `getAQIColor(aqi)`. */
  function AqiColorOf(aqi: real): AqiColor {
    if aqi <= 50.0 then AqiColor("bg-green-500", "text-green-500", "border-green-500", "Good")
    else if aqi <= 100.0 then AqiColor("bg-yellow-500", "text-yellow-500", "border-yellow-500", "Moderate")
    else if aqi <= 150.0 then AqiColor("bg-orange-500", "text-orange-500", "border-orange-500", "Unhealthy for Sensitive")
    else if aqi <= 200.0 then AqiColor("bg-red-500", "text-red-500", "border-red-500", "Unhealthy")
    else if aqi <= 300.0 then AqiColor("bg-purple-500", "text-purple-500", "border-purple-500", "Very Unhealthy")
    else AqiColor("bg-red-900", "text-red-900", "border-red-900", "Hazardous")
  }

  /** The colour of each AQI band, by the band's upper limit. */
  function BandColor(aqi: real): string {
    if aqi <= 50.0 then "green-500"
    else if aqi <= 100.0 then "yellow-500"
    else if aqi <= 150.0 then "orange-500"
    else if aqi <= 200.0 then "red-500"
    else if aqi <= 300.0 then "purple-500"
    else "red-900"
  }

  /** The background class is the band's colour. */
  lemma BackgroundOfBand(aqi: real)
    ensures AqiColorOf(aqi).bg == "bg-" + BandColor(aqi)
  {
    if aqi <= 50.0 {
      assert "bg-" + "green-500" == "bg-green-500";
    } else if aqi <= 100.0 {
      assert "bg-" + "yellow-500" == "bg-yellow-500";
    } else if aqi <= 150.0 {
      assert "bg-" + "orange-500" == "bg-orange-500";
    } else if aqi <= 200.0 {
      assert "bg-" + "red-500" == "bg-red-500";
    } else if aqi <= 300.0 {
      assert "bg-" + "purple-500" == "bg-purple-500";
    } else {
      assert "bg-" + "red-900" == "bg-red-900";
    }
  }

  /** The text class is the band's colour. */
  lemma TextOfBand(aqi: real)
    ensures AqiColorOf(aqi).text == "text-" + BandColor(aqi)
  {
    if aqi <= 50.0 {
      assert "text-" + "green-500" == "text-green-500";
    } else if aqi <= 100.0 {
      assert "text-" + "yellow-500" == "text-yellow-500";
    } else if aqi <= 150.0 {
      assert "text-" + "orange-500" == "text-orange-500";
    } else if aqi <= 200.0 {
      assert "text-" + "red-500" == "text-red-500";
    } else if aqi <= 300.0 {
      assert "text-" + "purple-500" == "text-purple-500";
    } else {
      assert "text-" + "red-900" == "text-red-900";
    }
  }

  /** The border class is the band's colour. */
  lemma BorderOfBand(aqi: real)
    ensures AqiColorOf(aqi).border == "border-" + BandColor(aqi)
  {
    if aqi <= 50.0 {
      assert "border-" + "green-500" == "border-green-500";
    } else if aqi <= 100.0 {
      assert "border-" + "yellow-500" == "border-yellow-500";
    } else if aqi <= 150.0 {
      assert "border-" + "orange-500" == "border-orange-500";
    } else if aqi <= 200.0 {
      assert "border-" + "red-500" == "border-red-500";
    } else if aqi <= 300.0 {
      assert "border-" + "purple-500" == "border-purple-500";
    } else {
      assert "border-" + "red-900" == "border-red-900";
    }
  }

  /** Background, text and border all use the band's one colour. */
  lemma OneColorPerBand(aqi: real)
    ensures AqiColorOf(aqi).bg == "bg-" + BandColor(aqi)
    ensures AqiColorOf(aqi).text == "text-" + BandColor(aqi)
    ensures AqiColorOf(aqi).border == "border-" + BandColor(aqi)
  {
    BackgroundOfBand(aqi);
    TextOfBand(aqi);
    BorderOfBand(aqi);
  }

  /** The label bands: each label is given exactly on its interval. */
  lemma AqiLabels(aqi: real)
    ensures AqiColorOf(aqi).levelLabel == "Good" <==> aqi <= 50.0
    ensures AqiColorOf(aqi).levelLabel == "Moderate" <==> 50.0 < aqi <= 100.0
    ensures AqiColorOf(aqi).levelLabel == "Unhealthy for Sensitive" <==> 100.0 < aqi <= 150.0
    ensures AqiColorOf(aqi).levelLabel == "Unhealthy" <==> 150.0 < aqi <= 200.0
    ensures AqiColorOf(aqi).levelLabel == "Very Unhealthy" <==> 200.0 < aqi <= 300.0
    ensures AqiColorOf(aqi).levelLabel == "Hazardous" <==> aqi > 300.0
  {
  }

  /** `calculateCigaretteEquivalent(pm25)`: 22 µg/m³ of PM2.5 counts as one
      cigarette. */
  function CigaretteEquivalent(pm25: real): (c: real)
    ensures c * 22.0 == pm25
  {
    pm25 / 22.0
  }

  /** The equivalent is linear in the PM2.5 level, and 22 gives exactly one
      cigarette. */
  lemma CigarettesLinear(a: real, b: real, k: real)
    ensures CigaretteEquivalent(22.0) == 1.0
    ensures CigaretteEquivalent(a + b) == CigaretteEquivalent(a) + CigaretteEquivalent(b)
    ensures CigaretteEquivalent(k * a) == k * CigaretteEquivalent(a)
  {
  }
}
