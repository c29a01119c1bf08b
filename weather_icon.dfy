/**
 * `getWeatherIcon` of the San Francisco status widget: the icon shown for a
 * WMO weather interpretation code, with a moon at night for clear to partly
 * cloudy skies and a thermometer for codes the table does not list.
 */
module WeatherIcon {

  const SUN: string := "\U{2600}\U{FE0F}"
  const SUN_BEHIND_CLOUD: string := "\U{1F324}\U{FE0F}"
  const PARTLY_CLOUDY: string := "\U{26C5}"
  const CLOUD: string := "\U{2601}\U{FE0F}"
  const FOG: string := "\U{1F32B}\U{FE0F}"
  const RAIN: string := "\U{1F327}\U{FE0F}"
  const SNOW: string := "\U{1F328}\U{FE0F}"
  const SHOWERS: string := "\U{1F326}\U{FE0F}"
  const STORM: string := "\U{26C8}\U{FE0F}"
  const MOON: string := "\U{1F319}"
  const THERMOMETER: string := "\U{1F321}\U{FE0F}"

  /** `WEATHER_ICONS`, keyed by WMO code. */
  const WEATHER_ICONS: map<int, string> := map[
    0 := SUN, 1 := SUN_BEHIND_CLOUD, 2 := PARTLY_CLOUDY, 3 := CLOUD,
    45 := FOG, 48 := FOG,
    51 := RAIN, 53 := RAIN, 55 := RAIN, 61 := RAIN, 63 := RAIN, 65 := RAIN,
    71 := SNOW, 73 := SNOW, 75 := SNOW,
    80 := SHOWERS, 81 := SHOWERS, 82 := STORM, 95 := STORM]

  /**
   * `getWeatherIcon`: at night every code up to 2 shows the moon (both arms of
   * the source's `code === 0` test give the same icon); any other case looks
   * the code up, and a code missing from the table (the lookup is `undefined`,
   * every listed icon is non-empty and so truthy) falls back to the thermometer.
   */
  function GetWeatherIcon(code: int, isDay: bool): (icon: string)
    ensures !isDay && code <= 2 ==> icon == MOON
    ensures (isDay || code > 2) && code in WEATHER_ICONS ==> icon == WEATHER_ICONS[code]
    ensures (isDay || code > 2) && code !in WEATHER_ICONS ==> icon == THERMOMETER
  {
    if !isDay && code <= 2 then
      if code == 0 then MOON else MOON
    else if code in WEATHER_ICONS && WEATHER_ICONS[code] != "" then WEATHER_ICONS[code]
    else THERMOMETER
  }

  /** Every icon is non-empty, so the fallback never replaces a listed one. */
  lemma IconsNonEmpty()
    ensures forall code :: code in WEATHER_ICONS ==> |WEATHER_ICONS[code]| > 0
  {
  }

  /** At night, codes from 3 up are shown exactly as by day. */
  lemma NightAboveTwoAsDay(code: int)
    requires code >= 3
    ensures GetWeatherIcon(code, false) == GetWeatherIcon(code, true)
  {
  }

  /** The night rule does not depend on the table: even unlisted negative codes show the moon. */
  lemma NightLowCodesMoon(code: int)
    requires code <= 2
    ensures GetWeatherIcon(code, false) == MOON
    ensures code < 0 ==> GetWeatherIcon(code, true) == THERMOMETER
  {
  }

  /** Clear sky by day is the sun; an unlisted code by day is the thermometer. */
  lemma DayExamples()
    ensures GetWeatherIcon(0, true) == SUN
    ensures GetWeatherIcon(4, true) == THERMOMETER
  {
  }
}
