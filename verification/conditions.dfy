/** Translation of Yandex condition codes into Home Assistant states and icons. */
module Conditions {
  import opened Wrappers

  /** A table entry: one value for any time of day, or a day/night pair. */
  datatype Entry = Single(value: string) | DayNight(day: string, night: string)

  type Table = map<string, Entry>

  /** Condition code to Home Assistant weather state. */
  const WeatherStatesConversion: Table := map[
    "CLEAR" := DayNight("sunny", "clear-night"),
    "PARTLY_CLOUDY" := Single("partlycloudy"),
    "CLOUDY" := Single("cloudy"),
    "OVERCAST" := Single("cloudy"),
    "LIGHT_RAIN" := Single("rainy"),
    "RAIN" := Single("rainy"),
    "HEAVY_RAIN" := Single("pouring"),
    "SHOWERS" := Single("pouring"),
    "SLEET" := Single("snowy-rainy"),
    "LIGHT_SNOW" := Single("snowy"),
    "SNOW" := Single("snowy"),
    "SNOWFALL" := Single("snowy"),
    "HAIL" := Single("hail"),
    "THUNDERSTORM" := Single("lightning"),
    "THUNDERSTORM_WITH_RAIN" := Single("lightning-rainy"),
    "THUNDERSTORM_WITH_HAIL" := Single("lightning-rainy")
  ]

  /** Condition code to Material Design icon of the state. */
  const ConditionIcons: Table := map[
    "CLEAR" := DayNight("mdi:weather-sunny", "mdi:weather-night"),
    "PARTLY_CLOUDY" := DayNight("mdi:weather-partly-cloudy", "mdi:weather-night-partly-cloudy"),
    "CLOUDY" := Single("mdi:weather-cloudy"),
    "OVERCAST" := Single("mdi:weather-cloudy"),
    "LIGHT_RAIN" := Single("mdi:weather-rainy"),
    "RAIN" := Single("mdi:weather-rainy"),
    "HEAVY_RAIN" := Single("mdi:weather-pouring"),
    "SHOWERS" := Single("mdi:weather-pouring"),
    "SLEET" := Single("mdi:weather-snowy-rainy"),
    "LIGHT_SNOW" := Single("mdi:weather-snowy"),
    "SNOW" := Single("mdi:weather-snowy"),
    "SNOWFALL" := Single("mdi:weather-snowy-heavy"),
    "HAIL" := Single("mdi:weather-hail"),
    "THUNDERSTORM" := Single("mdi:weather-lightning"),
    "THUNDERSTORM_WITH_RAIN" := Single("mdi:weather-lightning-rainy"),
    "THUNDERSTORM_WITH_HAIL" := Single("mdi:weather-lightning-rainy")
  ]

  /** Every value an entry can produce. */
  function Outputs(e: Entry): set<string>
  {
    match e
    case Single(v) => {v}
    case DayNight(d, n) => {d, n}
  }

  /**
   * `map_state`: look `src` up in `mapping` (the empty table when it is None);
   * an unknown code is returned as it is, a pair is resolved by `isDay`.
   */
  function MapState(src: string, isDay: bool, mapping: Option<Table>): (r: string)
    ensures mapping.None? ==> r == src
    ensures mapping.Some? && src !in mapping.value ==> r == src
    ensures mapping.Some? && src in mapping.value ==> r in Outputs(mapping.value[src])
  {
    var table := if mapping.None? then map[] else mapping.value;
    if src !in table then src
    else match table[src]
      case Single(v) => v
      case DayNight(d, n) => if isDay then d else n
  }

  /** A code absent from the table comes back unchanged, by day and by night. */
  lemma MapStateUnknown(src: string, t: Table)
    requires src !in t
    ensures MapState(src, true, Some(t)) == src && MapState(src, false, Some(t)) == src
    ensures MapState(src, true, None) == src && MapState(src, false, None) == src
  {
  }

  /** A day/night entry gives its `day` member by day and its `night` member by night. */
  lemma MapStateDayNight(src: string, t: Table)
    requires src in t && t[src].DayNight?
    ensures MapState(src, true, Some(t)) == t[src].day
    ensures MapState(src, false, Some(t)) == t[src].night
  {
  }

  /** A single-valued entry gives its value whatever the time of day. */
  lemma MapStateSingle(src: string, isDay: bool, t: Table)
    requires src in t && t[src].Single?
    ensures MapState(src, isDay, Some(t)) == t[src].value
  {
  }

  /**
   * The result ignores the time of day exactly when the code is unknown,
   * single-valued, or a pair whose two members agree.
   */
  lemma MapStateDayIndependent(src: string, t: Table)
    ensures MapState(src, true, Some(t)) == MapState(src, false, Some(t))
        <==> src !in t || t[src].Single? || t[src].day == t[src].night
  {
  }

  /** The two tables know the same codes, so a code has an icon exactly when it has a state. */
  lemma TablesShareCodes()
    ensures WeatherStatesConversion.Keys == ConditionIcons.Keys
  {
  }

  /** In the state table only CLEAR depends on the time of day. */
  lemma WeatherStatesPairs()
    ensures forall c :: c in WeatherStatesConversion ==> (WeatherStatesConversion[c].DayNight? <==> c == "CLEAR")
  {
  }

  /** In the icon table only CLEAR and PARTLY_CLOUDY depend on the time of day. */
  lemma ConditionIconsPairs()
    ensures forall c :: c in ConditionIcons ==>
      (ConditionIcons[c].DayNight? <==> c == "CLEAR" || c == "PARTLY_CLOUDY")
  {
  }

  /** Worked cases on the condition table. */
  lemma WeatherStatesExamples()
    ensures MapState("CLEAR", true, Some(WeatherStatesConversion)) == "sunny"
    ensures MapState("CLEAR", false, Some(WeatherStatesConversion)) == "clear-night"
    ensures MapState("CLOUDY", true, Some(WeatherStatesConversion)) == "cloudy"
    ensures MapState("CLOUDY", false, Some(WeatherStatesConversion)) == "cloudy"
    ensures MapState("UNKNOWN_CODE", true, Some(WeatherStatesConversion)) == "UNKNOWN_CODE"
    ensures MapState("PARTLY_CLOUDY", false, Some(ConditionIcons)) == "mdi:weather-night-partly-cloudy"
  {
  }
}
