# Yandex Pogoda constants and mapping helpers, in Dafny

A model of `custom_components/yandex_pogoda/const.py` from the Yandex Pogoda
integration for Home Assistant. That module sits between the Yandex weather API
and Home Assistant's weather entities. It holds read-only tables and four pure
helpers:

- `map_state` turns a Yandex condition code into a Home Assistant state or
  icon. It uses `WEATHER_STATES_CONVERSION` or `CONDITION_ICONS`. An entry is
  one value, or a day/night pair chosen by `is_day`. Unknown codes pass
  through unchanged (`conditions.dfy`, module `Conditions`).
- `round_by_part` snaps a value to the nearest multiple of `part`, using
  Python's half-to-even `round`. It raises ValueError for `part <= 0`
  (`rounding.dfy`, module `Rounding`).
- `get_wind_direction` rejects bearings outside [0, 360] with ValueError. It
  snaps the bearing to a 22.5-degree step and looks the result up in
  `WIND_DIRECTION_MAP` (`wind.dfy`, module `Wind`).
- `convert_unit_value` passes None through when the value is None or a unit is
  empty. Otherwise it calls the converter it is given (`units.dfy`, module
  `Units`).
- `API_DAY_PARTS` is kept as a constant (`dayparts.dfy`, module `DayParts`).

`wrappers.dfy` (module `Wrappers`) holds `Option`, `Result` and the two
exception kinds, `ValueError` with the source's messages and `KeyError`.

Modelling choices:

- Python floats become exact `real`s. Python's `round` becomes the explicit
  `Rounding.RoundHalfEven`.
- An exception becomes a `Failure` value. `get_wind_direction` keeps its
  KeyError branch for a snapped bearing that is not a key.
  `Wind.GetWindDirectionFailsOnlyOutOfRange` proves that this branch is never
  taken.
- `WIND_DIRECTION_MAP` stays a map keyed by reals, as in the source.
  `Wind.NearestSector` is an independent integer-arithmetic definition of the
  snapped sector. The lemmas tie the two together.
- The dict-or-string values of the condition tables become the datatype
  `Entry = Single(value) | DayNight(day, night)`.
- The converter is a function parameter that returns a `Result`. A failure
  result stands for an exception the converter raises. This makes "the
  converter is not called" observable: with the guard closed, even a converter
  that would raise does not affect the result.

## Model

| member | source | states |
|---|---|---|
| `Conditions.MapState` | custom_components/yandex_pogoda/const.py:130-149 | with no table, or a code not in the table, the result is the code itself; a known code gives one of the values its entry lists |
| `Conditions.MapStateUnknown` | custom_components/yandex_pogoda/const.py:138-149 | a code absent from the table, or any code when the table is None, is returned unchanged by day and by night |
| `Conditions.MapStateDayNight` | custom_components/yandex_pogoda/const.py:146-147 | a day/night entry yields its `day` member when `is_day` holds and its `night` member otherwise |
| `Conditions.MapStateSingle` | custom_components/yandex_pogoda/const.py:141-149 | a single-valued entry yields that value whatever `is_day` is |
| `Conditions.MapStateDayIndependent` | custom_components/yandex_pogoda/const.py:141-149 | the result is the same by day and by night if and only if the code is unknown, single-valued, or a pair with equal members |
| `Conditions.WeatherStatesConversion` | custom_components/yandex_pogoda/const.py:46-66 | the 16 condition codes and their Home Assistant states, CLEAR as a sunny / clear-night pair |
| `Conditions.ConditionIcons` | custom_components/yandex_pogoda/const.py:69-92 | the 16 condition codes and their icons, CLEAR and PARTLY_CLOUDY as day/night pairs |
| `Conditions.WeatherStatesPairs` | custom_components/yandex_pogoda/const.py:46-66 | in the state table, a code has a day/night pair if and only if it is CLEAR |
| `Conditions.ConditionIconsPairs` | custom_components/yandex_pogoda/const.py:69-92 | in the icon table, a code has a day/night pair if and only if it is CLEAR or PARTLY_CLOUDY |
| `Conditions.TablesShareCodes` | custom_components/yandex_pogoda/const.py:46-92 | the condition table and the icon table have the same set of codes |
| `Conditions.WeatherStatesExamples` | custom_components/yandex_pogoda/const.py:46-66 | CLEAR gives sunny / clear-night, CLOUDY gives cloudy at any time, an unknown code comes back unchanged, PARTLY_CLOUDY at night has the night-partly-cloudy icon |
| `Rounding.RoundHalfEven` | custom_components/yandex_pogoda/const.py:162 | Python's `round`: the result is within one half of the input, and on an exact half it is even |
| `Rounding.RoundHalfEvenUnique` | custom_components/yandex_pogoda/const.py:162 | any integer within one half of the input (and even on a tie) is the rounded value, so the two conditions above define the rounding |
| `Rounding.RoundHalfEvenNearest` | custom_components/yandex_pogoda/const.py:162 | no integer is closer to the input than the rounded value |
| `Rounding.RoundByPart` | custom_components/yandex_pogoda/const.py:152-162 | fails, with the ValueError message "Part must be greater than zero", exactly when `part <= 0` |
| `Rounding.RoundByPartMultiple` | custom_components/yandex_pogoda/const.py:159-162 | for a positive part the call succeeds with `q * part` for some integer `q` within one half of `value / part`, and even on a tie |
| `Rounding.RoundByPartWithinHalf` | custom_components/yandex_pogoda/const.py:162 | for a positive part the result lies within `part / 2` of the value, and on a tie the multiplier `q` is even |
| `Rounding.RoundByPartNearest` | custom_components/yandex_pogoda/const.py:162 | no multiple of `part` is closer to the value than the result |
| `Rounding.RoundByPartExamples` | custom_components/yandex_pogoda/const.py:152-162 | 10, 12 and 100 snap to 0, 22.5 and 90 with step 22.5; parts 0, -1 and -0.5 fail |
| `Wind.WindDirectionMap` | custom_components/yandex_pogoda/const.py:97-115 | the 17 snapped bearings 0.0, 22.5, ..., 360.0 and their compass names, with both 0.0 and 360.0 naming N |
| `Wind.WindDirectionMapKeys` | custom_components/yandex_pogoda/const.py:97-115 | every key of the table is a multiple of 22.5 in [0, 360], and every value is one of the 16 compass points |
| `Wind.GetWindDirection` | custom_components/yandex_pogoda/const.py:165-171 | a bearing below 0 or above 360 fails with the ValueError "Angle should be in [0; 360] range"; a successful result is a compass name from the table |
| `Wind.NearestSector` | custom_components/yandex_pogoda/const.py:171 | the integer index of the nearest 22.5-degree sector lies in 0..16 for bearings in [0, 360] |
| `Wind.RoundedSectorIsNearest` | custom_components/yandex_pogoda/const.py:171 | for every integer bearing, Python's rounding of `angle / 22.5` equals the integer-arithmetic nearest sector, because no integer bearing is a tie |
| `Wind.SectorKey` | custom_components/yandex_pogoda/const.py:97-115 | each of the 17 multiples 0, 22.5, ..., 360 of 22.5 is a key of the table, and it names compass point k mod 16 |
| `Wind.GetWindDirectionBySector` | custom_components/yandex_pogoda/const.py:165-171 | for every bearing in [0, 360] the snapped value is a key of the table, and the result is the compass point of the nearest sector modulo 16 |
| `Wind.GetWindDirectionFailsOnlyOutOfRange` | custom_components/yandex_pogoda/const.py:168-171 | the call fails exactly when the bearing is outside [0, 360]; the lookup never raises KeyError |
| `Wind.GetWindDirectionNearest` | custom_components/yandex_pogoda/const.py:171 | the direction is the compass point of a sector that starts within 11.25 degrees of the bearing |
| `Wind.GetWindDirectionExamples` | custom_components/yandex_pogoda/const.py:165-171 | 0, 45, 180, 359, 360 give N, NE, S, N, N; -1 and 361 fail |
| `Units.ShouldConvert` | custom_components/yandex_pogoda/const.py:125 | the guard: a value that is not None, and two non-empty unit names |
| `Units.ConvertUnitValue` | custom_components/yandex_pogoda/const.py:118-127 | None when the value is None or either unit is empty; otherwise exactly the converter's result, or the converter's exception |
| `Units.ConvertUnitValueSkipsConverter` | custom_components/yandex_pogoda/const.py:125-127 | when the guard fails, the result does not depend on the converter at all |
| `Units.ConvertUnitValueNoneIffSkipped` | custom_components/yandex_pogoda/const.py:125-127 | a call that does not raise returns None if and only if the guard failed |
| `Units.ConvertUnitValueExamples` | custom_components/yandex_pogoda/const.py:125-127 | a None value or an empty unit gives None; a zero value is still converted |
| `DayParts.ApiDayParts` | custom_components/yandex_pogoda/const.py:22 | the four day parts night, morning, day and evening, at hours 2, 9, 15 and 20 |
| `DayParts.DayPartsOrdered` | custom_components/yandex_pogoda/const.py:22 | four day parts whose representative hours are hours of a day, in strictly increasing order |

## Left out

- IEEE-754 floats: `value / float(part)` and float-keyed dict lookups are exact
  real arithmetic here. The model does not capture rounding error for inexact
  steps, such as a part of 0.1. Nor does it capture the non-finite cases: a NaN
  value makes `round` raise ValueError, and a quotient that overflows to
  infinity (such as `round_by_part(1e308, 1e-308)`) makes it raise
  OverflowError. So `Rounding.RoundByPart` failing exactly when `part <= 0`
  holds for finite values only.
- Python's runtime check `type(result) is dict` becomes the `Entry` datatype. A
  pair entry therefore always has both members. The KeyError that a dict entry
  without "day" or "night" would raise cannot arise.
- Units.ConvertUnitValue: the unit arguments are strings. An empty string
  stands for every falsy unit, and a `None` unit is not modelled separately.
  The value check is `is not None`, so a zero value is converted.
- The Home Assistant imports and the converters built from them
  (`UNIT_CONVERSIONS`, `TEMPERATURE_CONVERTER`, `WIND_SPEED_CONVERTER`) belong to
  the host platform. The converter is only a parameter here.
- The plain string and configuration constants (`DOMAIN`, `ATTR_*`, `CONF_*`,
  `PLATFORMS` and the like) have no behaviour and are not modelled.
- Wind.GetWindDirection: only integer bearings are modelled, following the
  `wind_angle: int` annotation. Python does not enforce it. A float bearing
  can be an exact tie, where half-to-even rounding decides: 11.25 gives "N"
  and 33.75 gives "NE". Those inputs are not covered.
- `get_wind_direction` is annotated as returning `int | float`. It returns a
  compass name, and the model uses `string`.
