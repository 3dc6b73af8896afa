/** `get_wind_direction`: a wind bearing in degrees to a 16-point compass name. */
module Wind {
  import opened Wrappers
  import opened Rounding

  /** Width of one compass sector, in degrees. */
  const SectorWidth: real := 22.5

  /** The 16 compass points, clockwise from north, one per sector. */
  const CompassPoints: seq<string> := [
    "N", "NNE", "NE", "ENE", "E", "ESE", "SE", "SSE",
    "S", "SSW", "SW", "WSW", "W", "WNW", "NW", "NNW"
  ]

  /** Snapped bearing to compass name; 0.0 and 360.0 both name north. */
  const WindDirectionMap: map<real, string> := map[
    0.0 := "N",
    22.5 := "NNE",
    45.0 := "NE",
    67.5 := "ENE",
    90.0 := "E",
    112.5 := "ESE",
    135.0 := "SE",
    157.5 := "SSE",
    180.0 := "S",
    202.5 := "SSW",
    225.0 := "SW",
    247.5 := "WSW",
    270.0 := "W",
    292.5 := "WNW",
    315.0 := "NW",
    337.5 := "NNW",
    360.0 := "N"
  ]

  /**
   * Every key of the table is a multiple of 22.5 in [0, 360], and every value
   * is one of the 16 compass points.
   */
  lemma WindDirectionMapKeys()
    ensures forall x :: x in WindDirectionMap ==>
      0.0 <= x <= 360.0 && (x / SectorWidth).Floor as real * SectorWidth == x
    ensures forall x :: x in WindDirectionMap ==> WindDirectionMap[x] in CompassPoints
  {
  }

  /**
   * `get_wind_direction`: a ValueError outside [0, 360]; otherwise the angle
   * is snapped to a multiple of 22.5 degrees and looked up in the table, the
   * lookup raising KeyError for a snapped value that is not a key.
   */
  function GetWindDirection(windAngle: int): (r: Result<string, Error>)
    ensures windAngle < 0 || windAngle > 360 ==> r == Failure(ValueError(AngleOutOfRange))
    ensures r.Success? ==> r.value in WindDirectionMap.Values
  {
    if windAngle < 0 || windAngle > 360 then Failure(ValueError(AngleOutOfRange))
    else match RoundByPart(windAngle as real, SectorWidth)
      case Failure(e) => Failure(e)
      case Success(snapped) =>
        if snapped in WindDirectionMap then Success(WindDirectionMap[snapped])
        else Failure(KeyError(snapped))
  }

  /**
   * Index of the sector nearest to an integer bearing, by integer arithmetic:
   * the bearing divided by 22.5 (that is, times 2/45), rounded to nearest.
   */
  function NearestSector(windAngle: int): (k: int)
    ensures 0 <= windAngle <= 360 ==> 0 <= k <= 16
  {
    (4 * windAngle + 45) / 90
  }

  /**
   * An integer bearing is never exactly half way between two multiples of
   * 22.5, so Python's rounding of `angle / 22.5` is the nearest sector.
   */
  lemma RoundedSectorIsNearest(windAngle: int)
    ensures RoundHalfEven(windAngle as real / SectorWidth) == NearestSector(windAngle)
  {
    var k := NearestSector(windAngle);
    var e := 4 * windAngle - 90 * k;
    assert -45 <= e < 45;
    assert e != -45 by {
      assert e == 2 * (2 * windAngle - 45 * k);
    }
    assert windAngle as real / SectorWidth - k as real == e as real / 90.0;
    RoundHalfEvenUnique(windAngle as real / SectorWidth, k);
  }

  /** Sector `k` in 0..16 starts at a key of the table, which names point `k mod 16`. */
  lemma SectorKey(k: int)
    requires 0 <= k <= 16
    ensures k as real * SectorWidth in WindDirectionMap
    ensures WindDirectionMap[k as real * SectorWidth] == CompassPoints[k % 16]
  {
  }

  /**
   * The lookup is total on [0, 360]: every in-range bearing snaps to a key of
   * the table, and the direction is the compass point of the nearest sector
   * (counted modulo 16, so bearings that snap to 360 name north).
   */
  lemma GetWindDirectionBySector(windAngle: int)
    requires 0 <= windAngle <= 360
    ensures RoundByPart(windAngle as real, SectorWidth) == Success(NearestSector(windAngle) as real * SectorWidth)
    ensures GetWindDirection(windAngle) == Success(CompassPoints[NearestSector(windAngle) % 16])
  {
    RoundedSectorIsNearest(windAngle);
    SectorKey(NearestSector(windAngle));
  }

  /** The direction fails exactly for bearings outside [0, 360], and never with a KeyError. */
  lemma GetWindDirectionFailsOnlyOutOfRange(windAngle: int)
    ensures GetWindDirection(windAngle).Failure? <==> windAngle < 0 || windAngle > 360
  {
    if 0 <= windAngle <= 360 {
      GetWindDirectionBySector(windAngle);
    }
  }

  /** The direction names the compass point nearest the bearing, within half a sector. */
  lemma GetWindDirectionNearest(windAngle: int)
    requires 0 <= windAngle <= 360
    ensures GetWindDirection(windAngle) == Success(CompassPoints[NearestSector(windAngle) % 16])
    ensures Dist(windAngle as real, NearestSector(windAngle) as real * SectorWidth) <= SectorWidth / 2.0
  {
    GetWindDirectionBySector(windAngle);
    RoundByPartWithinHalf(windAngle as real, SectorWidth);
  }

  /** Worked cases, including 359 and 360 naming north like 0. */
  lemma GetWindDirectionExamples()
    ensures GetWindDirection(0) == Success("N")
    ensures GetWindDirection(45) == Success("NE")
    ensures GetWindDirection(180) == Success("S")
    ensures GetWindDirection(359) == Success("N")
    ensures GetWindDirection(360) == Success("N")
    ensures GetWindDirection(-1) == Failure(ValueError(AngleOutOfRange))
    ensures GetWindDirection(361) == Failure(ValueError(AngleOutOfRange))
  {
    GetWindDirectionBySector(0);
    GetWindDirectionBySector(45);
    GetWindDirectionBySector(180);
    GetWindDirectionBySector(359);
    GetWindDirectionBySector(360);
  }
}
