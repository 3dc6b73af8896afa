/** The four named parts of a day used by the forecast, with their representative hours. */
module DayParts {

  /** `API_DAY_PARTS`: (label, hour) pairs in the order the forecast lists them. */
  const ApiDayParts: seq<(string, int)> := [("night", 2), ("morning", 9), ("day", 15), ("evening", 20)]

  /** The representative hours are hours of a day and strictly increase through the table. */
  lemma DayPartsOrdered()
    ensures |ApiDayParts| == 4
    ensures forall i :: 0 <= i < |ApiDayParts| ==> 0 <= ApiDayParts[i].1 < 24
    ensures forall i, j :: 0 <= i < j < |ApiDayParts| ==> ApiDayParts[i].1 < ApiDayParts[j].1
  {
  }
}
