/** `convert_unit_value`: a guard around a unit converter supplied by the host platform. */
module Units {
  import opened Wrappers

  /**
   * A converter from the host platform: value, source unit and target unit to
   * the converted value, or the exception it raises (`E`).
   */
  type Converter<!E> = (real, string, string) -> Result<real, E>

  /** The guard: a value is present and both unit names are non-empty (truthy). */
  predicate ShouldConvert(val: Option<real>, unitFrom: string, unitTo: string)
  {
    val.Some? && unitFrom != "" && unitTo != ""
  }

  /**
   * `convert_unit_value`: None when the value is None or a unit is empty,
   * otherwise whatever the converter returns or raises.
   */
  function ConvertUnitValue<E>(converter: Converter<E>, val: Option<real>, unitFrom: string, unitTo: string)
    : (r: Result<Option<real>, E>)
    ensures !ShouldConvert(val, unitFrom, unitTo) ==> r == Success(None)
    ensures ShouldConvert(val, unitFrom, unitTo) ==>
      match converter(val.value, unitFrom, unitTo)
      case Success(v) => r == Success(Some(v))
      case Failure(e) => r == Failure(e)
  {
    if ShouldConvert(val, unitFrom, unitTo) then
      match converter(val.value, unitFrom, unitTo)
      case Success(v) => Success(Some(v))
      case Failure(e) => Failure(e)
    else Success(None)
  }

  /**
   * When the guard fails the converter is not consulted: any two converters,
   * even one that would raise, give the same result.
   */
  lemma ConvertUnitValueSkipsConverter<E>(c1: Converter<E>, c2: Converter<E>, val: Option<real>, unitFrom: string, unitTo: string)
    requires !ShouldConvert(val, unitFrom, unitTo)
    ensures ConvertUnitValue(c1, val, unitFrom, unitTo) == ConvertUnitValue(c2, val, unitFrom, unitTo)
  {
  }

  /**
   * A call that does not raise gives None exactly when the guard failed; a
   * conversion that went through always yields a value.
   */
  lemma ConvertUnitValueNoneIffSkipped<E>(c: Converter<E>, val: Option<real>, unitFrom: string, unitTo: string)
    requires ConvertUnitValue(c, val, unitFrom, unitTo).Success?
    ensures ConvertUnitValue(c, val, unitFrom, unitTo).value.None? <==> !ShouldConvert(val, unitFrom, unitTo)
  {
  }

  /** Worked cases: a zero value still converts, a missing value or unit does not. */
  lemma ConvertUnitValueExamples(c: Converter<string>)
    ensures ConvertUnitValue(c, None, "C", "F") == Success(None)
    ensures ConvertUnitValue(c, Some(10.0), "", "F") == Success(None)
    ensures ConvertUnitValue(c, Some(10.0), "C", "") == Success(None)
    ensures c(0.0, "C", "F").Success? ==> ConvertUnitValue(c, Some(0.0), "C", "F") == Success(Some(c(0.0, "C", "F").value))
  {
  }
}
