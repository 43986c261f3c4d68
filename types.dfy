/** Vocabulary shared by every part of the miHeater model: optional and
    failing results, the raw values a heater reports, the abstract property
    names and the device addresses they live at. */
module Types {

  datatype Option<+T> = None | Some(value: T)

  /** Every failure of the integration is raised as Home Assistant's
      `UpdateFailed`; the reason says which check refused. */
  datatype Reason =
    | UnsupportedModel
    | FetchFailed
    | Unsupported(prop: Prop)
    | DimUnsupported
    | DelayOffOutOfRange(minSeconds: int, maxSeconds: int)

  datatype Error = UpdateFailed(reason: Reason)

  datatype Result<+T> = Success(value: T) | Failure(error: Error)

  /** A raw property value as the device reports or accepts it. Python
      booleans are integers, so both kinds have an integer reading. */
  datatype Value = VBool(b: bool) | VInt(i: int)

  /** Python's `int(value)` on a boolean or an integer. */
  function AsInt(v: Value): int {
    match v
    case VBool(b) => if b then 1 else 0
    case VInt(i) => i
  }

  /** Python truthiness of a boolean or an integer. */
  predicate Truthy(v: Value) {
    AsInt(v) != 0
  }

  /** The abstract properties every heater model is described by. */
  datatype Prop =
    | Power
    | TargetTemperature
    | CurrentTemperature
    | Humidity
    | ChildLock
    | Buzzer
    | LedBrightness
    | CountdownTime

  /** The order in which each model's property dictionary lists its keys. */
  const PROPS: seq<Prop> :=
    [Power, TargetTemperature, CurrentTemperature, Humidity, ChildLock, Buzzer, LedBrightness, CountdownTime]

  lemma PropsListed(p: Prop)
    ensures p in PROPS
  {
  }

  /** A `(siid, piid)` pair of the MIoT property protocol. */
  datatype Address = Address(siid: int, piid: int)
}
