/** The static tables of the integration: where each model keeps each
    abstract property, and each model's temperature and delay-off limits. */
module Const {
  import opened Types

  const DEFAULT_MIN_TEMP: int := 18
  const DEFAULT_MAX_TEMP: int := 28

  /** The delay-off range, in hours, used when a model has none. */
  const DEFAULT_DELAY_OFF_MIN: int := 0
  const DEFAULT_DELAY_OFF_MAX: int := 12

  const MC2: string := "zhimi.heater.mc2"
  const MC2A: string := "zhimi.heater.mc2a"
  const ZB1: string := "zhimi.heater.zb1"
  const ZA2: string := "zhimi.heater.za2"
  const BS1S: string := "leshow.heater.bs1s"

  /** Abstract property to address, `None` where the model lacks it. */
  type PropertyTable = map<Prop, Option<Address>>

  /** An inclusive integer range. */
  datatype Range = Range(lo: int, hi: int)

  /** Temperatures in degrees Celsius, delay-off in hours. */
  datatype Limits = Limits(temperatureRange: Range, delayOffRange: Range)

  const MODEL_PROPERTIES: map<string, PropertyTable> := map[
    MC2 := map[
      Power := Some(Address(2, 1)),
      TargetTemperature := Some(Address(2, 5)),
      CurrentTemperature := Some(Address(4, 7)),
      Humidity := None,
      ChildLock := Some(Address(5, 1)),
      Buzzer := Some(Address(6, 1)),
      LedBrightness := Some(Address(7, 3)),
      CountdownTime := Some(Address(3, 1))],
    MC2A := map[
      Power := Some(Address(2, 1)),
      TargetTemperature := Some(Address(2, 5)),
      CurrentTemperature := Some(Address(4, 7)),
      Humidity := None,
      ChildLock := Some(Address(5, 1)),
      Buzzer := Some(Address(6, 1)),
      LedBrightness := Some(Address(7, 3)),
      CountdownTime := Some(Address(3, 1))],
    ZB1 := map[
      Power := Some(Address(2, 2)),
      TargetTemperature := Some(Address(2, 6)),
      CurrentTemperature := Some(Address(5, 8)),
      Humidity := Some(Address(5, 7)),
      ChildLock := None,
      Buzzer := None,
      LedBrightness := None,
      CountdownTime := None],
    ZA2 := map[
      Power := Some(Address(2, 2)),
      TargetTemperature := Some(Address(2, 6)),
      CurrentTemperature := Some(Address(5, 8)),
      Humidity := Some(Address(5, 7)),
      ChildLock := Some(Address(7, 1)),
      Buzzer := Some(Address(3, 1)),
      LedBrightness := Some(Address(6, 1)),
      CountdownTime := Some(Address(4, 1))],
    BS1S := map[
      Power := Some(Address(2, 1)),
      TargetTemperature := Some(Address(2, 3)),
      CurrentTemperature := Some(Address(4, 7)),
      Humidity := None,
      ChildLock := Some(Address(5, 1)),
      Buzzer := Some(Address(6, 1)),
      LedBrightness := Some(Address(7, 1)),
      CountdownTime := Some(Address(3, 1))]
  ]

  const MODEL_LIMITS: map<string, Limits> := map[
    MC2 := Limits(Range(18, 28), Range(0, 12)),
    MC2A := Limits(Range(18, 28), Range(0, 12)),
    ZA2 := Limits(Range(16, 28), Range(0, 8)),
    BS1S := Limits(Range(18, 28), Range(0, 12)),
    ZB1 := Limits(Range(16, 28), Range(0, 8))
  ]

  /** The property table an API object holds for its model. The source
      cannot build one for a model outside the table (the lookup raises);
      here such a model has an empty table and so supports nothing. */
  function PropertiesOf(model: string): PropertyTable {
    if model in MODEL_PROPERTIES then MODEL_PROPERTIES[model] else map[]
  }

  /** `properties.get(p)`: where the model keeps `p`, if it has it. */
  function AddressOf(model: string, p: Prop): (a: Option<Address>)
    ensures a.Some? ==> model in MODEL_PROPERTIES
    // power and both temperatures exist on every model in the table
    ensures model in MODEL_PROPERTIES && p in {Power, TargetTemperature, CurrentTemperature} ==> a.Some?
    ensures p == Humidity ==> (a.Some? <==> model == ZB1 || model == ZA2)
    // zb1 has neither switches, LED nor timer; every other model has all four
    ensures model in MODEL_PROPERTIES && p in {ChildLock, Buzzer, LedBrightness, CountdownTime} ==>
              (a.None? <==> model == ZB1)
  {
    var table := PropertiesOf(model);
    if p in table then table[p] else None
  }

  predicate Supports(model: string, p: Prop) {
    AddressOf(model, p).Some?
  }

  /** The model's temperature range: 16 to 28 on za2 and zb1, and 18 to 28
      on every other model, known or not. */
  function TemperatureRange(model: string): (r: Range)
    ensures r.lo <= r.hi
    ensures model !in MODEL_LIMITS ==> r == Range(DEFAULT_MIN_TEMP, DEFAULT_MAX_TEMP)
    ensures model == ZA2 || model == ZB1 ==> r == Range(16, 28)
    ensures model != ZA2 && model != ZB1 ==> r == Range(18, 28)
  {
    if model in MODEL_LIMITS then MODEL_LIMITS[model].temperatureRange
    else Range(DEFAULT_MIN_TEMP, DEFAULT_MAX_TEMP)
  }

  /** The model's delay-off range in hours: 0 to 8 on za2 and zb1, and 0 to
      12 on every other model, known or not. */
  function DelayOffRange(model: string): (r: Range)
    ensures 0 == r.lo <= r.hi <= 12
    ensures model !in MODEL_LIMITS ==> r == Range(DEFAULT_DELAY_OFF_MIN, DEFAULT_DELAY_OFF_MAX)
    ensures model == ZA2 || model == ZB1 ==> r == Range(0, 8)
    ensures model != ZA2 && model != ZB1 ==> r == Range(0, 12)
  {
    if model in MODEL_LIMITS then MODEL_LIMITS[model].delayOffRange
    else Range(DEFAULT_DELAY_OFF_MIN, DEFAULT_DELAY_OFF_MAX)
  }

  /** Both tables describe the same five models. */
  lemma SameModels()
    ensures MODEL_PROPERTIES.Keys == MODEL_LIMITS.Keys == {MC2, MC2A, ZB1, ZA2, BS1S}
  {
  }

  /** Every model's table has a key for each of the eight properties. */
  lemma TablesComplete(model: string, p: Prop)
    requires model in MODEL_PROPERTIES
    ensures p in MODEL_PROPERTIES[model]
    ensures p in PROPS
  {
  }

  /** Every range of the limits table is non-empty. */
  lemma LimitsOrdered(model: string)
    requires model in MODEL_LIMITS
    ensures MODEL_LIMITS[model].temperatureRange.lo <= MODEL_LIMITS[model].temperatureRange.hi
    ensures MODEL_LIMITS[model].delayOffRange.lo <= MODEL_LIMITS[model].delayOffRange.hi
  {
  }

  /** Within one model no two properties share an address, so a batched
      reply entry belongs to exactly one property. */
  lemma AddressesDistinct(model: string, p: Prop, q: Prop)
    requires AddressOf(model, p).Some? && AddressOf(model, p) == AddressOf(model, q)
    ensures p == q
  {
  }
}
