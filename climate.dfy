/** The climate entity: its mode and extra attributes read from the status
    dictionary, and its setters, which add capability and range checks in
    front of the API's writes. */
module Climate {
  import opened Types
  import opened Const
  import opened Coordinator
  import Led

  /** The mode asked for: heat, off, or any other mode name. */
  datatype HvacMode = Heat | HvacOff | OtherMode

  /** A value of the attribute dictionary: a reading as it came, or the LED
      reading decoded to its option. */
  datatype Attribute = Plain(value: Value) | LedLabel(display: Led.LedDisplay)

  /** Heating exactly when the power reading is present and truthy. */
  function HvacModeOf(data: Status): (mode: HvacMode)
    requires PropKey(Power) in data
    ensures mode == Heat <==> data[PropKey(Power)].Some? && Truthy(data[PropKey(Power)].value)
    ensures mode == Heat || mode == HvacOff
  {
    var power := data[PropKey(Power)];
    if power.Some? && Truthy(power.value) then Heat else HvacOff
  }

  /** `name` carries the reading `v` as it came exactly when `v` is known. */
  ghost predicate Mirrors(attributes: map<string, Attribute>, name: string, v: Option<Value>) {
    && (name in attributes <==> v.Some?)
    && (name in attributes ==> attributes[name] == Plain(v.value))
  }

  /** The extra state attributes: humidity, child lock, buzzer, the decoded
      LED option and the delay-off seconds, each only when known. */
  method ExtraStateAttributes(model: string, data: Status) returns (attributes: map<string, Attribute>)
    ensures attributes.Keys <= {"humidity", "child_lock", "buzzer", "led_brightness", "delay_off_seconds"}
    ensures Mirrors(attributes, "humidity", Get(data, PropKey(Humidity)))
    ensures Mirrors(attributes, "child_lock", Get(data, PropKey(ChildLock)))
    ensures Mirrors(attributes, "buzzer", Get(data, PropKey(Buzzer)))
    ensures Mirrors(attributes, "delay_off_seconds", Get(data, DelayOff))
    ensures "led_brightness" in attributes <==> Get(data, PropKey(LedBrightness)).Some?
    ensures "led_brightness" in attributes ==>
              attributes["led_brightness"] == LedLabel(Led.Normalize(model, Get(data, PropKey(LedBrightness)).value))
  {
    attributes := map[];
    var humidity := Get(data, PropKey(Humidity));
    if humidity.Some? {
      attributes := attributes["humidity" := Plain(humidity.value)];
    }
    var childLock := Get(data, PropKey(ChildLock));
    if childLock.Some? {
      attributes := attributes["child_lock" := Plain(childLock.value)];
    }
    var buzzer := Get(data, PropKey(Buzzer));
    if buzzer.Some? {
      attributes := attributes["buzzer" := Plain(buzzer.value)];
    }
    var ledBrightness := Get(data, PropKey(LedBrightness));
    if ledBrightness.Some? {
      attributes := attributes["led_brightness" := LedLabel(Led.Normalize(model, ledBrightness.value))];
    }
    var delayOff := Get(data, DelayOff);
    if delayOff.Some? {
      attributes := attributes["delay_off_seconds" := Plain(delayOff.value)];
    }
  }

  /** Nothing is sent without a temperature; otherwise the API write, with
      no check against the model's temperature range. */
  function SetTemperature(model: string, temperature: Option<int>): (r: Result<Option<WriteEntry>>)
    ensures temperature.None? ==> r == Success(None)
    ensures temperature.Some? ==> (r.Success? <==> model in MODEL_PROPERTIES)
    ensures r.Success? && temperature.Some? ==> r.value.Some?
    ensures r.Success? && temperature.Some? ==>
              WriteAddress(r.value.value) == AddressOf(model, TargetTemperature).value
    ensures r.Success? && temperature.Some? ==> r.value.value.value == VInt(temperature.value)
  {
    match temperature
    case None => Success(None)
    case Some(t) => AsOptional(Coordinator.SetTemperature(model, t))
  }

  /** Heat turns the power on, off turns it off, any other mode sends nothing. */
  function SetHvacMode(model: string, mode: HvacMode): (r: Result<Option<WriteEntry>>)
    ensures mode.OtherMode? ==> r == Success(None)
    ensures !mode.OtherMode? ==> (r.Success? <==> model in MODEL_PROPERTIES)
    ensures r.Success? && !mode.OtherMode? ==> r.value.Some?
    ensures r.Success? && !mode.OtherMode? ==> WriteAddress(r.value.value) == AddressOf(model, Power).value
    ensures r.Success? && !mode.OtherMode? ==> r.value.value.value == VBool(mode == Heat)
  {
    match mode
    case Heat => AsOptional(Coordinator.SetPower(model, true))
    case HvacOff => AsOptional(Coordinator.SetPower(model, false))
    case OtherMode => Success(None)
  }

  /** Refuses a model without a child lock before any write; the API would
      refuse exactly the same calls. */
  function SetChildLock(model: string, lock: bool): (r: Result<WriteEntry>)
    ensures r.Failure? <==> !Supports(model, ChildLock)
    ensures r.Failure? ==> r.error == UpdateFailed(Unsupported(ChildLock))
    ensures r == Coordinator.SetChildLock(model, lock)
    ensures r.Success? ==> r.value.value == VBool(lock)
  {
    if !Supports(model, ChildLock) then Failure(UpdateFailed(Unsupported(ChildLock)))
    else Coordinator.SetChildLock(model, lock)
  }

  /** Refuses a model without a buzzer before any write; the API would
      refuse exactly the same calls. */
  function SetBuzzer(model: string, enabled: bool): (r: Result<WriteEntry>)
    ensures r.Failure? <==> !Supports(model, Buzzer)
    ensures r.Failure? ==> r.error == UpdateFailed(Unsupported(Buzzer))
    ensures r == Coordinator.SetBuzzer(model, enabled)
    ensures r.Success? ==> r.value.value == VBool(enabled)
  {
    if !Supports(model, Buzzer) then Failure(UpdateFailed(Unsupported(Buzzer)))
    else Coordinator.SetBuzzer(model, enabled)
  }

  /** Refuses a model without an LED, then dim on any model but za2, both
      before any write; what is written reads back as the chosen option. */
  function SetLedBrightness(model: string, option: Led.LedOption): (r: Result<WriteEntry>)
    ensures r.Failure? <==> !Supports(model, LedBrightness) || (option == Led.Dim && model != ZA2)
    ensures !Supports(model, LedBrightness) ==> r == Failure(UpdateFailed(Unsupported(LedBrightness)))
    ensures Supports(model, LedBrightness) && option == Led.Dim && model != ZA2 ==>
              r == Failure(UpdateFailed(DimUnsupported))
    ensures r.Success? ==> r == Coordinator.SetLedBrightness(model, option)
    ensures r.Success? ==> WriteAddress(r.value) == AddressOf(model, LedBrightness).value
    ensures r.Success? ==> r.value.value == VInt(Led.Encode(model, option))
    ensures r.Success? ==> Led.Normalize(model, r.value.value) == Led.Shown(option)
  {
    if !Supports(model, LedBrightness) then Failure(UpdateFailed(Unsupported(LedBrightness)))
    else if option == Led.Dim && model != ZA2 then Failure(UpdateFailed(DimUnsupported))
    else Coordinator.SetLedBrightness(model, option)
  }

  /** Refuses a model without a timer, then seconds outside the model's
      delay-off range converted to seconds (bounds included), both before
      any write. The whole hours sent lie within the model's range. */
  function SetDelayOff(model: string, seconds: int): (r: Result<WriteEntry>)
    ensures r.Failure? <==>
              || !Supports(model, CountdownTime)
              || seconds < DelayOffRange(model).lo * 3600
              || seconds > DelayOffRange(model).hi * 3600
    ensures !Supports(model, CountdownTime) ==> r == Failure(UpdateFailed(Unsupported(CountdownTime)))
    ensures Supports(model, CountdownTime) && r.Failure? ==>
              r.error == UpdateFailed(DelayOffOutOfRange(DelayOffRange(model).lo * 3600, DelayOffRange(model).hi * 3600))
    ensures r.Success? ==> r == Coordinator.SetDelayOff(model, seconds)
    ensures r.Success? ==> WriteAddress(r.value) == AddressOf(model, CountdownTime).value
    ensures r.Success? ==> r.value.value.VInt?
    ensures r.Success? ==> DelayOffRange(model).lo <= r.value.value.i <= DelayOffRange(model).hi
    ensures r.Success? ==> r.value.value.i * 3600 <= seconds < r.value.value.i * 3600 + 3600
  {
    if !Supports(model, CountdownTime) then Failure(UpdateFailed(Unsupported(CountdownTime)))
    else
      var range := DelayOffRange(model);
      var minSeconds, maxSeconds := range.lo * 3600, range.hi * 3600;
      if seconds < minSeconds || seconds > maxSeconds then
        Failure(UpdateFailed(DelayOffOutOfRange(minSeconds, maxSeconds)))
      else
        Coordinator.SetDelayOff(model, seconds)
  }

  /** The target temperature shown: the status value as it came. */
  function TargetTemperatureOf(data: Status): Option<Value>
    requires PropKey(TargetTemperature) in data
  {
    data[PropKey(TargetTemperature)]
  }

  /** The current temperature shown: the status value as it came. */
  function CurrentTemperatureOf(data: Status): Option<Value>
    requires PropKey(CurrentTemperature) in data
  {
    data[PropKey(CurrentTemperature)]
  }

  /** The entity indexes the status for power and both temperatures; every
      status the API decodes for a known model has those keys, holding the
      device's reply at their addresses. */
  lemma ReadingsPresent(model: string, entries: seq<ReplyEntry>)
    requires model in MODEL_PROPERTIES
    ensures var data := StatusOf(model, entries);
            && PropKey(Power) in data
            && PropKey(TargetTemperature) in data
            && PropKey(CurrentTemperature) in data
            && HvacModeOf(data) == (if ReplyValue(entries, AddressOf(model, Power).value).Some?
                                       && Truthy(ReplyValue(entries, AddressOf(model, Power).value).value)
                                    then Heat else HvacOff)
            && TargetTemperatureOf(data) == ReplyValue(entries, AddressOf(model, TargetTemperature).value)
            && CurrentTemperatureOf(data) == ReplyValue(entries, AddressOf(model, CurrentTemperature).value)
  {
  }

  /** On a known model, setting a temperature and reading the device back
      shows that temperature as the target. */
  lemma TemperatureThenRead(model: string, temperature: int, dev: map<Address, Value>)
    requires model in MODEL_PROPERTIES
    ensures SetTemperature(model, Some(temperature)).Success?
    ensures SetTemperature(model, Some(temperature)).value.Some?
    ensures var w := SetTemperature(model, Some(temperature)).value.value;
            var data := StatusOf(model, Answer(Requested(model), Apply(w, dev)));
            PropKey(TargetTemperature) in data && TargetTemperatureOf(data) == Some(VInt(temperature))
  {
    var w := SetTemperature(model, Some(temperature)).value.value;
    assert w == SetProperty(model, TargetTemperature, VInt(temperature)).value;
    WriteThenRead(model, TargetTemperature, VInt(temperature), dev, TargetTemperature);
  }

  /** Every status the API decodes has a power key, so the mode is always
      defined; after turning the heater on or off and reading it back, the
      mode is the one requested. */
  lemma ModeThenRead(model: string, mode: HvacMode, dev: map<Address, Value>)
    requires model in MODEL_PROPERTIES && !mode.OtherMode?
    ensures SetHvacMode(model, mode).Success? && SetHvacMode(model, mode).value.Some?
    ensures var w := SetHvacMode(model, mode).value.value;
            var data := StatusOf(model, Answer(Requested(model), Apply(w, dev)));
            PropKey(Power) in data && HvacModeOf(data) == mode
  {
    var w := SetHvacMode(model, mode).value.value;
    assert w == Coordinator.SetPower(model, mode == Heat).value;
    WriteThenRead(model, Power, VBool(mode == Heat), dev, Power);
  }

  /** The delay-off request of 30000 seconds: 8 hours on a model allowing
      up to 12, refused on za2, which allows up to 8 (28800 seconds). */
  lemma DelayOffExamples()
    ensures SetDelayOff(MC2, 30000) == Success(WriteEntry(VInt(8), 3, 1))
    ensures SetDelayOff(ZA2, 30000) == Failure(UpdateFailed(DelayOffOutOfRange(0, 28800)))
    ensures SetDelayOff(ZA2, 28800) == Success(WriteEntry(VInt(8), 4, 1))
  {
  }
}
