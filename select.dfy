/** The LED brightness selector: offered only on models with an LED, with
    dim among its options only on za2. */
module Select {
  import opened Types
  import opened Const
  import opened Coordinator
  import opened Entity
  import opened Led

  datatype LedSelect = LedSelect(name: string, uniqueId: Option<string>, options: seq<LedOption>)

  /** On and off on every model, and dim as well on za2. */
  function Options(model: string): (options: seq<LedOption>)
    ensures On in options && Off in options
    ensures Dim in options <==> model == ZA2
    ensures NoDuplicates(options)
  {
    if model == ZA2 then [On, Off, Dim] else [On, Off]
  }

  /** No option without an LED reading; otherwise the decoded reading. */
  function CurrentOption(model: string, data: Status): (current: Option<LedDisplay>)
    ensures current.None? <==> Get(data, PropKey(LedBrightness)).None?
    ensures current.Some? ==> current.value == Normalize(model, Get(data, PropKey(LedBrightness)).value)
  {
    var value := Get(data, PropKey(LedBrightness));
    if value.None? then None else Some(Normalize(model, value.value))
  }

  /** The API write of the chosen option, with no check of its own. */
  function SelectOption(model: string, option: LedOption): (r: Result<WriteEntry>)
    ensures r.Success? <==> Supports(model, LedBrightness)
    ensures r.Success? ==> WriteAddress(r.value) == AddressOf(model, LedBrightness).value
    ensures r.Success? ==> r.value.value == VInt(Encode(model, option))
    ensures r.Success? ==> Normalize(model, r.value.value) == Shown(option)
  {
    Coordinator.SetLedBrightness(model, option)
  }

  /** The selector exists only on a model with an LED. */
  function Setup(model: string, name: string, uniqueId: Option<string>): (entities: seq<LedSelect>)
    ensures |entities| == if Supports(model, LedBrightness) then 1 else 0
    ensures |entities| == 1 ==> entities[0].options == Options(model)
    ensures |entities| == 1 ==> entities[0].uniqueId == EntityId(uniqueId, "led_brightness")
  {
    if !Supports(model, LedBrightness) then []
    else [LedSelect(name + " LED Brightness", EntityId(uniqueId, "led_brightness"), Options(model))]
  }

  /** Choosing any offered option and reading the device back shows that
      option as the current one. */
  lemma SelectThenRead(model: string, option: LedOption, dev: map<Address, Value>)
    requires Supports(model, LedBrightness)
    requires option in Options(model)
    ensures SelectOption(model, option).Success?
    ensures var w := SelectOption(model, option).value;
            CurrentOption(model, StatusOf(model, Answer(Requested(model), Apply(w, dev)))) == Some(Shown(option))
  {
    var code := VInt(Encode(model, option));
    var w := SelectOption(model, option).value;
    assert w.value == code;
    WriteThenRead(model, LedBrightness, code, dev, LedBrightness);
    RoundTrip(model, option);
  }
}
