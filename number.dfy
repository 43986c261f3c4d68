/** The delay-off number: the timer shown and set in whole hours, offered
    only on models with a timer. */
module Number {
  import opened Types
  import opened Const
  import opened Coordinator
  import opened Entity

  datatype DelayOffNumber = DelayOffNumber(name: string, uniqueId: Option<string>, minValue: int, maxValue: int)

  /** The number exists only on a model with a timer, bounded by the
      model's delay-off range in hours. */
  function Setup(model: string, name: string, uniqueId: Option<string>): (entities: seq<DelayOffNumber>)
    ensures |entities| == if Supports(model, CountdownTime) then 1 else 0
    ensures |entities| == 1 ==> entities[0].minValue == DelayOffRange(model).lo <= entities[0].maxValue
    ensures |entities| == 1 ==> entities[0].maxValue == DelayOffRange(model).hi
    ensures |entities| == 1 ==> entities[0].uniqueId == EntityId(uniqueId, "delay_off")
  {
    if !Supports(model, CountdownTime) then []
    else
      var range := DelayOffRange(model);
      [DelayOffNumber(name + " Delay Off", EntityId(uniqueId, "delay_off"), range.lo, range.hi)]
  }

  /** The delay-off time in hours, or none while it is unknown. */
  function NativeValue(data: Status): (hours: Option<int>)
    ensures hours.None? <==> Get(data, DelayOff).None?
  {
    var seconds := Get(data, DelayOff);
    if seconds.None? then None else Some(AsInt(seconds.value) / 3600)
  }

  /** Sends the value as seconds through the API, with no range check of
      its own; the API turns it back into exactly the same hours. */
  function SetNativeValue(model: string, value: int): (r: Result<WriteEntry>)
    ensures r.Success? <==> Supports(model, CountdownTime)
    ensures r.Success? ==> WriteAddress(r.value) == AddressOf(model, CountdownTime).value
    ensures r.Success? ==> r.value.value == VInt(value)
  {
    Coordinator.SetDelayOff(model, value * 3600)
  }

  /** The hours shown are the countdown the device reported: the delay-off
      seconds are always a whole number of hours. */
  lemma NativeValueIsCountdown(model: string, entries: seq<ReplyEntry>)
    ensures var data := StatusOf(model, entries);
            var countdown := Get(data, PropKey(CountdownTime));
            NativeValue(data) == if countdown.Some? then Some(AsInt(countdown.value)) else None
  {
  }

  /** Setting the number and reading the device back shows the value set. */
  lemma SetThenRead(model: string, value: int, dev: map<Address, Value>)
    requires Supports(model, CountdownTime)
    ensures SetNativeValue(model, value).Success?
    ensures var w := SetNativeValue(model, value).value;
            NativeValue(StatusOf(model, Answer(Requested(model), Apply(w, dev)))) == Some(value)
  {
    var w := SetNativeValue(model, value).value;
    WriteThenRead(model, CountdownTime, VInt(value), dev, CountdownTime);
    NativeValueIsCountdown(model, Answer(Requested(model), Apply(w, dev)));
  }
}
