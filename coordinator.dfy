/** The heater API: one batched `get_properties` read decoded into a status
    dictionary, and single-property `set_properties` writes. The device is
    an input (its reply, or the exception it raised); the read the API
    sends is returned as a `Command`, and a write as the one `WriteEntry`
    of its `set_properties` call. */
module Coordinator {
  import opened Types
  import opened Const
  import Led

  /** Keys of the status dictionary: one per property, and the derived
      delay-off time in seconds. */
  datatype Key = PropKey(prop: Prop) | DelayOff

  /** The status dictionary. A missing key is a property the model lacks;
      a key mapped to `None` is a property whose read did not succeed. */
  type Status = map<Key, Option<Value>>

  /** One entry of a `get_properties` reply; `code` and `value` are read
      with `.get`, so either may be missing. */
  datatype ReplyEntry = ReplyEntry(siid: int, piid: int, code: Option<int>, value: Option<Value>)

  /** The outcome of the batched read: the device's entries, or a raised
      `DeviceException`. */
  datatype DeviceReply = Replied(entries: seq<ReplyEntry>) | Raised

  datatype WriteEntry = WriteEntry(value: Value, siid: int, piid: int)

  /** The raw read command sent to the device. */
  datatype Command = GetProperties(addresses: seq<Address>)

  function EntryAddress(e: ReplyEntry): Address {
    Address(e.siid, e.piid)
  }

  function WriteAddress(w: WriteEntry): Address {
    Address(w.siid, w.piid)
  }

  predicate Ok(e: ReplyEntry) {
    e.code == Some(0)
  }

  /** `data.get(k)`: an absent key and a key mapped to `None` read alike. */
  function Get(data: Status, k: Key): Option<Value> {
    if k in data then data[k] else None
  }

  /** `s` contains each element at most once. */
  predicate NoDuplicates<T(==)>(s: seq<T>) {
    forall i, j :: 0 <= i < j < |s| ==> s[i] != s[j]
  }

  /** The supported part of the model's table. */
  function BuildPropertyMap(model: string): (pm: map<Prop, Address>)
    ensures forall p :: p in pm <==> Supports(model, p)
    ensures forall p :: p in pm ==> AddressOf(model, p) == Some(pm[p])
  {
    var table := PropertiesOf(model);
    map p | p in table && table[p].Some? :: table[p].value
  }

  /** The addresses of the supported properties among `ps`, in order. */
  function RequestFor(model: string, ps: seq<Prop>): (rs: seq<Address>)
    ensures |rs| <= |ps|
    ensures forall a :: a in rs <==> exists p :: p in ps && AddressOf(model, p) == Some(a)
  {
    if ps == [] then []
    else
      var rest := RequestFor(model, ps[1..]);
      assert forall p :: p in ps <==> p == ps[0] || p in ps[1..];
      match AddressOf(model, ps[0])
      case Some(a) => [a] + rest
      case None => rest
  }

  /** The address list of the batched read, in the table's key order. */
  function Requested(model: string): seq<Address> {
    RequestFor(model, PROPS)
  }

  /** The index of the last successful reply entry for address `a`, or -1
      when no entry for `a` succeeded. */
  function LastOk(entries: seq<ReplyEntry>, a: Address): (i: int)
    ensures -1 <= i < |entries|
    ensures i >= 0 ==> Ok(entries[i]) && EntryAddress(entries[i]) == a
    ensures forall j :: i < j < |entries| ==> !(Ok(entries[j]) && EntryAddress(entries[j]) == a)
  {
    if entries == [] then -1
    else if Ok(entries[|entries| - 1]) && EntryAddress(entries[|entries| - 1]) == a then |entries| - 1
    else LastOk(entries[..|entries| - 1], a)
  }

  /** The successful reply entries by address; a later entry for the same
      address overrides an earlier one. */
  function ValuesByKey(entries: seq<ReplyEntry>): (vs: map<Address, Option<Value>>)
    ensures forall a :: a in vs <==> LastOk(entries, a) >= 0
    ensures forall a :: a in vs ==> vs[a] == entries[LastOk(entries, a)].value
  {
    if entries == [] then map[]
    else
      var init := ValuesByKey(entries[..|entries| - 1]);
      var e := entries[|entries| - 1];
      if Ok(e) then init[EntryAddress(e) := e.value] else init
  }

  /** `values_by_key.get(a)`. */
  function ReadValue(vs: map<Address, Option<Value>>, a: Address): Option<Value> {
    if a in vs then vs[a] else None
  }

  /** The delay-off seconds derived from a countdown reading in hours. */
  function DelayOffOf(countdown: Option<Value>): (seconds: Option<Value>)
    ensures seconds.Some? <==> countdown.Some?
    ensures seconds.Some? ==> seconds.value.VInt? && seconds.value.i % 3600 == 0
    ensures seconds.Some? ==> seconds.value.i / 3600 == AsInt(countdown.value)
  {
    if countdown.Some? then Some(VInt(AsInt(countdown.value) * 3600)) else None
  }

  /** The value the status shows for address `a`: that of the last
      successful reply entry for `a`, or `None` when none succeeded. */
  function ReplyValue(entries: seq<ReplyEntry>, a: Address): Option<Value> {
    var i := LastOk(entries, a);
    if i >= 0 then entries[i].value else None
  }

  /** The property part of the status: one key per supported property. */
  function PropsOf(pm: map<Prop, Address>, vs: map<Address, Option<Value>>): Status {
    map p | p in pm :: PropKey(p) := ReadValue(vs, pm[p])
  }

  /** The status dictionary the API returns for a reply to its batched read. */
  function StatusOf(model: string, entries: seq<ReplyEntry>): (data: Status)
    ensures forall p :: PropKey(p) in data <==> Supports(model, p)
    ensures DelayOff in data
    ensures forall p :: Supports(model, p) ==> data[PropKey(p)] == ReplyValue(entries, AddressOf(model, p).value)
    ensures data[DelayOff] == DelayOffOf(Get(data, PropKey(CountdownTime)))
  {
    var props := PropsOf(BuildPropertyMap(model), ValuesByKey(entries));
    assert forall p :: PropKey(p) in props <==> Supports(model, p);
    props[DelayOff := DelayOffOf(Get(props, PropKey(CountdownTime)))]
  }

  /** Fills the status dictionary with one entry per supported property:
      the reply's value at the property's address, `None` where the reply
      had no successful entry for it. */
  method CollectProperties(propertyMap: map<Prop, Address>, valuesByKey: map<Address, Option<Value>>)
    returns (data: Status)
    ensures data == PropsOf(propertyMap, valuesByKey)
  {
    data := map[];
    var todo := propertyMap.Keys;
    while todo != {}
      invariant todo <= propertyMap.Keys
      invariant forall k :: k in data <==> k.PropKey? && k.prop in propertyMap && k.prop !in todo
      invariant forall p :: PropKey(p) in data ==> data[PropKey(p)] == ReadValue(valuesByKey, propertyMap[p])
      decreases todo
    {
      var key :| key in todo;
      data := data[PropKey(key) := ReadValue(valuesByKey, propertyMap[key])];
      todo := todo - {key};
    }
  }

  /** Fetch the device status: refuse an unknown model before any request,
      send one batched read of every supported address, fail when the
      transport raised, and otherwise decode the reply. */
  method GetStatus(model: string, reply: DeviceReply) returns (calls: seq<Command>, result: Result<Status>)
    ensures model !in MODEL_PROPERTIES ==> calls == [] && result == Failure(UpdateFailed(UnsupportedModel))
    ensures model in MODEL_PROPERTIES ==> calls == [GetProperties(Requested(model))]
    ensures model in MODEL_PROPERTIES && reply.Raised? ==> result == Failure(UpdateFailed(FetchFailed))
    ensures model in MODEL_PROPERTIES && reply.Replied? ==> result == Success(StatusOf(model, reply.entries))
  {
    if model !in MODEL_PROPERTIES {
      return [], Failure(UpdateFailed(UnsupportedModel));
    }
    var propertyMap := BuildPropertyMap(model);
    var requested := Requested(model);
    calls := [GetProperties(requested)];
    if reply.Raised? {
      return calls, Failure(UpdateFailed(FetchFailed));
    }
    var valuesByKey := ValuesByKey(reply.entries);
    var data := CollectProperties(propertyMap, valuesByKey);
    var countdown := Get(data, PropKey(CountdownTime));
    data := data[DelayOff := DelayOffOf(countdown)];
    result := Success(data);
  }

  /** Write one property: refuse a property the model lacks before any
      write; otherwise the single entry of the `set_properties` call, at
      the property's address. */
  function SetProperty(model: string, p: Prop, value: Value): (r: Result<WriteEntry>)
    ensures r.Failure? <==> !Supports(model, p)
    ensures r.Failure? ==> r.error == UpdateFailed(Unsupported(p))
    ensures r.Success? ==> r.value.value == value && WriteAddress(r.value) == BuildPropertyMap(model)[p]
  {
    match AddressOf(model, p)
    case None => Failure(UpdateFailed(Unsupported(p)))
    case Some(a) => Success(WriteEntry(value, a.siid, a.piid))
  }

  /** A write that an entity may also skip: `Success(None)` sends nothing. */
  function AsOptional(r: Result<WriteEntry>): Result<Option<WriteEntry>> {
    match r
    case Success(w) => Success(Some(w))
    case Failure(e) => Failure(e)
  }

  /** Target temperature, sent as an integer with no range check. */
  function SetTemperature(model: string, temperature: int): (r: Result<WriteEntry>)
    ensures r.Success? <==> model in MODEL_PROPERTIES
    ensures r.Success? ==> WriteAddress(r.value) == AddressOf(model, TargetTemperature).value
    ensures r.Success? ==> r.value.value == VInt(temperature)
  {
    SetProperty(model, TargetTemperature, VInt(temperature))
  }

  function SetPower(model: string, on: bool): (r: Result<WriteEntry>)
    ensures r.Success? <==> model in MODEL_PROPERTIES
    ensures r.Success? ==> WriteAddress(r.value) == AddressOf(model, Power).value
    ensures r.Success? ==> r.value.value == VBool(on)
  {
    SetProperty(model, Power, VBool(on))
  }

  function SetChildLock(model: string, enabled: bool): (r: Result<WriteEntry>)
    ensures r.Success? <==> model in MODEL_PROPERTIES && model != ZB1
    ensures r.Success? ==> WriteAddress(r.value) == AddressOf(model, ChildLock).value
    ensures r.Success? ==> r.value.value == VBool(enabled)
  {
    SetProperty(model, ChildLock, VBool(enabled))
  }

  function SetBuzzer(model: string, enabled: bool): (r: Result<WriteEntry>)
    ensures r.Success? <==> model in MODEL_PROPERTIES && model != ZB1
    ensures r.Success? ==> WriteAddress(r.value) == AddressOf(model, Buzzer).value
    ensures r.Success? ==> r.value.value == VBool(enabled)
  {
    SetProperty(model, Buzzer, VBool(enabled))
  }

  /** The LED option, encoded for the model. There is no check here that
      the model has three levels: the climate entity makes it, the select
      entity does not. */
  function SetLedBrightness(model: string, option: Led.LedOption): (r: Result<WriteEntry>)
    ensures r.Success? <==> Supports(model, LedBrightness)
    ensures r.Success? ==> WriteAddress(r.value) == AddressOf(model, LedBrightness).value
    ensures r.Success? ==> r.value.value.VInt? && 0 <= r.value.value.i <= 2
    ensures r.Success? ==> Led.Normalize(model, r.value.value) == Led.Shown(option)
  {
    Led.RoundTrip(model, option);
    SetProperty(model, LedBrightness, VInt(Led.Encode(model, option)))
  }

  /** The delay-off time, given in seconds and sent in whole hours, the
      remainder dropped. */
  function SetDelayOff(model: string, seconds: int): (r: Result<WriteEntry>)
    ensures r.Success? <==> Supports(model, CountdownTime)
    ensures r.Success? ==> WriteAddress(r.value) == AddressOf(model, CountdownTime).value
    ensures r.Success? ==> r.value.value.VInt?
    ensures r.Success? ==> r.value.value.i * 3600 <= seconds < r.value.value.i * 3600 + 3600
  {
    SetProperty(model, CountdownTime, VInt(seconds / 3600))
  }

  // ---------------------------------------------------------------------
  // A device answering the batched read, and a write landing on it.

  /** The reply of a device whose readable state is `dev` to a batched read
      of `request`: success and the value where it has one, an error code
      where it has none. */
  function Answer(request: seq<Address>, dev: map<Address, Value>): (entries: seq<ReplyEntry>)
    ensures |entries| == |request|
    ensures forall i :: 0 <= i < |entries| ==> EntryAddress(entries[i]) == request[i]
    ensures forall i :: 0 <= i < |entries| ==> (Ok(entries[i]) <==> request[i] in dev)
  {
    seq(|request|, i requires 0 <= i < |request| =>
      var a := request[i];
      if a in dev then ReplyEntry(a.siid, a.piid, Some(0), Some(dev[a]))
      else ReplyEntry(a.siid, a.piid, Some(-4001), None))
  }

  /** The device state after it accepted a write. */
  function Apply(w: WriteEntry, dev: map<Address, Value>): map<Address, Value> {
    dev[WriteAddress(w) := w.value]
  }

  /** Reading a device back through the batched read gives, for every
      property the model has, what the device holds at its address, and
      `None` where the device could not answer. */
  lemma ReadBack(model: string, dev: map<Address, Value>, p: Prop)
    requires Supports(model, p)
    ensures var a := AddressOf(model, p).value;
            StatusOf(model, Answer(Requested(model), dev))[PropKey(p)] == if a in dev then Some(dev[a]) else None
  {
    var a := AddressOf(model, p).value;
    var request := Requested(model);
    var entries := Answer(request, dev);
    PropsListed(p);
    assert a in request;
    var k :| 0 <= k < |request| && request[k] == a;
    var i := LastOk(entries, a);
    if a in dev {
      assert Ok(entries[k]) && EntryAddress(entries[k]) == a;
      assert i >= k;
      assert entries[i].value == Some(dev[a]);
    }
  }

  /** A successful write of `p` followed by a read shows the written value
      for `p` and leaves every other property's reading as it was: the
      write address belongs to `p` alone. */
  lemma WriteThenRead(model: string, p: Prop, value: Value, dev: map<Address, Value>, q: Prop)
    requires SetProperty(model, p, value).Success?
    requires Supports(model, q)
    ensures var w := SetProperty(model, p, value).value;
            var after := StatusOf(model, Answer(Requested(model), Apply(w, dev)));
            var before := StatusOf(model, Answer(Requested(model), dev));
            after[PropKey(q)] == if q == p then Some(value) else before[PropKey(q)]
  {
    var w := SetProperty(model, p, value).value;
    ReadBack(model, Apply(w, dev), q);
    ReadBack(model, dev, q);
    if q != p && AddressOf(model, q) == AddressOf(model, p) {
      AddressesDistinct(model, p, q);
    }
  }

  /** The batched read asks for each supported address exactly once and
      for nothing else. */
  lemma RequestedExactly(model: string)
    ensures forall a :: a in Requested(model) <==> a in BuildPropertyMap(model).Values
    ensures NoDuplicates(Requested(model))
    ensures |Requested(model)| == |BuildPropertyMap(model)|
  {
    var pm := BuildPropertyMap(model);
    forall a ensures a in Requested(model) <==> a in pm.Values {
      if a in pm.Values {
        var p :| p in pm && pm[p] == a;
        PropsListed(p);
      }
    }
    RequestForDistinct(model, PROPS);
    RequestForCount(model, PROPS);
    assert pm.Keys == SupportedIn(model, PROPS) by {
      forall p: Prop ensures p in PROPS { PropsListed(p); }
    }
  }

  /** The supported properties among `ps`. */
  ghost function SupportedIn(model: string, ps: seq<Prop>): set<Prop> {
    set p | p in ps && Supports(model, p)
  }

  lemma {:induction false} RequestForDistinct(model: string, ps: seq<Prop>)
    requires NoDuplicates(ps)
    ensures NoDuplicates(RequestFor(model, ps))
  {
    if ps != [] {
      RequestForDistinct(model, ps[1..]);
      var rest := RequestFor(model, ps[1..]);
      if AddressOf(model, ps[0]).Some? {
        var a := AddressOf(model, ps[0]).value;
        if a in rest {
          var q :| q in ps[1..] && AddressOf(model, q) == Some(a);
          AddressesDistinct(model, ps[0], q);
        }
      }
    }
  }

  lemma {:induction false} RequestForCount(model: string, ps: seq<Prop>)
    requires NoDuplicates(ps)
    ensures |RequestFor(model, ps)| == |SupportedIn(model, ps)|
  {
    if ps != [] {
      RequestForCount(model, ps[1..]);
      var tail := SupportedIn(model, ps[1..]);
      assert ps[0] !in ps[1..];
      if Supports(model, ps[0]) {
        assert SupportedIn(model, ps) == tail + {ps[0]};
      } else {
        assert SupportedIn(model, ps) == tail;
      }
    }
  }
}
