/** The child-lock and buzzer switches: one per description whose property
    the model has, each writing true or false through the API. */
module Switch {
  import opened Types
  import opened Const
  import opened Coordinator
  import opened Entity

  datatype SwitchDescription = SwitchDescription(key: string, name: string, propertyName: Prop)

  const CHILD_LOCK_SWITCH: SwitchDescription := SwitchDescription("child_lock", "Child Lock", ChildLock)
  const BUZZER_SWITCH: SwitchDescription := SwitchDescription("buzzer", "Buzzer", Buzzer)
  const SWITCH_DESCRIPTIONS: seq<SwitchDescription> := [CHILD_LOCK_SWITCH, BUZZER_SWITCH]

  datatype MiHeaterSwitch = MiHeaterSwitch(description: SwitchDescription, name: string, uniqueId: Option<string>)

  function MakeSwitch(name: string, uniqueId: Option<string>, d: SwitchDescription): MiHeaterSwitch {
    MiHeaterSwitch(d, name + " " + d.name, EntityId(uniqueId, d.key))
  }

  /** One switch per description in `ds` whose property the model has, in
      the order of `ds`. */
  function SwitchesFor(model: string, name: string, uniqueId: Option<string>, ds: seq<SwitchDescription>)
    : (entities: seq<MiHeaterSwitch>)
    ensures |entities| <= |ds|
    ensures forall e :: e in entities ==> e.description in ds && Supports(model, e.description.propertyName)
    ensures forall d :: d in ds && Supports(model, d.propertyName) ==> MakeSwitch(name, uniqueId, d) in entities
  {
    if ds == [] then []
    else
      var init := ds[..|ds| - 1];
      var d := ds[|ds| - 1];
      assert forall x :: x in ds <==> x in init || x == d;
      SwitchesFor(model, name, uniqueId, init) + if Supports(model, d.propertyName) then [MakeSwitch(name, uniqueId, d)] else []
  }

  /** Builds the switch list description by description, skipping those
      whose property the model lacks. */
  method SetupEntry(model: string, name: string, uniqueId: Option<string>) returns (entities: seq<MiHeaterSwitch>)
    ensures entities == SwitchesFor(model, name, uniqueId, SWITCH_DESCRIPTIONS)
  {
    entities := [];
    for n := 0 to |SWITCH_DESCRIPTIONS|
      invariant entities == SwitchesFor(model, name, uniqueId, SWITCH_DESCRIPTIONS[..n])
    {
      var description := SWITCH_DESCRIPTIONS[n];
      assert SWITCH_DESCRIPTIONS[..n + 1][..n] == SWITCH_DESCRIPTIONS[..n];
      if !Supports(model, description.propertyName) {
        continue;
      }
      entities := entities + [MakeSwitch(name, uniqueId, description)];
    }
    assert SWITCH_DESCRIPTIONS[..|SWITCH_DESCRIPTIONS|] == SWITCH_DESCRIPTIONS;
  }

  /** zb1 gets no switch; every other model gets the child lock, then the buzzer. */
  lemma SwitchesByModel(model: string, name: string, uniqueId: Option<string>)
    requires model in MODEL_PROPERTIES
    ensures model == ZB1 ==> SwitchesFor(model, name, uniqueId, SWITCH_DESCRIPTIONS) == []
    ensures model != ZB1 ==>
              SwitchesFor(model, name, uniqueId, SWITCH_DESCRIPTIONS) ==
              [MakeSwitch(name, uniqueId, CHILD_LOCK_SWITCH), MakeSwitch(name, uniqueId, BUZZER_SWITCH)]
  {
    assert SWITCH_DESCRIPTIONS[..1] == [CHILD_LOCK_SWITCH];
    assert [CHILD_LOCK_SWITCH][..0] == [];
  }

  /** The switch's reading, or none when the status lacks it. */
  function IsOn(data: Status, d: SwitchDescription): Option<Value> {
    Get(data, PropKey(d.propertyName))
  }

  /** For a property the model has, the switch shows the reply's value at
      its address; for one it lacks, nothing. */
  lemma IsOnReading(model: string, entries: seq<ReplyEntry>, d: SwitchDescription)
    ensures Supports(model, d.propertyName) ==>
              IsOn(StatusOf(model, entries), d) == ReplyValue(entries, AddressOf(model, d.propertyName).value)
    ensures !Supports(model, d.propertyName) ==> IsOn(StatusOf(model, entries), d) == None
  {
  }

  /** Writes true to the child lock or the buzzer, by the description's key;
      any other key sends nothing. */
  function TurnOn(model: string, d: SwitchDescription): (r: Result<Option<WriteEntry>>)
    ensures d.key == "child_lock" ==> r == AsOptional(Coordinator.SetChildLock(model, true))
    ensures d.key == "buzzer" ==> r == AsOptional(Coordinator.SetBuzzer(model, true))
    ensures d.key != "child_lock" && d.key != "buzzer" ==> r == Success(None)
  {
    if d.key == "child_lock" then AsOptional(Coordinator.SetChildLock(model, true))
    else if d.key == "buzzer" then AsOptional(Coordinator.SetBuzzer(model, true))
    else Success(None)
  }

  /** Writes false to the child lock or the buzzer, by the description's key;
      any other key sends nothing. */
  function TurnOff(model: string, d: SwitchDescription): (r: Result<Option<WriteEntry>>)
    ensures d.key == "child_lock" ==> r == AsOptional(Coordinator.SetChildLock(model, false))
    ensures d.key == "buzzer" ==> r == AsOptional(Coordinator.SetBuzzer(model, false))
    ensures d.key != "child_lock" && d.key != "buzzer" ==> r == Success(None)
  {
    if d.key == "child_lock" then AsOptional(Coordinator.SetChildLock(model, false))
    else if d.key == "buzzer" then AsOptional(Coordinator.SetBuzzer(model, false))
    else Success(None)
  }

  /** For every switch the setup creates, turning it on or off writes to the
      property its description names, and reading the device back shows the
      switch in the state asked for. */
  lemma TurnThenRead(model: string, d: SwitchDescription, on: bool, dev: map<Address, Value>)
    requires d in SWITCH_DESCRIPTIONS && Supports(model, d.propertyName)
    ensures var r := if on then TurnOn(model, d) else TurnOff(model, d);
            && r.Success? && r.value.Some?
            && WriteAddress(r.value.value) == AddressOf(model, d.propertyName).value
            && IsOn(StatusOf(model, Answer(Requested(model), Apply(r.value.value, dev))), d) == Some(VBool(on))
  {
    var r := if on then TurnOn(model, d) else TurnOff(model, d);
    assert r == AsOptional(SetProperty(model, d.propertyName, VBool(on)));
    WriteThenRead(model, d.propertyName, VBool(on), dev, d.propertyName);
  }
}
