# miHeater property layer in Dafny

This project models the core of the `miheater` Home Assistant integration
for Xiaomi and Leshow space heaters (`zhimi.heater.mc2`, `mc2a`, `zb1`, `za2`
and `leshow.heater.bs1s`). That core is the part that turns abstract
property names into MIoT `(siid, piid)` addresses and back. It covers:

- **Const** (`const.dfy`): the per-model property tables and limits. Each
  property is either an address or "not supported". Each known model has a
  temperature range and a delay-off range. A model missing from the limits
  table gets the defaults.
- **Led** (`led.dfy`): the LED brightness codec. `za2` swaps the raw codes
  for dim and off. Raw codes outside the table read as "unknown". The
  climate and select entities each carry an identical copy of the
  normalizer; it is defined once here.
- **Coordinator** (`coordinator.dfy`): `MiHeaterApi`.
  - `GetStatus` sends one batched `get_properties` request for every
    supported address. It keeps only the reply entries whose code is 0,
    where a later entry for the same address wins. It builds the status
    dictionary and derives `delay_off` in seconds from the countdown hours.
  - The setters pick the address from the model's table and refuse an
    unsupported property. Each produces the single-entry `set_properties`
    payload.
  - The device is a parameter. `Answer` is a device that replies with code
    0 for every address it holds; `Apply` writes one value into it. These
    two state the write-then-read round trips.
- **Climate**, **Select**, **Number**, **Switch**: the entity adapters, with
  the unique id that the select, number and switch entities derive from the
  entry's in **Entity** (`entity.dfy`).
  - The climate entity provides the HVAC mode, the extra state attributes,
    and the setters with their own capability and range checks.
  - The LED select offers dim only on `za2`.
  - The delay-off number works in hours.
  - The child-lock and buzzer switches are created only where the model has
    the property.

Shared conventions:
- A Python exception raised as `UpdateFailed` is a `Failure` carrying the
  reason.
- A device call is either the `Command` a method returns or a `WriteEntry`
  payload. A failure sends nothing.
- Raw values are booleans or integers (`Value`), with Python's `int()` and
  truthiness written out as `AsInt` and `Truthy`.

Three behaviours of the code are worth stating plainly:
- `async_set_temperature` in `climate.py` (lines 124-129) and in
  `coordinator.py` (lines 62-64) checks no range, so `Climate.SetTemperature`
  writes any value.
- `MiHeaterApi.__init__` indexes `MODEL_PROPERTIES` with the model, and
  `async_get_status` checks the model again. The model keeps the
  `async_get_status` guard and gives an unknown model an empty table.
- Only the climate entity checks the delay-off range (`climate.py` lines
  158-166). The number entity and the API write any value.

## Model

| member | source | states |
|---|---|---|
| Const.AddressOf | custom_components/miheater/const.py:11-62 | An address exists only for a known model. Power and both temperatures are supported on every known model. Humidity is supported exactly on zb1 and za2. Child lock, buzzer, LED and countdown are missing exactly on zb1. |
| Const.TemperatureRange | custom_components/miheater/climate.py:70-76 | The range is 16 to 28 on za2 and zb1. It is 18 to 28 on every other model, including the default for a model without limits. The minimum never exceeds the maximum. |
| Const.DelayOffRange | custom_components/miheater/number.py:43-49 | The range in hours is 0 to 8 on za2 and zb1. It is 0 to 12 on every other model, including the default for a model without limits. |
| Const.SameModels | custom_components/miheater/const.py:11-73 | The property table and the limits table describe the same five models. |
| Const.TablesComplete | custom_components/miheater/const.py:11-62 | Every known model's table lists every one of the eight properties. |
| Const.LimitsOrdered | custom_components/miheater/const.py:64-73 | In every limits entry, minimum <= maximum for both ranges. |
| Const.AddressesDistinct | custom_components/miheater/const.py:11-62 | Within one model, two supported properties never share an address. |
| Led.Encode | custom_components/miheater/coordinator.py:78-83 | The code is in 0..2 and is 0 exactly for on. On za2, 1 means dim and 2 means off. On every other model, 1 means off and 2 means dim. |
| Led.Normalize | custom_components/miheater/climate.py:170-173 | On za2, raw 0 or 3 reads on, 1 reads dim and 2 reads off. Elsewhere, 0/1/2 read on/off/dim. Every other reading is unknown. Booleans read as 0 and 1. Both directions are stated. |
| Led.RoundTrip | custom_components/miheater/select.py:56-59 | Decoding the code written for an option gives that option back, on every model. |
| Coordinator.BuildPropertyMap | custom_components/miheater/coordinator.py:90-95 | The map holds exactly the supported properties, each at its table address. |
| Coordinator.RequestFor | custom_components/miheater/coordinator.py:38-40 | The request is no longer than the list of properties. An address is requested exactly when some listed property is supported at it. |
| Coordinator.RequestedExactly | custom_components/miheater/coordinator.py:37-40 | The batched request holds the supported addresses, each once, one per supported property. |
| Coordinator.RequestForDistinct | custom_components/miheater/coordinator.py:38-40 | A request built from distinct properties has no repeated address. |
| Coordinator.RequestForCount | custom_components/miheater/coordinator.py:38-40 | A request built from distinct properties has one address per supported property. |
| Coordinator.LastOk | custom_components/miheater/coordinator.py:47-51 | The index found is the last reply entry for the address with code 0, or -1 when there is none. |
| Coordinator.ValuesByKey | custom_components/miheater/coordinator.py:47-51 | An address has a value exactly when some entry for it has code 0. Its value is the one from the last such entry. |
| Coordinator.DelayOffOf | custom_components/miheater/coordinator.py:55-58 | Delay-off is known exactly when the countdown is known. It is a whole number of hours in seconds, equal to the countdown hours. |
| Coordinator.StatusOf | custom_components/miheater/coordinator.py:31-60 | The status has a key for exactly the supported properties, plus delay-off. Each value comes from a code-0 reply entry for its address, or is none. Delay-off follows the countdown. |
| Coordinator.CollectProperties | custom_components/miheater/coordinator.py:52-53 | The loop over the property map sets each property to the reply value at its address, or none, and sets no other key. |
| Coordinator.GetStatus | custom_components/miheater/coordinator.py:31-60 | An unknown model fails before any device call. Otherwise one batched read of the requested addresses is sent. A device exception fails the fetch. A reply gives the decoded status. |
| Coordinator.SetProperty | custom_components/miheater/coordinator.py:97-104 | The write fails exactly when the property is unsupported, naming that property. Otherwise the value is sent unchanged to the property's address. |
| Entity.EntityId | custom_components/miheater/switch.py:59-61 | An entity gets an id exactly when the entry's unique id is present and non-empty. The id starts with the entry's id and ends with `_` and the entity's key. |
| Coordinator.SetTemperature | custom_components/miheater/coordinator.py:62-64 | The write succeeds exactly on a known model and sends the integer given to the target temperature's address. |
| Coordinator.SetPower | custom_components/miheater/coordinator.py:66-68 | The write succeeds exactly on a known model and sends the boolean given to the power address. |
| Coordinator.SetChildLock | custom_components/miheater/coordinator.py:70-72 | The write succeeds exactly on a known model other than zb1 and sends the boolean given to the child-lock address. |
| Coordinator.SetBuzzer | custom_components/miheater/coordinator.py:74-76 | The write succeeds exactly on a known model other than zb1 and sends the boolean given to the buzzer address. |
| Coordinator.SetLedBrightness | custom_components/miheater/coordinator.py:78-83 | The write succeeds exactly when the model has an LED. It sends, to the LED address, a code in 0..2 that reads back as the option chosen. |
| Coordinator.SetDelayOff | custom_components/miheater/coordinator.py:85-88 | The write succeeds exactly when the model has a timer. It sends, to the countdown address, whole hours h with h*3600 <= seconds < h*3600 + 3600. |
| Coordinator.Answer | custom_components/miheater/coordinator.py:43-51 | The device answers each requested address in order, with code 0 exactly when it holds that address. |
| Coordinator.ReadBack | custom_components/miheater/coordinator.py:47-53 | Reading a device gives each supported property the device's value at its address, or none when the device lacks it. |
| Coordinator.WriteThenRead | custom_components/miheater/coordinator.py:97-104 | After a write and a fresh read, the written property shows the value written, and every other supported property keeps its earlier reading. |
| Climate.HvacModeOf | custom_components/miheater/climate.py:89-91 | The mode is heat exactly when the power reading is present and truthy, and off otherwise. |
| Climate.ExtraStateAttributes | custom_components/miheater/climate.py:101-122 | Humidity, child lock, buzzer and delay-off seconds appear exactly when known, with their values as read. The LED appears exactly when known, decoded. No other attribute appears. |
| Climate.SetTemperature | custom_components/miheater/climate.py:124-129 | No temperature sends nothing. Otherwise the write succeeds exactly on a known model and sends the value to the target temperature's address, with no range check. |
| Climate.SetHvacMode | custom_components/miheater/climate.py:131-136 | Heat writes power on and off writes power off, at the power address, each succeeding exactly on a known model. Any other mode sends nothing. |
| Climate.SetChildLock | custom_components/miheater/climate.py:138-142 | The call fails exactly when the model has no child lock. Otherwise it sends the lock state. The entity's check refuses the same calls as the API's. |
| Climate.SetBuzzer | custom_components/miheater/climate.py:144-148 | The call fails exactly when the model has no buzzer. Otherwise it sends the buzzer state. The entity's check refuses the same calls as the API's. |
| Climate.SetLedBrightness | custom_components/miheater/climate.py:150-156 | The call fails when the model has no LED. It then fails for dim on any model but za2. Both failures come before any write. A success is the API's own write: the option's code for the model, at the LED address, which reads back as the chosen option. |
| Climate.SetDelayOff | custom_components/miheater/climate.py:158-168 | The call fails when the model has no timer. It then fails for seconds outside the range converted to seconds, bounds included, reporting those bounds. A success is the API's own write: whole hours inside the model's range, truncated from the seconds, at the countdown address. |
| Climate.ReadingsPresent | custom_components/miheater/climate.py:89-99 | On a known model every decoded status has power and both temperatures, so the mode and both temperatures are defined. The temperatures shown are the device's replies at their addresses. |
| Climate.TemperatureThenRead | custom_components/miheater/climate.py:124-129 | On a known model, setting a temperature and reading back shows it as the target temperature. |
| Climate.ModeThenRead | custom_components/miheater/climate.py:131-136 | On a known model, setting heat or off and reading back shows that mode. |
| Climate.DelayOffExamples | custom_components/miheater/climate.py:158-168 | 30000 seconds sends 8 hours on mc2. The same request is refused on za2 with bounds 0 and 28800. 28800 seconds on za2 sends 8 hours. |
| Select.Options | custom_components/miheater/select.py:28-43 | On and off are always offered and dim exactly on za2, with no repeats. |
| Select.CurrentOption | custom_components/miheater/select.py:45-50 | There is no option exactly when the LED reading is missing. Otherwise the option is the decoded reading. |
| Select.SelectOption | custom_components/miheater/select.py:52-54 | Selecting succeeds exactly when the model has an LED, with no check of its own. It sends the option's code for the model to the LED address, and that code reads back as the option chosen. |
| Select.Setup | custom_components/miheater/select.py:15-44 | One selector exists exactly when the model has an LED. It offers the model's options and has the `led_brightness` entity id. |
| Select.SelectThenRead | custom_components/miheater/select.py:52-59 | Selecting any offered option and reading back shows that option as current. |
| Number.Setup | custom_components/miheater/number.py:16-49 | One number exists exactly when the model has a timer. Its bounds are the model's delay-off range in hours, and it has the `delay_off` entity id. |
| Number.NativeValue | custom_components/miheater/number.py:51-56 | The value is unknown exactly when delay-off is unknown. |
| Number.NativeValueIsCountdown | custom_components/miheater/number.py:51-56 | On every decoded status, the hours shown equal the device's countdown reading. |
| Number.SetNativeValue | custom_components/miheater/number.py:58-60 | Setting succeeds exactly when the model has a timer, with no range check of its own. It sends exactly the hours given to the countdown address. |
| Number.SetThenRead | custom_components/miheater/number.py:58-60 | Setting a value and reading back shows that value. |
| Switch.SwitchesFor | custom_components/miheater/switch.py:38-48 | Every switch built is for a listed description whose property the model has. Every such description gets its switch. There are never more switches than descriptions. |
| Switch.SetupEntry | custom_components/miheater/switch.py:44-47 | The loop skips unsupported descriptions and yields exactly the switches of the supported ones, in order. |
| Switch.SwitchesByModel | custom_components/miheater/switch.py:24-47 | zb1 gets no switch. Every other known model gets the child-lock switch, then the buzzer switch. |
| Switch.IsOnReading | custom_components/miheater/switch.py:69-71 | A switch shows the reply's value at its property's address when the model has the property, and nothing otherwise. |
| Switch.TurnOn | custom_components/miheater/switch.py:73-78 | The child-lock key writes true to the child lock and the buzzer key writes true to the buzzer. Any other key sends nothing. |
| Switch.TurnOff | custom_components/miheater/switch.py:80-85 | The child-lock key writes false to the child lock and the buzzer key writes false to the buzzer. Any other key sends nothing. |
| Switch.TurnThenRead | custom_components/miheater/switch.py:69-85 | For every switch that setup creates, turning it on or off writes the property its description names, and reading back shows the state asked for. |

## Left out

- Device I/O: `raw_command`, the executor job and the `miio` device are not modelled. A read is a `DeviceReply` parameter, where `Raised` stands for a `DeviceException`. A write is the `WriteEntry` returned.
- Failures of the write transport propagate unchanged in the source and are not modelled. A successful setter means the payload was built and sent.
- The Home Assistant update coordinator is not modelled: the 30-second polling, keeping the previous snapshot on failure, and `async_request_refresh` after each setter.
- `get_miheater_data`, `MiHeaterData`, `__init__.py`, `config_flow.py` and `sensor.py` are not part of this model, nor is the climate platform's service registration.
- `MiHeaterApi.__init__` raises `KeyError` for an unknown model. The model gives an unknown model an empty table instead, so that the `async_get_status` guard is reachable. `__init__.py` rejects such a model before the API is built.
- Error messages are not modelled; a failure keeps only its reason and, for delay-off, the bounds.
- Floating point is not modelled: temperatures and values are integers. `int(temperature)` in the climate and API setters and `int(value)` in the number setter are therefore the identity.
- Number.NativeValue: uses integer division where the source divides as floats. The two agree on every status the API decodes, since delay-off is always a whole number of hours (`Number.NativeValueIsCountdown`).
- Raw readings other than booleans and integers are not modelled, nor reply entries missing `siid` or `piid`.
- LED options are a closed datatype. The service schema (`vol.In`) and the select entity's option list keep them to on, off and dim, so the source's `KeyError` on any other string is not modelled.
- The entities' names, device info, units and step sizes are not modelled; names are carried only as built.
- The switch's `is_on` returns the raw reading (`Switch.IsOn`); Home Assistant's boolean interpretation of it is not modelled.
