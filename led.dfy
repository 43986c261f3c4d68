/** The LED brightness codec. The API encodes an option into the raw code
    it writes; the climate entity and the brightness selector decode a raw
    reading for display (the two adapters carry identical copies of the
    decoder, modelled once here). On zhimi.heater.za2 the non-zero codes
    are swapped. */
module Led {
  import opened Types
  import opened Const

  datatype LedOption = On | Off | Dim

  /** What an adapter shows for a raw reading: an option, or "unknown". */
  datatype LedDisplay = Shown(option: LedOption) | Unknown

  /** The raw code written for `option`: on 0, off 1, dim 2, with a
      non-zero code replaced by `3 - code` on za2. */
  function Encode(model: string, option: LedOption): (code: int)
    ensures 0 <= code <= 2
    ensures code == 0 <==> option == On
    ensures model == ZA2 ==> (code == 1 <==> option == Dim) && (code == 2 <==> option == Off)
    ensures model != ZA2 ==> (code == 1 <==> option == Off) && (code == 2 <==> option == Dim)
  {
    var mapped := match option case On => 0 case Off => 1 case Dim => 2;
    if model == ZA2 && mapped != 0 then 3 - mapped else mapped
  }

  /** The option shown for a raw reading: on za2 a truthy reading is first
      replaced by `3 - reading`; then 0 is on, 1 off, 2 dim, anything else
      unknown. */
  function Normalize(model: string, raw: Value): (d: LedDisplay)
    ensures model == ZA2 ==>
              && (d == Shown(On) <==> AsInt(raw) == 0 || AsInt(raw) == 3)
              && (d == Shown(Dim) <==> AsInt(raw) == 1)
              && (d == Shown(Off) <==> AsInt(raw) == 2)
    ensures model != ZA2 ==>
              && (d == Shown(On) <==> AsInt(raw) == 0)
              && (d == Shown(Off) <==> AsInt(raw) == 1)
              && (d == Shown(Dim) <==> AsInt(raw) == 2)
    ensures d == Unknown <==> !(0 <= AsInt(raw) <= 2 || (model == ZA2 && AsInt(raw) == 3))
  {
    var value := if model == ZA2 && Truthy(raw) then 3 - AsInt(raw) else AsInt(raw);
    if value == 0 then Shown(On)
    else if value == 1 then Shown(Off)
    else if value == 2 then Shown(Dim)
    else Unknown
  }

  /** Decoding an encoded option gives the option back, on every model and
      for every option. */
  lemma RoundTrip(model: string, option: LedOption)
    ensures Normalize(model, VInt(Encode(model, option))) == Shown(option)
  {
  }
}
