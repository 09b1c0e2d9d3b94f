/** The `pinState` type of robot/robot.go and its conversions to and from `bool`.
    Go declares `pinState` as a string type, so a decoded request can carry any text
    in it; only "high" and "low" are valid. */
module PinStates {
  import opened Wrappers
  import opened Errors

  type PinState = string

  const High: PinState := "high"
  const Low: PinState := "low"

  predicate IsValid(s: PinState) {
    s == High || s == Low
  }

  /** `pinStateToBool`: "high" is true, "low" is false, and any other text is rejected
      with the "invalid pin state" error and `false`, never coerced. */
  function PinStateToBool(s: PinState): (r: Ret<bool>)
    ensures r.err.None? <==> IsValid(s)
    ensures r.err.Some? ==> r == Ret(false, Some(InvalidPinState))
    ensures r.err.None? ==> (r.value <==> s != Low)
  {
    if s == High then Ret(true, None)
    else if s == Low then Ret(false, None)
    else Ret(false, Some(InvalidPinState))
  }

  /** `boolToPinState`: always a valid state, and converting it back gives the same bool. */
  function BoolToPinState(b: bool): (s: PinState)
    ensures IsValid(s)
    ensures PinStateToBool(s) == Ret(b, None)
  {
    if b then High else Low
  }

  /** Both valid states survive the trip through `bool`. */
  lemma StateRoundTrip(s: PinState)
    requires IsValid(s)
    ensures PinStateToBool(s).err == None
    ensures BoolToPinState(PinStateToBool(s).value) == s
  {
  }

  /** A string is accepted exactly when it is one of the two states, and the two
      states are told apart. */
  lemma ConversionIsBijective(s: PinState, b: bool)
    ensures PinStateToBool(s) == Ret(b, None) <==> s == BoolToPinState(b)
  {
  }
}
