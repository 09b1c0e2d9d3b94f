/** The errors the relay can report, and Go's `(value, error)` return convention. */
module Errors {
  import opened Wrappers

  /** Every error a call in robot/robot.go can return. The first four are created by the
      relay itself; the others stand for errors the robot SDK returns, whose text the
      relay only passes on. */
  datatype Error =
    | HostnameMissing
    | LocationSecretMissing
    | BoardNameMissing
    | InvalidPinState
    | PinNotFound(name: string)      // the board has no GPIO pin of this name
    | PinFault(name: string)         // the SDK's Get or Set on this pin failed
    | ConnectFailed(detail: string)  // dialling the robot or resolving the board failed

  /** The message text of an error the relay creates itself; None for SDK errors. */
  function Message(e: Error): (m: Option<string>)
    ensures m.Some? <==> e.HostnameMissing? || e.LocationSecretMissing? || e.BoardNameMissing? || e.InvalidPinState?
  {
    match e
    case HostnameMissing => Some("hostname must be provided")
    case LocationSecretMissing => Some("locationSecret must be provided")
    case BoardNameMissing => Some("boardName must be provided")
    case InvalidPinState => Some("invalid pin state")
    case _ => None
  }

  /** A Go multiple return `(T, error)`: unlike a Result, the value is meaningful
      even when an error is returned (the source returns `false` or `pinStateLow` then). */
  datatype Ret<+T> = Ret(value: T, err: Option<Error>)
}
