# Relay pin-state model

A Dafny model of the pin-state relay in `robot/robot.go` of the relay service. The relay
takes an HTTP request naming a GPIO pin by number. It renders that number as a decimal
pin name, then reads or writes the pin's level on a remote board through the robot SDK.
It answers with the pin's state, or with an HTTP error.

The remote board is modelled as an immutable value: a map from pin name to boolean level,
plus the set of pins whose SDK `Get`/`Set` calls fail. Every operation is a pure function.
Go's `(value, error)` returns become `Errors.Ret`, which keeps the value the source returns
beside an error (`false`, `"low"`).

Modules:

- `Wrappers`: `Option` and `Result`.
- `Errors`: the relay's errors, their message texts, and `Ret`.
- `Decimal`: Go's 64-bit `int`, `strconv.Itoa` and an inverse parser. The round trip proves that distinct pin
  numbers name distinct pins.
- `PinStates`: `pinState` (a string, as in Go, so invalid wire values can be represented),
  `pinStateToBool` and `boolToPinState`.
- `Boards`: the board, `PinByName` as a map lookup, and the SDK's pin `Get`/`Set`.
- `Robots`: the argument checks of `New`, `GetPinState` and `SetPinState`.
- `Handlers`: the two HTTP handlers. JSON decoding is an abstract `Option<RobotRequest>`.

`SetPinState` resolves the pin before it validates the state (robot/robot.go:140-148), so an
unknown pin is reported even when the state is also invalid.

## Model

| member | source | states |
|---|---|---|
| Decimal.Itoa | robot/robot.go:117 | the pin name is a non-empty canonical decimal: optional `-` for negatives only, digits, no leading zero |
| Decimal.ItoaRoundTrip | robot/robot.go:117 | parsing the rendered name gives the pin number back |
| Decimal.ParseRoundTrip | robot/robot.go:117 | every string the parser accepts is the rendering of the number it yields |
| Decimal.ItoaInjective | robot/robot.go:117 | distinct pin numbers render as distinct pin names |
| Decimal.RenderedNames | robot/robot.go:117-119 | a name is the rendering of some 64-bit Go `int` exactly when the parser accepts it and its value is in that range; only such pins can be reached by a pin number |
| Decimal.ItoaExamples | robot/robot.go:117 | 37 renders as "37", 0 as "0", -5 as "-5" |
| PinStates.PinStateToBool | robot/robot.go:218-228 | accepts exactly "high" and "low"; "high" is true and "low" false; anything else gives the invalid-pin-state error with `false` |
| PinStates.BoolToPinState | robot/robot.go:230-236 | always yields "high" or "low", and converting it back yields the same bool with no error |
| PinStates.StateRoundTrip | robot/robot.go:219-236 | "high" and "low" survive the trip state to bool to state |
| PinStates.ConversionIsBijective | robot/robot.go:219-236 | a string converts to `b` without error exactly when it is the state of `b` |
| Boards.PinByName | robot/robot.go:105-109 | lookup succeeds exactly for names on the board and fails with not-found for the rest |
| Boards.Read | robot/robot.go:124-127 | a read succeeds unless the pin is faulty, and returns the pin's level; a failing read reports the pin's fault |
| Boards.Write | robot/robot.go:150 | a write succeeds unless the pin is faulty, and otherwise reports the pin's fault; on success the pin reads back the written level and no other pin changes |
| Robots.New | robot/robot.go:35-63 | hostname, then locationSecret, then boardName are checked for emptiness in that order; only with all present is the connection outcome used |
| Robots.NewChecksBeforeDialling | robot/robot.go:35-50 | with any argument empty, `New` fails, and its result does not depend on what dialling would give |
| Robots.NewErrorMessages | robot/robot.go:36-46 | the three failures carry the messages "hostname must be provided", "locationSecret must be provided", "boardName must be provided" |
| Robots.GetPinState | robot/robot.go:115-130 | succeeds exactly when pin `Itoa(n)` exists and is readable; the state converts back to the pin's level; on error the state is "low"; a missing pin gives not-found and a failing read passes the SDK's fault on unchanged |
| Robots.SetPinState | robot/robot.go:137-151 | an unknown pin is reported before an invalid state; a failing write passes the SDK's fault on unchanged; any error leaves the robot unchanged; success exactly for an existing healthy pin and a valid state; a get afterwards reads the state set; no other pin changes |
| Robots.SetIsIdempotent | robot/robot.go:137-151 | repeating a set gives the same result as doing it once |
| Robots.SetLeavesOtherPinsAlone | robot/robot.go:137-151 | a set of pin `n` does not change what a get of any other pin number returns |
| Robots.SetWritesExactlyOnePin | robot/robot.go:145-150 | a successful set yields the old board with exactly pin `Itoa(n)` set to the state's bool |
| Handlers.GetPinStateHandler | robot/robot.go:166-186 | 400 exactly on decode failure; 500 with the error text and one log line exactly when the pin is missing or unreadable; otherwise 200 with the request's pin number and `boolToPinState` of the pin's level; the board is unchanged |
| Handlers.SetPinStateHandler | robot/robot.go:201-215 | 400 on decode failure with the board unchanged; otherwise nothing is written back, the board is the set's result, and a log line appears exactly when the set fails; never 500 |
| Handlers.DecodeFailureTouchesNoBoard | robot/robot.go:169-174 | on decode failure both handlers give the same reply whatever the board, and leave it unchanged |
| Handlers.SetHandlerFrame | robot/robot.go:211 | a set request changes no pin other than the one it names |
| Handlers.GetHandlerMissingPin | robot/robot.go:176-181 | a get for a pin the board lacks is answered 500 with the not-found error, never 200 |
| Handlers.SetThenGetPin37 | robot/robot.go:201-215 | setting pin 37 "high" sets exactly pin "37" to true, and a later get answers pin 37 "high" |
| Handlers.GetLowPin37 | robot/robot.go:166-186 | a get of pin 37 at level false answers pin 37 "low" with status 200 |
| Handlers.SetHandlerHidesMissingPin | robot/robot.go:211-214 | as written, a set for a missing pin reaches the client as status 200, with the error only logged |
| Handlers.SetPinStateHandlerReportingErrors | robot/robot.go:211-214 | same board effect and log as the set handler, and the same reply except that a failed set is answered 500 with the set's error text |
| Handlers.ReportingSetHandlerRejects | robot/robot.go:211-214 | with errors reported, a missing pin or an invalid state is answered 500 with that error, and the board is unchanged |

## Left out

- `newClient`, `board.FromRobot` and the dial in `New`: RPC dialling, credentials and the 30-second timeout belong to the robot SDK. `New` takes the connection outcome as a parameter instead.
- `Close`: releasing the SDK session is SDK behaviour and has no effect on the board model.
- The `Extra` map of a request and the request `context`: both are passed through unread to the SDK's `Get`/`Set`.
- The SDK's pin `Get`/`Set`: modelled by the fault set. A failing `Set` is assumed to leave the board unchanged.
- JSON decoding and encoding: decoding is an abstract `Option`. The encode failure path (robot/robot.go:188-193) is not modelled, because encoding a pin number and a string does not fail in practice.
- The `Content-Type` header and header-write ordering (robot/robot.go:195-196): these are `net/http` details. A successful get is modelled as status 200 with a JSON body.
- The text of SDK errors and of decoder errors: the model carries them abstractly.
- Logging is modelled only as the list of lines the handlers emit, not as their formatted text.
- Pin numbers are Go `int`s of 64 bits. A 32-bit build, where `int` is narrower, is not modelled.
- Concurrent handlers sharing one `Robot`: the code has no locking to model.
- `main.go` (environment loading, signals, static files, server lifecycle) and `pretty` (debug pretty-printing through the JSON library): process plumbing outside the relay logic.

## Findings

| source | as written | input that shows it | evidently intended | confidence | as-written member | corrected member |
|---|---|---|---|---|---|---|
| robot/robot.go:211-214 | a failed `SetPinState` is only logged, and no status is written, so the client receives 200 with an empty body | a board with no pin "37" and the body `{"pin_num":37,"pin_state":"high"}` | answer 500 with the error text, as `GetPinStateHandler` does at robot/robot.go:177-180 | medium, not executed | Handlers.SetHandlerHidesMissingPin | Handlers.SetPinStateHandlerReportingErrors |

The set handler is the one `main.go` serves at `/api/relay`, so a client of the relay cannot
tell a failed set from a successful one. The model keeps the as-written
`SetPinStateHandler`. `SetPinStateHandlerReportingErrors` has the same board effect and log,
and `ReportingSetHandlerRejects` proves that it answers 500 for a missing pin or an invalid
state.
