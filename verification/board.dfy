/** The remote board as the relay sees it through the robot SDK: a finite map from
    GPIO pin name to level, plus the set of pins whose Get and Set calls fail. */
module Boards {
  import opened Wrappers
  import opened Errors

  datatype Board = Board(levels: map<string, bool>, faulty: set<string>)

  /** The handle `GPIOPinByName` returns: the named pin of the board it came from. */
  datatype Pin = Pin(name: string)

  /** The level of a named pin, if the board has it. */
  function Level(b: Board, name: string): Option<bool> {
    if name in b.levels then Some(b.levels[name]) else None
  }

  /** `Robot.PinByName`: looks the name up on the board and fails with a not-found
      error, never a default pin, when it is absent. */
  function PinByName(b: Board, name: string): (r: Result<Pin, Error>)
    ensures r.Success? <==> Level(b, name).Some?
    ensures r.Success? ==> r.value == Pin(name)
    ensures r.Failure? ==> r.error == PinNotFound(name)
  {
    if name in b.levels then Success(Pin(name)) else Failure(PinNotFound(name))
  }

  /** The SDK's `GPIOPin.Get`. */
  function Read(b: Board, p: Pin): (r: Result<bool, Error>)
    requires p.name in b.levels
    ensures r.Success? <==> p.name !in b.faulty
    ensures r.Success? ==> Level(b, p.name) == Some(r.value)
    ensures r.Failure? ==> r.error == PinFault(p.name)
  {
    if p.name in b.faulty then Failure(PinFault(p.name)) else Success(b.levels[p.name])
  }

  /** The SDK's `GPIOPin.Set`: on success the pin reads back the written level and no
      other pin changes. A failing write is taken to leave the board as it was. */
  function Write(b: Board, p: Pin, v: bool): (r: Result<Board, Error>)
    requires p.name in b.levels
    ensures r.Success? <==> p.name !in b.faulty
    ensures r.Failure? ==> r.error == PinFault(p.name)
    ensures r.Success? ==> r.value.levels.Keys == b.levels.Keys && r.value.faulty == b.faulty
    ensures r.Success? ==> Read(r.value, p) == Success(v)
    ensures r.Success? ==> forall q :: q != p.name ==> Level(r.value, q) == Level(b, q)
  {
    if p.name in b.faulty then Failure(PinFault(p.name))
    else Success(b.(levels := b.levels[p.name := v]))
  }
}
