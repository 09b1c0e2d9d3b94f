/** The `Robot` of robot/robot.go: the argument checks of `New`, and `GetPinState` /
    `SetPinState`, which name a pin by the decimal rendering of its number. */
module Robots {
  import opened Wrappers
  import opened Errors
  import opened Decimal
  import opened PinStates
  import opened Boards

  /** The connection holder. The SDK client and logger are not modelled; the board
      handle is the board it reaches. */
  datatype Robot = Robot(board: Board)

  /** `New`: three "must be provided" checks, in order, before anything else.
      `connect` stands for the outcome of dialling the robot and resolving the
      named board (`newClient` and `board.FromRobot`), which belong to the SDK. */
  function New(hostname: string, locationSecret: string, boardName: string,
               connect: Result<Board, Error>): (r: Result<Robot, Error>)
    ensures hostname == "" ==> r == Failure(HostnameMissing)
    ensures hostname != "" && locationSecret == "" ==> r == Failure(LocationSecretMissing)
    ensures hostname != "" && locationSecret != "" && boardName == "" ==> r == Failure(BoardNameMissing)
    ensures r.Success? <==> hostname != "" && locationSecret != "" && boardName != "" && connect.Success?
    ensures r.Success? ==> r.value.board == connect.value
    ensures hostname != "" && locationSecret != "" && boardName != "" && connect.Failure? ==>
              r == Failure(connect.error)
  {
    if hostname == "" then Failure(HostnameMissing)
    else if locationSecret == "" then Failure(LocationSecretMissing)
    else if boardName == "" then Failure(BoardNameMissing)
    else match connect
      case Failure(e) => Failure(e)
      case Success(b) => Success(Robot(b))
  }

  /** An empty argument fails before the client is dialled: the outcome does not
      depend on what dialling would have produced. */
  lemma NewChecksBeforeDialling(hostname: string, locationSecret: string, boardName: string,
                                c1: Result<Board, Error>, c2: Result<Board, Error>)
    requires hostname == "" || locationSecret == "" || boardName == ""
    ensures New(hostname, locationSecret, boardName, c1) == New(hostname, locationSecret, boardName, c2)
    ensures New(hostname, locationSecret, boardName, c1).Failure?
  {
  }

  /** The messages `New` reports, in the order it checks its arguments. */
  lemma NewErrorMessages(hostname: string, locationSecret: string, boardName: string,
                         connect: Result<Board, Error>)
    ensures var r := New(hostname, locationSecret, boardName, connect);
      && (hostname == "" ==> Message(r.error) == Some("hostname must be provided"))
      && (hostname != "" && locationSecret == "" ==>
            Message(r.error) == Some("locationSecret must be provided"))
      && (hostname != "" && locationSecret != "" && boardName == "" ==>
            Message(r.error) == Some("boardName must be provided"))
  {
  }

  /** A pin number names a pin that exists and answers the SDK's calls. */
  predicate Reachable(r: Robot, pinNum: GoInt) {
    Level(r.board, Itoa(pinNum)).Some? && Itoa(pinNum) !in r.board.faulty
  }

  /** `GetPinState`: reads the pin named `Itoa(pinNum)` and reports its level as a
      state; a missing pin or a failing read gives the error together with "low". */
  function GetPinState(r: Robot, pinNum: GoInt): (res: Ret<PinState>)
    ensures IsValid(res.value)
    ensures res.err.None? <==> Reachable(r, pinNum)
    ensures Level(r.board, Itoa(pinNum)).None? ==> res == Ret(Low, Some(PinNotFound(Itoa(pinNum))))
    // a failing read reports the SDK's error unchanged
    ensures Level(r.board, Itoa(pinNum)).Some? && Itoa(pinNum) in r.board.faulty ==>
              res == Ret(Low, Some(PinFault(Itoa(pinNum))))
    ensures res.err.Some? ==> res.value == Low
    ensures res.err.None? ==> Level(r.board, Itoa(pinNum)) == Some(PinStateToBool(res.value).value)
  {
    match PinByName(r.board, Itoa(pinNum))
    case Failure(e) => Ret(Low, Some(e))
    case Success(pin) =>
      match Read(r.board, pin)
      case Failure(e) => Ret(Low, Some(e))
      case Success(level) => Ret(BoolToPinState(level), None)
  }

  /** `SetPinState`: resolves the pin, then validates the state, then writes. The
      result carries the robot after the call. */
  function SetPinState(r: Robot, pinNum: GoInt, state: PinState): (res: Ret<Robot>)
    // the pin lookup comes first: an unknown pin is reported even for an invalid state
    ensures Level(r.board, Itoa(pinNum)).None? ==> res == Ret(r, Some(PinNotFound(Itoa(pinNum))))
    // an invalid state is caught before the write
    ensures Level(r.board, Itoa(pinNum)).Some? && !IsValid(state) ==> res == Ret(r, Some(InvalidPinState))
    ensures res.err.Some? ==> res.value == r
    ensures res.err.None? <==> Reachable(r, pinNum) && IsValid(state)
    // a failing write reports the SDK's error unchanged
    ensures Level(r.board, Itoa(pinNum)).Some? && IsValid(state) && Itoa(pinNum) in r.board.faulty ==>
              res == Ret(r, Some(PinFault(Itoa(pinNum))))
    // a successful set is read back by a get of the same number
    ensures res.err.None? ==> GetPinState(res.value, pinNum) == Ret(state, None)
    // and no other pin changes
    ensures forall q :: q != Itoa(pinNum) ==> Level(res.value.board, q) == Level(r.board, q)
    ensures res.value.board.faulty == r.board.faulty
  {
    match PinByName(r.board, Itoa(pinNum))
    case Failure(e) => Ret(r, Some(e))
    case Success(pin) =>
      var conv := PinStateToBool(state);
      if conv.err.Some? then Ret(r, conv.err)
      else
        match Write(r.board, pin, conv.value)
        case Failure(e) => Ret(r, Some(e))
        case Success(b) => Ret(Robot(b), None)
  }

  /** Setting a pin on a successful set's result changes nothing more, and a failing
      set fails again the same way: repeating a set is the same as doing it once. */
  lemma SetIsIdempotent(r: Robot, pinNum: GoInt, state: PinState)
    ensures var once := SetPinState(r, pinNum, state);
      SetPinState(once.value, pinNum, state) == once
  {
    var once := SetPinState(r, pinNum, state);
    if once.err.None? {
      var name := Itoa(pinNum);
      var v := PinStateToBool(state).value;
      var b := once.value.board;
      assert b.levels == r.board.levels[name := v];
      assert b.levels[name := v] == b.levels;
      assert Write(b, Pin(name), v) == Success(b);
    }
  }

  /** A set of one pin number is invisible to gets of every other number: distinct
      numbers name distinct pins. */
  lemma SetLeavesOtherPinsAlone(r: Robot, n: GoInt, m: GoInt, state: PinState)
    requires n != m
    ensures GetPinState(SetPinState(r, n, state).value, m) == GetPinState(r, m)
  {
    if Itoa(n) == Itoa(m) {
      ItoaInjective(n, m);
    }
    var after := SetPinState(r, n, state).value;
    assert Level(after.board, Itoa(m)) == Level(r.board, Itoa(m));
  }

  /** On success the board after the set is the board before with exactly the pin
      named `Itoa(pinNum)` set to the requested level. */
  lemma SetWritesExactlyOnePin(r: Robot, pinNum: GoInt, state: PinState)
    requires SetPinState(r, pinNum, state).err.None?
    ensures SetPinState(r, pinNum, state).value.board ==
              r.board.(levels := r.board.levels[Itoa(pinNum) := PinStateToBool(state).value])
  {
  }
}
