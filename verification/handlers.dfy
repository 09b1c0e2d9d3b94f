/** `GetPinStateHandler` and `SetPinStateHandler`: what each writes back and what it
    does to the board, given the request body either decoded or not. */
module Handlers {
  import opened Wrappers
  import opened Errors
  import opened Decimal
  import opened PinStates
  import opened Boards
  import opened Robots

  const StatusOK := 200
  const StatusBadRequest := 400
  const StatusInternalServerError := 500

  /** `RobotRequest` without `Extra`, which is passed through to the SDK unread. A JSON
      number outside Go's `int` fails to decode, so `pinNum` is a GoInt. */
  datatype RobotRequest = RobotRequest(action: string, pinNum: GoInt, pinState: PinState)

  datatype RobotResponse = RobotResponse(pinNum: GoInt, pinState: PinState)

  /** A response body: the decoder's error text, an error's text, or encoded JSON. */
  datatype Body = DecodeErrorText | ErrorText(err: Error) | Json(response: RobotResponse)

  /** What a handler writes: nothing at all, or a status and a body. */
  datatype Reply = Unwritten | Written(status: int, body: Body)

  /** The status the client receives: `net/http` answers 200 for a handler that
      writes nothing. */
  function WireStatus(reply: Reply): int {
    if reply.Unwritten? then StatusOK else reply.status
  }

  /** The `Errorf` lines the handlers log. */
  datatype LogLine = GettingFailed(pinNum: GoInt, err: Error) | SettingFailed(pinNum: GoInt, err: Error)

  /** The robot after handling a request, the reply written and the lines logged. */
  datatype Exchange = Exchange(robot: Robot, reply: Reply, log: seq<LogLine>)

  // Each handler takes the request body after JSON decoding: None when decoding failed.

  /** `GetPinStateHandler`: 400 when the body does not decode, 500 when the pin is
      missing or cannot be read, otherwise the request's pin number with its state. */
  function GetPinStateHandler(r: Robot, request: Option<RobotRequest>): (x: Exchange)
    ensures x.robot == r
    ensures WireStatus(x.reply) == StatusBadRequest <==> request.None?
    ensures request.None? ==> x.reply == Written(StatusBadRequest, DecodeErrorText) && x.log == []
    ensures WireStatus(x.reply) == StatusInternalServerError <==>
              request.Some? && !Reachable(r, request.value.pinNum)
    ensures WireStatus(x.reply) == StatusInternalServerError ==>
              x.reply.body == ErrorText(GetPinState(r, request.value.pinNum).err.value)
              && x.log == [GettingFailed(request.value.pinNum, x.reply.body.err)]
    ensures WireStatus(x.reply) == StatusOK ==>
              && x.log == []
              && x.reply.Written?
              && x.reply.body.Json?
              && x.reply.body.response.pinNum == request.value.pinNum
              && Level(r.board, Itoa(request.value.pinNum))
                   == Some(PinStateToBool(x.reply.body.response.pinState).value)
              && x.reply.body.response.pinState
                   == BoolToPinState(r.board.levels[Itoa(request.value.pinNum)])
    ensures WireStatus(x.reply) in {StatusOK, StatusBadRequest, StatusInternalServerError}
  {
    match request
    case None => Exchange(r, Written(StatusBadRequest, DecodeErrorText), [])
    case Some(rr) =>
      var got := GetPinState(r, rr.pinNum);
      if got.err.Some? then
        Exchange(r, Written(StatusInternalServerError, ErrorText(got.err.value)),
                 [GettingFailed(rr.pinNum, got.err.value)])
      else
        Exchange(r, Written(StatusOK, Json(RobotResponse(rr.pinNum, got.value))), [])
  }

  /** `SetPinStateHandler`: 400 when the body does not decode; otherwise the set is
      attempted and a failure is only logged, with nothing written back. */
  function SetPinStateHandler(r: Robot, request: Option<RobotRequest>): (x: Exchange)
    ensures request.None? ==> x == Exchange(r, Written(StatusBadRequest, DecodeErrorText), [])
    ensures request.Some? ==> x.reply == Unwritten
    ensures WireStatus(x.reply) != StatusInternalServerError
    ensures request.Some? ==>
              var outcome := SetPinState(r, request.value.pinNum, request.value.pinState);
              && x.robot == outcome.value
              && (outcome.err.None? <==> x.log == [])
              && (outcome.err.Some? ==> x.log == [SettingFailed(request.value.pinNum, outcome.err.value)])
  {
    match request
    case None => Exchange(r, Written(StatusBadRequest, DecodeErrorText), [])
    case Some(rr) =>
      var outcome := SetPinState(r, rr.pinNum, rr.pinState);
      if outcome.err.Some? then Exchange(outcome.value, Unwritten, [SettingFailed(rr.pinNum, outcome.err.value)])
      else Exchange(outcome.value, Unwritten, [])
  }

  /** A body that fails to decode is answered 400 by both handlers without looking
      at the board: the reply is the same whatever the board holds. */
  lemma DecodeFailureTouchesNoBoard(r1: Robot, r2: Robot)
    ensures GetPinStateHandler(r1, None).reply == GetPinStateHandler(r2, None).reply
    ensures SetPinStateHandler(r1, None).reply == SetPinStateHandler(r2, None).reply
    ensures GetPinStateHandler(r1, None).robot == r1
    ensures SetPinStateHandler(r1, None).robot == r1
  {
  }

  /** A set request changes, at most, the one pin it names. */
  lemma SetHandlerFrame(r: Robot, request: Option<RobotRequest>, q: string)
    requires request.None? || q != Itoa(request.value.pinNum)
    ensures Level(SetPinStateHandler(r, request).robot.board, q) == Level(r.board, q)
  {
  }

  /** A get request naming a pin the board does not have is answered 500, never 200. */
  lemma GetHandlerMissingPin(r: Robot, rr: RobotRequest)
    requires Itoa(rr.pinNum) !in r.board.levels
    ensures GetPinStateHandler(r, Some(rr)).reply ==
              Written(StatusInternalServerError, ErrorText(PinNotFound(Itoa(rr.pinNum))))
  {
  }

  /** A set of "high" on pin 37 makes pin "37" true and changes nothing else; a get
      of pin 37 then answers {"pin_num":37,"pin_state":"high"}. */
  lemma SetThenGetPin37(b: Board)
    requires "37" in b.levels && "37" !in b.faulty
    ensures var x := SetPinStateHandler(Robot(b), Some(RobotRequest("set", 37, "high")));
      && x.robot.board == b.(levels := b.levels["37" := true])
      && x.log == []
      && GetPinStateHandler(x.robot, Some(RobotRequest("get", 37, ""))).reply
           == Written(StatusOK, Json(RobotResponse(37, "high")))
  {
    ItoaExamples();
    SetWritesExactlyOnePin(Robot(b), 37, "high");
  }

  /** A get of pin 37 whose level is false answers {"pin_num":37,"pin_state":"low"}. */
  lemma GetLowPin37(b: Board)
    requires Level(b, "37") == Some(false) && "37" !in b.faulty
    ensures GetPinStateHandler(Robot(b), Some(RobotRequest("get", 37, "high"))).reply
              == Written(StatusOK, Json(RobotResponse(37, "low")))
  {
    ItoaExamples();
  }

  /** As written, a set request for a pin the board lacks reaches the client as a
      200 with an empty body: the not-found error is only logged. */
  lemma SetHandlerHidesMissingPin()
    ensures var x := SetPinStateHandler(Robot(Board(map[], {})), Some(RobotRequest("set", 37, "high")));
      && WireStatus(x.reply) == StatusOK
      && x.log == [SettingFailed(37, PinNotFound("37"))]
  {
    ItoaExamples();
  }

  /** The set handler answering a failed set with 500 and the error's text, as the
      get handler does; everything else as `SetPinStateHandler`. */
  function SetPinStateHandlerReportingErrors(r: Robot, request: Option<RobotRequest>): (x: Exchange)
    ensures x.robot == SetPinStateHandler(r, request).robot
    ensures x.log == SetPinStateHandler(r, request).log
    ensures WireStatus(x.reply) == StatusInternalServerError <==> x.log != []
    ensures WireStatus(x.reply) == StatusInternalServerError ==>
              x.reply.body == ErrorText(SetPinState(r, request.value.pinNum, request.value.pinState).err.value)
    ensures WireStatus(x.reply) == StatusBadRequest <==> request.None?
    ensures WireStatus(x.reply) != StatusInternalServerError ==> x.reply == SetPinStateHandler(r, request).reply
  {
    match request
    case None => Exchange(r, Written(StatusBadRequest, DecodeErrorText), [])
    case Some(rr) =>
      var outcome := SetPinState(r, rr.pinNum, rr.pinState);
      if outcome.err.Some? then
        Exchange(outcome.value, Written(StatusInternalServerError, ErrorText(outcome.err.value)),
                 [SettingFailed(rr.pinNum, outcome.err.value)])
      else Exchange(outcome.value, Unwritten, [])
  }

  /** With errors reported, a set naming a missing pin, or carrying an invalid state,
      is answered 500 and never 200, and the board is untouched. */
  lemma ReportingSetHandlerRejects(r: Robot, rr: RobotRequest)
    requires Itoa(rr.pinNum) !in r.board.levels || !IsValid(rr.pinState)
    ensures var x := SetPinStateHandlerReportingErrors(r, Some(rr));
      && WireStatus(x.reply) == StatusInternalServerError
      && x.robot == r
      && x.reply.body == ErrorText(if Itoa(rr.pinNum) !in r.board.levels
                                   then PinNotFound(Itoa(rr.pinNum)) else InvalidPinState)
  {
  }
}
