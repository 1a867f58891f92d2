/**
 * The app's repository: the robot CRUD calls, passed straight to the table,
 * and the two network calls, `testConnection` and `sendMessage`, which turn
 * a URL check, an HTTP response or a thrown error into a `Result`.
 *
 * The network is an input: `reply` is what the robot's server did with the
 * request (answered with a status code and an optional JSON body, or made the
 * call throw). `isValidUrl` stands for the `java.net.URL` parse check.
 */
module Repository {
  import opened Wrappers
  import opened PyInt
  import opened RobotData
  import opened RobotStore

  // --------------------------------------------------------- Kotlin values

  /** The exceptions the calls can throw or wrap. */
  datatype Throwable =
    | Thrown(message: Option<string>)  // any exception, by its message (`Exception("...")`, an I/O error)
    | AbortFlow                        // what `first()` throws into the flow to stop it
    | TransparencyViolation            // the IllegalStateException of an emission after a failed one

  const AbortFlowMessage: string := "Flow was aborted, no more elements needed"
  const TransparencyMessage: string := "Flow exception transparency is violated"

  /** `"${e.message}"`: a missing message prints as `null`. */
  function MessageText(e: Throwable): string {
    match e
    case Thrown(m) => m.GetOr("null")
    case AbortFlow => AbortFlowMessage
    case TransparencyViolation => TransparencyMessage
  }

  /** Kotlin's `Result<T>`. */
  datatype KResult<T> = Success(value: T) | Failure(error: Throwable)

  /** How a call ended: it returned a result, or it threw. */
  datatype Outcome<T> = Returned(result: KResult<T>) | Threw(e: Throwable)

  /** The JSON body of the robot API's answers. */
  datatype MessageResponse = MessageResponse(success: bool, message: Option<string>, error: Option<string>)

  datatype HttpResponse = HttpResponse(code: int, body: Option<MessageResponse>)

  /** Retrofit's `isSuccessful`: a 2xx status. */
  predicate IsSuccessful(r: HttpResponse) {
    200 <= r.code < 300
  }

  /** What the server did with the request. */
  datatype Reply = Answered(response: HttpResponse) | Raised(e: Throwable)

  /** The request a call sends: `GET status` with an `Authorization` header, or `POST chat`. */
  datatype Request = StatusCheck(authorization: string) | Chat(message: string, apiKey: string)

  /** A network call: the request it sent, if any, and what it gave back. */
  datatype Call<T> = Call(request: Option<Request>, result: KResult<T>)

  const InvalidUrlMessage: string := "Invalid URL format"
  const ConnectionFailedPrefix: string := "Connection failed: "
  const DefaultSentMessage: string := "Message sent successfully"
  const UnknownErrorMessage: string := "Unknown error"
  const RequestFailedPrefix: string := "Request failed: "

  function Error(text: string): Throwable {
    Thrown(Some(text))
  }

  // ------------------------------------------- the body of the flow block

  /**
   * What the `try` part of a call's flow block does: emit one result, or throw
   * before emitting anything (the server call threw).
   */
  datatype Attempt<T> = Emits(value: KResult<T>) | ThrowsFirst(e: Throwable)

  /** The `try` part of `testConnection`, and the request it sends. */
  function TestConnectionAttempt(robot: Robot, isValidUrl: string -> bool, reply: Reply): (Option<Request>, Attempt<bool>) {
    if !isValidUrl(robot.apiUrl) then (None, Emits(Failure(Error(InvalidUrlMessage))))
    else
      var request := StatusCheck("Bearer " + robot.apiKey);
      match reply
      case Raised(e) => (Some(request), ThrowsFirst(e))
      case Answered(response) =>
        if IsSuccessful(response) then (Some(request), Emits(Success(true)))
        else (Some(request), Emits(Failure(Error(ConnectionFailedPrefix + IntToString(response.code)))))
  }

  /** What a successful answer to a chat request gives. */
  function ChatResult(body: Option<MessageResponse>): KResult<string> {
    if body.Some? && body.value.success then Success(body.value.message.GetOr(DefaultSentMessage))
    else Failure(Error(if body.Some? then body.value.error.GetOr(UnknownErrorMessage) else UnknownErrorMessage))
  }

  /** The `try` part of `sendMessage`, and the request it sends. */
  function SendMessageAttempt(robot: Robot, message: string, isValidUrl: string -> bool, reply: Reply): (Option<Request>, Attempt<string>) {
    if !isValidUrl(robot.apiUrl) then (None, Emits(Failure(Error(InvalidUrlMessage))))
    else
      var request := Chat(message, robot.apiKey);
      match reply
      case Raised(e) => (Some(request), ThrowsFirst(e))
      case Answered(response) =>
        if IsSuccessful(response) then (Some(request), Emits(ChatResult(response.body)))
        else (Some(request), Emits(Failure(Error(RequestFailedPrefix + IntToString(response.code)))))
  }

  // ------------------------------------------- the calls, as intended

  /** The first value of `flow { try { ... } catch (e: Exception) { emit(failure(e)) } }`: the emitted result, or the caught error. */
  function Settle<T>(attempt: Attempt<T>): KResult<T> {
    match attempt
    case Emits(v) => v
    case ThrowsFirst(e) => Failure(e)
  }

  /**
   * `testConnection`: the result the call is meant to return. A request goes
   * out exactly when the URL is valid, and a success always carries `true`.
   */
  function TestConnection(robot: Robot, isValidUrl: string -> bool, reply: Reply): (c: Call<bool>)
    ensures c.request.Some? <==> isValidUrl(robot.apiUrl)
    ensures c.result.Success? ==> c.result.value
  {
    var (request, attempt) := TestConnectionAttempt(robot, isValidUrl, reply);
    Call(request, Settle(attempt))
  }

  /**
   * `sendMessage`: the result the call is meant to return. The message goes out,
   * with the robot's key, exactly when the URL is valid.
   */
  function SendMessage(robot: Robot, message: string, isValidUrl: string -> bool, reply: Reply): (c: Call<string>)
    ensures c.request.Some? <==> isValidUrl(robot.apiUrl)
    ensures c.request.Some? ==> c.request.value == Chat(message, robot.apiKey)
  {
    var (request, attempt) := SendMessageAttempt(robot, message, isValidUrl, reply);
    Call(request, Settle(attempt))
  }

  /** A URL that does not parse fails both calls with "Invalid URL format", before any request. */
  lemma InvalidUrlShortCircuits(robot: Robot, message: string, isValidUrl: string -> bool, reply: Reply)
    requires !isValidUrl(robot.apiUrl)
    ensures TestConnection(robot, isValidUrl, reply) == Call(None, Failure(Error(InvalidUrlMessage)))
    ensures SendMessage(robot, message, isValidUrl, reply) == Call(None, Failure(Error(InvalidUrlMessage)))
  {
  }

  /**
   * With a valid URL, `testConnection` sends the key as a bearer token; it
   * succeeds (with `true`) exactly when the server answers with a 2xx status,
   * fails with "Connection failed: <code>" on any other status, and fails with
   * the thrown error when the call throws.
   */
  lemma TestConnectionOutcomes(robot: Robot, isValidUrl: string -> bool, reply: Reply)
    requires isValidUrl(robot.apiUrl)
    ensures var c := TestConnection(robot, isValidUrl, reply);
      && c.request == Some(StatusCheck("Bearer " + robot.apiKey))
      && (c.result.Success? <==> reply.Answered? && IsSuccessful(reply.response))
      && (c.result.Success? ==> c.result.value)
      && (reply.Answered? && !IsSuccessful(reply.response) ==>
            c.result == Failure(Error(ConnectionFailedPrefix + IntToString(reply.response.code))))
      && (reply.Raised? ==> c.result == Failure(reply.e))
  {
  }

  /**
   * With a valid URL, `sendMessage` posts the message with the key. A 2xx answer
   * whose body says `success` gives the body's message, or "Message sent
   * successfully" without one; a 2xx answer without a body, or whose body does
   * not say `success`, fails with the body's error, or "Unknown error"; any
   * other status fails with "Request failed: <code>"; a thrown error is the
   * failure.
   */
  lemma SendMessageOutcomes(robot: Robot, message: string, isValidUrl: string -> bool, reply: Reply)
    requires isValidUrl(robot.apiUrl)
    ensures var c := SendMessage(robot, message, isValidUrl, reply);
      && c.request == Some(Chat(message, robot.apiKey))
      && (c.result.Success? <==>
            reply.Answered? && IsSuccessful(reply.response)
            && reply.response.body.Some? && reply.response.body.value.success)
      && (c.result.Success? ==>
            var b := reply.response.body.value;
            c.result.value == if b.message.Some? then b.message.value else DefaultSentMessage)
      && (reply.Answered? && IsSuccessful(reply.response) && c.result.Failure? ==>
            var b := reply.response.body;
            c.result.error == Error(if b.Some? && b.value.error.Some? then b.value.error.value else UnknownErrorMessage))
      && (reply.Answered? && !IsSuccessful(reply.response) ==>
            c.result == Failure(Error(RequestFailedPrefix + IntToString(reply.response.code))))
      && (reply.Raised? ==> c.result == Failure(reply.e))
  {
  }

  /** The status code in a connection failure reads back as the code the server sent. */
  lemma ConnectionFailureNamesCode(robot: Robot, isValidUrl: string -> bool, code: int)
    requires isValidUrl(robot.apiUrl) && !(200 <= code < 300)
    ensures var c := TestConnection(robot, isValidUrl, Answered(HttpResponse(code, None)));
      && c.result.Failure? && c.result.error.Thrown? && c.result.error.message.Some?
      && var text := c.result.error.message.value;
      && |ConnectionFailedPrefix| <= |text|
      && text[..|ConnectionFailedPrefix|] == ConnectionFailedPrefix
      && ParseInt(text[|ConnectionFailedPrefix|..]) == Some(code)
  {
    var text := ConnectionFailedPrefix + IntToString(code);
    assert text[|ConnectionFailedPrefix|..] == IntToString(code);
    ParseIntOfIntToString(code);
  }

  // ------------------------------------------- the calls, as written

  /**
   * The collector `first()` puts under the flow: it keeps the first value and
   * has every `emit` throw. `downstreamFailed` records that an earlier `emit`
   * threw.
   */
  datatype Collector<T> = Collector(first: Option<KResult<T>>, downstreamFailed: bool)

  /**
   * One `emit` under `first()`. The first emission is kept and aborts the flow
   * by throwing `AbortFlow` out of `emit`; an emission after an `emit` threw is
   * refused with the transparency error.
   */
  function Emit<T>(c: Collector<T>, v: KResult<T>): (Collector<T>, Throwable) {
    if c.downstreamFailed then (c, TransparencyViolation)
    else (Collector(Some(v), true), AbortFlow)
  }

  /** What `first()` makes of an exception leaving the flow block. */
  function FirstCatches<T>(c: Collector<T>, thrown: Throwable): Outcome<T> {
    if thrown == AbortFlow && c.first.Some? then Returned(c.first.value) else Threw(thrown)
  }

  /**
   * `flow { try { <attempt> } catch (e: Exception) { emit(Result.failure(e)) } }.first()`
   * as written. The abort that `first()` throws out of `emit` is itself an
   * `Exception`, so the `catch` clause catches it and emits a second time.
   */
  function FirstOfGuardedFlow<T>(attempt: Attempt<T>): (r: Outcome<T>)
    ensures r.Threw? ==> r.e == TransparencyViolation
    ensures r.Returned? ==> attempt.ThrowsFirst? && r.result.Failure?
  {
    var start := Collector(None, false);
    match attempt
    case Emits(v) =>
      var (c1, e1) := Emit(start, v);
      var (c2, e2) := Emit(c1, Failure(e1));
      FirstCatches(c2, e2)
    case ThrowsFirst(e) =>
      var (c1, e1) := Emit(start, Failure(e));
      FirstCatches(c1, e1)
  }

  function TestConnectionAsWritten(robot: Robot, isValidUrl: string -> bool, reply: Reply): Outcome<bool> {
    FirstOfGuardedFlow(TestConnectionAttempt(robot, isValidUrl, reply).1)
  }

  function SendMessageAsWritten(robot: Robot, message: string, isValidUrl: string -> bool, reply: Reply): Outcome<string> {
    FirstOfGuardedFlow(SendMessageAttempt(robot, message, isValidUrl, reply).1)
  }

  /**
   * As written, a flow block that reaches its `emit` makes the call throw the
   * transparency error; only a call whose server request throws returns, and
   * then with the same failure as intended.
   */
  lemma {:induction false} GuardedFlowThrowsAfterEmit<T>(attempt: Attempt<T>)
    ensures attempt.Emits? ==> FirstOfGuardedFlow(attempt) == Threw(TransparencyViolation)
    ensures attempt.ThrowsFirst? ==> FirstOfGuardedFlow(attempt) == Returned(Settle(attempt))
  {
  }

  /**
   * Both calls as written throw in every case but a thrown server call: an
   * invalid URL, a success and an error status alike.
   */
  lemma AsWrittenCallsThrow(robot: Robot, message: string, isValidUrl: string -> bool, reply: Reply)
    ensures !(isValidUrl(robot.apiUrl) && reply.Raised?) ==>
      && TestConnectionAsWritten(robot, isValidUrl, reply) == Threw(TransparencyViolation)
      && SendMessageAsWritten(robot, message, isValidUrl, reply) == Threw(TransparencyViolation)
    ensures isValidUrl(robot.apiUrl) && reply.Raised? ==>
      && TestConnectionAsWritten(robot, isValidUrl, reply) == Returned(TestConnection(robot, isValidUrl, reply).result)
      && SendMessageAsWritten(robot, message, isValidUrl, reply) == Returned(SendMessage(robot, message, isValidUrl, reply).result)
  {
    GuardedFlowThrowsAfterEmit(TestConnectionAttempt(robot, isValidUrl, reply).1);
    GuardedFlowThrowsAfterEmit(SendMessageAttempt(robot, message, isValidUrl, reply).1);
  }

  /** A concrete case: a server that answers 200 makes the intended call succeed and the written one throw. */
  lemma AsWrittenSuccessThrows(robot: Robot)
    requires robot.apiUrl == "https://bot.example/"
    ensures var valid := (u: string) => u == "https://bot.example/";
      var reply := Answered(HttpResponse(200, None));
      && TestConnection(robot, valid, reply).result == Success(true)
      && TestConnectionAsWritten(robot, valid, reply) == Threw(TransparencyViolation)
  {
  }

  // ------------------------------------------------------------ the class

  /** The repository over the robot table. */
  class RobotRepository {
    const dao: RobotDao

    constructor(dao: RobotDao)
      ensures this.dao == dao
    {
      this.dao := dao;
    }

    method GetAllRobots() returns (list: seq<Robot>)
      requires dao.Valid()
      ensures IsListing(list, dao.rows) && NewestFirst(list)
    {
      list := dao.GetAllRobots();
    }

    method GetActiveRobots() returns (list: seq<Robot>)
      requires dao.Valid()
      ensures IsListing(list, ActiveRows(dao.rows)) && NewestFirst(list)
    {
      list := dao.GetActiveRobots();
    }

    method GetRobotById(id: int) returns (r: Option<Robot>)
      requires dao.Valid()
      ensures r.Some? <==> id in dao.rows
      ensures r.Some? ==> r.value == dao.rows[id] && r.value.id == id
    {
      r := dao.GetRobotById(id);
    }

    method InsertRobot(robot: Robot) returns (id: int)
      requires dao.Valid()
      modifies dao
      ensures dao.Valid()
      ensures id != UnsetId
      ensures robot.id != UnsetId ==> id == robot.id
      ensures robot.id == UnsetId ==> id == old(dao.seqMax) + 1 && id !in old(dao.rows)
      ensures dao.rows == old(dao.rows)[id := robot.(id := id)]
      ensures dao.seqMax == if id > old(dao.seqMax) then id else old(dao.seqMax)
    {
      id := dao.InsertRobot(robot);
    }

    method UpdateRobot(robot: Robot)
      requires dao.Valid()
      modifies dao
      ensures dao.Valid()
      ensures robot.id in old(dao.rows) ==> dao.rows == old(dao.rows)[robot.id := robot]
      ensures robot.id !in old(dao.rows) ==> dao.rows == old(dao.rows)
      ensures dao.seqMax == old(dao.seqMax)
    {
      dao.UpdateRobot(robot);
    }

    method DeleteRobot(robot: Robot)
      requires dao.Valid()
      modifies dao
      ensures dao.Valid()
      ensures dao.rows == old(dao.rows) - {robot.id}
      ensures dao.seqMax == old(dao.seqMax)
    {
      dao.DeleteRobot(robot);
    }

    method UpdateRobotStatus(id: int, isActive: bool)
      requires dao.Valid()
      modifies dao
      ensures dao.Valid()
      ensures id in old(dao.rows) ==> dao.rows == old(dao.rows)[id := old(dao.rows)[id].(isActive := isActive)]
      ensures id !in old(dao.rows) ==> dao.rows == old(dao.rows)
      ensures dao.seqMax == old(dao.seqMax)
    {
      dao.UpdateRobotStatus(id, isActive);
    }
  }
}
