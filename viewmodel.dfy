/**
 * The app's view model: the four observable fields the screens watch (the
 * robot list, the loading flag, the status message and the last connection
 * result) and the actions that set them. Each action's coroutine is taken to
 * run to completion before the next action starts. A field that was never
 * assigned holds `None`, as a `LiveData` without a value holds `null`.
 */
module ViewModel {
  import opened Wrappers
  import opened RobotData
  import opened RobotStore
  import opened Repository

  const FillAllFields: string := "请填写所有字段"
  const AddSucceeded: string := "机器人添加成功"
  const AddFailedPrefix: string := "添加机器人失败: "
  const UpdateSucceeded: string := "机器人更新成功"
  const UpdateFailedPrefix: string := "更新机器人失败: "
  const DeleteSucceeded: string := "机器人删除成功"
  const DeleteFailedPrefix: string := "删除机器人失败: "
  const LoadFailedPrefix: string := "加载机器人列表失败: "
  const Connected: string := "连接成功"
  const ConnectFailedPrefix: string := "连接失败: "
  const ConnectErrorPrefix: string := "连接测试失败: "
  const EnterMessage: string := "请输入消息"
  const SentPrefix: string := "消息发送成功: "
  const SendFailedPrefix: string := "消息发送失败: "
  const SendErrorPrefix: string := "发送消息失败: "

  /** Kotlin's `Char.isWhitespace`: the Java whitespace characters and the Unicode space separators. */
  predicate IsWhitespace(c: char) {
    || c == '\t' || c == '\n' || c == '\U{000B}' || c == '\U{000C}' || c == '\r'
    || ('\U{001C}' <= c <= '\U{001F}')
    || c == ' ' || c == '\U{00A0}' || c == '\U{1680}'
    || ('\U{2000}' <= c <= '\U{200A}')
    || c == '\U{2028}' || c == '\U{2029}' || c == '\U{202F}' || c == '\U{205F}' || c == '\U{3000}'
  }

  /** `CharSequence.isBlank`: empty or whitespace only. */
  predicate IsBlank(s: string) {
    forall i :: 0 <= i < |s| ==> IsWhitespace(s[i])
  }

  /** The empty text, white space of every kind, and text with a visible character. */
  lemma BlankExamples()
    ensures IsBlank("") && IsBlank(" \t\n") && IsBlank("\U{3000}\U{00A0}")
    ensures !IsBlank(" a ") && !IsBlank("请")
  {
    assert " a "[1] == 'a';
    assert "请"[0] == '请';
  }

  /** A text is blank exactly when both of its parts are. */
  lemma {:induction false} IsBlankConcat(a: string, b: string)
    ensures IsBlank(a + b) <==> IsBlank(a) && IsBlank(b)
  {
    var s := a + b;
    if IsBlank(s) {
      forall i | 0 <= i < |a| ensures IsWhitespace(a[i]) { assert s[i] == a[i]; }
      forall i | 0 <= i < |b| ensures IsWhitespace(b[i]) { assert s[|a| + i] == b[i]; }
    }
  }

  /** Over the repository as written, every send whose server call returns shows the transparency error. */
  lemma SendMessageTextAsWritten(robot: Robot, text: string, isValidUrl: string -> bool, reply: Reply)
    requires !(isValidUrl(robot.apiUrl) && reply.Raised?)
    ensures SendMessageText(SendMessageAsWritten(robot, text, isValidUrl, reply)) == SendErrorPrefix + TransparencyMessage
  {
    AsWrittenCallsThrow(robot, text, isValidUrl, reply);
  }

  /** The message `testConnection` shows for the repository call's outcome. */
  function ConnectionMessage(outcome: Outcome<bool>): string {
    match outcome
    case Returned(Success(_)) => Connected
    case Returned(Failure(e)) => ConnectFailedPrefix + MessageText(e)
    case Threw(e) => ConnectErrorPrefix + MessageText(e)
  }

  /** The message `sendMessage` shows for the repository call's outcome. */
  function SendMessageText(outcome: Outcome<string>): string {
    match outcome
    case Returned(Success(response)) => SentPrefix + response
    case Returned(Failure(e)) => SendFailedPrefix + MessageText(e)
    case Threw(e) => SendErrorPrefix + MessageText(e)
  }

  /** `"$prefix${e.message}"` for the three database actions. */
  function DatabaseMessage(fault: Option<Throwable>, succeeded: string, failedPrefix: string): string {
    if fault.Some? then failedPrefix + MessageText(fault.value) else succeeded
  }

  /**
   * With the repository as intended, the connection test shows "连接成功"
   * exactly when the URL is valid and the server answers with a 2xx status;
   * an invalid URL shows "连接失败: Invalid URL format".
   */
  lemma ConnectionMessageOfRepository(robot: Robot, isValidUrl: string -> bool, reply: Reply)
    ensures var m := ConnectionMessage(Returned(Repository.TestConnection(robot, isValidUrl, reply).result));
      && (m == Connected <==> isValidUrl(robot.apiUrl) && reply.Answered? && IsSuccessful(reply.response))
      && (!isValidUrl(robot.apiUrl) ==> m == ConnectFailedPrefix + InvalidUrlMessage)
  {
    var m := ConnectionMessage(Returned(Repository.TestConnection(robot, isValidUrl, reply).result));
    if isValidUrl(robot.apiUrl) {
      TestConnectionOutcomes(robot, isValidUrl, reply);
    } else {
      InvalidUrlShortCircuits(robot, "", isValidUrl, reply);
    }
  }

  /**
   * With the repository as written, every connection test whose server call
   * does not throw shows the transparency error: a valid server shows
   * "连接测试失败: ..." and never "连接成功".
   */
  lemma ConnectionMessageAsWritten(robot: Robot, isValidUrl: string -> bool, reply: Reply)
    requires !(isValidUrl(robot.apiUrl) && reply.Raised?)
    ensures ConnectionMessage(TestConnectionAsWritten(robot, isValidUrl, reply)) == ConnectErrorPrefix + TransparencyMessage
  {
    AsWrittenCallsThrow(robot, "", isValidUrl, reply);
  }

  /** The view model over a repository. */
  class RobotViewModel {
    const repository: RobotRepository
    var robots: Option<seq<Robot>>
    var isLoading: Option<bool>
    var message: Option<string>
    var connectionResult: Option<bool>
    /** Every value posted to `isLoading`, in order. */
    ghost var loadingPosts: seq<bool>

    /**
     * Creation starts collecting the robot list: the loading flag goes up and
     * stays up, since the collection never ends; the list arrives later.
     */
    constructor(repository: RobotRepository)
      ensures this.repository == repository
      ensures robots == None && message == None && connectionResult == None
      ensures isLoading == Some(true) && loadingPosts == [true]
    {
      this.repository := repository;
      robots := None;
      message := None;
      connectionResult := None;
      isLoading := Some(true);
      loadingPosts := [true];
    }

    /** The robot-list collection receives the table's current listing. */
    method RobotsEmitted()
      requires repository.dao.Valid()
      modifies this
      ensures robots.Some? && IsListing(robots.value, repository.dao.rows) && NewestFirst(robots.value)
      ensures isLoading == old(isLoading) && message == old(message) && connectionResult == old(connectionResult)
      ensures loadingPosts == old(loadingPosts)
    {
      var list := repository.GetAllRobots();
      robots := Some(list);
    }

    /** The robot-list collection fails: the error is shown and loading ends. */
    method RobotsFailed(e: Throwable)
      modifies this
      ensures message == Some(LoadFailedPrefix + MessageText(e))
      ensures isLoading == Some(false) && loadingPosts == old(loadingPosts) + [false]
      ensures robots == old(robots) && connectionResult == old(connectionResult)
    {
      message := Some(LoadFailedPrefix + MessageText(e));
      isLoading := Some(false);
      loadingPosts := loadingPosts + [false];
    }

    /**
     * Adds a robot built from the three form fields at time `now`. A blank field
     * only shows "请填写所有字段". Otherwise the robot is inserted with a
     * generated id, unless the database throws `fault`, and the outcome is
     * shown. The loading flag is never touched.
     */
    method AddRobot(name: string, apiUrl: string, apiKey: string, now: int, fault: Option<Throwable>)
      requires repository.dao.Valid()
      modifies this, repository.dao
      ensures repository.dao.Valid()
      ensures IsBlank(name) || IsBlank(apiUrl) || IsBlank(apiKey) ==>
        && message == Some(FillAllFields)
        && repository.dao.rows == old(repository.dao.rows) && repository.dao.seqMax == old(repository.dao.seqMax)
      ensures !(IsBlank(name) || IsBlank(apiUrl) || IsBlank(apiKey)) ==>
        && message == Some(DatabaseMessage(fault, AddSucceeded, AddFailedPrefix))
        && (fault.Some? ==> repository.dao.rows == old(repository.dao.rows) && repository.dao.seqMax == old(repository.dao.seqMax))
        && (fault.None? ==>
              var id := old(repository.dao.seqMax) + 1;
              && id !in old(repository.dao.rows)
              && repository.dao.rows == old(repository.dao.rows)[id := NewRobot(name, apiUrl, apiKey, now).(id := id)]
              && repository.dao.seqMax == id)
      ensures isLoading == old(isLoading) && loadingPosts == old(loadingPosts)
      ensures robots == old(robots) && connectionResult == old(connectionResult)
    {
      if IsBlank(name) || IsBlank(apiUrl) || IsBlank(apiKey) {
        message := Some(FillAllFields);
        return;
      }
      if fault.None? {
        var _ := repository.InsertRobot(NewRobot(name, apiUrl, apiKey, now));
      }
      message := Some(DatabaseMessage(fault, AddSucceeded, AddFailedPrefix));
    }

    /** Replaces the robot's row, unless the database throws `fault`, and shows the outcome. */
    method UpdateRobot(robot: Robot, fault: Option<Throwable>)
      requires repository.dao.Valid()
      modifies this, repository.dao
      ensures repository.dao.Valid()
      ensures message == Some(DatabaseMessage(fault, UpdateSucceeded, UpdateFailedPrefix))
      ensures fault.None? && robot.id in old(repository.dao.rows) ==>
        repository.dao.rows == old(repository.dao.rows)[robot.id := robot]
      ensures fault.Some? || robot.id !in old(repository.dao.rows) ==> repository.dao.rows == old(repository.dao.rows)
      ensures repository.dao.seqMax == old(repository.dao.seqMax)
      ensures isLoading == old(isLoading) && loadingPosts == old(loadingPosts)
      ensures robots == old(robots) && connectionResult == old(connectionResult)
    {
      if fault.None? {
        repository.UpdateRobot(robot);
      }
      message := Some(DatabaseMessage(fault, UpdateSucceeded, UpdateFailedPrefix));
    }

    /** Deletes the robot's row, unless the database throws `fault`, and shows the outcome. */
    method DeleteRobot(robot: Robot, fault: Option<Throwable>)
      requires repository.dao.Valid()
      modifies this, repository.dao
      ensures repository.dao.Valid()
      ensures message == Some(DatabaseMessage(fault, DeleteSucceeded, DeleteFailedPrefix))
      ensures fault.None? ==> repository.dao.rows == old(repository.dao.rows) - {robot.id}
      ensures fault.Some? ==> repository.dao.rows == old(repository.dao.rows)
      ensures repository.dao.seqMax == old(repository.dao.seqMax)
      ensures isLoading == old(isLoading) && loadingPosts == old(loadingPosts)
      ensures robots == old(robots) && connectionResult == old(connectionResult)
    {
      if fault.None? {
        repository.DeleteRobot(robot);
      }
      message := Some(DatabaseMessage(fault, DeleteSucceeded, DeleteFailedPrefix));
    }

    /**
     * Shows the outcome of a connection test: the result flag is true exactly
     * when the call returned a success; loading goes up, then down.
     */
    method ShowConnectionOutcome(outcome: Outcome<bool>)
      modifies this
      ensures connectionResult == Some(outcome.Returned? && outcome.result.Success?)
      ensures message == Some(ConnectionMessage(outcome))
      ensures isLoading == Some(false) && loadingPosts == old(loadingPosts) + [true, false]
      ensures robots == old(robots)
    {
      isLoading := Some(true);
      loadingPosts := loadingPosts + [true];
      match outcome {
        case Returned(Success(_)) =>
          connectionResult := Some(true);
          message := Some(Connected);
        case Returned(Failure(e)) =>
          connectionResult := Some(false);
          message := Some(ConnectFailedPrefix + MessageText(e));
        case Threw(e) =>
          connectionResult := Some(false);
          message := Some(ConnectErrorPrefix + MessageText(e));
      }
      isLoading := Some(false);
      loadingPosts := loadingPosts + [false];
    }

    /**
     * Tests the robot's connection, over the repository's calls as they are meant
     * to behave (`Repository.TestConnection`). The result flag is true exactly
     * when the URL is valid and the server answers with a 2xx status. Over the
     * calls as written, every test whose server call returns shows the
     * transparency error instead (`ConnectionMessageAsWritten`).
     */
    method TestConnection(robot: Robot, isValidUrl: string -> bool, reply: Reply)
      modifies this
      ensures connectionResult == Some(isValidUrl(robot.apiUrl) && reply.Answered? && IsSuccessful(reply.response))
      ensures message == Some(ConnectionMessage(Returned(Repository.TestConnection(robot, isValidUrl, reply).result)))
      ensures isLoading == Some(false) && loadingPosts == old(loadingPosts) + [true, false]
      ensures robots == old(robots)
    {
      var call := Repository.TestConnection(robot, isValidUrl, reply);
      if isValidUrl(robot.apiUrl) {
        TestConnectionOutcomes(robot, isValidUrl, reply);
      } else {
        InvalidUrlShortCircuits(robot, "", isValidUrl, reply);
      }
      ShowConnectionOutcome(Returned(call.result));
    }

    /** Shows the outcome of sending a message; loading goes up, then down. */
    method ShowSendOutcome(outcome: Outcome<string>)
      modifies this
      ensures message == Some(SendMessageText(outcome))
      ensures isLoading == Some(false) && loadingPosts == old(loadingPosts) + [true, false]
      ensures robots == old(robots) && connectionResult == old(connectionResult)
    {
      isLoading := Some(true);
      loadingPosts := loadingPosts + [true];
      match outcome {
        case Returned(Success(response)) =>
          message := Some(SentPrefix + response);
        case Returned(Failure(e)) =>
          message := Some(SendFailedPrefix + MessageText(e));
        case Threw(e) =>
          message := Some(SendErrorPrefix + MessageText(e));
      }
      isLoading := Some(false);
      loadingPosts := loadingPosts + [false];
    }

    /**
     * Sends `text` to the robot. A blank text only shows "请输入消息", sends
     * nothing and leaves the loading flag alone; otherwise the outcome of the
     * repository's call as it is meant to behave (`Repository.SendMessage`) is
     * shown. Over the call as written, every send whose server call returns
     * shows "发送消息失败: " with the transparency error (`SendMessageTextAsWritten`).
     */
    method SendMessage(robot: Robot, text: string, isValidUrl: string -> bool, reply: Reply)
      modifies this
      ensures IsBlank(text) ==>
        && message == Some(EnterMessage)
        && isLoading == old(isLoading) && loadingPosts == old(loadingPosts)
      ensures !IsBlank(text) ==>
        && message == Some(SendMessageText(Returned(Repository.SendMessage(robot, text, isValidUrl, reply).result)))
        && isLoading == Some(false) && loadingPosts == old(loadingPosts) + [true, false]
      ensures robots == old(robots) && connectionResult == old(connectionResult)
    {
      if IsBlank(text) {
        message := Some(EnterMessage);
        return;
      }
      var call := Repository.SendMessage(robot, text, isValidUrl, reply);
      ShowSendOutcome(Returned(call.result));
    }

    /** Empties the message and nothing else. */
    method ClearMessage()
      modifies this
      ensures message == Some("")
      ensures robots == old(robots) && isLoading == old(isLoading) && connectionResult == old(connectionResult)
      ensures loadingPosts == old(loadingPosts)
    {
      message := Some("");
    }

    /** Forgets the connection result and nothing else. */
    method ClearConnectionResult()
      modifies this
      ensures connectionResult == None
      ensures robots == old(robots) && isLoading == old(isLoading) && message == old(message)
      ensures loadingPosts == old(loadingPosts)
    {
      connectionResult := None;
    }
  }
}
