# Robot aggregator and support bot: a Dafny model

The repository has two programs. This project models the core of each and proves properties of those models.

**The Telegram customer-service bot** (`bot/bot.py`):
- It reads an admin table from its configuration and offers users a keyboard of admins, three to a row.
- Each button carries an `admin_<id>` callback tag.
- A user's chat with the chosen admin is a conversation row in SQLite. Each message is logged and stamps its conversation.
- A periodic check closes conversations idle for more than 30 minutes.
- Admins see a description of the user. The description can carry a masked phone number, but the bot's two callers (bot/bot.py:279 and bot/bot.py:325) pass none.

**The Android robot aggregator** (Kotlin):
- A Room table of configured robots (chat bots reachable over HTTP), with its DAO.
- A repository that delegates to the DAO and calls a robot's `status` and `chat` endpoints.
- A view model that validates form input and turns the repository's outcomes into messages, a loading flag and a connection flag.
- The list adapter's diff relations.

Modules, one per component:

- `SupportBot` (`bot_helpers.dfy`):
  - the bot's pure helpers;
  - the callback tag and its parsing;
  - the admin table, built by a loop (`ParseAdmins`);
  - the keyboard, built by a loop (`AdminKeyboard`);
  - admin-name lookup (`FindAdminName`).
- `PyInt` (`pyint.dfy`): Python's `str(int)` and `int(str)` in base 10, with the round trip proved.
- `Conversations` (`conversations.dfy`):
  - the `conversations` and `messages` tables, as a class over a map from row id to row;
  - the clock is an integer `now` argument, in seconds;
  - the specification functions (`Touch`, `CloseRow`, `StaleIds`, `AfterTimeout`) and their lemmas.
- `RobotData` (`robot_data.dfy`): the `Robot`, `RobotConfig` and `ChatMessage` records with their defaults, and the diff relations.
- `RobotStore` (`robot_dao.dfy`): the `robots` table as a class over a map keyed by id, with SQLite's AUTOINCREMENT counter.
- `Repository` (`repository.dfy`):
  - the CRUD delegation;
  - the outcome mapping of `testConnection` and `sendMessage`;
  - a step-by-step model of the `flow { ... }.first()` construct those two calls are written with (see Findings).
- `ViewModel` (`viewmodel.dfy`): the view model as a class whose methods update its observable fields.

Inputs that the code reads from outside become parameters:
- the current time (`now`);
- `isValidUrl`, which stands for the `java.net.URL` check and is uninterpreted;
- the server's reply to a request (`Reply`): a status code with an optional JSON body, or a thrown error;
- an exception a database call throws (`fault`).

Where the code and its accompanying description differ, the model follows the code:
- **Missing rows.** Room's `@Update` and `@Delete` on a row that does not exist change nothing and raise nothing. `UpdateRobot`, `DeleteRobot` and `UpdateRobotStatus` are no-ops for a missing id.
- **International phone numbers.** `_mask_phone` keeps the first five characters of an international number, so `+8613812345678` becomes `+8613****5678`. The bot's test (`bot/test_bot.py:68`) expects `+86138****5678`. `MaskPhoneExamples` records both.
- **Timestamp ties.** Rows with equal timestamps come back in whatever order the database picks. The models fix one order and the contracts allow either:
  - `ORDER BY createdAt DESC` (the robot lists);
  - `ORDER BY last_active DESC LIMIT 1` (the active conversation).

## Model

| member | source | states |
|---|---|---|
| SupportBot.MaskPhone | bot/bot.py:105-118 | The result is the number unchanged, or the number's own last four characters behind `****` (then at least 11 characters). |
| SupportBot.MaskPhoneShape | bot/bot.py:105-118 | These numbers are returned unchanged: shorter than 7 characters, or international (`+`) and shorter than 11. A longer international number keeps its first 5 and last 4 characters with `****` between (13 characters). A domestic number of 7 or more keeps its first 3 and last 4 (11 characters). |
| SupportBot.MaskPhoneIdempotent | bot/bot.py:105-118 | Masking a masked number changes nothing. |
| SupportBot.MaskPhoneExamples | bot/test_bot.py:66-69 | The test's domestic number masks as expected. Its international number masks to `+8613****5678`, not the `+86138****5678` the test expects. |
| SupportBot.UserInfo | bot/bot.py:120-127 | Every description starts with the id line `[用户ID] <id>`. |
| SupportBot.UserInfoStartsWithId | bot/bot.py:120-127 | The description starts with `[用户ID] <id>`. With neither username nor phone, it is exactly that. |
| SupportBot.UserInfoNamesUser | bot/bot.py:123-124 | With a username, ` @<username>` follows the id line directly. Without one (missing or empty), the id line is followed directly by the contact part, so no name appears. |
| SupportBot.UserInfoEndsWithContact | bot/bot.py:125-126 | With a phone number, the description ends with the contact line holding the masked number. Without one (missing or empty), it is exactly the id line and the name part, with no contact line. |
| SupportBot.IndexOf | bot/bot.py:259 | The position found holds the character and no earlier position does. No position means the character is absent. |
| SupportBot.Split | bot/bot.py:259 | `split("_")`: the parts joined with `_` give back the input, and no part contains `_`. |
| SupportBot.ParseChoice | bot/bot.py:258-259 | Data is treated as an admin choice exactly when it starts with `admin_`. |
| SupportBot.AdminTagShape | bot/bot.py:91 | The tag is `admin_` followed by the id's text, and that text holds no `_`. |
| SupportBot.ParseChoiceOfAdminTag | bot/bot.py:258-259 | The tag `admin_<id>` built for a button (line 91) parses back to the same admin id, negative ids included. |
| SupportBot.KeyIndex | bot/bot.py:45 | The position of a name in the dict's items, or none when the name is absent. |
| SupportBot.DictSet | bot/bot.py:45 | `admins[name] = id` on a dict: a new name is appended, and an existing name keeps its place with the new id. Other entries are unchanged and names stay distinct. |
| SupportBot.ParseAdmins | bot/bot.py:39-48 | The loop builds exactly `AdminsOf(section)`: entries are admitted in order, and a missing `[ADMINS]` section gives an empty table. |
| SupportBot.ValidEntriesComplete | bot/bot.py:42-47 | Every entry whose value `int()` accepts is among the valid entries. |
| SupportBot.ValidEntriesSound | bot/bot.py:42-47 | Every valid entry comes from a configured entry whose value parses to that id. |
| SupportBot.AdminsFromDistinct | bot/bot.py:39-48 | The admin table never holds a name twice. |
| SupportBot.AdminsFromOnlyConfiguredNames | bot/bot.py:39-48 | A name absent from the configuration never enters the table. |
| SupportBot.AdminsFromKeepsValidEntries | bot/bot.py:39-48 | With distinct option names, the table is exactly the entries with integer values, in file order. Invalid entries are skipped. |
| SupportBot.AdminKeyboard | bot/bot.py:83-103 | There are `ceil(n/3)` rows. Each row holds 1-3 buttons and every row but the last holds 3. Row `r` holds buttons `3r...` of the table, and the rows concatenated are exactly one button per admin, in table order. |
| SupportBot.KeyboardButtonSelectsItsAdmin | bot/bot.py:88-92 | Pressing the button in row `r`, column `c` selects the admin at position `3r+c` of the table. |
| SupportBot.FindAdminName | bot/bot.py:266-270 | The name is that of the first admin in table order with the id, or the default when there is none. The same lookup appears at lines 392-396 with the default `管理员`. |
| PyInt.NatToString | bot/bot.py:91 | Decimal digits, with no leading zero. |
| PyInt.IntToString | bot/bot.py:91 | Decimal text of an integer, with a leading `-` for negatives, and no `_`. |
| PyInt.ParseIntRejectsBlank | bot/bot.py:45 | `int(value)` rejects a value of white space only, including the empty value. The same call parses the callback id at line 259. |
| PyInt.ParseIntOfDigits | bot/bot.py:45 | `int(value)` reads a plain run of decimal digits as its decimal value. |
| PyInt.ParseIntOfIntToString | bot/bot.py:259 | `int(str(n)) == n` for every integer. |
| Conversations.Touch | bot/bot.py:171-176 | Stamping a message changes only that conversation's `last_active`. An unknown id changes nothing. |
| Conversations.CloseRow | bot/bot.py:185-189 | Closing changes only that row's status. An unknown id changes nothing. |
| Conversations.AfterTimeout | bot/bot.py:195-225 | The timeout check keeps every conversation row, and afterwards none of them is stale. |
| Conversations.AfterTimeoutClosesExactlyStale | bot/bot.py:201-216 | The timeout check closes exactly the active rows idle for more than 30 minutes, and touches nothing else. |
| Conversations.AfterTimeoutIdempotent | bot/bot.py:195-225 | After the check no stale row remains, and a second check at the same time changes nothing. |
| Conversations.StaleIdsGrowWithTime | bot/bot.py:201-206 | A later check closes every row an earlier one would close. |
| Conversations.CreatedIsLatest | bot/bot.py:145-159 | A new conversation becomes the user's latest active one. |
| Conversations.TouchedIsLatest | bot/bot.py:161-179 | A message makes its active conversation the user's latest active one. |
| Conversations.ClosedIsNotLatest | bot/bot.py:181-193 | A closed conversation is never the one a user's message is routed to. |
| Conversations.ConversationStore.constructor | bot/bot.py:50-81 | Both tables start empty and the id counter starts at zero. |
| Conversations.ConversationStore.CreateConversation | bot/bot.py:145-159 | Inserts an active row with both timestamps `now` under a fresh id (counter + 1) and returns that id. |
| Conversations.ConversationStore.SaveMessage | bot/bot.py:161-179 | Appends the message to the log and stamps the conversation (`Touch`). |
| Conversations.ConversationStore.CloseConversation | bot/bot.py:181-193 | The table becomes `CloseRow` of the old one. |
| Conversations.ConversationStore.CheckTimeouts | bot/bot.py:195-225 | Returns exactly the stale ids and leaves the table equal to `AfterTimeout` of the old table. |
| Conversations.ConversationStore.GetActiveConversation | bot/bot.py:129-143 | Returns none exactly when the user has no active conversation. Otherwise it returns an active conversation of the user with the greatest `last_active`, with its admin. |
| RobotData.NewRobotDefaults | app/src/main/java/com/example/robotaggregator/data/Robot.kt:7-17 | A new robot has an unset id, an empty description, is active, was created at `now` and has never been used. |
| RobotData.NewRobotConfigDefaults | app/src/main/java/com/example/robotaggregator/data/Robot.kt:19-24 | The description defaults to empty. |
| RobotData.NewChatMessageDefaults | app/src/main/java/com/example/robotaggregator/data/Robot.kt:26-33 | A chat message has an unset id, is stamped `now`, and counts as a success. |
| RobotData.ContentsAreAllFields | app/src/main/java/com/example/robotaggregator/adapter/RobotAdapter.kt:65-67 | Contents are the same exactly when all eight fields agree. |
| RobotData.ContentsImplyItems | app/src/main/java/com/example/robotaggregator/adapter/RobotAdapter.kt:61-67 | Same contents implies the same item. |
| RobotData.DiffRelationsReflexiveSymmetric | app/src/main/java/com/example/robotaggregator/adapter/RobotAdapter.kt:61-67 | Both relations are reflexive and symmetric. |
| RobotData.EditIsSameItemNewContents | app/src/main/java/com/example/robotaggregator/adapter/RobotAdapter.kt:61-67 | An edit that keeps the id is the same item with new contents. |
| RobotStore.ActiveOnly | app/src/main/java/com/example/robotaggregator/data/RobotDao.kt:11-12 | Keeps exactly the active entries. |
| RobotStore.ActiveOnlyIsActiveListing | app/src/main/java/com/example/robotaggregator/data/RobotDao.kt:8-12 | Filtering the newest-first listing by the active flag gives a newest-first listing of the active rows, so the two queries agree. |
| RobotStore.ListNewestFirst | app/src/main/java/com/example/robotaggregator/data/RobotDao.kt:8-9 | Every row appears exactly once, as stored, ordered by `createdAt` descending. |
| RobotStore.RobotDao.GetAllRobots | app/src/main/java/com/example/robotaggregator/data/RobotDao.kt:8-9 | A newest-first listing of all rows. |
| RobotStore.RobotDao.GetActiveRobots | app/src/main/java/com/example/robotaggregator/data/RobotDao.kt:11-12 | A newest-first listing of exactly the active rows. |
| RobotStore.RobotDao.GetRobotById | app/src/main/java/com/example/robotaggregator/data/RobotDao.kt:14-15 | The row with that id, or none exactly when there is no such row. |
| RobotStore.RobotDao.InsertRobot | app/src/main/java/com/example/robotaggregator/data/RobotDao.kt:17-18 | An explicit id replaces any row under it. An unset id gets counter + 1, an id above every id the table has held. The id is returned. |
| RobotStore.RobotDao.UpdateRobot | app/src/main/java/com/example/robotaggregator/data/RobotDao.kt:20-21 | Replaces the row with that id. Other rows are unchanged, and a missing id changes nothing. |
| RobotStore.RobotDao.DeleteRobot | app/src/main/java/com/example/robotaggregator/data/RobotDao.kt:23-24 | Removes only the row with that robot's id, if present. |
| RobotStore.RobotDao.DeleteRobotById | app/src/main/java/com/example/robotaggregator/data/RobotDao.kt:26-27 | Removes only the row with that id, if present. |
| RobotStore.RobotDao.UpdateRobotStatus | app/src/main/java/com/example/robotaggregator/data/RobotDao.kt:29-30 | Changes only the `isActive` field of that row. |
| Repository.RobotRepository.constructor | app/src/main/java/com/example/robotaggregator/repository/RobotRepository.kt:11 | The repository wraps the given DAO. |
| Repository.RobotRepository.GetAllRobots | app/src/main/java/com/example/robotaggregator/repository/RobotRepository.kt:13 | Same contract as the DAO query. |
| Repository.RobotRepository.GetActiveRobots | app/src/main/java/com/example/robotaggregator/repository/RobotRepository.kt:15 | Same contract as the DAO query. |
| Repository.RobotRepository.GetRobotById | app/src/main/java/com/example/robotaggregator/repository/RobotRepository.kt:17 | Same contract as the DAO query. |
| Repository.RobotRepository.InsertRobot | app/src/main/java/com/example/robotaggregator/repository/RobotRepository.kt:19 | Same contract as the DAO insert. |
| Repository.RobotRepository.UpdateRobot | app/src/main/java/com/example/robotaggregator/repository/RobotRepository.kt:21 | Same contract as the DAO update. |
| Repository.RobotRepository.DeleteRobot | app/src/main/java/com/example/robotaggregator/repository/RobotRepository.kt:23 | Same contract as the DAO delete. |
| Repository.RobotRepository.UpdateRobotStatus | app/src/main/java/com/example/robotaggregator/repository/RobotRepository.kt:25-26 | Same contract as the DAO status update. |
| Repository.TestConnection | app/src/main/java/com/example/robotaggregator/repository/RobotRepository.kt:28-47 | The call as intended (see Findings): a request goes out exactly when the URL is valid, and a success always carries `true`. |
| Repository.SendMessage | app/src/main/java/com/example/robotaggregator/repository/RobotRepository.kt:49-73 | The call as intended (see Findings): a request goes out exactly when the URL is valid, and it carries the message and the robot's key. |
| Repository.InvalidUrlShortCircuits | app/src/main/java/com/example/robotaggregator/repository/RobotRepository.kt:28-34 | An invalid URL fails both calls with `Invalid URL format` and sends no request. The same check is at lines 51-54. |
| Repository.TestConnectionOutcomes | app/src/main/java/com/example/robotaggregator/repository/RobotRepository.kt:28-47 | Sends `Bearer <key>`. Succeeds (with `true`) exactly when the server answers 2xx. Any other status fails with `Connection failed: <code>`, and a thrown call fails with its error. |
| Repository.SendMessageOutcomes | app/src/main/java/com/example/robotaggregator/repository/RobotRepository.kt:49-73 | Posts the message with the key. Succeeds exactly on a 2xx answer whose body says `success`, with the body's message or `Message sent successfully`. Otherwise it fails with the body's error or `Unknown error`, with `Request failed: <code>`, or with the thrown error. |
| Repository.ConnectionFailureNamesCode | app/src/main/java/com/example/robotaggregator/repository/RobotRepository.kt:42 | The code in `Connection failed: <code>` reads back as the status code the server sent. |
| Repository.GuardedFlowThrowsAfterEmit | app/src/main/java/com/example/robotaggregator/repository/RobotRepository.kt:28-47 | As written, a flow block that reaches `emit` makes the call throw the transparency error. A block that throws first returns its failure. |
| Repository.FirstOfGuardedFlow | app/src/main/java/com/example/robotaggregator/repository/RobotRepository.kt:28-47 | `first()` of the flow as written either throws the transparency error or returns the failure of a block that threw before emitting. It never returns a success. |
| Repository.AsWrittenCallsThrow | app/src/main/java/com/example/robotaggregator/repository/RobotRepository.kt:28-73 | As written, both calls throw in every case except a thrown server call, which returns the intended failure. |
| Repository.AsWrittenSuccessThrows | app/src/main/java/com/example/robotaggregator/repository/RobotRepository.kt:39-47 | A server answering 200 makes the intended call succeed, while the call as written throws. |
| ViewModel.BlankExamples | app/src/main/java/com/example/robotaggregator/viewmodel/RobotViewModel.kt:42 | `isBlank` holds for the empty text and for text made of white space, including the ideographic and no-break spaces. It fails for text with a visible character. |
| ViewModel.IsBlankConcat | app/src/main/java/com/example/robotaggregator/viewmodel/RobotViewModel.kt:105 | A text is blank exactly when both of its parts are. |
| ViewModel.ConnectionMessageOfRepository | app/src/main/java/com/example/robotaggregator/viewmodel/RobotViewModel.kt:80-101 | Over the intended repository, the message is `连接成功` exactly when the URL is valid and the server answers 2xx. An invalid URL shows `连接失败: Invalid URL format`. |
| ViewModel.ConnectionMessageAsWritten | app/src/main/java/com/example/robotaggregator/viewmodel/RobotViewModel.kt:95-97 | Over the repository as written, every test whose server call does not throw shows `连接测试失败: ` with the transparency error. |
| ViewModel.SendMessageTextAsWritten | app/src/main/java/com/example/robotaggregator/viewmodel/RobotViewModel.kt:110-124 | Over the repository as written, every send whose server call does not throw shows `发送消息失败: ` with the transparency error. |
| ViewModel.RobotViewModel.constructor | app/src/main/java/com/example/robotaggregator/viewmodel/RobotViewModel.kt:22-28 | Creation raises the loading flag. The other fields hold no value yet. |
| ViewModel.RobotViewModel.RobotsEmitted | app/src/main/java/com/example/robotaggregator/viewmodel/RobotViewModel.kt:30-32 | The list field becomes a newest-first listing of the table. Nothing else changes. |
| ViewModel.RobotViewModel.RobotsFailed | app/src/main/java/com/example/robotaggregator/viewmodel/RobotViewModel.kt:33-37 | The load error is shown and loading ends. |
| ViewModel.RobotViewModel.AddRobot | app/src/main/java/com/example/robotaggregator/viewmodel/RobotViewModel.kt:41-56 | A blank field shows `请填写所有字段` and leaves the table alone. Otherwise a default robot is inserted under counter + 1, which becomes the new counter, and `机器人添加成功` is shown; on a database error the table is unchanged and `添加机器人失败: <message>` is shown. The loading flag is untouched. |
| ViewModel.RobotViewModel.UpdateRobot | app/src/main/java/com/example/robotaggregator/viewmodel/RobotViewModel.kt:58-67 | The row is replaced and `机器人更新成功` is shown. On a database error `更新机器人失败: <message>` is shown and the table is unchanged. Loading is untouched. |
| ViewModel.RobotViewModel.DeleteRobot | app/src/main/java/com/example/robotaggregator/viewmodel/RobotViewModel.kt:69-78 | The row is removed and `机器人删除成功` is shown. On a database error `删除机器人失败: <message>` is shown and the table is unchanged. Loading is untouched. |
| ViewModel.RobotViewModel.ShowConnectionOutcome | app/src/main/java/com/example/robotaggregator/viewmodel/RobotViewModel.kt:82-100 | The connection flag is true exactly for a returned success. The message is chosen per outcome: success, returned failure, or thrown error. Loading goes true, then false. |
| ViewModel.RobotViewModel.TestConnection | app/src/main/java/com/example/robotaggregator/viewmodel/RobotViewModel.kt:80-102 | Composed with the intended repository call of Findings (`Repository.TestConnection`): the connection flag becomes true exactly when the URL is valid and the server answers 2xx. Loading ends false. Over the call as written, the message is the transparency error instead (`ConnectionMessageAsWritten`). |
| ViewModel.RobotViewModel.ShowSendOutcome | app/src/main/java/com/example/robotaggregator/viewmodel/RobotViewModel.kt:111-126 | The message is `消息发送成功: <response>`, `消息发送失败: <message>` or `发送消息失败: <message>`. Loading goes true, then false. |
| ViewModel.RobotViewModel.SendMessage | app/src/main/java/com/example/robotaggregator/viewmodel/RobotViewModel.kt:104-128 | A blank text shows `请输入消息`, sends nothing and leaves loading alone. Otherwise the outcome of the intended repository call of Findings (`Repository.SendMessage`) is shown and loading ends false. Over the call as written, the message is `发送消息失败: ` with the transparency error (`SendMessageTextAsWritten`). |
| ViewModel.RobotViewModel.ClearMessage | app/src/main/java/com/example/robotaggregator/viewmodel/RobotViewModel.kt:130-132 | The message becomes empty. Nothing else changes. |
| ViewModel.RobotViewModel.ClearConnectionResult | app/src/main/java/com/example/robotaggregator/viewmodel/RobotViewModel.kt:134-136 | The connection flag loses its value. Nothing else changes. |

## Left out

- Telegram I/O and scheduling are not modelled: the command and message handlers, the job queue, `asyncio.create_task` and the empty `_notify_timeout`. `CheckTimeouts` returns the ids whose notices would be scheduled.
- SQLite and configparser mechanics are not modelled: connections, commits, reading `config.ini`, and the `LIKE` search at bot/bot.py:374-380.
- Timestamps are abstracted. The bot compares SQLite's UTC `CURRENT_TIMESTAMP` text with a local `datetime.now()`; the model uses one integer clock in seconds.
- MaskPhone: `_mask_phone(None)` is not modelled; the bot only calls it with a non-empty number.
- PyInt.ParseInt: `int()` also accepts non-ASCII digits and non-ASCII white space; the model accepts ASCII only.
- `java.net.URL` parsing is an uninterpreted predicate (`isValidUrl`).
- Retrofit, OkHttp and the request's JSON encoding are not modelled. `ApiClient` is not part of this model.
- The full text of the transparency `IllegalStateException` is shortened to its first sentence.
- Kotlin's `Long` is an unbounded integer: id and timestamp overflow are not modelled.
- Coroutines and `LiveData` are simplified. Each launched action runs to completion before the next starts, so interleavings are not modelled. The robot-list `Flow` is modelled one emission at a time (`RobotsEmitted`).
- The UI is not modelled: fragments, `MainActivity`, `ViewPagerAdapter` and the view-binding parts of `RobotAdapter`.
- `AppDatabase` is not modelled; it is a synchronized singleton.

## Findings

| source | as written | input that shows it | evidently intended | confidence | as-written member | corrected member |
|---|---|---|---|---|---|---|
| app/src/main/java/com/example/robotaggregator/repository/RobotRepository.kt:28-47 | `first()` stops the flow by throwing its abort exception out of `emit`. That abort is an `Exception`, so the `catch` clause catches it and emits again. The flow then throws the "exception transparency is violated" `IllegalStateException`. | A valid URL with a server answering 200: the call throws, and the view model shows `连接测试失败: Flow exception transparency is violated`. An invalid URL throws the same way. | `Result.success(true)`, or the emitted failure, as mapped in `TestConnectionOutcomes`. | medium: it depends on a kotlinx.coroutines release that checks emission transparency; not executed | Repository.AsWrittenSuccessThrows | Repository.TestConnectionOutcomes |
| app/src/main/java/com/example/robotaggregator/repository/RobotRepository.kt:49-73 | The same construct in `sendMessage`. | Any valid URL whose server call returns, or any invalid URL: the call throws, and the view model shows `发送消息失败: ...`. | The result mapped in `SendMessageOutcomes`. | medium: it depends on a kotlinx.coroutines release that checks emission transparency; not executed | Repository.AsWrittenCallsThrow | Repository.SendMessageOutcomes |
