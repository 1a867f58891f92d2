/**
 * The app's records: a configured robot (one row of the `robots` table), the
 * configuration form's value and one chat exchange, with the defaults their
 * constructors supply. Kotlin's `Long` is an unbounded `int` here; the current
 * time, which two defaults read from the system clock, is the `now` argument.
 */
module RobotData {

  datatype Robot = Robot(
    id: int,
    name: string,
    apiUrl: string,
    apiKey: string,
    description: string,
    isActive: bool,
    createdAt: int,
    lastUsed: int)

  datatype RobotConfig = RobotConfig(name: string, apiUrl: string, apiKey: string, description: string)

  datatype ChatMessage = ChatMessage(
    id: int,
    robotId: int,
    message: string,
    response: string,
    timestamp: int,
    isSuccess: bool)

  /** The id that tells the database to generate one. */
  const UnsetId: int := 0

  /** `Robot(name = name, apiUrl = apiUrl, apiKey = apiKey)`, built at time `now`. */
  function NewRobot(name: string, apiUrl: string, apiKey: string, now: int): Robot {
    Robot(UnsetId, name, apiUrl, apiKey, "", true, now, 0)
  }

  /** `RobotConfig(name, apiUrl, apiKey)`. */
  function NewRobotConfig(name: string, apiUrl: string, apiKey: string): RobotConfig {
    RobotConfig(name, apiUrl, apiKey, "")
  }

  /** `ChatMessage(robotId = ..., message = ..., response = ...)`, built at time `now`. */
  function NewChatMessage(robotId: int, message: string, response: string, now: int): ChatMessage {
    ChatMessage(UnsetId, robotId, message, response, now, true)
  }

  /**
   * A robot built from the three form fields has no id yet, an empty
   * description, is active, was created now and was never used.
   */
  lemma NewRobotDefaults(name: string, apiUrl: string, apiKey: string, now: int)
    ensures var r := NewRobot(name, apiUrl, apiKey, now);
      && r.id == UnsetId && r.description == "" && r.isActive
      && r.createdAt == now && r.lastUsed == 0
      && r.name == name && r.apiUrl == apiUrl && r.apiKey == apiKey
  {
  }

  /** A configuration without a description has an empty one. */
  lemma NewRobotConfigDefaults(name: string, apiUrl: string, apiKey: string)
    ensures NewRobotConfig(name, apiUrl, apiKey).description == ""
  {
  }

  /** A chat message has no id yet, counts as a success and is stamped now. */
  lemma NewChatMessageDefaults(robotId: int, message: string, response: string, now: int)
    ensures var m := NewChatMessage(robotId, message, response, now);
      && m.id == UnsetId && m.isSuccess && m.timestamp == now
      && m.robotId == robotId && m.message == message && m.response == response
  {
  }

  // ------------------------------------------------------ list diffing

  /** The list adapter's identity test: two entries show the same robot. */
  predicate AreItemsTheSame(oldItem: Robot, newItem: Robot) {
    oldItem.id == newItem.id
  }

  /** The list adapter's change test: data-class equality. */
  predicate AreContentsTheSame(oldItem: Robot, newItem: Robot) {
    oldItem == newItem
  }

  /** Two robots have the same contents exactly when every field agrees. */
  lemma ContentsAreAllFields(a: Robot, b: Robot)
    ensures AreContentsTheSame(a, b) <==>
      && a.id == b.id && a.name == b.name && a.apiUrl == b.apiUrl && a.apiKey == b.apiKey
      && a.description == b.description && a.isActive == b.isActive
      && a.createdAt == b.createdAt && a.lastUsed == b.lastUsed
  {
  }

  /** Unchanged contents imply the same item, since equality includes the id. */
  lemma ContentsImplyItems(a: Robot, b: Robot)
    ensures AreContentsTheSame(a, b) ==> AreItemsTheSame(a, b)
  {
  }

  /** Both relations are reflexive and symmetric. */
  lemma DiffRelationsReflexiveSymmetric(a: Robot, b: Robot)
    ensures AreItemsTheSame(a, a) && AreContentsTheSame(a, a)
    ensures AreItemsTheSame(a, b) <==> AreItemsTheSame(b, a)
    ensures AreContentsTheSame(a, b) <==> AreContentsTheSame(b, a)
  {
  }

  /** A change of any field but the id is a content change of the same item. */
  lemma EditIsSameItemNewContents(a: Robot, b: Robot)
    requires a.id == b.id && a != b
    ensures AreItemsTheSame(a, b) && !AreContentsTheSame(a, b)
  {
  }
}
