/**
 * The bot's conversation table. Each row links a user to the admin the user
 * chose, with a status (active or closed) and the time of its last message;
 * a second table logs every message. The SQLite tables are a map from row id to
 * row and a sequence of messages; `CURRENT_TIMESTAMP` is the `now` argument,
 * in seconds.
 */
module Conversations {
  import opened Wrappers

  datatype Status = Active | Closed

  datatype Conversation = Conversation(
    userId: int,
    adminId: int,
    status: Status,
    createdAt: int,
    lastActive: int)

  datatype Message = Message(convId: int, senderId: int, content: string, timestamp: int)

  type Table = map<int, Conversation>

  /** A conversation idle for longer than this many seconds is closed by the timeout check. */
  const TimeoutSeconds: int := 30 * 60

  /** The row is one of `userId`'s active conversations. */
  predicate OpenFor(c: Conversation, userId: int) {
    c.userId == userId && c.status == Active
  }

  /** The row is active and its last message is older than `now` minus the timeout. */
  predicate IsStale(c: Conversation, now: int) {
    c.status == Active && c.lastActive < now - TimeoutSeconds
  }

  /** `id` is an active conversation of `userId` with the latest `lastActive` among them. */
  predicate IsLatestActive(table: Table, userId: int, id: int) {
    && id in table && OpenFor(table[id], userId)
    && forall k :: k in table && OpenFor(table[k], userId) ==> table[k].lastActive <= table[id].lastActive
  }

  /** No timestamp in the table lies after `now`. */
  predicate NotAfter(table: Table, now: int) {
    forall k :: k in table ==> table[k].lastActive <= now
  }

  // ------------------------------------------------------ table semantics

  /** The table after `UPDATE ... SET last_active = now WHERE id = convId`. */
  function Touch(table: Table, convId: int, now: int): (r: Table)
    ensures r.Keys == table.Keys
    ensures forall k :: k in table && k != convId ==> r[k] == table[k]
    ensures convId in table ==>
      r[convId].lastActive == now && r[convId] == table[convId].(lastActive := now)
  {
    if convId in table then table[convId := table[convId].(lastActive := now)] else table
  }

  /** The table after `UPDATE ... SET status = 'closed' WHERE id = convId`. */
  function CloseRow(table: Table, convId: int): (r: Table)
    ensures r.Keys == table.Keys
    ensures forall k :: k in table && k != convId ==> r[k] == table[k]
    ensures convId in table ==> r[convId] == table[convId].(status := Closed)
  {
    if convId in table then table[convId := table[convId].(status := Closed)] else table
  }

  /** The ids the timeout query selects. */
  function StaleIds(table: Table, now: int): set<int> {
    set id | id in table && IsStale(table[id], now)
  }

  /** The table once every stale row is closed: the same rows, none of them stale. */
  function AfterTimeout(table: Table, now: int): (r: Table)
    ensures r.Keys == table.Keys
    ensures forall id :: id in r ==> !IsStale(r[id], now)
  {
    map id | id in table :: if IsStale(table[id], now) then table[id].(status := Closed) else table[id]
  }

  // -------------------------------------------------- properties of the spec

  /**
   * The timeout check closes exactly the stale rows: every row keeps its user,
   * admin and timestamps, a stale row becomes closed and any other row is left
   * as it was.
   */
  lemma AfterTimeoutClosesExactlyStale(table: Table, now: int, id: int)
    requires id in table
    ensures var r := AfterTimeout(table, now);
      && r.Keys == table.Keys
      && r[id].(status := table[id].status) == table[id]
      && (IsStale(table[id], now) ==> r[id].status == Closed)
      && (!IsStale(table[id], now) ==> r[id] == table[id])
      && (r[id] != table[id] <==> id in StaleIds(table, now))
  {
  }

  /** After the check no stale row is left, and running it again changes nothing. */
  lemma {:induction false} AfterTimeoutIdempotent(table: Table, now: int)
    ensures StaleIds(AfterTimeout(table, now), now) == {}
    ensures AfterTimeout(AfterTimeout(table, now), now) == AfterTimeout(table, now)
  {
    var once := AfterTimeout(table, now);
    forall id | id in once
      ensures !IsStale(once[id], now)
    {
    }
    assert forall id :: id in once ==> AfterTimeout(once, now)[id] == once[id];
  }

  /** A check at a later time closes every row an earlier check would have closed. */
  lemma {:induction false} StaleIdsGrowWithTime(table: Table, earlier: int, later: int)
    requires earlier <= later
    ensures StaleIds(table, earlier) <= StaleIds(table, later)
  {
    forall id | id in StaleIds(table, earlier)
      ensures id in StaleIds(table, later)
    {
    }
  }

  /**
   * A freshly created conversation, stamped `now` when nothing in the table is
   * later, becomes the user's latest active conversation.
   */
  lemma {:induction false} CreatedIsLatest(table: Table, id: int, userId: int, adminId: int, now: int)
    requires id !in table && NotAfter(table, now)
    ensures IsLatestActive(table[id := Conversation(userId, adminId, Active, now, now)], userId, id)
  {
    var t := table[id := Conversation(userId, adminId, Active, now, now)];
    forall k | k in t && OpenFor(t[k], userId)
      ensures t[k].lastActive <= t[id].lastActive
    {
      if k != id {
        assert t[k] == table[k];
      }
    }
  }

  /**
   * Saving a message into one of the user's active conversations at a time no
   * earlier than anything in the table makes it the user's latest active one.
   */
  lemma {:induction false} TouchedIsLatest(table: Table, convId: int, userId: int, now: int)
    requires convId in table && OpenFor(table[convId], userId) && NotAfter(table, now)
    ensures IsLatestActive(Touch(table, convId, now), userId, convId)
  {
    var t := Touch(table, convId, now);
    forall k | k in t && OpenFor(t[k], userId)
      ensures t[k].lastActive <= t[convId].lastActive
    {
      if k != convId {
        assert t[k] == table[k];
      }
    }
  }

  /** A closed conversation is never the one a user's new message is routed to. */
  lemma {:induction false} ClosedIsNotLatest(table: Table, convId: int, userId: int)
    ensures !IsLatestActive(CloseRow(table, convId), userId, convId)
  {
    var t := CloseRow(table, convId);
    if convId in t {
      assert t[convId].status == Closed;
    }
  }

  // ----------------------------------------------------------------- store

  /** The `conversations` and `messages` tables. */
  class ConversationStore {
    var conversations: Table
    var messages: seq<Message>
    /** The largest conversation id handed out so far (SQLite's AUTOINCREMENT counter). */
    var lastId: int

    /** Every row id was handed out by the counter. */
    ghost predicate Valid()
      reads this
    {
      0 <= lastId && forall id :: id in conversations ==> 1 <= id <= lastId
    }

    constructor()
      ensures Valid()
      ensures conversations == map[] && messages == [] && lastId == 0
    {
      conversations := map[];
      messages := [];
      lastId := 0;
    }

    /**
     * Inserts an active conversation of `userId` with `adminId`, both timestamps
     * `now`, under a fresh id, and returns that id.
     */
    method CreateConversation(userId: int, adminId: int, now: int) returns (id: int)
      requires Valid()
      modifies this
      ensures Valid()
      ensures id == old(lastId) + 1 && id !in old(conversations)
      ensures conversations == old(conversations)[id := Conversation(userId, adminId, Active, now, now)]
      ensures messages == old(messages) && lastId == id
    {
      lastId := lastId + 1;
      id := lastId;
      conversations := conversations[id := Conversation(userId, adminId, Active, now, now)];
    }

    /**
     * Logs a message and stamps its conversation `now`. The message is logged
     * even when no conversation has that id: the table's foreign key is not
     * enforced.
     */
    method SaveMessage(convId: int, senderId: int, content: string, now: int)
      requires Valid()
      modifies this
      ensures Valid()
      ensures messages == old(messages) + [Message(convId, senderId, content, now)]
      ensures conversations == Touch(old(conversations), convId, now)
      ensures lastId == old(lastId)
    {
      messages := messages + [Message(convId, senderId, content, now)];
      conversations := Touch(conversations, convId, now);
    }

    /** Marks one conversation closed; an unknown id changes nothing. */
    method CloseConversation(convId: int)
      requires Valid()
      modifies this
      ensures Valid()
      ensures conversations == CloseRow(old(conversations), convId)
      ensures messages == old(messages) && lastId == old(lastId)
    {
      conversations := CloseRow(conversations, convId);
    }

    /**
     * Selects the stale conversations, then closes them one by one, walking the
     * table in row-id order. Returns the ids it closed, for which the bot
     * schedules a timeout notice.
     */
    method CheckTimeouts(now: int) returns (timedOut: set<int>)
      requires Valid()
      modifies this
      ensures Valid()
      ensures timedOut == StaleIds(old(conversations), now)
      ensures conversations == AfterTimeout(old(conversations), now)
      ensures messages == old(messages) && lastId == old(lastId)
    {
      ghost var start := conversations;
      timedOut := StaleIds(conversations, now);
      var convId := 1;
      while convId <= lastId
        invariant 1 <= convId <= lastId + 1
        invariant conversations.Keys == start.Keys
        invariant forall id :: id in conversations ==>
          conversations[id] == if id in timedOut && id < convId then start[id].(status := Closed) else start[id]
        invariant messages == old(messages) && lastId == old(lastId)
      {
        if convId in timedOut {
          conversations := CloseRow(conversations, convId);
        }
        convId := convId + 1;
      }
      assert forall id :: id in conversations ==> conversations[id] == AfterTimeout(start, now)[id];
    }

    /**
     * The user's active conversation with the latest `lastActive` and its admin,
     * or `None` when the user has no active conversation. Between rows stamped at
     * the same time the database may return either; this scan, in row-id order,
     * keeps the first.
     */
    method GetActiveConversation(userId: int) returns (r: Option<(int, int)>)
      requires Valid()
      ensures r.None? <==> forall id :: id in conversations ==> !OpenFor(conversations[id], userId)
      ensures r.Some? ==>
        IsLatestActive(conversations, userId, r.value.0) && r.value.1 == conversations[r.value.0].adminId
    {
      r := None;
      var best := 0;
      var convId := 1;
      while convId <= lastId
        invariant 1 <= convId <= lastId + 1
        invariant r.None? ==> forall id :: id in conversations && id < convId ==> !OpenFor(conversations[id], userId)
        invariant r.Some? ==>
          && r.value.0 in conversations && OpenFor(conversations[r.value.0], userId)
          && r.value.1 == conversations[r.value.0].adminId
          && best == conversations[r.value.0].lastActive
          && forall id :: id in conversations && id < convId && OpenFor(conversations[id], userId) ==>
               conversations[id].lastActive <= best
      {
        if convId in conversations {
          var c := conversations[convId];
          if OpenFor(c, userId) && (r.None? || c.lastActive > best) {
            r := Some((convId, c.adminId));
            best := c.lastActive;
          }
        }
        convId := convId + 1;
      }
      if r.Some? {
        assert r.value.0 in conversations && OpenFor(conversations[r.value.0], userId);
      }
    }
  }
}
