/**
 * The `robots` table behind the app's data-access object: rows keyed by id,
 * the AUTOINCREMENT counter that hands out ids, the two listings (all robots
 * and active robots, newest first), lookup by id, insert-or-replace, update,
 * delete and the status switch.
 */
module RobotStore {
  import opened Wrappers
  import opened RobotData

  type Rows = map<int, Robot>

  /** Every row is stored under its own id. */
  predicate KeyedById(rows: Rows) {
    forall id :: id in rows ==> rows[id].id == id
  }

  /** No two entries of the list carry the same id. */
  predicate DistinctIds(list: seq<Robot>) {
    forall i, j :: 0 <= i < j < |list| ==> list[i].id != list[j].id
  }

  /** The list holds every row of the table exactly once, as stored. */
  predicate IsListing(list: seq<Robot>, rows: Rows) {
    && (forall r :: r in list ==> r.id in rows && rows[r.id] == r)
    && DistinctIds(list)
    && (forall id :: id in rows ==> rows[id] in list)
  }

  /** `ORDER BY createdAt DESC`. */
  predicate NewestFirst(list: seq<Robot>) {
    forall i, j :: 0 <= i < j < |list| ==> list[i].createdAt >= list[j].createdAt
  }

  /** The rows `WHERE isActive = 1` selects. */
  function ActiveRows(rows: Rows): Rows {
    map id | id in rows && rows[id].isActive :: rows[id]
  }

  /** The active entries of a list, in the list's order. */
  function ActiveOnly(list: seq<Robot>): (r: seq<Robot>)
    ensures forall x :: x in r <==> x in list && x.isActive
  {
    if list == [] then []
    else
      var init := ActiveOnly(list[..|list| - 1]);
      var last := list[|list| - 1];
      assert list == list[..|list| - 1] + [last];
      if last.isActive then init + [last] else init
  }

  /**
   * Filtering the full listing, newest first, by the active flag gives a
   * listing of the active rows, still newest first: the two queries agree.
   */
  lemma {:induction false} ActiveOnlyIsActiveListing(list: seq<Robot>, rows: Rows)
    requires IsListing(list, rows) && NewestFirst(list)
    ensures IsListing(ActiveOnly(list), ActiveRows(rows))
    ensures NewestFirst(ActiveOnly(list))
  {
    FilterKeepsOrder(list);
    var act := ActiveRows(rows);
    forall id | id in act
      ensures act[id] in ActiveOnly(list)
    {
      assert rows[id] in list;
    }
  }

  /** Filtering keeps ids distinct and keeps the newest-first order. */
  lemma {:induction false} FilterKeepsOrder(list: seq<Robot>)
    requires DistinctIds(list) && NewestFirst(list)
    ensures DistinctIds(ActiveOnly(list)) && NewestFirst(ActiveOnly(list))
  {
    if list != [] {
      var init := list[..|list| - 1];
      var last := list[|list| - 1];
      PrefixKeepsOrder(list, |list| - 1);
      FilterKeepsOrder(init);
      var f := ActiveOnly(init);
      if last.isActive {
        forall x | x in f
          ensures x.id != last.id && x.createdAt >= last.createdAt
        {
          LastComesAfter(list, x);
        }
        AppendKeepsOrder(f, last);
      }
    }
  }

  lemma PrefixKeepsOrder(list: seq<Robot>, n: nat)
    requires n <= |list| && DistinctIds(list) && NewestFirst(list)
    ensures DistinctIds(list[..n]) && NewestFirst(list[..n])
  {
  }

  /** Every earlier entry of a newest-first list with distinct ids differs from, and is no older than, the last. */
  lemma LastComesAfter(list: seq<Robot>, x: Robot)
    requires DistinctIds(list) && NewestFirst(list)
    requires |list| > 0 && x in list[..|list| - 1]
    ensures x.id != list[|list| - 1].id && x.createdAt >= list[|list| - 1].createdAt
  {
    var k :| 0 <= k < |list| - 1 && list[..|list| - 1][k] == x;
    assert list[k] == x;
  }

  /** Appending an entry older than, and distinct from, every entry keeps both properties. */
  lemma AppendKeepsOrder(list: seq<Robot>, last: Robot)
    requires DistinctIds(list) && NewestFirst(list)
    requires forall x :: x in list ==> x.id != last.id && x.createdAt >= last.createdAt
    ensures DistinctIds(list + [last]) && NewestFirst(list + [last])
  {
    var l := list + [last];
    forall i, j | 0 <= i < j < |l|
      ensures l[i].id != l[j].id && l[i].createdAt >= l[j].createdAt
    {
      if j == |list| {
        assert l[i] in list;
      }
    }
  }

  /** A non-empty set has a member. */
  lemma HasMember(s: set<int>)
    requires s != {}
    ensures exists x :: x in s
  {
    if forall x :: x !in s {
      assert false;
    }
  }

  /**
   * Where `robot` goes in a newest-first list: after every entry at least as
   * new, before every older one.
   */
  method InsertionPoint(list: seq<Robot>, robot: Robot) returns (k: nat)
    requires NewestFirst(list)
    ensures k <= |list|
    ensures forall i :: 0 <= i < k ==> list[i].createdAt >= robot.createdAt
    ensures forall i :: k <= i < |list| ==> list[i].createdAt < robot.createdAt
  {
    k := 0;
    while k < |list| && list[k].createdAt >= robot.createdAt
      invariant k <= |list|
      invariant forall i :: 0 <= i < k ==> list[i].createdAt >= robot.createdAt
    {
      k := k + 1;
    }
  }

  /** Inserting at the insertion point keeps the list newest first and its ids distinct. */
  lemma InsertKeepsOrder(list: seq<Robot>, robot: Robot, k: nat)
    requires k <= |list| && DistinctIds(list) && NewestFirst(list)
    requires forall i :: 0 <= i < k ==> list[i].createdAt >= robot.createdAt
    requires forall i :: k <= i < |list| ==> list[i].createdAt < robot.createdAt
    requires forall x :: x in list ==> x.id != robot.id
    ensures var l := list[..k] + [robot] + list[k..];
      && DistinctIds(l) && NewestFirst(l)
      && (forall x :: x in l <==> x in list || x == robot)
  {
    var l := list[..k] + [robot] + list[k..];
    forall i | 0 <= i < |l|
      ensures l[i] == if i < k then list[i] else if i == k then robot else list[i - 1]
    {
    }
    forall i, j | 0 <= i < j < |l|
      ensures l[i].id != l[j].id && l[i].createdAt >= l[j].createdAt
    {
      if i == k {
        assert l[j] in list;
      } else if j == k {
        assert l[i] in list;
      }
    }
    assert list == list[..k] + list[k..];
  }

  /**
   * The rows of a table, each once, newest first. The database sorts; this
   * takes the rows one at a time and inserts each where it belongs. Rows
   * created at the same time may come in either order.
   */
  method ListNewestFirst(rows: Rows) returns (list: seq<Robot>)
    requires KeyedById(rows)
    ensures IsListing(list, rows) && NewestFirst(list)
  {
    list := [];
    var pending := rows.Keys;
    while pending != {}
      invariant pending <= rows.Keys
      invariant forall r :: r in list ==> r.id in rows && r.id !in pending && rows[r.id] == r
      invariant DistinctIds(list) && NewestFirst(list)
      invariant forall id :: id in rows && id !in pending ==> rows[id] in list
      decreases |pending|
    {
      HasMember(pending);
      var id :| id in pending;
      var robot := rows[id];
      var k := InsertionPoint(list, robot);
      InsertKeepsOrder(list, robot, k);
      list := list[..k] + [robot] + list[k..];
      pending := pending - {id};
    }
  }

  // --------------------------------------------------------------- the DAO

  /** The `robots` table. */
  class RobotDao {
    var rows: Rows
    /** The largest id the table has ever held (SQLite's AUTOINCREMENT counter). */
    var seqMax: int

    /** Rows sit under their own id, never under the unset id, and no id exceeds the counter. */
    ghost predicate Valid()
      reads this
    {
      && seqMax >= 0
      && KeyedById(rows)
      && forall id :: id in rows ==> id != UnsetId && id <= seqMax
    }

    constructor()
      ensures Valid() && rows == map[] && seqMax == 0
    {
      rows := map[];
      seqMax := 0;
    }

    /** `SELECT * FROM robots ORDER BY createdAt DESC`. */
    method GetAllRobots() returns (list: seq<Robot>)
      requires Valid()
      ensures IsListing(list, rows) && NewestFirst(list)
    {
      list := ListNewestFirst(rows);
    }

    /** `SELECT * FROM robots WHERE isActive = 1 ORDER BY createdAt DESC`. */
    method GetActiveRobots() returns (list: seq<Robot>)
      requires Valid()
      ensures IsListing(list, ActiveRows(rows)) && NewestFirst(list)
      ensures forall r :: r in list ==> r.isActive
    {
      list := ListNewestFirst(ActiveRows(rows));
    }

    /** `SELECT * FROM robots WHERE id = :id`: the row, or nothing. */
    method GetRobotById(id: int) returns (r: Option<Robot>)
      requires Valid()
      ensures r.Some? <==> id in rows
      ensures r.Some? ==> r.value == rows[id] && r.value.id == id
    {
      r := if id in rows then Some(rows[id]) else None;
    }

    /**
     * Insert, replacing any row with the same id. A robot whose id is unset gets
     * the next id of the counter, one no row has ever had; the id used is
     * returned.
     */
    method InsertRobot(robot: Robot) returns (id: int)
      requires Valid()
      modifies this
      ensures Valid()
      ensures id != UnsetId
      ensures robot.id != UnsetId ==> id == robot.id
      ensures robot.id == UnsetId ==> id == old(seqMax) + 1 && id !in old(rows)
      ensures robot.id == UnsetId ==> forall k :: k in old(rows) ==> k < id
      ensures rows == old(rows)[id := robot.(id := id)]
      ensures seqMax == if id > old(seqMax) then id else old(seqMax)
    {
      id := if robot.id == UnsetId then seqMax + 1 else robot.id;
      rows := rows[id := robot.(id := id)];
      if id > seqMax {
        seqMax := id;
      }
    }

    /** Replaces the row with the robot's id; a robot not in the table changes nothing. */
    method UpdateRobot(robot: Robot)
      requires Valid()
      modifies this
      ensures Valid()
      ensures robot.id in old(rows) ==> rows == old(rows)[robot.id := robot]
      ensures robot.id !in old(rows) ==> rows == old(rows)
      ensures seqMax == old(seqMax)
    {
      if robot.id in rows {
        rows := rows[robot.id := robot];
      }
    }

    /** Deletes the row with the robot's id, if there is one; the other fields do not matter. */
    method DeleteRobot(robot: Robot)
      requires Valid()
      modifies this
      ensures Valid()
      ensures rows == old(rows) - {robot.id}
      ensures seqMax == old(seqMax)
    {
      rows := rows - {robot.id};
    }

    /** `DELETE FROM robots WHERE id = :id`. */
    method DeleteRobotById(id: int)
      requires Valid()
      modifies this
      ensures Valid()
      ensures rows == old(rows) - {id}
      ensures seqMax == old(seqMax)
    {
      rows := rows - {id};
    }

    /** `UPDATE robots SET isActive = :isActive WHERE id = :id`. */
    method UpdateRobotStatus(id: int, isActive: bool)
      requires Valid()
      modifies this
      ensures Valid()
      ensures id in old(rows) ==> rows == old(rows)[id := old(rows)[id].(isActive := isActive)]
      ensures id !in old(rows) ==> rows == old(rows)
      ensures seqMax == old(seqMax)
    {
      if id in rows {
        rows := rows[id := rows[id].(isActive := isActive)];
      }
    }
  }
}
