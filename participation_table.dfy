/**
 * The `mission_participation` table shared by the map, the mission details screen and the
 * current mission screen: one row per attempt of a player at a mission, in insertion order.
 */
module ParticipationTable {
  import opened Common

  /** A row of the `missions` catalogue, reduced to the fields the screens show. */
  datatype Mission = Mission(id: string, title: string, description: string)

  /**
   * A participation row. `status` and `startedAt` come from the table's column defaults when
   * the row is created; `completedAt` is null until the mission is completed.
   */
  datatype Row = Row(playerId: string, missionId: string, status: string,
                     startedAt: int, completedAt: Option<int>)

  predicate Active(r: Row)
  {
    r.completedAt.None?
  }

  predicate ForPair(r: Row, playerId: string, missionId: string)
  {
    r.playerId == playerId && r.missionId == missionId
  }

  /** The number of active rows of one (player, mission) pair. */
  function ActiveCount(rows: seq<Row>, playerId: string, missionId: string): (n: nat)
    ensures n <= |rows|
    ensures n == 0 <==> forall i :: 0 <= i < |rows| ==> !(ForPair(rows[i], playerId, missionId) && Active(rows[i]))
  {
    if rows == [] then 0
    else
      var last := rows[|rows| - 1];
      ActiveCount(rows[..|rows| - 1], playerId, missionId)
      + (if ForPair(last, playerId, missionId) && Active(last) then 1 else 0)
  }

  lemma ActiveCountAppend(rows: seq<Row>, r: Row, playerId: string, missionId: string)
    ensures ActiveCount(rows + [r], playerId, missionId)
         == ActiveCount(rows, playerId, missionId) + (if ForPair(r, playerId, missionId) && Active(r) then 1 else 0)
  {
    assert (rows + [r])[..|rows|] == rows;
  }

  /**
   * The row an insert of `{player_id, mission_id}` creates: only those two fields are
   * supplied, the store fills in the default status and the start time, and it is active.
   */
  function StartedRow(playerId: string, missionId: string, defaultStatus: string, now: int): (r: Row)
    ensures ForPair(r, playerId, missionId) && Active(r)
    ensures r.status == defaultStatus && r.startedAt == now
  {
    Row(playerId, missionId, defaultStatus, now, None)
  }

  /** `update({completed_at: now}).eq(player).eq(mission).is(completed_at, null)`. */
  function CloseActive(rows: seq<Row>, playerId: string, missionId: string, now: int): (rs: seq<Row>)
    ensures |rs| == |rows|
    // only `completed_at` is written: who, which mission, status and start time stay
    ensures forall i :: 0 <= i < |rows| ==>
      rs[i].playerId == rows[i].playerId && rs[i].missionId == rows[i].missionId
      && rs[i].status == rows[i].status && rs[i].startedAt == rows[i].startedAt
    // rows that do not match the filter are untouched
    ensures forall i :: 0 <= i < |rows| && !(ForPair(rows[i], playerId, missionId) && Active(rows[i])) ==>
      rs[i] == rows[i]
    // every matching row is closed with the given time
    ensures forall i :: 0 <= i < |rows| && ForPair(rows[i], playerId, missionId) && Active(rows[i]) ==>
      rs[i].completedAt == Some(now)
  {
    seq(|rows|, i requires 0 <= i < |rows| =>
      if ForPair(rows[i], playerId, missionId) && Active(rows[i])
      then rows[i].(completedAt := Some(now)) else rows[i])
  }

  /** After a completion no active row of the pair is left, however many there were. */
  lemma CloseActiveLeavesNoneActive(rows: seq<Row>, playerId: string, missionId: string, now: int)
    ensures ActiveCount(CloseActive(rows, playerId, missionId, now), playerId, missionId) == 0
  {
  }

  /** A second completion matches no row and so changes nothing. */
  lemma CloseActiveIdempotent(rows: seq<Row>, playerId: string, missionId: string, now: int, later: int)
    ensures var once := CloseActive(rows, playerId, missionId, now);
      CloseActive(once, playerId, missionId, later) == once
  {
  }

  /** A completion leaves the active rows of every other pair as they were. */
  lemma {:induction false} CloseActiveKeepsOtherPairs(rows: seq<Row>, playerId: string, missionId: string,
                                                      now: int, p: string, m: string)
    requires p != playerId || m != missionId
    ensures ActiveCount(CloseActive(rows, playerId, missionId, now), p, m) == ActiveCount(rows, p, m)
  {
    if rows != [] {
      var rs := CloseActive(rows, playerId, missionId, now);
      var init := rows[..|rows| - 1];
      assert rs[..|rs| - 1] == CloseActive(init, playerId, missionId, now);
      CloseActiveKeepsOtherPairs(init, playerId, missionId, now, p, m);
    }
  }

  /** The rows of one player, in table order: `select(...).eq('player_id', playerId)`. */
  function PlayerRows(rows: seq<Row>, playerId: string): (ps: seq<Row>)
    ensures forall r :: r in ps <==> r in rows && r.playerId == playerId
  {
    if rows == [] then []
    else
      var last := rows[|rows| - 1];
      PlayerRows(rows[..|rows| - 1], playerId) + (if last.playerId == playerId then [last] else [])
  }

  lemma PlayerRowsAppend(rows: seq<Row>, r: Row, playerId: string)
    ensures PlayerRows(rows + [r], playerId) == PlayerRows(rows, playerId) + (if r.playerId == playerId then [r] else [])
  {
    assert (rows + [r])[..|rows|] == rows;
  }

  /** The `mission_participation` table. */
  class ParticipationStore {
    /** The status column's default, which every new row receives. */
    const defaultStatus: string
    var rows: seq<Row>

    constructor (defaultStatus: string, rows: seq<Row>)
      ensures this.defaultStatus == defaultStatus && this.rows == rows
    {
      this.defaultStatus := defaultStatus;
      this.rows := rows;
    }

    /** Inserts `{player_id, mission_id}`; `fails` stands for an error returned by the store. */
    method Insert(playerId: string, missionId: string, now: int, fails: bool) returns (ok: bool)
      modifies this
      ensures ok == !fails
      ensures rows == if ok then old(rows) + [StartedRow(playerId, missionId, defaultStatus, now)] else old(rows)
    {
      ok := !fails;
      if ok {
        rows := rows + [StartedRow(playerId, missionId, defaultStatus, now)];
      }
    }

    /** Sets `completed_at` on the active rows of the pair; `fails` stands for a store error. */
    method CloseActiveRows(playerId: string, missionId: string, now: int, fails: bool) returns (ok: bool)
      modifies this
      ensures ok == !fails
      ensures rows == if ok then CloseActive(old(rows), playerId, missionId, now) else old(rows)
    {
      ok := !fails;
      if ok {
        rows := CloseActive(rows, playerId, missionId, now);
      }
    }
  }
}
