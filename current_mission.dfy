/**
 * The current mission screen: shows the player's most recently started unfinished mission
 * and completes it. The screen queries and updates the rows of a fixed mock player id, not
 * those of the signed-in player.
 */
module CurrentMission {
  import opened Common
  import opened ParticipationTable

  const MockPlayerId := "00000000-0000-0000-0000-000000000000"

  predicate ActiveFor(r: Row, playerId: string)
  {
    r.playerId == playerId && Active(r)
  }

  /**
   * `.eq('player_id', id).is('completed_at', null).order('started_at', desc).limit(1)`: the
   * player's active row with the latest start. Among rows started at the same instant the
   * store's choice is unspecified; the model takes the earliest in table order.
   */
  function LatestActive(rows: seq<Row>, playerId: string): (r: Option<Row>)
    ensures r.Some? ==> r.value in rows && ActiveFor(r.value, playerId)
    ensures r.Some? ==> forall x :: x in rows && ActiveFor(x, playerId) ==> x.startedAt <= r.value.startedAt
    ensures r.None? <==> forall x :: x in rows ==> !ActiveFor(x, playerId)
  {
    if rows == [] then None
    else
      var init := rows[..|rows| - 1];
      var last := rows[|rows| - 1];
      assert rows == init + [last];
      var best := LatestActive(init, playerId);
      if ActiveFor(last, playerId) && (best.None? || best.value.startedAt < last.startedAt)
      then Some(last)
      else best
  }

  /** The `missions` table as a map from id to row: every row sits under its own id. */
  predicate KeyedById(catalog: map<string, Mission>)
  {
    forall k :: k in catalog ==> catalog[k].id == k
  }

  /** The joined `missions(*)` record of a row: null when the mission row does not exist. */
  function JoinMission(catalog: map<string, Mission>, r: Row): (m: Option<Mission>)
    ensures m.Some? <==> r.missionId in catalog
    ensures m.Some? && KeyedById(catalog) ==> m.value.id == r.missionId
  {
    if r.missionId in catalog then Some(catalog[r.missionId]) else None
  }

  /** After a completion the current mission, if any, is a different mission. */
  lemma CompletedMissionIsNotCurrent(rows: seq<Row>, playerId: string, missionId: string, now: int)
    ensures var r := LatestActive(CloseActive(rows, playerId, missionId, now), playerId);
      r.Some? ==> r.value.missionId != missionId
  {
    var closed := CloseActive(rows, playerId, missionId, now);
    var r := LatestActive(closed, playerId);
    if r.Some? {
      var i :| 0 <= i < |closed| && closed[i] == r.value;
      assert closed[i].completedAt.None?;
    }
  }

  /** A mission started later than every other unfinished one becomes the current mission. */
  lemma {:induction false} NewestStartIsCurrent(rows: seq<Row>, playerId: string, missionId: string,
                                                defaultStatus: string, now: int)
    requires forall x :: x in rows && ActiveFor(x, playerId) ==> x.startedAt < now
    ensures LatestActive(rows + [StartedRow(playerId, missionId, defaultStatus, now)], playerId)
         == Some(StartedRow(playerId, missionId, defaultStatus, now))
  {
    var rs := rows + [StartedRow(playerId, missionId, defaultStatus, now)];
    assert rs[..|rs| - 1] == rows;
  }

  /** Starts by any other player never change what the mock player's screen shows. */
  lemma {:induction false} OtherPlayersStartsAreIgnored(rows: seq<Row>, playerId: string, missionId: string,
                                                        defaultStatus: string, now: int)
    requires playerId != MockPlayerId
    ensures LatestActive(rows + [StartedRow(playerId, missionId, defaultStatus, now)], MockPlayerId)
         == LatestActive(rows, MockPlayerId)
  {
    var rs := rows + [StartedRow(playerId, missionId, defaultStatus, now)];
    assert rs[..|rs| - 1] == rows;
  }

  /** What the screen renders. */
  datatype View = Spinner | NoActiveMission | MissionCard(mission: Mission)

  class CurrentMissionScreen {
    var mission: Option<Mission>
    var loading: bool

    constructor ()
      ensures mission == None && loading
    {
      mission := None;
      loading := true;
    }

    function Render(): (v: View)
      reads this
      ensures v == Spinner <==> loading
      ensures !loading ==> (v == NoActiveMission <==> mission.None?)
      ensures v.MissionCard? ==> mission == Some(v.mission)
    {
      if loading then Spinner
      else if mission.None? then NoActiveMission
      else MissionCard(mission.value)
    }

    /**
     * `fetchCurrentMission`: on success with a row, the mission joined to the latest active
     * row; on an error or with no active row the mission is left as it was. Loading ends.
     */
    method FetchCurrentMission(store: ParticipationStore, catalog: map<string, Mission>, queryFails: bool)
      modifies this
      ensures !loading
      ensures mission == if queryFails || LatestActive(store.rows, MockPlayerId).None? then old(mission)
                         else JoinMission(catalog, LatestActive(store.rows, MockPlayerId).value)
      ensures old(mission).None? && (queryFails || LatestActive(store.rows, MockPlayerId).None?) ==>
        Render() == NoActiveMission
      // a mission taken from the query is the one of the row that made it current
      ensures KeyedById(catalog) && !queryFails && LatestActive(store.rows, MockPlayerId).Some? && mission.Some? ==>
        mission.value.id == LatestActive(store.rows, MockPlayerId).value.missionId
    {
      if !queryFails {
        var latest := LatestActive(store.rows, MockPlayerId);
        if latest.Some? {
          mission := JoinMission(catalog, latest.value);
        }
      }
      loading := false;
    }

    /**
     * `completeMission`, offered only while a mission is shown: closes every active row of
     * the mock player for that mission. On success the mission is cleared; on an error it
     * stays.
     */
    method CompleteMission(store: ParticipationStore, now: int, updateFails: bool) returns (alert: Alert)
      requires mission.Some?
      modifies this, store
      ensures store.rows == if updateFails then old(store.rows)
                            else CloseActive(old(store.rows), MockPlayerId, old(mission).value.id, now)
      ensures mission == if updateFails then old(mission) else None
      ensures loading == old(loading)
      ensures alert == if updateFails then Alert("Error", "Failed to complete mission.")
                       else Alert("🎉 Mission Complete!", "You completed " + old(mission).value.title)
    {
      var current := mission.value;
      var ok := store.CloseActiveRows(MockPlayerId, current.id, now, updateFails);
      if !ok {
        alert := Alert("Error", "Failed to complete mission.");
      } else {
        alert := Alert("🎉 Mission Complete!", "You completed " + current.title);
        mission := None;
      }
    }
  }
}
