/** The mission details screen: starting a mission inserts a participation row. */
module MissionDetails {
  import opened Common
  import opened ParticipationTable

  /** What the player sees after pressing "Start Mission". */
  datatype StartOutcome = StartOutcome(alert: Alert, navigatedBack: bool)

  /**
   * `handleStartMission`: one insert of `{player_id, mission_id}`, with no check for an
   * existing row of the pair. On an insert error the screen alerts and stays; otherwise it
   * alerts and goes back once.
   */
  method HandleStartMission(store: ParticipationStore, mission: Mission, playerId: string, now: int,
                            insertFails: bool)
    returns (outcome: StartOutcome)
    modifies store
    ensures store.rows == if insertFails then old(store.rows)
                          else old(store.rows) + [StartedRow(playerId, mission.id, store.defaultStatus, now)]
    ensures outcome.navigatedBack == !insertFails
    ensures outcome.alert == if insertFails then Alert("Error", "Failed to start mission.")
                             else Alert("Mission Started!", "You started: " + mission.title)
  {
    var ok := store.Insert(playerId, mission.id, now, insertFails);
    if !ok {
      outcome := StartOutcome(Alert("Error", "Failed to start mission."), false);
    } else {
      outcome := StartOutcome(Alert("Mission Started!", "You started: " + mission.title), true);
    }
  }

  /**
   * Starting the same mission twice leaves two more active rows for the pair: nothing keeps a
   * player to one active attempt per mission.
   */
  lemma {:induction false} StartTwiceAddsTwoActiveRows(rows: seq<Row>, playerId: string, missionId: string,
                                                       defaultStatus: string, first: int, second: int)
    ensures var once := rows + [StartedRow(playerId, missionId, defaultStatus, first)];
      var twice := once + [StartedRow(playerId, missionId, defaultStatus, second)];
      ActiveCount(twice, playerId, missionId) == ActiveCount(rows, playerId, missionId) + 2
  {
    var once := rows + [StartedRow(playerId, missionId, defaultStatus, first)];
    ActiveCountAppend(rows, StartedRow(playerId, missionId, defaultStatus, first), playerId, missionId);
    ActiveCountAppend(once, StartedRow(playerId, missionId, defaultStatus, second), playerId, missionId);
  }
}
