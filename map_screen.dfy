/**
 * The map screen: which missions are shown to a player, and how each pin looks and reacts.
 * The distance from the player to a mission is an input (the screen computes it with the
 * haversine formula in floating point).
 */
module MapScreen {
  import opened Common
  import opened ParticipationTable

  /** The acceptance radius drawn around the player and used to gate pins. */
  const AcceptDistanceMeters: real := 100.0

  // ---------------------------------------------------------------------------
  // participationMap: mission id to the player's row for it
  // ---------------------------------------------------------------------------

  /** The dictionary a `forEach` over `ps` builds when each row overwrites its mission's entry. */
  function LastByMission(ps: seq<Row>): (m: map<string, Row>)
    ensures forall k :: k in m ==> m[k] in ps && m[k].missionId == k
    ensures forall r :: r in ps ==> r.missionId in m
  {
    if ps == [] then map[]
    else
      var last := ps[|ps| - 1];
      LastByMission(ps[..|ps| - 1])[last.missionId := last]
  }

  /** Position `i` of `ps` holds a row for mission `k` and no later row is for `k`. */
  ghost predicate LastRowFor(ps: seq<Row>, i: int, k: string)
  {
    0 <= i < |ps| && ps[i].missionId == k && forall j :: i < j < |ps| ==> ps[j].missionId != k
  }

  /** The entry for a mission is the LAST row for it: no later row names the same mission. */
  lemma {:induction false} LastByMissionIsLast(ps: seq<Row>, k: string)
    requires k in LastByMission(ps)
    ensures exists i :: LastRowFor(ps, i, k) && ps[i] == LastByMission(ps)[k]
  {
    var last := ps[|ps| - 1];
    var init := ps[..|ps| - 1];
    assert LastByMission(ps) == LastByMission(init)[last.missionId := last];
    if last.missionId == k {
      assert LastRowFor(ps, |ps| - 1, k);
    } else {
      assert LastByMission(ps)[k] == LastByMission(init)[k];
      LastByMissionIsLast(init, k);
      var i :| LastRowFor(init, i, k) && init[i] == LastByMission(init)[k];
      assert ps[i] == init[i];
      forall j | i < j < |ps| ensures ps[j].missionId != k {
        if j < |ps| - 1 {
          assert ps[j] == init[j];
        }
      }
      assert LastRowFor(ps, i, k);
    }
  }

  /** `participations.forEach((p) => { participationMap[p.mission_id] = p; })` */
  method BuildParticipationMap(ps: seq<Row>) returns (m: map<string, Row>)
    ensures m == LastByMission(ps)
  {
    m := map[];
    var i := 0;
    while i < |ps|
      invariant 0 <= i <= |ps|
      invariant m == LastByMission(ps[..i])
    {
      assert ps[..i + 1][..i] == ps[..i];
      m := m[ps[i].missionId := ps[i]];
      i := i + 1;
    }
    assert ps[..|ps|] == ps;
  }

  // ---------------------------------------------------------------------------
  // The visibility filter
  // ---------------------------------------------------------------------------

  function Lookup(m: map<string, Row>, missionId: string): Option<Row>
  {
    if missionId in m then Some(m[missionId]) else None
  }

  /**
   * A mission is shown when the player has no row for it, when that row is not completed, or
   * when the row's status is exactly "fail" or "abandoned".
   */
  predicate Visible(p: Option<Row>)
  {
    p.None? || p.value.completedAt.None? || p.value.status == "fail" || p.value.status == "abandoned"
  }

  /** `allMissions.filter(...)`: the catalogue without the missions the filter hides. */
  function VisibleMissions(catalog: seq<Mission>, m: map<string, Row>): (vs: seq<Mission>)
    ensures |vs| <= |catalog|
    ensures forall x :: x in vs <==> x in catalog && Visible(Lookup(m, x.id))
  {
    if catalog == [] then []
    else (if Visible(Lookup(m, catalog[0].id)) then [catalog[0]] else []) + VisibleMissions(catalog[1..], m)
  }

  /** The shown missions keep the catalogue's order. */
  lemma {:induction false} VisibleMissionsKeepOrder(catalog: seq<Mission>, m: map<string, Row>)
    ensures IsSubsequence(VisibleMissions(catalog, m), catalog)
  {
    if catalog != [] {
      VisibleMissionsKeepOrder(catalog[1..], m);
      var rest := VisibleMissions(catalog[1..], m);
      if Visible(Lookup(m, catalog[0].id)) {
        assert VisibleMissions(catalog, m) == [catalog[0]] + rest;
        assert ([catalog[0]] + rest)[1..] == rest;
      } else {
        assert VisibleMissions(catalog, m) == rest;
      }
    }
  }

  /** A completed row with any other status hides its mission; "failed" is such a status. */
  lemma CompletedFailedRowHides(m: map<string, Row>, mission: Mission, catalog: seq<Mission>)
    requires mission.id in m && m[mission.id].completedAt.Some? && m[mission.id].status == "failed"
    ensures mission !in VisibleMissions(catalog, m)
  {
  }

  /** A mission the player just started is on the map, and its entry is the new row. */
  lemma StartedMissionIsShown(rows: seq<Row>, playerId: string, mission: Mission, defaultStatus: string,
                              now: int, catalog: seq<Mission>)
    requires mission in catalog
    ensures var r := StartedRow(playerId, mission.id, defaultStatus, now);
      var m := LastByMission(PlayerRows(rows + [r], playerId));
      mission.id in m && m[mission.id] == r && mission in VisibleMissions(catalog, m)
  {
    var r := StartedRow(playerId, mission.id, defaultStatus, now);
    PlayerRowsAppend(rows, r, playerId);
    var ps := PlayerRows(rows + [r], playerId);
    assert ps[..|ps| - 1] == PlayerRows(rows, playerId);
  }

  /**
   * Once the player's rows for a mission have been completed, every one of them carries a
   * completion time, so the mission is shown only if its last row's status is "fail" or
   * "abandoned".
   */
  lemma CompletedMissionHiddenUnlessRetryable(rows: seq<Row>, playerId: string, mission: Mission,
                                              now: int, catalog: seq<Mission>)
    ensures var m := LastByMission(PlayerRows(CloseActive(rows, playerId, mission.id, now), playerId));
      mission.id in m ==>
        m[mission.id].completedAt.Some?
        && (mission in VisibleMissions(catalog, m) <==>
              mission in catalog && m[mission.id].status in {"fail", "abandoned"})
  {
    var closed := CloseActive(rows, playerId, mission.id, now);
    var m := LastByMission(PlayerRows(closed, playerId));
    if mission.id in m {
      var r := m[mission.id];
      assert r in closed;
      var i :| 0 <= i < |closed| && closed[i] == r;
      assert ForPair(rows[i], playerId, mission.id);
    }
  }

  // ---------------------------------------------------------------------------
  // Pins
  // ---------------------------------------------------------------------------

  predicate WithinRange(distance: real)
  {
    distance <= AcceptDistanceMeters
  }

  datatype PinColor = Green | Orange | Gray

  /** A marker: what it shows, its colour, and whether pressing it opens the mission. */
  datatype Pin = Pin(missionId: string, title: string, description: string, color: PinColor, opensMission: bool)

  /** `Math.round` on a non-negative number: halves round up. */
  function RoundHalfUp(x: real): (n: nat)
    requires x >= 0.0
    ensures n as real <= x + 0.5 < n as real + 1.0
  {
    (x + 0.5).Floor
  }

  function TooFarText(distance: real): string
    requires distance >= 0.0
  {
    "Too far away (" + NatToDecimal(RoundHalfUp(distance)) + "m)"
  }

  /** The pin colour: orange for a mission with a row, else gray out of range, else green. */
  method ChoosePinColor(withinRange: bool, isAccepted: bool) returns (color: PinColor)
    ensures color == Orange <==> isAccepted
    ensures color == Gray <==> !isAccepted && !withinRange
    ensures color == Green <==> !isAccepted && withinRange
  {
    color := Green;
    if isAccepted {
      color := Orange;
    } else if !withinRange {
      color := Gray;
    }
  }

  /** The marker drawn for `mission` at `distance` metres, given the participation map. */
  method RenderPin(mission: Mission, distance: real, accepted: map<string, Row>) returns (pin: Pin)
    requires distance >= 0.0
    ensures pin.missionId == mission.id && pin.title == mission.title
    ensures pin.opensMission <==> WithinRange(distance) || mission.id in accepted
    ensures pin.description == if pin.opensMission then mission.description else TooFarText(distance)
    ensures pin.color == Orange <==> mission.id in accepted
    ensures pin.color == Gray <==> mission.id !in accepted && !WithinRange(distance)
  {
    var withinRange := distance <= AcceptDistanceMeters;
    var isAccepted := mission.id in accepted;
    var color := ChoosePinColor(withinRange, isAccepted);
    var description := if isAccepted then mission.description
                       else if withinRange then mission.description
                       else TooFarText(distance);
    pin := Pin(mission.id, mission.title, description, color, withinRange || isAccepted);
  }

  /** The two boundary cases of the radius: 100 m is in range, 101 m is not. */
  lemma RadiusBoundary()
    ensures WithinRange(100.0) && !WithinRange(101.0)
    ensures TooFarText(101.0) == "Too far away (101m)"
  {
    assert RoundHalfUp(101.0) == 101;
    assert NatToDecimal(101) == "101" by {
      assert NatToDecimal(10) == "10" by { assert NatToDecimal(1) == "1"; }
    }
  }

  // ---------------------------------------------------------------------------
  // The screen's state
  // ---------------------------------------------------------------------------

  class MapState {
    var missions: seq<Mission>
    var acceptedMissions: map<string, Row>
    var loading: bool

    constructor ()
      ensures missions == [] && acceptedMissions == map[] && loading
    {
      missions := [];
      acceptedMissions := map[];
      loading := true;
    }

    /**
     * The focus effect: ask for location permission, read the catalogue and the player's
     * rows, and keep the visible missions and the participation map. Any failure leaves the
     * lists as they were; loading always ends.
     */
    method FetchLocationAndMissions(store: ParticipationStore, catalog: seq<Mission>, playerId: string,
                                    permissionGranted: bool, missionsFail: bool, participationFail: bool)
      returns (alert: Option<string>)
      modifies this
      ensures !loading
      ensures alert == if permissionGranted then None else Some("Location permission denied")
      ensures permissionGranted && !missionsFail && !participationFail ==>
        acceptedMissions == LastByMission(PlayerRows(store.rows, playerId))
        && missions == VisibleMissions(catalog, acceptedMissions)
      ensures !(permissionGranted && !missionsFail && !participationFail) ==>
        missions == old(missions) && acceptedMissions == old(acceptedMissions)
    {
      loading := true;
      alert := None;
      if !permissionGranted {
        alert := Some("Location permission denied");
        loading := false;
        return;
      }
      if missionsFail {
        loading := false;
        return;
      }
      if participationFail {
        loading := false;
        return;
      }
      var participations := PlayerRows(store.rows, playerId);
      var participationMap := BuildParticipationMap(participations);
      missions := VisibleMissions(catalog, participationMap);
      acceptedMissions := participationMap;
      loading := false;
    }
  }
}
