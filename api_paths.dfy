/**
 * The two team routes the reservation page calls. Each path is written as its
 * '/'-separated segments, proved equal to the template string the page builds,
 * and proved to split back into those segments, so that the server's route
 * folders see the id as the fourth segment.
 */
module ApiPaths {
  import opened Wrappers
  import opened Strings

  /** The reservation id as the page writes it into a path: its digits, or "undefined" when there is none. */
  function IdSegment(reservationId: Option<int>): (s: string)
    ensures '/' !in s
    ensures reservationId.Some? ==> ParseInt(s) == reservationId
  {
    match reservationId
    case Some(id) =>
      IntStringChars(id, '/');
      ParseIntIntString(id);
      IntString(id)
    case None => "undefined"
  }

  /** `/api/reservations/${id}/add-team`: the route that adds a team to a reservation. */
  function AddTeamPath(reservationId: Option<int>): (path: string)
    ensures Split(path, '/') == ["", "api", "reservations", IdSegment(reservationId), "add-team"]
  {
    var pieces := ["", "api", "reservations", IdSegment(reservationId), "add-team"];
    assert forall k :: 0 <= k < |pieces| ==> '/' !in pieces[k];
    SplitJoin(pieces, '/');
    Join(pieces, '/')
  }

  /** `/api/teams/${teamId}`: the route that updates one team. */
  function TeamPath(teamId: int): (path: string)
    ensures Split(path, '/') == ["", "api", "teams", IntString(teamId)]
  {
    var pieces := ["", "api", "teams", IntString(teamId)];
    IntStringChars(teamId, '/');
    assert forall k :: 0 <= k < |pieces| ==> '/' !in pieces[k];
    SplitJoin(pieces, '/');
    Join(pieces, '/')
  }

  /** The add-team route is the string the page builds. */
  lemma AddTeamPathText(reservationId: Option<int>)
    ensures AddTeamPath(reservationId) == "/api/reservations/" + IdSegment(reservationId) + "/add-team"
  {
    var id := IdSegment(reservationId);
    var j3 := Join([id, "add-team"], '/');
    var j2 := Join(["reservations", id, "add-team"], '/');
    var j1 := Join(["api", "reservations", id, "add-team"], '/');
    assert ["", "api", "reservations", id, "add-team"][1..] == ["api", "reservations", id, "add-team"];
    assert ["api", "reservations", id, "add-team"][1..] == ["reservations", id, "add-team"];
    assert ["reservations", id, "add-team"][1..] == [id, "add-team"];
    assert [id, "add-team"][1..] == ["add-team"];
    assert Join(["add-team"], '/') == "add-team";
    assert j3 == id + "/add-team";
    assert j2 == "reservations/" + j3;
    assert j1 == "api/" + j2;
    assert Join(["", "api", "reservations", id, "add-team"], '/') == "" + "/" + j1;
    assert AddTeamPath(reservationId) == Join(["", "api", "reservations", id, "add-team"], '/');
    assert AddTeamPath(reservationId) == "/" + ("api/" + ("reservations/" + (id + "/add-team")));
    Regroup("/", "api/", "reservations/", id, "/add-team");
    ReservationsPrefix();
  }

  /** The team route is the string the page builds. */
  lemma TeamPathText(teamId: int)
    ensures TeamPath(teamId) == "/api/teams/" + IntString(teamId)
  {
    var id := IntString(teamId);
    var j2 := Join(["teams", id], '/');
    var j1 := Join(["api", "teams", id], '/');
    assert ["", "api", "teams", id][1..] == ["api", "teams", id];
    assert ["api", "teams", id][1..] == ["teams", id];
    assert ["teams", id][1..] == [id];
    assert Join([id], '/') == id;
    assert j2 == "teams/" + id;
    assert j1 == "api/" + j2;
    assert TeamPath(teamId) == "" + "/" + j1;
    assert TeamPath(teamId) == "/" + ("api/" + ("teams/" + id));
    Regroup("/", "api/", "teams/", id, "");
    TeamsPrefix();
  }

  lemma Regroup(a: string, b: string, c: string, d: string, e: string)
    ensures a + (b + (c + (d + e))) == a + b + c + d + e
  {
  }

  lemma ReservationsPrefix()
    ensures "/" + "api/" + "reservations/" == "/api/reservations/"
  {
  }

  lemma TeamsPrefix()
    ensures "/" + "api/" + "teams/" == "/api/teams/"
  {
  }
}
