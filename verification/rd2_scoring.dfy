/** The oldest package's value types (rd2weekly/src/scoring): a team's point totals,
    its win/loss/tie lists, players, and teams with a point mode. */
module Rd2Scoring {
  import opened Outcomes

  /** `TeamPoints`: a name and the hitting and pitching totals. */
  datatype TeamPoints = TeamPoints(name: string, hitting: real, pitching: real)

  /** `TeamPoints(name)`: nothing scored yet. */
  function NewTeamPoints(name: string): (r: TeamPoints)
    ensures r.name == name && r.hitting == 0.0 && r.pitching == 0.0 && TotalPoints(r) == 0.0
  {
    TeamPoints(name, 0.0, 0.0)
  }

  /** `totalPoints`. */
  function TotalPoints(p: TeamPoints): real
  {
    p.hitting + p.pitching
  }

  /** `addHittingPoints`: the hitting total grows by the argument, and with it the total;
      the pitching total stays. */
  function AddHittingPoints(p: TeamPoints, points: real): (r: TeamPoints)
    ensures r.name == p.name && r.pitching == p.pitching
    ensures TotalPoints(r) == TotalPoints(p) + points
  {
    p.(hitting := p.hitting + points)
  }

  /** `addPitchingPoints` as written: it adds to the same slot as `addHittingPoints`. */
  function AddPitchingPointsAsWritten(p: TeamPoints, points: real): (r: TeamPoints)
    ensures TotalPoints(r) == TotalPoints(p) + points
  {
    p.(hitting := p.hitting + points)
  }

  /** As written, pitching points never reach the pitching total: they land in hitting,
      which is exactly what adding them as hitting points does. */
  lemma AsWrittenPitchingLandsInHitting(p: TeamPoints, points: real)
    ensures AddPitchingPointsAsWritten(p, points) == AddHittingPoints(p, points)
    ensures AddPitchingPointsAsWritten(p, points).pitching == p.pitching
    ensures AddPitchingPointsAsWritten(NewTeamPoints("A"), 5.0) == TeamPoints("A", 5.0, 0.0)
  {
  }

  /** `addPitchingPoints` as its name promises: the pitching total grows by the argument,
      and with it the total; the hitting total stays. */
  function AddPitchingPoints(p: TeamPoints, points: real): (r: TeamPoints)
    ensures r.name == p.name && r.hitting == p.hitting
    ensures TotalPoints(r) == TotalPoints(p) + points
  {
    p.(pitching := p.pitching + points)
  }

  /** Hitting and pitching points are kept apart: adding one kind never changes the other
      kind's total, and the two additions commute. */
  lemma AddsKeepSplit(p: TeamPoints, h: real, q: real)
    ensures AddPitchingPoints(AddHittingPoints(p, h), q) == AddHittingPoints(AddPitchingPoints(p, q), h)
    ensures AddPitchingPoints(AddHittingPoints(p, h), q) == TeamPoints(p.name, p.hitting + h, p.pitching + q)
  {
  }

  /** `WinLossTie`: the opponents beaten, lost to and tied, by name. */
  datatype WinLossTie = WinLossTie(wins: seq<string>, losses: seq<string>, ties: seq<string>)

  /** `WinLossTie()`: three empty lists. */
  function NewWinLossTie(): (r: WinLossTie)
    ensures |r.wins| == 0 && |r.losses| == 0 && |r.ties| == 0
  {
    WinLossTie([], [], [])
  }

  /** `addWin`: the name goes at the end of the wins; the other lists stay. */
  function AddWin(r: WinLossTie, other: string): (s: WinLossTie)
    ensures s.losses == r.losses && s.ties == r.ties
    ensures |s.wins| == |r.wins| + 1 && s.wins[..|r.wins|] == r.wins && s.wins[|r.wins|] == other
    ensures Games(s) == Games(r) + 1
  {
    r.(wins := r.wins + [other])
  }

  /** `addLoss`: the name goes at the end of the losses; the other lists stay. */
  function AddLoss(r: WinLossTie, other: string): (s: WinLossTie)
    ensures s.wins == r.wins && s.ties == r.ties
    ensures |s.losses| == |r.losses| + 1 && s.losses[..|r.losses|] == r.losses && s.losses[|r.losses|] == other
    ensures Games(s) == Games(r) + 1
  {
    r.(losses := r.losses + [other])
  }

  /** `addTie`: the name goes at the end of the ties; the other lists stay. */
  function AddTie(r: WinLossTie, other: string): (s: WinLossTie)
    ensures s.wins == r.wins && s.losses == r.losses
    ensures |s.ties| == |r.ties| + 1 && s.ties[..|r.ties|] == r.ties && s.ties[|r.ties|] == other
    ensures Games(s) == Games(r) + 1
  {
    r.(ties := r.ties + [other])
  }

  /** The number of results recorded. */
  function Games(r: WinLossTie): nat
  {
    |r.wins| + |r.losses| + |r.ties|
  }

  /** The three additions commute: the order two results arrive in does not matter. */
  lemma AddsCommute(r: WinLossTie, a: string, b: string)
    ensures AddLoss(AddWin(r, a), b) == AddWin(AddLoss(r, b), a)
    ensures AddTie(AddWin(r, a), b) == AddWin(AddTie(r, b), a)
    ensures AddTie(AddLoss(r, a), b) == AddLoss(AddTie(r, b), a)
  {
  }

  /** `Player`: a scorer with its id, eligible positions, points and whether it played
      from the active lineup. */
  datatype Player = Player(name: string, cbsId: int, positions: seq<string>, points: real, active: bool)

  /** `Team`: its name, point totals, record, players and point mode (unset at first). */
  datatype Team = Team(name: string, points: TeamPoints, record: WinLossTie, players: seq<Player>, pointMode: Option<string>)

  /** `Team(name)`. */
  function NewTeam(name: string): (t: Team)
    ensures t.name == name && t.points == NewTeamPoints(name) && t.record == NewWinLossTie()
    ensures |t.players| == 0 && t.pointMode == None
  {
    Team(name, NewTeamPoints(name), NewWinLossTie(), [], None)
  }

  /** What the `points` property yields: a number in the three named modes, the totals
      record in any other. */
  datatype PointsView = Scalar(value: real) | Record(totals: TeamPoints)

  /** The point modes that turn `points` into a number. */
  predicate ScalarMode(mode: Option<string>)
  {
    mode == Some("total") || mode == Some("hitting") || mode == Some("pitching")
  }

  /** `Team.points`: the total, hitting or pitching points for "total", "hitting" or
      "pitching", the totals record otherwise. */
  function Points(t: Team): (r: PointsView)
    ensures r.Scalar? <==> ScalarMode(t.pointMode)
    ensures r.Record? ==> r.totals == t.points
    ensures r.Scalar? ==> r.value == (if t.pointMode == Some("total") then TotalPoints(t.points)
      else if t.pointMode == Some("hitting") then t.points.hitting else t.points.pitching)
  {
    match t.pointMode
    case Some(mode) =>
      if mode == "total" then Scalar(TotalPoints(t.points))
      else if mode == "hitting" then Scalar(t.points.hitting)
      else if mode == "pitching" then Scalar(t.points.pitching)
      else Record(t.points)
    case None => Record(t.points)
  }

  /** The total mode reads the sum of the two modes that read one half each. */
  lemma PointModesAdd(t: Team)
    ensures Points(t.(pointMode := Some("total"))).value
      == Points(t.(pointMode := Some("hitting"))).value + Points(t.(pointMode := Some("pitching"))).value
  {
  }

  /** `newPlayer in self.players`: a list search compares by identity first and falls
      back to `Player.__eq__`, which reads an attribute players do not have. Player
      values stand for objects here, so finding the player first answers yes, running
      out answers no, and meeting any other player fails. */
  function PlayerIn(players: seq<Player>, p: Player): (r: Result<bool>)
    ensures |players| == 0 ==> r == Ok(false)
    ensures r == Ok(true) ==> p in players
    ensures |players| > 0 ==> (r.Ok? <==> players[0] == p)
    ensures r.Raise? ==> r.error == AttributeError
  {
    if |players| == 0 then Ok(false)
    else if players[0] == p then Ok(true)
    else Raise(AttributeError)
  }

  /** `addPlayer`: a player not already listed has its points added with
      `addPitchingPoints` when "P" is among its positions and with `addHittingPoints`
      otherwise; a listed player changes nothing. The player list itself never grows. In
      a number-valued point mode the totals record is out of reach and the addition
      fails. The pitching addition is the one `TeamPoints` has as written. */
  function AddPlayer(t: Team, p: Player): (r: Result<Team>)
    ensures PlayerIn(t.players, p) == Ok(true) ==> r == Ok(t)
    ensures |t.players| > 0 && t.players[0] != p ==> r == Raise(AttributeError)
    ensures PlayerIn(t.players, p) == Ok(false) ==> (r.Raise? <==> ScalarMode(t.pointMode))
    ensures r.Raise? ==> r.error == AttributeError
    ensures r.Ok? ==> (r.value.players == t.players && r.value.name == t.name
      && r.value.record == t.record && r.value.pointMode == t.pointMode)
  {
    var listed :- PlayerIn(t.players, p);
    if listed then Ok(t)
    else
      match Points(t)
      case Scalar(_) => Raise(AttributeError)
      case Record(totals) =>
        if "P" in p.positions then Ok(t.(points := AddPitchingPointsAsWritten(totals, p.points)))
        else Ok(t.(points := AddHittingPoints(totals, p.points)))
  }

  /** As written, a newly added player's points all go to hitting, pitcher or not:
      pitching never moves. */
  lemma AddPlayerAllHitting(t: Team, p: Player)
    requires PlayerIn(t.players, p) == Ok(false) && !ScalarMode(t.pointMode)
    ensures var r := AddPlayer(t, p).value;
      && r.points.hitting == t.points.hitting + p.points
      && r.points.pitching == t.points.pitching
      && TotalPoints(r.points) == TotalPoints(t.points) + p.points
  {
  }

  /** `addPlayer` with the pitching addition its name promises. */
  function AddPlayerIntended(t: Team, p: Player): (r: Result<Team>)
    ensures PlayerIn(t.players, p) == Ok(true) ==> r == Ok(t)
    ensures |t.players| > 0 && t.players[0] != p ==> r == Raise(AttributeError)
    ensures PlayerIn(t.players, p) == Ok(false) ==> (r.Raise? <==> ScalarMode(t.pointMode))
    ensures r.Raise? ==> r.error == AttributeError
    ensures r.Ok? ==> (r.value.players == t.players && r.value.name == t.name
      && r.value.record == t.record && r.value.pointMode == t.pointMode)
  {
    var listed :- PlayerIn(t.players, p);
    if listed then Ok(t)
    else
      match Points(t)
      case Scalar(_) => Raise(AttributeError)
      case Record(totals) =>
        if "P" in p.positions then Ok(t.(points := AddPitchingPoints(totals, p.points)))
        else Ok(t.(points := AddHittingPoints(totals, p.points)))
  }

  /** With the intended pitching addition, a newly added player's points go to pitching
      exactly when "P" is one of its listed positions and to hitting otherwise, and the
      team's total grows by them either way. The test is list membership, so a player
      listed only as "SP" or "RP" counts as hitting. */
  lemma AddPlayerRoutes(t: Team, p: Player)
    requires PlayerIn(t.players, p) == Ok(false) && !ScalarMode(t.pointMode)
    ensures var r := AddPlayerIntended(t, p).value;
      && TotalPoints(r.points) == TotalPoints(t.points) + p.points
      && ("P" in p.positions ==> r.points.hitting == t.points.hitting && r.points.pitching == t.points.pitching + p.points)
      && ("P" !in p.positions ==> r.points.pitching == t.points.pitching && r.points.hitting == t.points.hitting + p.points)
  {
  }

  /** The written and the intended addition fail alike and agree on the total; they give
      the same team exactly when "P" is not one of the player's listed positions or the
      player scored nothing. */
  lemma AddPlayerAgrees(t: Team, p: Player)
    ensures AddPlayer(t, p).Raise? <==> AddPlayerIntended(t, p).Raise?
    ensures AddPlayer(t, p).Ok? ==>
      TotalPoints(AddPlayer(t, p).value.points) == TotalPoints(AddPlayerIntended(t, p).value.points)
    ensures PlayerIn(t.players, p) == Ok(false) && !ScalarMode(t.pointMode) ==>
      (AddPlayer(t, p) == AddPlayerIntended(t, p) <==> "P" !in p.positions || p.points == 0.0)
  {
  }

  /** A fresh team takes any player: its list is empty, so nothing is compared. */
  lemma NewTeamTakesPlayers(name: string, p: Player)
    ensures AddPlayer(NewTeam(name), p).Ok?
    ensures AddPlayer(NewTeam(name), p).value.players == []
  {
  }

  /** `Team.__eq__`: teams are the same team when their names agree. */
  predicate TeamEq(a: Team, b: Team)
  {
    a.name == b.name
  }

  /** `Team.__lt__`: strictly fewer points and a different team. The comparison is
      between the number-valued points of both teams. */
  function TeamLess(a: Team, b: Team): (r: bool)
    requires ScalarMode(a.pointMode) && ScalarMode(b.pointMode)
    ensures r ==> !TeamEq(a, b) && !TeamEq(b, a)
  {
    Points(a).value < Points(b).value && !TeamEq(a, b)
  }

  /** `<` on teams is irreflexive and asymmetric, never holds between equal teams, and
      between different teams agrees with `<` on their points. */
  lemma TeamLessOrder(a: Team, b: Team)
    requires ScalarMode(a.pointMode) && ScalarMode(b.pointMode)
    ensures !TeamLess(a, a)
    ensures TeamLess(a, b) ==> !TeamLess(b, a)
    ensures !TeamEq(a, b) ==> (TeamLess(a, b) <==> Points(a).value < Points(b).value)
    ensures TeamEq(a, b) ==> !TeamLess(a, b) && !TeamLess(b, a)
  {
  }
}
